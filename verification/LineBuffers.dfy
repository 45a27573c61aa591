/** The incremental line splitter for output that arrives in arbitrary chunks. */
module LineBuffers {
  import opened Text

  /** What a carriage return that no line feed follows means: a line end, a kept character, or nothing. */
  datatype Mode = Mode(treatCr: bool, keepCr: bool)

  /** Finished lines and the unfinished rest. */
  datatype Cut = Cut(lines: seq<string>, rest: string)

  function Before(lines: seq<string>, c: Cut): Cut {
    Cut(lines + c.lines, c.rest)
  }

  /** One pass over `text` with the current line so far. A final carriage return waits for what follows it. */
  function Split(m: Mode, text: string, line: string): Cut
    decreases |text|
  {
    if text == "" then Cut([], line)
    else if text[0] == '\n' then Before([line], Split(m, text[1..], ""))
    else if text[0] != '\r' then Split(m, text[1..], line + [text[0]])
    else if |text| == 1 then Cut([], line + "\r")
    else if text[1] == '\n' then Before([line], Split(m, text[2..], ""))
    else if m.treatCr then Before([line], Split(m, text[1..], ""))
    else if m.keepCr then Split(m, text[1..], line + "\r")
    else Split(m, text[1..], line)
  }

  // ---- The declarative meaning ---------------------------------------------------------------

  /** The text with every line end written as a line feed and every other carriage return resolved by the mode. */
  function Canon(m: Mode, text: string): string
    decreases |text|
  {
    if text == "" then ""
    else if text[0] != '\r' then [text[0]] + Canon(m, text[1..])
    else if |text| == 1 then "\r"
    else if text[1] == '\n' then "\n" + Canon(m, text[2..])
    else if m.treatCr then "\n" + Canon(m, text[1..])
    else if m.keepCr then "\r" + Canon(m, text[1..])
    else Canon(m, text[1..])
  }

  /** The pieces between the line feeds. */
  function Pieces(text: string): (r: seq<string>)
    ensures |r| >= 1
  {
    if text == "" then [""]
    else
      var rest := Pieces(text[1..]);
      if text[0] == '\n' then [""] + rest else [[text[0]] + rest[0]] + rest[1..]
  }

  function Link(piece: string, rest: string): string {
    piece + "\n" + rest
  }

  function Join(pieces: seq<string>): string
    requires |pieces| >= 1
  {
    if |pieces| == 1 then pieces[0] else Link(pieces[0], Join(pieces[1..]))
  }

  lemma Associates(a: string, b: string, c: string)
    ensures a + b + c == a + (b + c)
  {
  }

  predicate OneLine(s: string) {
    '\n' !in s
  }

  lemma LinkGrows(c: char, piece: string, rest: string)
    ensures Link([c] + piece, rest) == [c] + Link(piece, rest)
  {
    Associates([c], piece, "\n");
    Associates([c], piece + "\n", rest);
  }

  lemma JoinGrows(c: char, pieces: seq<string>, grown: seq<string>)
    requires |pieces| >= 1 && |grown| == |pieces| && grown[1..] == pieces[1..] && grown[0] == [c] + pieces[0]
    ensures Join(grown) == [c] + Join(pieces)
  {
    if |pieces| > 1 {
      LinkGrows(c, pieces[0], Join(pieces[1..]));
    }
  }

  lemma {:induction false} PiecesJoin(text: string)
    ensures Join(Pieces(text)) == text
    ensures forall p :: p in Pieces(text) ==> OneLine(p)
  {
    if text != "" {
      var rest, all := Pieces(text[1..]), Pieces(text);
      PiecesJoin(text[1..]);
      assert text == [text[0]] + text[1..];
      if text[0] == '\n' {
        assert all[1..] == rest;
      } else {
        JoinGrows(text[0], rest, all);
      }
      assert rest[0] in rest && forall p :: p in rest[1..] ==> p in rest;
    }
  }

  /** The pieces are the only way to read a text as lines without line feeds joined by line feeds. */
  lemma {:induction false} PiecesUnique(pieces: seq<string>)
    requires |pieces| >= 1 && forall p :: p in pieces ==> OneLine(p)
    ensures Pieces(Join(pieces)) == pieces
  {
    hide Pieces;
    var first, rest := pieces[0], pieces[1..];
    assert first in pieces;
    if rest == [] {
      assert pieces == [first];
      OnePiece(first);
    } else {
      assert forall p :: p in rest ==> p in pieces;
      PiecesUnique(rest);
      Broken(first, Join(rest));
      assert pieces == [first] + rest;
    }
  }

  lemma OnePiece(line: string)
    requires OneLine(line)
    ensures Pieces(line) == [line]
  {
    PiecesPrefix(line, "");
    assert line + "" == line;
  }

  lemma Broken(line: string, rest: string)
    requires OneLine(line)
    ensures Pieces(Link(line, rest)) == [line] + Pieces(rest)
  {
    var tail := "\n" + rest;
    assert tail[1..] == rest;
    assert Pieces(tail)[0] == "" && Pieces(tail)[1..] == Pieces(rest);
    PiecesPrefix(line, tail);
    Associates(line, "\n", rest);
    assert line + "" == line;
  }

  lemma {:induction false} PiecesPrefix(line: string, text: string)
    requires OneLine(line)
    ensures Pieces(line + text) == [line + Pieces(text)[0]] + Pieces(text)[1..]
  {
    var rest := Pieces(text);
    if line == "" {
      assert line + text == text && line + rest[0] == rest[0];
    } else {
      PiecesPrefix(line[1..], text);
      assert (line + text)[1..] == line[1..] + text;
      assert Pieces(line[1..] + text)[1..] == rest[1..];
      Associates([line[0]], line[1..], rest[0]);
      assert [line[0]] + line[1..] == line;
    }
  }

  lemma BeforeTwice(a: seq<string>, b: seq<string>, c: Cut)
    ensures Before(a, Before(b, c)) == Before(a + b, c)
  {
    assert a + (b + c.lines) == a + b + c.lines;
  }

  /** One character, or a whole line end, of a text that has more than a final carriage return left. */
  lemma SplitStep(m: Mode, text: string, line: string)
    requires text != "" && text != "\r"
    ensures Split(m, text, line) ==
            if text[0] == '\n' then Before([line], Split(m, text[1..], ""))
            else if text[0] != '\r' then Split(m, text[1..], line + [text[0]])
            else if text[1] == '\n' then Before([line], Split(m, text[2..], ""))
            else if m.treatCr then Before([line], Split(m, text[1..], ""))
            else if m.keepCr then Split(m, text[1..], line + "\r")
            else Split(m, text[1..], line)
  {
  }

  /** The one-pass splitter cuts the canonical text at its line feeds. */
  lemma {:induction false} SplitMeaning(m: Mode, text: string, line: string)
    requires OneLine(line)
    ensures var c := Split(m, text, line);
            c.lines + [c.rest] == Pieces(line + Canon(m, text))
    decreases |text|, 0
  {
    hide Pieces;
    if text == "" {
      OnePiece(line);
      assert line + "" == line;
    } else if text == "\r" {
      OnePiece(line + "\r");
    } else {
      SplitStep(m, text, line);
      CanonStep(m, text);
      hide Split, Canon;
      if text[0] == '\n' {
        LineMeaning(m, text[1..], line);
      } else if text[0] != '\r' {
        SplitMeaning(m, text[1..], line + [text[0]]);
        Associates(line, [text[0]], Canon(m, text[1..]));
      } else if text[1] == '\n' {
        LineMeaning(m, text[2..], line);
      } else if m.treatCr {
        LineMeaning(m, text[1..], line);
      } else if m.keepCr {
        SplitMeaning(m, text[1..], line + "\r");
        Associates(line, "\r", Canon(m, text[1..]));
      } else {
        SplitMeaning(m, text[1..], line);
      }
    }
  }

  lemma CanonStep(m: Mode, text: string)
    requires text != "" && text != "\r"
    ensures Canon(m, text) ==
            if text[0] != '\r' then [text[0]] + Canon(m, text[1..])
            else if text[1] == '\n' then "\n" + Canon(m, text[2..])
            else if m.treatCr then "\n" + Canon(m, text[1..])
            else if m.keepCr then "\r" + Canon(m, text[1..])
            else Canon(m, text[1..])
  {
  }

  /** The meaning of a text whose line so far has just ended. */
  lemma {:induction false} LineMeaning(m: Mode, text: string, line: string)
    requires OneLine(line)
    ensures var c := Before([line], Split(m, text, ""));
            c.lines + [c.rest] == Pieces(line + ("\n" + Canon(m, text)))
    decreases |text|, 1
  {
    hide Pieces, Split, Canon;
    SplitMeaning(m, text, "");
    Broken(line, Canon(m, text));
    Associates(line, "\n", Canon(m, text));
    assert "" + Canon(m, text) == Canon(m, text);
    var c := Split(m, text, "");
    assert [line] + c.lines + [c.rest] == [line] + (c.lines + [c.rest]);
  }

  // ---- Feeding in chunks ---------------------------------------------------------------------

  /** What feeding a chunk emits and leaves, for any buffer. */
  function Fed(m: Mode, buf: string, chunk: string): Cut {
    if chunk == "" then Cut([], buf) else Split(m, buf + chunk, "")
  }

  function FedAll(m: Mode, buf: string, chunks: seq<string>): Cut
    decreases |chunks|
  {
    if chunks == [] then Cut([], buf)
    else
      var c := Fed(m, buf, chunks[0]);
      Before(c.lines, FedAll(m, c.rest, chunks[1..]))
  }

  /** A line so far that scanning again would pass over: no line end in it, and none made by what comes next. */
  predicate Quiet(m: Mode, line: string, next: string) {
    && OneLine(line)
    && ('\r' in line ==> m.keepCr && !m.treatCr)
    && (line != "" && line[|line| - 1] == '\r' ==> next != "" && next[0] != '\n')
  }

  /** Scanning a quiet line again only puts it back. */
  lemma {:induction false} Rescan(m: Mode, done: string, line: string, next: string)
    requires Quiet(m, line, next)
    ensures Split(m, line + next, done) == Split(m, next, done + line)
    decreases |line|
  {
    if line == "" {
      assert line + next == next && done + line == done;
    } else {
      var text := line + next;
      assert text[0] == line[0] && text[1..] == line[1..] + next;
      assert done + [line[0]] + line[1..] == done + line;
      if line[0] == '\r' {
        assert line[0] in line;
        assert |text| > 1 && text[1] != '\n';
        assert done + "\r" == done + [line[0]];
      }
      Rescan(m, done + [line[0]], line[1..], next);
    }
  }

  /** Splitting can stop anywhere and go on from the rest it left. */
  lemma {:induction false} Resume(m: Mode, a: string, b: string, line: string)
    requires Quiet(m, line, a)
    ensures var c := Split(m, a, line);
            Split(m, a + b, line) == Before(c.lines, Split(m, c.rest + b, ""))
    decreases |a|, 0
  {
    hide Split;
    var text := a + b;
    if a == "" || a == "\r" {
      ResumeRest(m, a, b, line);
    } else {
      assert text[0] == a[0] && text[1..] == a[1..] + b && (|a| > 1 ==> text[1] == a[1]);
      SplitStep(m, a, line);
      SplitStep(m, text, line);
      if a[0] == '\n' {
        ResumeLine(m, a[1..], b, line);
      } else if a[0] != '\r' {
        Resume(m, a[1..], b, line + [a[0]]);
      } else if a[1] == '\n' {
        assert text[2..] == a[2..] + b;
        ResumeLine(m, a[2..], b, line);
      } else if m.treatCr {
        ResumeLine(m, a[1..], b, line);
      } else if m.keepCr {
        Resume(m, a[1..], b, line + "\r");
      } else {
        Resume(m, a[1..], b, line);
      }
    }
  }

  lemma {:induction false} ResumeLine(m: Mode, a: string, b: string, line: string)
    ensures var c := Before([line], Split(m, a, ""));
            Before([line], Split(m, a + b, "")) == Before(c.lines, Split(m, c.rest + b, ""))
    decreases |a|, 1
  {
    hide Split;
    Resume(m, a, b, "");
    var c := Split(m, a, "");
    BeforeTwice([line], c.lines, Split(m, c.rest + b, ""));
  }

  lemma ResumeRest(m: Mode, a: string, b: string, line: string)
    requires Quiet(m, line, a) && (a == "" || a == "\r")
    ensures var c := Split(m, a, line);
            Split(m, a + b, line) == Before(c.lines, Split(m, c.rest + b, ""))
  {
    assert Split(m, a, line) == Cut([], line + a) by {
      assert line + "" == line;
    }
    hide Split;
    if a == "" {
      Rescan(m, "", line, b);
      assert a + b == b && "" + line == line;
    } else {
      Rescan(m, "", line, a + b);
      assert "" + line == line && line + a + b == line + (a + b);
    }
    NothingBefore(Split(m, line + a + b, ""));
  }

  lemma NothingBefore(c: Cut)
    ensures Before([], c) == c
  {
    assert [] + c.lines == c.lines;
  }

  lemma {:induction false} FeedingSplits(m: Mode, text: string, chunks: seq<string>)
    ensures var c := Split(m, text, "");
            Before(c.lines, FedAll(m, c.rest, chunks)) == Split(m, text + Concat(chunks), "")
    decreases |chunks|
  {
    hide Split;
    var c := Split(m, text, "");
    if chunks == [] {
      assert text + "" == text && c.lines + [] == c.lines;
    } else {
      var chunk, rest := chunks[0], chunks[1..];
      FeedingSplits(m, text + chunk, rest);
      assert text + chunk + Concat(rest) == text + Concat(chunks);
      var f := Fed(m, c.rest, chunk);
      assert Before(c.lines, f) == Split(m, text + chunk, "") by {
        if chunk == "" {
          assert text + "" == text && c.lines + [] == c.lines;
        } else {
          Resume(m, text, chunk, "");
        }
      }
      BeforeTwice(c.lines, f.lines, FedAll(m, f.rest, rest));
    }
  }

  /**
   * Chunking invariance: however a text is cut into chunks, the lines fed out and the buffer left are the pieces of the
   * whole canonical text between its line feeds.
   */
  lemma ChunkingInvariance(m: Mode, chunks: seq<string>)
    ensures var c := FedAll(m, "", chunks);
            && c == Split(m, Concat(chunks), "")
            && c.lines + [c.rest] == Pieces(Canon(m, Concat(chunks)))
  {
    FeedingSplits(m, "", chunks);
    SplitMeaning(m, Concat(chunks), "");
    assert "" + Concat(chunks) == Concat(chunks);
    assert "" + Canon(m, Concat(chunks)) == Canon(m, Concat(chunks));
  }

  /**
   * With neither option set, the setting both tool drivers use, a text is cut at its line feeds once its carriage
   * returns are gone.
   */
  function WithoutCr(text: string): string {
    if text == "" then ""
    else if text[0] == '\r' then WithoutCr(text[1..])
    else [text[0]] + WithoutCr(text[1..])
  }

  lemma {:induction false} DefaultDropsCr(text: string)
    ensures Canon(Mode(false, false), text) ==
            WithoutCr(text) + if text != "" && text[|text| - 1] == '\r' then "\r" else ""
    decreases |text|
  {
    if text != "" && text != "\r" {
      DefaultDropsCr(text[1..]);
      if text[0] == '\r' && text[1] == '\n' && |text| > 2 {
        DefaultDropsCr(text[2..]);
        assert text[1..][1..] == text[2..];
      } else if text == "\r\n" {
        assert text[2..] == "" && text[1..] == "\n";
        assert text[1..][1..] == "";
      }
    }
  }

  // ---- The buffer ----------------------------------------------------------------------------

  predicate EndsWithCr(s: string) {
    s != "" && s[|s| - 1] == '\r'
  }

  function DropCr(s: string): string {
    if EndsWithCr(s) then s[..|s| - 1] else s
  }

  lemma QuietAtFirst(m: Mode, text: string)
    ensures Quiet(m, "", text) && text[..0] == "" && text[0..] == text
  {
  }

  /** A line that ends at a line feed has no carriage return to drop. */
  lemma QuietEnds(m: Mode, line: string, text: string)
    requires Quiet(m, line, text) && text != "" && text[0] == '\n'
    ensures DropCr(line) == line
  {
  }

  lemma QuietGrows(m: Mode, line: string, text: string)
    requires Quiet(m, line, text) && text != "" && text[0] != '\n'
    requires text[0] == '\r' ==> m.keepCr && !m.treatCr && |text| > 1 && text[1] != '\n'
    ensures Quiet(m, line + [text[0]], text[1..])
  {
  }

  lemma QuietWithout(m: Mode, line: string, text: string)
    requires Quiet(m, line, text) && text != "" && !m.keepCr
    ensures Quiet(m, line, text[1..])
  {
    assert line != "" ==> line[|line| - 1] in line;
  }

  /** At the end of the buffer, or before a final carriage return, there is nothing more to split. */
  lemma FeedingStops(m: Mode, buf: string, i: nat)
    requires i == |buf| || (i + 1 == |buf| && buf[i] == '\r')
    ensures Split(m, buf[i..], buf[..i]) == Cut([], buf)
  {
    if i < |buf| {
      assert buf[i..] == "\r" && buf[..i] + "\r" == buf;
    } else {
      assert buf[i..] == "" && buf[..i] == buf;
    }
  }

  class LineBuffer {
    var buf: string
    const mode: Mode

    constructor (mode: Mode)
      ensures buf == "" && this.mode == mode
    {
      buf := "";
      this.mode := mode;
    }

    method Reset()
      modifies this`buf
      ensures buf == ""
    {
      buf := "";
    }

    /** The carriage return that a line would lose at its line feed is never there: it was consumed with the feed. */
    method Feed(chunk: string) returns (out: seq<string>)
      modifies this`buf
      ensures Cut(out, buf) == Fed(mode, old(buf), chunk)
    {
      hide Split, Quiet;
      out := [];
      if chunk == "" {
        return;
      }
      buf := buf + chunk;
      ghost var whole := Split(mode, buf, "");
      var i, n := 0, |buf|;
      QuietAtFirst(mode, buf);
      NothingBefore(whole);
      while i < n
        invariant 0 <= i <= n == |buf|
        invariant Quiet(mode, buf[..i], buf[i..])
        invariant Before(out, Split(mode, buf[i..], buf[..i])) == whole
        decreases |buf| - i
      {
        var ch := buf[i];
        ghost var line, text := buf[..i], buf[i..];
        assert text[1..] == buf[i + 1..] && (i + 1 < n ==> text[1] == buf[i + 1]);
        if ch == '\r' && i + 1 == n {
          break;
        }
        SplitStep(mode, text, line);
        if ch == '\n' {
          QuietEnds(mode, line, text);
          BeforeTwice(out, [line], Split(mode, text[1..], ""));
          out := out + [DropCr(buf[..i])];
          buf := buf[i + 1..];
          i, n := 0, |buf|;
          QuietAtFirst(mode, buf);
          continue;
        }
        if ch == '\r' {
          if i + 1 < n && buf[i + 1] == '\n' {
            assert text[2..] == buf[i + 2..];
            BeforeTwice(out, [line], Split(mode, text[2..], ""));
            out := out + [buf[..i]];
            buf := buf[i + 2..];
            i, n := 0, |buf|;
            QuietAtFirst(mode, buf);
            continue;
          }
          if mode.treatCr {
            BeforeTwice(out, [line], Split(mode, text[1..], ""));
            out := out + [buf[..i]];
            buf := buf[i + 1..];
            i, n := 0, |buf|;
            QuietAtFirst(mode, buf);
            continue;
          } else {
            if !mode.keepCr {
              buf := buf[..i] + buf[i + 1..];
              n := n - 1;
              assert buf[..i] == line && buf[i..] == text[1..];
              QuietWithout(mode, line, text);
              continue;
            }
          }
        }
        assert line + [ch] == buf[..i + 1];
        QuietGrows(mode, line, text);
        i := i + 1;
      }
      FeedingStops(mode, buf, i);
      assert out + [] == out;
    }

    method Flush() returns (out: seq<string>)
      modifies this`buf
      ensures buf == ""
      ensures out == if Strip(DropCr(old(buf))) != "" then [Strip(DropCr(old(buf)))] else []
    {
      if buf == "" {
        return [];
      }
      var last := Strip(DropCr(buf));
      buf := "";
      return if last != "" then [last] else [];
    }
  }
}
