/** The consumer loop of a tool driver: chunks to lines to gate events. */
module Streaming {
  import opened Text
  import opened LineBuffers
  import opened Gates

  /** The lines a gate hears: stripped, blank ones dropped. */
  function Heard(lines: seq<string>): seq<string> {
    if lines == [] then []
    else
      var last := Strip(lines[|lines| - 1]);
      Heard(lines[..|lines| - 1]) + if last == "" then [] else [last]
  }

  lemma {:induction false} HeardConcat(a: seq<string>, b: seq<string>)
    ensures Heard(a + b) == Heard(a) + Heard(b)
    decreases |b|
  {
    hide Strip;
    if b == [] {
      assert a + b == a;
    } else {
      assert (a + b)[..|a + b| - 1] == a + b[..|b| - 1];
      HeardConcat(a, b[..|b| - 1]);
    }
  }

  lemma {:induction false} TrimLeftAppends(s: string, c: char)
    requires IsSpace(c)
    ensures TrimLeft(s + [c]) == if TrimLeft(s) == "" then "" else TrimLeft(s) + [c]
    decreases |s|
  {
    if s == "" {
      assert s + [c] == [c] && [c][1..] == "";
    } else {
      assert (s + [c])[1..] == s[1..] + [c];
      if IsSpace(s[0]) {
        TrimLeftAppends(s[1..], c);
      }
    }
  }

  /** White space at the end of a text does not matter to stripping, so flushing loses nothing. */
  lemma StripIgnoresEnd(s: string, c: char)
    requires IsSpace(c)
    ensures Strip(s + [c]) == Strip(s)
  {
    TrimLeftAppends(s, c);
    if TrimLeft(s) != "" {
      assert (TrimLeft(s) + [c])[..|TrimLeft(s)|] == TrimLeft(s);
    }
  }

  lemma FlushHears(rest: string)
    ensures Heard([rest]) == if Strip(DropCr(rest)) != "" then [Strip(DropCr(rest))] else []
  {
    if EndsWithCr(rest) {
      assert rest == rest[..|rest| - 1] + ['\r'];
      StripIgnoresEnd(rest[..|rest| - 1], '\r');
    }
    assert [rest][..0] == [];
  }

  /** One line of output, stripped and fed if anything is left of it. */
  method Hear<V>(gate: GateMachine<V>, line: string, ghost heard: seq<string>, events: seq<Emission<V>>)
    returns (more: seq<Emission<V>>)
    requires (gate.state, events) == PassAll(gate.spec, Heard(heard))
    modifies gate`state
    ensures (gate.state, more) == PassAll(gate.spec, Heard(heard + [line]))
  {
    hide Strip, Pass;
    more := events;
    var text := Strip(line);
    assert (heard + [line])[..|heard|] == heard;
    if text != "" {
      ghost var told := Heard(heard) + [text];
      assert Heard(heard + [line]) == told && told[..|told| - 1] == Heard(heard);
      var out := gate.FeedChunk(text);
      if out.Some? {
        more := more + [out.value];
      }
      assert more == events + Emitted(out);
    } else {
      assert Heard(heard) + [] == Heard(heard);
    }
  }

  /**
   * However the output is cut into chunks, a gate emits what it emits on the stripped lines of the whole text: the
   * pieces of the canonical text between its line feeds.
   */
  method Stream<V>(mode: Mode, spec: GateSpec<V>, chunks: seq<string>) returns (events: seq<Emission<V>>)
    ensures events == PassAll(spec, Heard(Pieces(Canon(mode, Concat(chunks))))).1
  {
    hide Strip, Pass, Split, Heard, PassAll, Canon, Pieces;
    var lb := new LineBuffer(mode);
    var gate := new GateMachine(spec);
    events := [];
    ghost var lines: seq<string> := [];
    HeardNothing(spec);
    for i := 0 to |chunks|
      invariant fresh(lb) && fresh(gate) && gate.spec == spec && lb.mode == mode
      invariant Before(lines, FedAll(mode, lb.buf, chunks[i..])) == FedAll(mode, "", chunks)
      invariant (gate.state, events) == PassAll(spec, Heard(lines))
    {
      ghost var before := lines;
      ghost var buf := lb.buf;
      var out := lb.Feed(chunks[i]);
      FeedOne(mode, buf, chunks, i, before);
      ghost var rest := lb.buf;
      for j := 0 to |out|
        invariant gate.spec == spec && lb.buf == rest
        invariant lines == before + out[..j]
        invariant (gate.state, events) == PassAll(spec, Heard(lines))
      {
        events := Hear(gate, out[j], lines, events);
        lines := lines + [out[j]];
      }
      assert out[..|out|] == out;
    }
    ghost var rest := lb.buf;
    assert lines == FedAll(mode, "", chunks).lines && rest == FedAll(mode, "", chunks).rest;
    var out := lb.Flush();
    FlushHears(rest);
    if out != [] {
      events := HearLast(gate, out[0], lines, rest, events);
    } else {
      HeardConcat(lines, [rest]);
      assert Heard(lines) + [] == Heard(lines);
    }
    ChunkingInvariance(mode, chunks);
  }

  lemma FeedOne(m: Mode, buf: string, chunks: seq<string>, i: nat, before: seq<string>)
    requires i < |chunks|
    ensures var c := Fed(m, buf, chunks[i]);
            Before(before, FedAll(m, buf, chunks[i..])) == Before(before + c.lines, FedAll(m, c.rest, chunks[i + 1..]))
  {
    hide Fed;
    assert chunks[i..][1..] == chunks[i + 1..];
    var c := Fed(m, buf, chunks[i]);
    var tail := FedAll(m, c.rest, chunks[i + 1..]);
    assert before + (c.lines + tail.lines) == before + c.lines + tail.lines;
  }

  lemma HeardNothing<V>(spec: GateSpec<V>)
    ensures PassAll(spec, Heard([])) == (Initial(), [])
  {
  }

  /** The flushed line is heard as the unfinished rest it came from. */
  method HearLast<V>(gate: GateMachine<V>, flushed: string, ghost lines: seq<string>, ghost rest: string,
                     events: seq<Emission<V>>)
    returns (more: seq<Emission<V>>)
    requires (gate.state, events) == PassAll(gate.spec, Heard(lines))
    requires flushed == Strip(DropCr(rest)) && flushed != "" && Heard([rest]) == [flushed]
    modifies gate`state
    ensures (gate.state, more) == PassAll(gate.spec, Heard(lines + [rest]))
  {
    hide Strip, Pass, PassAll;
    StripTwice(DropCr(rest));
    HeardConcat(lines, [rest]);
    HeardConcat(lines, [flushed]);
    OneHeard(flushed);
    more := Hear(gate, flushed, lines, events);
  }

  lemma StripTwice(s: string)
    ensures Strip(Strip(s)) == Strip(s)
  {
    StripIdempotent(s);
  }

  lemma OneHeard(s: string)
    requires Strip(s) == s && s != ""
    ensures Heard([s]) == [s]
  {
    hide Strip;
    assert [s][..0] == [];
  }
}
