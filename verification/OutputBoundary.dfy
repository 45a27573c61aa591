/** The newline bookkeeping between output segments of one channel. */
module OutputBoundary {
  import opened Text

  /** How many newlines a text ends with. */
  function Trailing(text: string): nat {
    if text == "" || text[|text| - 1] != '\n' then 0 else 1 + Trailing(text[..|text| - 1])
  }

  predicate AllNewlines(text: string) {
    forall i :: 0 <= i < |text| ==> text[i] == '\n'
  }

  predicate EndsLine(text: string) {
    text != "" && text[|text| - 1] == '\n'
  }

  function Newlines(n: nat): string {
    if n == 0 then "" else Newlines(n - 1) + "\n"
  }

  function SegmentPrefix(lastDisplay: Option<string>, trailing: int, streamDisplay: string, forDisplay: string,
                         incoming: Option<string>): string
  {
    if lastDisplay.None? then ""
    else if lastDisplay.value == streamDisplay && forDisplay == streamDisplay then ""
    else if Max(0, trailing) >= 2 then ""
    else if forDisplay == streamDisplay && incoming.Some? && incoming.value != "" && incoming.value[0] == '\n' then ""
    else Newlines(2 - Max(0, trailing))
  }

  /** The number kept after raw text, given the number kept before it. */
  function RawTrailing(text: string, previous: nat): nat {
    if Trailing(text) > 0 && AllNewlines(text) then previous + Trailing(text) else Trailing(text)
  }

  lemma {:induction false} TrailingMeans(text: string)
    ensures Trailing(text) <= |text| && AllNewlines(text[|text| - Trailing(text)..])
    ensures Trailing(text) < |text| ==> text[|text| - Trailing(text) - 1] != '\n'
    ensures AllNewlines(text) <==> Trailing(text) == |text|
    ensures EndsLine(text) <==> Trailing(text) > 0
  {
    if EndsLine(text) {
      var front := text[..|text| - 1];
      TrailingMeans(front);
      assert text == front + ['\n'];
      assert text[|text| - Trailing(text)..] == front[|front| - Trailing(front)..] + ['\n'];
    }
  }

  /** Appending counts on from the end of the earlier text only when the new text is nothing but newlines. */
  lemma {:induction false} TrailingAppends(a: string, b: string)
    ensures Trailing(a + b) == if AllNewlines(b) then Trailing(a) + |b| else Trailing(b)
    decreases |b|
  {
    if b == "" {
      assert a + b == a;
    } else {
      var front := b[..|b| - 1];
      assert (a + b)[..|a + b| - 1] == a + front;
      assert b == front + [b[|b| - 1]];
      TrailingAppends(a, front);
      TrailingMeans(b);
      TrailingMeans(front);
    }
  }

  lemma {:induction false} NewlinesAre(n: nat)
    ensures |Newlines(n)| == n && AllNewlines(Newlines(n))
  {
    if n > 0 {
      NewlinesAre(n - 1);
    }
  }

  predicate StartsLine(text: Option<string>) {
    text.Some? && text.value != "" && text.value[0] == '\n'
  }

  /** Nothing is put before the first output, between stream texts, or before a stream text that brings a newline. */
  predicate NeedsNothing(lastDisplay: Option<string>, streamDisplay: string, forDisplay: string,
                         incoming: Option<string>)
  {
    || lastDisplay == None
    || (forDisplay == streamDisplay && (lastDisplay == Some(streamDisplay) || StartsLine(incoming)))
  }

  /** Otherwise the prefix has as many newlines as are missing to two, counting none for a negative number. */
  lemma PrefixMeans(lastDisplay: Option<string>, trailing: int, streamDisplay: string, forDisplay: string,
                    incoming: Option<string>)
    ensures var p := SegmentPrefix(lastDisplay, trailing, streamDisplay, forDisplay, incoming);
            && AllNewlines(p)
            && |p| == if NeedsNothing(lastDisplay, streamDisplay, forDisplay, incoming) || trailing >= 2 then 0
                      else if trailing == 1 then 1 else 2
  {
    NewlinesAre(0);
    NewlinesAre(1);
    NewlinesAre(2);
  }

  class OutputBoundaryState {
    const streamDisplay: string
    var lastDisplay: Option<string>
    var trailingNewlines: nat
    var atLineStart: bool
    ghost var text: string // everything written since the last display

    /** The kept numbers are what a recount of the text since the last display gives. */
    ghost predicate Exact()
      reads this
    {
      trailingNewlines == Trailing(text) && atLineStart == EndsLine(text)
    }

    constructor (streamDisplay: string, lastDisplay: Option<string> := None, trailing: int := 0,
                 atLineStart: bool := true)
      ensures this.streamDisplay == streamDisplay && this.lastDisplay == lastDisplay && this.atLineStart == atLineStart
      ensures trailingNewlines == Max(0, trailing) && text == ""
    {
      this.streamDisplay, this.lastDisplay, this.atLineStart, text := streamDisplay, lastDisplay, atLineStart, "";
      trailingNewlines := Max(0, trailing);
    }

    static method CountTrailingNewlines(text: string) returns (count: nat)
      ensures count == Trailing(text)
    {
      count := 0;
      var i := |text|;
      assert text[..i] == text;
      while i > 0 && text[i - 1] == '\n'
        invariant 0 <= i <= |text| && Trailing(text) == count + Trailing(text[..i])
      {
        assert text[..i][..i - 1] == text[..i - 1];
        count := count + 1;
        i := i - 1;
      }
      assert text[..i] == "" || text[..i][|text[..i]| - 1] != '\n';
    }

    method ObserveDisplay(display: string, value: string)
      modifies this
      ensures Exact() && text == value && lastDisplay == Some(display)
    {
      atLineStart := EndsLine(value);
      trailingNewlines := CountTrailingNewlines(value);
      lastDisplay := Some(display);
      text := value;
    }

    /** Raw text keeps the count exact, except that an empty write forgets newlines already there. */
    method ObserveRaw(value: string)
      modifies this
      ensures text == old(text) + value && lastDisplay == old(lastDisplay)
      ensures trailingNewlines == RawTrailing(value, old(trailingNewlines)) && atLineStart == EndsLine(value)
      ensures old(Exact()) ==> (Exact() <==> value != "" || !EndsLine(old(text)))
    {
      RawIsExact(text, value);
      atLineStart := EndsLine(value);
      var trailing := CountTrailingNewlines(value);
      trailingNewlines := if trailing > 0 && AllNewlines(value) then trailingNewlines + trailing else trailing;
      text := text + value;
    }

    method Clear()
      modifies this
      ensures lastDisplay == None && trailingNewlines == 0 && atLineStart
    {
      lastDisplay := None;
      trailingNewlines := 0;
      atLineStart := true;
    }

    /** After a display and any non-empty raw writes the count equals a recount of all they wrote. */
    method ObserveAll(display: string, value: string, raws: seq<string>)
      requires forall i :: 0 <= i < |raws| ==> raws[i] != ""
      modifies this
      ensures Exact() && text == value + Concat(raws) && lastDisplay == Some(display)
    {
      ObserveDisplay(display, value);
      assert raws[..0] == [];
      assert value + "" == value;
      for i := 0 to |raws|
        invariant Exact() && text == value + Concat(raws[..i]) && lastDisplay == Some(display)
      {
        ObserveRaw(raws[i]);
        assert raws[..i + 1] == raws[..i] + [raws[i]];
        ConcatGrows(raws[..i], raws[i]);
        assert value + Concat(raws[..i]) + raws[i] == value + Concat(raws[..i + 1]);
      }
      assert raws[..|raws|] == raws;
    }

    /**
     * The prefix is empty when nothing is needed; otherwise it fills up to two newlines, and never takes any away.
     */
    method Prefix(forDisplay: string, incoming: Option<string>) returns (prefix: string)
      ensures AllNewlines(prefix)
      ensures NeedsNothing(lastDisplay, streamDisplay, forDisplay, incoming) ==> prefix == ""
      ensures !NeedsNothing(lastDisplay, streamDisplay, forDisplay, incoming) ==>
                |prefix| == Max(0, 2 - trailingNewlines)
      ensures Exact() && !NeedsNothing(lastDisplay, streamDisplay, forDisplay, incoming) ==>
                Trailing(text + prefix) == Max(2, Trailing(text))
    {
      prefix := SegmentPrefix(lastDisplay, trailingNewlines, streamDisplay, forDisplay, incoming);
      TrailingAppends(text, prefix);
      PrefixMeans(lastDisplay, trailingNewlines, streamDisplay, forDisplay, incoming);
    }
  }

  lemma RawIsExact(text: string, value: string)
    ensures value != "" ==>
              RawTrailing(value, Trailing(text)) == Trailing(text + value) && EndsLine(text + value) == EndsLine(value)
    ensures value == "" ==> text + value == text && RawTrailing(value, Trailing(text)) == 0
    ensures Trailing(text) == 0 <==> !EndsLine(text)
  {
    TrailingAppends(text, value);
    TrailingMeans(value);
    TrailingMeans(text);
    if value == "" {
      assert text + value == text;
    }
  }
}
