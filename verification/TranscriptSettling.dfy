/** Which replayed lists are told again as they are: only tool entries can fail to be, each within its own call. */
module TranscriptSettling {
  import opened Text
  import opened Transcripts
  import opened TranscriptRefinement
  import opened TranscriptConservation
  import opened TranscriptCalls

  /** Telling the entry after `before` appends it as it is. */
  predicate Told(before: seq<Entry>, e: Entry) {
    Decide(Story(before, Narrate(before).memory), e) == Append(e)
  }

  predicate Settled(items: seq<Entry>) {
    items == [] || (Settled(items[..|items| - 1]) && Told(items[..|items| - 1], items[|items| - 1]))
  }

  // ---- Settled lists are the fixed points ----------------------------------------------------

  lemma GrowsByOne(s: Story, e: Entry)
    ensures |Tell(s, e).items| <= |s.items| + 1
    ensures |Tell(s, e).items| == |s.items| + 1 ==> Decide(s, e).Append?
  {
    hide Decide, Withdrawn, Remember;
    var a := Decide(s, e);
    if a.Withdraw? {
      WithdrawnKeeps(s.items, a.marker);
    }
  }

  lemma {:induction false} NoLonger(log: seq<Entry>)
    ensures |Narrate(log).items| <= |log|
  {
    hide Tell;
    if log != [] {
      NoLonger(log[..|log| - 1]);
      GrowsByOne(Narrate(log[..|log| - 1]), log[|log| - 1]);
    }
  }

  lemma {:induction false} SettledIffFixed(items: seq<Entry>)
    ensures Settled(items) <==> Narrate(items).items == items
  {
    hide Decide, Remember;
    if items != [] {
      var n := |items| - 1;
      var front, e := items[..n], items[n];
      var s := Narrate(front);
      SettledIffFixed(front);
      NoLonger(front);
      GrowsByOne(s, e);
      assert items == front + [e];
      assert Narrate(items) == Tell(s, e);
      if Narrate(items).items == items {
        var x := Decide(s, e).entry;
        assert s.items + [x] == front + [e];
        assert s.items == (s.items + [x])[..n] == front && x == (s.items + [x])[n];
        assert s == Story(front, s.memory);
      }
    }
  }

  lemma ShapedIsClean(items: seq<Entry>)
    requires AllShaped(items)
    ensures Clean(items)
  {
    hide Accepted, Body;
    NoRemovalIsClean(items);
  }

  // ---- Only tool entries can fail to settle --------------------------------------------------

  predicate ToolEntry(e: Entry) {
    (Accepted(e) || Completion(e.event)) && Call(e) != ""
  }

  /** Messages and compactions are told as they are, because no identity has two. */
  lemma OthersTold(log: seq<Entry>, i: nat)
    requires WellActored(log) && i < |Narrate(log).items| && !ToolEntry(Narrate(log).items[i])
    ensures Told(Narrate(log).items[..i], Narrate(log).items[i])
  {
    hide Decide, Narrate, Trace, Shaped, Accepted, Opens, PayloadText, Sequenced, FindBelow, Conserved, Body;
    var items, slots := Narrate(log).items, Trace(log);
    var e, before := items[i], items[..i];
    var s := Story(before, Narrate(before).memory);
    NarrationShaped(log);
    assert e in items;
    assert forall y :: y in before ==> y in items;
    if Completion(e.event) {
      CompletionEffect(s, e);
    } else if e.event.MessageCreated? {
      Unrepeated(log, i);
      assert Voiced(before);
      assert WellActed(e);
      MessageTarget(s, e);
      MessageReaches(s, e);
    } else {
      Unrepeated(log, i);
      ShapedOpens(e);
      OtherTarget(s, e);
    }
  }

  lemma MessageReaches(s: Story, e: Entry)
    requires Shaped(e) && e.event.MessageCreated?
    requires e.actor == Some(Assistant) && Item(e) != "" ==> Find(s.items, MessageOf(e.turn, Item(e))).None?
    ensures Decide(s, e) == Append(e)
  {
    hide PayloadText, FindBelow;
  }

  lemma ShapedOpens(e: Entry)
    requires Shaped(e) && !e.event.MessageCreated? && !Completion(e.event)
    ensures Opens(e) || Sequenced(e)
    ensures !e.event.MessageUpdated? && !e.event.MessageSuperseded?
  {
  }

  /** No earlier entry has the message or compaction identity of entry `i`. */
  lemma Unrepeated(log: seq<Entry>, i: nat)
    requires WellActored(log) && i < |Narrate(log).items|
    ensures var items := Narrate(log).items;
            && (items[i].actor == Some(Assistant) && Item(items[i]) != "" ==>
                  Find(items[..i], MessageOf(items[i].turn, Item(items[i]))).None?)
            && (Sequenced(items[i]) ==> Find(items[..i], CompactionOf(items[i].turn, Item(items[i]))).None?)
  {
    hide Narrate, Trace, PayloadText, Sequenced, FindBelow, Faithful, PlacesKept, CompactionsKept, WellActored;
    var items, slots := Narrate(log).items, Trace(log);
    FoldConserves(log);
    forall j | 0 <= j < i ensures !SameThing(items[j], items[i]) {
      assert slots[j] in slots && slots[i] in slots;
      assert slots[j].born < slots[i].born;
    }
    assert Sequenced(items[i]) ==> Item(items[i]) != "";
    var k := MessageOf(items[i].turn, Item(items[i]));
    var l := CompactionOf(items[i].turn, Item(items[i]));
    var at, there := Find(items[..i], k), Find(items[..i], l);
    assert at.Some? ==> Denotes(k, items[at.value]);
    assert there.Some? ==> Denotes(l, items[there.value]);
  }

  /** Whether a tool entry is told as it is shows in the trail of its call. */
  lemma ToldInTrail(before: seq<Entry>, e: Entry, c: string)
    requires AllShaped(before) && c != "" && OfCall(e, c)
    ensures Told(before, e) <==> Told(Trail(before, c), e)
  {
    hide PayloadText, Merges, Decide, Narrate, Accepted, Shaped, Trail, FindBelow;
    var s, t := Story(before, Narrate(before).memory), Story(Trail(before, c), Narrate(Trail(before, c)).memory);
    MemoryAlike(before, c);
    if Completion(e.event) {
      CompletionEffect(s, e);
      CompletionEffect(t, e);
      TrailFind(before, c);
    } else {
      StartAppends(s, e);
      StartAppends(t, e);
    }
  }

  lemma SettledGrows(items: seq<Entry>, x: Entry)
    ensures Settled(items + [x]) <==> Settled(items) && Told(items, x)
  {
    hide Told;
    assert (items + [x])[..|items|] == items;
  }

  lemma TrailSettles(front: seq<Entry>, e: Entry, c: string)
    requires AllShaped(front) && c != ""
    ensures Settled(Trail(front + [e], c)) <==> Settled(Trail(front, c)) && (OfCall(e, c) ==> Told(front, e))
  {
    hide Settled, Told, Shaped, OfCall, Trail;
    TrailConcat(front, [e], c);
    TrailOne(e, c);
    if OfCall(e, c) {
      ToldInTrail(front, e, c);
      SettledGrows(Trail(front, c), e);
    } else {
      assert Trail(front, c) + [] == Trail(front, c);
    }
  }

  lemma {:induction false} SettledByCalls(items: seq<Entry>)
    requires AllShaped(items)
    requires forall i :: 0 <= i < |items| && !ToolEntry(items[i]) ==> Told(items[..i], items[i])
    ensures Settled(items) <==> forall c :: c != "" ==> Settled(Trail(items, c))
  {
    hide Told, Shaped, OfCall, ToolEntry, Settled, Trail;
    if items == [] {
      SettledAtStart();
    } else {
      var n := |items| - 1;
      var front, e := items[..n], items[n];
      assert forall i :: 0 <= i < n ==> front[..i] == items[..i] && front[i] == items[i];
      assert ToolEntry(e) || Told(front, e);
      assert items == front + [e];
      SettledByCalls(front);
      SettledGrows(front, e);
      if !Told(front, e) {
        ToolOfCall(e);
        TrailSettles(front, e, Call(e));
      } else if !Settled(front) {
        var c :| c != "" && !Settled(Trail(front, c));
        TrailSettles(front, e, c);
      } else {
        forall c | c != "" ensures Settled(Trail(items, c)) {
          assert Settled(Trail(front, c));
          TrailSettles(front, e, c);
        }
      }
    }
  }

  lemma SettledAtStart()
    ensures Settled([]) && forall c :: Settled(Trail([], c))
  {
  }

  lemma ToolOfCall(e: Entry)
    requires ToolEntry(e)
    ensures OfCall(e, Call(e)) && Call(e) != ""
  {
  }

  // ---- One call ------------------------------------------------------------------------------

  predicate AllOfCall(log: seq<Entry>, c: string) {
    forall i :: 0 <= i < |log| ==> OfCall(log[i], c)
  }

  /**
   * Told after `before`, the completion would not stay as it is: a start of its call is open there and would take it,
   * or a start's fields are kept there that it does not have.
   */
  predicate Caught(before: seq<Entry>, x: Entry) {
    var m, c := Narrate(before).memory, Call(x);
    if c in m.open then
      var at := Find(before, StartOf(c));
      at.Some? && !(x.event.ToolFailed? && ToolName(before[at.value]) == "apply_patch")
    else c in m.unmerged && m.unmerged[c] + x.payload != x.payload
  }

  lemma ToldUnlessCaught(before: seq<Entry>, x: Entry)
    requires Completion(x.event) && Call(x) != ""
    ensures Told(before, x) <==> !Caught(before, x)
  {
    hide PayloadText, Decide, Narrate, FindBelow;
    CompletionEffect(Story(before, Narrate(before).memory), x);
  }

  /** Event `n` completes a start in place, and below that place the completion would be caught. */
  ghost predicate Recaught(log: seq<Entry>, n: nat)
    requires n < |log|
  {
    var s := Narrate(log[..n]);
    var a := Decide(s, log[n]);
    a.Replace? && Caught(s.items[..a.at], a.entry)
  }

  predicate PlainStarts(above: seq<Entry>, c: string) {
    forall i :: 0 <= i < |above| ==> Accepted(above[i]) && Call(above[i]) == c && !Merges(ToolName(above[i]))
  }

  /**
   * The list of a single call next to what retelling it remembers: the same calls are open, and the fields kept are
   * among those the replay keeps; above an open start there are only starts of the other kind.
   */
  ghost predicate Parallel(s: Story, c: string) {
    var m := Narrate(s.items).memory;
    && AllOfCall(s.items, c) && AllShaped(s.items)
    && (c in s.memory.open <==> c in m.open)
    && (c in m.unmerged ==> c in s.memory.unmerged && s.memory.unmerged[c] == m.unmerged[c])
    && (c in s.memory.open ==>
          var at := Find(s.items, StartOf(c));
          at.Some? && PlainStarts(s.items[at.value + 1..], c))
  }

  lemma {:induction false} SettledWith(base: seq<Entry>, above: seq<Entry>, c: string)
    requires PlainStarts(above, c)
    ensures Settled(base + above) <==> Settled(base)
  {
    hide Told, Accepted, Merges;
    if above == [] {
      assert base + above == base;
    } else {
      var n := |above| - 1;
      SettledWith(base, above[..n], c);
      assert (base + above)[..|base + above| - 1] == base + above[..n];
      ToldStart(base + above[..n], above[n]);
    }
  }

  /** Starts kept apart add their fields and open nothing. */
  lemma {:induction false} MemoryAbove(base: seq<Entry>, above: seq<Entry>, c: string)
    requires PlainStarts(above, c) && c != ""
    ensures var m, k := Narrate(base).memory, Narrate(base + above).memory;
            && k.open == m.open
            && (if above == [] then k == m
                else c in k.unmerged && k.unmerged[c] == StartFields(above[|above| - 1].payload))
  {
    hide Decide, Apply, PayloadText, Accepted, Merges, StartFields;
    if above == [] {
      assert base + above == base;
    } else {
      var n := |above| - 1;
      MemoryAbove(base, above[..n], c);
      assert (base + above)[..|base + above| - 1] == base + above[..n];
    }
  }

  lemma MemoryGrows(items: seq<Entry>, x: Entry)
    ensures Narrate(items + [x]).memory == Remember(Narrate(items).memory, x)
  {
    hide Decide, Apply, Remember;
    assert (items + [x])[..|items|] == items;
  }

  lemma StartParallel(s: Story, e: Entry, c: string)
    requires Parallel(s, c) && c != "" && Accepted(e) && Call(e) == c
    ensures Parallel(Tell(s, e), c) && (Settled(Tell(s, e).items) <==> Settled(s.items))
  {
    hide Decide, Narrate, Settled, FindBelow, PayloadText, Accepted, Merges, Shaped, StartFields;
    StartAppends(s, e);
    StartAppends(Story(s.items, Narrate(s.items).memory), e);
    SettledGrows(s.items, e);
    MemoryGrows(s.items, e);
    FindAfterAppend(s.items, e, StartOf(c));
    StartShaped(e);
    var next := s.items + [e];
    if Merges(ToolName(e)) {
      assert next[|s.items| + 1..] == [];
    } else if c in s.memory.open {
      var at := Find(s.items, StartOf(c)).value;
      assert next[at + 1..] == s.items[at + 1..] + [e];
    }
  }

  lemma StartShaped(e: Entry)
    requires Accepted(e)
    ensures Shaped(e) && e.event.ToolStarted? && OfCall(e, Call(e))
  {
  }

  /** A completion that finds no open start, or a patch that failed, is appended; retelling appends it again. */
  lemma ApartParallel(s: Story, e: Entry, c: string)
    requires Parallel(s, c) && c != "" && Completion(e.event) && Call(e) == c && Decide(s, e).Append?
    ensures Parallel(Tell(s, e), c) && (Settled(Tell(s, e).items) <==> Settled(s.items))
  {
    hide Decide, Narrate, Settled, FindBelow, PayloadText, Accepted, Merges, Shaped, StartFields;
    var x := Decide(s, e).entry;
    CompletionEffect(s, e);
    CallGiven(e);
    SameCall(e, x);
    SettledGrows(s.items, x);
    MemoryGrows(s.items, x);
    CompletionShaped(x);
    ToldUnlessCaught(s.items, x);
    var m := Narrate(s.items).memory;
    assert c !in m.open && c in m.unmerged ==> m.unmerged[c] + x.payload == x.payload;
    assert AllShaped(s.items + [x]);
  }

  /** A completion that closes its start in place: the list stays settled exactly if it is not caught below. */
  lemma ClosedParallel(s: Story, e: Entry, c: string)
    requires Parallel(s, c) && c != "" && Completion(e.event) && Call(e) == c && Decide(s, e).Replace?
    ensures Parallel(Tell(s, e), c)
    ensures Settled(Tell(s, e).items) <==>
            Settled(s.items) && !Caught(s.items[..Decide(s, e).at], Decide(s, e).entry)
  {
    hide Decide, Narrate, Settled, FindBelow, PayloadText, Accepted, Merges, Shaped, StartFields, Caught, Told, Denotes;
    var a := Decide(s, e);
    var x, at := a.entry, a.at;
    CompletionEffect(s, e);
    CallGiven(e);
    SameCall(e, x);
    var below, above := s.items[..at], s.items[at + 1..];
    var start := s.items[at];
    assert s.items == (below + [start]) + above && s.items[at := x] == (below + [x]) + above;
    assert start in s.items;
    StartOfCall(start, c);
    StartAppends(Story(below, Narrate(below).memory), start);
    SettledWith(below + [start], above, c);
    SettledWith(below + [x], above, c);
    SettledGrows(below, start);
    SettledGrows(below, x);
    assert Told(below, start) by { ToldStart(below, start); }
    ToldUnlessCaught(below, x);
    ClosedMemory(s, e, c, x, at);
    CompletionShaped(x);
  }

  lemma ToldStart(before: seq<Entry>, start: Entry)
    requires Accepted(start)
    ensures Told(before, start)
  {
    StartAppends(Story(before, Narrate(before).memory), start);
  }

  lemma ClosedMemory(s: Story, e: Entry, c: string, x: Entry, at: nat)
    requires Parallel(s, c) && c != "" && Completion(e.event) && Call(e) == c == Call(x) && x.event == e.event
    requires c in s.memory.open && Find(s.items, StartOf(c)) == Some(at)
    ensures var m, k := Narrate(s.items[at := x]).memory, Remember(s.memory, e);
            && c !in k.open && c !in m.open
            && (c in m.unmerged ==> c in k.unmerged && k.unmerged[c] == m.unmerged[c])
  {
    hide Narrate, FindBelow, PayloadText, Accepted, Merges, Shaped, StartFields, Denotes;
    var below, above, start := s.items[..at], s.items[at + 1..], s.items[at];
    assert s.items == (below + [start]) + above && s.items[at := x] == (below + [x]) + above;
    MemoryAbove(below + [start], above, c);
    MemoryAbove(below + [x], above, c);
    MemoryGrows(below, start);
    MemoryGrows(below, x);
    assert start in s.items;
    StartOfCall(start, c);
    StartMemory(Narrate(below).memory, start);
    CompletionMemory(Narrate(below).memory, x);
    CompletionMemory(s.memory, e);
  }

  lemma StartMemory(m: Memory, start: Entry)
    requires Accepted(start) && Merges(ToolName(start)) && Call(start) != ""
    ensures Remember(m, start) == m.(open := m.open + {Call(start)})
  {
    hide PayloadText, Merges;
  }

  lemma CompletionMemory(m: Memory, x: Entry)
    requires Completion(x.event) && Call(x) != ""
    ensures Remember(m, x) ==
            if Call(x) in m.open then m.(open := m.open - {Call(x)}) else m.(unmerged := m.unmerged - {Call(x)})
  {
    hide PayloadText, Merges;
  }

  /** For the events of one call the replay settles exactly when no completion is caught. */
  lemma {:induction false} CallSettles(log: seq<Entry>, c: string)
    requires AllOfCall(log, c) && c != ""
    ensures Parallel(Narrate(log), c)
    ensures Settled(Narrate(log).items) <==> forall n :: 0 <= n < |log| ==> !Recaught(log, n)
  {
    hide Settled, Parallel, Tell, Decide, Caught, OfCall;
    if log == [] {
      ParallelAtStart(c);
    } else {
      var n := |log| - 1;
      var front, e := log[..n], log[n];
      var s := Narrate(front);
      CallSettles(front, c);
      assert forall i :: 0 <= i < n ==> front[..i] == log[..i] && front[i] == log[i];
      forall i | 0 <= i < n ensures Recaught(front, i) == Recaught(log, i) {
      }
      CallStep(s, e, c);
      assert Recaught(log, n) <==> Decide(s, e).Replace? && Caught(s.items[..Decide(s, e).at], Decide(s, e).entry);
      assert (forall i :: 0 <= i < |log| ==> !Recaught(log, i)) <==>
             (forall i :: 0 <= i < n ==> !Recaught(log, i)) && !Recaught(log, n);
    }
  }

  lemma ParallelAtStart(c: string)
    ensures Parallel(Narrate([]), c) && Settled(Narrate([]).items)
  {
  }

  lemma CallStep(s: Story, e: Entry, c: string)
    requires Parallel(s, c) && OfCall(e, c) && c != ""
    ensures Parallel(Tell(s, e), c)
    ensures Settled(Tell(s, e).items) <==>
            Settled(s.items) && !(Decide(s, e).Replace? && Caught(s.items[..Decide(s, e).at], Decide(s, e).entry))
  {
    hide Settled, Parallel, Tell, Decide, Caught, Accepted, PayloadText;
    if Completion(e.event) {
      CompletionEffect(s, e);
      if Decide(s, e).Append? { ApartParallel(s, e, c); } else { ClosedParallel(s, e, c); }
    } else {
      StartAppends(s, e);
      StartParallel(s, e, c);
    }
  }

  lemma NoRemovalIsClean(log: seq<Entry>)
    requires forall e :: e in log ==> !e.event.MessageSuperseded? && !e.event.MessageUpdated?
    ensures Clean(log)
  {
    hide PayloadText, FindBelow;
    forall n | 0 <= n < |log| ensures SafeAt(log, n) {
      NeverRemoves(Narrate(log[..n]), log[n]);
    }
  }

  lemma NeverRemoves(s: Story, e: Entry)
    requires !e.event.MessageSuperseded? && !e.event.MessageUpdated?
    ensures Safe(s.items, s.memory, Decide(s, e))
  {
    hide PayloadText, FindBelow;
  }
}
