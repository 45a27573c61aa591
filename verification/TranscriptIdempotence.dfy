/** When replaying a replayed transcript changes nothing, and exactly which calls prevent it. */
module TranscriptIdempotence {
  import opened Text
  import opened Transcripts
  import opened TranscriptRefinement
  import opened TranscriptConservation
  import opened TranscriptCalls
  import opened TranscriptSettling
  import opened TranscriptCaught

  // ---- Whole logs ----------------------------------------------------------------------------

  lemma TrailIsOfCall(log: seq<Entry>, c: string)
    ensures AllOfCall(Trail(log, c), c)
  {
    TrailFrom(log, c);
    hide OfCall, Trail;
    assert forall i :: 0 <= i < |Trail(log, c)| ==> Trail(log, c)[i] in Trail(log, c);
  }

  /** Among the events of the call, some completion is caught below its place. */
  ghost predicate RecatchesCall(log: seq<Entry>, c: string) {
    exists n :: 0 <= n < |Trail(log, c)| && CaughtTwice(Trail(log, c), c, n)
  }

  ghost predicate Recatches(log: seq<Entry>) {
    exists c :: c != "" && RecatchesCall(log, c)
  }

  lemma CallRecatches(log: seq<Entry>, c: string)
    requires c != ""
    ensures Settled(Narrate(Trail(log, c)).items) <==> !RecatchesCall(log, c)
  {
    hide Settled, Narrate, Trail, Recaught, AllOfCall, Parallel, CaughtTwice;
    TrailIsOfCall(log, c);
    CallSettles(Trail(log, c), c);
    forall n: nat | n < |Trail(log, c)| ensures Recaught(Trail(log, c), n) <==> CaughtTwice(Trail(log, c), c, n) {
      CaughtInLog(Trail(log, c), c, n);
    }
  }

  lemma FoldSettles(log: seq<Entry>)
    requires WellActored(log)
    ensures Settled(Narrate(log).items) <==> !Recatches(log)
  {
    hide Settled, Narrate, Trail, RecatchesCall, Told, ToolEntry, WellActored, AllOfCall, Parallel;
    var items := Narrate(log).items;
    NarrationShaped(log);
    forall i | 0 <= i < |items| && !ToolEntry(items[i]) ensures Told(items[..i], items[i]) {
      OthersTold(log, i);
    }
    SettledByCalls(items);
    forall c | c != "" ensures Settled(Trail(items, c)) <==> !RecatchesCall(log, c) {
      CallsDoNotMix(log, c);
      CallRecatches(log, c);
    }
    if Settled(items) {
      forall c | c != "" ensures !RecatchesCall(log, c) {
        assert Settled(Trail(items, c));
      }
    } else {
      var c :| c != "" && !Settled(Trail(items, c));
      assert RecatchesCall(log, c);
    }
  }

  /**
   * Replay is idempotent exactly when no call has a completion that would be caught below its place, by an earlier
   * start of the call that was never closed or by start fields kept apart.
   */
  lemma IdempotentUnlessRecaught(log: seq<Entry>)
    requires WellActored(log) && Clean(log)
    ensures Replay(log).Some?
    ensures Replay(Replay(log).value) == Replay(log) <==> !Recatches(log)
  {
    hide Settled, Narrate, Recatches, Replay, Shaped, WellActed;
    var items := Narrate(log).items;
    ReplayIsIdentityFold(log);
    FoldSettles(log);
    SettledIffFixed(items);
    NarrationShaped(log);
    ShapedIsClean(items);
    ShapedIsActored(items);
    ReplayIsIdentityFold(items);
  }

  lemma ShapedIsActored(items: seq<Entry>)
    requires AllShaped(items) && Voiced(items)
    ensures WellActored(items)
  {
    hide Shaped;
  }

  /** It is idempotent for one log exactly when it is for the events of each call. */
  lemma IdempotentCallByCall(log: seq<Entry>)
    requires WellActored(log) && Clean(log)
    ensures Replay(log).Some?
    ensures Replay(Replay(log).value) == Replay(log) <==>
            forall c :: c != "" ==> Narrate(Narrate(Trail(log, c)).items).items == Narrate(Trail(log, c)).items
  {
    hide Settled, Narrate, Trail, RecatchesCall, Replay, WellActored, Clean;
    IdempotentUnlessRecaught(log);
    forall c | c != ""
      ensures Narrate(Narrate(Trail(log, c)).items).items == Narrate(Trail(log, c)).items <==>
              !RecatchesCall(log, c)
    {
      CallRecatches(log, c);
      SettledIffFixed(Narrate(Trail(log, c)).items);
    }
    if Recatches(log) {
      var c :| c != "" && RecatchesCall(log, c);
      assert Narrate(Narrate(Trail(log, c)).items).items != Narrate(Trail(log, c)).items;
    } else {
      forall c | c != "" ensures Narrate(Narrate(Trail(log, c)).items).items == Narrate(Trail(log, c)).items {
        assert !RecatchesCall(log, c);
      }
    }
  }
  // ---- Calls that are started one at a time --------------------------------------------------

  /** A start whose call is not open, and is never started in the other kind. */
  ghost predicate StartsApart(before: seq<Entry>, e: Entry) {
    Accepted(e) && Call(e) != "" ==>
      && (forall y :: y in before && Accepted(y) && Call(y) == Call(e) ==> Merges(ToolName(y)) == Merges(ToolName(e)))
      && (Merges(ToolName(e)) ==> forall i :: 0 <= i < |before| ==> !OpenSince(before, |before|, Call(e), i))
  }

  /** No call is started while it is open, nor both as a call that merges and as one that does not. */
  ghost predicate StartedApart(log: seq<Entry>) {
    log == [] || (StartedApart(log[..|log| - 1]) && StartsApart(log[..|log| - 1], log[|log| - 1]))
  }

  /** No call is started twice. */
  predicate StartedOnce(log: seq<Entry>) {
    forall i, j :: 0 <= i < j < |log| && Accepted(log[i]) && Accepted(log[j]) && Call(log[i]) != "" ==>
      Call(log[i]) != Call(log[j])
  }

  lemma {:induction false} OnceIsApart(log: seq<Entry>)
    requires StartedOnce(log)
    ensures StartedApart(log)
  {
    hide PayloadText, Accepted, Merges, Turns;
    if log != [] {
      OnceIsApart(log[..|log| - 1]);
    }
  }

  lemma {:induction false} TrailApart(log: seq<Entry>, c: string)
    requires StartedApart(log) && c != ""
    ensures StartedApart(Trail(log, c))
  {
    hide OfCall, StartsApart;
    if log != [] {
      var n := |log| - 1;
      TrailApart(log[..n], c);
      var rest := Trail(log[..n], c);
      if OfCall(log[n], c) {
        assert (rest + [log[n]])[..|rest|] == rest;
        EventApart(log[..n], log[n], c);
      } else {
        assert rest + [] == rest;
      }
    }
  }

  lemma EventApart(before: seq<Entry>, e: Entry, c: string)
    requires StartsApart(before, e) && OfCall(e, c) && c != ""
    ensures StartsApart(Trail(before, c), e)
  {
    hide PayloadText, Accepted, Merges, OpenSince, Trail, Narrate;
    TrailFrom(before, c);
    MemoryAlike(before, c);
    OpenMeans(before, c);
    OpenMeans(Trail(before, c), c);
  }

  /** Below an open start its call is closed. */
  ghost predicate ClosedBelow(s: Story, c: string) {
    c in s.memory.open ==>
      var at := Find(s.items, StartOf(c));
      at.Some? && c !in Narrate(s.items[..at.value]).memory.open
  }

  lemma {:induction false} ApartCloses(log: seq<Entry>, c: string)
    requires AllOfCall(log, c) && c != "" && StartedApart(log)
    ensures ClosedBelow(Narrate(log), c)
  {
    hide Tell, Decide, OfCall, StartsApart;
    if log != [] {
      var n := |log| - 1;
      var front, e := log[..n], log[n];
      ApartCloses(front, c);
      CallSettles(front, c);
      if Completion(e.event) {
        CloserStep(Narrate(front), e, c);
      } else {
        StarterStep(front, e, c);
      }
    }
  }

  lemma CloserStep(s: Story, e: Entry, c: string)
    requires Completion(e.event) && OfCall(e, c) && c != ""
    ensures ClosedBelow(Tell(s, e), c)
  {
    hide Decide, FindBelow, PayloadText, Accepted;
    CompletionMemory(s.memory, e);
  }

  lemma StarterStep(front: seq<Entry>, e: Entry, c: string)
    requires OfCall(e, c) && !Completion(e.event) && c != "" && StartsApart(front, e)
    requires Parallel(Narrate(front), c) && ClosedBelow(Narrate(front), c)
    ensures ClosedBelow(Tell(Narrate(front), e), c)
  {
    hide Decide, FindBelow, PayloadText, Accepted, Narrate, Merges, OpenSince, Shaped, PlainStarts, AllOfCall;
    var s := Narrate(front);
    StartAppends(s, e);
    FindAfterAppend(s.items, e, StartOf(c));
    OpenMeans(front, c);
    StartShaped(e);
    var next := s.items + [e];
    if Merges(ToolName(e)) {
      assert next[..|s.items|] == s.items;
    } else if c in s.memory.open {
      var at := Find(s.items, StartOf(c)).value;
      assert next[..at] == s.items[..at];
    }
  }

  /** The starts that stand in a replay list were logged as they stand. */
  lemma StartLogged(log: seq<Entry>, y: Entry)
    requires WellActored(log) && y in Narrate(log).items && y.event.ToolStarted?
    ensures y in log && Accepted(y)
  {
    hide PayloadText, Narrate, Trace, Faithful, OneEach, InOrder, PlacesKept, CompactionsKept, Accepted;
    FoldConserves(log);
    var p :| 0 <= p < |Trace(log)| && Entries(Trace(log))[p] == y;
    assert Trace(log)[p] in Trace(log);
    StartIsLogged(log, Trace(log)[p]);
  }

  lemma {:induction false} OneKind(log: seq<Entry>, x: Entry, y: Entry, c: string)
    requires AllOfCall(log, c) && c != "" && StartedApart(log) && x in log && y in log && Accepted(x) && Accepted(y)
    ensures Merges(ToolName(x)) == Merges(ToolName(y))
  {
    hide PayloadText, Accepted, Merges, OpenSince;
    if log != [] {
      var n := |log| - 1;
      assert log == log[..n] + [log[n]];
      if x in log[..n] && y in log[..n] {
        OneKind(log[..n], x, y, c);
      }
    }
  }

  lemma ApartNeverRecaught(log: seq<Entry>, c: string, n: nat)
    requires WellActored(log) && AllOfCall(log, c) && c != "" && StartedApart(log) && n < |log|
    ensures !Recaught(log, n)
  {
    hide Narrate, Decide, PayloadText, Accepted, Merges, FindBelow, StartsApart, Caught, WellActed;
    var front, e := log[..n], log[n];
    var s := Narrate(front);
    ApartPrefix(log, n);
    ApartCloses(front, c);
    NarrationShaped(front);
    var a := Decide(s, e);
    if a.Replace? {
      ReplacedByCompletion(s, e, c);
      CompletionEffect(s, e);
      CallGiven(e);
      SameCall(e, a.entry);
      assert a.entry.event == e.event;
      NotCaught(front, c, a.at, a.entry);
    }
  }

  lemma {:induction false} ApartPrefix(log: seq<Entry>, n: nat)
    requires StartedApart(log) && n <= |log|
    ensures StartedApart(log[..n])
    decreases |log|
  {
    hide StartsApart;
    if n < |log| {
      ApartPrefix(log[..|log| - 1], n);
      assert log[..|log| - 1][..n] == log[..n];
    } else {
      assert log[..n] == log;
    }
  }

  lemma ReplacedByCompletion(s: Story, e: Entry, c: string)
    requires OfCall(e, c) && Decide(s, e).Replace?
    ensures Completion(e.event)
  {
    hide Decide, Accepted, PayloadText;
    if !Completion(e.event) {
      StartAppends(s, e);
    }
  }

  lemma NotCaught(front: seq<Entry>, c: string, at: nat, x: Entry)
    requires WellActored(front) && AllOfCall(front, c) && c != "" && StartedApart(front)
    requires ClosedBelow(Narrate(front), c) && AllShaped(Narrate(front).items) && c in Narrate(front).memory.open
    requires Find(Narrate(front).items, StartOf(c)) == Some(at) && Completion(x.event) && Call(x) == c
    ensures !Caught(Narrate(front).items[..at], x)
  {
    hide Narrate, PayloadText, Accepted, Merges, FindBelow, StartedApart, Shaped, WellActed, WaitsSince;
    var items := Narrate(front).items;
    var below := items[..at];
    if c in Narrate(below).memory.unmerged {
      WaitingMeans(below, c);
      var k: nat :| k < |below| && WaitsSince(below, |below|, c, k);
      var y, start := below[PlainStart(below, c).value], items[at];
      StartShape(y);
      assert y in items && start in items;
      StartOfCall(start, c);
      StartLogged(front, y);
      StartLogged(front, start);
      OneKind(front, y, start, c);
      assert false;
    }
  }

  lemma StartShape(y: Entry)
    requires Accepted(y)
    ensures y.event.ToolStarted?
  {
  }

  lemma TrailActored(log: seq<Entry>, c: string)
    requires WellActored(log)
    ensures WellActored(Trail(log, c))
  {
    hide Trail, WellActed, OfCall;
    TrailFrom(log, c);
    forall i | 0 <= i < |Trail(log, c)| ensures WellActed(Trail(log, c)[i]) {
      assert Trail(log, c)[i] in Trail(log, c);
    }
  }

  /** Replay is idempotent when no call is started while it is open, nor in both kinds; so if none is started twice. */
  lemma {:induction false} ReplayIsIdempotent(log: seq<Entry>)
    requires WellActored(log) && Clean(log) && (StartedApart(log) || StartedOnce(log))
    ensures Replay(log).Some? && Replay(Replay(log).value) == Replay(log)
  {
    hide Narrate, Replay, Recaught, CaughtTwice, Clean, WellActed, StartedApart, Trail, AllOfCall, OfCall, StartedOnce;
    if StartedOnce(log) {
      OnceIsApart(log);
    }
    IdempotentUnlessRecaught(log);
    forall c, n: nat | c != "" && n < |Trail(log, c)| ensures !CaughtTwice(Trail(log, c), c, n) {
      TrailApart(log, c);
      TrailIsOfCall(log, c);
      TrailActored(log, c);
      ApartNeverRecaught(Trail(log, c), c, n);
      CaughtInLog(Trail(log, c), c, n);
    }
  }

  /**
   * A call started again while it is open is not: its completion closes the second start, and replaying the result
   * closes the first one too.
   */
  lemma RestartedCallIsNotIdempotent(first: Entry, second: Entry, done: Entry)
    requires Accepted(first) && Accepted(second) && Merges(ToolName(first)) && Merges(ToolName(second))
    requires Call(first) == Call(second) == Call(done) && Call(done) != "" && done.event.ToolCompleted?
    requires first.actor == second.actor == done.actor == Some(Tool)
    ensures var log := [first, second, done];
            && WellActored(log) && Clean(log) && Replay(log) == Some([first, Merged(second, done)])
            && Replay([first, Merged(second, done)]) == Some([Merged(first, Merged(second, done))])
  {
    hide Strip, Accepted, Merges, FindBelow, Step;
    var c := Call(done);
    var once := Merged(second, done);
    assert Call(once) == c;
    StartOpens(START, first);
    var c1 := Cursor([first], START.tables.(pending := START.tables.pending[c := 0]));
    assert [] + [first] == [first];
    StartOpens(c1, second);
    var c2 := Cursor([first, second], c1.tables.(pending := c1.tables.pending[c := 1]));
    assert [first] + [second] == [first, second];
    CompletionCloses(c2, done);
    RunThree(first, second, done, c1, c2);
    CompletionCloses(c1, once);
    RunTwo(first, once, c1);
    assert c2.items[1 := once] == [first, once] && c1.items[0 := Merged(first, once)] == [Merged(first, once)];
    NoRemovalIsClean([first, second, done]);
  }

  lemma CompletionCloses(c: Cursor, e: Entry)
    requires e.event.ToolCompleted? && Call(e) != "" && Call(e) in c.tables.pending
    requires c.tables.pending[Call(e)] < |c.items|
    ensures var at := c.tables.pending[Call(e)];
            Step(c, e).Some? && Step(c, e).value.items == c.items[at := Merged(c.items[at], e)]
  {
    hide PayloadText, FindBelow;
  }

  lemma RunTwo(e0: Entry, e1: Entry, c1: Cursor)
    requires Step(START, e0) == Some(c1)
    ensures Run([e0, e1]) == Step(c1, e1)
  {
    hide Step;
    assert [e0, e1][..1] == [e0] && [e0][..0] == [];
    assert Run([e0]) == Some(c1);
  }

  lemma RunThree(e0: Entry, e1: Entry, e2: Entry, c1: Cursor, c2: Cursor)
    requires Step(START, e0) == Some(c1) && Step(c1, e1) == Some(c2)
    ensures Run([e0, e1, e2]) == Step(c2, e2)
  {
    hide Step;
    assert [e0, e1, e2][..2] == [e0, e1];
    RunTwo(e0, e1, c1);
  }
}
