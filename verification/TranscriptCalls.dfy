/** What replay makes of one tool call depends on the events of that call alone. */
module TranscriptCalls {
  import opened Text
  import opened Transcripts
  import opened TranscriptRefinement
  import opened TranscriptConservation

  /** An accepted start or a completion of the call. */
  predicate OfCall(e: Entry, c: string) {
    (Accepted(e) || Completion(e.event)) && Call(e) == c
  }

  /** The events of one call. */
  function Trail(log: seq<Entry>, c: string): seq<Entry> {
    if log == [] then []
    else Trail(log[..|log| - 1], c) + if OfCall(log[|log| - 1], c) then [log[|log| - 1]] else []
  }

  /** An entry as it can stand in a replay list. */
  predicate Shaped(e: Entry) {
    match e.event
    case MessageCreated => (e.actor == Some(User) || e.actor == Some(Assistant)) && Truthy(Body(e.payload))
    case MessageUpdated => false
    case MessageSuperseded => false
    case OtherEvent(_) => false
    case ToolStarted => Accepted(e)
    case _ => true
  }

  ghost predicate AllShaped(items: seq<Entry>) {
    forall x :: x in items ==> Shaped(x)
  }

  // ---- Trails of changed lists ---------------------------------------------------------------

  lemma {:induction false} TrailConcat(a: seq<Entry>, b: seq<Entry>, c: string)
    ensures Trail(a + b, c) == Trail(a, c) + Trail(b, c)
  {
    hide OfCall;
    if b == [] {
      assert a + b == a;
    } else {
      assert (a + b)[..|a + b| - 1] == a + b[..|b| - 1];
      TrailConcat(a, b[..|b| - 1], c);
    }
  }

  lemma TrailOne(x: Entry, c: string)
    ensures Trail([x], c) == if OfCall(x, c) then [x] else []
  {
    hide OfCall;
    assert [x][..0] == [];
  }

  lemma TrailSplit(items: seq<Entry>, at: nat, x: Entry, c: string)
    requires at < |items|
    ensures Trail(items, c) == Trail(items[..at], c) + Trail([items[at]], c) + Trail(items[at + 1..], c)
    ensures Trail(items[at := x], c) == Trail(items[..at], c) + Trail([x], c) + Trail(items[at + 1..], c)
    ensures Trail(items[..at] + items[at + 1..], c) == Trail(items[..at], c) + Trail(items[at + 1..], c)
  {
    hide Trail;
    assert items == items[..at] + [items[at]] + items[at + 1..];
    assert items[at := x] == items[..at] + [x] + items[at + 1..];
    TrailConcat(items[..at] + [items[at]], items[at + 1..], c);
    TrailConcat(items[..at], [items[at]], c);
    TrailConcat(items[..at] + [x], items[at + 1..], c);
    TrailConcat(items[..at], [x], c);
    TrailConcat(items[..at], items[at + 1..], c);
  }

  lemma {:induction false} TrailWithdrawn(items: seq<Entry>, marker: Entry, c: string)
    requires forall x :: x in items && Supersedes(marker, x) ==> !OfCall(x, c)
    ensures Trail(Withdrawn(items, marker), c) == Trail(items, c)
  {
    hide OfCall, Supersedes;
    if items != [] {
      var n := |items| - 1;
      var rest := Withdrawn(items[..n], marker);
      assert items[n] in items;
      TrailWithdrawn(items[..n], marker, c);
      if Supersedes(marker, items[n]) {
        assert rest + [] == rest && Trail(rest, c) + [] == Trail(rest, c);
      } else {
        TrailConcat(rest, [items[n]], c);
        TrailOne(items[n], c);
      }
    }
  }

  /** Looking a call up in the list and in its own trail finds the same start. */
  lemma TrailFind(items: seq<Entry>, c: string)
    requires AllShaped(items)
    ensures var at := Find(items, StartOf(c));
            var there := Find(Trail(items, c), StartOf(c));
            if at.None? then there.None?
            else there == Some(|Trail(items[..at.value], c)|) && OfCall(items[at.value], c)
                 && Trail(items, c)[there.value] == items[at.value]
  {
    hide FindBelow, Trail, Shaped;
    var at := Find(items, StartOf(c));
    if at.None? {
      FindNowhere(items, StartOf(c));
      TrailFrom(items, c);
      FindNowhere(Trail(items, c), StartOf(c));
    } else {
      var j := at.value;
      TrailSplit(items, j, items[j], c);
      assert items[j] in items;
      StartOfCall(items[j], c);
      TrailOne(items[j], c);
      forall y | y in Trail(items[j + 1..], c) ensures !Denotes(StartOf(c), y) {
        TrailFrom(items[j + 1..], c);
        var q: nat :| q < |items[j + 1..]| && items[j + 1..][q] == y;
        assert items[j + 1 + q] == y;
      }
      FindBetween(Trail(items[..j], c), items[j], Trail(items[j + 1..], c), StartOf(c));
    }
  }

  lemma StartOfCall(x: Entry, c: string)
    requires Shaped(x) && Denotes(StartOf(c), x)
    ensures OfCall(x, c) && Accepted(x) && Merges(ToolName(x))
  {
    hide PayloadText;
  }

  lemma {:induction false} TrailFrom(items: seq<Entry>, c: string)
    ensures forall y :: y in Trail(items, c) ==> y in items && OfCall(y, c)
  {
    hide OfCall;
    if items != [] {
      var n := |items| - 1;
      TrailFrom(items[..n], c);
      assert items == items[..n] + [items[n]];
    }
  }

  // ---- Shape ---------------------------------------------------------------------------------

  lemma TellShaped(s: Story, e: Entry)
    requires AllShaped(s.items) && Voiced(s.items) && WellActed(e)
    ensures AllShaped(Tell(s, e).items)
  {
    hide PayloadText, Merges, Sequenced, Decide, FindBelow, Body, Accepted, Supersedes, Withdrawn, Remember, Shaped,
         Opens;
    var a := Decide(s, e);
    if e.event.MessageSuperseded? {
      SupersededEffect(s, START.tables, e);
      if a.Withdraw? { WithdrawnKeeps(s.items, e); }
    } else if e.event.MessageCreated? || e.event.MessageUpdated? {
      MessageTarget(s, e);
      MessageShaped(s, e);
    } else if Completion(e.event) {
      CompletionEffect(s, e);
      CompletionShaped(e);
    } else {
      OtherTarget(s, e);
      if !a.Skip? { OtherShaped(e); }
    }
  }

  lemma CompletionShaped(e: Entry)
    ensures forall x: Entry :: Completion(x.event) ==> Shaped(x)
  {
  }

  lemma OtherShaped(e: Entry)
    requires !e.event.MessageCreated? && (Opens(e) || Sequenced(e))
    ensures Shaped(e)
  {
  }

  lemma MessageShaped(s: Story, e: Entry)
    requires AllShaped(s.items) && Voiced(s.items) && WellActed(e)
    requires e.event.MessageCreated? || e.event.MessageUpdated?
    ensures var a := Decide(s, e);
            (a.Append? || a.Replace? ==> Shaped(a.entry)) &&
            (a.Amend? ==> Shaped(s.items[a.at].(payload := s.items[a.at].payload + a.payload)))
  {
    hide PayloadText, FindBelow, ByIdentity, Decide;
    MessageTarget(s, e);
    var a := Decide(s, e);
    if a.Append? {
      AppendShaped(s, e);
    } else if a.Amend? {
      assert s.items[a.at] in s.items;
    }
  }

  lemma AppendShaped(s: Story, e: Entry)
    requires e.event.MessageCreated? && Decide(s, e) == Append(e)
    ensures Shaped(e)
  {
    hide PayloadText, FindBelow;
  }

  lemma {:induction false} NarrationShaped(log: seq<Entry>)
    requires WellActored(log)
    ensures AllShaped(Narrate(log).items) && Voiced(Narrate(log).items)
  {
    hide Tell, Shaped, WellActed;
    if log != [] {
      var n := |log| - 1;
      NarrationShaped(log[..n]);
      TellShaped(Narrate(log[..n]), log[n]);
      TellVoiced(Narrate(log[..n]), log[n]);
    }
  }

  // ---- Calls do not mix ----------------------------------------------------------------------

  /** Two memories that agree about the call. */
  predicate Alike(m: Memory, k: Memory, c: string) {
    && (c in m.open <==> c in k.open) && (c in m.unmerged <==> c in k.unmerged)
    && (c in m.unmerged ==> m.unmerged[c] == k.unmerged[c])
  }

  lemma RememberAlike(m: Memory, k: Memory, e: Entry, c: string)
    requires Alike(m, k, c) && c != ""
    ensures Alike(Remember(m, e), if OfCall(e, c) then Remember(k, e) else k, c)
  {
    hide PayloadText, Merges;
  }

  lemma {:induction false} MemoryAlike(log: seq<Entry>, c: string)
    requires c != ""
    ensures Alike(Narrate(log).memory, Narrate(Trail(log, c)).memory, c)
  {
    hide OfCall, Remember, Decide, Apply;
    if log != [] {
      var n := |log| - 1;
      MemoryAlike(log[..n], c);
      var rest := Trail(log[..n], c);
      RememberAlike(Narrate(log[..n]).memory, Narrate(rest).memory, log[n], c);
      if OfCall(log[n], c) {
        assert (rest + [log[n]])[..|rest|] == rest;
      } else {
        assert rest + [] == rest;
      }
    }
  }

  lemma SameCall(e: Entry, x: Entry)
    requires CallId in e.payload && CallId in x.payload && x.payload[CallId] == e.payload[CallId]
    ensures Call(x) == Call(e)
  {
  }

  lemma CallGiven(e: Entry)
    requires Call(e) != ""
    ensures CallId in e.payload
  {
  }

  /** An event of the call does to the whole list what it does to the trail. */
  lemma OwnEvent(s: Story, t: Story, e: Entry, c: string)
    requires AllShaped(s.items) && c != "" && OfCall(e, c)
    requires t.items == Trail(s.items, c) && Alike(s.memory, t.memory, c)
    ensures Tell(t, e).items == Trail(Tell(s, e).items, c)
  {
    hide PayloadText, Merges, Sequenced, Decide, FindBelow, Body, Accepted, Shaped, Trail, Remember;
    if Completion(e.event) {
      CompletionEffect(s, e);
      CompletionEffect(t, e);
      TrailFind(s.items, c);
      var a := Decide(s, e);
      CallGiven(e);
      if a.Append? {
        SameCall(e, a.entry);
        TrailConcat(s.items, [a.entry], c);
        TrailOne(a.entry, c);
      } else {
        SameCall(e, a.entry);
        TrailSplit(s.items, a.at, a.entry, c);
        TrailOne(a.entry, c);
        TrailOne(s.items[a.at], c);
      }
    } else {
      StartAppends(s, e);
      StartAppends(t, e);
      TrailConcat(s.items, [e], c);
      TrailOne(e, c);
    }
  }

  lemma StartAppends(s: Story, e: Entry)
    requires Accepted(e)
    ensures Decide(s, e) == Append(e)
  {
    hide Accepted, FindBelow, Find;
  }

  /** An event of another call, or of none, leaves the trail alone. */
  lemma ForeignEvent(s: Story, e: Entry, c: string)
    requires AllShaped(s.items) && Voiced(s.items) && WellActed(e) && c != "" && !OfCall(e, c)
    ensures Trail(Tell(s, e).items, c) == Trail(s.items, c)
  {
    hide PayloadText, Merges, Sequenced, Decide, FindBelow, Body, Accepted, Shaped, Trail, Remember, Supersedes,
         Withdrawn, Opens;
    var a := Decide(s, e);
    if e.event.MessageSuperseded? {
      SupersededEffect(s, START.tables, e);
      if a.Withdraw? {
        forall x | x in s.items && Supersedes(e, x) ensures !OfCall(x, c) {
          SupersedesOnlyAssistants(e, x);
          assert x.event.MessageCreated?;
          NoTool(x, c);
        }
        TrailWithdrawn(s.items, e, c);
      }
    } else if e.event.MessageCreated? || e.event.MessageUpdated? {
      MessageTarget(s, e);
      NoTool(e, c);
      if a.Append? {
        ForeignAppend(s.items, e, c);
      } else if a.Remove? {
        NoTool(s.items[a.at], c);
        TrailSplit(s.items, a.at, e, c);
        TrailOne(s.items[a.at], c);
        assert Trail(s.items[..a.at], c) + [] == Trail(s.items[..a.at], c);
      } else if a.Replace? || a.Amend? {
        var x := Apply(s.items, a)[a.at];
        NoTool(s.items[a.at], c);
        NoTool(x, c);
        ForeignSwap(s.items, a.at, x, c);
        assert Apply(s.items, a) == s.items[a.at := x];
      }
    } else if Completion(e.event) {
      ForeignCompletion(s, e, c);
    } else {
      OtherTarget(s, e);
      if a.Append? {
        ForeignAppend(s.items, e, c);
      } else if a.Replace? {
        assert Sequenced(s.items[a.at]);
        NoTool(e, c);
        NoTool(s.items[a.at], c);
        ForeignSwap(s.items, a.at, e, c);
      }
    }
  }

  lemma NoTool(x: Entry, c: string)
    requires !x.event.ToolStarted? && !Completion(x.event)
    ensures !OfCall(x, c)
  {
  }

  lemma ForeignAppend(items: seq<Entry>, x: Entry, c: string)
    requires !OfCall(x, c)
    ensures Trail(items + [x], c) == Trail(items, c)
  {
    hide Trail, OfCall;
    TrailConcat(items, [x], c);
    TrailOne(x, c);
    assert Trail(items, c) + [] == Trail(items, c);
  }

  lemma ForeignSwap(items: seq<Entry>, at: nat, x: Entry, c: string)
    requires at < |items| && !OfCall(x, c) && !OfCall(items[at], c)
    ensures Trail(items[at := x], c) == Trail(items, c)
  {
    hide Trail, OfCall;
    TrailSplit(items, at, x, c);
    TrailOne(x, c);
    TrailOne(items[at], c);
  }

  lemma ForeignCompletion(s: Story, e: Entry, c: string)
    requires AllShaped(s.items) && c != "" && !OfCall(e, c) && Completion(e.event)
    ensures Trail(Tell(s, e).items, c) == Trail(s.items, c)
  {
    hide PayloadText, Merges, Decide, FindBelow, Accepted, Shaped, Trail, Remember;
    var a := Decide(s, e);
    CompletionEffect(s, e);
    if a.Append? {
      if Inherits(s.memory, e) {
        CallGiven(e);
        SameCall(e, a.entry);
      }
      ForeignAppend(s.items, a.entry, c);
    } else {
      CallGiven(e);
      SameCall(e, a.entry);
      ForeignSwap(s.items, a.at, a.entry, c);
    }
  }

  /**
   * Replay commutes with looking at one call: the entries of a call in the replay of the whole log are the replay of
   * that call's events.
   */
  lemma {:induction false} CallsDoNotMix(log: seq<Entry>, c: string)
    requires WellActored(log) && c != ""
    ensures Narrate(Trail(log, c)).items == Trail(Narrate(log).items, c)
  {
    hide OfCall, Tell, Decide, WellActed, Shaped;
    if log != [] {
      var n := |log| - 1;
      var front, rest := log[..n], Trail(log[..n], c);
      CallsDoNotMix(front, c);
      NarrationShaped(front);
      MemoryAlike(front, c);
      if OfCall(log[n], c) {
        OwnEvent(Narrate(front), Narrate(rest), log[n], c);
        assert (rest + [log[n]])[..|rest|] == rest;
      } else {
        ForeignEvent(Narrate(front), log[n], c);
        assert rest + [] == rest;
      }
    }
  }
}
