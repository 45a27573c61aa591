/** Which message events are in a replayed transcript: those that reached a message, until an event takes it away. */
module TranscriptMessages {
  import opened Text
  import opened Transcripts
  import opened TranscriptRefinement
  import opened TranscriptConservation

  predicate MessageEvent(e: Entry) {
    e.event.MessageCreated? || e.event.MessageUpdated?
  }

  predicate Creates(e: Entry, actor: Actor) {
    e.event.MessageCreated? && e.actor == Some(actor) && Truthy(Body(e.payload))
  }

  predicate Amends(e: Entry, actor: Actor) {
    e.event.MessageUpdated? && e.actor == Some(actor) && Truthy(Body(e.payload))
  }

  predicate Empties(e: Entry) {
    e.event.MessageUpdated? && e.actor == Some(Assistant) && Body(e.payload) == Some("")
  }

  /** The assistant update names the assistant message, in its own turn if it names one. */
  predicate Names(e: Entry, x: Entry) {
    x.actor == Some(Assistant) && Item(e) == Item(x) && Item(e) != "" && (Truthy(e.turn) ==> x.turn == e.turn)
  }

  ghost predicate Wrote(slots: seq<Slot>, j: nat) {
    exists s :: s in slots && Whole(j) in s.sources
  }

  /** The event takes the message away: its marker supersedes it, or its update empties it as the latest it names. */
  ghost predicate Takes(slots: seq<Slot>, e: Entry, s: Slot) {
    || (e.event.MessageSuperseded? && e.actor == Some(Assistant) && Supersedes(e, s.entry))
    || (Empties(e) && Names(e, s.entry) && forall t :: t in slots && Names(e, t.entry) ==> t.born <= s.born)
  }

  /** Event `n` took away the message that event `j` had written to. */
  ghost predicate Took(log: seq<Entry>, n: nat, j: nat)
    requires n < |log|
  {
    var slots := Trace(log[..n]);
    exists s :: s in slots && Whole(j) in s.sources && Takes(slots, log[n], s)
  }

  /** The user message at `i` is one that update `j` may reach. */
  predicate Reachable(log: seq<Entry>, j: nat, i: nat)
    requires i < j < |log|
  {
    Creates(log[i], User) && (Truthy(log[j].turn) ==> log[i].turn == log[j].turn)
  }

  /** The assistant message created at `i` stands before update `j`, which names it. */
  ghost predicate Standing(log: seq<Entry>, j: nat, i: nat)
    requires i < j < |log|
  {
    log[i].event.MessageCreated? && Names(log[j], log[i]) && Wrote(Trace(log[..j]), i)
  }

  /** A created message with a body, or an update with one that has a message to reach. */
  ghost predicate Heard(log: seq<Entry>, j: nat)
    requires j < |log|
  {
    || Creates(log[j], User) || Creates(log[j], Assistant)
    || (Amends(log[j], User) && exists i | 0 <= i < j :: Reachable(log, j, i))
    || (Amends(log[j], Assistant) && exists i | 0 <= i < j :: Standing(log, j, i))
  }

  /** Message event `j` is in an entry exactly when it was heard and nothing has taken that entry away since. */
  ghost predicate KeptFaithfully(log: seq<Entry>, j: nat)
    requires j < |log|
  {
    Wrote(Trace(log), j) <==> Heard(log, j) && forall n :: j < n < |log| ==> !Took(log, n, j)
  }

  ghost predicate MessagesKept(log: seq<Entry>) {
    forall j :: 0 <= j < |log| && MessageEvent(log[j]) ==> KeptFaithfully(log, j)
  }

  // ---- What an event does at once ------------------------------------------------------------

  /** When a message event writes, removes or passes. */
  lemma MessageDecision(s: Story, e: Entry)
    requires MessageEvent(e)
    ensures var a := Decide(s, e);
            && (e.event.MessageCreated? ==>
                  if Creates(e, User) || Creates(e, Assistant) then a == Append(e) || a.Replace? else a.Skip?)
            && (e.event.MessageUpdated? ==>
                  if Amends(e, User) then
                    var at := Find(s.items, if Truthy(e.turn) then UserOf(e.turn.value) else AnyUser);
                    if at.Some? then a == Amend(at.value, e.payload) else a.Skip?
                  else if Amends(e, Assistant) then
                    var at := FindMessage(s.items, e);
                    if at.Some? then a == Amend(at.value, e.payload) else a.Skip?
                  else if Empties(e) then
                    var at := FindMessage(s.items, e);
                    if at.Some? then a == Remove(at.value) else a.Skip?
                  else a.Skip?)
  {
    hide FindBelow, PayloadText, Find;
  }

  /** An assistant update finds the latest entry it names. */
  lemma FoundIsLatest(slots: seq<Slot>, e: Entry)
    requires InOrder(slots) && e.event.MessageUpdated?
    ensures var at := FindMessage(Entries(slots), e);
            if at.None? then forall s :: s in slots ==> !Names(e, s.entry)
            else Names(e, slots[at.value].entry)
                 && forall s :: s in slots && Names(e, s.entry) ==> s.born <= slots[at.value].born
  {
    hide FindBelow, PayloadText;
    var at := FindMessage(Entries(slots), e);
    var k := if Truthy(e.turn) then MessageOf(e.turn, Item(e)) else MessageInAnyTurn(Item(e));
    assert Item(e) != "" ==> at == Find(Entries(slots), k);
    forall s | s in slots && Names(e, s.entry) ensures at.Some? && s.born <= slots[at.value].born {
      var p: nat :| p < |slots| && slots[p] == s;
      assert Denotes(k, Entries(slots)[p]);
      if p < at.value {
        BornInOrder(slots, p, at.value);
      }
    }
  }

  /** A user update finds a message exactly when the log has one for it. */
  lemma UserIsFound(log: seq<Entry>, e: Entry, slots: seq<Slot>)
    requires Conserved(log, slots) && WellActored(log) && Amends(e, User)
    ensures Find(Entries(slots), if Truthy(e.turn) then UserOf(e.turn.value) else AnyUser).Some? <==>
            exists i | 0 <= i < |log| :: Reachable(log + [e], |log|, i)
  {
    hide FindBelow, PayloadText, Conserved, Faithful, InOrder, Body, WellActed;
    var k := if Truthy(e.turn) then UserOf(e.turn.value) else AnyUser;
    var at := Find(Entries(slots), k);
    assert (log + [e])[|log|] == e;
    if at.Some? {
      OwnFaithful(log, slots, at.value);
      UserIsLogged(log, slots[at.value]);
      assert Reachable(log + [e], |log|, slots[at.value].born);
    }
    if i: nat :| i < |log| && Reachable(log + [e], |log|, i) {
      assert (log + [e])[i] == log[i];
      assert Opens(log[i]) by { CreationOpens(log[i]); }
      var p := PlaceOf(log, slots, i);
      UserUntouched(log, slots[p]);
      assert Denotes(k, Entries(slots)[p]);
    }
  }

  lemma CreationOpens(e: Entry)
    requires Creates(e, User)
    ensures Opens(e)
  {
  }

  lemma UserIsLogged(log: seq<Entry>, s: Slot)
    requires Faithful(log, s) && s.entry.event.MessageCreated? && s.entry.actor == Some(User)
    ensures s.born < |log| && Creates(log[s.born], User) && log[s.born].turn == s.entry.turn
  {
    hide PayloadText, Sequenced, Merges, Overlay, Concerns, Body, Accepted;
  }

  /** Where a message event has written there is a message. */
  lemma WrittenIsMessage(log: seq<Entry>, s: Slot, j: nat)
    requires Faithful(log, s) && j < |log| && MessageEvent(log[j]) && Whole(j) in s.sources
    ensures s.entry.event.MessageCreated? && s.born <= j && log[j].actor == s.entry.actor
    ensures log[j].event.MessageCreated? ==> log[j].turn == s.entry.turn
    ensures s.entry.actor == Some(Assistant) ==> Item(log[j]) == Item(s.entry)
  {
    hide PayloadText, Sequenced, Merges, Overlay, Body, Accepted, LatestUser, Inherited;
    assert Concerns(log, s, Whole(j));
  }

  /** An assistant entry has the item and turn of the event that created it, and of every creation that wrote to it. */
  lemma AssistantIsLogged(log: seq<Entry>, s: Slot, i: nat)
    requires Faithful(log, s) && Whole(i) in s.sources && i < |log|
    requires log[i].event.MessageCreated? && log[i].actor == Some(Assistant)
    ensures Removable(s) && Item(s.entry) == Item(log[i]) && s.entry.turn == log[i].turn
  {
    hide Faithful, PayloadText;
    WrittenIsMessage(log, s, i);
  }

  /** The event that opened the place of a message is its first creation. */
  lemma CreationIsLogged(log: seq<Entry>, s: Slot)
    requires Faithful(log, s) && s.entry.event.MessageCreated?
    ensures s.born < |log| && log[s.born].event.MessageCreated? && Whole(s.born) in s.sources
  {
    hide PayloadText, Sequenced, Merges, Overlay, Body, Accepted, Paired, Inherited, Concerns, Opens;
  }

  lemma StandingNext(log: seq<Entry>, e: Entry, i: nat)
    requires i < |log|
    ensures Standing(log + [e], |log|, i) <==>
            log[i].event.MessageCreated? && Names(e, log[i]) && Wrote(Trace(log), i)
  {
    hide Trace, Names, Wrote;
    assert (log + [e])[..|log|] == log && (log + [e])[|log|] == e && (log + [e])[i] == log[i];
  }

  lemma NamedIsStanding(log: seq<Entry>, e: Entry, slots: seq<Slot>, s: Slot)
    requires s in slots && Faithful(log, s) && s.entry.event.MessageCreated? && Names(e, s.entry)
    ensures s.born < |log| && log[s.born].event.MessageCreated? && Names(e, log[s.born]) && Wrote(slots, s.born)
  {
    hide Faithful, PayloadText;
    CreationIsLogged(log, s);
    WrittenIsMessage(log, s, s.born);
  }

  lemma StandingIsNamed(log: seq<Entry>, e: Entry, slots: seq<Slot>, i: nat) returns (s: Slot)
    requires Conserved(log, slots) && i < |log|
    requires log[i].event.MessageCreated? && Names(e, log[i]) && Wrote(slots, i)
    ensures s in slots && Names(e, s.entry)
  {
    hide Conserved, Faithful, PayloadText;
    s :| s in slots && Whole(i) in s.sources;
    FaithfulOf(log, slots, s);
    AssistantIsLogged(log, s, i);
  }

  lemma {:induction false} FoundIsStanding(log: seq<Entry>, e: Entry, slots: seq<Slot>, at: nat)
    requires slots == Trace(log) && Conserved(log, slots) && Voiced(Entries(slots)) && at < |slots|
    requires Names(e, slots[at].entry)
    ensures slots[at].born < |log| && Standing(log + [e], |log|, slots[at].born)
  {
    hide Conserved, Faithful, Trace, Names, Standing, Wrote;
    var own := slots[at];
    FaithfulOf(log, slots, own);
    NamesAssistants(e, own.entry);
    assert Entries(slots)[at] == own.entry;
    NamedIsStanding(log, e, slots, own);
    StandingNext(log, e, own.born);
  }

  lemma {:induction false} AssistantIsFound(log: seq<Entry>, e: Entry, slots: seq<Slot>)
    requires slots == Trace(log) && Conserved(log, slots) && Voiced(Entries(slots)) && e.event.MessageUpdated?
    ensures FindMessage(Entries(slots), e).Some? <==> exists i | 0 <= i < |log| :: Standing(log + [e], |log|, i)
  {
    hide *;
    var at := FindMessage(Entries(slots), e);
    OrderOf(log, slots);
    FoundIsLatest(slots, e);
    if at.Some? {
      FoundIsStanding(log, e, slots, at.value);
    }
    if i: nat :| i < |log| && Standing(log + [e], |log|, i) {
      StandingNext(log, e, i);
      var s := StandingIsNamed(log, e, slots, i);
    }
  }

  lemma OrderOf(log: seq<Entry>, slots: seq<Slot>)
    requires Conserved(log, slots)
    ensures InOrder(slots) && OneEach(slots)
  {
    hide InOrder, OneEach, Faithful, PlacesKept, CompactionsKept;
  }

  lemma FaithfulOf(log: seq<Entry>, slots: seq<Slot>, s: Slot)
    requires Conserved(log, slots) && s in slots
    ensures Faithful(log, s)
  {
    hide InOrder, OneEach, Faithful, PlacesKept, CompactionsKept;
  }

  /** No entry has a source that has not been logged yet. */
  lemma SourcesLogged(log: seq<Entry>, slots: seq<Slot>, j: nat)
    requires Conserved(log, slots) && Wrote(slots, j)
    ensures j < |log|
  {
    hide InOrder, OneEach, Faithful, PlacesKept, CompactionsKept;
    var s :| s in slots && Whole(j) in s.sources;
    SourceBelow(log, s, j);
  }

  lemma SourceBelow(log: seq<Entry>, s: Slot, j: nat)
    requires Faithful(log, s) && Whole(j) in s.sources
    ensures j < |log|
  {
    hide Concerns, Opened, Overlay;
    var p :| 0 <= p < |s.sources| && s.sources[p] == Whole(j);
  }

  /** What a move adds to the sources is the event itself. */
  lemma NoNewSources(slots: seq<Slot>, a: Action, n: nat, added: seq<Source>, j: nat)
    requires a.Replace? || a.Remove? || a.Amend? ==> a.at < |slots|
    requires forall i :: Whole(i) in added ==> i == n
    ensures Wrote(Move(slots, a, n, added), j) ==> j == n || Wrote(slots, j)
  {
    hide Supersedes, Kept, Compaction;
    var next := Move(slots, a, n, added);
    if Wrote(next, j) && j != n {
      var t :| t in next && Whole(j) in t.sources;
      match a
      case Withdraw(m) => KeptSlots(slots, m);
      case Replace(at, _) => assert slots[at] in slots;
      case Amend(at, _) => assert slots[at] in slots;
      case _ =>
    }
  }

  lemma AddedOnlyOwn(log: seq<Entry>, m: Memory, e: Entry)
    ensures forall i :: Whole(i) in Added(log, m, e) ==> i == |log|
    ensures !Completion(e.event) ==> Added(log, m, e) == [Whole(|log|)]
  {
    hide PlainStart;
  }

  /** An event writes at once exactly when it is heard. */
  lemma {:induction false} HeardAtOnce(log: seq<Entry>, e: Entry)
    requires Conserved(log, Trace(log)) && Voiced(Narrate(log).items) && WellActored(log) && MessageEvent(e)
    ensures Wrote(Trace(log + [e]), |log|) <==> Heard(log + [e], |log|)
  {
    hide Trace, Narrate, Decide, Added, Conserved, FindMessage, Find, Creates, Amends, Empties, Reachable, Standing,
         Voiced, WellActored;
    var s, slots, n := Narrate(log), Trace(log), |log|;
    var a, added := Decide(s, e), Added(log, s.memory, e);
    assert (log + [e])[n] == e;
    assert Entries(slots) == s.items;
    TraceGrows(log, e);
    AddedOnlyOwn(log, s.memory, e);
    MessageDecision(s, e);
    AmendsOne(e);
    if Amends(e, User) {
      UserIsFound(log, e, slots);
    }
    if e.event.MessageUpdated? {
      AssistantIsFound(log, e, slots);
    }
    if Wrote(slots, n) {
      SourcesLogged(log, slots, n);
    }
    WritesNow(slots, a, n, added);
  }

  lemma AmendsOne(e: Entry)
    ensures !(Amends(e, User) && Amends(e, Assistant))
    ensures Amends(e, User) || Amends(e, Assistant) ==> e.event.MessageUpdated? && !Empties(e)
    ensures Creates(e, User) || Creates(e, Assistant) ==> e.event.MessageCreated?
  {
  }

  lemma WritesNow(slots: seq<Slot>, a: Action, n: nat, added: seq<Source>)
    requires a.Replace? || a.Remove? || a.Amend? ==> a.at < |slots|
    requires !a.Withdraw? && !a.IndexError? && added == [Whole(n)] && !Wrote(slots, n)
    ensures Wrote(Move(slots, a, n, added), n) <==> a.Append? || a.Replace? || a.Amend?
  {
    hide Compaction;
    var next := Move(slots, a, n, added);
    if a.Append? || a.Replace? || a.Amend? {
      var p := if a.Append? then |slots| else a.at;
      assert next[p] in next && Whole(n) in next[p].sources;
    }
  }

  // ---- What becomes of it --------------------------------------------------------------------

  /** What a step takes is exactly what an event is said to take. */
  lemma TakenExactly(s: Story, slots: seq<Slot>, e: Entry, p: nat)
    requires Entries(slots) == s.items && InOrder(slots) && p < |slots| && slots[p].entry.event.MessageCreated?
    requires Voiced(s.items) && WellActed(e)
    ensures var a := Decide(s, e);
            && !a.IndexError?
            && (Takes(slots, e, slots[p]) <==>
                  (a.Remove? && a.at == p) || (a.Withdraw? && Supersedes(a.marker, slots[p].entry)))
            && (a.Replace? && a.at == p ==> a.entry.event.MessageCreated?)
  {
    hide Decide, FindBelow, PayloadText, Supersedes, FindMessage, InOrder, Body, Names;
    var a := Decide(s, e);
    assert slots[p] in slots;
    if e.event.MessageSuperseded? {
      SupersededEffect(s, START.tables, e);
    } else if MessageEvent(e) {
      MessageTarget(s, e);
      MessageDecision(s, e);
      if Empties(e) {
        FoundIsLatest(slots, e);
        if a.Remove? {
          LatestOne(slots, e, a.at, p);
        }
      }
    } else {
      OtherEffect(s, e);
      OtherReplaces(s, e, p);
    }
  }

  lemma LatestOne(slots: seq<Slot>, e: Entry, at: nat, p: nat)
    requires InOrder(slots) && at < |slots| && p < |slots| && Names(e, slots[at].entry)
    requires forall s :: s in slots && Names(e, s.entry) ==> s.born <= slots[at].born
    ensures Names(e, slots[p].entry) && (forall t :: t in slots && Names(e, t.entry) ==> t.born <= slots[p].born) <==>
            p == at
  {
    hide Names;
    assert slots[at] in slots && slots[p] in slots;
    if p < at {
      BornInOrder(slots, p, at);
    } else if at < p {
      BornInOrder(slots, at, p);
    }
  }

  /** Other events replace no message. */
  lemma OtherReplaces(s: Story, e: Entry, p: nat)
    requires WellActed(e) && !MessageEvent(e) && !e.event.MessageSuperseded?
    requires p < |s.items| && s.items[p].event.MessageCreated?
    ensures !(Decide(s, e).Replace? && Decide(s, e).at == p)
  {
    hide Decide, FindBelow, PayloadText, Merges;
    if Completion(e.event) {
      CompletionEffect(s, e);
    } else {
      OtherTarget(s, e);
    }
  }

  /** Moves other than taking the entry keep what was written to it. */
  lemma WroteStays(slots: seq<Slot>, a: Action, n: nat, added: seq<Source>, p: nat, j: nat)
    requires a.Replace? || a.Remove? || a.Amend? ==> a.at < |slots|
    requires p < |slots| && Whole(j) in slots[p].sources
    requires !(a.Remove? && a.at == p) && !(a.Withdraw? && Supersedes(a.marker, slots[p].entry))
    requires a.Replace? && a.at == p ==> a.entry.event.MessageCreated?
    ensures Wrote(Move(slots, a, n, added), j)
  {
    hide Supersedes, Kept;
    var own, next := slots[p], Move(slots, a, n, added);
    assert own in slots;
    match a
    case Withdraw(marker) => KeptSlots(slots, marker);
    case Remove(at) => assert next[if p < at then p else p - 1] in next;
    case _ => assert next[p] in next;
  }

  /** Taking the one entry that an event has written to leaves nothing of it. */
  lemma TakenIsGone(slots: seq<Slot>, a: Action, n: nat, added: seq<Source>, p: nat, j: nat)
    requires InOrder(slots) && OneEach(slots) && p < |slots| && Whole(j) in slots[p].sources
    requires (a.Remove? && a.at == p) || (a.Withdraw? && Supersedes(a.marker, slots[p].entry))
    ensures !Wrote(Move(slots, a, n, added), j)
  {
    hide Supersedes, Kept, SameThing;
    var next := Move(slots, a, n, added);
    assert slots[p] in slots;
    if a.Withdraw? {
      KeptSlots(slots, a.marker);
    } else {
      forall q | 0 <= q < |next| ensures Whole(j) !in next[q].sources {
        var o := if q < p then q else q + 1;
        assert next[q] == slots[o] && slots[o] in slots;
        if o < p { BornInOrder(slots, o, p); } else { BornInOrder(slots, p, o); }
      }
    }
  }

  /** One more event keeps what a message event has written exactly when it does not take it. */
  lemma {:induction false} WrittenUnlessTaken(log: seq<Entry>, e: Entry, j: nat)
    requires Conserved(log, Trace(log)) && Voiced(Narrate(log).items) && WellActed(e)
    requires j < |log| && MessageEvent(log[j])
    ensures Wrote(Trace(log + [e]), j) <==> Wrote(Trace(log), j) && !Took(log + [e], |log|, j)
  {
    hide Trace, Narrate, Decide, Added, Conserved, Supersedes, Takes, Voiced, WellActed, Move,
         Faithful, InOrder, OneEach;
    var s, slots, n := Narrate(log), Trace(log), |log|;
    var a, added := Decide(s, e), Added(log, s.memory, e);
    assert (log + [e])[..n] == log && (log + [e])[n] == e;
    TraceGrows(log, e);
    AddedOnlyOwn(log, s.memory, e);
    if Wrote(slots, j) {
      var own :| own in slots && Whole(j) in own.sources;
      var p: nat :| p < |slots| && slots[p] == own;
      OwnFaithful(log, slots, p);
      OrderOf(log, slots);
      WrittenIsMessage(log, own, j);
      assert Entries(slots) == s.items;
      TakenExactly(s, slots, e, p);
      if Takes(slots, e, own) {
        TakenIsGone(slots, a, n, added, p, j);
      } else {
        WroteStays(slots, a, n, added, p, j);
        forall t | t in slots && Whole(j) in t.sources ensures t == own {
          hide Conserved;
          OnlyOne(slots, own, t, j);
        }
      }
    } else {
      NoNewSources(slots, a, n, added, j);
    }
  }

  lemma OnlyOne(slots: seq<Slot>, s: Slot, t: Slot, j: nat)
    requires OneEach(slots) && s in slots && t in slots && Whole(j) in s.sources && Whole(j) in t.sources
    ensures s == t
  {
    hide SameThing;
  }

  // ---- Whole logs ----------------------------------------------------------------------------

  lemma PrefixHears(log: seq<Entry>, e: Entry, j: nat)
    requires j < |log|
    ensures Heard(log + [e], j) <==> Heard(log, j)
    ensures forall n :: j < n < |log| ==> (Took(log + [e], n, j) <==> Took(log, n, j))
  {
    hide Trace, Creates, Amends, Names, Takes, Wrote;
    assert forall i :: 0 <= i < |log| ==> (log + [e])[i] == log[i] && (log + [e])[..i] == log[..i];
    forall i: nat | i < j
      ensures Reachable(log + [e], j, i) <==> Reachable(log, j, i)
      ensures Standing(log + [e], j, i) <==> Standing(log, j, i)
    {
    }
  }

  lemma {:induction false} FoldKeepsMessages(log: seq<Entry>)
    requires WellActored(log)
    ensures MessagesKept(log)
  {
    hide Trace, Narrate, Heard, Took, Wrote, WellActed, Conserved, MessageEvent;
    if log != [] {
      var n := |log| - 1;
      var front, e := log[..n], log[n];
      FoldKeepsMessages(front);
      FoldConserves(front);
      NarrationVoiced(front);
      assert log == front + [e];
      forall j | 0 <= j < |log| && MessageEvent(log[j]) ensures KeptFaithfully(log, j) {
        if j == n {
          HeardAtOnce(front, e);
        } else {
          assert front[j] == log[j] && KeptFaithfully(front, j);
          WrittenUnlessTaken(front, e, j);
          PrefixHears(front, e, j);
        }
      }
    }
  }

  /**
   * What replay keeps, over whole logs and for the position-free fold: each entry has exactly the payload that events
   * about the same thing wrote, and none of what can be lost is. A message event that reached a message is in the
   * transcript exactly until an event takes that message away; starts, completions, user messages, turn events and
   * compactions keep their places.
   */
  lemma ReplayConserves(log: seq<Entry>)
    requires WellActored(log)
    ensures Conserved(log, Trace(log)) && Entries(Trace(log)) == Narrate(log).items
    ensures MessagesKept(log)
  {
    hide Trace, Narrate, Conserved, MessagesKept, WellActored;
    FoldConserves(log);
    FoldKeepsMessages(log);
  }

  /** The same for what the loop returns, on logs where its positions stay right. */
  lemma ReplayKeepsEverything(log: seq<Entry>, result: seq<Entry>)
    requires WellActored(log) && Clean(log) && Replay(log) == Some(result)
    ensures result == Entries(Trace(log)) && Conserved(log, Trace(log)) && MessagesKept(log)
  {
    hide Trace, Narrate, Conserved, MessagesKept, WellActored, Clean, Replay;
    ReplayIsIdentityFold(log);
    ReplayConserves(log);
  }

  /** What the assistant wrote, and every update of it that found its message, is there or was taken away later. */
  lemma SpeechKept(log: seq<Entry>, j: nat)
    requires WellActored(log) && j < |log|
    requires Creates(log[j], Assistant) || (Amends(log[j], Assistant) && exists i | 0 <= i < j :: Standing(log, j, i))
    ensures Wrote(Trace(log), j) || exists n | j < n < |log| :: Took(log, n, j)
  {
    hide Trace, Wrote, Took, Standing, Body, WellActored;
    FoldKeepsMessages(log);
    assert KeptFaithfully(log, j);
  }

  /** Nothing ever takes a user message away, so an update of one is there as soon as there is one to update. */
  lemma UserUpdatesStay(log: seq<Entry>, j: nat)
    requires WellActored(log) && j < |log| && Amends(log[j], User)
    ensures Wrote(Trace(log), j) <==> exists i | 0 <= i < j :: Reachable(log, j, i)
  {
    hide Trace, Wrote, Takes, Reachable, Standing, Body, WellActored;
    FoldKeepsMessages(log);
    assert KeptFaithfully(log, j);
    AmendsOne(log[j]);
    forall n | j < n < |log| ensures !Took(log, n, j) {
      UsersStay(log, n, j);
    }
  }

  lemma UsersStay(log: seq<Entry>, n: nat, j: nat)
    requires WellActored(log) && j < n < |log| && Amends(log[j], User)
    ensures !Took(log, n, j)
  {
    hide Trace, Body, Conserved, Supersedes, Names, Faithful;
    var front := log[..n];
    FoldConserves(front);
    assert front[j] == log[j];
    forall s | s in Trace(front) && Whole(j) in s.sources ensures !Takes(Trace(front), log[n], s) {
      FaithfulOf(front, Trace(front), s);
      SpeaksAsUser(front, s, j);
      SupersedesOnlyAssistants(log[n], s.entry);
      assert !Names(log[n], s.entry) by { NamesAssistants(log[n], s.entry); }
    }
  }

  lemma NamesAssistants(e: Entry, x: Entry)
    ensures Names(e, x) ==> x.actor == Some(Assistant)
  {
  }

  lemma SpeaksAsUser(log: seq<Entry>, s: Slot, j: nat)
    requires Faithful(log, s) && j < |log| && Amends(log[j], User) && Whole(j) in s.sources
    ensures s.entry.actor == Some(User)
  {
    hide Faithful, PayloadText, Body;
    WrittenIsMessage(log, s, j);
  }
}
