/** What one more event of a log does to its replay, read off the payload fields. */
module TranscriptEvents {
  import opened Text
  import opened Transcripts
  import opened TranscriptRefinement
  import opened TranscriptConservation
  import opened TranscriptMarkers

  predicate HasBody(e: Entry) {
    Content in e.payload && e.payload[Content].Words? && e.payload[Content].text != ""
  }

  predicate HasEmptyBody(e: Entry) {
    Content in e.payload && e.payload[Content] == Words("")
  }

  /** The last position whose entry fits. */
  predicate LastAt(items: seq<Entry>, at: nat, fits: Entry -> bool) {
    at < |items| && fits(items[at]) && forall q :: at < q < |items| ==> !fits(items[q])
  }

  predicate Nowhere(items: seq<Entry>, fits: Entry -> bool) {
    forall q :: 0 <= q < |items| ==> !fits(items[q])
  }

  /** Looking an identity up finds the last entry that fits, if any does. */
  lemma FindIsLast(items: seq<Entry>, k: Key, fits: Entry -> bool)
    requires forall x :: Denotes(k, x) <==> fits(x)
    ensures forall at: nat :: LastAt(items, at, fits) <==> Find(items, k) == Some(at)
    ensures Nowhere(items, fits) <==> Find(items, k).None?
  {
    hide FindBelow, Denotes;
    var found := Find(items, k);
    forall at: nat | LastAt(items, at, fits) ensures found == Some(at) {
      assert fits(items[at]);
    }
  }

  lemma OneTold(log: seq<Entry>, e: Entry)
    ensures Narrate(log + [e]).items == Apply(Narrate(log).items, Decide(Narrate(log), e))
  {
    hide Decide, Apply;
    assert (log + [e])[..|log|] == log;
  }

  // ---- Messages ------------------------------------------------------------------------------

  /** A created message: a user's is appended if it has a body, no one else's but the assistant's ever is. */
  lemma CreatedByOthers(log: seq<Entry>, e: Entry)
    requires e.event.MessageCreated? && e.actor != Some(Assistant)
    ensures Narrate(log + [e]).items ==
            Narrate(log).items + if e.actor == Some(User) && HasBody(e) then [e] else []
  {
    hide Strip, FindBelow, Narrate;
    OneTold(log, e);
  }

  /** The assistant's takes the place of the last of its turn with its item id, over the fields that were there. */
  lemma CreatedByAssistant(log: seq<Entry>, e: Entry)
    requires e.event.MessageCreated? && e.actor == Some(Assistant)
    ensures var items := Narrate(log).items;
            var next := Narrate(log + [e]).items;
            var same := (x: Entry) => Speaks(x, e.turn) && SameId(x, e);
            && (!HasBody(e) ==> next == items)
            && (HasBody(e) && Nowhere(items, same) ==> next == items + [e])
            && forall at: nat :: HasBody(e) && LastAt(items, at, same) ==>
                 next == items[at := e.(payload := items[at].payload + e.payload)]
  {
    hide Strip, FindBelow, Narrate, LastAt, Nowhere;
    OneTold(log, e);
    var items := Narrate(log).items;
    var same := (x: Entry) => Speaks(x, e.turn) && SameId(x, e);
    if HasText(e.payload, ItemId) {
      FindIsLast(items, MessageOf(e.turn, Item(e)), same);
    } else {
      NoId(items, e, same);
    }
  }

  lemma NoId(items: seq<Entry>, e: Entry, same: Entry -> bool)
    requires !HasText(e.payload, ItemId) && forall x :: same(x) ==> SameId(x, e)
    ensures Nowhere(items, same) && forall at: nat :: !LastAt(items, at, same)
  {
  }

  /**
   * An update by the assistant adds its fields to the last message with its item id, of its turn if it names one; an
   * empty body takes that message away.
   */
  lemma UpdatedByAssistant(log: seq<Entry>, e: Entry)
    requires e.event.MessageUpdated? && e.actor == Some(Assistant)
    ensures var items := Narrate(log).items;
            var next := Narrate(log + [e]).items;
            var same := (x: Entry) =>
              x.actor == Some(Assistant) && (Truthy(e.turn) ==> x.turn == e.turn) && SameId(x, e);
            && (Nowhere(items, same) || (!HasBody(e) && !HasEmptyBody(e)) ==> next == items)
            && forall at: nat :: LastAt(items, at, same) ==>
                 && (HasBody(e) ==> next == items[at := items[at].(payload := items[at].payload + e.payload)])
                 && (HasEmptyBody(e) ==> next == items[..at] + items[at + 1..])
  {
    hide Strip, FindBelow, Narrate, LastAt, Nowhere;
    OneTold(log, e);
    var items := Narrate(log).items;
    var same := (x: Entry) =>
      x.actor == Some(Assistant) && (Truthy(e.turn) ==> x.turn == e.turn) && SameId(x, e);
    if HasText(e.payload, ItemId) {
      FindIsLast(items, if Truthy(e.turn) then MessageOf(e.turn, Item(e)) else MessageInAnyTurn(Item(e)), same);
    } else {
      NoId(items, e, same);
    }
  }

  /** An update by the user with a body adds its fields to the last user message, of its turn if it names one. */
  lemma UpdatedByOthers(log: seq<Entry>, e: Entry)
    requires e.event.MessageUpdated? && e.actor != Some(Assistant)
    ensures var items := Narrate(log).items;
            var next := Narrate(log + [e]).items;
            var users := (x: Entry) =>
              x.event.MessageCreated? && x.actor == Some(User) && (Truthy(e.turn) ==> x.turn == e.turn);
            && (e.actor != Some(User) || !HasBody(e) || Nowhere(items, users) ==> next == items)
            && forall at: nat :: e.actor == Some(User) && HasBody(e) && LastAt(items, at, users) ==>
                 next == items[at := items[at].(payload := items[at].payload + e.payload)]
  {
    hide Strip, FindBelow, Narrate, LastAt, Nowhere;
    OneTold(log, e);
    var users := (x: Entry) =>
      x.event.MessageCreated? && x.actor == Some(User) && (Truthy(e.turn) ==> x.turn == e.turn);
    FindIsLast(Narrate(log).items, if Truthy(e.turn) then UserOf(e.turn.value) else AnyUser, users);
  }

  // ---- Compactions and turn events -----------------------------------------------------------

  predicate InSequence(e: Entry) {
    Compaction(e.event) && HasText(e.payload, ItemId) && Numbered(e.payload, EventSeq)
  }

  /**
   * A compaction with an item id and a number takes the place of the last one of its turn and id if its number is
   * higher, and is dropped if not; any other is appended.
   */
  lemma Compacted(log: seq<Entry>, e: Entry)
    requires e.event.ContextCompacted? || e.event.ContextCompactionFailed?
    ensures var items := Narrate(log).items;
            var next := Narrate(log + [e]).items;
            var same := (x: Entry) => InSequence(x) && x.turn == e.turn && SameId(x, e);
            && (!InSequence(e) || Nowhere(items, same) ==> next == items + [e])
            && forall at: nat :: InSequence(e) && LastAt(items, at, same) ==>
                 next == if items[at].payload[EventSeq].n < e.payload[EventSeq].n then items[at := e] else items
  {
    hide Strip, FindBelow, Narrate, Nowhere;
    OneTold(log, e);
    var same := (x: Entry) => InSequence(x) && x.turn == e.turn && SameId(x, e);
    if InSequence(e) {
      FindIsLast(Narrate(log).items, CompactionOf(e.turn, Item(e)), same);
    }
  }

  /** Stopped observations and the ends of turns are appended, events of other kinds never. */
  lemma TurnEvents(log: seq<Entry>, e: Entry)
    requires e.event.CompactionObservationStopped? || e.event.TurnFailed? || e.event.TurnIncomplete?
             || e.event.TurnInterrupted? || e.event.OtherEvent?
    ensures Narrate(log + [e]).items == Narrate(log).items + if e.event.OtherEvent? then [] else [e]
  {
    hide Strip, FindBelow, Narrate;
    OneTold(log, e);
  }

  // ---- Tools ---------------------------------------------------------------------------------

  /** A patch without its preview object is not listed. */
  predicate Listed(e: Entry) {
    && e.event.ToolStarted?
    && (Reads(e.payload, Name, "apply_patch") ==>
          PatchPreview in e.payload && e.payload[PatchPreview].Object?)
  }

  lemma Started(log: seq<Entry>, e: Entry)
    requires e.event.ToolStarted?
    ensures Narrate(log + [e]).items == Narrate(log).items + if Listed(e) then [e] else []
  {
    hide Strip, FindBelow, Narrate;
    OneTold(log, e);
  }

  /** A start or completion of the call. */
  predicate About(e: Entry, c: string) {
    (Listed(e) || e.event.ToolCompleted? || e.event.ToolFailed?) && Reads(e.payload, CallId, c)
  }

  /** The event at `i` is the last one about the call, and a start. */
  predicate LastStart(log: seq<Entry>, c: string, i: nat) {
    && i < |log| && c != "" && Listed(log[i]) && Reads(log[i].payload, CallId, c)
    && forall j :: i < j < |log| ==> !About(log[j], c)
  }

  /**
   * A completion takes the place of the start before it, of any tool but `js_repl`: its fields over those of the
   * start, in the turn of the start if it names none. A failed patch is appended instead.
   */
  lemma CompletionTakesPlace(log: seq<Entry>, c: string, i: nat, e: Entry) returns (at: nat)
    requires WellActored(log) && LastStart(log, c, i) && !Reads(log[i].payload, Name, "js_repl")
    requires (e.event.ToolCompleted? || e.event.ToolFailed?) && Reads(e.payload, CallId, c)
    ensures var items := Narrate(log).items;
            && at < |items| && items[at] == log[i]
            && Narrate(log + [e]).items ==
               if e.event.ToolFailed? && Reads(log[i].payload, Name, "apply_patch") then items + [e]
               else items[at := e.(turn := if Truthy(e.turn) then e.turn else log[i].turn,
                                   payload := log[i].payload + e.payload)]
  {
    hide Strip, FindBelow, Narrate, Conserved, Trace;
    var slots := Trace(log);
    FoldConserves(log);
    OpenMeansLast(log, c, i);
    OpenSlot(log, slots, c, i);
    OpenMeans(log, c);
    at := Find(Entries(slots), StartOf(c)).value;
    OneTold(log, e);
    CompletionEffect(Narrate(log), e);
  }

  lemma OpenMeansLast(log: seq<Entry>, c: string, i: nat)
    requires LastStart(log, c, i) && !Reads(log[i].payload, Name, "js_repl")
    ensures OpenSince(log, |log|, c, i)
  {
    hide Strip;
    forall j | i < j < |log| ensures !Turns(log[j], c) {
      assert !About(log[j], c);
    }
  }

  /** The completion of a `js_repl` call is appended, with the name and the arguments of its start under its own. */
  lemma ReplCompletionApart(log: seq<Entry>, c: string, i: nat, e: Entry)
    requires LastStart(log, c, i) && Reads(log[i].payload, Name, "js_repl")
    requires forall j :: 0 <= j < i ==> !About(log[j], c)
    requires (e.event.ToolCompleted? || e.event.ToolFailed?) && Reads(e.payload, CallId, c)
    ensures Narrate(log + [e]).items ==
            Narrate(log).items
            + [e.(payload := (map f | f in log[i].payload && f in {Name, Arguments} :: log[i].payload[f]) + e.payload)]
  {
    hide Strip, FindBelow, Narrate, PlainStart;
    var n := |log|;
    assert !OpenAt(log, n, c) by {
      forall k: nat | k < n ensures !OpenSince(log, n, c, k) {
        NoOtherStart(log, c, i, k);
      }
    }
    OpenAtMeans(log, c);
    assert WaitsSince(log, n, c, i) by {
      forall m | i < m < n ensures !StartsPlain(log[m], c) && !Completes(log[m], c) {
        assert !About(log[m], c);
      }
    }
    WaitingMeans(log, c);
    OneTold(log, e);
    CompletionEffect(Narrate(log), e);
    assert StartFields(log[i].payload)
        == map f | f in log[i].payload && f in {Name, Arguments} :: log[i].payload[f];
  }

  lemma NoOtherStart(log: seq<Entry>, c: string, i: nat, k: nat)
    requires LastStart(log, c, i) && Reads(log[i].payload, Name, "js_repl") && k < |log|
    requires forall j :: 0 <= j < i ==> !About(log[j], c)
    ensures !(Accepted(log[k]) && Merges(ToolName(log[k])) && Call(log[k]) == c)
  {
    hide Strip;
    assert k != i ==> !About(log[k], c);
  }

  /** The completion of a call that nothing else in the log is about is appended as it is. */
  lemma StrayCompletion(log: seq<Entry>, c: string, e: Entry)
    requires e.event.ToolCompleted? || e.event.ToolFailed?
    requires !HasText(e.payload, CallId)
             || (Reads(e.payload, CallId, c) && forall j :: 0 <= j < |log| ==> !About(log[j], c))
    ensures Narrate(log + [e]).items == Narrate(log).items + [e]
  {
    hide Strip, FindBelow, Narrate;
    if HasText(e.payload, CallId) {
      assert !OpenAt(log, |log|, c) && forall k: nat :: k < |log| ==> !WaitsSince(log, |log|, c, k) by {
        forall k: nat | k < |log|
          ensures !OpenSince(log, |log|, c, k) && !WaitsSince(log, |log|, c, k)
        {
          assert !About(log[k], c);
        }
      }
      OpenAtMeans(log, c);
      WaitingMeans(log, c);
    }
    OneTold(log, e);
    CompletionEffect(Narrate(log), e);
  }
}
