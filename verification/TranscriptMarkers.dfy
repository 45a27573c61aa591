/** What replacement markers leave of a replayed transcript, read off the payload fields. */
module TranscriptMarkers {
  import opened Text
  import opened Transcripts
  import opened TranscriptRefinement

  /** The payload field is a text that reads `text` between white space. */
  predicate Reads(p: Payload, f: Field, text: string) {
    f in p && p[f].Words? && Strip(p[f].text) == text
  }

  /** The payload field is a text that is not blank. */
  predicate HasText(p: Payload, f: Field) {
    f in p && p[f].Words? && Strip(p[f].text) != ""
  }

  /** The payload field is a positive number, at most `high`. */
  predicate UpTo(p: Payload, f: Field, high: int) {
    f in p && p[f].Number? && 1 <= p[f].n <= high
  }

  predicate Is(p: Payload, f: Field, n: int) {
    f in p && p[f] == Number(n) && n >= 1
  }

  predicate Speaks(x: Entry, turn: Option<string>) {
    x.actor == Some(Assistant) && x.turn == turn
  }

  predicate Marker(m: Entry) {
    m.event.MessageSuperseded? && m.actor == Some(Assistant)
  }

  /** The entries that are not dropped, in their order. */
  function Without(items: seq<Entry>, drop: Entry -> bool): seq<Entry> {
    if items == [] then []
    else
      var last := items[|items| - 1];
      Without(items[..|items| - 1], drop) + if drop(last) then [] else [last]
  }

  lemma {:induction false} WithoutMeans(items: seq<Entry>, drop: Entry -> bool)
    ensures forall x :: x in Without(items, drop) <==> x in items && !drop(x)
    ensures (forall x :: x in items ==> !drop(x)) ==> Without(items, drop) == items
    ensures (forall x :: x in items ==> drop(x)) ==> Without(items, drop) == []
  {
    if items != [] {
      var front := items[..|items| - 1];
      assert items == front + [items[|items| - 1]];
      WithoutMeans(front, drop);
    }
  }

  lemma {:induction false} WithoutOn(a: seq<Entry>, b: seq<Entry>, drop: Entry -> bool)
    ensures Without(a + b, drop) == Without(a, drop) + Without(b, drop)
    decreases |b|
  {
    if b == [] {
      assert a + b == a;
    } else {
      assert (a + b)[..|a + b| - 1] == a + b[..|b| - 1];
      WithoutOn(a, b[..|b| - 1], drop);
    }
  }

  lemma {:induction false} WithdrawnIsWithout(items: seq<Entry>, m: Entry, drop: Entry -> bool)
    requires forall x :: Supersedes(m, x) <==> drop(x)
    ensures Withdrawn(items, m) == Without(items, drop)
  {
    hide Supersedes;
    if items != [] {
      WithdrawnIsWithout(items[..|items| - 1], m, drop);
    }
  }

  lemma MarkerWithdraws(log: seq<Entry>, m: Entry, drop: Entry -> bool)
    requires Marker(m) && forall x :: Supersedes(m, x) <==> drop(x)
    ensures Narrate(log + [m]).items == Without(Narrate(log).items, drop)
  {
    hide Supersedes, Decide;
    assert (log + [m])[..|log|] == log;
    SupersededEffect(Narrate(log), START.tables, m);
    WithdrawnIsWithout(Narrate(log).items, m, drop);
  }

  /** A marker with a target takes the messages of its turn that have that item id, and leaves all else. */
  lemma TargetedMarker(log: seq<Entry>, m: Entry, target: string)
    requires Marker(m) && target != "" && Reads(m.payload, SupersedesItemId, target)
    ensures Narrate(log + [m]).items ==
            Without(Narrate(log).items, x => Speaks(x, m.turn) && Reads(x.payload, ItemId, target))
  {
    hide Strip;
    MarkerWithdraws(log, m, x => Speaks(x, m.turn) && Reads(x.payload, ItemId, target));
  }

  /** Without a target, one for a response takes the lower attempts at its round, in its epoch and turn. */
  lemma ResponseMarker(log: seq<Entry>, m: Entry, epoch: int, round: int, attempt: int)
    requires Marker(m) && !HasText(m.payload, SupersedesItemId) && Reads(m.payload, Scope, "response")
    requires Is(m.payload, PresentationEpoch, epoch) && Is(m.payload, Round, round) && Is(m.payload, Attempt, attempt)
    ensures Narrate(log + [m]).items ==
            Without(Narrate(log).items, x =>
              Speaks(x, m.turn) && Is(x.payload, PresentationEpoch, epoch) && Is(x.payload, Round, round)
              && UpTo(x.payload, Attempt, attempt - 1))
  {
    hide Strip;
    assert "response" != "presentation" by { assert "response"[0] != "presentation"[0]; }
    MarkerWithdraws(log, m, x =>
      Speaks(x, m.turn) && Is(x.payload, PresentationEpoch, epoch) && Is(x.payload, Round, round)
      && UpTo(x.payload, Attempt, attempt - 1));
  }

  /** Without a target, one for a presentation takes the messages of its turn up to its epoch. */
  lemma PresentationMarker(log: seq<Entry>, m: Entry, epoch: int)
    requires Marker(m) && !HasText(m.payload, SupersedesItemId) && Reads(m.payload, Scope, "presentation")
    requires Is(m.payload, PresentationEpoch, epoch)
    ensures Narrate(log + [m]).items ==
            Without(Narrate(log).items, x => Speaks(x, m.turn) && UpTo(x.payload, PresentationEpoch, epoch))
  {
    hide Strip;
    MarkerWithdraws(log, m, x => Speaks(x, m.turn) && UpTo(x.payload, PresentationEpoch, epoch));
  }

  predicate Numbered(p: Payload, f: Field) {
    f in p && p[f].Number? && p[f].n >= 1
  }

  /** Every other event that supersedes takes nothing. */
  lemma IdleMarker(log: seq<Entry>, m: Entry)
    requires m.event.MessageSuperseded?
    requires Marker(m) ==>
               && !HasText(m.payload, SupersedesItemId)
               && (|| !Numbered(m.payload, PresentationEpoch)
                   || (!Reads(m.payload, Scope, "presentation")
                       && !(Reads(m.payload, Scope, "response")
                            && Numbered(m.payload, Round) && Numbered(m.payload, Attempt))))
    ensures Narrate(log + [m]).items == Narrate(log).items
  {
    hide Strip;
    if Marker(m) {
      MarkerWithdraws(log, m, x => false);
      WithoutMeans(Narrate(log).items, x => false);
    } else {
      assert (log + [m])[..|log|] == log;
      SupersededEffect(Narrate(log), START.tables, m);
    }
  }

  // ---- The attempts at a response ------------------------------------------------------------

  datatype Response = Response(turn: Option<string>, epoch: int, round: int)

  predicate Of(x: Entry, r: Response) {
    Speaks(x, r.turn) && Is(x.payload, PresentationEpoch, r.epoch) && Is(x.payload, Round, r.round)
  }

  /** A message of one attempt at the response, with a body. */
  predicate Tries(x: Entry, r: Response, attempt: int) {
    && x.event.MessageCreated? && Of(x, r) && Is(x.payload, Attempt, attempt)
    && Content in x.payload && x.payload[Content].Words? && x.payload[Content].text != ""
  }

  ghost predicate TriesOnce(x: Entry, r: Response) {
    exists attempt :: Tries(x, r, attempt)
  }

  predicate SameId(x: Entry, y: Entry) {
    && HasText(x.payload, ItemId) && HasText(y.payload, ItemId)
    && Strip(x.payload[ItemId].text) == Strip(y.payload[ItemId].text)
  }

  predicate OwnIds(block: seq<Entry>) {
    forall p, q | 0 <= p < q < |block| :: !SameId(block[p], block[q])
  }

  /** The marker of an attempt: for the response without a target, or with the one item id of the attempt before. */
  ghost predicate Announces(m: Entry, r: Response, attempt: int, previous: seq<Entry>) {
    && Marker(m) && m.turn == r.turn
    && if HasText(m.payload, SupersedesItemId)
       then forall x :: x in previous ==> Reads(x.payload, ItemId, Strip(m.payload[SupersedesItemId].text))
       else
         && Reads(m.payload, Scope, "response") && Is(m.payload, PresentationEpoch, r.epoch)
         && Is(m.payload, Round, r.round) && Is(m.payload, Attempt, attempt)
  }

  /** The attempts, each after its marker; the first has none. */
  function Told(attempts: seq<seq<Entry>>, markers: seq<Entry>): seq<Entry>
    requires |attempts| == |markers| + 1
  {
    if markers == [] then attempts[0]
    else
      var n := |markers|;
      Told(attempts[..n], markers[..n - 1]) + [markers[n - 1]] + attempts[n]
  }

  ghost predicate Retries(attempts: seq<seq<Entry>>, markers: seq<Entry>, r: Response)
    requires |attempts| == |markers| + 1
  {
    && (forall k | 0 <= k < |attempts| :: OwnIds(attempts[k]) && forall x :: x in attempts[k] ==> Tries(x, r, k + 1))
    && (forall k | 0 <= k < |markers| ::
          && Announces(markers[k], r, k + 2, attempts[k])
          && (HasText(markers[k].payload, SupersedesItemId) ==> attempts[k] != []))
  }

  /** The list holds no message of the response, and none of its turn with an item id of the attempts. */
  ghost predicate Apart(items: seq<Entry>, attempts: seq<seq<Entry>>, r: Response) {
    forall y :: y in items && Speaks(y, r.turn) ==>
      !Of(y, r) && forall k | 0 <= k < |attempts| :: forall x :: x in attempts[k] ==> !SameId(x, y)
  }

  /** Of all attempts at a response, each announced by its marker, only the last is left, whole and in order. */
  lemma {:induction false} OnlyTheLastAttempt(log: seq<Entry>, attempts: seq<seq<Entry>>, markers: seq<Entry>,
                                              r: Response)
    requires |attempts| == |markers| + 1 && Retries(attempts, markers, r)
    requires Apart(Narrate(log).items, attempts, r)
    ensures Narrate(log + Told(attempts, markers)).items == Narrate(log).items + attempts[|markers|]
    decreases |markers|
  {
    hide Narrate, SameId, Tries, Of, Speaks, Announces, OwnIds, Marker, HasText;
    var n, items := |markers|, Narrate(log).items;
    if n == 0 {
      assert log + Told(attempts, markers) == log + attempts[0];
      BlockAppends(log, attempts[0], r);
    } else {
      var front := log + Told(attempts[..n], markers[..n - 1]);
      OnlyTheLastAttempt(log, attempts[..n], markers[..n - 1], r);
      var m := markers[n - 1];
      AttemptWithdrawn(front, items, attempts[n - 1], m, r, n);
      assert log + Told(attempts, markers) == (front + [m]) + attempts[n];
      BlockAppends(front + [m], attempts[n], r);
    }
  }

  /** The marker of the next attempt takes exactly the attempt before. */
  lemma AttemptWithdrawn(front: seq<Entry>, items: seq<Entry>, block: seq<Entry>, m: Entry, r: Response, attempt: int)
    requires Narrate(front).items == items + block
    requires Announces(m, r, attempt + 1, block) && (HasText(m.payload, SupersedesItemId) ==> block != [])
    requires forall x :: x in block ==> Tries(x, r, attempt)
    requires forall y :: y in items && Speaks(y, r.turn) ==> !Of(y, r) && forall x :: x in block ==> !SameId(x, y)
    ensures Narrate(front + [m]).items == items
  {
    hide Narrate, Strip;
    var drop: Entry -> bool;
    if HasText(m.payload, SupersedesItemId) {
      var target := Strip(m.payload[SupersedesItemId].text);
      TargetedMarker(front, m, target);
      drop := x => Speaks(x, m.turn) && Reads(x.payload, ItemId, target);
      forall y | y in items ensures !drop(y) {
        var x := block[0];
        assert Reads(x.payload, ItemId, target);
        assert Speaks(y, r.turn) ==> !SameId(x, y);
      }
    } else {
      ResponseMarker(front, m, r.epoch, r.round, attempt + 1);
      drop := x => Speaks(x, m.turn) && Is(x.payload, PresentationEpoch, r.epoch) && Is(x.payload, Round, r.round)
                   && UpTo(x.payload, Attempt, attempt + 1 - 1);
    }
    WithoutOn(items, block, drop);
    WithoutMeans(items, drop);
    WithoutMeans(block, drop);
    assert items + [] == items;
  }

  /** Messages with bodies and item ids that the turn does not have yet are appended as they are. */
  lemma {:induction false} BlockAppends(log: seq<Entry>, block: seq<Entry>, r: Response)
    requires OwnIds(block) && forall x :: x in block ==> TriesOnce(x, r)
    requires forall y :: y in Narrate(log).items && Speaks(y, r.turn) ==> forall x :: x in block ==> !SameId(x, y)
    ensures Narrate(log + block).items == Narrate(log).items + block
    decreases |block|
  {
    hide SameId, Tries, Decide, Speaks, Narrate, OwnIds;
    if block == [] {
      assert log + block == log;
    } else {
      var n := |block| - 1;
      var front, x := block[..n], block[n];
      assert block == front + [x];
      OwnIdsBefore(front, x);
      BlockAppends(log, front, r);
      assert log + block == (log + front) + [x];
      assert x in block;
      var k :| Tries(x, r, k);
      NewMessageAppends(Narrate(log + front), x, r, k);
      TellsOne(log + front, x);
    }
  }

  lemma OwnIdsBefore(front: seq<Entry>, x: Entry)
    requires OwnIds(front + [x])
    ensures OwnIds(front) && forall y :: y in front ==> !SameId(x, y)
  {
    hide SameId;
    var block := front + [x];
    assert forall p :: 0 <= p < |front| ==> block[p] == front[p];
    forall y | y in front ensures !SameId(x, y) {
      var p :| 0 <= p < |front| && front[p] == y;
      assert !SameId(block[p], block[|front|]);
      Symmetric(x, y);
    }
  }

  lemma TellsOne(log: seq<Entry>, x: Entry)
    requires Decide(Narrate(log), x) == Append(x)
    ensures Narrate(log + [x]).items == Narrate(log).items + [x]
  {
    hide Decide;
    assert (log + [x])[..|log|] == log;
  }

  lemma Symmetric(x: Entry, y: Entry)
    ensures SameId(x, y) == SameId(y, x)
  {
    hide Strip;
  }

  lemma NewMessageAppends(s: Story, x: Entry, r: Response, k: int)
    requires Tries(x, r, k) && forall y :: y in s.items && Speaks(y, r.turn) ==> !SameId(x, y)
    ensures Decide(s, x) == Append(x)
  {
    hide Strip, FindBelow;
    assert forall i :: 0 <= i < |s.items| ==> s.items[i] in s.items;
  }
}
