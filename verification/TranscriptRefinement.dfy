/** The position tables against the position-free fold: when they agree, and exactly when the tables stay right. */
module TranscriptRefinement {
  import opened Text
  import opened Transcripts

  /** Only message events speak as the assistant, as every writer of the log does. */
  predicate WellActed(e: Entry) {
    e.actor == Some(Assistant) ==>
      e.event.MessageCreated? || e.event.MessageUpdated? || e.event.MessageSuperseded?
  }

  predicate WellActored(log: seq<Entry>) {
    forall i :: 0 <= i < |log| ==> WellActed(log[i])
  }

  /** In a replay list every assistant entry is a message. */
  ghost predicate Voiced(items: seq<Entry>) {
    forall i :: 0 <= i < |items| ==> items[i].actor == Some(Assistant) ==> items[i].event.MessageCreated?
  }

  function MemoryOf(t: Tables): Memory {
    Memory(t.pending.Keys, t.unmerged)
  }

  /** The identities a later event may still refer to through a table. */
  predicate Live(k: Key, m: Memory) {
    match k
    case AnyUser => true
    case UserOf(t) => t != ""
    case StartOf(c) => c != "" && c in m.open
    case CompactionOf(_, i) => i != ""
    case MessageOf(_, _) => false
    case MessageInAnyTurn(_) => false
  }

  function Stored(t: Tables, k: Key): Option<nat> {
    match k
    case AnyUser => t.lastUser
    case UserOf(s) => Get(t.userByTurn, s)
    case StartOf(c) => Get(t.pending, c)
    case CompactionOf(o, i) => if (o, i) in t.compacted then Some(t.compacted[(o, i)].1) else None
    case MessageOf(_, _) => None
    case MessageInAnyTurn(_) => None
  }

  /**
   * Every stored position is the position of the entry it was recorded for, and every stored number is that entry's.
   */
  ghost predicate Accurate(items: seq<Entry>, t: Tables) {
    && (forall k :: Live(k, MemoryOf(t)) ==> Find(items, k) == Stored(t, k))
    && (forall id :: id in t.compacted && id.1 != "" ==> SeqAt(items, Some(t.compacted[id].1)) == t.compacted[id].0)
  }

  predicate Removed(items: seq<Entry>, a: Action, i: nat)
    requires i < |items|
  {
    (a.Remove? && i == a.at) || (a.Withdraw? && Supersedes(a.marker, items[i]))
  }

  ghost predicate Tracked(items: seq<Entry>, m: Memory, j: nat)
    requires j < |items|
  {
    exists k :: Live(k, m) && Find(items, k) == Some(j)
  }

  /** Nothing is removed from below an entry that a table can still reach. */
  ghost predicate Safe(items: seq<Entry>, m: Memory, a: Action) {
    forall i: nat, j: nat :: i < |items| && j < |items| && Removed(items, a, i) && Tracked(items, m, j) ==> j <= i
  }

  /** Computed from the log alone, by identity: every removal of its replay is safe. */
  ghost predicate Clean(log: seq<Entry>) {
    forall n :: 0 <= n < |log| ==> SafeAt(log, n)
  }

  ghost predicate SafeAt(log: seq<Entry>, n: nat)
    requires n < |log|
  {
    var s := Narrate(log[..n]);
    Safe(s.items, s.memory, Decide(s, log[n]))
  }

  // ---- How an action moves the position of an identity ---------------------------------------

  lemma {:induction false} WithdrawnSplits(a: seq<Entry>, b: seq<Entry>, marker: Entry)
    ensures Withdrawn(a + b, marker) == Withdrawn(a, marker) + Withdrawn(b, marker)
  {
    if b == [] {
      assert a + b == a;
    } else {
      assert (a + b)[..|a + b| - 1] == a + b[..|b| - 1];
      WithdrawnSplits(a, b[..|b| - 1], marker);
    }
  }

  lemma {:induction false} WithdrawnKeeps(items: seq<Entry>, marker: Entry)
    ensures |Withdrawn(items, marker)| <= |items|
    ensures forall x :: x in Withdrawn(items, marker) <==> x in items && !Supersedes(marker, x)
    ensures (forall x :: x in items ==> !Supersedes(marker, x)) ==> Withdrawn(items, marker) == items
    ensures (exists x :: x in items && Supersedes(marker, x)) ==> |Withdrawn(items, marker)| < |items|
  {
    if items != [] {
      var rest := items[..|items| - 1];
      assert items == rest + [items[|items| - 1]];
      WithdrawnKeeps(rest, marker);
    }
  }

  /** A marker told twice withdraws nothing more. */
  lemma WithdrawnTwice(items: seq<Entry>, marker: Entry)
    ensures Withdrawn(Withdrawn(items, marker), marker) == Withdrawn(items, marker)
  {
    hide Supersedes, Withdrawn;
    WithdrawnKeeps(items, marker);
    WithdrawnKeeps(Withdrawn(items, marker), marker);
  }

  /** A presentation marker withdraws all that any marker of its turn without a target withdraws up to its epoch. */
  lemma PresentationCovers(earlier: Entry, later: Entry, items: seq<Entry>)
    requires earlier.turn == later.turn
    requires PayloadText(earlier.payload, SupersedesItemId) == PayloadText(later.payload, SupersedesItemId) == ""
    requires PayloadText(later.payload, Scope) == "presentation"
    requires var a, b := PositiveInt(earlier.payload, PresentationEpoch), PositiveInt(later.payload, PresentationEpoch);
             a.Some? && b.Some? && a.value <= b.value
    ensures Withdrawn(Withdrawn(items, earlier), later) == Withdrawn(items, later)
    decreases |items|
  {
    if items != [] {
      var n := |items| - 1;
      var x, rest := items[n], Withdrawn(items[..n], earlier);
      PresentationCovers(earlier, later, items[..n]);
      assert Supersedes(earlier, x) ==> Supersedes(later, x);
      hide Supersedes, PayloadText, PositiveInt;
      if Supersedes(earlier, x) {
        assert rest + [] == rest && Withdrawn(rest, later) + [] == Withdrawn(rest, later);
      } else {
        assert (rest + [x])[..|rest|] == rest;
      }
    }
  }

  /** The last entry of an identity, given with what lies below and above it. */
  lemma FindBetween(below: seq<Entry>, x: Entry, above: seq<Entry>, k: Key)
    requires Denotes(k, x)
    requires forall y :: y in above ==> !Denotes(k, y)
    ensures Find(below + [x] + above, k) == Some(|below|)
  {
    hide FindBelow, Denotes;
    var items := below + [x] + above;
    assert items[|below|] == x;
    forall q | |below| < q < |items| ensures !Denotes(k, items[q]) {
      assert items[q] == above[q - |below| - 1] && items[q] in above;
    }
  }

  lemma FindNowhere(items: seq<Entry>, k: Key)
    ensures Find(items, k).None? <==> forall y :: y in items ==> !Denotes(k, y)
  {
    hide FindBelow, Denotes;
  }

  lemma FindAfterWithdraw(items: seq<Entry>, marker: Entry, k: Key)
    requires forall x :: x in items && Supersedes(marker, x) ==> !Denotes(k, x)
    ensures Find(items, k).None? ==> Find(Withdrawn(items, marker), k).None?
    ensures Find(items, k).Some? ==>
              var at := |Withdrawn(items[..Find(items, k).value], marker)|;
              Find(Withdrawn(items, marker), k) == Some(at)
                  && Withdrawn(items, marker)[at] == items[Find(items, k).value]
  {
    hide FindBelow, Denotes, Supersedes, Withdrawn;
    if Find(items, k).None? {
      WithdrawnKeeps(items, marker);
      FindNowhere(items, k);
      FindNowhere(Withdrawn(items, marker), k);
    } else {
      var j := Find(items, k).value;
      var below, x, above := items[..j], items[j], items[j + 1..];
      assert items == below + [x] + above;
      WithdrawnSplits(below + [x], above, marker);
      WithdrawnSplits(below, [x], marker);
      WithdrawnKeeps(above, marker);
      WithdrawnKeeps([x], marker);
      FindBetween(Withdrawn(below, marker), x, Withdrawn(above, marker), k);
      assert Withdrawn(items, marker) == Withdrawn(below, marker) + [x] + Withdrawn(above, marker);
    }
  }

  /**
   * After a removal the identity sits lower by what was removed below it, hence at its old place only if nothing was.
   */
  lemma FindAfterRemoval(items: seq<Entry>, a: Action, k: Key)
    requires a.Withdraw? || (a.Remove? && a.at < |items|)
    requires forall i: nat :: i < |items| && Removed(items, a, i) ==> !Denotes(k, items[i])
    ensures Find(items, k).None? ==> Find(Apply(items, a), k).None?
    ensures Find(items, k).Some? ==>
              var j := Find(items, k).value;
              var now := Find(Apply(items, a), k);
              && now.Some? && now.value <= j && Apply(items, a)[now.value] == items[j]
              && (now.value == j <==> forall i: nat :: i < j ==> !Removed(items, a, i))
  {
    hide FindBelow, Denotes, Supersedes;
    if a.Withdraw? {
      forall x | x in items && Supersedes(a.marker, x) ensures !Denotes(k, x) {
        var i: nat :| i < |items| && items[i] == x;
        assert Removed(items, a, i);
      }
      FindAfterWithdraw(items, a.marker, k);
      if Find(items, k).Some? {
        var j := Find(items, k).value;
        WithdrawnKeeps(items[..j], a.marker);
        if forall i: nat :: i < j ==> !Removed(items, a, i) {
          forall x | x in items[..j] ensures !Supersedes(a.marker, x) {
            var i: nat :| i < j && items[i] == x;
            assert !Removed(items, a, i);
          }
        } else {
          var i: nat :| i < j && Removed(items, a, i);
          assert items[i] in items[..j];
        }
      }
    } else {
      FindAfterCut(items, a.at, k);
      assert Removed(items, a, a.at);
    }
  }

  lemma FindAfterCut(items: seq<Entry>, at: nat, k: Key)
    requires at < |items| && !Denotes(k, items[at])
    ensures Find(items, k).None? ==> Find(items[..at] + items[at + 1..], k).None?
    ensures Find(items, k).Some? ==>
              var j := Find(items, k).value;
              Find(items[..at] + items[at + 1..], k) == Some(if at < j then j - 1 else j)
  {
    hide FindBelow, Denotes;
    var after := items[..at] + items[at + 1..];
    if Find(items, k).None? {
      FindNowhere(items, k);
      FindNowhere(after, k);
    } else {
      var j := Find(items, k).value;
      if at < j {
        assert after == (items[..at] + items[at + 1..j]) + [items[j]] + items[j + 1..];
        FindBetween(items[..at] + items[at + 1..j], items[j], items[j + 1..], k);
      } else {
        assert after == items[..j] + [items[j]] + (items[j + 1..at] + items[at + 1..]);
        FindBetween(items[..j], items[j], items[j + 1..at] + items[at + 1..], k);
      }
    }
  }

  lemma FindAfterAppend(items: seq<Entry>, x: Entry, k: Key)
    ensures Find(items + [x], k) == if Denotes(k, x) then Some(|items|) else Find(items, k)
  {
    hide FindBelow, Denotes;
    var now := items + [x];
    assert now[|items|] == x;
    assert forall i :: 0 <= i < |items| ==> now[i] == items[i];
  }

  lemma FindAfterSwap(items: seq<Entry>, at: nat, x: Entry, k: Key)
    requires at < |items|
    requires Denotes(k, x) <==> Denotes(k, items[at])
    ensures Find(items[at := x], k) == Find(items, k)
  {
    hide FindBelow, Denotes;
    var now := items[at := x];
    assert forall i :: 0 <= i < |items| ==> (Denotes(k, now[i]) <==> Denotes(k, items[i]));
  }

  // ---- One step ------------------------------------------------------------------------------

  lemma LookupsAgree(items: seq<Entry>, t: Tables, e: Entry)
    requires Accurate(items, t)
    ensures ByTables(items, t, e) == ByIdentity(items, MemoryOf(t), e)
  {
    if e.event.MessageUpdated? && e.actor != Some(Assistant) {
      var k := if Truthy(e.turn) then UserOf(e.turn.value) else AnyUser;
      assert Live(k, MemoryOf(t));
    } else if Sequenced(e) {
      assert Live(CompactionOf(e.turn, Item(e)), MemoryOf(t));
    } else if Completion(e.event) && Call(e) != "" && Call(e) in t.pending {
      assert Live(StartOf(Call(e)), MemoryOf(t));
    }
  }

  lemma MemoryTracks(t: Tables, n: nat, e: Entry, a: Action)
    ensures MemoryOf(Track(t, n, e, a)) == Remember(MemoryOf(t), e)
  {
    hide Strip, PositiveInt;
  }

  /** A removal leaves the tables accurate exactly when it is safe. */
  lemma RemovalAccuracy(items: seq<Entry>, t: Tables, a: Action)
    requires Voiced(items) && Accurate(items, t)
    requires a.Withdraw? || (a.Remove? && a.at < |items| && items[a.at].actor == Some(Assistant))
    ensures Accurate(Apply(items, a), t) <==> Safe(items, MemoryOf(t), a)
  {
    hide FindBelow, Withdrawn;
    var m := MemoryOf(t);
    forall k | Live(k, m)
      ensures forall i: nat :: i < |items| && Removed(items, a, i) ==> !Denotes(k, items[i])
    {
      forall i: nat | i < |items| && Removed(items, a, i) ensures !Denotes(k, items[i]) {
        RemovedSpeaksAsAssistant(items, a, i);
        NoLiveKeyForAssistant(k, m, items[i]);
      }
    }
    if Safe(items, m, a) {
      SafeKeepsAccuracy(items, t, a);
    } else {
      var i: nat, j: nat :| i < |items| && j < |items| && Removed(items, a, i) && Tracked(items, m, j) && i < j;
      var k :| Live(k, m) && Find(items, k) == Some(j);
      FindAfterRemoval(items, a, k);
      assert Find(Apply(items, a), k) != Stored(t, k);
    }
  }

  lemma RemovedSpeaksAsAssistant(items: seq<Entry>, a: Action, i: nat)
    requires Voiced(items)
    requires a.Withdraw? || (a.Remove? && a.at < |items| && items[a.at].actor == Some(Assistant))
    requires i < |items| && Removed(items, a, i)
    ensures items[i].actor == Some(Assistant) && items[i].event.MessageCreated?
  {
  }

  lemma NoLiveKeyForAssistant(k: Key, m: Memory, e: Entry)
    requires Live(k, m) && e.actor == Some(Assistant) && e.event.MessageCreated?
    ensures !Denotes(k, e)
  {
  }

  lemma SafeKeepsAccuracy(items: seq<Entry>, t: Tables, a: Action)
    requires Voiced(items) && Accurate(items, t) && Safe(items, MemoryOf(t), a)
    requires a.Withdraw? || (a.Remove? && a.at < |items| && items[a.at].actor == Some(Assistant))
    ensures Accurate(Apply(items, a), t)
  {
    hide FindBelow, Withdrawn, Denotes;
    var m := MemoryOf(t);
    forall k | Live(k, m)
      ensures Find(Apply(items, a), k) == Find(items, k)
      ensures Find(items, k).Some? ==> Apply(items, a)[Find(items, k).value] == items[Find(items, k).value]
    {
      forall i: nat | i < |items| && Removed(items, a, i) ensures !Denotes(k, items[i]) {
        RemovedSpeaksAsAssistant(items, a, i);
        NoLiveKeyForAssistant(k, m, items[i]);
      }
      FindAfterRemoval(items, a, k);
      if Find(items, k).Some? {
        var j := Find(items, k).value;
        assert Tracked(items, m, j);
      }
    }
    forall id | id in t.compacted && id.1 != ""
      ensures SeqAt(Apply(items, a), Some(t.compacted[id].1)) == t.compacted[id].0
    {
      assert Live(CompactionOf(id.0, id.1), m);
    }
  }

  // ---- Every other action keeps the tables accurate ------------------------------------------

  /** What appending does to the tables, seen through one identity. */
  lemma StoredAfterAppend(t: Tables, n: nat, e: Entry, x: Entry, k: Key)
    requires x == e || (Completion(e.event) && x == e.(payload := x.payload))
    requires e.event.ToolStarted? ==> Accepted(e)
    requires Live(k, MemoryOf(Track(t, n, e, Append(x))))
    ensures Stored(Track(t, n, e, Append(x)), k) == if Denotes(k, x) then Some(n) else Stored(t, k)
    ensures Denotes(k, x) || Live(k, MemoryOf(t))
  {
    hide PayloadText, Sequenced, Accepted, Merges;
  }

  lemma AppendKeepsAccuracy(items: seq<Entry>, t: Tables, e: Entry, x: Entry)
    requires Accurate(items, t)
    requires x == e || (Completion(e.event) && x == e.(payload := x.payload))
    requires e.event.ToolStarted? ==> Accepted(e)
    ensures Accurate(items + [x], Track(t, |items|, e, Append(x)))
  {
    hide FindBelow, Denotes, PayloadText, Accepted, Sequenced;
    var now := Track(t, |items|, e, Append(x));
    forall k | Live(k, MemoryOf(now)) ensures Find(items + [x], k) == Stored(now, k) {
      FindAfterAppend(items, x, k);
      StoredAfterAppend(t, |items|, e, x, k);
    }
    forall id | id in now.compacted && id.1 != ""
      ensures SeqAt(items + [x], Some(now.compacted[id].1)) == now.compacted[id].0
    {
      if id in t.compacted && now.compacted[id] == t.compacted[id] {
        assert Live(CompactionOf(id.0, id.1), MemoryOf(t));
      }
    }
  }

  /** A replaced or amended entry that answers to the same live identities leaves every position right. */
  lemma SwapKeepsAccuracy(items: seq<Entry>, t: Tables, at: nat, x: Entry)
    requires Accurate(items, t) && at < |items|
    requires forall k :: Live(k, MemoryOf(t)) ==> (Denotes(k, x) <==> Denotes(k, items[at]))
    requires !Sequenced(x) && !Sequenced(items[at])
    ensures Accurate(items[at := x], t)
  {
    hide FindBelow, Denotes, PayloadText, Sequenced;
    forall k | Live(k, MemoryOf(t)) ensures Find(items[at := x], k) == Stored(t, k) {
      FindAfterSwap(items, at, x, k);
    }
  }

  lemma CompactionKeepsAccuracy(items: seq<Entry>, t: Tables, e: Entry, at: nat)
    requires Accurate(items, t)
    requires Sequenced(e) && Find(items, CompactionOf(e.turn, Item(e))) == Some(at)
    ensures Accurate(items[at := e], Track(t, |items|, e, Replace(at, e)))
  {
    hide FindBelow, PayloadText, Sequenced;
    var now := Track(t, |items|, e, Replace(at, e));
    assert MemoryOf(now) == MemoryOf(t);
    forall k | Live(k, MemoryOf(now)) ensures Find(items[at := e], k) == Stored(now, k) {
      FindAfterSwap(items, at, e, k);
    }
    forall id | id in now.compacted && id.1 != ""
      ensures SeqAt(items[at := e], Some(now.compacted[id].1)) == now.compacted[id].0
    {
      if id != (e.turn, Item(e)) {
        assert Live(CompactionOf(id.0, id.1), MemoryOf(t));
      }
    }
  }

  lemma CompletionKeepsAccuracy(items: seq<Entry>, t: Tables, e: Entry, at: nat, x: Entry)
    requires Accurate(items, t)
    requires Completion(e.event) && Call(e) != "" && Call(e) in t.pending
    requires Find(items, StartOf(Call(e))) == Some(at) && x.event == e.event
    ensures Accurate(items[at := x], Track(t, |items|, e, Replace(at, x)))
  {
    hide FindBelow, PayloadText, Sequenced, Merges;
    var now := Track(t, |items|, e, Replace(at, x));
    forall k | Live(k, MemoryOf(now)) ensures Find(items[at := x], k) == Stored(now, k) {
      FindAfterSwap(items, at, x, k);
    }
    forall id | id in now.compacted && id.1 != ""
      ensures SeqAt(items[at := x], Some(now.compacted[id].1)) == now.compacted[id].0
    {
      assert Live(CompactionOf(id.0, id.1), MemoryOf(t));
    }
  }

  /** A message event merges into, amends or removes a message with the event's own voice, and moves no table. */
  lemma MessageEffect(s: Story, t: Tables, e: Entry)
    requires Voiced(s.items) && WellActed(e)
    requires e.event.MessageCreated? || e.event.MessageUpdated?
    ensures var a := Decide(s, e);
            && (a.Skip? || a.Remove? || a.Amend? || a.Replace? || a == Append(e))
            && (a.Replace? || a.Amend? || a.Remove? ==>
                  && s.items[a.at].event.MessageCreated? && s.items[a.at].actor == e.actor
                  && Track(t, |s.items|, e, a) == t)
            && (a.Replace? || a.Remove? ==> e.actor == Some(Assistant))
            && (a.Replace? ==> a.entry.event.MessageCreated? && a.entry.actor == e.actor && a.entry.turn == e.turn)
            && (a.Skip? ==> Track(t, |s.items|, e, a) == t)
            && (a.Append? ==> e.event.MessageCreated?)
  {
    hide FindBelow, PayloadText;
  }

  lemma SameVoice(k: Key, m: Memory, x: Entry, y: Entry)
    requires Live(k, m) && x.event.MessageCreated? && y.event.MessageCreated? && x.actor == y.actor
    requires x.actor == Some(Assistant) || x.turn == y.turn
    ensures Denotes(k, x) <==> Denotes(k, y)
  {
    hide PayloadText;
  }

  lemma MessageKeepsAccuracy(items: seq<Entry>, t: Tables, e: Entry)
    requires Voiced(items) && Accurate(items, t) && WellActed(e)
    requires e.event.MessageCreated? || e.event.MessageUpdated?
    requires var a := Decide(Story(items, MemoryOf(t)), e); !a.Remove?
    ensures var a := Decide(Story(items, MemoryOf(t)), e);
            Accurate(Apply(items, a), Track(t, |items|, e, a)) && Voiced(Apply(items, a))
  {
    hide FindBelow, PayloadText, Act, Decide, ByIdentity, Denotes, Accurate, Track;
    var s := Story(items, MemoryOf(t));
    var a := Decide(s, e);
    MessageEffect(s, t, e);
    if a.Append? {
      AppendKeepsAccuracy(items, t, e, e);
    } else if a.Replace? || a.Amend? {
      var x := Apply(items, a)[a.at];
      assert Apply(items, a) == items[a.at := x];
      forall k | Live(k, MemoryOf(t)) ensures Denotes(k, x) <==> Denotes(k, items[a.at]) {
        SameVoice(k, MemoryOf(t), x, items[a.at]);
      }
      SwapKeepsAccuracy(items, t, a.at, x);
    }
  }

  /** Events other than messages append, skip, take an older compaction's place, or close the start they complete. */
  lemma OtherEffect(s: Story, e: Entry)
    requires WellActed(e) && !e.event.MessageCreated? && !e.event.MessageUpdated? && !e.event.MessageSuperseded?
    ensures var a := Decide(s, e);
            && (a.Append? ==> a.entry == e || (Completion(e.event) && a.entry == e.(payload := a.entry.payload)))
            && (a.Append? && e.event.ToolStarted? ==> Accepted(e))
            && (a.Skip? ==> (Sequenced(e) || (!Accepted(e) && !Completion(e.event))))
            && (a.Append? || a.Skip? || a.Replace?)
            && (a.Replace? && Sequenced(e) ==>
                      a.entry == e && Find(s.items, CompactionOf(e.turn, Item(e))) == Some(a.at))
            && (a.Replace? && !Sequenced(e) ==>
                  && Completion(e.event) && Call(e) != "" && Call(e) in s.memory.open
                  && Find(s.items, StartOf(Call(e))) == Some(a.at) && a.entry.event == e.event
                     && a.entry.actor == e.actor)
  {
    hide FindBelow, PayloadText;
  }

  lemma OtherKeepsAccuracy(items: seq<Entry>, t: Tables, e: Entry)
    requires Voiced(items) && Accurate(items, t)
    requires WellActed(e) && !e.event.MessageCreated? && !e.event.MessageUpdated? && !e.event.MessageSuperseded?
    ensures var a := Decide(Story(items, MemoryOf(t)), e);
            Accurate(Apply(items, a), Track(t, |items|, e, a)) && Voiced(Apply(items, a))
  {
    hide FindBelow, PayloadText, Act, Decide, ByIdentity, Denotes, Accurate, Sequenced, Accepted;
    var s := Story(items, MemoryOf(t));
    var a := Decide(s, e);
    OtherEffect(s, e);
    if a.Append? {
      AppendKeepsAccuracy(items, t, e, a.entry);
    } else if a.Replace? && Sequenced(e) {
      CompactionKeepsAccuracy(items, t, e, a.at);
    } else if a.Replace? {
      CompletionKeepsAccuracy(items, t, e, a.at, a.entry);
    }
  }

  lemma VoicedAfterRemoval(items: seq<Entry>, a: Action)
    requires Voiced(items)
    requires a.Withdraw? || (a.Remove? && a.at < |items|)
    ensures Voiced(Apply(items, a))
  {
    hide Supersedes, Withdrawn;
    if a.Withdraw? {
      WithdrawnKeeps(items, a.marker);
    }
    forall i | 0 <= i < |Apply(items, a)| ensures Apply(items, a)[i] in items {
    }
  }

  /**
   * One loop pass on accurate tables does what the identity fold does, and the tables stay accurate exactly when it
   * is safe.
   */
  lemma StepRefines(c: Cursor, e: Entry)
    requires Voiced(c.items) && Accurate(c.items, c.tables) && WellActed(e)
    ensures var s := Story(c.items, MemoryOf(c.tables));
            && Step(c, e).Some?
            && var next := Step(c, e).value;
            && Story(next.items, MemoryOf(next.tables)) == Tell(s, e) && Voiced(next.items)
            && (Accurate(next.items, next.tables) <==> Safe(c.items, s.memory, Decide(s, e)))
  {
    hide FindBelow, PayloadText, Act, ByIdentity, ByTables, Denotes, Accurate, Track, Remember;
    var s := Story(c.items, MemoryOf(c.tables));
    var a := Decide(s, e);
    LookupsAgree(c.items, c.tables, e);
    MemoryTracks(c.tables, |c.items|, e, a);
    if e.event.MessageSuperseded? {
      SupersededEffect(s, c.tables, e);
      if a.Withdraw? {
        RemovalAccuracy(c.items, c.tables, a);
        VoicedAfterRemoval(c.items, a);
      }
    } else if e.event.MessageCreated? || e.event.MessageUpdated? {
      MessageEffect(s, c.tables, e);
      if a.Remove? {
        RemovalAccuracy(c.items, c.tables, a);
        VoicedAfterRemoval(c.items, a);
      } else {
        MessageKeepsAccuracy(c.items, c.tables, e);
      }
    } else {
      OtherEffect(s, e);
      OtherKeepsAccuracy(c.items, c.tables, e);
    }
  }

  lemma SupersededEffect(s: Story, t: Tables, e: Entry)
    requires e.event.MessageSuperseded?
    ensures Decide(s, e) == (if e.actor == Some(Assistant) then Withdraw(e) else Skip)
    ensures Track(t, |s.items|, e, Decide(s, e)) == t
  {
    hide FindBelow, PayloadText;
  }

  // ---- Whole logs ----------------------------------------------------------------------------

  /** The tables of the run over `log` exist and are accurate. */
  ghost predicate OnTrack(log: seq<Entry>) {
    Run(log).Some? && Accurate(Run(log).value.items, Run(log).value.tables)
  }

  lemma {:induction false} RunRefines(log: seq<Entry>)
    requires WellActored(log) && Clean(log)
    ensures OnTrack(log) && Voiced(Run(log).value.items)
    ensures Narrate(log) == Story(Run(log).value.items, MemoryOf(Run(log).value.tables))
  {
    hide Safe, Step, Decide, Tell, Accurate;
    if log == [] {
      NothingStored();
    } else {
      var n := |log| - 1;
      var before := log[..n];
      CleanPrefix(log, n);
      RunRefines(before);
      assert SafeAt(log, n);
      StepRefines(Run(before).value, log[n]);
    }
  }

  lemma NothingStored()
    ensures Accurate(START.items, START.tables)
  {
  }

  lemma CleanPrefix(log: seq<Entry>, n: nat)
    requires n <= |log| && Clean(log)
    ensures Clean(log[..n])
  {
    hide Safe;
    forall i | 0 <= i < n ensures SafeAt(log[..n], i) {
      assert log[..n][..i] == log[..i];
      assert SafeAt(log, i);
    }
  }

  /**
   * Replay through positions is the position-free fold: on a log whose removals all lie above every entry a table
   * can still reach, the loop never indexes out of range and returns what looking entries up by identity returns.
   */
  lemma {:induction false} ReplayIsIdentityFold(log: seq<Entry>)
    requires WellActored(log) && Clean(log)
    ensures Replay(log) == Some(Narrate(log).items)
  {
    RunRefines(log);
  }

  /**
   * Clean logs are exactly those on which, after every event, each stored position denotes the entry it was recorded
   * for.
   */
  lemma CleanIffAlwaysAccurate(log: seq<Entry>)
    requires WellActored(log)
    ensures Clean(log) <==> forall n :: 0 <= n <= |log| ==> OnTrack(log[..n])
  {
    hide Safe, Step, Decide, Tell, Accurate;
    if Clean(log) {
      forall n | 0 <= n <= |log| ensures OnTrack(log[..n]) {
        CleanPrefix(log, n);
        RunRefines(log[..n]);
      }
    } else if forall n :: 0 <= n <= |log| ==> OnTrack(log[..n]) {
      assert log[..|log|] == log;
      var n := FirstUnsafe(log, |log|);
      assert log[..n + 1][..n] == log[..n];
      assert OnTrack(log[..n + 1]);
      RunRefines(log[..n]);
      StepRefines(Run(log[..n]).value, log[n]);
      assert false;
    }
  }

  lemma {:induction false} FirstUnsafe(log: seq<Entry>, bound: nat) returns (n: nat)
    requires bound <= |log| && !Clean(log[..bound])
    ensures n < bound && Clean(log[..n]) && !SafeAt(log, n)
    decreases bound
  {
    hide Safe;
    var i :| 0 <= i < bound && !SafeAt(log[..bound], i);
    assert log[..bound][..i] == log[..i];
    if Clean(log[..i]) {
      n := i;
    } else {
      n := FirstUnsafe(log, i);
    }
  }

  /**
   * Without that condition the loop breaks, whatever the texts: a message, a tool start, the withdrawal of the message
   * and the tool's completion leave the start at position 0 while its table still says 1, and the completion raises
   * IndexError.
   */
  lemma StalePositionRaises(message: Entry, started: Entry, marker: Entry, completed: Entry)
    requires message.event.MessageCreated? && message.actor == Some(Assistant) && Truthy(Body(message.payload))
    requires Accepted(started) && Call(started) != "" && Merges(ToolName(started)) && started.actor == Some(Tool)
    requires marker.event.MessageSuperseded? && marker.actor == Some(Assistant) && Supersedes(marker, message)
    requires Completion(completed.event) && Call(completed) == Call(started) && completed.actor == Some(Tool)
    ensures var log := [message, started, marker, completed];
            WellActored(log) && Replay(log).None? && !Clean(log)
  {
    hide Step, PayloadText, Body, Supersedes, Accepted, Merges, Narrate, Withdrawn, FindBelow;
    var c1 := Cursor([message], START.tables);
    FirstMessage(message);
    var c2 := Cursor([message] + [started], START.tables.(pending := START.tables.pending[Call(started) := 1]));
    StartOpens(c1, started);
    SupersedesOnlyAssistants(marker, started);
    WithdrawnSplits([message], [started], marker);
    WithdrawnKeeps([message], marker);
    WithdrawnKeeps([started], marker);
    assert message in [message] && Supersedes(marker, message) && !Supersedes(marker, started);
    assert Withdrawn([message], marker) == [] && Withdrawn([started], marker) == [started];
    assert Withdrawn(c2.items, marker) == [started];
    var c3 := Cursor([started], c2.tables);
    WithdrawalStep(c2, marker);
    StaleCompletion(c3, completed);
    RunFour(message, started, marker, completed, c1, c2, c3);
    if Clean([message, started, marker, completed]) {
      RunRefines([message, started, marker, completed]);
    }
  }

  lemma FirstMessage(e: Entry)
    requires e.event.MessageCreated? && e.actor == Some(Assistant) && Truthy(Body(e.payload))
    ensures Step(START, e) == Some(Cursor([e], START.tables))
  {
    hide PayloadText, Body;
    assert FindMessage([], e).None?;
    assert [] + [e] == [e];
  }

  lemma StartOpens(c: Cursor, e: Entry)
    requires Accepted(e) && Call(e) != "" && Merges(ToolName(e))
    ensures Step(c, e) == Some(Cursor(c.items + [e], c.tables.(pending := c.tables.pending[Call(e) := |c.items|])))
  {
    hide PayloadText, Accepted, Merges, FindBelow;
  }

  lemma WithdrawalStep(c: Cursor, e: Entry)
    requires e.event.MessageSuperseded? && e.actor == Some(Assistant)
    ensures Step(c, e) == Some(Cursor(Withdrawn(c.items, e), c.tables))
  {
    hide PayloadText, Withdrawn, FindBelow;
  }

  lemma StaleCompletion(c: Cursor, e: Entry)
    requires Completion(e.event) && Call(e) != "" && Call(e) in c.tables.pending
    requires c.tables.pending[Call(e)] >= |c.items|
    ensures Step(c, e).None?
  {
    hide PayloadText, FindBelow;
  }

  lemma SupersedesOnlyAssistants(marker: Entry, x: Entry)
    ensures Supersedes(marker, x) ==> x.actor == Some(Assistant)
  {
    hide PayloadText, PositiveInt;
  }

  lemma RunFour(e0: Entry, e1: Entry, e2: Entry, e3: Entry, c1: Cursor, c2: Cursor, c3: Cursor)
    requires Step(START, e0) == Some(c1) && Step(c1, e1) == Some(c2) && Step(c2, e2) == Some(c3)
    ensures Run([e0, e1, e2, e3]) == Step(c3, e3)
  {
    hide Step;
    assert [e0, e1, e2, e3][..3] == [e0, e1, e2] && [e0, e1, e2][..2] == [e0, e1];
    assert [e0, e1][..1] == [e0] && [e0][..0] == [];
    assert Run([e0]) == Some(c1);
    assert Run([e0, e1]) == Some(c2);
    assert Run([e0, e1, e2]) == Some(c3);
  }
}
