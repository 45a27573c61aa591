/** Which completions a replay of the replay would treat otherwise, read off the events of their call. */
module TranscriptCaught {
  import opened Text
  import opened Transcripts
  import opened TranscriptRefinement
  import opened TranscriptConservation
  import opened TranscriptCalls
  import opened TranscriptSettling

  predicate FailedPatch(log: seq<Entry>, n: nat, i: nat)
    requires n < |log| && i < |log|
  {
    log[n].event.ToolFailed? && ToolName(log[i]) == "apply_patch"
  }

  /** The start at `i` found its call open. */
  predicate Reopened(log: seq<Entry>, c: string, i: nat) {
    exists j | 0 <= j < i :: OpenSince(log, i, c, j)
  }

  predicate PlainStartOf(e: Entry, c: string) {
    Accepted(e) && Call(e) == c && !Merges(ToolName(e))
  }

  predicate CompletionOf(e: Entry, c: string) {
    Completion(e.event) && Call(e) == c
  }

  /** Event `m` completes the start at `i` and leaves the fields of the start at `k` waiting when it is told again. */
  predicate SparesFrom(log: seq<Entry>, c: string, k: nat, m: nat, i: nat)
    requires i < m < |log|
  {
    OpenSince(log, m, c, i) && (FailedPatch(log, m, i) || i < k || Reopened(log, c, i))
  }

  predicate Spares(log: seq<Entry>, c: string, k: nat, m: nat)
    requires m < |log|
  {
    exists i | 0 <= i < m :: SparesFrom(log, c, k, m, i)
  }

  /**
   * Before event `n` the fields of the start at `k` wait for a completion: it is the latest of its kind, and all
   * completions since spare it.
   */
  predicate Waits(log: seq<Entry>, n: nat, c: string, k: nat) {
    && k < n <= |log| && PlainStartOf(log[k], c)
    && forall m | k < m < n :: !PlainStartOf(log[m], c) && (CompletionOf(log[m], c) ==> Spares(log, c, k, m))
  }

  /** Some field that the start at `k` keeps is logged neither by the start at `i` nor by its completion `n`. */
  ghost predicate Lacks(log: seq<Entry>, n: nat, i: nat, k: nat)
    requires n < |log| && i < |log| && k < |log|
  {
    exists f :: f in StartFields(log[k].payload) && f !in log[i].payload && f !in log[n].payload
  }

  /**
   * Completion `n` closes the start at `i` in place, and would be caught below that place: by a start that had its call
   * open already, unless the completion is a failed patch of that one too, or else by waiting fields that it lacks.
   */
  ghost predicate CaughtFrom(log: seq<Entry>, c: string, n: nat, i: nat)
    requires i < n < |log|
  {
    && CompletionOf(log[n], c) && OpenSince(log, n, c, i) && !FailedPatch(log, n, i)
    && if Reopened(log, c, i) then exists j | 0 <= j < i :: OpenSince(log, i, c, j) && !FailedPatch(log, n, j)
       else exists k | 0 <= k < i :: Waits(log, i, c, k) && Lacks(log, n, i, k)
  }

  ghost predicate CaughtTwice(log: seq<Entry>, c: string, n: nat)
    requires n < |log|
  {
    exists i | 0 <= i < n :: CaughtFrom(log, c, n, i)
  }

  lemma OpenSincePrefix(log: seq<Entry>, p: nat, n: nat, c: string, i: nat)
    requires n <= p <= |log|
    ensures OpenSince(log[..p], n, c, i) <==> OpenSince(log, n, c, i)
  {
    hide Turns, Accepted, Merges, PayloadText;
    assert forall j :: 0 <= j < p ==> log[..p][j] == log[j];
  }

  lemma ReopenedPrefix(log: seq<Entry>, p: nat, c: string, i: nat)
    requires i <= p <= |log|
    ensures Reopened(log[..p], c, i) <==> Reopened(log, c, i)
  {
    hide OpenSince;
    forall j: nat | j < i ensures OpenSince(log[..p], i, c, j) <==> OpenSince(log, i, c, j) {
      OpenSincePrefix(log, p, i, c, j);
    }
  }

  lemma SparesPrefix(log: seq<Entry>, p: nat, c: string, k: nat, m: nat)
    requires m < p <= |log|
    ensures Spares(log[..p], c, k, m) <==> Spares(log, c, k, m)
  {
    hide OpenSince, Reopened, PayloadText;
    forall i: nat | i < m ensures SparesFrom(log[..p], c, k, m, i) <==> SparesFrom(log, c, k, m, i) {
      OpenSincePrefix(log, p, m, c, i);
      ReopenedPrefix(log, p, c, i);
    }
  }

  lemma WaitsPrefix(log: seq<Entry>, p: nat, n: nat, c: string, k: nat)
    requires n <= p <= |log|
    ensures Waits(log[..p], n, c, k) <==> Waits(log, n, c, k)
  {
    hide Spares, PlainStartOf, CompletionOf;
    forall m: nat | m < n ensures Spares(log[..p], c, k, m) <==> Spares(log, c, k, m) && log[..p][m] == log[m] {
      SparesPrefix(log, p, c, k, m);
    }
  }

  /** One more event: a new start of the kind takes over, a completion must spare the start. */
  lemma WaitsGrows(log: seq<Entry>, c: string, k: nat)
    requires log != []
    ensures var n := |log| - 1;
            Waits(log, n + 1, c, k) <==>
            if k == n then PlainStartOf(log[n], c)
            else
              && Waits(log[..n], n, c, k) && !PlainStartOf(log[n], c)
              && (CompletionOf(log[n], c) ==> Spares(log, c, k, n))
  {
    hide Spares, PlainStartOf, CompletionOf;
    var n := |log| - 1;
    WaitsPrefix(log, n, n, c, k);
  }

  lemma OpenOnce(log: seq<Entry>, n: nat, c: string, i: nat, j: nat)
    requires OpenSince(log, n, c, i) && OpenSince(log, n, c, j)
    ensures i == j
  {
    hide Accepted, Merges, PayloadText;
    assert Turns(log[i], c) && Turns(log[j], c);
  }

  lemma OfCallKinds(e: Entry, c: string)
    requires OfCall(e, c)
    ensures CompletionOf(e, c) || PlainStartOf(e, c) || Turns(e, c)
    ensures PlainStartOf(e, c) ==> Accepted(e) && !CompletionOf(e, c) && !Turns(e, c)
    ensures CompletionOf(e, c) ==> Turns(e, c)
    ensures Turns(e, c) && !CompletionOf(e, c) ==> Accepted(e) && Merges(ToolName(e)) && Call(e) == c
  {
    hide PayloadText, Merges;
  }

  /**
   * While a call is open its list is what it was before the start, the start, and the starts of the other kind since.
   */
  lemma {:induction false} OpenTail(log: seq<Entry>, c: string, i: nat)
    requires AllOfCall(log, c) && OpenSince(log, |log|, c, i)
    ensures Narrate(log).items == Narrate(log[..i]).items + [log[i]] + log[i + 1..] && PlainStarts(log[i + 1..], c)
    decreases |log|
  {
    hide Decide, Remember, OfCall, Turns, Accepted, Merges, PayloadText;
    var n := |log| - 1;
    var front, e := log[..n], log[n];
    if i == n {
      StartAppends(Narrate(front), e);
      assert log[n + 1..] == [];
    } else {
      assert !Turns(log[n], c);
      OfCallKinds(e, c);
      OpenSincePrefix(log, n, n, c, i);
      OpenTail(front, c, i);
      assert front[..i] == log[..i] && front[i] == log[i] && log[i + 1..] == front[i + 1..] + [e];
      StartAppends(Narrate(front), e);
      assert PlainStarts([e], c) by { hide PlainStarts; OnePlain(e, c); }
    }
  }

  lemma OnePlain(e: Entry, c: string)
    requires PlainStartOf(e, c)
    ensures PlainStarts([e], c)
  {
  }

  /** Looking the open call up finds that start. */
  lemma OpenPlace(log: seq<Entry>, c: string, i: nat)
    requires AllOfCall(log, c) && OpenSince(log, |log|, c, i)
    ensures var below := Narrate(log[..i]).items;
            && Find(Narrate(log).items, StartOf(c)) == Some(|below|)
            && Narrate(log).items[|below|] == log[i] && Narrate(log).items[..|below|] == below
  {
    hide Narrate, FindBelow, PayloadText, Merges;
    OpenTail(log, c, i);
    FindBetween(Narrate(log[..i]).items, log[i], log[i + 1..], StartOf(c));
  }

  lemma PrefixOfCall(log: seq<Entry>, c: string, i: nat)
    requires AllOfCall(log, c) && i <= |log|
    ensures AllOfCall(log[..i], c)
  {
    hide OfCall;
  }

  /** Retelling the list of a call ends with the call open exactly when it is open. */
  lemma RetoldOpen(log: seq<Entry>, c: string)
    requires AllOfCall(log, c) && c != ""
    ensures c in Narrate(Narrate(log).items).memory.open <==> exists i | 0 <= i < |log| :: OpenSince(log, |log|, c, i)
    ensures c in Narrate(log).memory.open <==> exists i | 0 <= i < |log| :: OpenSince(log, |log|, c, i)
  {
    hide Narrate, OpenSince, AllOfCall, AllShaped, PlainStarts, Settled, Recaught;
    CallSettles(log, c);
    OpenMeans(log, c);
  }

  /** Retelling the list of a call ends with the fields of the start that waits, if one does. */
  lemma {:induction false} RetoldWaits(log: seq<Entry>, c: string)
    requires AllOfCall(log, c) && c != ""
    ensures var m := Narrate(Narrate(log).items).memory;
            && (c in m.unmerged <==> exists k | 0 <= k < |log| :: Waits(log, |log|, c, k))
            && forall k | 0 <= k < |log| && Waits(log, |log|, c, k) ::
                 c in m.unmerged && m.unmerged[c] == StartFields(log[k].payload)
    decreases |log|
  {
    hide Narrate, Waits, AllOfCall, OfCall, StartFields, OpenSince, FailedPatch, Spares, PayloadText, Merges, Accepted;
    if log == [] {
      NothingRetold(c);
    } else {
      var n := |log| - 1;
      PrefixOfCall(log, c, n);
      RetoldWaits(log[..n], c);
      assert OfCall(log[n], c) by { LastOfCall(log, c); }
      forall k: nat | k < |log|
        ensures Waits(log, |log|, c, k) <==>
                if k == n then PlainStartOf(log[n], c)
                else
                  && Waits(log[..n], n, c, k) && !PlainStartOf(log[n], c)
                  && (CompletionOf(log[n], c) ==> Spares(log, c, k, n))
      {
        WaitsGrows(log, c, k);
      }
      OfCallKinds(log[n], c);
      assert forall k :: 0 <= k < n ==> log[..n][k] == log[k];
      if CompletionOf(log[n], c) {
        if exists i | 0 <= i < n :: OpenSince(log, n, c, i) && !FailedPatch(log, n, i) {
          var i: nat :| i < n && OpenSince(log, n, c, i) && !FailedPatch(log, n, i);
          PrefixOfCall(log, c, i);
          RetoldWaits(log[..i], c);
          WaitsAfterClosing(log, c, i);
        } else {
          WaitsAfterApart(log, c);
        }
      } else {
        StartRetold(log, c);
        if PlainStartOf(log[n], c) {
          assert Waits(log, |log|, c, n);
        } else if k: nat :| k < n && Waits(log[..n], n, c, k) {
          assert Waits(log, |log|, c, k);
        }
      }
    }
  }

  lemma LastOfCall(log: seq<Entry>, c: string)
    requires AllOfCall(log, c) && log != []
    ensures OfCall(log[|log| - 1], c)
  {
  }

  lemma NothingRetold(c: string)
    ensures c !in Narrate(Narrate([]).items).memory.unmerged
  {
  }

  /** What a start does to the retold fields. */
  lemma StartRetold(log: seq<Entry>, c: string)
    requires log != [] && c != "" && OfCall(log[|log| - 1], c) && !CompletionOf(log[|log| - 1], c)
    ensures var n := |log| - 1;
            var m, k := Narrate(Narrate(log[..n]).items).memory, Narrate(Narrate(log).items).memory;
            if PlainStartOf(log[n], c) then c in k.unmerged && k.unmerged[c] == StartFields(log[n].payload)
            else k.unmerged == m.unmerged
  {
    hide Decide, PayloadText, Merges, Narrate, StartFields;
    var n := |log| - 1;
    OfCallKinds(log[n], c);
    StartAppends(Narrate(log[..n]), log[n]);
    Retells(log);
    MemoryGrows(Narrate(log[..n]).items, log[n]);
  }

  lemma Retells(log: seq<Entry>)
    requires log != []
    ensures Narrate(log) == Tell(Narrate(log[..|log| - 1]), log[|log| - 1])
  {
  }

  /** A completion that is appended ends the waiting, unless it is a failed patch of an open start. */
  lemma WaitsAfterApart(log: seq<Entry>, c: string)
    requires log != [] && AllOfCall(log, c) && c != "" && CompletionOf(log[|log| - 1], c)
    requires var n := |log| - 1; forall i | 0 <= i < n && OpenSince(log, n, c, i) :: FailedPatch(log, n, i)
    ensures var n := |log| - 1;
            var m, k := Narrate(Narrate(log[..n]).items).memory, Narrate(Narrate(log).items).memory;
            && (forall j: nat :: j < n ==> (Spares(log, c, j, n) <==> exists i | 0 <= i < n :: OpenSince(log, n, c, i)))
            && (if exists i | 0 <= i < n :: OpenSince(log, n, c, i) then k.unmerged == m.unmerged
                else c !in k.unmerged)
  {
    hide Decide, PayloadText, Merges, Narrate, OpenSince, Reopened, AllOfCall;
    var n := |log| - 1;
    var front, e := log[..n], log[n];
    var s := Narrate(front);
    PrefixOfCall(log, c, n);
    RetoldOpen(front, c);
    forall i: nat | i < n ensures OpenSince(front, n, c, i) <==> OpenSince(log, n, c, i) {
      OpenSincePrefix(log, n, n, c, i);
    }
    CompletionEffect(s, e);
    if i: nat :| i < n && OpenSince(log, n, c, i) {
      OpenPlace(front, c, i);
      forall j: nat | j < n ensures Spares(log, c, j, n) {
        assert SparesFrom(log, c, j, n, i);
      }
    }
    var x := Decide(s, e).entry;
    CallGiven(e);
    SameCall(e, x);
    Retells(log);
    MemoryGrows(s.items, x);
    CompletionMemory(Narrate(s.items).memory, x);
  }

  /**
   * A completion that closes the start at `i` spares what started later, and what waited below if the call was open
   * there.
   */
  lemma WaitsAfterClosing(log: seq<Entry>, c: string, i: nat)
    requires log != [] && AllOfCall(log, c) && c != "" && CompletionOf(log[|log| - 1], c)
    requires i < |log| - 1 && OpenSince(log, |log| - 1, c, i) && !FailedPatch(log, |log| - 1, i)
    requires var m := Narrate(Narrate(log[..i]).items).memory;
             && (c in m.unmerged <==> exists k | 0 <= k < i :: Waits(log[..i], i, c, k))
             && forall k | 0 <= k < i && Waits(log[..i], i, c, k) ::
                  c in m.unmerged && m.unmerged[c] == StartFields(log[k].payload)
    ensures var m := Narrate(Narrate(log).items).memory;
            && (c in m.unmerged <==> exists k | 0 <= k < |log| :: Waits(log, |log|, c, k))
            && forall k | 0 <= k < |log| && Waits(log, |log|, c, k) ::
                 c in m.unmerged && m.unmerged[c] == StartFields(log[k].payload)
  {
    hide Narrate, Waits, AllOfCall, OfCall, StartFields, OpenSince, PayloadText, Merges, Reopened;
    var n := |log| - 1;
    var below, above := Narrate(log[..i]).items, log[i + 1..n];
    ClosingRetold(log, c, i);
    if above != [] {
      var k := n - 1;
      assert above[|above| - 1] == log[k];
      LatestWaits(log, c, i);
      forall j: nat | j < |log| && Waits(log, |log|, c, j) ensures j == k {
        OneWaits(log, |log|, c, j, k);
      }
    } else {
      forall k: nat | k < |log|
        ensures Waits(log, |log|, c, k) <==> k < i && Waits(log[..i], i, c, k) && Reopened(log, c, i)
      {
        WaitsAcross(log, c, i, k);
      }
    }
  }

  /** What is remembered after such a completion. */
  lemma ClosingRetold(log: seq<Entry>, c: string, i: nat)
    requires log != [] && AllOfCall(log, c) && c != "" && CompletionOf(log[|log| - 1], c)
    requires i < |log| - 1 && OpenSince(log, |log| - 1, c, i) && !FailedPatch(log, |log| - 1, i)
    ensures var n := |log| - 1;
            var below, above := Narrate(Narrate(log[..i]).items).memory, log[i + 1..n];
            var m := Narrate(Narrate(log).items).memory;
            && PlainStarts(above, c)
            && (if above != [] then c in m.unmerged && m.unmerged[c] == StartFields(above[|above| - 1].payload)
                else if Reopened(log, c, i) then m.unmerged == below.unmerged
                else c !in m.unmerged)
  {
    hide Decide, Narrate, PayloadText, Merges, StartFields, OpenSince, AllOfCall, FindBelow, Accepted;
    var n := |log| - 1;
    var front, e := log[..n], log[n];
    var s := Narrate(front);
    PrefixOfCall(log, c, n);
    PrefixOfCall(log, c, i);
    OpenSincePrefix(log, n, n, c, i);
    RetoldOpen(front, c);
    OpenTail(front, c, i);
    OpenPlace(front, c, i);
    assert front[..i] == log[..i] && front[i + 1..] == log[i + 1..n];
    var below := Narrate(log[..i]).items;
    CompletionEffect(s, e);
    var x := Decide(s, e).entry;
    CallGiven(e);
    SameCall(e, x);
    Retells(log);
    assert Narrate(log).items == below + [x] + log[i + 1..n];
    MemoryAbove(below + [x], log[i + 1..n], c);
    MemoryGrows(below, x);
    CompletionMemory(Narrate(below).memory, x);
    RetoldOpen(log[..i], c);
    ReopenedPrefix(log, i, c, i);
  }

  lemma LatestWaits(log: seq<Entry>, c: string, i: nat)
    requires log != [] && CompletionOf(log[|log| - 1], c)
    requires i < |log| - 2 && OpenSince(log, |log| - 1, c, i) && PlainStarts(log[i + 1..|log| - 1], c)
    ensures Waits(log, |log|, c, |log| - 2)
  {
    hide PayloadText, Merges, Reopened, OpenSince;
    var n := |log| - 1;
    assert log[i + 1..n][n - i - 2] == log[n - 1];
    assert SparesFrom(log, c, n - 1, n, i);
    assert !PlainStartOf(log[n], c);
  }

  lemma OneWaits(log: seq<Entry>, n: nat, c: string, j: nat, k: nat)
    requires Waits(log, n, c, j) && Waits(log, n, c, k)
    ensures j == k
  {
    hide Spares, PlainStartOf, CompletionOf;
  }

  lemma WaitsAcross(log: seq<Entry>, c: string, i: nat, k: nat)
    requires log != [] && CompletionOf(log[|log| - 1], c) && k < |log|
    requires i == |log| - 2 && OpenSince(log, |log| - 1, c, i) && !FailedPatch(log, |log| - 1, i)
    ensures Waits(log, |log|, c, k) <==> k < i && Waits(log[..i], i, c, k) && Reopened(log, c, i)
  {
    hide Waits, PayloadText, Merges, Reopened, Spares;
    var n := |log| - 1;
    var front := log[..n];
    WaitsGrows(log, c, k);
    assert !PlainStartOf(log[n], c) && !PlainStartOf(log[i], c) && !CompletionOf(log[i], c);
    if k < n {
      WaitsGrows(front, c, k);
      assert front[..i] == log[..i] && front[i] == log[i];
    }
    if k < i {
      OnlySpared(log, c, k, n, i);
    }
  }

  lemma OnlySpared(log: seq<Entry>, c: string, k: nat, n: nat, i: nat)
    requires k < i < n < |log| && OpenSince(log, n, c, i) && !FailedPatch(log, n, i)
    ensures Spares(log, c, k, n) <==> Reopened(log, c, i)
  {
    hide OpenSince, PayloadText, Reopened;
    if Spares(log, c, k, n) {
      var j: nat :| j < n && SparesFrom(log, c, k, n, j);
      OpenOnce(log, n, c, i, j);
    } else {
      assert !SparesFrom(log, c, k, n, i);
    }
  }

  /** Being caught below its place is a matter of the log. */
  lemma CaughtInLog(log: seq<Entry>, c: string, n: nat)
    requires AllOfCall(log, c) && c != "" && n < |log|
    ensures Recaught(log, n) <==> CaughtTwice(log, c, n)
  {
    hide Decide, Narrate, PayloadText, Merges, Accepted, OpenSince, AllOfCall, OfCall, Caught, CaughtFrom;
    var front, e := log[..n], log[n];
    var s := Narrate(front);
    PrefixOfCall(log, c, n);
    assert OfCall(e, c) by { hide OfCall; MemberOfCall(log, c, n); }
    OfCallKinds(e, c);
    if CompletionOf(e, c) {
      CompletionEffect(s, e);
      RetoldOpen(front, c);
      forall i: nat | i < n ensures OpenSince(front, n, c, i) <==> OpenSince(log, n, c, i) {
        OpenSincePrefix(log, n, n, c, i);
      }
      if i: nat :| i < n && OpenSince(log, n, c, i) {
        OpenPlace(front, c, i);
        assert front[..i] == log[..i] && front[i] == log[i];
        forall j: nat | j < n && CaughtFrom(log, c, n, j) ensures j == i {
          CaughtOpens(log, c, n, j);
          OpenOnce(log, n, c, i, j);
        }
        if !FailedPatch(log, n, i) {
          CaughtBelow(log, c, n, i);
        } else {
          assert !CaughtFrom(log, c, n, i) by { NotCaughtFrom(log, c, n, i); }
        }
      } else {
        forall j: nat | j < n ensures !CaughtFrom(log, c, n, j) {
          NotCaughtFrom(log, c, n, j);
        }
      }
    } else {
      StartAppends(s, e);
      forall j: nat | j < n ensures !CaughtFrom(log, c, n, j) {
        NotCaughtFrom(log, c, n, j);
      }
    }
  }

  lemma MemberOfCall(log: seq<Entry>, c: string, n: nat)
    requires AllOfCall(log, c) && n < |log|
    ensures OfCall(log[n], c)
  {
  }

  lemma CaughtOpens(log: seq<Entry>, c: string, n: nat, i: nat)
    requires i < n < |log| && CaughtFrom(log, c, n, i)
    ensures OpenSince(log, n, c, i)
  {
    hide OpenSince, Reopened, Waits;
  }

  lemma NotCaughtFrom(log: seq<Entry>, c: string, n: nat, i: nat)
    requires i < n < |log|
    requires !CompletionOf(log[n], c) || !OpenSince(log, n, c, i) || FailedPatch(log, n, i)
    ensures !CaughtFrom(log, c, n, i)
  {
    hide OpenSince, Reopened, Waits;
  }

  /** The two ways of being caught below the place of the start at `i`. */
  lemma CaughtBelow(log: seq<Entry>, c: string, n: nat, i: nat)
    requires AllOfCall(log, c) && c != "" && i < n < |log| && CompletionOf(log[n], c)
    requires OpenSince(log, n, c, i) && !FailedPatch(log, n, i)
    ensures Caught(Narrate(log[..i]).items, Merged(log[i], log[n])) <==> CaughtFrom(log, c, n, i)
  {
    hide Narrate, PayloadText, Merges, Accepted, OpenSince, AllOfCall, Waits, StartFields, FindBelow;
    var x, before := Merged(log[i], log[n]), log[..i];
    CallGiven(log[n]);
    SameCall(log[n], x);
    PrefixOfCall(log, c, i);
    RetoldOpen(before, c);
    ReopenedPrefix(log, i, c, i);
    if Reopened(log, c, i) {
      var j: nat :| j < i && OpenSince(log, i, c, j);
      OpenSincePrefix(log, i, i, c, j);
      OpenPlace(before, c, j);
      assert before[j] == log[j];
      forall k: nat | k < i && OpenSince(log, i, c, k) ensures k == j {
        OpenOnce(log, i, c, j, k);
      }
    } else {
      RetoldWaits(before, c);
      forall k: nat | k < i
        ensures Waits(before, i, c, k) <==> Waits(log, i, c, k)
        ensures StartFields(log[k].payload) + x.payload != x.payload <==> Lacks(log, n, i, k)
      {
        WaitsPrefix(log, i, i, c, k);
        LacksMeans(log, n, i, k);
      }
    }
  }

  lemma LacksMeans(log: seq<Entry>, n: nat, i: nat, k: nat)
    requires n < |log| && i < |log| && k < |log|
    ensures StartFields(log[k].payload) + Merged(log[i], log[n]).payload != Merged(log[i], log[n]).payload
            <==> Lacks(log, n, i, k)
  {
    hide StartFields;
    var kept, p := StartFields(log[k].payload), Merged(log[i], log[n]).payload;
    if !Lacks(log, n, i, k) {
      assert kept + p == p;
    } else {
      var f :| f in kept && f !in log[i].payload && f !in log[n].payload;
      assert f in kept + p && f !in p;
    }
  }
}
