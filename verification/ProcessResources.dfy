/** The ordered shutdown of process resources, resumed where it failed. */
module ProcessResources {
  /** The steps in their frozen order. */
  const STEPS: seq<string> := [
    "subscription", "service_startup", "subagents", "approvals", "command_hooks", "hooks",
    "javascript", "desktop", "workspace", "execution", "service"]

  const COUNT: nat := |STEPS|

  /** One attempt at a step. */
  datatype Attempt = Attempt(step: nat, ok: bool)

  function Successes(log: seq<Attempt>): nat {
    if log == [] then 0 else Successes(log[..|log| - 1]) + if log[|log| - 1].ok then 1 else 0
  }

  function Failures(log: seq<Attempt>): nat {
    if log == [] then 0 else Failures(log[..|log| - 1]) + if log[|log| - 1].ok then 0 else 1
  }

  /** Every attempt is at the step after those that had already succeeded. */
  predicate Ordered(log: seq<Attempt>) {
    forall i :: 0 <= i < |log| ==> log[i].step == Successes(log[..i])
  }

  lemma {:induction false} SuccessesGrow(log: seq<Attempt>, i: nat)
    requires i <= |log|
    ensures Successes(log[..i]) <= Successes(log)
    decreases |log|
  {
    if i < |log| {
      assert log[..|log| - 1][..i] == log[..i];
      SuccessesGrow(log[..|log| - 1], i);
    } else {
      assert log[..i] == log;
    }
  }

  /** One more attempt at the right step keeps the order. */
  lemma Attempted(log: seq<Attempt>, ok: bool)
    requires Ordered(log)
    ensures var longer := log + [Attempt(Successes(log), ok)];
            && Ordered(longer) && Successes(longer) == Successes(log) + (if ok then 1 else 0)
            && Failures(longer) == Failures(log) + if ok then 0 else 1
  {
    hide Successes;
    var longer := log + [Attempt(Successes(log), ok)];
    assert longer[..|log|] == log;
    forall i | 0 <= i < |longer| ensures longer[i].step == Successes(longer[..i]) {
      assert i < |log| ==> longer[..i] == log[..i];
    }
    LastCounts(longer);
  }

  lemma LastCounts(log: seq<Attempt>)
    requires log != []
    ensures Successes(log) == Successes(log[..|log| - 1]) + if log[|log| - 1].ok then 1 else 0
  {
  }

  /** In an ordered log the successful attempts are at different steps, in order, all below the count of successes. */
  lemma {:induction false} SuccessesInOrder(log: seq<Attempt>, i: nat, j: nat)
    requires Ordered(log) && i < |log| && log[i].ok
    ensures log[i].step < Successes(log)
    ensures i < j < |log| && log[j].ok ==> log[i].step < log[j].step
  {
    hide Successes;
    assert log[..i + 1][..i] == log[..i];
    LastCounts(log[..i + 1]);
    SuccessesGrow(log, i + 1);
    if i < j < |log| {
      SuccessesGrow(log[..j], i + 1);
      assert log[..j][..i + 1] == log[..i + 1];
    }
  }

  /** And every step below that count did succeed. */
  lemma {:induction false} EveryStepSucceeded(log: seq<Attempt>, k: nat)
    requires Ordered(log) && k < Successes(log)
    ensures exists i :: 0 <= i < |log| && log[i] == Attempt(k, true)
    decreases |log|
  {
    var n := |log| - 1;
    var front := log[..n];
    if k < Successes(front) {
      assert forall i :: 0 <= i < n ==> front[i] == log[i] && front[..i] == log[..i];
      EveryStepSucceeded(front, k);
      var i :| 0 <= i < n && front[i] == Attempt(k, true);
      assert log[i] == Attempt(k, true);
    } else {
      assert log[n] == Attempt(k, true);
    }
  }

  /** The names of the steps done, in the order in which they were. */
  function Done(log: seq<Attempt>): seq<string> {
    if log == [] then []
    else
      var last := log[|log| - 1];
      Done(log[..|log| - 1]) + if last.ok && last.step < COUNT then [STEPS[last.step]] else []
  }

  /** What was done is a beginning of the frozen order, whatever failed and was tried again; in the end it is all. */
  lemma {:induction false} DoneInOrder(log: seq<Attempt>)
    requires Ordered(log) && Successes(log) <= COUNT
    ensures Done(log) == STEPS[..Successes(log)]
    ensures Successes(log) == COUNT ==>
              Done(log) == ["subscription", "service_startup", "subagents", "approvals", "command_hooks", "hooks",
                            "javascript", "desktop", "workspace", "execution", "service"]
  {
    hide Successes, Ordered;
    if log != [] {
      var n := |log| - 1;
      LastCounts(log);
      OrderedBefore(log);
      DoneInOrder(log[..n]);
      assert STEPS[..Successes(log[..n])] + (if log[n].ok then [STEPS[log[n].step]] else []) == STEPS[..Successes(log)];
    } else {
      assert Successes(log) == 0 by { NoneDone(); }
    }
  }

  lemma NoneDone()
    ensures Successes([]) == 0
  {
  }

  lemma OrderedBefore(log: seq<Attempt>)
    requires Ordered(log) && log != []
    ensures var n := |log| - 1; Ordered(log[..n]) && log[n].step == Successes(log[..n])
  {
    hide Successes;
    var n := |log| - 1;
    assert forall i :: 0 <= i < n ==> log[..n][i] == log[i] && log[..n][..i] == log[..i];
  }

  /** The step a call ends at that begins at `next`: the first whose attempt fails, or the end. */
  function EndOf(next: nat, outcomes: nat -> bool, tried: nat := 0): (r: nat)
    requires next <= COUNT
    ensures next <= r <= COUNT
    decreases COUNT - next
  {
    if next == COUNT || !outcomes(tried) then next else EndOf(next + 1, outcomes, tried + 1)
  }

  lemma EndStep(next: nat, outcomes: nat -> bool, tried: nat)
    requires next <= COUNT
    ensures EndOf(next, outcomes, tried) ==
            if next == COUNT || !outcomes(tried) then next else EndOf(next + 1, outcomes, tried + 1)
  {
  }

  /** The same for calls one after the other. */
  function EndOfAll(next: nat, calls: seq<nat -> bool>): (r: nat)
    requires next <= COUNT
    ensures next <= r <= COUNT
  {
    if calls == [] then next else EndOf(EndOfAll(next, calls[..|calls| - 1]), calls[|calls| - 1])
  }

  class ProcessResourceOwner {
    var nextStep: nat
    ghost var log: seq<Attempt>
    ghost var observed: nat // failures reported to the observer

    ghost predicate Valid()
      reads this
    {
      nextStep == Successes(log) <= COUNT && Ordered(log) && observed == Failures(log)
    }

    constructor ()
      ensures Valid() && log == [] && nextStep == 0
    {
      nextStep := 0;
      log := [];
      observed := 0;
    }

    /**
     * One call of `close`; `outcomes` says of each further attempt whether it succeeds. A normal return means every
     * step has succeeded; a raise leaves the failed step as the next one to try. When all is done, nothing runs.
     */
    method Close(outcomes: nat -> bool) returns (raised: bool)
      requires Valid()
      modifies this
      ensures Valid()
      ensures |log| >= |old(log)| && log[..|old(log)|] == old(log) && nextStep >= old(nextStep)
      ensures nextStep == EndOf(old(nextStep), outcomes) && (!raised <==> nextStep == COUNT)
      ensures raised ==> log != [] && log[|log| - 1] == Attempt(nextStep, false)
      ensures forall i :: |old(log)| <= i < |log| ==>
                log[i].ok == outcomes(i - |old(log)|) && (log[i].ok || (raised && i == |log| - 1))
      ensures old(nextStep) == COUNT ==> log == old(log) && !raised
      ensures |log| == |old(log)| + (nextStep - old(nextStep)) + if raised then 1 else 0
    {
      hide Successes, Failures, Ordered, EndOf;
      EndStep(nextStep, outcomes, 0);
      raised := false;
      if nextStep >= COUNT {
        return;
      }
      ghost var before := log;
      var tried: nat := 0;
      while nextStep < COUNT
        invariant Valid() && nextStep == old(nextStep) + tried && |log| == |before| + tried
        invariant log[..|before|] == before && EndOf(old(nextStep), outcomes) == EndOf(nextStep, outcomes, tried)
        invariant forall i :: |before| <= i < |log| ==> log[i].ok && outcomes(i - |before|)
        decreases COUNT - nextStep
      {
        var ok := outcomes(tried);
        EndStep(nextStep, outcomes, tried);
        Attempted(log, ok);
        log := log + [Attempt(nextStep, ok)];
        if !ok {
          observed := observed + 1;
          return true;
        }
        nextStep := nextStep + 1;
        tried := tried + 1;
      }
    }

    /** Any number of calls with any failures keep the order; once a call returns normally the rest do nothing. */
    method CloseMany(calls: seq<nat -> bool>) returns (raises: seq<bool>)
      requires Valid()
      modifies this
      ensures Valid() && |raises| == |calls| && nextStep == EndOfAll(old(nextStep), calls)
      ensures forall i :: 0 <= i < |calls| ==> (raises[i] <==> EndOfAll(old(nextStep), calls[..i + 1]) < COUNT)
      ensures |log| >= |old(log)| && log[..|old(log)|] == old(log)
      ensures forall i, j :: 0 <= i < j < |raises| && !raises[i] ==> !raises[j]
      ensures (exists i :: 0 <= i < |raises| && !raises[i]) ==> nextStep == COUNT
    {
      hide EndOf, Ordered, Successes, Failures;
      raises := [];
      for i := 0 to |calls|
        invariant Valid() && |raises| == i && nextStep == EndOfAll(old(nextStep), calls[..i])
        invariant forall h :: 0 <= h < i ==> (raises[h] <==> EndOfAll(old(nextStep), calls[..h + 1]) < COUNT)
        invariant |log| >= |old(log)| && log[..|old(log)|] == old(log)
        invariant forall h, j :: 0 <= h < j < |raises| && !raises[h] ==> !raises[j]
        invariant (exists h :: 0 <= h < |raises| && !raises[h]) ==> nextStep == COUNT
      {
        ghost var was := log;
        assert calls[..i + 1][..i] == calls[..i];
        var raised := Close(calls[i]);
        assert log[..|old(log)|] == log[..|was|][..|old(log)|];
        raises := raises + [raised];
      }
      assert calls[..|calls|] == calls;
    }
  }
}
