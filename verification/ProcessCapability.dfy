/** Spawning and closing under one lock, as interleaved steps of any number of tasks. */
module ProcessCapability {
  import opened Text

  datatype Handle = Handle(session: string, serial: nat)

  /** Where a task is. Between two of these points it runs without giving way. */
  datatype Task =
    | SpawnQueued            // waits for the lock
    | SpawnCreating          // holds the lock and waits for its process
    | SpawnReturned(handle: Handle)
    | SpawnRaised
    | CloseQueued
    | CloseReaping(handles: set<Handle>)
    | CloseSkipped

  datatype Capability = Capability(
    closed: bool,
    table: map<string, Handle>,
    holder: Option<nat>,       // the task that holds the lock
    tasks: seq<Task>,
    made: seq<Handle>)         // every handle created so far

  const FRESH: Capability := Capability(false, map[], None, [], [])

  datatype Step =
    | CallSpawn
    | CallClose
    | Enter(task: nat)                    // a queued task gets the lock and runs to its next wait
    | Created(task: nat, session: string) // the process of a spawning task is there
    | Refused(task: nat)                  // creating it failed

  predicate Enabled(c: Capability, step: Step) {
    match step
    case CallSpawn => true
    case CallClose => true
    case Enter(t) => t < |c.tasks| && c.holder.None? && (c.tasks[t].SpawnQueued? || c.tasks[t].CloseQueued?)
    case Created(t, _) => t < |c.tasks| && c.tasks[t].SpawnCreating?
    case Refused(t) => t < |c.tasks| && c.tasks[t].SpawnCreating?
  }

  function Next(c: Capability, step: Step): Capability
    requires Enabled(c, step)
  {
    match step
    case CallSpawn => c.(tasks := c.tasks + [SpawnQueued])
    case CallClose => c.(tasks := c.tasks + [CloseQueued])
    case Enter(t) =>
      if c.tasks[t].SpawnQueued? then
        if c.closed then c.(tasks := c.tasks[t := SpawnRaised])
        else c.(tasks := c.tasks[t := SpawnCreating], holder := Some(t))
      else if c.closed then c.(tasks := c.tasks[t := CloseSkipped])
      else c.(closed := true, tasks := c.tasks[t := CloseReaping(c.table.Values)], table := map[])
    case Created(t, session) =>
      var handle := Handle(session, |c.made|);
      c.(table := c.table[session := handle], tasks := c.tasks[t := SpawnReturned(handle)], holder := None,
         made := c.made + [handle])
    case Refused(t) => c.(tasks := c.tasks[t := SpawnRaised], holder := None)
  }

  /** The step delivers a handle under a session name that the table already holds. */
  predicate Clashes(c: Capability, step: Step) {
    step.Created? && step.session in c.table
  }

  /** The state after a run from `c`; `None` when a step was not possible. */
  function After(c: Capability, steps: seq<Step>): Option<Capability> {
    if steps == [] then Some(c)
    else
      var before := After(c, steps[..|steps| - 1]);
      if before.Some? && Enabled(before.value, steps[|steps| - 1])
      then Some(Next(before.value, steps[|steps| - 1]))
      else None
  }

  predicate Returned(c: Capability, h: Handle) {
    exists t | 0 <= t < |c.tasks| :: c.tasks[t] == SpawnReturned(h)
  }

  predicate HandedTo(c: Capability, h: Handle, t: nat) {
    t < |c.tasks| && c.tasks[t].CloseReaping? && h in c.tasks[t].handles
  }

  /** At most one task creates, it holds the lock, and no close has run meanwhile. */
  predicate Locked(c: Capability) {
    && (forall t | 0 <= t < |c.tasks| :: c.tasks[t].SpawnCreating? <==> c.holder == Some(t))
    && (c.holder.Some? ==> c.holder.value < |c.tasks| && !c.closed)
  }

  /** The handles made so far are numbered, and are exactly those returned. */
  predicate Accounted(c: Capability) {
    && (forall i | 0 <= i < |c.made| :: c.made[i].serial == i)
    && (forall t | 0 <= t < |c.tasks| && c.tasks[t].SpawnReturned? :: c.tasks[t].handle in c.made)
    && (forall h | h in c.made :: Returned(c, h))
  }

  /**
   * The table holds made handles under their names; only the one close that set the flag reaps, and it empties the
   * table.
   */
  predicate Tabled(c: Capability) {
    && (forall s | s in c.table :: c.table[s].session == s && c.table[s] in c.made)
    && (c.closed ==> c.table == map[])
    && (!c.closed ==> forall t | 0 <= t < |c.tasks| :: !c.tasks[t].CloseReaping?)
    && (forall t, u | 0 <= t < |c.tasks| && 0 <= u < |c.tasks| ::
          c.tasks[t].CloseReaping? && c.tasks[u].CloseReaping? ==> t == u)
  }

  /** Before the close all handles made are in the table; after it they are with the reaping task. */
  ghost predicate Kept(c: Capability) {
    && (!c.closed ==> forall h | h in c.made :: h.session in c.table && c.table[h.session] == h)
    && (c.closed ==> exists t | 0 <= t < |c.tasks| :: ReapsAll(c, t))
  }

  predicate ReapsAll(c: Capability, t: nat)
    requires t < |c.tasks|
  {
    c.tasks[t] == CloseReaping(set h | h in c.made)
  }

  /** What every interleaving keeps. */
  ghost predicate Invariant(c: Capability) {
    Locked(c) && Accounted(c) && Tabled(c)
  }

  lemma StartKeeps()
    ensures Invariant(FRESH) && Kept(FRESH)
  {
  }

  /** The same tasks have returned the same handles. */
  predicate SameReturns(c: Capability, d: Capability) {
    && d.made == c.made && |d.tasks| >= |c.tasks|
    && (forall t | 0 <= t < |c.tasks| && c.tasks[t].SpawnReturned? :: d.tasks[t] == c.tasks[t])
    && (forall t | 0 <= t < |d.tasks| && d.tasks[t].SpawnReturned? :: t < |c.tasks| && d.tasks[t] == c.tasks[t])
  }

  lemma AccountStays(c: Capability, d: Capability)
    requires Accounted(c) && SameReturns(c, d)
    ensures Accounted(d)
  {
    forall h | h in d.made ensures Returned(d, h) {
      var t :| 0 <= t < |c.tasks| && c.tasks[t] == SpawnReturned(h);
      assert d.tasks[t] == SpawnReturned(h);
    }
  }

  /** The same tasks reap the same handles, and the table is the same. */
  predicate SameReaping(c: Capability, d: Capability) {
    && d.closed == c.closed && d.table == c.table && d.made == c.made && |d.tasks| >= |c.tasks|
    && (forall t | 0 <= t < |c.tasks| && c.tasks[t].CloseReaping? :: d.tasks[t] == c.tasks[t])
    && (forall t | 0 <= t < |d.tasks| && d.tasks[t].CloseReaping? :: t < |c.tasks| && d.tasks[t] == c.tasks[t])
  }

  lemma TableStays(c: Capability, d: Capability)
    requires Tabled(c) && SameReaping(c, d)
    ensures Tabled(d)
  {
  }

  lemma CustodyStays(c: Capability, d: Capability)
    requires Kept(c) && SameReaping(c, d)
    ensures Kept(d)
  {
    if c.closed {
      var t :| 0 <= t < |c.tasks| && ReapsAll(c, t);
      assert ReapsAll(d, t);
    }
  }

  /** Steps that neither deliver a handle nor close leave returned and reaped handles alone. */
  predicate Quiet(c: Capability, step: Step)
    requires Enabled(c, step)
  {
    !step.Created? && !(step.Enter? && c.tasks[step.task].CloseQueued? && !c.closed)
  }

  lemma QuietKeeps(c: Capability, step: Step)
    requires Invariant(c) && Enabled(c, step) && Quiet(c, step)
    ensures Invariant(Next(c, step)) && SameReturns(c, Next(c, step)) && SameReaping(c, Next(c, step))
  {
    hide Accounted, Tabled;
    AccountStays(c, Next(c, step));
    TableStays(c, Next(c, step));
  }

  lemma CloseKeeps(c: Capability, t: nat)
    requires Invariant(c) && t < |c.tasks| && c.holder.None? && c.tasks[t].CloseQueued? && !c.closed
    ensures Invariant(Next(c, Enter(t)))
    ensures Kept(c) ==> Kept(Next(c, Enter(t)))
  {
    hide Accounted;
    AccountStays(c, Next(c, Enter(t)));
    if Kept(c) {
      CloseReaps(c, t);
    }
  }

  lemma CloseReaps(c: Capability, t: nat)
    requires Tabled(c) && Kept(c) && t < |c.tasks| && c.holder.None? && c.tasks[t].CloseQueued? && !c.closed
    ensures Kept(Next(c, Enter(t)))
  {
    var d := Next(c, Enter(t));
    assert c.table.Values == (set h | h in c.made) by {
      forall h | h in c.made ensures h in c.table.Values {
        assert c.table[h.session] == h;
      }
    }
    assert ReapsAll(d, t);
  }

  lemma CreatedAccounted(c: Capability, t: nat, session: string)
    requires Accounted(c) && Enabled(c, Created(t, session))
    ensures Accounted(Next(c, Created(t, session)))
  {
    var d := Next(c, Created(t, session));
    var handle := Handle(session, |c.made|);
    assert d.tasks[t] == SpawnReturned(handle);
    forall h | h in d.made ensures Returned(d, h) {
      if h in c.made {
        var u :| 0 <= u < |c.tasks| && c.tasks[u] == SpawnReturned(h);
        assert d.tasks[u] == SpawnReturned(h);
      }
    }
  }

  lemma CreatedKeeps(c: Capability, t: nat, session: string)
    requires Invariant(c) && Enabled(c, Created(t, session))
    ensures !c.closed && Invariant(Next(c, Created(t, session)))
    ensures Kept(c) && !Clashes(c, Created(t, session)) ==> Kept(Next(c, Created(t, session)))
  {
    hide Accounted, Kept, Tabled;
    assert c.holder == Some(t);
    CreatedAccounted(c, t, session);
    CreatedTabled(c, t, session);
    if Kept(c) && !Clashes(c, Created(t, session)) {
      CreatedKept(c, t, session);
    }
  }

  lemma CreatedTabled(c: Capability, t: nat, session: string)
    requires Tabled(c) && !c.closed && Enabled(c, Created(t, session))
    ensures Tabled(Next(c, Created(t, session)))
  {
    var d := Next(c, Created(t, session));
    assert forall h :: h in c.made ==> h in d.made;
    assert Handle(session, |c.made|) == d.made[|c.made|];
  }

  lemma CreatedKept(c: Capability, t: nat, session: string)
    requires Kept(c) && !c.closed && Enabled(c, Created(t, session)) && session !in c.table
    ensures Kept(Next(c, Created(t, session)))
  {
    var d := Next(c, Created(t, session));
    assert d.made == c.made + [Handle(session, |c.made|)];
  }

  lemma StepKeeps(c: Capability, step: Step)
    requires Invariant(c) && Enabled(c, step)
    ensures Invariant(Next(c, step))
    ensures Kept(c) && !Clashes(c, step) ==> Kept(Next(c, step))
    ensures c.closed ==> !step.Created? && Next(c, step).closed && Next(c, step).made == c.made
  {
    if Quiet(c, step) {
      hide Invariant, Kept, Next;
      QuietKeeps(c, step);
      if Kept(c) {
        CustodyStays(c, Next(c, step));
      }
    } else if step.Created? {
      CreatedKeeps(c, step.task, step.session);
    } else {
      CloseKeeps(c, step.task);
    }
  }

  // ---- Runs ----------------------------------------------------------------------------------

  lemma {:induction false} RunsKeep(c: Capability, steps: seq<Step>)
    requires Invariant(c) && After(c, steps).Some?
    ensures Invariant(After(c, steps).value)
    ensures c.closed ==> After(c, steps).value.closed && After(c, steps).value.made == c.made
    decreases |steps|
  {
    hide Invariant, Next, Enabled;
    if steps != [] {
      var n := |steps| - 1;
      RunsKeep(c, steps[..n]);
      StepKeeps(After(c, steps[..n]).value, steps[n]);
    }
  }

  /** Some step of the run delivers a handle under a name that the table holds at that moment. */
  ghost predicate Reuses(steps: seq<Step>) {
    exists n :: 0 <= n < |steps| && ReusesAt(steps, n)
  }

  predicate ReusesAt(steps: seq<Step>, n: nat)
    requires n < |steps|
  {
    var before := After(FRESH, steps[..n]);
    before.Some? && Clashes(before.value, steps[n])
  }

  predicate Delivers(step: Step, session: string) {
    step.Created? && step.session == session
  }

  predicate Delivered(steps: seq<Step>, session: string) {
    exists i | 0 <= i < |steps| :: Delivers(steps[i], session)
  }

  /** The run delivers two handles under one name. */
  ghost predicate Repeats(steps: seq<Step>) {
    exists i, j | 0 <= i < j < |steps| :: steps[i].Created? && Delivers(steps[j], steps[i].session)
  }

  lemma DeliveredGrows(front: seq<Step>, step: Step, session: string)
    ensures Delivered(front + [step], session) <==> Delivered(front, session) || Delivers(step, session)
  {
    hide Delivers;
    var steps := front + [step];
    assert steps[|front|] == step;
    if Delivered(front, session) {
      var i :| 0 <= i < |front| && Delivers(front[i], session);
      assert steps[i] == front[i];
    }
  }

  /** Until the close, the table holds exactly the names that the run has delivered handles under. */
  lemma {:induction false} TableMeans(steps: seq<Step>, session: string)
    requires After(FRESH, steps).Some? && !After(FRESH, steps).value.closed
    ensures session in After(FRESH, steps).value.table <==> Delivered(steps, session)
  {
    hide Delivered;
    if steps == [] {
      assert !Delivered([], session) by { DeliveredNever(session); }
    } else {
      var n := |steps| - 1;
      TableMeans(steps[..n], session);
      DeliveredGrows(steps[..n], steps[n], session);
      assert steps == steps[..n] + [steps[n]];
    }
  }

  lemma DeliveredNever(session: string)
    ensures !Delivered([], session)
  {
  }

  lemma {:induction false} PossibleBefore(steps: seq<Step>, n: nat)
    requires After(FRESH, steps).Some? && n < |steps|
    ensures After(FRESH, steps[..n]).Some? && Enabled(After(FRESH, steps[..n]).value, steps[n])
  {
    hide Enabled, Next;
    var front := steps[..|steps| - 1];
    if n < |front| {
      PossibleBefore(front, n);
      assert front[..n] == steps[..n];
    }
  }

  lemma ReusesAtMeans(steps: seq<Step>, n: nat)
    requires After(FRESH, steps).Some? && n < |steps|
    ensures ReusesAt(steps, n) <==> steps[n].Created? && Delivered(steps[..n], steps[n].session)
  {
    hide Invariant, Next, Enabled, Delivered, After;
    PossibleBefore(steps, n);
    if steps[n].Created? {
      StartKeeps();
      RunsKeep(FRESH, steps[..n]);
      StepKeeps(After(FRESH, steps[..n]).value, steps[n]);
      TableMeans(steps[..n], steps[n].session);
    }
  }

  /** In a run that is possible, a delivered name is in the table exactly when it was delivered before. */
  lemma ReusesIffRepeats(steps: seq<Step>)
    requires After(FRESH, steps).Some?
    ensures Reuses(steps) <==> Repeats(steps)
  {
    hide After, ReusesAt;
    forall n: nat | n < |steps|
      ensures ReusesAt(steps, n) <==> steps[n].Created? && Delivered(steps[..n], steps[n].session)
    {
      ReusesAtMeans(steps, n);
    }
    if Repeats(steps) {
      var i, j :| 0 <= i < j < |steps| && steps[i].Created? && Delivers(steps[j], steps[i].session);
      assert Delivers(steps[..j][i], steps[j].session);
      assert ReusesAt(steps, j);
    }
  }

  lemma {:induction false} RunsKeepCustody(steps: seq<Step>)
    requires After(FRESH, steps).Some? && !Reuses(steps)
    ensures Kept(After(FRESH, steps).value)
    decreases |steps|
  {
    hide Invariant, Next, Enabled, Kept;
    StartKeeps();
    if steps != [] {
      var n := |steps| - 1;
      var front := steps[..n];
      assert !ReusesAt(steps, n);
      forall i | 0 <= i < n ensures !ReusesAt(front, i) {
        assert front[..i] == steps[..i];
        assert !ReusesAt(steps, i);
      }
      RunsKeepCustody(front);
      RunsKeep(FRESH, front);
      StepKeeps(After(FRESH, front).value, steps[n]);
    }
  }

  /** The handle is in the table or with exactly one close call, never both. */
  ghost predicate InCustody(c: Capability, h: Handle) {
    && (h in c.table.Values) != (exists t :: HandedTo(c, h, t))
    && forall t, u :: HandedTo(c, h, t) && HandedTo(c, h, u) ==> t == u
  }

  lemma KeptInCustody(c: Capability, h: Handle)
    requires Invariant(c) && Kept(c) && Returned(c, h)
    ensures InCustody(c, h)
  {
    assert h in c.made;
    if c.closed {
      var t :| 0 <= t < |c.tasks| && ReapsAll(c, t);
      assert HandedTo(c, h, t);
    } else {
      assert c.table[h.session] == h;
    }
  }

  /** A returned handle that is in nobody's hands. */
  ghost predicate Lost(c: Capability, h: Handle) {
    h in c.made && h !in c.table.Values && forall t :: !HandedTo(c, h, t)
  }

  /** A handle delivered under a name in the table loses the one that was there. */
  lemma ClashLoses(c: Capability, step: Step)
    requires Invariant(c) && Enabled(c, step) && Clashes(c, step)
    ensures Lost(Next(c, step), c.table[step.session])
  {
    var h, d := c.table[step.session], Next(c, step);
    assert !c.closed by { CreatedKeeps(c, step.task, step.session); }
    SerialBelow(c, h);
    forall s | s in d.table ensures d.table[s] != h {
      assert s != step.session ==> c.table[s].session == s;
    }
  }

  lemma SerialBelow(c: Capability, h: Handle)
    requires Accounted(c) && h in c.made
    ensures h.serial < |c.made|
  {
  }

  /** No step brings a lost handle back. */
  lemma LostStays(c: Capability, step: Step, h: Handle)
    requires Invariant(c) && Enabled(c, step) && Lost(c, h)
    ensures Lost(Next(c, step), h)
  {
    var d := Next(c, step);
    SerialBelow(c, h);
    assert h in d.made;
    forall t ensures !HandedTo(d, h, t) {
      assert !HandedTo(c, h, t);
    }
    if step.Created? {
      forall s | s in d.table ensures d.table[s] != h {
        assert s != step.session ==> d.table[s] in c.table.Values;
      }
    }
  }

  lemma {:induction false} ReuseLoses(steps: seq<Step>, n: nat) returns (h: Handle)
    requires After(FRESH, steps).Some? && n < |steps| && ReusesAt(steps, n)
    ensures Lost(After(FRESH, steps).value, h)
    decreases |steps|
  {
    hide Invariant, Next, Enabled, Lost;
    StartKeeps();
    var m := |steps| - 1;
    var front := steps[..m];
    RunsKeep(FRESH, front);
    var c := After(FRESH, front).value;
    if n == m {
      ClashLoses(c, steps[m]);
      h := c.table[steps[m].session];
    } else {
      assert front[..n] == steps[..n];
      h := ReuseLoses(front, n);
      LostStays(c, steps[m], h);
    }
  }

  /**
   * No leaked process: after any interleaving, every handle a spawn returned is in the table or has been handed to
   * exactly one close call, exactly if the run never delivered two handles under one name. Names drawn for local
   * processes repeat only by chance; nothing checks the names that a sandbox launcher gives.
   */
  lemma NoLeakUnlessReused(steps: seq<Step>)
    requires After(FRESH, steps).Some?
    ensures (forall h :: Returned(After(FRESH, steps).value, h) ==> InCustody(After(FRESH, steps).value, h))
            <==> !Repeats(steps)
  {
    hide InCustody, Kept, ReusesAt, Returned, Repeats;
    ReusesIffRepeats(steps);
    var c := After(FRESH, steps).value;
    StartKeeps();
    RunsKeep(FRESH, steps);
    if Reuses(steps) {
      var n :| 0 <= n < |steps| && ReusesAt(steps, n);
      var h := ReuseLoses(steps, n);
      LostIsLeaked(c, h);
    } else {
      RunsKeepCustody(steps);
      forall h | Returned(c, h) ensures InCustody(c, h) {
        KeptInCustody(c, h);
      }
    }
  }

  lemma LostIsLeaked(c: Capability, h: Handle)
    requires Accounted(c) && Lost(c, h)
    ensures Returned(c, h) && !InCustody(c, h)
  {
    hide Returned;
  }

  /** Once a close has set the flag, no spawn returns a handle any more, and nothing enters the table again. */
  lemma NothingSpawnsAfterClose(before: seq<Step>, more: seq<Step>)
    requires After(FRESH, before).Some? && After(FRESH, before).value.closed
    requires After(After(FRESH, before).value, more).Some?
    ensures var c := After(FRESH, before).value;
            var d := After(c, more).value;
            d.closed && d.table == map[] && forall h :: Returned(d, h) <==> Returned(c, h)
  {
    StartKeeps();
    RunsKeep(FRESH, before);
    var c := After(FRESH, before).value;
    RunsKeep(c, more);
    var d := After(c, more).value;
    forall h ensures Returned(d, h) <==> Returned(c, h) {
      ReturnedIffMade(c, h);
      ReturnedIffMade(d, h);
    }
  }

  lemma ReturnedIffMade(c: Capability, h: Handle)
    requires Invariant(c)
    ensures Returned(c, h) <==> h in c.made
  {
  }

  // ---- What becomes of each call -------------------------------------------------------------

  /** The calls a run makes, each of which is one task, in order. */
  function Calls(steps: seq<Step>): seq<Step> {
    if steps == [] then []
    else
      var last := steps[|steps| - 1];
      Calls(steps[..|steps| - 1]) + if last.CallSpawn? || last.CallClose? then [last] else []
  }

  /** A call to close has got the lock. */
  ghost predicate ClosedIn(steps: seq<Step>) {
    exists n | 0 <= n < |steps| :: ClosesAt(steps, n)
  }

  ghost predicate ClosesAt(steps: seq<Step>, n: nat)
    requires n < |steps|
  {
    steps[n].Enter? && steps[n].task < |Calls(steps[..n])| && Calls(steps[..n])[steps[n].task].CallClose?
  }

  /** The task got the lock before, or after, the first call to close did. */
  ghost predicate Entered(steps: seq<Step>, t: nat, closed: bool) {
    exists n | 0 <= n < |steps| :: steps[n] == Enter(t) && (ClosedIn(steps[..n]) <==> closed)
  }

  ghost predicate Obtained(steps: seq<Step>, t: nat, h: Handle) {
    exists n | 0 <= n < |steps| :: steps[n] == Created(t, h.session)
  }

  /** No step speaks of the task. */
  ghost predicate Untold(steps: seq<Step>, t: nat) {
    Enter(t) !in steps && Refused(t) !in steps && forall session :: Created(t, session) !in steps
  }

  /**
   * What has become of a call. A spawn that gets the lock before any close does returns the handle created for it, or
   * raises when that is refused; one that gets it later raises. The first close reaps, any later one does nothing.
   */
  ghost predicate BecomesOf(steps: seq<Step>, t: nat, call: Step, task: Task) {
    match task
    case SpawnQueued => call.CallSpawn? && Untold(steps, t)
    case SpawnCreating =>
      && call.CallSpawn? && Entered(steps, t, false)
      && Refused(t) !in steps && forall session :: Created(t, session) !in steps
    case SpawnReturned(h) => call.CallSpawn? && Entered(steps, t, false) && Obtained(steps, t, h)
    case SpawnRaised =>
      call.CallSpawn? && (Entered(steps, t, true) || (Entered(steps, t, false) && Refused(t) in steps))
    case CloseQueued => call.CallClose? && Enter(t) !in steps
    case CloseReaping(_) => call.CallClose? && Entered(steps, t, false)
    case CloseSkipped => call.CallClose? && Entered(steps, t, true)
  }

  ghost predicate AllBecome(steps: seq<Step>, c: Capability) {
    && |c.tasks| == |Calls(steps)| && (c.closed <==> ClosedIn(steps))
    && (forall t | 0 <= t < |c.tasks| :: BecomesOf(steps, t, Calls(steps)[t], c.tasks[t]))
    && (forall t | |c.tasks| <= t :: Untold(steps, t))
  }

  lemma StepsGrow(front: seq<Step>, step: Step)
    ensures Calls(front + [step]) == Calls(front) + if step.CallSpawn? || step.CallClose? then [step] else []
    ensures ClosedIn(front + [step]) <==>
            ClosedIn(front)
            || (step.Enter? && step.task < |Calls(front)| && Calls(front)[step.task].CallClose?)
  {
    hide ClosesAt, Calls;
    var steps := front + [step];
    assert steps[..|front|] == front && steps[|front|] == step;
    assert Calls(steps) == Calls(front) + if step.CallSpawn? || step.CallClose? then [step] else [] by {
      CallsGrow(front, step);
    }
    forall n: nat | n < |front| ensures ClosesAt(steps, n) <==> ClosesAt(front, n) {
      assert steps[n] == front[n] && steps[..n] == front[..n];
      SameClose(steps, front, n);
    }
    LastCloses(front, step);
    if ClosedIn(front) {
      var n: nat :| n < |front| && ClosesAt(front, n);
      assert ClosesAt(steps, n);
    }
  }

  lemma CallsGrow(front: seq<Step>, step: Step)
    ensures Calls(front + [step]) == Calls(front) + if step.CallSpawn? || step.CallClose? then [step] else []
  {
    assert (front + [step])[..|front|] == front;
  }

  lemma SameClose(a: seq<Step>, b: seq<Step>, n: nat)
    requires n < |a| && n < |b| && a[n] == b[n] && a[..n] == b[..n]
    ensures ClosesAt(a, n) <==> ClosesAt(b, n)
  {
  }

  lemma LastCloses(front: seq<Step>, step: Step)
    ensures ClosesAt(front + [step], |front|) <==>
            step.Enter? && step.task < |Calls(front)| && Calls(front)[step.task].CallClose?
  {
    assert (front + [step])[..|front|] == front && (front + [step])[|front|] == step;
  }

  lemma EnteredGrows(front: seq<Step>, step: Step, t: nat, closed: bool)
    ensures Entered(front + [step], t, closed) <==>
            Entered(front, t, closed) || (step == Enter(t) && (ClosedIn(front) <==> closed))
  {
    hide ClosedIn;
    var steps := front + [step];
    assert steps[..|front|] == front && steps[|front|] == step;
    assert forall n :: 0 <= n < |front| ==> steps[n] == front[n] && steps[..n] == front[..n];
    if Entered(front, t, closed) {
      var n :| 0 <= n < |front| && front[n] == Enter(t) && (ClosedIn(front[..n]) <==> closed);
      assert steps[n] == Enter(t) && (ClosedIn(steps[..n]) <==> closed);
    }
  }

  lemma ObtainedGrows(front: seq<Step>, step: Step, t: nat, h: Handle)
    ensures Obtained(front + [step], t, h) <==> Obtained(front, t, h) || step == Created(t, h.session)
  {
    var steps := front + [step];
    assert steps[|front|] == step && forall n :: 0 <= n < |front| ==> steps[n] == front[n];
    if Obtained(front, t, h) {
      var n :| 0 <= n < |front| && front[n] == Created(t, h.session);
      assert steps[n] == Created(t, h.session);
    }
  }

  /** What becomes of a call, in every interleaving. */
  lemma {:induction false} RunBecomes(steps: seq<Step>)
    requires After(FRESH, steps).Some?
    ensures AllBecome(steps, After(FRESH, steps).value)
    decreases |steps|
  {
    hide AllBecome, Next, Enabled;
    if steps == [] {
      NothingBecomes();
    } else {
      var n := |steps| - 1;
      RunBecomes(steps[..n]);
      assert steps == steps[..n] + [steps[n]];
      StepBecomes(steps[..n], After(FRESH, steps[..n]).value, steps[n]);
    }
  }

  lemma NothingBecomes()
    ensures AllBecome([], FRESH)
  {
  }

  lemma StepBecomes(front: seq<Step>, c: Capability, step: Step)
    requires AllBecome(front, c) && Enabled(c, step)
    ensures AllBecome(front + [step], Next(c, step))
  {
    hide Calls, ClosedIn, Entered, Obtained, BecomesOf, Untold;
    var steps, d := front + [step], Next(c, step);
    StepsGrow(front, step);
    if step.Enter? {
      KindsMatch(front, step.task, Calls(front)[step.task], c.tasks[step.task]);
    }
    forall t: nat | t < |d.tasks| ensures BecomesOf(steps, t, Calls(steps)[t], d.tasks[t]) {
      if t < |c.tasks| {
        assert Calls(steps)[t] == Calls(front)[t];
        TaskBecomes(front, c, step, t, Calls(front)[t]);
      } else {
        NewBecomes(front, step, t, d.tasks[t]);
      }
    }
    forall t: nat | |d.tasks| <= t ensures Untold(steps, t) {
      StillUntold(front, c, step, t);
    }
  }

  lemma KindsMatch(steps: seq<Step>, t: nat, call: Step, task: Task)
    requires BecomesOf(steps, t, call, task)
    ensures call.CallSpawn? || call.CallClose?
    ensures call.CallClose? <==> task.CloseQueued? || task.CloseReaping? || task.CloseSkipped?
  {
  }

  lemma TaskBecomes(front: seq<Step>, c: Capability, step: Step, t: nat, call: Step)
    requires Enabled(c, step) && (c.closed <==> ClosedIn(front))
    requires t < |c.tasks| && BecomesOf(front, t, call, c.tasks[t])
    ensures BecomesOf(front + [step], t, call, Next(c, step).tasks[t])
  {
    hide ClosedIn, Entered, Obtained;
    var steps := front + [step];
    EnteredGrows(front, step, t, true);
    EnteredGrows(front, step, t, false);
    assert forall s :: s in steps <==> s in front || s == step;
    if c.tasks[t].SpawnReturned? {
      ObtainedGrows(front, step, t, c.tasks[t].handle);
    } else if step.Created? && step.task == t {
      ObtainedGrows(front, step, t, Handle(step.session, |c.made|));
    }
  }

  lemma NewBecomes(front: seq<Step>, step: Step, t: nat, task: Task)
    requires Untold(front, t) && (step.CallSpawn? || step.CallClose?)
    requires task == if step.CallSpawn? then SpawnQueued else CloseQueued
    ensures BecomesOf(front + [step], t, step, task)
  {
    assert forall s :: s in front + [step] <==> s in front || s == step;
  }

  lemma StillUntold(front: seq<Step>, c: Capability, step: Step, t: nat)
    requires Untold(front, t) && Enabled(c, step) && t >= |c.tasks|
    ensures Untold(front + [step], t)
  {
    assert forall s :: s in front + [step] <==> s in front || s == step;
  }

  /** On an open capability whose lock is free, a spawn returns the handle that is created for it, and tables it. */
  lemma SpawnSucceeds(c: Capability, session: string)
    requires Invariant(c) && !c.closed && c.holder.None?
    ensures var t, h := |c.tasks|, Handle(session, |c.made|);
            After(c, [CallSpawn, Enter(t), Created(t, session)]) ==
            Some(c.(tasks := c.tasks + [SpawnReturned(h)], table := c.table[session := h], made := c.made + [h]))
            && h !in c.made
  {
    var t, h := |c.tasks|, Handle(session, |c.made|);
    var steps := [CallSpawn, Enter(t), Created(t, session)];
    assert steps[..2] == [CallSpawn, Enter(t)] && steps[..2][..1] == [CallSpawn] && [CallSpawn][..0] == [];
    var called := c.(tasks := c.tasks + [SpawnQueued]);
    assert After(c, [CallSpawn]) == Some(called);
    var creating := called.(tasks := called.tasks[t := SpawnCreating], holder := Some(t));
    assert After(c, steps[..2]) == Some(creating);
    assert creating.tasks[t := SpawnReturned(h)] == c.tasks + [SpawnReturned(h)];
    if h in c.made {
      SerialBelow(c, h);
    }
  }

  /** When the lock is free a close can get it: the first reaps all that is in the table, a later one nothing. */
  lemma CloseSucceeds(c: Capability)
    requires c.holder.None?
    ensures var t := |c.tasks|;
            After(c, [CallClose, Enter(t)]) ==
            Some(if c.closed then c.(tasks := c.tasks + [CloseSkipped])
                 else c.(tasks := c.tasks + [CloseReaping(c.table.Values)], closed := true, table := map[]))
  {
    var t := |c.tasks|;
    var steps := [CallClose, Enter(t)];
    assert steps[..1] == [CallClose] && [CallClose][..0] == [];
    var called := c.(tasks := c.tasks + [CloseQueued]);
    assert After(c, [CallClose]) == Some(called);
    forall task ensures called.tasks[t := task] == c.tasks + [task] {
    }
  }
}
