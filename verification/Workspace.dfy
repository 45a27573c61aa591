/** Who holds which coding runtime while workspaces are prepared, switched, retired and closed. */
module Workspace {
  import opened Text

  /** The resources of one workspace; each part remembers the bundle it was created in. */
  datatype Coding = Coding(bundle: nat)
  datatype Shell = ShellOf(coding: Coding)
  datatype Resources = Resources(coding: Coding, policy: nat, reader: nat)

  predicate OneBundle(r: Resources) {
    r.policy == r.coding.bundle && r.reader == r.coding.bundle
  }

  /** Where creating resources can fail. */
  datatype Creation = Works | PolicyFails | ReaderFails | CodingFails

  /** Where a coding is: in use, retired, being closed by a task, closed, or with a caller of prepare or activate. */
  datatype Place = Active | Retired | Closing | Closed | Held

  /** Everything the owner keeps about codings, with every coding created and how often closing it was started. */
  datatype Books = Books(
    coding: Coding, retired: set<Coding>, closeTasks: set<Coding>, closed: bool, bundles: nat,
    place: map<Coding, Place>, closings: map<Coding, nat>)

  /** The owner's collections are the places, and closing was started once for what is closing or closed, else never. */
  ghost predicate Balanced(b: Books) {
    && b.coding in b.place && (b.place[b.coding].Active? || (b.closed && b.place[b.coding].Closed?))
    && (forall c :: c in b.place && b.place[c].Active? ==> c == b.coding)
    && (forall c :: c in b.retired <==> c in b.place && b.place[c].Retired?)
    && (forall c :: c in b.closeTasks <==> c in b.place && b.place[c].Closing?)
    && b.closings.Keys == b.place.Keys
    && (forall c :: c in b.place ==> c.bundle < b.bundles
                                     && b.closings[c] == if b.place[c].Closing? || b.place[c].Closed? then 1 else 0)
    && (b.closed ==> b.retired == {} && b.closeTasks == {})
  }

  /** What a call does to the books. */
  datatype Call =
    | Prepared(made: bool)              // resources were created for the caller, or creating them failed on the way
    | Activated(coding: Coding)
    | GivenUp(coding: Coding, loopRuns: bool) // a coding was retired
    | TaskDone(coding: Coding)
    | ClosedAll

  predicate Allowed(b: Books, call: Call) {
    match call
    case Prepared(_) => !b.closed
    case Activated(c) => b.coding in b.place && c in b.place && b.place[c].Held?
    case GivenUp(c, _) => !b.closed && c in b.place && b.place[c].Held? && c in b.closings
    case TaskDone(c) => c in b.closeTasks
    case ClosedAll => !b.closed
  }

  function After(b: Books, call: Call): Books
    requires Allowed(b, call)
  {
    match call
    case Prepared(made) =>
      var c := Coding(b.bundles);
      if made then b.(bundles := b.bundles + 1, place := b.place[c := Held], closings := b.closings[c := 0])
      else b.(bundles := b.bundles + 1)
    case Activated(c) =>
      var left := if b.place[b.coding].Active? then Held else b.place[b.coding];
      b.(coding := c, place := b.place[b.coding := left][c := Active])
    case GivenUp(c, loopRuns) =>
      if loopRuns
      then b.(closeTasks := b.closeTasks + {c}, place := b.place[c := Closing],
          closings := b.closings[c := b.closings[c] + 1])
      else b.(retired := b.retired + {c}, place := b.place[c := Retired])
    case TaskDone(c) => b.(closeTasks := b.closeTasks - {c}, place := b.place[c := Closed])
    case ClosedAll =>
      b.(retired := {}, closeTasks := {}, closed := true,
         place := map c | c in b.place :: if b.place[c].Held? then Held else Closed,
         closings := map c | c in b.closings :: b.closings[c] + if c == b.coding || c in b.retired then 1 else 0)
  }

  lemma CallBalances(b: Books, call: Call)
    requires Balanced(b) && Allowed(b, call)
    ensures Balanced(After(b, call))
  {
    hide Balanced, After;
    match call
    case Prepared(made) => PreparationBalances(b, made);
    case Activated(c) => ActivationBalances(b, c);
    case GivenUp(c, loopRuns) => RetirementBalances(b, c, loopRuns);
    case TaskDone(c) => TaskBalances(b, c);
    case ClosedAll => CloseBalances(b);
  }

  lemma PreparationBalances(b: Books, made: bool)
    requires Balanced(b) && Allowed(b, Prepared(made))
    ensures Balanced(After(b, Prepared(made)))
  {
  }

  lemma ActivationBalances(b: Books, c: Coding)
    requires Balanced(b) && Allowed(b, Activated(c))
    ensures Balanced(After(b, Activated(c)))
  {
  }

  lemma RetirementBalances(b: Books, c: Coding, loopRuns: bool)
    requires Balanced(b) && Allowed(b, GivenUp(c, loopRuns))
    ensures Balanced(After(b, GivenUp(c, loopRuns)))
  {
  }

  lemma TaskBalances(b: Books, c: Coding)
    requires Balanced(b) && Allowed(b, TaskDone(c))
    ensures Balanced(After(b, TaskDone(c)))
  {
  }

  lemma CloseBalances(b: Books)
    requires Balanced(b) && Allowed(b, ClosedAll)
    ensures Balanced(After(b, ClosedAll))
  {
  }

  lemma InUse(b: Books)
    requires Balanced(b)
    ensures b.coding in b.place && (!b.closed ==> b.place[b.coding].Active?)
    ensures Coding(b.bundles) !in b.place && b.closings.Keys == b.place.Keys
  {
  }

  const OPENING: Books := Books(Coding(0), {}, {}, false, 1, map[Coding(0) := Active], map[Coding(0) := 0])

  /** The books after a run of calls; `None` when one of them was not possible. */
  function Run(calls: seq<Call>): Option<Books> {
    if calls == [] then Some(OPENING)
    else
      var before := Run(calls[..|calls| - 1]);
      if before.Some? && Allowed(before.value, calls[|calls| - 1])
      then Some(After(before.value, calls[|calls| - 1]))
      else None
  }

  lemma {:induction false} RunBalances(calls: seq<Call>)
    requires Run(calls).Some?
    ensures Balanced(Run(calls).value)
  {
    hide Balanced, After, Allowed;
    if calls == [] {
      assert Balanced(OPENING) by { OpeningBalanced(); }
    } else {
      RunBalances(calls[..|calls| - 1]);
      CallBalances(Run(calls[..|calls| - 1]).value, calls[|calls| - 1]);
    }
  }

  lemma OpeningBalanced()
    ensures Balanced(OPENING)
  {
  }

  /** How often a run starts closing the coding. */
  function Closings(calls: seq<Call>, c: Coding): nat {
    if calls == [] || Run(calls).None? then 0
    else
      var before, last := Run(calls[..|calls| - 1]), calls[|calls| - 1];
      Closings(calls[..|calls| - 1], c)
      + if last == GivenUp(c, true)
           || (last.ClosedAll? && before.Some? && (c == before.value.coding || c in before.value.retired))
        then 1 else 0
  }

  lemma {:induction false} ClosingsAreKept(calls: seq<Call>, c: Coding)
    requires Run(calls).Some?
    ensures Closings(calls, c) == if c in Run(calls).value.closings then Run(calls).value.closings[c] else 0
  {
    hide Balanced;
    if calls != [] {
      var n := |calls| - 1;
      ClosingsAreKept(calls[..n], c);
      RunBalances(calls[..n]);
      BooksCover(Run(calls[..n]).value);
    }
  }

  lemma BooksCover(b: Books)
    requires Balanced(b)
    ensures b.coding in b.closings && (forall c :: c in b.retired ==> c in b.closings)
    ensures Coding(b.bundles) !in b.closings
  {
  }

  /**
   * Custody over any run of calls: each coding is in one place, closing it was started at most once, and exactly when
   * it is closing or closed; after the close the owner holds none unclosed but one that was activated later.
   */
  lemma CustodyOverRuns(calls: seq<Call>, c: Coding)
    requires Run(calls).Some? && c in Run(calls).value.place
    ensures var b := Run(calls).value;
            && Closings(calls, c) == (if b.place[c].Closing? || b.place[c].Closed? then 1 else 0)
            && (b.place[c].Retired? <==> c in b.retired) && (b.place[c].Closing? <==> c in b.closeTasks)
            && (b.place[c].Active? ==> c == b.coding)
            && (b.closed ==> b.place[c].Held? || b.place[c].Closed? || (c == b.coding && b.place[c].Active?))
  {
    RunBalances(calls);
    ClosingsAreKept(calls, c);
    hide Run, Closings;
  }

  /** Once closed the owner stays closed, and only activations still change anything. */
  lemma {:induction false} ClosedEndures(calls: seq<Call>, n: nat)
    requires Run(calls).Some? && n < |calls| && calls[n].ClosedAll?
    ensures Run(calls).value.closed && forall i :: n < i < |calls| ==> calls[i].Activated?
    decreases |calls|
  {
    hide Balanced;
    var m := |calls| - 1;
    if n < m {
      var front := calls[..m];
      ClosedEndures(front, n);
      RunBalances(front);
      OnlyActivations(Run(front).value, calls[m]);
      assert forall i :: n < i < m ==> calls[i] == front[i];
    }
  }

  /**
   * After the close the owner has a coding in use exactly when something was activated later. It was not closed and
   * will not be.
   */
  lemma LateActivation(calls: seq<Call>, n: nat)
    requires Run(calls).Some? && n < |calls| && calls[n].ClosedAll?
    ensures var b := Run(calls).value;
            b.coding in b.place && (b.place[b.coding].Active? <==> n < |calls| - 1)
            && (b.place[b.coding].Closed? <==> n == |calls| - 1)
  {
    var m := |calls| - 1;
    RunBalances(calls[..m]);
    ClosedEndures(calls, n);
    var before := Run(calls[..m]).value;
    InUse(before);
    hide Balanced, Run;
    assert Run(calls).value == After(before, calls[m]) by { LastCall(calls); }
  }

  /** Such runs exist: resources prepared before the close are activated after it. */
  lemma LateActivationHappens()
    ensures Run([Prepared(true), ClosedAll, Activated(Coding(1))]).Some?
  {
    var b1 := After(OPENING, Prepared(true));
    var b2 := After(b1, ClosedAll);
    assert Allowed(b2, Activated(Coding(1)));
    RunTwo(Prepared(true), ClosedAll);
    var calls := [Prepared(true), ClosedAll, Activated(Coding(1))];
    assert calls[..2] == [Prepared(true), ClosedAll];
  }

  lemma RunTwo(first: Call, second: Call)
    requires Allowed(OPENING, first) && Allowed(After(OPENING, first), second)
    ensures Run([first, second]) == Some(After(After(OPENING, first), second))
  {
    hide After, Allowed;
    assert Run([first]) == Some(After(OPENING, first)) by { assert [first][..0] == []; }
    assert [first, second][..1] == [first];
  }

  lemma LastCall(calls: seq<Call>)
    requires calls != [] && Run(calls).Some?
    ensures var before := Run(calls[..|calls| - 1]);
            before.Some? && Allowed(before.value, calls[|calls| - 1])
            && Run(calls).value == After(before.value, calls[|calls| - 1])
  {
    hide After, Allowed;
  }

  lemma OnlyActivations(b: Books, call: Call)
    requires Balanced(b) && b.closed && Allowed(b, call)
    ensures call.Activated?
  {
  }

  lemma CanClose(b: Books)
    requires !b.closed
    ensures Allowed(b, ClosedAll)
    ensures var d := After(b, ClosedAll);
            && d.retired == {} && d.closeTasks == {} && d.closed && d.coding == b.coding && d.bundles == b.bundles
            && d.place.Keys == b.place.Keys
            && forall c :: c in d.place ==> d.place[c] == if b.place[c].Held? then Held else Closed
  {
  }

  lemma FailureKeeps(b: Books)
    requires !b.closed
    ensures Allowed(b, Prepared(false)) && After(b, Prepared(false)) == b.(bundles := b.bundles + 1)
  {
  }

  /** Replacing: prepare, activate, and give the previous coding up. */
  lemma ReplacingBooks(b: Books, loopRuns: bool)
    requires Balanced(b) && !b.closed
    ensures Allowed(b, Prepared(true))
    ensures var c, made := Coding(b.bundles), After(b, Prepared(true));
            && c !in b.place && Allowed(made, Activated(c))
            && var active := After(made, Activated(c));
            && Allowed(active, GivenUp(b.coding, loopRuns)) && active.coding == c
            && var next := After(active, GivenUp(b.coding, loopRuns));
            && next.coding == c && !next.closed
            && next.place == b.place[c := Active][b.coding := if loopRuns then Closing else Retired]
  {
  }

  class WorkspaceRuntimeOwner {
    var policy: nat
    var reader: nat
    var coding: Coding
    var userShell: Shell
    var retired: set<Coding>    // retired with no event loop running, to be closed at the end
    var closeTasks: set<Coding> // being closed by a task
    var closed: bool
    var bundles: nat            // bundle numbers used so far

    ghost var place: map<Coding, Place>    // every coding created, and its one place
    ghost var closings: map<Coding, nat>   // how often the owner started closing each coding

    ghost function Kept(): Books
      reads this
    {
      Books(coding, retired, closeTasks, closed, bundles, place, closings)
    }

    /** The active resources come from one bundle, and the books are balanced. */
    ghost predicate Valid()
      reads this
    {
      policy == coding.bundle && reader == coding.bundle && userShell == ShellOf(coding) && Balanced(Kept())
    }

    constructor ()
      ensures Valid() && Kept() == OPENING
    {
      policy, reader, coding, userShell := 0, 0, Coding(0), ShellOf(Coding(0));
      retired, closeTasks, closed, bundles := {}, {}, false, 1;
      place, closings := map[Coding(0) := Active], map[Coding(0) := 0];
    }

    /** Creates new resources for the caller; the active workspace stays as it is, also when creating fails. */
    method Prepare(creation: Creation) returns (r: Option<Resources>)
      requires Valid()
      modifies this`bundles, this`place, this`closings
      ensures Valid() && (r.Some? <==> !closed && creation.Works?)
      ensures r.Some? ==> OneBundle(r.value) && r.value.coding == Coding(old(bundles)) && r.value.coding !in old(place)
      ensures Kept() == if closed then old(Kept()) else After(old(Kept()), Prepared(creation.Works?))
    {
      if closed {
        return None;
      }
      hide Balanced;
      PreparationBalances(Kept(), creation.Works?);
      InUse(Kept());
      var bundle := bundles;
      bundles := bundles + 1;
      if !creation.Works? {
        return None;
      }
      place := place[Coding(bundle) := Held];
      closings := closings[Coding(bundle) := 0];
      r := Some(Resources(Coding(bundle), bundle, bundle));
    }

    /**
     * Switches to the given resources and hands the previous ones back; nothing is checked. Given resources of one
     * bundle that the caller holds, custody is kept, also after the close.
     */
    method Activate(r: Resources) returns (previous: Resources)
      modifies this`policy, this`reader, this`coding, this`userShell, this`place
      ensures coding == r.coding && policy == r.policy && reader == r.reader && userShell == ShellOf(r.coding)
      ensures previous == Resources(old(coding), old(policy), old(reader))
      ensures old(Valid()) && OneBundle(r) && Allowed(old(Kept()), Activated(r.coding)) ==>
                Valid() && OneBundle(previous) && Kept() == After(old(Kept()), Activated(r.coding))
    {
      hide Balanced;
      if Allowed(Kept(), Activated(r.coding)) {
        if Balanced(Kept()) {
          ActivationBalances(Kept(), r.coding);
        }
        place := place[coding := if place[coding].Active? then Held else place[coding]][r.coding := Active];
      }
      previous := Resources(coding, policy, reader);
      policy := r.policy;
      reader := r.reader;
      coding := r.coding;
      userShell := ShellOf(r.coding);
    }

    /**
     * Has a coding closed, at once in a task or later with the owner; nothing is checked. Given one that its holder
     * gives up before the close, custody is kept.
     */
    method Retire(older: Coding, loopRuns: bool)
      modifies this`retired, this`closeTasks, this`place, this`closings
      ensures retired == old(retired) + (if loopRuns then {} else {older})
      ensures closeTasks == old(closeTasks) + (if loopRuns then {older} else {})
      ensures old(Valid()) && Allowed(old(Kept()), GivenUp(older, loopRuns)) ==>
                Valid() && Kept() == After(old(Kept()), GivenUp(older, loopRuns))
    {
      hide Balanced;
      if Allowed(Kept(), GivenUp(older, loopRuns)) {
        if Balanced(Kept()) {
          RetirementBalances(Kept(), older, loopRuns);
        }
        place := place[older := if loopRuns then Closing else Retired];
        if loopRuns {
          closings := closings[older := closings[older] + 1];
        }
      }
      if !loopRuns {
        retired := retired + {older};
      } else {
        closeTasks := closeTasks + {older};
      }
    }

    /** A closing task has ended, however it ended. */
    method CloseTaskDone(c: Coding)
      requires Valid() && c in closeTasks
      modifies this`closeTasks, this`place
      ensures Valid() && Kept() == After(old(Kept()), TaskDone(c))
    {
      hide Balanced;
      TaskBalances(Kept(), c);
      closeTasks := closeTasks - {c};
      place := place[c := Closed];
    }

    /**
     * Replaces the workspace: the new coding is in use and the old one given up. A failed preparation changes
     * neither.
     */
    method Replace(creation: Creation, loopRuns: bool) returns (ok: bool)
      requires Valid()
      modifies this
      ensures Valid() && closed == old(closed) && (ok <==> !old(closed) && creation.Works?)
      ensures !ok ==> coding == old(coding) && place == old(place) && closings == old(closings)
      ensures ok ==> coding !in old(place)
                     && place == old(place)[coding := Active][old(coding) := if loopRuns then Closing else Retired]
    {
      hide Balanced, After, Allowed;
      if !closed && creation.Works? {
        ReplacingBooks(Kept(), loopRuns);
      }
      var r := Prepare(creation);
      if r.None? {
        if !closed {
          FailureKeeps(old(Kept()));
        }
        return false;
      }
      var previous := Activate(r.value);
      Retire(previous.coding, loopRuns);
      return true;
    }

    /** The owner's fields after the close. */
    method ForgetAll(ghost books: Books)
      requires policy == coding.bundle && reader == coding.bundle && userShell == ShellOf(coding) && Balanced(books)
      requires books == Books(coding, {}, {}, true, bundles, books.place, books.closings)
      modifies this`retired, this`closeTasks, this`closed, this`place, this`closings
      ensures Valid() && Kept() == books
    {
      hide Balanced;
      retired, closeTasks, closed, place, closings := {}, {}, true, books.place, books.closings;
    }

    /**
     * Closes what the owner holds; errors of single codings are swallowed, errors of the capabilities raised at the
     * end. Afterwards every coding the owner did not hand out is closed, and a second call does nothing.
     */
    method Close(capabilityFails: bool) returns (raised: bool)
      requires Valid()
      modifies this`retired, this`closeTasks, this`closed, this`place, this`closings
      ensures Valid() && closed && (raised <==> !old(closed) && capabilityFails)
      ensures place.Keys == old(place).Keys
      ensures !old(closed) ==> forall c :: c in place ==> place[c] == if old(place)[c].Held? then Held else Closed
      ensures Kept() == if old(closed) then old(Kept()) else After(old(Kept()), ClosedAll)
    {
      if closed {
        return false;
      }
      hide Balanced, After, Allowed;
      CanClose(Kept());
      CloseBalances(Kept());
      ForgetAll(After(Kept(), ClosedAll));
      raised := capabilityFails;
    }
  }
}
