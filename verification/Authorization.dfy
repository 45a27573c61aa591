/** The authorization status of an MCP server, merged from credential views and request outcomes. */
module Authorization {
  import opened Text

  datatype State =
    | Unknown | Unsupported | Header | Bearer | OAuth | Anonymous
    | NotLoggedIn | ReauthorizationRequired | Unavailable

  datatype Credentials =
    | NotApplicable | Missing | Registered | StoredToken | Expired | NoStorage
    | RefreshUncertain | MustReauthorize

  datatype Verification = Unverified | Accepted | Rejected

  datatype Error =
    | StorageUnavailable | StorageCorrupt | CredentialConflict | StorageBusy
    | Reauthorize | InsufficientScope | UncertainRefresh | LoginRequired
    | OtherError(name: string)

  datatype Status = Status(
    state: State, credentials: Option<Credentials>, verification: Verification,
    generation: Option<int>, expiresAt: Option<real>, error: Option<Error>)

  datatype View = View(state: Credentials, expiresAt: Option<real>, error: Option<Error>, generation: Option<int>)

  predicate StorageFailure(e: Error) {
    e.StorageUnavailable? || e.StorageCorrupt? || e.CredentialConflict? || e.StorageBusy?
  }

  // ---- Credential records --------------------------------------------------------------------

  datatype Recovery = UncertainAfterRefresh | ReauthorizationNeeded

  datatype Token = Token(expiresAt: Option<real>)

  /** A snapshot keeps a token or a recovery mark, never both. */
  datatype Snapshot = Snapshot(generation: nat, token: Option<Token>, recovery: Option<Recovery>)

  predicate WellFormed(s: Snapshot) {
    s.recovery.Some? ==> s.token.None?
  }

  datatype Record = Record(generation: nat, snapshot: Option<Snapshot>)

  function ViewFromRecord(record: Record, now: real): View {
    if record.snapshot.None? then View(Missing, None, None, Some(record.generation))
    else
      var s := record.snapshot.value;
      if s.recovery == Some(UncertainAfterRefresh) then View(RefreshUncertain, None, None, Some(record.generation))
      else if s.recovery.Some? then View(MustReauthorize, None, None, Some(record.generation))
      else if s.token.None? then View(Registered, None, None, Some(record.generation))
      else
        var expires := s.token.value.expiresAt;
        View(if expires.Some? && expires.value <= now then Expired else StoredToken, expires, None,
             Some(record.generation))
  }

  // ---- The three updates ---------------------------------------------------------------------

  predicate Stale(view: View, previous: Status) {
    view.generation.Some? && previous.generation.Some? && view.generation.value < previous.generation.value
  }

  predicate SameVersion(view: View, previous: Status) {
    view.generation.Some? && view.generation == previous.generation
  }

  function Observed(view: View, previous: Status): Status {
    if Stale(view, previous) then previous
    else
      var usual :=
        if view.state.StoredToken? || view.state.Expired? then OAuth
        else if view.state.RefreshUncertain? || view.state.MustReauthorize? then ReauthorizationRequired
        else if view.state.NoStorage? then Unavailable
        else if view.state.Registered? || (view.generation.Some? && view.generation.value > 0) then NotLoggedIn
        else if previous.state.Anonymous? || previous.state.NotLoggedIn? || previous.state.ReauthorizationRequired?
        then previous.state
        else Unknown;
      var same := SameVersion(view, previous);
      var state :=
        if same && previous.state.ReauthorizationRequired? && !view.state.NoStorage? then previous.state else usual;
      var heldError := if previous.state.Unavailable? then None else previous.error;
      Status(
        state, Some(view.state), if same then previous.verification else Unverified,
        view.generation, view.expiresAt,
        if view.error.Some? then view.error else if same then heldError else None)
  }

  function Failed(status: Status, error: Error): Status {
    var state :=
      if status.state.Header? || status.state.Bearer? || status.state.Unsupported? then status.state
      else if error.Reauthorize? || error.InsufficientScope? || error.UncertainRefresh? then ReauthorizationRequired
      else if error.LoginRequired? && !status.state.ReauthorizationRequired? then NotLoggedIn
      else if StorageFailure(error) then Unavailable
      else status.state;
    status.(
      state := state, error := Some(error),
      credentials := if StorageFailure(error) then Some(NoStorage) else status.credentials,
      verification := if error.LoginRequired? || error.InsufficientScope? then Rejected else Unverified)
  }

  function AcceptedRequest(status: Status): Status {
    if status.state.Unsupported? then status
    else status.(
      state := if status.state.Unknown? || status.state.NotLoggedIn? then Anonymous else status.state,
      verification := Accepted, error := None)
  }

  // ---- Histories -----------------------------------------------------------------------------

  datatype Event = Viewed(view: View) | Failure(error: Error) | Success

  function After(status: Status, e: Event): Status {
    match e
    case Viewed(view) => Observed(view, status)
    case Failure(error) => Failed(status, error)
    case Success => AcceptedRequest(status)
  }

  function History(start: Status, events: seq<Event>): Status {
    if events == [] then start else After(History(start, events[..|events| - 1]), events[|events| - 1])
  }

  /** A view without a generation, as a failure to read the record makes it. */
  predicate Unversioned(e: Event) {
    e.Viewed? && e.view.generation.None?
  }

  predicate Names(e: Event, g: int) {
    e.Viewed? && e.view.generation == Some(g)
  }

  predicate Seen(start: Status, events: seq<Event>, g: int) {
    start.generation == Some(g) || exists i :: 0 <= i < |events| && Names(events[i], g)
  }

  /** The generation was seen, and no view without one has come since. */
  predicate Since(start: Status, events: seq<Event>, g: int) {
    || (start.generation == Some(g) && forall j :: 0 <= j < |events| ==> !Unversioned(events[j]))
    || exists i :: 0 <= i < |events| && Names(events[i], g) && forall j :: i < j < |events| ==> !Unversioned(events[j])
  }

  /** The highest generation of those, if there is any. */
  ghost predicate HighestSince(start: Status, events: seq<Event>, g: Option<int>) {
    match g
    case None => forall m :: !Since(start, events, m)
    case Some(n) => Since(start, events, n) && forall m :: Since(start, events, m) ==> m <= n
  }

  /** The highest generation ever seen. */
  ghost predicate Highest(start: Status, events: seq<Event>, g: Option<int>) {
    match g
    case None => forall m :: !Seen(start, events, m)
    case Some(n) => Seen(start, events, n) && forall m :: Seen(start, events, m) ==> m <= n
  }

  /**
   * An event that decides the verification: a request outcome, a view without a generation, or the first view of a
   * generation above all those seen since the last view without one.
   */
  ghost predicate Decides(start: Status, events: seq<Event>, i: nat)
    requires i < |events|
  {
    match events[i]
    case Viewed(view) =>
      view.generation.None? || forall m :: Since(start, events[..i], m) ==> m < view.generation.value
    case Failure(_) => true
    case Success => true
  }

  function Verdict(e: Event): Verification {
    match e
    case Viewed(_) => Unverified
    case Failure(error) => if error.LoginRequired? || error.InsufficientScope? then Rejected else Unverified
    case Success => Accepted
  }

  lemma SinceGrows(start: Status, events: seq<Event>, e: Event, g: int)
    ensures Since(start, events + [e], g) <==> Names(e, g) || (Since(start, events, g) && !Unversioned(e))
  {
    var longer := events + [e];
    assert longer[|events|] == e && forall i :: 0 <= i < |events| ==> longer[i] == events[i];
    if Since(start, events, g) && !Unversioned(e) && start.generation != Some(g) {
      var i :| 0 <= i < |events| && Names(events[i], g) && forall j :: i < j < |events| ==> !Unversioned(events[j]);
      assert Names(longer[i], g) && forall j :: i < j < |longer| ==> !Unversioned(longer[j]);
    }
  }

  /** Over every history the status carries the highest generation seen since the last view without one. */
  lemma {:induction false} GenerationIsHighestSince(start: Status, events: seq<Event>)
    ensures HighestSince(start, events, History(start, events).generation)
    decreases |events|
  {
    hide Since;
    if events == [] {
      NothingSince(start);
    } else {
      var n := |events| - 1;
      GenerationIsHighestSince(start, events[..n]);
      assert events == events[..n] + [events[n]];
      forall g ensures Since(start, events, g) <==>
                       Names(events[n], g) || (Since(start, events[..n], g) && !Unversioned(events[n]))
      {
        SinceGrows(start, events[..n], events[n], g);
      }
      assert events[n].Viewed? && events[n].view.generation.Some? ==> Names(events[n], events[n].view.generation.value);
    }
  }

  lemma NothingSince(start: Status)
    ensures forall g :: Since(start, [], g) <==> start.generation == Some(g)
  {
  }

  lemma SinceIsSeen(start: Status, events: seq<Event>)
    ensures forall g :: Since(start, events, g) ==> Seen(start, events, g)
  {
  }

  /**
   * It carries the highest generation ever seen exactly when every generation seen is reached again by one seen since
   * the last view without one.
   */
  lemma HighestUnlessForgotten(start: Status, events: seq<Event>)
    ensures Highest(start, events, History(start, events).generation) <==>
            forall m :: Seen(start, events, m) ==> exists n :: m <= n && Since(start, events, n)
  {
    hide Seen, Since;
    GenerationIsHighestSince(start, events);
    SinceIsSeen(start, events);
    var held := History(start, events).generation;
    if Highest(start, events, held) {
      forall m | Seen(start, events, m) ensures exists n :: m <= n && Since(start, events, n) {
        assert m <= held.value && Since(start, events, held.value);
      }
    }
  }

  lemma {:induction false} SupportStays(start: Status, events: seq<Event>)
    requires !start.state.Unsupported?
    ensures !History(start, events).state.Unsupported?
    decreases |events|
  {
    if events != [] {
      SupportStays(start, events[..|events| - 1]);
    }
  }

  /** `last` is the last event that decides the verification. */
  ghost predicate LastDecision(start: Status, events: seq<Event>, last: Option<nat>) {
    && (last.Some? ==> last.value < |events| && Decides(start, events, last.value))
    && forall j :: 0 <= j < |events| && (last.Some? ==> last.value < j) ==> !Decides(start, events, j)
  }

  /**
   * The verification is decided by one event alone: the last request outcome, view without a generation or change to a
   * higher generation. If there was none, it is still the one the history started with.
   */
  lemma {:induction false} VerificationIsLastVerdict(start: Status, events: seq<Event>, last: Option<nat>)
    requires !start.state.Unsupported? && LastDecision(start, events, last)
    ensures History(start, events).verification ==
            if last.Some? then Verdict(events[last.value]) else start.verification
    decreases |events|
  {
    hide After, Decides, Verdict, HighestSince;
    if events != [] {
      var n := |events| - 1;
      var before := events[..n];
      GenerationIsHighestSince(start, before);
      SupportStays(start, before);
      LastEvent(start, events, n);
      if last != Some(n) {
        forall i: nat | i < n ensures Decides(start, events, i) <==> Decides(start, before, i) {
          SameDecision(start, events, n, i);
        }
        VerificationIsLastVerdict(start, before, last);
      }
    }
  }

  lemma SameDecision(start: Status, events: seq<Event>, n: nat, i: nat)
    requires i < n <= |events|
    ensures Decides(start, events, i) <==> Decides(start, events[..n], i)
  {
    assert events[..n][..i] == events[..i];
  }

  /** One more event changes the verification to its verdict when it decides, and not at all when it does not. */
  lemma LastEvent(start: Status, events: seq<Event>, n: nat)
    requires n < |events|
    requires var status := History(start, events[..n]);
             HighestSince(start, events[..n], status.generation) && !status.state.Unsupported?
    ensures var status := History(start, events[..n]);
            After(status, events[n]).verification ==
            if Decides(start, events, n) then Verdict(events[n]) else status.verification
  {
    hide Since, History;
  }

  // ---- Credentials and expiry ----------------------------------------------------------------

  /** A view without a generation, or at least as new as everything seen since the last one without. */
  ghost predicate Counts(start: Status, events: seq<Event>, i: nat)
    requires i < |events|
  {
    && events[i].Viewed?
    && (events[i].view.generation.None?
        || forall m :: Since(start, events[..i], m) ==> m <= events[i].view.generation.value)
  }

  /** An event that says what the credentials are: such a view, or a failure of the storage. */
  ghost predicate Reports(start: Status, events: seq<Event>, i: nat)
    requires i < |events|
  {
    Counts(start, events, i) || (events[i].Failure? && StorageFailure(events[i].error))
  }

  function Reported(e: Event): Credentials {
    if e.Viewed? then e.view.state else NoStorage
  }

  ghost predicate LastCount(start: Status, events: seq<Event>, last: Option<nat>) {
    && (last.Some? ==> last.value < |events| && Counts(start, events, last.value))
    && forall j :: 0 <= j < |events| && (last.Some? ==> last.value < j) ==> !Counts(start, events, j)
  }

  ghost predicate LastReport(start: Status, events: seq<Event>, last: Option<nat>) {
    && (last.Some? ==> last.value < |events| && Reports(start, events, last.value))
    && forall j :: 0 <= j < |events| && (last.Some? ==> last.value < j) ==> !Reports(start, events, j)
  }

  /**
   * The expiry is that of the last view that counts; the credentials are what that view or a later failure of the
   * storage says. Views of older versions change nothing.
   */
  lemma {:induction false} CredentialsAreLastReport(start: Status, events: seq<Event>,
                                                    view: Option<nat>, report: Option<nat>)
    requires LastCount(start, events, view) && LastReport(start, events, report)
    ensures History(start, events).expiresAt ==
            if view.Some? then events[view.value].view.expiresAt else start.expiresAt
    ensures History(start, events).credentials ==
            if report.Some? then Some(Reported(events[report.value])) else start.credentials
    decreases |events|
  {
    hide After, Counts, Reports, Reported, HighestSince;
    if events != [] {
      var n := |events| - 1;
      var before := events[..n];
      GenerationIsHighestSince(start, before);
      LastReported(start, events, n);
      forall i: nat | i < n
        ensures (Counts(start, events, i) <==> Counts(start, before, i))
                && (Reports(start, events, i) <==> Reports(start, before, i))
      {
        SameReport(start, events, n, i);
      }
      var earlierView := if view == Some(n) then LatestCount(start, before, n) else view;
      var earlierReport := if report == Some(n) then LatestReport(start, before, n) else report;
      CredentialsAreLastReport(start, before, earlierView, earlierReport);
    }
  }

  ghost function LatestCount(start: Status, events: seq<Event>, n: nat): (r: Option<nat>)
    requires n <= |events|
    ensures r.Some? ==> r.value < n && Counts(start, events, r.value)
    ensures forall j :: 0 <= j < n && (r.Some? ==> r.value < j) ==> !Counts(start, events, j)
  {
    if n == 0 then None else if Counts(start, events, n - 1) then Some(n - 1) else LatestCount(start, events, n - 1)
  }

  ghost function LatestReport(start: Status, events: seq<Event>, n: nat): (r: Option<nat>)
    requires n <= |events|
    ensures r.Some? ==> r.value < n && Reports(start, events, r.value)
    ensures forall j :: 0 <= j < n && (r.Some? ==> r.value < j) ==> !Reports(start, events, j)
  {
    if n == 0 then None else if Reports(start, events, n - 1) then Some(n - 1) else LatestReport(start, events, n - 1)
  }

  lemma SameReport(start: Status, events: seq<Event>, n: nat, i: nat)
    requires i < n <= |events|
    ensures Counts(start, events, i) <==> Counts(start, events[..n], i)
    ensures Reports(start, events, i) <==> Reports(start, events[..n], i)
  {
    assert events[..n][..i] == events[..i];
  }

  lemma LastReported(start: Status, events: seq<Event>, n: nat)
    requires n < |events| && HighestSince(start, events[..n], History(start, events[..n]).generation)
    ensures var status := History(start, events[..n]);
            var after := After(status, events[n]);
            && after.expiresAt == (if Counts(start, events, n) then events[n].view.expiresAt else status.expiresAt)
            && after.credentials ==
               (if Reports(start, events, n) then Some(Reported(events[n])) else status.credentials)
  {
    hide Since, History;
  }

  // ---- Reauthorization -----------------------------------------------------------------------

  /**
   * Which single events lift the need to reauthorize: failed or missing storage, and credentials of another version.
   */
  predicate Lifts(status: Status, e: Event) {
    match e
    case Viewed(view) =>
      if Stale(view, status) then false
      else if SameVersion(view, status) then view.state.NoStorage?
      else if view.state.RefreshUncertain? || view.state.MustReauthorize? then false
      else
        || view.state.StoredToken? || view.state.Expired? || view.state.NoStorage? || view.state.Registered?
        || (view.generation.Some? && view.generation.value > 0)
    case Failure(error) => StorageFailure(error)
    case Success => false
  }

  /** Exactly those. */
  lemma ReauthorizationLifted(status: Status, e: Event)
    requires status.state.ReauthorizationRequired?
    ensures After(status, e).state.ReauthorizationRequired? <==> !Lifts(status, e)
  {
  }

  /** Over a history the demand stands at every moment exactly when no event lifts it. */
  lemma {:induction false} DemandStandsUntilLifted(start: Status, events: seq<Event>)
    requires start.state.ReauthorizationRequired?
    ensures (forall n :: 0 <= n <= |events| ==> Demanded(start, events, n)) <==>
            forall i :: 0 <= i < |events| ==> !LiftedAt(start, events, i)
  {
    hide Lifts, After, LiftedAt;
    assert events[..0] == [];
    if forall i :: 0 <= i < |events| ==> !LiftedAt(start, events, i) {
      for n := 0 to |events|
        invariant forall m :: 0 <= m <= n ==> Demanded(start, events, m)
      {
        assert !LiftedAt(start, events, n);
        NextDemand(start, events, n);
      }
    } else {
      var i :| 0 <= i < |events| && LiftedAt(start, events, i);
      NextDemand(start, events, i);
    }
  }

  predicate Demanded(start: Status, events: seq<Event>, n: nat)
    requires n <= |events|
  {
    History(start, events[..n]).state.ReauthorizationRequired?
  }

  /**
   * Event `i` lifts the demand, read off the events: a failure of the storage, or a view that counts and, when its
   * generation was there since the last view without one, says that there is no storage, else speaks of anything but
   * recovery and the lack of any record.
   */
  ghost predicate LiftedAt(start: Status, events: seq<Event>, i: nat)
    requires i < |events|
  {
    match events[i]
    case Viewed(view) =>
      && Counts(start, events, i)
      && if view.generation.Some? && Since(start, events[..i], view.generation.value) then view.state.NoStorage?
         else
           && !view.state.RefreshUncertain? && !view.state.MustReauthorize?
           && (view.state.Missing? || view.state.NotApplicable? ==>
                 view.generation.Some? && view.generation.value > 0)
    case Failure(error) => StorageFailure(error)
    case Success => false
  }

  lemma LiftedMeans(start: Status, events: seq<Event>, i: nat)
    requires i < |events|
    ensures LiftedAt(start, events, i) <==> Lifts(History(start, events[..i]), events[i])
  {
    hide Since, History;
    GenerationIsHighestSince(start, events[..i]);
  }

  lemma NextDemand(start: Status, events: seq<Event>, i: nat)
    requires i < |events|
    ensures Demanded(start, events, i) ==> (Demanded(start, events, i + 1) <==> !LiftedAt(start, events, i))
  {
    hide Lifts, After, LiftedAt;
    assert events[..i + 1][..i] == events[..i];
    if Demanded(start, events, i) {
      LiftedMeans(start, events, i);
      ReauthorizationLifted(History(start, events[..i]), events[i]);
    }
  }

  /** Views no newer than the status, acceptances and failures other than of storage never lift it. */
  predicate Gentle(e: Event, generation: Option<int>) {
    match e
    case Viewed(view) =>
      !view.state.NoStorage? && view.generation.Some? && generation.Some? && view.generation.value <= generation.value
    case Failure(error) => !StorageFailure(error)
    case Success => true
  }

  lemma {:induction false} ReauthorizationPersists(start: Status, events: seq<Event>)
    requires start.state.ReauthorizationRequired?
    requires forall i :: 0 <= i < |events| ==> Gentle(events[i], start.generation)
    ensures History(start, events).state.ReauthorizationRequired?
    ensures History(start, events).generation == start.generation
    decreases |events|
  {
    if events != [] {
      ReauthorizationPersists(start, events[..|events| - 1]);
    }
  }

  lemma {:induction false} HistoryAppends(start: Status, events: seq<Event>, more: seq<Event>)
    ensures History(start, events + more) == History(History(start, events), more)
    decreases |more|
  {
    hide After;
    if more == [] {
      assert events + more == events;
    } else {
      var n := |more| - 1;
      HistoryAppends(start, events, more[..n]);
      assert (events + more)[..|events + more| - 1] == events + more[..n];
    }
  }

  /**
   * A stored recovery mark, once viewed, demands reauthorization whatever came before, unless a newer generation was
   * there since the last view without one; and the demand stands over any gentle events that follow.
   */
  lemma RecoveryStands(start: Status, before: seq<Event>, record: Record, now: real, more: seq<Event>)
    requires record.snapshot.Some? && WellFormed(record.snapshot.value) && record.snapshot.value.recovery.Some?
    requires forall m :: Since(start, before, m) ==> m <= record.generation
    requires forall i :: 0 <= i < |more| ==> Gentle(more[i], Some(record.generation))
    ensures var end := History(start, before + [Viewed(ViewFromRecord(record, now))] + more);
            end.state.ReauthorizationRequired? && end.generation == Some(record.generation)
  {
    hide Since, Gentle;
    var view := Viewed(ViewFromRecord(record, now));
    GenerationIsHighestSince(start, before);
    assert (before + [view])[..|before|] == before;
    HistoryAppends(start, before + [view], more);
    ReauthorizationPersists(History(start, before + [view]), more);
  }

  /**
   * A failure to read the record gives a view without a generation: after it the highest one is forgotten, and an older
   * version counts again.
   */
  lemma StorageFailureForgets(start: Status, e: Error, older: View)
    requires start.generation.Some? && older.generation.Some? && older.generation.value < start.generation.value
    ensures var failed := View(NoStorage, None, Some(e), None);
            && History(start, [Viewed(failed), Viewed(older)]).generation == older.generation
            && !Highest(start, [Viewed(failed), Viewed(older)], older.generation)
    ensures History(start, [Viewed(older)]) == start
  {
    var both := [Viewed(View(NoStorage, None, Some(e), None)), Viewed(older)];
    assert both[..1] == [both[0]] && both[..0] == [] && [both[0]][..0] == [] && [Viewed(older)][..0] == [];
    assert Seen(start, both, start.generation.value);
  }

  // ---- The state -----------------------------------------------------------------------------

  /** The states a configured header or token leaves, which only a view that counts replaces. */
  predicate Configured(s: State) {
    s.Header? || s.Bearer? || s.Unsupported?
  }

  /** The history began with one of those, and no view has counted before event `i`. */
  ghost predicate Untouched(start: Status, events: seq<Event>, i: nat)
    requires i <= |events|
  {
    Configured(start.state) && forall j | 0 <= j < i :: !Counts(start, events, j)
  }

  /** The error of a failure that demands reauthorization. */
  predicate Demanding(e: Error) {
    e.Reauthorize? || e.InsufficientScope? || e.UncertainRefresh?
  }

  /** Event `j` demands reauthorization: a view that counts of a recovery mark, or a failure that says so. */
  ghost predicate DemandsAt(start: Status, events: seq<Event>, j: nat)
    requires j < |events|
  {
    match events[j]
    case Viewed(view) => Counts(start, events, j) && (view.state.RefreshUncertain? || view.state.MustReauthorize?)
    case Failure(error) => Demanding(error) && !Untouched(start, events, j)
    case Success => false
  }

  /** Reauthorization is demanded after `n` events: some event or the start did, and none has lifted it since. */
  ghost predicate DemandedBy(start: Status, events: seq<Event>, n: nat)
    requires n <= |events|
  {
    || (start.state.ReauthorizationRequired? && forall i | 0 <= i < n :: !LiftedAt(start, events, i))
    || exists j | 0 <= j < n ::
         DemandsAt(start, events, j) && forall i | j < i < n :: !LiftedAt(start, events, i)
  }

  /** What a view says by itself; `None` when it says nothing of how the server is reached. */
  function SaidByView(view: View): Option<State> {
    match view.state
    case StoredToken => Some(OAuth)
    case Expired => Some(OAuth)
    case RefreshUncertain => Some(ReauthorizationRequired)
    case MustReauthorize => Some(ReauthorizationRequired)
    case NoStorage => Some(Unavailable)
    case Registered => Some(NotLoggedIn)
    case Missing => if view.generation.Some? && view.generation.value > 0 then Some(NotLoggedIn) else None
    case NotApplicable => if view.generation.Some? && view.generation.value > 0 then Some(NotLoggedIn) else None
  }

  function SaidByFailure(error: Error): Option<State> {
    match error
    case Reauthorize => Some(ReauthorizationRequired)
    case InsufficientScope => Some(ReauthorizationRequired)
    case UncertainRefresh => Some(ReauthorizationRequired)
    case LoginRequired => Some(NotLoggedIn)
    case StorageUnavailable => Some(Unavailable)
    case StorageCorrupt => Some(Unavailable)
    case CredentialConflict => Some(Unavailable)
    case StorageBusy => Some(Unavailable)
    case OtherError(_) => None
  }

  /**
   * What event `i` makes of the state, whatever it was: a view says it when it counts, but one of the generation at
   * hand says nothing while reauthorization is demanded, except that there is no storage; a failure says it unless the
   * server is used as configured, and a missing login says nothing while reauthorization is demanded.
   */
  ghost function Said(start: Status, events: seq<Event>, i: nat): Option<State>
    requires i < |events|
  {
    match events[i]
    case Viewed(view) =>
      if !Counts(start, events, i) then None
      else if DemandedBy(start, events, i) && !view.state.NoStorage? && view.generation.Some?
              && Since(start, events[..i], view.generation.value) then None
      else SaidByView(view)
    case Failure(error) =>
      if Untouched(start, events, i) then None
      else if error.LoginRequired? && DemandedBy(start, events, i) then None
      else SaidByFailure(error)
    case Success => None
  }

  /** A view that counts and says nothing of how the server is reached. */
  ghost predicate Blank(start: Status, events: seq<Event>, i: nat)
    requires i < |events|
  {
    Counts(start, events, i) && SaidByView(events[i].view).None?
  }

  /** `last` is the last event that says what the state is. */
  ghost predicate LastWord(start: Status, events: seq<Event>, last: Option<nat>) {
    && (last.Some? ==> last.value < |events| && Said(start, events, last.value).Some?)
    && forall j | 0 <= j < |events| && (last.Some? ==> last.value < j) :: Said(start, events, j).None?
  }

  ghost predicate BlankAfter(start: Status, events: seq<Event>, last: Option<nat>, n: nat)
    requires n <= |events|
  {
    exists j | 0 <= j < n :: (last.Some? ==> last.value < j) && Blank(start, events, j)
  }

  /** A request was accepted after the last word, while the state was unknown or not logged in. */
  ghost predicate OpenToAll(start: Status, events: seq<Event>, last: Option<nat>, word: State) {
    exists j | 0 <= j < |events| ::
      && (last.Some? ==> last.value < j) && events[j].Success?
      && (word.Unknown? || word.NotLoggedIn? || BlankAfter(start, events, last, j))
  }

  /**
   * The state after a history, given the last word on it: reauthorization and anonymous use stay; a request accepted
   * while the state was unknown or not logged in makes the use anonymous; a view that says nothing makes any other
   * state but `not logged in` unknown.
   */
  ghost function Settled(start: Status, events: seq<Event>, last: Option<nat>, word: State): State {
    if word.ReauthorizationRequired? || word.Anonymous? then word
    else if OpenToAll(start, events, last, word) then Anonymous
    else if BlankAfter(start, events, last, |events|) && !word.NotLoggedIn? then Unknown
    else word
  }

  ghost function LatestWord(start: Status, events: seq<Event>, n: nat): (r: Option<nat>)
    requires n <= |events|
    ensures r.Some? ==> r.value < n && Said(start, events, r.value).Some?
    ensures forall j | 0 <= j < n && (r.Some? ==> r.value < j) :: Said(start, events, j).None?
  {
    if n == 0 then None
    else if Said(start, events, n - 1).Some? then Some(n - 1)
    else LatestWord(start, events, n - 1)
  }

  /** The word that `last` gave; before any, the state of the start. */
  ghost function WordOf(start: Status, events: seq<Event>, last: Option<nat>): State
    requires last.Some? ==> last.value < |events| && Said(start, events, last.value).Some?
  {
    if last.Some? then Said(start, events, last.value).value else start.state
  }

  lemma CountsStays(start: Status, events: seq<Event>, n: nat, i: nat)
    requires i < n <= |events|
    ensures Counts(start, events, i) <==> Counts(start, events[..n], i)
    ensures LiftedAt(start, events, i) <==> LiftedAt(start, events[..n], i)
  {
    hide Since;
    assert events[..n][..i] == events[..i];
  }

  lemma UntouchedStays(start: Status, events: seq<Event>, n: nat, i: nat)
    requires i <= n <= |events|
    ensures Untouched(start, events, i) <==> Untouched(start, events[..n], i)
  {
    hide Counts;
    forall j: nat | j < i ensures Counts(start, events, j) <==> Counts(start, events[..n], j) {
      CountsStays(start, events, n, j);
    }
  }

  lemma DemandedStays(start: Status, events: seq<Event>, n: nat, i: nat)
    requires i <= n <= |events|
    ensures DemandedBy(start, events, i) <==> DemandedBy(start, events[..n], i)
  {
    hide Counts, LiftedAt, Untouched;
    forall j: nat | j < i
      ensures LiftedAt(start, events, j) <==> LiftedAt(start, events[..n], j)
      ensures DemandsAt(start, events, j) <==> DemandsAt(start, events[..n], j)
    {
      CountsStays(start, events, n, j);
      UntouchedStays(start, events, n, j);
    }
  }

  lemma SaidStays(start: Status, events: seq<Event>, n: nat, i: nat)
    requires i < n <= |events|
    ensures Said(start, events, i) == Said(start, events[..n], i)
    ensures Blank(start, events, i) <==> Blank(start, events[..n], i)
  {
    hide Counts, DemandedBy, Untouched, Since, LiftedAt;
    assert events[..n][..i] == events[..i];
    CountsStays(start, events, n, i);
    UntouchedStays(start, events, n, i);
    DemandedStays(start, events, n, i);
  }

  /** What the events say of the demand and of the configured states is so, at every moment. */
  lemma {:induction false} ReadRightly(start: Status, events: seq<Event>, n: nat)
    requires n <= |events|
    ensures var status := History(start, events[..n]);
            && (DemandedBy(start, events, n) <==> status.state.ReauthorizationRequired?)
            && (Untouched(start, events, n) <==> Configured(status.state))
    decreases n
  {
    hide Counts, LiftedAt, DemandsAt, After;
    if n == 0 {
      assert events[..0] == [];
    } else {
      var i := n - 1;
      ReadRightly(start, events, i);
      assert events[..n][..i] == events[..i];
      DemandStep(start, events, i);
      var before := DemandedBy(start, events, i);
      assert DemandedBy(start, events, n) <==> DemandsAt(start, events, i) || (before && !LiftedAt(start, events, i));
    }
  }

  lemma DemandStep(start: Status, events: seq<Event>, i: nat)
    requires i < |events|
    requires Untouched(start, events, i) <==> Configured(History(start, events[..i]).state)
    ensures var status := History(start, events[..i]);
            var next := After(status, events[i]);
            && (next.state.ReauthorizationRequired? <==>
                  DemandsAt(start, events, i)
                  || (status.state.ReauthorizationRequired? && !LiftedAt(start, events, i)))
            && (Configured(next.state) <==> Configured(status.state) && !Counts(start, events, i))
  {
    hide Since, History, Untouched, LiftedAt, Lifts;
    GenerationIsHighestSince(start, events[..i]);
    LiftedMeans(start, events, i);
    var status := History(start, events[..i]);
    if status.state.ReauthorizationRequired? {
      ReauthorizationLifted(status, events[i]);
      NotLiftedByDemand(start, events, i);
    }
  }

  lemma NotLiftedByDemand(start: Status, events: seq<Event>, i: nat)
    requires i < |events|
    ensures DemandsAt(start, events, i) ==> !LiftedAt(start, events, i)
  {
    hide Since, Counts, Untouched;
  }

  /** One more event makes of the state what it says, or else what acceptances and blank views make of it. */
  lemma StateStep(start: Status, events: seq<Event>, i: nat)
    requires i < |events|
    ensures var was := History(start, events[..i]).state;
            After(History(start, events[..i]), events[i]).state ==
            if Said(start, events, i).Some? then Said(start, events, i).value
            else if events[i].Success? && (was.Unknown? || was.NotLoggedIn?) then Anonymous
            else if Blank(start, events, i)
                    && !was.Anonymous? && !was.NotLoggedIn? && !was.ReauthorizationRequired? then Unknown
            else was
  {
    hide Since, History, Untouched, DemandedBy;
    GenerationIsHighestSince(start, events[..i]);
    ReadRightly(start, events, i);
  }

  lemma BlankGrows(start: Status, events: seq<Event>, last: Option<nat>)
    requires events != [] && (last.Some? ==> last.value < |events| - 1)
    requires forall i | 0 <= i < |events| - 1 :: Blank(start, events, i) <==> Blank(start, events[..|events| - 1], i)
    ensures var n := |events| - 1;
            && (forall m: nat | m <= n ::
                  BlankAfter(start, events, last, m) <==> BlankAfter(start, events[..n], last, m))
            && (BlankAfter(start, events, last, |events|) <==>
                  BlankAfter(start, events, last, n) || Blank(start, events, n))
  {
    hide Blank;
    var n := |events| - 1;
    var before := events[..n];
    forall m: nat | m <= n ensures BlankAfter(start, events, last, m) <==> BlankAfter(start, before, last, m) {
      assert forall j: nat | j < m :: Blank(start, events, j) <==> Blank(start, before, j);
      if BlankAfter(start, events, last, m) {
        var j :| 0 <= j < m && (last.Some? ==> last.value < j) && Blank(start, events, j);
        assert Blank(start, before, j);
      }
    }
  }

  lemma OpenGrows(start: Status, events: seq<Event>, last: Option<nat>, word: State)
    requires events != [] && (last.Some? ==> last.value < |events| - 1)
    requires forall m: nat | m < |events| ::
               BlankAfter(start, events, last, m) <==> BlankAfter(start, events[..|events| - 1], last, m)
    ensures var n := |events| - 1;
            OpenToAll(start, events, last, word) <==>
            || OpenToAll(start, events[..n], last, word)
            || (events[n].Success? && (word.Unknown? || word.NotLoggedIn? || BlankAfter(start, events, last, n)))
  {
    hide BlankAfter;
  }

  lemma SettledGrows(start: Status, events: seq<Event>, last: Option<nat>, word: State)
    requires events != [] && (last.Some? ==> last.value < |events| - 1)
    requires forall i | 0 <= i < |events| - 1 :: Blank(start, events, i) <==> Blank(start, events[..|events| - 1], i)
    ensures var n := |events| - 1;
            var was := Settled(start, events[..n], last, word);
            Settled(start, events, last, word) ==
            if events[n].Success? && (was.Unknown? || was.NotLoggedIn?) then Anonymous
            else if Blank(start, events, n)
                    && !was.Anonymous? && !was.NotLoggedIn? && !was.ReauthorizationRequired? then Unknown
            else was
  {
    hide Blank, BlankAfter, OpenToAll;
    var n := |events| - 1;
    BlankGrows(start, events, last);
    OpenGrows(start, events, last, word);
    BlankIsView(start, events, n);
    if OpenToAll(start, events[..n], last, word) {
      OpenByBlank(start, events[..n], last, word);
    }
  }

  lemma BlankIsView(start: Status, events: seq<Event>, i: nat)
    requires i < |events|
    ensures Blank(start, events, i) ==> !events[i].Success?
  {
  }

  lemma OpenByBlank(start: Status, events: seq<Event>, last: Option<nat>, word: State)
    requires OpenToAll(start, events, last, word)
    ensures word.Unknown? || word.NotLoggedIn? || BlankAfter(start, events, last, |events|)
  {
    hide Blank;
  }

  /**
   * The state over every history, read off the events: the last word on it, and what acceptances and views that say
   * nothing have made of it since. If there was no word, the state of the start takes its place.
   */
  lemma {:induction false} StateIsLastWord(start: Status, events: seq<Event>, last: Option<nat>)
    requires LastWord(start, events, last)
    ensures History(start, events).state == Settled(start, events, last, WordOf(start, events, last))
    decreases |events|
  {
    hide After, Said, Blank;
    if events != [] {
      var n := |events| - 1;
      var before := events[..n];
      forall i: nat | i < n
        ensures Said(start, events, i) == Said(start, before, i)
        ensures Blank(start, events, i) <==> Blank(start, before, i)
      {
        SaidStays(start, events, n, i);
      }
      StateStep(start, events, n);
      if last != Some(n) {
        StateIsLastWord(start, before, last);
        SettledGrows(start, events, last, WordOf(start, events, last));
      } else {
        assert !OpenToAll(start, events, last, WordOf(start, events, last));
      }
    }
  }

  // ---- The error -----------------------------------------------------------------------------

  /** The state as `StateIsLastWord` reads it off the events. */
  ghost function StateRead(start: Status, events: seq<Event>): State {
    var last := LatestWord(start, events, |events|);
    Settled(start, events, last, WordOf(start, events, last))
  }

  lemma StateIsRead(start: Status, events: seq<Event>)
    ensures History(start, events).state == StateRead(start, events)
  {
    hide Said, Settled, WordOf;
    StateIsLastWord(start, events, LatestWord(start, events, |events|));
  }

  /**
   * What event `i` makes of the error: a failure its own; an acceptance none, unless the server is unsupported; a view
   * that counts its own, or none, except that without one it keeps the error of the generation at hand while the
   * storage is available.
   */
  ghost function ErrorSaid(start: Status, events: seq<Event>, i: nat): Option<Option<Error>>
    requires i < |events|
  {
    match events[i]
    case Failure(error) => Some(Some(error))
    case Success => if StateRead(start, events[..i]).Unsupported? then None else Some(None)
    case Viewed(view) =>
      if !Counts(start, events, i) then None
      else if view.error.None? && view.generation.Some? && Since(start, events[..i], view.generation.value)
              && !StateRead(start, events[..i]).Unavailable? then None
      else Some(view.error)
  }

  ghost predicate LastErrorWord(start: Status, events: seq<Event>, last: Option<nat>) {
    && (last.Some? ==> last.value < |events| && ErrorSaid(start, events, last.value).Some?)
    && forall j | 0 <= j < |events| && (last.Some? ==> last.value < j) :: ErrorSaid(start, events, j).None?
  }

  lemma ErrorStays(start: Status, events: seq<Event>, n: nat, i: nat)
    requires i < n <= |events|
    ensures ErrorSaid(start, events, i) == ErrorSaid(start, events[..n], i)
  {
    hide StateRead, Since;
    assert events[..n][..i] == events[..i];
    CountsStays(start, events, n, i);
  }

  lemma ErrorStep(start: Status, events: seq<Event>, i: nat)
    requires i < |events|
    ensures var status := History(start, events[..i]);
            After(status, events[i]).error ==
            if ErrorSaid(start, events, i).Some? then ErrorSaid(start, events, i).value else status.error
  {
    hide Since, History, StateRead;
    GenerationIsHighestSince(start, events[..i]);
    StateIsRead(start, events[..i]);
  }

  /** The error over every history is what the last event that says anything of it makes of it. */
  lemma {:induction false} ErrorIsLastWord(start: Status, events: seq<Event>, last: Option<nat>)
    requires LastErrorWord(start, events, last)
    ensures History(start, events).error ==
            if last.Some? then ErrorSaid(start, events, last.value).value else start.error
    decreases |events|
  {
    hide After, ErrorSaid;
    if events != [] {
      var n := |events| - 1;
      ErrorStep(start, events, n);
      if last != Some(n) {
        forall i: nat | i < n ensures ErrorSaid(start, events, i) == ErrorSaid(start, events[..n], i) {
          ErrorStays(start, events, n, i);
        }
        ErrorIsLastWord(start, events[..n], last);
      }
    }
  }

  // ---- Stored records ------------------------------------------------------------------------

  /**
   * What the status says right after the view of a stored record, unless a newer generation was there since the last
   * view without one: the record's generation, an expiry only for a token, and expired exactly when that has passed.
   * Reauthorization is required for a recovery mark, or when it was demanded and the generation was there; otherwise
   * a token means OAuth, and a record without one, or the removal of one, that no one is logged in.
   */
  lemma RecordReported(start: Status, before: seq<Event>, record: Record, now: real)
    requires record.snapshot.Some? ==> WellFormed(record.snapshot.value)
    requires forall m :: Since(start, before, m) ==> m <= record.generation
    ensures var end := History(start, before + [Viewed(ViewFromRecord(record, now))]);
            var token := if record.snapshot.Some? then record.snapshot.value.token else None;
            && end.generation == Some(record.generation)
            && end.expiresAt == (if token.Some? then token.value.expiresAt else None)
            && (end.credentials == Some(Expired) <==> end.expiresAt.Some? && end.expiresAt.value <= now)
            && (end.credentials == Some(StoredToken) || end.credentials == Some(Expired) <==> token.Some?)
            && (end.credentials == Some(Missing) <==> record.snapshot.None?)
            && (if (record.snapshot.Some? && record.snapshot.value.recovery.Some?)
                   || (DemandedBy(start, before, |before|) && Since(start, before, record.generation))
                then end.state.ReauthorizationRequired?
                else (token.Some? ==> end.state.OAuth?)
                     && (token.None? && (record.snapshot.Some? || record.generation > 0) ==> end.state.NotLoggedIn?))
  {
    hide Since, DemandedBy, Untouched, Observed, ViewFromRecord, History, Counts;
    var status := History(start, before);
    GenerationIsHighestSince(start, before);
    ReadRightly(start, before, |before|);
    assert before[..|before|] == before;
    var view := ViewFromRecord(record, now);
    OneMore(start, before, Viewed(view));
    RecordObserved(status, record, now);
    assert status.generation == Some(record.generation) <==> Since(start, before, record.generation);
  }

  lemma OneMore(start: Status, before: seq<Event>, e: Event)
    ensures History(start, before + [e]) == After(History(start, before), e)
  {
    hide After;
    assert (before + [e])[..|before|] == before;
  }

  /** What viewing a record makes of a status that knows no newer generation. */
  lemma RecordObserved(status: Status, record: Record, now: real)
    requires record.snapshot.Some? ==> WellFormed(record.snapshot.value)
    requires status.generation.Some? ==> status.generation.value <= record.generation
    ensures var end := Observed(ViewFromRecord(record, now), status);
            var token := if record.snapshot.Some? then record.snapshot.value.token else None;
            && end.generation == Some(record.generation)
            && end.expiresAt == (if token.Some? then token.value.expiresAt else None)
            && (end.credentials == Some(Expired) <==> end.expiresAt.Some? && end.expiresAt.value <= now)
            && (end.credentials == Some(StoredToken) || end.credentials == Some(Expired) <==> token.Some?)
            && (end.credentials == Some(Missing) <==> record.snapshot.None?)
            && (if (record.snapshot.Some? && record.snapshot.value.recovery.Some?)
                   || (status.state.ReauthorizationRequired? && status.generation == Some(record.generation))
                then end.state.ReauthorizationRequired?
                else (token.Some? ==> end.state.OAuth?)
                     && (token.None? && (record.snapshot.Some? || record.generation > 0) ==> end.state.NotLoggedIn?))
  {
  }
}
