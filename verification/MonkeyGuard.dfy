/** The foreground guard: counting misses, and what it calls a loss of the foreground. */
module MonkeyGuard {
  import opened Text

  /** One focus sample: it failed, it saw the wanted package, or it saw another one at a clock reading. */
  datatype Sample = Broken | Hit(now: int, later: int) | Miss(now: int)

  datatype Action = Observe | Stop | Fail

  datatype Trigger = Observed | LostForeground

  datatype Guard = Guard(
    misses: nat, hits: nat, lastOk: Option<int>, lastMiss: Option<int>, armed: bool,
    graceUntil: Option<int>, trigger: Option<Trigger>, losses: nat)

  /** The window opened before a segment's guard starts, at clock reading `now`. */
  function Windowed(g: Guard, now: int, grace: int): Guard {
    g.(misses := 0, lastMiss := None, graceUntil := Some(now + grace))
  }

  predicate InGrace(g: Guard, now: int) {
    !g.armed && g.graceUntil.Some? && g.graceUntil.value != 0 && now < g.graceUntil.value
  }

  /** The guard after one sample, and whether it triggered a stop. */
  function Sampled(g: Guard, s: Sample, threshold: nat, grace: int, action: Action): (Guard, bool) {
    match s
    case Broken => (g, false)
    case Hit(now, later) =>
      var cleared := if g.trigger == Some(Observed) then g.(trigger := None) else g;
      (Windowed(cleared.(hits := g.hits + 1, lastOk := Some(now), armed := true), later, grace), false)
    case Miss(now) =>
      if InGrace(g, now) then (g, false)
      else
        var missed := g.(armed := true, misses := g.misses + 1, lastMiss := Some(now));
        if missed.misses < threshold then (missed, false)
        else if action.Observe? then
          if missed.trigger == Some(Observed) then (missed, false)
          else (missed.(losses := g.losses + 1, trigger := Some(Observed)), false)
        else (missed.(losses := g.losses + 1, trigger := Some(LostForeground)), true)
  }

  /** The guard over a list of samples; it takes no more once it has stopped the session. */
  function Watched(g: Guard, samples: seq<Sample>, threshold: nat, grace: int, action: Action): (Guard, bool) {
    if samples == [] then (g, false)
    else
      var (before, stopped) := Watched(g, samples[..|samples| - 1], threshold, grace, action);
      if stopped then (before, true) else Sampled(before, samples[|samples| - 1], threshold, grace, action)
  }

  class MonkeySession {
    var misses: nat
    var hits: nat
    var lastOk: Option<int>
    var lastMiss: Option<int>
    var armed: bool
    var graceUntil: Option<int>
    var trigger: Option<Trigger>
    var losses: nat
    const grace: int

    function State(): Guard
      reads this
    {
      Guard(misses, hits, lastOk, lastMiss, armed, graceUntil, trigger, losses)
    }

    constructor (grace: int)
      ensures State() == Guard(0, 0, None, None, false, None, None, 0) && this.grace == grace
    {
      misses, hits, lastOk, lastMiss, armed, graceUntil, trigger, losses := 0, 0, None, None, false, None, None, 0;
      this.grace := grace;
    }

    method ResetGuardWindow(now: int)
      modifies this
      ensures State() == Windowed(old(State()), now, grace)
    {
      misses := 0;
      lastMiss := None;
      graceUntil := Some(now + grace);
    }

    method MarkForegroundOk(now: int, later: int)
      modifies this
      ensures State() ==
              Windowed(old(State()).(hits := old(hits) + 1, lastOk := Some(now), armed := true), later, grace)
    {
      hits := hits + 1;
      misses := 0;
      lastOk := Some(now);
      armed := true;
      ResetGuardWindow(later);
    }

    method RecordGuardMiss(now: int)
      modifies this
      ensures State() == old(State()).(armed := true, misses := old(misses) + 1, lastMiss := Some(now))
    {
      armed := true;
      misses := misses + 1;
      lastMiss := Some(now);
    }

    /** The sampling loop, until the samples end with the process or the guard stops the session. */
    method GuardForeground(samples: seq<Sample>, threshold: nat, action: Action) returns (stopped: bool, taken: nat)
      modifies this
      ensures taken <= |samples|
      ensures (State(), stopped) == Watched(old(State()), samples[..taken], threshold, grace, action)
      ensures !stopped ==> taken == |samples|
      ensures stopped ==> taken > 0 && !Watched(old(State()), samples[..taken - 1], threshold, grace, action).1
      ensures Opened(old(State())) && threshold >= 1 && action == Observe ==>
                !stopped && losses == old(losses) + |Episodes(Trail(samples, old(graceUntil)), threshold)|
      ensures Opened(old(State())) && threshold >= 1 && action != Observe ==>
                && (stopped <==> Episodes(Trail(samples[..taken], old(graceUntil)), threshold) != {})
                && (stopped ==> Episodes(Trail(samples[..taken - 1], old(graceUntil)), threshold) == {})
    {
      hide Trail, Episodes, Ignored;
      if Opened(State()) && threshold >= 1 {
        EpisodesAlong(State(), samples, threshold, grace, action);
      }
      assert samples[..|samples|] == samples;
      taken := 0;
      stopped := false;
      while taken < |samples|
        invariant taken <= |samples| && !stopped
        invariant (State(), false) == Watched(old(State()), samples[..taken], threshold, grace, action)
      {
        var sample := samples[taken];
        assert samples[..taken + 1][..taken] == samples[..taken];
        taken := taken + 1;
        match sample {
          case Broken =>
          case Hit(now, later) =>
            if trigger == Some(Observed) {
              trigger := None;
            }
            MarkForegroundOk(now, later);
          case Miss(now) =>
            if !armed && graceUntil.Some? && graceUntil.value != 0 && now < graceUntil.value {
              continue;
            }
            RecordGuardMiss(now);
            if misses < threshold {
              continue;
            }
            if action == Observe {
              if trigger != Some(Observed) {
                losses := losses + 1;
                trigger := Some(Observed);
              }
              continue;
            }
            losses := losses + 1;
            trigger := Some(LostForeground);
            return true, taken;
        }
      }
    }
  }

  // ---- Episodes ------------------------------------------------------------------------------

  /** A miss before the guard is armed and inside the grace window does not count. */
  predicate Ignored(s: Sample, armed: bool, graceUntil: Option<int>) {
    s.Miss? && !armed && graceUntil.Some? && graceUntil.value != 0 && s.now < graceUntil.value
  }

  /** The counted samples, in order: `true` for a hit, `false` for a miss. The first counted sample arms the guard. */
  function Trail(samples: seq<Sample>, graceUntil: Option<int>): seq<bool> {
    if samples == [] then []
    else
      var before := Trail(samples[..|samples| - 1], graceUntil);
      var s := samples[|samples| - 1];
      if s.Broken? || Ignored(s, before != [], graceUntil) then before else before + [s.Hit?]
  }

  /** At `a` a maximal run of misses begins. */
  predicate RunStarts(trail: seq<bool>, a: nat) {
    a < |trail| && !trail[a] && (a > 0 ==> trail[a - 1])
  }

  /** At `a` begins a maximal run of at least `threshold` misses. */
  predicate Episode(trail: seq<bool>, threshold: nat, a: nat) {
    RunStarts(trail, a) && a + threshold <= |trail| && forall i :: a <= i < a + threshold ==> !trail[i]
  }

  function Episodes(trail: seq<bool>, threshold: nat): set<nat> {
    set a: nat | a < |trail| && Episode(trail, threshold, a)
  }

  /** The length of the run of misses at the end. */
  function LastRun(trail: seq<bool>): nat {
    if trail == [] || trail[|trail| - 1] then 0 else 1 + LastRun(trail[..|trail| - 1])
  }

  lemma {:induction false} LastRunEnds(trail: seq<bool>)
    ensures var n := LastRun(trail);
            && n <= |trail| && (forall i :: |trail| - n <= i < |trail| ==> !trail[i])
            && (n < |trail| ==> trail[|trail| - n - 1])
  {
    if trail != [] && !trail[|trail| - 1] {
      LastRunEnds(trail[..|trail| - 1]);
    }
  }

  lemma LastRunGrows(trail: seq<bool>, hit: bool)
    ensures LastRun(trail + [hit]) == if hit then 0 else LastRun(trail) + 1
  {
    assert (trail + [hit])[..|trail|] == trail;
  }

  /** A sample that is a hit, or a miss that does not bring the last run to the threshold, opens no episode. */
  lemma EpisodesGrow(trail: seq<bool>, hit: bool, threshold: nat)
    requires threshold >= 1
    ensures var longer := trail + [hit];
            Episodes(longer, threshold) ==
            Episodes(trail, threshold) + if !hit && LastRun(longer) == threshold then {|longer| - threshold} else {}
    ensures !hit && LastRun(trail + [hit]) == threshold ==> |trail| + 1 - threshold !in Episodes(trail, threshold)
  {
    hide LastRun;
    var longer := trail + [hit];
    assert longer[..|trail|] == trail;
    LastRunEnds(longer);
    forall a: nat | a < |trail|
      ensures Episode(trail, threshold, a) ==> Episode(longer, threshold, a)
      ensures Episode(longer, threshold, a) && a + threshold <= |trail| ==> Episode(trail, threshold, a)
    {
      assert RunStarts(longer, a) == RunStarts(trail, a);
    }
    if !hit && LastRun(longer) == threshold {
      var a := |longer| - threshold;
      assert Episode(longer, threshold, a) by {
        assert a > 0 ==> longer[a - 1];
      }
    }
    forall a: nat | Episode(longer, threshold, a) && a + threshold == |longer|
      ensures !hit && LastRun(longer) == threshold
    {
      var n := LastRun(longer);
      assert !longer[|longer| - 1];
      assert n < |longer| ==> longer[|longer| - n - 1];
      assert a > 0 ==> longer[a - 1];
    }
  }

  /** The guard at the start of a segment. */
  predicate Opened(g: Guard) {
    g.misses == 0 && g.trigger != Some(Observed) && !g.armed
  }

  ghost predicate Follows(g: Guard, before: Guard, trail: seq<bool>, threshold: nat, graceUntil: Option<int>) {
    && g.armed == (trail != []) && g.misses == LastRun(trail)
    && (trail == [] ==> g.graceUntil == graceUntil)
    && g.losses == before.losses + |Episodes(trail, threshold)|
    && (g.trigger == Some(Observed) <==> LastRun(trail) >= threshold)
  }

  /**
   * Guard episodes: observing, the guard counts exactly the maximal runs of counted misses that reach the threshold,
   * where failed samples are ignored, hits end a run, and misses inside the grace window of an unarmed guard do not
   * count.
   */
  lemma {:induction false} ObserveCountsEpisodes(g: Guard, samples: seq<Sample>, threshold: nat, grace: int)
    requires Opened(g) && threshold >= 1
    ensures var (after, stopped) := Watched(g, samples, threshold, grace, Observe);
            && !stopped && after.losses == g.losses + |Episodes(Trail(samples, g.graceUntil), threshold)|
            && Follows(after, g, Trail(samples, g.graceUntil), threshold, g.graceUntil)
    decreases |samples|
  {
    hide Sampled, Ignored;
    if samples == [] {
      assert Episodes([], threshold) == {};
    } else {
      hide Episodes, LastRun;
      var n := |samples| - 1;
      ObserveCountsEpisodes(g, samples[..n], threshold, grace);
      ObserveStep(Watched(g, samples[..n], threshold, grace, Observe).0, samples[n], g,
                  Trail(samples[..n], g.graceUntil), threshold, grace);
    }
  }

  lemma ObserveStep(before: Guard, s: Sample, g: Guard, trail: seq<bool>, threshold: nat, grace: int)
    requires Follows(before, g, trail, threshold, g.graceUntil) && threshold >= 1
    ensures var (after, stopped) := Sampled(before, s, threshold, grace, Observe);
            var longer := if s.Broken? || Ignored(s, trail != [], g.graceUntil) then trail else trail + [s.Hit?];
            !stopped && Follows(after, g, longer, threshold, g.graceUntil)
  {
    hide Episodes, LastRun;
    EpisodesGrow(trail, s.Hit?, threshold);
    LastRunGrows(trail, s.Hit?);
  }

  /** Samples that failed, or saw another package before `until`. */
  predicate Early(samples: seq<Sample>, until: int) {
    forall i | 0 <= i < |samples| :: samples[i].Broken? || (samples[i].Miss? && samples[i].now < until)
  }

  /**
   * A window opened at `now` clears the misses; while the guard is unarmed, what is missed within the grace that was
   * given leaves no trace, and the first miss from its end on counts and arms the guard.
   */
  lemma {:induction false} WindowIgnoresEarlyMisses(g: Guard, now: int, grace: int, samples: seq<Sample>,
                                                    threshold: nat, action: Action, late: int)
    requires !g.armed && now + grace != 0 && Early(samples, now + grace) && late >= now + grace && threshold >= 2
    ensures var window := g.(misses := 0, lastMiss := None, graceUntil := Some(now + grace));
            && Windowed(g, now, grace) == window
            && Watched(Windowed(g, now, grace), samples, threshold, grace, action) == (window, false)
            && Watched(Windowed(g, now, grace), samples + [Miss(late)], threshold, grace, action) ==
               (window.(armed := true, misses := 1, lastMiss := Some(late)), false)
    decreases |samples|
  {
    var all := samples + [Miss(late)];
    assert all[..|samples|] == samples;
    if samples != [] {
      WindowIgnoresEarlyMisses(g, now, grace, samples[..|samples| - 1], threshold, action, late);
    }
  }

  /** A guard that stops has stopped at an episode; one that has not has seen none. */
  ghost predicate Holds(after: Guard, stopped: bool, g: Guard, trail: seq<bool>, threshold: nat) {
    && (stopped <==> Episodes(trail, threshold) != {})
    && after.losses == g.losses + (if stopped then 1 else 0)
    && (!stopped ==> after.armed == (trail != []) && after.misses == LastRun(trail) < threshold
                     && (trail == [] ==> after.graceUntil == g.graceUntil))
  }

  lemma StopStep(before: Guard, s: Sample, g: Guard, trail: seq<bool>, threshold: nat, grace: int, action: Action)
    requires Holds(before, false, g, trail, threshold) && threshold >= 1 && !action.Observe?
    ensures var (after, stopped) := Sampled(before, s, threshold, grace, action);
            var longer := if s.Broken? || Ignored(s, trail != [], g.graceUntil) then trail else trail + [s.Hit?];
            Holds(after, stopped, g, longer, threshold)
  {
    hide Episodes, LastRun;
    EpisodesGrow(trail, s.Hit?, threshold);
    LastRunGrows(trail, s.Hit?);
  }

  /**
   * Stopping or failing, the guard triggers at the first sample that completes a run of `threshold` counted misses, and
   * never otherwise.
   */
  lemma {:induction false} StopAtFirstEpisode(g: Guard, samples: seq<Sample>, threshold: nat, grace: int,
                                              action: Action)
    requires Opened(g) && threshold >= 1 && !action.Observe?
    ensures var (after, stopped) := Watched(g, samples, threshold, grace, action);
            && (stopped <==> Episodes(Trail(samples, g.graceUntil), threshold) != {})
            && after.losses == g.losses + (if stopped then 1 else 0)
            && Holds(after, stopped, g, Trail(samples, g.graceUntil), threshold)
    decreases |samples|
  {
    hide Sampled;
    if samples == [] {
      assert Episodes([], threshold) == {};
    } else {
      hide Episodes, LastRun, Ignored;
      var n := |samples| - 1;
      StopAtFirstEpisode(g, samples[..n], threshold, grace, action);
      var (before, stopped) := Watched(g, samples[..n], threshold, grace, action);
      var trail := Trail(samples[..n], g.graceUntil);
      if stopped {
        EpisodesGrow(trail, samples[n].Hit?, threshold);
      } else {
        StopStep(before, samples[n], g, trail, threshold, grace, action);
      }
    }
  }

  /** Both results for every prefix of the samples. */
  lemma EpisodesAlong(g: Guard, samples: seq<Sample>, threshold: nat, grace: int, action: Action)
    requires Opened(g) && threshold >= 1
    ensures forall n :: 0 <= n <= |samples| ==>
              var (after, stopped) := Watched(g, samples[..n], threshold, grace, action);
              var episodes := Episodes(Trail(samples[..n], g.graceUntil), threshold);
              if action.Observe? then !stopped && after.losses == g.losses + |episodes| else stopped <==> episodes != {}
  {
    hide Watched, Trail, Episodes;
    forall n | 0 <= n <= |samples|
      ensures var (after, stopped) := Watched(g, samples[..n], threshold, grace, action);
              var episodes := Episodes(Trail(samples[..n], g.graceUntil), threshold);
              if action.Observe? then !stopped && after.losses == g.losses + |episodes| else stopped <==> episodes != {}
    {
      if action.Observe? {
        ObserveCountsEpisodes(g, samples[..n], threshold, grace);
      } else {
        StopAtFirstEpisode(g, samples[..n], threshold, grace, action);
      }
    }
  }
}
