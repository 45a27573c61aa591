/** A monkey session: event accounting over segments, the foreground guard, and the final state. */
module Monkey {
  import opened Text

  datatype Status = Idle | Preparing | Active | Stopping | Finished | Stopped | Failed

  /** A line of monkey output, as the two patterns of the reader classify it. */
  datatype Line = Progress(injected: nat) | EventLine | OtherLine

  /** An exception by the name of its type and its text. */
  datatype Exc = Exc(kind: string, text: string)

  /** What other tasks may do to the session while its runner waits. */
  datatype Happening =
    | Output(line: Line)
    | StopCalled
    | GuardStops(reason: string, error: Option<string>, guardReason: string)
    | StartFails(exc: Exc) // the call that started the runner raises after it, and finalizes the session

  /** A suspension of the runner: what happens meanwhile, and whether it ends by raising. */
  datatype Pause = Pause(happenings: seq<Happening>, raises: Option<Exc>)

  /**
   * One segment as its surroundings decide it: linking its process, announcing it, its run with an exit code, its
   * settling and its report.
   */
  datatype Segment = Segment(
    link: Pause, announce: Pause, run: Pause, rc: Option<int>, settle: Pause, report: Pause)

  /** Counters of the current segment. */
  datatype Count = Count(target: int, observed: int, reported: int)

  predicate Within(c: Count) {
    0 <= c.observed <= c.target && 0 <= c.reported <= c.target
  }

  function Heard(c: Count, line: Line): Count {
    match line
    case Progress(n) => c.(reported := Min(c.target, Max(c.reported, n)))
    case EventLine => if c.observed >= c.target then c else c.(observed := c.observed + 1)
    case OtherLine => c
  }

  function HeardAll(c: Count, lines: seq<Line>): Count {
    if lines == [] then c else Heard(HeardAll(c, lines[..|lines| - 1]), lines[|lines| - 1])
  }

  function Consumed(c: Count, rc: Option<int>, stopped: bool): int {
    var seen := Max(c.reported, c.observed);
    var consumed := if rc == Some(0) && !stopped then Max(seen, c.target) else seen;
    Max(0, Min(c.target, consumed))
  }

  /** The largest progress report, cut at the target. */
  function TopReport(lines: seq<Line>): nat {
    if lines == [] then 0
    else
      var last := lines[|lines| - 1];
      if last.Progress? then Max(TopReport(lines[..|lines| - 1]), last.injected) else TopReport(lines[..|lines| - 1])
  }

  function EventLines(lines: seq<Line>): nat {
    if lines == [] then 0
    else EventLines(lines[..|lines| - 1]) + if lines[|lines| - 1].EventLine? then 1 else 0
  }

  /**
   * Over any output a segment reports its largest progress figure and observes its event lines, both cut at the
   * target.
   */
  lemma {:induction false} HeardExactly(target: nat, lines: seq<Line>)
    ensures HeardAll(Count(target, 0, 0), lines) ==
            Count(target, Min(target, EventLines(lines)), Min(target, TopReport(lines)))
  {
    if lines != [] {
      HeardExactly(target, lines[..|lines| - 1]);
    }
  }

  /** More output never lowers a count, and no count passes the target. */
  lemma {:induction false} HeardGrows(c: Count, lines: seq<Line>)
    requires Within(c)
    ensures var d := HeardAll(c, lines);
            Within(d) && d.target == c.target && c.observed <= d.observed && c.reported <= d.reported
  {
    if lines != [] {
      HeardGrows(c, lines[..|lines| - 1]);
    }
  }

  // ---- A session -----------------------------------------------------------------------------

  /** What a session holds at a moment. */
  datatype Record = Record(
    status: Status, stopRequested: bool, finalized: bool, returnCode: Option<int>, error: Option<string>,
    resultReason: Option<string>, guardReason: Option<string>,
    events: int,                  // the configured number of events
    eventsDone: int, eventsRemaining: int, segmentIndex: int,
    count: Count, segmentStartDone: int, segmentStopRequested: bool,
    finalizations: nat,           // how often the final artifacts were collected and the result remembered
    startFailed: bool)            // finalized by the call that started the runner

  /** Python's `or` with a default text. */
  function Or(s: Option<string>, default: string): Option<string> {
    if Truthy(s) then s else Some(default)
  }

  /** How the runner and the starting call name an error. */
  function Named(exc: Exc): Option<string> {
    Some(exc.kind + ": " + exc.text)
  }

  function StopAsked(r: Record): Record {
    if r.finalized then r
    else r.(stopRequested := true, resultReason := Or(r.resultReason, "stop_requested"), status := Stopping)
  }

  function ProcStopped(r: Record, reason: string, err: Option<string>, guard: string, stopSession: bool): Record {
    if r.finalized then r
    else r.(
      segmentStopRequested := true, status := Stopping, stopRequested := r.stopRequested || stopSession,
      resultReason := if stopSession || reason != "" then Some(reason) else r.resultReason,
      error := if err.Some? then err else r.error,
      guardReason := if guard != "" then Some(guard) else r.guardReason)
  }

  /** Error before stop before completion; an exit code that is missing counts as zero when nothing remains. */
  function Resolved(r: Record): Record {
    if Truthy(r.error) then r.(status := Failed, resultReason := Or(r.resultReason, "runtime_error"))
    else if r.stopRequested then r.(status := Stopped, resultReason := Or(r.resultReason, "stop_requested"))
    else if r.returnCode == Some(0) || (r.eventsRemaining <= 0 && r.returnCode == None) then
      r.(status := Finished, resultReason := Or(r.resultReason, "completed"), returnCode := Some(0))
    else r.(status := Failed, resultReason := Or(r.resultReason, "monkey_exit_nonzero"))
  }

  function Closed(r: Record, rc: Option<int>, err: Option<string>): Record {
    if r.finalized then r
    else
      Resolved(r.(
        finalized := true, finalizations := r.finalizations + 1,
        returnCode := if rc.Some? then rc else r.returnCode,
        error := if err.Some? then err else r.error))
  }

  function StartFailed(r: Record, exc: Exc): Record {
    Closed(r.(resultReason := Or(r.resultReason, "start_failed"), startFailed := true), None, Named(exc))
  }

  function Met(r: Record, h: Happening): Record {
    match h
    case Output(line) => r.(count := Heard(r.count, line))
    case StopCalled => StopAsked(r)
    case GuardStops(reason, err, guard) => ProcStopped(r, reason, err, guard, true)
    case StartFails(exc) => StartFailed(r, exc)
  }

  function Waited(r: Record, happenings: seq<Happening>): Record {
    if happenings == [] then r else Met(Waited(r, happenings[..|happenings| - 1]), happenings[|happenings| - 1])
  }

  function Launched(r: Record): Record {
    r.(segmentIndex := r.segmentIndex + 1, count := Count(r.eventsRemaining, 0, 0), segmentStartDone := r.eventsDone,
       segmentStopRequested := false)
  }

  function Counted(r: Record, rc: Option<int>): Record {
    var done := Min(r.events, r.eventsDone + Consumed(r.count, rc, r.segmentStopRequested));
    r.(eventsDone := done, eventsRemaining := Max(0, r.events - done))
  }

  /** One pass of the runner's loop: `more` when it comes back to the loop head, `err` when a pause raised. */
  datatype Pass = Pass(record: Record, more: bool, err: Option<string>)

  function Segmented(r: Record, s: Segment): Pass {
    var linked := Waited(Launched(r), s.link.happenings);
    if s.link.raises.Some? then Pass(linked, false, Named(s.link.raises.value))
    else
      var announced := Waited(linked.(status := Active), s.announce.happenings);
      if s.announce.raises.Some? then Pass(announced, false, Named(s.announce.raises.value))
      else
        var exited := Waited(announced, s.run.happenings);
        if s.run.raises.Some? then Pass(exited, false, Named(s.run.raises.value))
        else Concluded(exited, s)
  }

  /** The end of a pass, from the exit of the process on. */
  function Concluded(r: Record, s: Segment): Pass {
    var settled := Waited(r.(returnCode := s.rc), s.settle.happenings);
    if s.settle.raises.Some? then Pass(settled, false, Named(s.settle.raises.value))
    else
      var reported := Waited(Counted(settled, s.rc), s.report.happenings);
      if s.report.raises.Some? then Pass(reported, false, Named(s.report.raises.value))
      else if reported.stopRequested then Pass(reported, false, None)
      else if s.rc != Some(0) then
        Pass(reported.(resultReason := Or(reported.resultReason, "monkey_exit_nonzero")), false, None)
      else Pass(reported, true, None)
  }

  /** The runner up to its loop. */
  function Begun(r: Record, opening: Pause): Record {
    Waited(r.(eventsRemaining := Max(0, r.events - r.eventsDone), status := Active), opening.happenings)
  }

  /** A whole run of a fresh session: no second segment is ever needed. */
  function Ran(r: Record, opening: Pause, s: Segment): Record {
    var begun := Begun(r, opening);
    if opening.raises.Some? then Closed(begun, begun.returnCode, Named(opening.raises.value))
    else if begun.stopRequested || begun.eventsRemaining <= 0 then Closed(begun, begun.returnCode, None)
    else
      var pass := Segmented(begun, s);
      Closed(pass.record, pass.record.returnCode, pass.err)
  }

  // ---- What every run keeps ------------------------------------------------------------------

  /** Counts stay inside the segment, a stopped segment means a stopped session, and the totals add up. */
  predicate Steady(r: Record) {
    && Within(r.count)
    && (r.segmentStopRequested ==> r.stopRequested)
    && 0 <= r.eventsDone && 0 <= r.eventsRemaining && r.eventsDone + r.eventsRemaining == r.events && r.events >= 1
  }

  /**
   * Until the runner finalizes it, the session is finalized only by a failed start, which leaves it failed; a segment
   * that the runner launches after that marks it as running again.
   */
  predicate Ongoing(r: Record) {
    && r.finalizations == (if r.finalized then 1 else 0) && (r.startFailed <==> r.finalized)
    && (r.finalized ==> Truthy(r.error) && (r.status == Failed || r.status == Active))
  }

  /** What goes on while the runner waits leaves its totals, its segment and its exit code alone. */
  predicate Aside(r: Record, q: Record) {
    && q.events == r.events && q.eventsDone == r.eventsDone && q.eventsRemaining == r.eventsRemaining
    && q.segmentIndex == r.segmentIndex && q.segmentStartDone == r.segmentStartDone
    && q.returnCode == r.returnCode && q.count.target == r.count.target
    && q.count.observed >= r.count.observed && q.count.reported >= r.count.reported
    && (r.stopRequested ==> q.stopRequested) && (r.finalized ==> q.finalized)
  }

  lemma {:induction false} WaitingKeeps(r: Record, happenings: seq<Happening>)
    requires Steady(r) && Ongoing(r)
    ensures var q := Waited(r, happenings); Steady(q) && Ongoing(q) && Aside(r, q)
    decreases |happenings|
  {
    hide Met, Within;
    if happenings != [] {
      var n := |happenings| - 1;
      WaitingKeeps(r, happenings[..n]);
      MeetingKeeps(Waited(r, happenings[..n]), happenings[n]);
    }
  }

  lemma MeetingKeeps(r: Record, h: Happening)
    requires Steady(r) && Ongoing(r)
    ensures var q := Met(r, h); Steady(q) && Ongoing(q) && Aside(r, q)
  {
  }

  /** A fresh session, as the runner finds it. */
  predicate Fresh(r: Record) {
    Steady(r) && Ongoing(r) && r.eventsDone == 0 && r.returnCode == None
  }

  lemma CountingKeeps(r: Record, rc: Option<int>)
    requires Steady(r) && r.eventsDone == 0 && r.count.target == r.eventsRemaining
    ensures var q := Counted(r, rc);
            && Steady(q)
            && q == r.(eventsDone := q.eventsDone, eventsRemaining := r.events - q.eventsDone)
            && q.eventsDone == if rc == Some(0) && !r.segmentStopRequested then r.events
                               else Max(r.count.reported, r.count.observed)
  {
  }

  lemma ConclusionKeeps(r: Record, s: Segment)
    requires Steady(r) && Ongoing(r) && r.eventsDone == 0 && r.count.target == r.eventsRemaining
    ensures var p := Concluded(r, s);
            && Steady(p.record) && Ongoing(p.record) && p.record.segmentIndex == r.segmentIndex
            && p.record.returnCode == s.rc
            && (p.err.Some? ==> Truthy(p.err) && !p.more)
            && (p.more ==> !p.record.stopRequested && s.rc == Some(0) && p.record.eventsRemaining == 0)
            && (!p.more && p.err.None? && !p.record.stopRequested ==> s.rc != Some(0))
            && (s.rc != Some(0) ==> p.record.eventsDone <= Max(p.record.count.reported, p.record.count.observed))
  {
    hide Met, Waited, Closed, Counted, Within;
    var exited := r.(returnCode := s.rc);
    WaitingKeeps(exited, s.settle.happenings);
    var settled := Waited(exited, s.settle.happenings);
    CountingKeeps(settled, s.rc);
    WaitingKeeps(Counted(settled, s.rc), s.report.happenings);
  }

  /** One pass keeps the totals, and one that returns to the loop head leaves nothing to do. */
  lemma SegmentKeeps(r: Record, s: Segment)
    requires Fresh(r) && !r.stopRequested && r.eventsRemaining > 0
    ensures var p := Segmented(r, s);
            && Steady(p.record) && Ongoing(p.record) && p.record.segmentIndex == r.segmentIndex + 1
            && (p.err.Some? ==> Truthy(p.err) && !p.more)
            && (p.more ==> !p.record.stopRequested && p.record.returnCode == Some(0) && p.record.eventsRemaining == 0)
            && (!p.more && p.err.None? && !p.record.stopRequested ==>
                  p.record.returnCode != Some(0) && p.record.returnCode == s.rc)
            && (p.record.returnCode != Some(0) ==>
                  p.record.eventsDone <= Max(p.record.count.reported, p.record.count.observed))
  {
    hide Met, Waited, Closed, Concluded;
    WaitingKeeps(Launched(r), s.link.happenings);
    var linked := Waited(Launched(r), s.link.happenings);
    WaitingKeeps(linked.(status := Active), s.announce.happenings);
    var announced := Waited(linked.(status := Active), s.announce.happenings);
    WaitingKeeps(announced, s.run.happenings);
    var exited := Waited(announced, s.run.happenings);
    if s.link.raises.None? && s.announce.raises.None? && s.run.raises.None? {
      ConclusionKeeps(exited, s);
    }
  }

  /**
   * The end of every run, whatever is output, whoever stops it before or meanwhile, whether the starting call fails,
   * and wherever the runner raises: at most one segment is launched, done and remaining events add up, the session is
   * finalized once, and it is called finished only if nothing went wrong, no one asked it to stop, and all events are
   * done. A run that exits with another code counts no more than was seen. Only after a failed start can the session
   * be left marked as running.
   */
  lemma RunEnds(r: Record, opening: Pause, s: Segment)
    requires Fresh(r)
    ensures var q := Ran(r, opening, s);
            && q.finalized && q.finalizations == 1 && Steady(q)
            && r.segmentIndex <= q.segmentIndex <= r.segmentIndex + 1
            && (q.status == Finished ==>
                  !Truthy(q.error) && !q.stopRequested && q.eventsDone == q.events && q.returnCode == Some(0))
            && (q.status == Stopped <==> !Truthy(q.error) && q.stopRequested)
            && (q.status == Finished || q.status == Stopped || q.status == Failed
                || (q.startFailed && q.status == Active))
            && (q.returnCode.Some? && q.returnCode != Some(0) ==>
                  q.eventsDone <= Max(q.count.reported, q.count.observed))
  {
    hide Met, Waited, Segmented;
    WaitingKeeps(r.(eventsRemaining := Max(0, r.events - r.eventsDone), status := Active), opening.happenings);
    var begun := Begun(r, opening);
    if opening.raises.None? && !begun.stopRequested && begun.eventsRemaining > 0 {
      SegmentKeeps(begun, s);
    }
  }

  // ---- Why a run ends as it does -------------------------------------------------------------

  /** What happens from the pause on, if it does not raise. */
  function Then(p: Pause, later: seq<Happening>): seq<Happening> {
    p.happenings + if p.raises.Some? then [] else later
  }

  /** What happens while a segment goes on, up to the pause that raises. */
  function InSegment(s: Segment): seq<Happening> {
    Then(s.link, Then(s.announce, Then(s.run, Then(s.settle, Then(s.report, [])))))
  }

  /** What happens while the runner goes on: only to the opening when that raises or the session is stopped by then. */
  function InRun(r: Record, opening: Pause, s: Segment): seq<Happening> {
    if opening.raises.Some? || StopsEarly(r, opening) then opening.happenings
    else opening.happenings + InSegment(s)
  }

  /** The session was to be stopped, or someone stops it before a failed start finalizes it. */
  predicate StopsEarly(r: Record, opening: Pause) {
    r.stopRequested
    || exists i | 0 <= i < |opening.happenings| ::
         Halts(opening.happenings[i]) && forall j | 0 <= j < i :: !opening.happenings[j].StartFails?
  }

  /** The first of two. */
  function First<T>(a: Option<T>, b: Option<T>): Option<T> {
    if a.Some? then a else b
  }

  function RaisedInSegment(s: Segment): Option<Exc> {
    First(s.link.raises,
          First(s.announce.raises, First(s.run.raises, First(s.settle.raises, s.report.raises))))
  }

  /** The exception that ends the runner. */
  function RaisedInRun(r: Record, opening: Pause, s: Segment): Option<Exc> {
    if opening.raises.Some? || StopsEarly(r, opening) then opening.raises else RaisedInSegment(s)
  }

  predicate Halts(h: Happening) {
    h.StopCalled? || h.GuardStops?
  }

  /** The error that happenings leave: the first failed start's, else the last one a guard gave, else the one before. */
  function Blamed(before: Option<string>, hs: seq<Happening>): Option<string> {
    if hs == [] then before
    else
      var last := hs[|hs| - 1];
      var front := hs[..|hs| - 1];
      if exists i | 0 <= i < |front| :: front[i].StartFails? then Blamed(before, front)
      else if last.StartFails? then Named(last.exc)
      else if last.GuardStops? && last.error.Some? then last.error
      else Blamed(before, front)
  }

  predicate Fails(hs: seq<Happening>) {
    exists i | 0 <= i < |hs| :: hs[i].StartFails?
  }

  predicate Halted(hs: seq<Happening>) {
    exists i | 0 <= i < |hs| :: Halts(hs[i])
  }

  /** What the happenings say of the error, the stop request and a failed start. */
  predicate Explained(r: Record, q: Record, hs: seq<Happening>) {
    if r.finalized then q.finalized && q.error == r.error
    else
      && (q.finalized <==> Fails(hs))
      && (!q.finalized ==> (q.stopRequested <==> r.stopRequested || Halted(hs)))
      && q.error == Blamed(r.error, hs)
  }

  lemma OneMore(front: seq<Happening>, h: Happening)
    ensures Fails(front + [h]) <==> Fails(front) || h.StartFails?
    ensures Halted(front + [h]) <==> Halted(front) || Halts(h)
  {
    hide Halts;
    var hs := front + [h];
    assert hs[|front|] == h && forall i :: 0 <= i < |front| ==> hs[i] == front[i];
  }

  lemma {:induction false} WaitingExplained(r: Record, hs: seq<Happening>)
    ensures Explained(r, Waited(r, hs), hs)
    decreases |hs|
  {
    hide Fails, Halted, Resolved;
    if hs == [] {
      NothingHappened();
    } else {
      var front, last := hs[..|hs| - 1], hs[|hs| - 1];
      WaitingExplained(r, front);
      assert hs == front + [last];
      OneMore(front, last);
      MeetingExplained(Waited(r, front), last);
      BlamedAfter(r.error, front, last);
    }
  }

  lemma NothingHappened()
    ensures !Fails([]) && !Halted([])
  {
  }

  lemma BlamedAfter(before: Option<string>, front: seq<Happening>, last: Happening)
    ensures Blamed(before, front + [last]) ==
            if Fails(front) then Blamed(before, front)
            else if last.StartFails? then Named(last.exc)
            else if last.GuardStops? && last.error.Some? then last.error
            else Blamed(before, front)
  {
    assert (front + [last])[..|front|] == front;
  }

  lemma MeetingExplained(r: Record, h: Happening)
    ensures var q := Met(r, h);
            && (r.finalized ==> q.finalized && q.error == r.error)
            && (!r.finalized ==>
                  && (q.finalized <==> h.StartFails?)
                  && (!q.finalized ==> (q.stopRequested <==> r.stopRequested || Halts(h)))
                  && q.error == if h.StartFails? then Named(h.exc)
                                else if h.GuardStops? && h.error.Some? then h.error else r.error)
  {
  }

  lemma {:induction false} BlamedTwice(before: Option<string>, a: seq<Happening>, b: seq<Happening>)
    ensures Blamed(before, a + b) == if Fails(a) then Blamed(before, a) else Blamed(Blamed(before, a), b)
    ensures Fails(a + b) <==> Fails(a) || Fails(b)
    ensures Halted(a + b) <==> Halted(a) || Halted(b)
    decreases |b|
  {
    hide Fails, Halted, Blamed;
    if b == [] {
      assert a + b == a;
      NothingHappened();
      assert Blamed(Blamed(before, a), []) == Blamed(before, a) by { BlamedNobody(Blamed(before, a)); }
    } else {
      var n := |b| - 1;
      BlamedTwice(before, a, b[..n]);
      assert a + b == (a + b[..n]) + [b[n]] && b == b[..n] + [b[n]];
      OneMore(a + b[..n], b[n]);
      OneMore(b[..n], b[n]);
      BlamedAfter(before, a + b[..n], b[n]);
      BlamedAfter(Blamed(before, a), b[..n], b[n]);
    }
  }

  lemma BlamedNobody(before: Option<string>)
    ensures Blamed(before, []) == before
  {
  }

  /** The same error, stop request and finalization. */
  predicate Alike(r: Record, q: Record) {
    r.error == q.error && r.stopRequested == q.stopRequested && r.finalized == q.finalized
  }

  lemma ExplainedOn(r: Record, q: Record, a: seq<Happening>, from: Record, b: seq<Happening>)
    requires Explained(r, q, a) && Alike(q, from)
    ensures Explained(r, Waited(from, b), a + b)
  {
    hide Fails, Halted, Blamed;
    WaitingExplained(from, b);
    BlamedTwice(r.error, a, b);
  }

  /** What a pass hands over, before the session is closed. */
  lemma SegmentExplained(r: Record, s: Segment)
    ensures var p := Segmented(r, s);
            && Explained(r, p.record, InSegment(s))
            && p.err == if RaisedInSegment(s).Some? then Named(RaisedInSegment(s).value) else None
  {
    hide Explained, Waited, Concluded, Named;
    var happened := s.link.happenings;
    StartExplained(r);
    ExplainedOn(r, r, [], Launched(r), happened);
    assert [] + happened == happened;
    var linked := Waited(Launched(r), happened);
    if s.link.raises.None? {
      ExplainedOn(r, linked, happened, linked.(status := Active), s.announce.happenings);
      var announced := Waited(linked.(status := Active), s.announce.happenings);
      happened := happened + s.announce.happenings;
      if s.announce.raises.None? {
        ExplainedOn(r, announced, happened, announced, s.run.happenings);
        happened := happened + s.run.happenings;
        if s.run.raises.None? {
          ConclusionExplained(r, Waited(announced, s.run.happenings), happened, s);
          assert InSegment(s) == happened + Then(s.settle, Then(s.report, []));
        } else {
          assert InSegment(s) == happened;
        }
      } else {
        assert InSegment(s) == happened;
      }
    } else {
      assert InSegment(s) == happened;
    }
  }

  lemma ConclusionExplained(r: Record, exited: Record, happened: seq<Happening>, s: Segment)
    requires Explained(r, exited, happened)
    ensures var p := Concluded(exited, s);
            var raised := First(s.settle.raises, s.report.raises);
            && Explained(r, p.record, happened + Then(s.settle, Then(s.report, [])))
            && p.err == if raised.Some? then Named(raised.value) else None
  {
    hide Explained, Waited, Counted, Named;
    var coded := exited.(returnCode := s.rc);
    ExplainedOn(r, exited, happened, coded, s.settle.happenings);
    var settled := Waited(coded, s.settle.happenings);
    var later := happened + s.settle.happenings;
    if s.settle.raises.None? {
      assert Alike(settled, Counted(settled, s.rc)) by { CountingIsAlike(settled, s.rc); }
      ExplainedOn(r, settled, later, Counted(settled, s.rc), s.report.happenings);
      var reported := Waited(Counted(settled, s.rc), s.report.happenings);
      later := later + s.report.happenings;
      ReasonIsAlike(r, reported, later, "monkey_exit_nonzero");
      assert happened + Then(s.settle, Then(s.report, [])) == later;
    } else {
      assert happened + Then(s.settle, Then(s.report, [])) == later;
    }
  }

  lemma CountingIsAlike(r: Record, rc: Option<int>)
    ensures Alike(r, Counted(r, rc))
  {
  }

  lemma ReasonIsAlike(r: Record, q: Record, hs: seq<Happening>, reason: string)
    requires Explained(r, q, hs)
    ensures Explained(r, q.(resultReason := Or(q.resultReason, reason)), hs)
  {
    hide Blamed, Fails, Halted;
  }

  lemma StartExplained(r: Record)
    ensures Explained(r, r, [])
  {
    assert !Fails([]) && !Halted([]);
  }

  /** Whether the opening stops the session is read off what happens in it. */
  lemma {:induction false} OpeningStops(r: Record, hs: seq<Happening>)
    requires !r.finalized
    ensures Waited(r, hs).stopRequested <==> StopsEarly(r, Pause(hs, None))
    decreases |hs|
  {
    hide Resolved;
    if hs != [] {
      var front, last := hs[..|hs| - 1], hs[|hs| - 1];
      OpeningStops(r, front);
      WaitingExplained(r, front);
      MeetingStops(Waited(r, front), last);
      var a, b := Pause(front, None), Pause(hs, None);
      assert forall i :: 0 <= i < |front| ==> front[i] == hs[i];
      if !r.stopRequested && StopsEarly(r, b) {
        var i :| 0 <= i < |hs| && Halts(hs[i]) && forall j | 0 <= j < i :: !hs[j].StartFails?;
        if i < |front| {
          assert Halts(front[i]);
        }
      }
    }
  }

  lemma MeetingStops(r: Record, h: Happening)
    ensures Met(r, h).stopRequested <==> r.stopRequested || (!r.finalized && Halts(h))
  {
  }

  /**
   * Why a run ends as it does. The starting call failed exactly if that happened while the runner went on; otherwise
   * the session is stopped exactly if it was to be or someone stopped it, and its error is the exception that ended
   * the runner, or else the last one a guard gave, or else the one there was before. After a failed start it is the
   * first one of those.
   */
  lemma RunExplained(r: Record, opening: Pause, s: Segment)
    requires Fresh(r) && !r.finalized
    ensures var q, hs, raised := Ran(r, opening, s), InRun(r, opening, s), RaisedInRun(r, opening, s);
            && (q.startFailed <==> Fails(hs))
            && (!q.startFailed ==> (q.stopRequested <==> r.stopRequested || Halted(hs)))
            && q.error == (if !q.startFailed && raised.Some? then Some(raised.value.kind + ": " + raised.value.text)
                           else Blamed(r.error, hs))
            && (!q.startFailed ==>
                  (q.segmentIndex == r.segmentIndex + 1 <==> opening.raises.None? && !StopsEarly(r, opening)))
  {
    hide Fails, Halted, Blamed, Waited, Segmented, StopsEarly, InSegment, RaisedInSegment, Closed, Within;
    var ready := r.(eventsRemaining := Max(0, r.events - r.eventsDone), status := Active);
    assert ready == r.(status := Active);
    WaitingKeeps(ready, opening.happenings);
    WaitingExplained(ready, opening.happenings);
    OpeningStops(ready, opening.happenings);
    SameStops(r, ready, opening);
    var begun := Begun(r, opening);
    if opening.raises.None? && !begun.stopRequested {
      SegmentKeeps(begun, s);
      SegmentExplained(begun, s);
      BlamedTwice(r.error, opening.happenings, InSegment(s));
      var p := Segmented(begun, s);
      ClosingKeeps(p.record, p.record.returnCode, p.err);
    } else {
      ClosingKeeps(begun, begun.returnCode, if opening.raises.Some? then Named(opening.raises.value) else None);
    }
  }

  lemma ClosingKeeps(r: Record, rc: Option<int>, err: Option<string>)
    ensures var q := Closed(r, rc, err);
            && q.finalized && q.startFailed == r.startFailed && q.stopRequested == r.stopRequested
            && q.segmentIndex == r.segmentIndex
            && q.error == if !r.finalized && err.Some? then err else r.error
  {
  }

  lemma SameStops(r: Record, q: Record, opening: Pause)
    requires q.stopRequested == r.stopRequested
    ensures StopsEarly(r, opening) <==> StopsEarly(q, Pause(opening.happenings, None))
  {
  }

  predicate Calm(p: Pause) {
    p.raises.None? && forall i | 0 <= i < |p.happenings| :: p.happenings[i].Output?
  }

  function Lines(hs: seq<Happening>): seq<Line> {
    if hs == [] then []
    else
      Lines(hs[..|hs| - 1]) + if hs[|hs| - 1].Output? then [hs[|hs| - 1].line] else []
  }

  lemma {:induction false} CalmWaiting(r: Record, p: Pause)
    requires Calm(p)
    ensures Waited(r, p.happenings) == r.(count := HeardAll(r.count, Lines(p.happenings)))
    decreases |p.happenings|
  {
    if p.happenings != [] {
      var n := |p.happenings| - 1;
      var front, last := Pause(p.happenings[..n], None), p.happenings[n];
      CalmWaiting(r, front);
      assert last.Output?;
      var lines := Lines(p.happenings);
      assert lines == Lines(front.happenings) + [last.line];
      assert lines[..|lines| - 1] == Lines(front.happenings);
    }
  }

  lemma {:induction false} HeardOn(c: Count, a: seq<Line>, b: seq<Line>)
    ensures HeardAll(HeardAll(c, a), b) == HeardAll(c, a + b)
    decreases |b|
  {
    if b == [] {
      assert a + b == a;
    } else {
      assert (a + b)[..|a + b| - 1] == a + b[..|b| - 1];
      HeardOn(c, a, b[..|b| - 1]);
    }
  }

  /** The lines a segment has put out when it is counted. */
  function Output(s: Segment): seq<Line> {
    Lines(s.link.happenings) + Lines(s.announce.happenings) + Lines(s.run.happenings) + Lines(s.settle.happenings)
  }

  /** All of a segment that exits with zero, else the larger of its progress and its event lines, cut at the target. */
  function Accomplished(target: nat, s: Segment): nat {
    if s.rc == Some(0) then target
    else Min(target, Max(TopReport(Output(s)), EventLines(Output(s))))
  }

  /**
   * A run that nothing disturbs: the session finishes exactly if the process exits with zero, or without a code when
   * all events were seen; any other code fails it, for that reason. It counts what was seen, and all if the code is
   * zero. The error is the one there was before.
   */
  lemma CalmRun(r: Record, opening: Pause, s: Segment)
    requires Fresh(r) && !r.finalized && !Truthy(r.error) && !r.stopRequested
    requires Calm(opening) && Calm(s.link) && Calm(s.announce) && Calm(s.run) && Calm(s.settle) && Calm(s.report)
    ensures var q := Ran(r, opening, s);
            var all := Accomplished(r.events, s) == r.events;
            && q.error == r.error && !q.stopRequested && !q.startFailed && q.segmentIndex == r.segmentIndex + 1
            && q.eventsDone == Accomplished(r.events, s) && q.eventsRemaining == r.events - q.eventsDone
            && q.status == (if s.rc == Some(0) || (s.rc == None && all) then Finished else Failed)
            && q.returnCode == (if s.rc == None && all then Some(0) else s.rc)
            && q.resultReason ==
               Or(r.resultReason, if s.rc == Some(0) then "completed" else "monkey_exit_nonzero")
  {
    hide Waited, HeardAll, Lines, TopReport, EventLines, Segmented;
    HeardGrows(r.count, Lines(opening.happenings));
    var begun := r.(status := Active, count := HeardAll(r.count, Lines(opening.happenings)));
    CalmWaiting(r.(status := Active), opening);
    assert r.(eventsRemaining := Max(0, r.events - r.eventsDone), status := Active) == r.(status := Active);
    assert Begun(r, opening) == begun;
    CalmSegment(begun, s);
  }

  lemma CalmSegment(r: Record, s: Segment)
    requires Steady(r) && r.eventsDone == 0 && !r.stopRequested
    requires Calm(s.link) && Calm(s.announce) && Calm(s.run) && Calm(s.settle) && Calm(s.report)
    ensures var p := Segmented(r, s);
            && p.err == None && p.more == (s.rc == Some(0))
            && p.record == Launched(r).(
                 status := Active, returnCode := s.rc, count := p.record.count,
                 eventsDone := Accomplished(r.events, s), eventsRemaining := r.events - Accomplished(r.events, s),
                 resultReason := if s.rc == Some(0) then r.resultReason
                                 else Or(r.resultReason, "monkey_exit_nonzero"))
  {
    hide Waited, HeardAll, Lines, TopReport, EventLines;
    var c0 := Launched(r).count;
    CalmWaiting(Launched(r), s.link);
    var linked := Waited(Launched(r), s.link.happenings).(status := Active);
    CalmWaiting(linked, s.announce);
    var announced := Waited(linked, s.announce.happenings);
    CalmWaiting(announced, s.run);
    var exited := Waited(announced, s.run.happenings).(returnCode := s.rc);
    CalmWaiting(exited, s.settle);
    HeardOn(c0, Lines(s.link.happenings), Lines(s.announce.happenings));
    HeardOn(c0, Lines(s.link.happenings) + Lines(s.announce.happenings), Lines(s.run.happenings));
    HeardOn(c0, Lines(s.link.happenings) + Lines(s.announce.happenings) + Lines(s.run.happenings),
            Lines(s.settle.happenings));
    HeardExactly(r.events, Output(s));
    var settled := Waited(exited, s.settle.happenings);
    assert settled.count == HeardAll(c0, Output(s));
    CalmWaiting(Counted(settled, s.rc), s.report);
  }

  class Session {
    var status: Status
    var stopRequested: bool
    var finalized: bool
    var returnCode: Option<int>
    var error: Option<string>
    var resultReason: Option<string>
    var guardReason: Option<string>
    const events: int
    var eventsDone: int
    var eventsRemaining: int
    var segmentIndex: int
    var count: Count
    var segmentStartDone: int
    var segmentStopRequested: bool
    ghost var finalizations: nat
    ghost var startFailed: bool

    ghost function Now(): Record
      reads this
    {
      Record(status, stopRequested, finalized, returnCode, error, resultReason, guardReason, events, eventsDone,
             eventsRemaining, segmentIndex, count, segmentStartDone, segmentStopRequested, finalizations, startFailed)
    }

    /** A session as `start` leaves it; the configuration keeps at least one event. */
    constructor (events: int)
      ensures this.events == Max(1, events) && Fresh(Now()) && segmentIndex == 0
      ensures !finalized && !stopRequested && error == None && resultReason == None && status == Preparing
    {
      status, stopRequested, finalized := Preparing, false, false;
      returnCode, error, resultReason, guardReason := None, None, None, None;
      this.events := Max(1, events);
      eventsDone, eventsRemaining := 0, Max(1, events);
      segmentIndex, count, segmentStartDone, segmentStopRequested := 0, Count(0, 0, 0), 0, false;
      finalizations, startFailed := 0, false;
    }

    method HandleMonkeyOutput(line: Line)
      modifies this`count
      ensures count == Heard(old(count), line)
    {
      match line {
        case Progress(injected) =>
          count := count.(reported := Min(count.target, Max(count.reported, injected)));
        case EventLine =>
          if count.observed < count.target {
            count := count.(observed := count.observed + 1);
          }
        case OtherLine =>
      }
    }

    /** Stops a segment, and with `stopSession`, as every caller passes, its session. */
    method StopProc(reason: string, err: Option<string>, guard: string, stopSession: bool := true)
      modifies this
      ensures Now() == ProcStopped(old(Now()), reason, err, guard, stopSession)
    {
      if finalized {
        return;
      }
      segmentStopRequested := true;
      status := Stopping;
      if stopSession {
        stopRequested := true;
        resultReason := Some(reason);
      } else if reason != "" {
        resultReason := Some(reason);
      }
      if err.Some? {
        error := err;
      }
      if guard != "" {
        guardReason := Some(guard);
      }
    }

    method Stop()
      modifies this
      ensures Now() == StopAsked(old(Now()))
    {
      if finalized {
        return;
      }
      stopRequested := true;
      resultReason := Or(resultReason, "stop_requested");
      status := Stopping;
    }

    method ResolveFinalState()
      modifies this
      ensures Now() == Resolved(old(Now()))
    {
      if Truthy(error) {
        status := Failed;
        resultReason := Or(resultReason, "runtime_error");
        return;
      }
      if stopRequested {
        status := Stopped;
        resultReason := Or(resultReason, "stop_requested");
        return;
      }
      if eventsRemaining <= 0 && (returnCode == None || returnCode == Some(0)) {
        status := Finished;
        resultReason := Or(resultReason, "completed");
        returnCode := if returnCode == None then Some(0) else returnCode;
        return;
      }
      if returnCode == Some(0) {
        status := Finished;
        resultReason := Or(resultReason, "completed");
        return;
      }
      status := Failed;
      resultReason := Or(resultReason, "monkey_exit_nonzero");
    }

    /** Takes effect once: later calls find the session finalized and leave it alone. */
    method Finalize(rc: Option<int>, err: Option<string>)
      modifies this
      ensures Now() == Closed(old(Now()), rc, err)
    {
      hide Resolved;
      if finalized {
        return;
      }
      finalized := true;
      if rc.Some? {
        returnCode := rc;
      }
      if err.Some? {
        error := err;
      }
      finalizations := finalizations + 1;
      ResolveFinalState();
    }

    /** The starting call raised: the session is finalized as failed, whatever the runner is doing. */
    method FailStart(exc: Exc)
      modifies this
      ensures Now() == StartFailed(old(Now()), exc)
    {
      resultReason := Or(resultReason, "start_failed");
      startFailed := true;
      Finalize(None, Named(exc));
    }

    method Meet(h: Happening)
      modifies this
      ensures Now() == Met(old(Now()), h)
    {
      match h {
        case Output(line) => HandleMonkeyOutput(line);
        case StopCalled => Stop();
        case GuardStops(reason, err, guard) => StopProc(reason, err, guard);
        case StartFails(exc) => FailStart(exc);
      }
    }

    method Wait(p: Pause) returns (raised: Option<Exc>)
      modifies this
      ensures Now() == Waited(old(Now()), p.happenings) && raised == p.raises
    {
      hide Met;
      for i := 0 to |p.happenings|
        invariant Now() == Waited(old(Now()), p.happenings[..i])
      {
        Meet(p.happenings[i]);
        assert p.happenings[..i + 1][..i] == p.happenings[..i];
      }
      assert p.happenings[..|p.happenings|] == p.happenings;
      raised := p.raises;
    }

    method LaunchSegment(target: nat, segment: Segment) returns (raised: Option<Exc>)
      requires target == eventsRemaining
      modifies this
      ensures raised == First(segment.link.raises, segment.announce.raises)
      ensures var linked := Waited(Launched(old(Now())), segment.link.happenings);
              Now() == if segment.link.raises.Some? then linked
                       else Waited(linked.(status := Active), segment.announce.happenings)
    {
      hide Waited;
      segmentIndex := segmentIndex + 1;
      count := Count(target, 0, 0);
      segmentStartDone := eventsDone;
      segmentStopRequested := false;
      raised := Wait(segment.link);
      if raised.Some? {
        return;
      }
      status := Active;
      raised := Wait(segment.announce);
    }

    /** Adds to the totals what the segment consumed. */
    method CountSegment(rc: Option<int>)
      modifies this`eventsDone, this`eventsRemaining
      ensures Now() == Counted(old(Now()), rc)
    {
      var consumed := Consumed(count, rc, segmentStopRequested);
      eventsDone := Min(events, eventsDone + consumed);
      eventsRemaining := Max(0, events - eventsDone);
    }

    /** The end of a pass: the segment is counted and reported, and the loop goes on if nothing speaks against it. */
    method Conclude(segment: Segment) returns (more: bool, err: Option<string>)
      modifies this
      ensures Pass(Now(), more, err) == Concluded(old(Now()), segment)
    {
      hide Waited, Counted;
      returnCode := segment.rc;
      var raised := Wait(segment.settle);
      if raised.Some? { return false, Named(raised.value); }
      CountSegment(segment.rc);
      raised := Wait(segment.report);
      if raised.Some? { return false, Named(raised.value); }
      if stopRequested { return false, None; }
      if segment.rc != Some(0) {
        resultReason := Or(resultReason, "monkey_exit_nonzero");
        return false, None;
      }
      return true, None;
    }

    /** One pass of the runner's loop: `more` when it comes back to the loop head, `err` when a pause raised. */
    method RunSegment(segment: Segment) returns (more: bool, err: Option<string>)
      requires eventsRemaining >= 0
      modifies this
      ensures Pass(Now(), more, err) == Segmented(old(Now()), segment)
    {
      hide Waited, Concluded;
      var raised := LaunchSegment(eventsRemaining, segment);
      if raised.Some? { return false, Named(raised.value); }
      raised := Wait(segment.run);
      if raised.Some? { return false, Named(raised.value); }
      more, err := Conclude(segment);
    }

    /** The run of a fresh session to its end. */
    method Runner(opening: Pause, segments: nat -> Segment)
      requires Fresh(Now())
      modifies this
      ensures Now() == Ran(old(Now()), opening, segments(0))
    {
      hide Waited, Segmented, Closed;
      eventsRemaining := Max(0, events - eventsDone);
      status := Active;
      var err: Option<string> := None;
      WaitingKeeps(Now(), opening.happenings);
      var raised := Wait(opening);
      ghost var begun := Now();
      assert begun == Begun(old(Now()), opening);
      if raised.Some? {
        Finalize(returnCode, Named(raised.value));
        return;
      }
      var launched, more := 0, true;
      while more && !stopRequested && eventsRemaining > 0
        invariant 0 <= launched <= 1
        invariant launched == 0 ==> more && err == None && Now() == begun
        invariant launched == 1 ==>
                    && !begun.stopRequested && begun.eventsRemaining > 0
                    && Pass(Now(), more, err) == Segmented(begun, segments(0))
                    && (more ==> eventsRemaining == 0)
        decreases 1 - launched
      {
        SegmentKeeps(begun, segments(0));
        more, err := RunSegment(segments(launched));
        launched := launched + 1;
      }
      Finalize(returnCode, err);
    }
  }
}
