/** The phase machine that turns tool output lines into one start event and one close event. */
module Gates {
  import opened Text

  type Bucket<V> = map<string, V>

  /** The predicates and collectors of one tool; what they look for in a line is left open. */
  datatype GateSpec<!V> = GateSpec(
    name: string,
    belongs: string -> bool,
    startWhen: string -> bool,
    startExtract: (Bucket<V>, string) -> Bucket<V>,
    startReady: Bucket<V> -> bool,
    closeWhen: string -> bool,
    closeExtract: (Bucket<V>, string) -> Bucket<V>,
    closeReady: string -> bool,
    say: string -> V) // a text as a dictionary value

  datatype Phase = SeekStart | Starting | Running | Closing | Done

  datatype GateState<V> = GateState(
    mode: Phase, start: Bucket<V>, close: Bucket<V>, startEmitted: bool, closeEmitted: bool)

  /** An emitted dictionary, named by the phase that emitted it. */
  datatype Emission<V> = StartEvent(fields: Bucket<V>) | CloseEvent(fields: Bucket<V>)

  /** The text after the first " | ", stripped; the whole line when there is none. */
  function PickValue(line: string): string {
    var at := Separator(line, 0);
    if at.Some? then Strip(line[at.value + 3..]) else line
  }

  predicate SeparatorAt(line: string, i: nat) {
    i + 3 <= |line| && line[i..i + 3] == " | "
  }

  /** The first separator at or after `from`. */
  function Separator(line: string, from: nat): (r: Option<nat>)
    ensures r.Some? ==> from <= r.value && SeparatorAt(line, r.value)
    ensures r.Some? ==> forall i: nat :: from <= i < r.value ==> !SeparatorAt(line, i)
    ensures r.None? ==> forall i: nat :: from <= i ==> !SeparatorAt(line, i)
    decreases |line| - from
  {
    if from + 3 > |line| then None
    else if SeparatorAt(line, from) then Some(from)
    else Separator(line, from + 1)
  }

  function Tidy<V>(b: Bucket<V>): Bucket<V> {
    b - {"_p", "_comb_on", "_comb"}
  }

  /** The phase and the tool, which a collected field of the same name overwrites. */
  function Tagged<V>(spec: GateSpec<V>, phase: string, b: Bucket<V>): Bucket<V> {
    map["phase" := spec.say(phase), "tool" := spec.say(spec.name)] + b
  }

  function Initial<V>(): GateState<V> {
    GateState(SeekStart, map[], map[], false, false)
  }

  /** One line through the machine. */
  function Pass<V>(spec: GateSpec<V>, st: GateState<V>, line: string): (GateState<V>, Option<Emission<V>>) {
    if st.mode.Done? || !spec.belongs(line) then (st, None)
    else
      var p := PickValue(line);
      if st.mode.SeekStart? && !spec.startWhen(p) then (st, None)
      else if st.mode.SeekStart? || st.mode.Starting? then
        var bucket := spec.startExtract(st.start, p);
        if !st.startEmitted && spec.startReady(bucket) then
          (st.(mode := Running, start := bucket, startEmitted := true), Some(StartEvent(Tagged(spec, "start", bucket))))
        else (st.(mode := if spec.closeWhen(p) then Closing else Starting, start := bucket), None)
      else if st.mode.Running? then
        (st.(mode := if spec.closeWhen(p) then Closing else Running), None)
      else
        var bucket := spec.closeExtract(st.close, p);
        if !st.closeEmitted && spec.closeReady(p) then
          (st.(mode := Done, close := Tidy(bucket), closeEmitted := true),
           Some(CloseEvent(Tagged(spec, "close", Tidy(bucket)))))
        else (st.(close := bucket), None)
  }

  function Emitted<V>(e: Option<Emission<V>>): seq<Emission<V>> {
    if e.Some? then [e.value] else []
  }

  /** The machine over a list of lines: its state and everything it emitted. */
  function PassAll<V>(spec: GateSpec<V>, lines: seq<string>): (GateState<V>, seq<Emission<V>>) {
    if lines == [] then (Initial(), [])
    else
      var (st, events) := PassAll(spec, lines[..|lines| - 1]);
      var (next, e) := Pass(spec, st, lines[|lines| - 1]);
      (next, events + Emitted(e))
  }

  class GateMachine<V> {
    const spec: GateSpec<V>
    var state: GateState<V>

    constructor (spec: GateSpec<V>)
      ensures this.spec == spec && state == Initial()
    {
      this.spec := spec;
      state := Initial();
    }

    method FeedChunk(chunk: string) returns (out: Option<Emission<V>>)
      modifies this`state
      ensures (state, out) == Pass(spec, old(state), chunk)
    {
      if state.mode == Done || !spec.belongs(chunk) {
        return None;
      }
      var payload := PickValue(chunk);
      if state.mode == SeekStart {
        if spec.startWhen(payload) {
          state := state.(mode := Starting);
        } else {
          return None;
        }
      }
      if state.mode == Starting {
        state := state.(start := spec.startExtract(state.start, payload));
        if !state.startEmitted && spec.startReady(state.start) {
          state := state.(startEmitted := true, mode := Running);
          return Some(StartEvent(Tagged(spec, "start", state.start)));
        }
        if spec.closeWhen(payload) {
          state := state.(mode := Closing);
        }
        return None;
      }
      if state.mode == Running {
        if spec.closeWhen(payload) {
          state := state.(mode := Closing);
        }
        return None;
      }
      state := state.(close := spec.closeExtract(state.close, payload));
      if !state.closeEmitted && spec.closeReady(payload) {
        state := state.(closeEmitted := true, mode := Done, close := Tidy(state.close));
        return Some(CloseEvent(Tagged(spec, "close", state.close)));
      }
      return None;
    }
  }

  // ---- What the machine finds in its input ---------------------------------------------------

  function Payloads<V>(spec: GateSpec<V>, lines: seq<string>): seq<string> {
    if lines == [] then []
    else
      Payloads(spec, lines[..|lines| - 1]) +
      if spec.belongs(lines[|lines| - 1]) then [PickValue(lines[|lines| - 1])] else []
  }

  function Collected<V>(extract: (Bucket<V>, string) -> Bucket<V>, ps: seq<string>): Bucket<V> {
    if ps == [] then map[] else extract(Collected(extract, ps[..|ps| - 1]), ps[|ps| - 1])
  }

  /**
   * Where the phases change: the first start line, the line that completes the start fields, the close line, the end
   * line.
   */
  datatype Marks = Marks(begun: Option<nat>, ready: Option<nat>, closing: Option<nat>, ended: Option<nat>)

  predicate ReadyAt<V>(spec: GateSpec<V>, ps: seq<string>, from: nat, j: nat)
    requires from <= j < |ps|
  {
    spec.startReady(Collected(spec.startExtract, ps[from..j + 1]))
  }

  predicate Unready<V>(spec: GateSpec<V>, ps: seq<string>, from: nat, hi: nat) {
    forall j :: from <= j < hi && j < |ps| ==> !ReadyAt(spec, ps, from, j)
  }

  predicate Silent(f: string -> bool, ps: seq<string>, lo: nat, hi: nat) {
    forall j :: lo <= j < hi && j < |ps| ==> !f(ps[j])
  }

  /** The marks are where the input says they are, each the first possible one after the one before it. */
  predicate Located<V>(spec: GateSpec<V>, ps: seq<string>, k: Marks) {
    if k.begun.None? then
      k == Marks(None, None, None, None) && Silent(spec.startWhen, ps, 0, |ps|)
    else
      var s := k.begun.value;
      var stop := if k.closing.Some? then k.closing.value else |ps|;
      && s < |ps| && spec.startWhen(ps[s]) && Silent(spec.startWhen, ps, 0, s)
      && (if k.ready.Some? then
            var r := k.ready.value;
            && s <= r < |ps| && ReadyAt(spec, ps, s, r) && Unready(spec, ps, s, r)
            && Silent(spec.closeWhen, ps, s, r) && Silent(spec.closeWhen, ps, r + 1, stop)
               && (k.closing.Some? ==> r < stop)
          else
            Unready(spec, ps, s, stop + 1) && Silent(spec.closeWhen, ps, s, stop) && s <= stop)
      && (if k.closing.Some? then
            && stop < |ps| && spec.closeWhen(ps[stop])
            && (if k.ended.Some? then
                  && stop < k.ended.value < |ps| && spec.closeReady(ps[k.ended.value])
                  && Silent(spec.closeReady, ps, stop + 1, k.ended.value)
                else Silent(spec.closeReady, ps, stop + 1, |ps|))
          else k.ended.None?)
  }

  function EventsAt<V>(spec: GateSpec<V>, ps: seq<string>, k: Marks): seq<Emission<V>> {
    (if k.begun.Some? && k.ready.Some? && k.begun.value <= k.ready.value < |ps|
     then [StartFrom(spec, ps, k.begun.value, k.ready.value)] else [])
    + (if k.closing.Some? && k.ended.Some? && k.closing.value < k.ended.value < |ps|
       then [CloseFrom(spec, ps, k.closing.value, k.ended.value)] else [])
  }

  /** The start event with the fields collected from the start line to the line that completes them. */
  function StartFrom<V>(spec: GateSpec<V>, ps: seq<string>, begun: nat, ready: nat): Emission<V>
    requires begun <= ready < |ps|
  {
    StartEvent(Tagged(spec, "start", Collected(spec.startExtract, ps[begun..ready + 1])))
  }

  /** The close event with the fields collected after the close line up to the end line. */
  function CloseFrom<V>(spec: GateSpec<V>, ps: seq<string>, closing: nat, ended: nat): Emission<V>
    requires closing < ended < |ps|
  {
    CloseEvent(Tagged(spec, "close", Tidy(Collected(spec.closeExtract, ps[closing + 1..ended + 1]))))
  }

  function PhaseAt(k: Marks): Phase {
    if k.ended.Some? then Done
    else if k.closing.Some? then Closing
    else if k.ready.Some? then Running
    else if k.begun.Some? then Starting
    else SeekStart
  }

  /** The machine's state, read off the marks. */
  ghost predicate StateAt<V>(spec: GateSpec<V>, ps: seq<string>, k: Marks, st: GateState<V>) {
    && st.mode == PhaseAt(k)
    && st.startEmitted == k.ready.Some? && st.closeEmitted == k.ended.Some?
    && (st.mode.SeekStart? ==> st.start == map[])
    && (st.mode.Starting? && k.begun.value <= |ps| ==>
          st.start == Collected(spec.startExtract, ps[k.begun.value..]))
    && (st.mode.Closing? && k.closing.value < |ps| ==>
          st.close == Collected(spec.closeExtract, ps[k.closing.value + 1..]))
    && (!st.mode.Closing? && !st.mode.Done? ==> st.close == map[])
  }

  /** The marks after one more payload. */
  function Advance<V>(spec: GateSpec<V>, ps: seq<string>, k: Marks, p: string): Marks
    requires Located(spec, ps, k)
  {
    var n := |ps|;
    if k.begun.None? && !spec.startWhen(p) then k
    else if k.begun.None? || (k.ready.None? && k.closing.None?) then
      var s := if k.begun.Some? then k.begun.value else n;
      if ReadyAt(spec, ps + [p], s, n) then k.(begun := Some(s), ready := Some(n))
      else k.(begun := Some(s), closing := if spec.closeWhen(p) then Some(n) else None)
    else if k.closing.None? then k.(closing := if spec.closeWhen(p) then Some(n) else None)
    else if k.ended.None? && spec.closeReady(p) then k.(ended := Some(n))
    else k
  }

  lemma SilentStays(f: string -> bool, ps: seq<string>, p: string, lo: nat, hi: nat)
    requires Silent(f, ps, lo, hi) && hi <= |ps|
    ensures Silent(f, ps + [p], lo, hi)
  {
  }

  lemma SilentGrows(f: string -> bool, ps: seq<string>, p: string, lo: nat)
    requires Silent(f, ps, lo, |ps|) && (!f(p) || lo > |ps|)
    ensures Silent(f, ps + [p], lo, |ps| + 1)
  {
  }

  lemma ReadyStays<V>(spec: GateSpec<V>, ps: seq<string>, p: string, from: nat, j: nat)
    requires from <= j < |ps|
    ensures ReadyAt(spec, ps + [p], from, j) == ReadyAt(spec, ps, from, j)
  {
    assert (ps + [p])[from..j + 1] == ps[from..j + 1];
  }

  lemma UnreadyStays<V>(spec: GateSpec<V>, ps: seq<string>, p: string, from: nat, hi: nat)
    requires Unready(spec, ps, from, hi) && hi <= |ps|
    ensures Unready(spec, ps + [p], from, hi)
  {
    hide ReadyAt;
    forall j | from <= j < hi ensures !ReadyAt(spec, ps + [p], from, j) {
      ReadyStays(spec, ps, p, from, j);
    }
  }

  lemma UnreadyGrows<V>(spec: GateSpec<V>, ps: seq<string>, p: string, from: nat)
    requires Unready(spec, ps, from, |ps| + 1) && from <= |ps| && !ReadyAt(spec, ps + [p], from, |ps|)
    ensures Unready(spec, ps + [p], from, |ps| + 2)
  {
    hide ReadyAt;
    forall j | from <= j < |ps| ensures !ReadyAt(spec, ps + [p], from, j) {
      ReadyStays(spec, ps, p, from, j);
    }
  }

  lemma AdvanceFromStart<V>(spec: GateSpec<V>, ps: seq<string>, k: Marks, p: string)
    requires Located(spec, ps, k) && k.ready.None? && k.closing.None?
    ensures Located(spec, ps + [p], Advance(spec, ps, k, p))
  {
    hide Silent, Unready, ReadyAt;
    var n, all := |ps|, ps + [p];
    if k.begun.None? {
      if spec.startWhen(p) {
        SilentStays(spec.startWhen, ps, p, 0, n);
        NoneBefore(spec, all, n);
        if !ReadyAt(spec, all, n, n) && !spec.closeWhen(p) {
          NothingAt(spec, all, n);
        }
      } else {
        SilentGrows(spec.startWhen, ps, p, 0);
      }
    } else {
      var s := k.begun.value;
      SilentStays(spec.startWhen, ps, p, 0, s);
      SilentStays(spec.closeWhen, ps, p, s, n);
      if ReadyAt(spec, all, s, n) {
        UnreadyShorter(spec, ps, s);
        UnreadyStays(spec, ps, p, s, n);
        SilentAtEnd(spec.closeWhen, all, n + 1);
      } else {
        UnreadyGrows(spec, ps, p, s);
        if spec.closeWhen(p) {
          UnreadyShorter(spec, all, s);
          SilentAtEnd(spec.closeReady, all, n + 1);
        } else {
          SilentGrows(spec.closeWhen, ps, p, s);
        }
      }
    }
  }

  lemma SilentAtEnd(f: string -> bool, ps: seq<string>, lo: nat)
    requires lo >= |ps|
    ensures Silent(f, ps, lo, |ps|)
  {
  }

  lemma UnreadyShorter<V>(spec: GateSpec<V>, ps: seq<string>, from: nat)
    requires Unready(spec, ps, from, |ps| + 1)
    ensures Unready(spec, ps, from, |ps|)
  {
  }

  lemma NoneBefore<V>(spec: GateSpec<V>, ps: seq<string>, n: nat)
    ensures Unready(spec, ps, n, n) && Silent(spec.closeWhen, ps, n, n)
    ensures n + 1 == |ps| && !ReadyAt(spec, ps, n, n) ==> Unready(spec, ps, n, |ps| + 1) && Unready(spec, ps, n, |ps|)
    ensures n + 1 == |ps| ==> Silent(spec.closeWhen, ps, n + 1, |ps|) && Silent(spec.closeReady, ps, n + 1, |ps|)
  {
    hide ReadyAt;
  }

  lemma NothingAt<V>(spec: GateSpec<V>, ps: seq<string>, n: nat)
    requires n + 1 == |ps| && !spec.closeWhen(ps[n])
    ensures Silent(spec.closeWhen, ps, n, |ps|)
  {
  }

  lemma AdvanceLater<V>(spec: GateSpec<V>, ps: seq<string>, k: Marks, p: string)
    requires Located(spec, ps, k) && (k.ready.Some? || k.closing.Some?)
    ensures Located(spec, ps + [p], Advance(spec, ps, k, p))
  {
    hide Silent, Unready, ReadyAt;
    var n, s := |ps|, k.begun.value;
    SilentStays(spec.startWhen, ps, p, 0, s);
    if k.ready.Some? {
      ReadyStays(spec, ps, p, s, k.ready.value);
      UnreadyStays(spec, ps, p, s, k.ready.value);
      SilentStays(spec.closeWhen, ps, p, s, k.ready.value);
      SilentStays(spec.closeWhen, ps, p, k.ready.value + 1, if k.closing.Some? then k.closing.value else n);
    } else {
      UnreadyStays(spec, ps, p, s, k.closing.value + 1);
      SilentStays(spec.closeWhen, ps, p, s, k.closing.value);
    }
    if k.closing.None? {
      if spec.closeWhen(p) {
        SilentAtEnd(spec.closeReady, ps + [p], n + 1);
      } else {
        SilentGrows(spec.closeWhen, ps, p, k.ready.value + 1);
      }
    } else if k.ended.Some? {
      SilentStays(spec.closeReady, ps, p, k.closing.value + 1, k.ended.value);
    } else {
      SilentStays(spec.closeReady, ps, p, k.closing.value + 1, n);
      if !spec.closeReady(p) {
        SilentGrows(spec.closeReady, ps, p, k.closing.value + 1);
      }
    }
  }

  lemma AdvanceLocates<V>(spec: GateSpec<V>, ps: seq<string>, k: Marks, p: string)
    requires Located(spec, ps, k)
    ensures Located(spec, ps + [p], Advance(spec, ps, k, p))
  {
    if k.ready.None? && k.closing.None? {
      AdvanceFromStart(spec, ps, k, p);
    } else {
      AdvanceLater(spec, ps, k, p);
    }
  }

  lemma CollectedGrows<V>(extract: (Bucket<V>, string) -> Bucket<V>, ps: seq<string>, p: string, from: nat)
    requires from <= |ps|
    ensures Collected(extract, (ps + [p])[from..]) == extract(Collected(extract, ps[from..]), p)
    ensures (ps + [p])[from..|ps| + 1] == (ps + [p])[from..]
  {
    assert (ps + [p])[from..] == ps[from..] + [p];
    assert (ps[from..] + [p])[..|ps| - from] == ps[from..];
  }

  /** The machine follows the marks: its state after the payload, and what it emits on it. */
  lemma PassFollows<V>(spec: GateSpec<V>, ps: seq<string>, k: Marks, st: GateState<V>, line: string)
    requires Located(spec, ps, k) && StateAt(spec, ps, k, st) && spec.belongs(line)
    ensures var p := PickValue(line);
            var (next, e) := Pass(spec, st, line);
            && StateAt(spec, ps + [p], Advance(spec, ps, k, p), next)
            && EventsAt(spec, ps + [p], Advance(spec, ps, k, p)) == EventsAt(spec, ps, k) + Emitted(e)
  {
    if k.ready.None? && k.closing.None? {
      FollowFromStart(spec, ps, k, st, line);
    } else if k.closing.None? {
      FollowRunning(spec, ps, k, st, line);
    } else if k.ended.None? {
      FollowClosing(spec, ps, k, st, line);
    } else {
      FollowDone(spec, ps, k, st, line);
    }
  }

  lemma FollowFromStart<V>(spec: GateSpec<V>, ps: seq<string>, k: Marks, st: GateState<V>, line: string)
    requires Located(spec, ps, k) && StateAt(spec, ps, k, st) && spec.belongs(line)
    requires k.ready.None? && k.closing.None?
    ensures var p := PickValue(line);
            var (next, e) := Pass(spec, st, line);
            && StateAt(spec, ps + [p], Advance(spec, ps, k, p), next)
            && EventsAt(spec, ps + [p], Advance(spec, ps, k, p)) == EventsAt(spec, ps, k) + Emitted(e)
  {
    hide PickValue, Silent, Unready, Collected, Tagged;
    var p, n := PickValue(line), |ps|;
    var s := if k.begun.Some? then k.begun.value else n;
    CollectedGrows(spec.startExtract, ps, p, s);
    assert ps[n..] == [] && Collected(spec.startExtract, []) == map[] by { NothingCollected(spec.startExtract); }
    assert (ps + [p])[n + 1..] == []
        && Collected(spec.closeExtract, []) == map[] by { NothingCollected(spec.closeExtract); }
  }

  lemma NothingCollected<V>(extract: (Bucket<V>, string) -> Bucket<V>)
    ensures Collected(extract, []) == map[]
  {
  }

  lemma FollowRunning<V>(spec: GateSpec<V>, ps: seq<string>, k: Marks, st: GateState<V>, line: string)
    requires Located(spec, ps, k) && StateAt(spec, ps, k, st) && spec.belongs(line)
    requires k.ready.Some? && k.closing.None?
    ensures var p := PickValue(line);
            var (next, e) := Pass(spec, st, line);
            && StateAt(spec, ps + [p], Advance(spec, ps, k, p), next)
            && EventsAt(spec, ps + [p], Advance(spec, ps, k, p)) == EventsAt(spec, ps, k) + Emitted(e)
  {
    hide PickValue, Silent, Unready, Collected, ReadyAt, EventsAt, Tagged;
    var p, n := PickValue(line), |ps|;
    StartEventStays(spec, ps, k, p);
    assert (ps + [p])[n + 1..] == [];
    NothingCollected(spec.closeExtract);
    StillNoClose(spec, ps + [p], k, n);
  }

  lemma FollowDone<V>(spec: GateSpec<V>, ps: seq<string>, k: Marks, st: GateState<V>, line: string)
    requires Located(spec, ps, k) && StateAt(spec, ps, k, st) && spec.belongs(line)
    requires k.ended.Some?
    ensures var p := PickValue(line);
            var (next, e) := Pass(spec, st, line);
            && StateAt(spec, ps + [p], Advance(spec, ps, k, p), next)
            && EventsAt(spec, ps + [p], Advance(spec, ps, k, p)) == EventsAt(spec, ps, k) + Emitted(e)
  {
    hide PickValue, Silent, Unready, Collected, ReadyAt, EventsAt, Tagged;
    var p, n := PickValue(line), |ps|;
    StartEventStays(spec, ps, k, p);
    LocatedInRange(spec, ps, k);
  }

  lemma FollowClosing<V>(spec: GateSpec<V>, ps: seq<string>, k: Marks, st: GateState<V>, line: string)
    requires Located(spec, ps, k) && StateAt(spec, ps, k, st) && spec.belongs(line)
    requires k.closing.Some? && k.ended.None?
    ensures var p := PickValue(line);
            var (next, e) := Pass(spec, st, line);
            && StateAt(spec, ps + [p], Advance(spec, ps, k, p), next)
            && EventsAt(spec, ps + [p], Advance(spec, ps, k, p)) == EventsAt(spec, ps, k) + Emitted(e)
  {
    hide PickValue, Silent, Unready, Collected, ReadyAt, EventsAt, Tagged, Tidy;
    var p, n := PickValue(line), |ps|;
    StartEventStays(spec, ps, k, p);
    CollectedGrows(spec.closeExtract, ps, p, k.closing.value + 1);
    ClosingInRange(spec, ps, k);
    hide Located;
    if spec.closeReady(p) {
      ClosesNow(spec, ps + [p], k, n);
      assert (ps + [p])[k.closing.value + 1..n + 1] == (ps + [p])[k.closing.value + 1..];
    }
  }

  lemma ClosingInRange<V>(spec: GateSpec<V>, ps: seq<string>, k: Marks)
    requires Located(spec, ps, k) && k.closing.Some?
    ensures k.begun.Some? && k.closing.value < |ps|
  {
  }

  lemma StartEventStays<V>(spec: GateSpec<V>, ps: seq<string>, k: Marks, p: string)
    requires Located(spec, ps, k)
    ensures EventsAt(spec, ps + [p], k) == EventsAt(spec, ps, k)
  {
    hide Silent, Unready, ReadyAt, Collected, Tagged;
    LocatedInRange(spec, ps, k);
    hide Located;
    if k.ready.Some? {
      assert (ps + [p])[k.begun.value..k.ready.value + 1] == ps[k.begun.value..k.ready.value + 1];
    }
    if k.ended.Some? {
      assert (ps + [p])[k.closing.value + 1..k.ended.value + 1] == ps[k.closing.value + 1..k.ended.value + 1];
    }
  }

  lemma StillNoClose<V>(spec: GateSpec<V>, ps: seq<string>, k: Marks, n: nat)
    requires k.ended.None?
    ensures EventsAt(spec, ps, k.(closing := Some(n))) == EventsAt(spec, ps, k)
    ensures EventsAt(spec, ps, k.(closing := None)) == EventsAt(spec, ps, k)
  {
  }

  lemma ClosesNow<V>(spec: GateSpec<V>, ps: seq<string>, k: Marks, n: nat)
    requires k.ended.None? && k.closing.Some? && k.closing.value < n < |ps|
    ensures EventsAt(spec, ps, k.(ended := Some(n))) ==
            EventsAt(spec, ps, k)
            + [CloseEvent(Tagged(spec, "close", Tidy(Collected(spec.closeExtract, ps[k.closing.value + 1..n + 1]))))]
  {
  }

  lemma {:induction false} PassAllLocated<V>(spec: GateSpec<V>, lines: seq<string>) returns (k: Marks)
    ensures var ps := Payloads(spec, lines);
            var (st, events) := PassAll(spec, lines);
            Located(spec, ps, k) && StateAt(spec, ps, k, st) && events == EventsAt(spec, ps, k)
  {
    hide Located, StateAt, EventsAt, Pass, Advance, PickValue;
    if lines == [] {
      k := Marks(None, None, None, None);
      AtStart(spec);
    } else {
      var n := |lines| - 1;
      k := PassAllLocated(spec, lines[..n]);
      var ps := Payloads(spec, lines[..n]);
      if spec.belongs(lines[n]) {
        PassFollows(spec, ps, k, PassAll(spec, lines[..n]).0, lines[n]);
        AdvanceLocates(spec, ps, k, PickValue(lines[n]));
        k := Advance(spec, ps, k, PickValue(lines[n]));
      } else {
        PassesBy(spec, PassAll(spec, lines[..n]).0, lines[n]);
        assert ps + [] == ps;
      }
    }
  }

  lemma AtStart<V>(spec: GateSpec<V>)
    ensures Located(spec, [], Marks(None, None, None, None))
    ensures StateAt(spec, [], Marks(None, None, None, None), Initial())
    ensures EventsAt(spec, [], Marks(None, None, None, None)) == []
  {
  }

  lemma PassesBy<V>(spec: GateSpec<V>, st: GateState<V>, line: string)
    requires !spec.belongs(line)
    ensures Pass(spec, st, line) == (st, None)
  {
  }

  /**
   * Over any lines the machine emits what the one set of marks in its input says: a start event with the fields of the
   * first completed start section, if that comes before the close line, then a close event with the fields collected
   * up to the first end line after the close line; never another event, and nothing after the close.
   */
  lemma EmissionsAreTheMarks<V>(spec: GateSpec<V>, lines: seq<string>)
    ensures exists k :: Located(spec, Payloads(spec, lines), k)
    ensures forall k :: Located(spec, Payloads(spec, lines), k) ==>
              && PassAll(spec, lines).1 == EventsAt(spec, Payloads(spec, lines), k)
              && PassAll(spec, lines).0.mode == PhaseAt(k)
  {
    hide Located, EventsAt, PhaseAt;
    var k := PassAllLocated(spec, lines);
    forall l | Located(spec, Payloads(spec, lines), l) ensures l == k {
      MarksUnique(spec, Payloads(spec, lines), k, l);
    }
  }

  /** The input has its phase changes in one way only. */
  lemma MarksUnique<V>(spec: GateSpec<V>, ps: seq<string>, k: Marks, l: Marks)
    requires Located(spec, ps, k) && Located(spec, ps, l)
    ensures k == l
  {
    hide ReadyAt;
    if k.begun.Some? && l.begun.Some? {
      assert k.begun == l.begun;
      assert k.ready == l.ready;
      assert k.closing == l.closing;
      assert k.ended == l.ended;
    }
  }

  /** At most one start event and one close event, in that order; once done the machine neither moves nor emits. */
  lemma EmissionsInOrder<V>(spec: GateSpec<V>, lines: seq<string>, more: seq<string>)
    ensures var events := PassAll(spec, lines).1;
            && |events| <= 2
            && (|events| == 2 ==> events[0].StartEvent? && events[1].CloseEvent?)
            && (PassAll(spec, lines).0.mode.Done? <==> |events| >= 1 && events[|events| - 1].CloseEvent?)
            && (PassAll(spec, lines).0.mode.Done? ==> PassAll(spec, lines + more) == PassAll(spec, lines))
  {
    hide Located, Pass;
    var k := PassAllLocated(spec, lines);
    LocatedInRange(spec, Payloads(spec, lines), k);
    if PassAll(spec, lines).0.mode.Done? {
      DoneAbsorbs(spec, lines, more);
    }
  }

  lemma LocatedInRange<V>(spec: GateSpec<V>, ps: seq<string>, k: Marks)
    requires Located(spec, ps, k)
    ensures k.ready.Some? ==> k.begun.Some? && k.begun.value <= k.ready.value < |ps|
    ensures k.ended.Some? ==> k.closing.Some? && k.closing.value < k.ended.value < |ps|
  {
  }

  lemma {:induction false} DoneAbsorbs<V>(spec: GateSpec<V>, lines: seq<string>, more: seq<string>)
    requires PassAll(spec, lines).0.mode.Done?
    ensures PassAll(spec, lines + more) == PassAll(spec, lines)
    decreases |more|
  {
    if more == [] {
      assert lines + more == lines;
    } else {
      var m := |more| - 1;
      DoneAbsorbs(spec, lines, more[..m]);
      assert (lines + more)[..|lines + more| - 1] == lines + more[..m];
      assert PassAll(spec, lines).1 + [] == PassAll(spec, lines).1;
    }
  }

  // ---- What the gate reads and says ----------------------------------------------------------

  predicate BarAt(line: string, i: nat) {
    i + 2 < |line| && line[i] == ' ' && line[i + 1] == '|' && line[i + 2] == ' '
  }

  lemma SeparatorIsBar(line: string, i: nat)
    ensures SeparatorAt(line, i) <==> BarAt(line, i)
  {
    if i + 3 <= |line| {
      assert line[i..i + 3] == [line[i], line[i + 1], line[i + 2]];
    }
  }

  /** `line` is `head`, the first " | " in it, and `tail`. */
  predicate Cut(line: string, head: string, tail: string) {
    line == head + " | " + tail && forall i | 0 <= i < |head| :: !BarAt(line, i)
  }

  /** A gate hears what stands after the first separator, stripped, and a line without a separator as it is. */
  lemma HearsTheValue(line: string)
    ensures forall head, tail :: Cut(line, head, tail) ==> PickValue(line) == Strip(tail)
    ensures (forall i | 0 <= i < |line| :: !BarAt(line, i)) ==> PickValue(line) == line
  {
    hide Strip, SeparatorAt, BarAt;
    var at := Separator(line, 0);
    forall i: nat ensures SeparatorAt(line, i) <==> BarAt(line, i) {
      SeparatorIsBar(line, i);
    }
    forall head, tail | Cut(line, head, tail) ensures PickValue(line) == Strip(tail) {
      assert BarAt(line, |head|) by { BarHere(head, tail); }
      assert line[|head| + 3..] == tail;
    }
    if at.Some? {
      assert at.value < |line| by { BarInside(line, at.value); }
    }
  }

  lemma BarHere(head: string, tail: string)
    ensures BarAt(head + " | " + tail, |head|)
  {
  }

  lemma BarInside(line: string, i: nat)
    requires BarAt(line, i)
    ensures i < |line|
  {
  }

  /** The same line, or another with the same text after the first separator that is as much the tool's. */
  ghost predicate SameValue<V>(spec: GateSpec<V>, a: string, b: string) {
    && spec.belongs(a) == spec.belongs(b)
    && (a == b || exists head, other, tail :: Cut(a, head, tail) && Cut(b, other, tail))
  }

  /** What stands before the separators makes no difference to the machine. */
  lemma {:induction false} HeadsDoNotMatter<V>(spec: GateSpec<V>, lines: seq<string>, others: seq<string>)
    requires |lines| == |others| && forall i :: 0 <= i < |lines| ==> SameValue(spec, lines[i], others[i])
    ensures PassAll(spec, lines) == PassAll(spec, others)
  {
    hide SameValue, Pass;
    if lines != [] {
      var n := |lines| - 1;
      HeadsDoNotMatter(spec, lines[..n], others[..n]);
      SameValueSamePass(spec, PassAll(spec, lines[..n]).0, lines[n], others[n]);
    }
  }

  lemma SameValueSamePass<V>(spec: GateSpec<V>, st: GateState<V>, a: string, b: string)
    requires SameValue(spec, a, b)
    ensures Pass(spec, st, a) == Pass(spec, st, b)
  {
    hide PickValue, Cut, Tagged, Tidy, Strip;
    HearsTheValue(a);
    HearsTheValue(b);
    assert PickValue(a) == PickValue(b);
  }

  /**
   * What an emitted dictionary says: its phase and its tool, unless a collected field has that key, and each collected
   * field. A start event has all fields collected from the start line on, a close event all collected after the close
   * line but the three internal ones.
   */
  lemma EventsSay<V>(spec: GateSpec<V>, lines: seq<string>, k: Marks)
    requires Located(spec, Payloads(spec, lines), k)
    ensures var events, ps := PassAll(spec, lines).1, Payloads(spec, lines);
            && |events| == (if k.ready.Some? then 1 else 0) + (if k.ended.Some? then 1 else 0)
            && (k.ready.Some? ==>
                  && k.begun.Some? && k.begun.value <= k.ready.value < |ps| && events[0].StartEvent?
                  && Says(spec, events[0].fields, "start",
                          Collected(spec.startExtract, ps[k.begun.value..k.ready.value + 1]), {}))
            && (k.ended.Some? ==>
                  && k.closing.Some? && k.closing.value < k.ended.value < |ps| && events[|events| - 1].CloseEvent?
                  && Says(spec, events[|events| - 1].fields, "close",
                          Collected(spec.closeExtract, ps[k.closing.value + 1..k.ended.value + 1]),
                          {"_p", "_comb_on", "_comb"}))
  {
    hide Located, Collected, PassAll, Payloads, EventsAt, StartFrom, CloseFrom, Says;
    var ps := Payloads(spec, lines);
    EmissionsAreTheMarks(spec, lines);
    LocatedInRange(spec, ps, k);
    EventsAreBoth(spec, ps, k);
    if k.ready.Some? {
      StartSays(spec, ps, k.begun.value, k.ready.value);
    }
    if k.ended.Some? {
      CloseSays(spec, ps, k.closing.value, k.ended.value);
    }
  }

  lemma EventsAreBoth<V>(spec: GateSpec<V>, ps: seq<string>, k: Marks)
    requires k.ready.Some? ==> k.begun.Some? && k.begun.value <= k.ready.value < |ps|
    requires k.ended.Some? ==> k.closing.Some? && k.closing.value < k.ended.value < |ps|
    ensures EventsAt(spec, ps, k) ==
            (if k.ready.Some? then [StartFrom(spec, ps, k.begun.value, k.ready.value)] else [])
            + (if k.ended.Some? then [CloseFrom(spec, ps, k.closing.value, k.ended.value)] else [])
  {
    hide StartFrom, CloseFrom;
  }

  lemma StartSays<V>(spec: GateSpec<V>, ps: seq<string>, begun: nat, ready: nat)
    requires begun <= ready < |ps|
    ensures var e := StartFrom(spec, ps, begun, ready);
            e.StartEvent? && Says(spec, e.fields, "start", Collected(spec.startExtract, ps[begun..ready + 1]), {})
  {
    hide Collected;
  }

  lemma CloseSays<V>(spec: GateSpec<V>, ps: seq<string>, closing: nat, ended: nat)
    requires closing < ended < |ps|
    ensures var e := CloseFrom(spec, ps, closing, ended);
            && e.CloseEvent?
            && Says(spec, e.fields, "close", Collected(spec.closeExtract, ps[closing + 1..ended + 1]),
                    {"_p", "_comb_on", "_comb"})
  {
    hide Collected;
  }

  /** The dictionary has the collected fields that are not `dropped`, and otherwise the phase and the tool. */
  predicate Says<V(==)>(spec: GateSpec<V>, fields: Bucket<V>, phase: string, collected: Bucket<V>,
                        dropped: set<string>)
  {
    && fields.Keys == (collected.Keys - dropped) + {"phase", "tool"}
    && (forall f | f in collected && f !in dropped :: fields[f] == collected[f])
    && ("phase" !in collected ==> fields["phase"] == spec.say(phase))
    && ("tool" !in collected ==> fields["tool"] == spec.say(spec.name))
  }
}
