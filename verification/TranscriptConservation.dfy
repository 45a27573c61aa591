/** Where every replayed entry comes from: nothing is doubled, invented or reordered, and lasting places are kept. */
module TranscriptConservation {
  import opened Text
  import opened Transcripts
  import opened TranscriptRefinement

  /**
   * A log event that wrote to an entry: with its whole payload, or with the fields a start leaves to its completion.
   */
  datatype Source = Whole(at: nat) | StartOnly(at: nat)

  /**
   * A replayed entry with the log index of the event that opened its place, of the event whose stamp it carries, and of
   * all events that wrote to its payload.
   */
  datatype Slot = Slot(entry: Entry, born: nat, last: nat, sources: seq<Source>)

  function Entries(slots: seq<Slot>): (r: seq<Entry>)
    ensures |r| == |slots|
    ensures forall i :: 0 <= i < |r| ==> r[i] == slots[i].entry
  {
    seq(|slots|, i requires 0 <= i < |slots| => slots[i].entry)
  }

  function Kept(slots: seq<Slot>, marker: Entry): seq<Slot> {
    if slots == [] then []
    else
      var last := slots[|slots| - 1];
      Kept(slots[..|slots| - 1], marker) + if Supersedes(marker, last.entry) then [] else [last]
  }

  /** The latest start of the call that is not merged with its completion. */
  function PlainStart(log: seq<Entry>, c: string): (r: Option<nat>)
    ensures r.Some? ==>
              r.value < |log| && Accepted(log[r.value]) && Call(log[r.value]) == c && !Merges(ToolName(log[r.value]))
  {
    if log == [] then None
    else
      var n := |log| - 1;
      if Accepted(log[n]) && Call(log[n]) == c && !Merges(ToolName(log[n])) then Some(n) else PlainStart(log[..n], c)
  }

  /** The completion of a call that is not open inherits the fields kept from such a start. */
  predicate Inherits(m: Memory, e: Entry) {
    Completion(e.event) && Call(e) != "" && Call(e) !in m.open && Call(e) in m.unmerged
  }

  function Added(log: seq<Entry>, m: Memory, e: Entry): seq<Source> {
    (if Inherits(m, e) && PlainStart(log, Call(e)).Some? then [StartOnly(PlainStart(log, Call(e)).value)] else [])
    + [Whole(|log|)]
  }

  /** The action of the event after `log` on slots; `added` are the sources of an entry it appends. */
  function Move(slots: seq<Slot>, a: Action, n: nat, added: seq<Source>): seq<Slot>
    requires a.Replace? || a.Remove? || a.Amend? ==> a.at < |slots|
  {
    match a
    case Skip => slots
    case Append(e) => slots + [Slot(e, n, n, added)]
    case Replace(at, e) =>
      slots[at := Slot(e, slots[at].born, n, (if Compaction(e.event) then [] else slots[at].sources) + [Whole(n)])]
    case Amend(at, p) =>
      var own := slots[at];
      slots[at := Slot(own.entry.(payload := own.entry.payload + p), own.born, own.last, own.sources + [Whole(n)])]
    case Remove(at) => slots[..at] + slots[at + 1..]
    case Withdraw(m) => Kept(slots, m)
    case IndexError => slots
  }

  function Trace(log: seq<Entry>): (slots: seq<Slot>)
    ensures Entries(slots) == Narrate(log).items
  {
    if log == [] then []
    else
      var n := |log| - 1;
      var before := Trace(log[..n]);
      var s := Narrate(log[..n]);
      var a := Decide(s, log[n]);
      var added := Added(log[..n], s.memory, log[n]);
      assert Entries(Move(before, a, n, added)) == Apply(Entries(before), a) by { MoveApplies(before, a, n, added); }
      Move(before, a, n, added)
  }

  lemma MoveApplies(slots: seq<Slot>, a: Action, n: nat, added: seq<Source>)
    requires a.Replace? || a.Remove? || a.Amend? ==> a.at < |slots|
    ensures Entries(Move(slots, a, n, added)) == Apply(Entries(slots), a)
  {
    hide Kept, Withdrawn, Compaction;
    if a.Withdraw? {
      KeptEntries(slots, a.marker);
    }
  }

  lemma {:induction false} KeptEntries(slots: seq<Slot>, marker: Entry)
    ensures Entries(Kept(slots, marker)) == Withdrawn(Entries(slots), marker)
  {
    if slots != [] {
      var n := |slots| - 1;
      KeptEntries(slots[..n], marker);
      assert Entries(slots)[..n] == Entries(slots[..n]);
    }
  }

  // ---- What a trace promises -----------------------------------------------------------------

  ghost predicate InOrder(slots: seq<Slot>) {
    forall p, q :: 0 <= p < q < |slots| ==> slots[p].born < slots[q].born
  }

  /** The sources in log order. */
  predicate Sorted(sources: seq<Source>, n: nat) {
    && (forall p :: 0 <= p < |sources| ==> sources[p].at < n)
    && (forall p, q :: 0 <= p < q < |sources| ==> sources[p].at < sources[q].at)
  }

  function Given(log: seq<Entry>, src: Source): Payload {
    if src.at >= |log| then map[] else if src.Whole? then log[src.at].payload else StartFields(log[src.at].payload)
  }

  /** What the sources write, each over the ones before it. */
  function Overlay(log: seq<Entry>, sources: seq<Source>): Payload {
    if sources == [] then map[] else Overlay(log, sources[..|sources| - 1]) + Given(log, sources[|sources| - 1])
  }

  /** A start or a completion of the call that decides whether the call is open. */
  predicate Turns(e: Entry, c: string) {
    Call(e) == c && (Completion(e.event) || (Accepted(e) && Merges(ToolName(e))))
  }

  /** Before event `n`, the call has been open since the start at `i`. */
  predicate OpenSince(log: seq<Entry>, n: nat, c: string, i: nat) {
    && i < n <= |log| && Accepted(log[i]) && Merges(ToolName(log[i])) && Call(log[i]) == c
    && forall j :: i < j < n ==> !Turns(log[j], c)
  }

  /** The event opens a place that no later event removes. */
  predicate Opens(e: Entry) {
    || (e.event.MessageCreated? && e.actor == Some(User) && Truthy(Body(e.payload)))
    || Accepted(e) || (Compaction(e.event) && !Sequenced(e))
    || e.event.CompactionObservationStopped? || e.event.TurnFailed? || e.event.TurnIncomplete?
       || e.event.TurnInterrupted?
  }

  /** The event may write to the entry of `s`: it speaks of the same message, call or compaction. */
  ghost predicate Concerns(log: seq<Entry>, s: Slot, src: Source)
    requires src.at < |log| && s.last < |log|
  {
    var e := log[src.at];
    if s.entry.event.MessageCreated? then
      && src.Whole? && s.born <= src.at && e.actor == s.entry.actor
      && (e.event.MessageCreated? || (e.event.MessageUpdated? && (Truthy(e.turn) ==> e.turn == s.entry.turn)))
      && (e.event.MessageCreated? ==> src.at <= s.last && e.turn == s.entry.turn)
      && (if s.entry.actor == Some(Assistant) then Item(e) == Item(s.entry) else LatestUser(log, s.born, src.at))
    else if Completion(s.entry.event) then
      || src == Whole(s.last) || (src == Whole(s.born) && s.born < s.last)
      || (src.StartOnly? && src.at < s.last == s.born && Accepted(e) && !Merges(ToolName(e))
         && Call(e) == Call(log[s.last]))
    else src == Whole(s.last)
  }

  /** Event `u` updates the latest user message before it, of its own turn if it names one. */
  predicate LatestUser(log: seq<Entry>, born: nat, u: nat)
    requires u < |log|
  {
    forall j :: born < j < u && Opens(log[j]) && log[j].event.MessageCreated? ==>
      Truthy(log[u].turn) && log[j].turn != log[u].turn
  }

  /** A completion sits where its call was opened; it stays apart when the call is not open, or when a patch fails. */
  predicate Paired(log: seq<Entry>, s: Slot)
    requires s.last < |log|
  {
    var e := log[s.last];
    var c := Call(e);
    if s.born < s.last then
      c != "" && OpenSince(log, s.last, c, s.born) && !(e.event.ToolFailed? && ToolName(log[s.born]) == "apply_patch")
    else
      forall i :: 0 <= i < s.last && c != "" && OpenSince(log, s.last, c, i) ==>
        e.event.ToolFailed? && ToolName(log[i]) == "apply_patch"
  }

  predicate OpenAt(log: seq<Entry>, n: nat, c: string) {
    exists i | 0 <= i < n :: OpenSince(log, n, c, i)
  }

  /**
   * Before event `n` the fields of the unmerged start at `k` wait: it is the latest, and each completion since found
   * the call open.
   */
  predicate WaitsSince(log: seq<Entry>, n: nat, c: string, k: nat) {
    && k < n <= |log| && StartsPlain(log[k], c)
    && forall m | k < m < n :: !StartsPlain(log[m], c) && (Completes(log[m], c) ==> OpenAt(log, m, c))
  }

  predicate StartsPlain(e: Entry, c: string) {
    Accepted(e) && Call(e) == c && !Merges(ToolName(e))
  }

  predicate Completes(e: Entry, c: string) {
    Completion(e.event) && Call(e) == c
  }

  /** A completion that stands apart has the waiting fields of a start exactly when its call is not open. */
  predicate Inherited(log: seq<Entry>, s: Slot)
    requires s.last < |log|
  {
    var c := Call(log[s.last]);
    forall k | 0 <= k < s.last ::
      StartOnly(k) in s.sources <==>
        s.born == s.last && c != "" && WaitsSince(log, s.last, c, k) && !OpenAt(log, s.last, c)
  }

  /** What opened the place. */
  predicate Opened(log: seq<Entry>, s: Slot)
    requires s.born <= s.last < |log|
  {
    var e := log[s.last];
    match e.event
    case MessageCreated => log[s.born].event.MessageCreated?
        && (e.actor != Some(Assistant) ==> s.born == s.last && Opens(e))
    case ContextCompacted => Compaction(log[s.born].event)
    case ContextCompactionFailed => Compaction(log[s.born].event)
    case ToolCompleted => Paired(log, s) && Inherited(log, s)
    case ToolFailed => Paired(log, s) && Inherited(log, s)
    case _ => s.born == s.last && Opens(e)
  }

  /**
   * The entry has the stamp of event `last` and exactly the payload its sources wrote, all of them about the same
   * thing.
   */
  ghost predicate Faithful(log: seq<Entry>, s: Slot) {
    && s.born <= s.last < |log| && Whole(s.last) in s.sources && Sorted(s.sources, |log|)
    && var e := log[s.last];
    && s.entry.timestamp == e.timestamp && s.entry.event == e.event
    && s.entry.session == e.session && s.entry.actor == e.actor
    && s.entry.turn == (if Completion(e.event) && !Truthy(e.turn) then log[s.born].turn else e.turn)
    && s.entry.payload == Overlay(log, s.sources)
    && Opened(log, s)
    && (e.event.MessageCreated? || Completion(e.event) ==> Whole(s.born) in s.sources)
    && forall src :: src in s.sources ==> Concerns(log, s, src)
  }

  /** `last` is the first event of the identity with the highest number, `born` the first one of all. */
  ghost predicate FirstHighest(log: seq<Entry>, k: Key, born: nat, last: nat)
    requires k.CompactionOf?
  {
    && born <= last < |log| && Denotes(k, log[born]) && Denotes(k, log[last])
    && (forall j :: 0 <= j < |log| && Denotes(k, log[j]) ==> born <= j && Seq(log[j]) <= Seq(log[last]))
    && (forall j :: 0 <= j < last && Denotes(k, log[j]) ==> Seq(log[j]) < Seq(log[last]))
  }

  /** Every completion fills a place for good, and every event that opens a place keeps it. */
  ghost predicate PlacesKept(log: seq<Entry>, slots: seq<Slot>) {
    forall j :: 0 <= j < |log| ==>
      && (Completion(log[j].event) ==> exists s :: s in slots && s.last == j)
      && (Opens(log[j]) ==> exists s :: s in slots && s.born == j)
  }

  ghost predicate CompactionsKept(log: seq<Entry>, slots: seq<Slot>) {
    forall k: Key, j :: k.CompactionOf? && k.item != "" && 0 <= j < |log| && Denotes(k, log[j]) ==>
      exists s :: s in slots && Denotes(k, s.entry) && FirstHighest(log, k, s.born, s.last)
  }

  /** Two events of one compaction, the first with no lower a number than the second. */
  predicate Newer(x: Entry, y: Entry) {
    Sequenced(x) && Sequenced(y) && x.turn == y.turn && Item(x) == Item(y) && Seq(y) <= Seq(x)
  }

  /** Two assistant messages, or two sequenced compactions, with one identity. */
  predicate SameThing(x: Entry, y: Entry) {
    && x.turn == y.turn && Item(x) == Item(y) && Item(x) != ""
    && ((x.actor == Some(Assistant) && y.actor == Some(Assistant)) || (Sequenced(x) && Sequenced(y)))
  }

  /** No event wrote to two entries, and no identity has two. */
  ghost predicate OneEach(slots: seq<Slot>) {
    && (forall s, t, j :: s in slots && t in slots && Whole(j) in s.sources && Whole(j) in t.sources ==> s == t)
    && (forall s, t :: s in slots && t in slots && SameThing(s.entry, t.entry) ==> s == t)
  }

  ghost predicate Conserved(log: seq<Entry>, slots: seq<Slot>) {
    && InOrder(slots) && OneEach(slots) && (forall s :: s in slots ==> Faithful(log, s))
    && PlacesKept(log, slots) && CompactionsKept(log, slots)
  }

  // ---- A longer log keeps what was promised --------------------------------------------------

  lemma {:induction false} OverlayStays(log: seq<Entry>, e: Entry, sources: seq<Source>)
    requires Sorted(sources, |log|)
    ensures Overlay(log + [e], sources) == Overlay(log, sources)
  {
    if sources != [] {
      OverlayStays(log, e, sources[..|sources| - 1]);
    }
  }

  lemma OverlayAdds(log: seq<Entry>, sources: seq<Source>, src: Source)
    ensures Overlay(log, sources + [src]) == Overlay(log, sources) + Given(log, src)
  {
    assert (sources + [src])[..|sources|] == sources;
  }

  lemma OverlayOne(log: seq<Entry>, src: Source)
    ensures Overlay(log, [src]) == Given(log, src)
  {
    OverlayAdds(log, [], src);
    assert [] + [src] == [src] && map[] + Given(log, src) == Given(log, src);
  }

  lemma ConcernsStays(log: seq<Entry>, e: Entry, s: Slot, t: Slot, src: Source)
    requires src.at < |log| && s.last < |log| && s.last <= t.last <= |log| && Concerns(log, s, src)
    requires t.born == s.born && t.entry.event == s.entry.event
    requires t == s || (t.entry.event.MessageCreated? && t.entry.actor == s.entry.actor && t.entry.turn == s.entry.turn
                        && if t.entry.actor == Some(Assistant) then Item(t.entry) == Item(s.entry)
                           else t.last == s.last)
    ensures Concerns(log + [e], t, src)
  {
    hide PayloadText, Sequenced, Merges, Body, Accepted, Opens;
    assert (log + [e])[src.at] == log[src.at] && (log + [e])[s.last] == log[s.last];
    assert forall j :: 0 <= j < |log| ==> (log + [e])[j] == log[j];
  }

  lemma OpenSinceStays(log: seq<Entry>, e: Entry, n: nat, c: string, i: nat)
    requires n <= |log|
    ensures OpenSince(log + [e], n, c, i) <==> OpenSince(log, n, c, i)
  {
    hide Turns, Accepted, Merges, PayloadText;
    assert forall j :: 0 <= j < |log| ==> (log + [e])[j] == log[j];
  }

  lemma OpenedStays(log: seq<Entry>, e: Entry, s: Slot)
    requires s.born <= s.last < |log| && Opened(log, s)
    ensures Opened(log + [e], s)
  {
    hide OpenSince, Accepted, Merges, PayloadText, Body, Sequenced, Opens;
    var c := Call(log[s.last]);
    assert (log + [e])[s.last] == log[s.last] && (log + [e])[s.born] == log[s.born];
    forall i: nat | i < s.last ensures OpenSince(log + [e], s.last, c, i) <==> OpenSince(log, s.last, c, i) {
      OpenSinceStays(log, e, s.last, c, i);
    }
    OpenSinceStays(log, e, s.last, c, s.born);
    if Completion(log[s.last].event) {
      InheritedStays(log, e, s);
    }
  }

  lemma OpenAtStays(log: seq<Entry>, e: Entry, n: nat, c: string)
    requires n <= |log|
    ensures OpenAt(log + [e], n, c) <==> OpenAt(log, n, c)
  {
    hide OpenSince;
    forall i: nat | i < n ensures OpenSince(log + [e], n, c, i) <==> OpenSince(log, n, c, i) {
      OpenSinceStays(log, e, n, c, i);
    }
  }

  lemma WaitsSinceStays(log: seq<Entry>, e: Entry, n: nat, c: string, k: nat)
    requires n <= |log|
    ensures WaitsSince(log + [e], n, c, k) <==> WaitsSince(log, n, c, k)
  {
    hide OpenAt, StartsPlain, Completes;
    forall m: nat | m < n ensures (log + [e])[m] == log[m] && (OpenAt(log + [e], m, c) <==> OpenAt(log, m, c)) {
      OpenAtStays(log, e, m, c);
    }
  }

  lemma InheritedStays(log: seq<Entry>, e: Entry, s: Slot)
    requires s.last < |log| && Inherited(log, s)
    ensures Inherited(log + [e], s)
  {
    hide OpenAt, WaitsSince;
    var c := Call(log[s.last]);
    assert (log + [e])[s.last] == log[s.last];
    OpenAtStays(log, e, s.last, c);
    forall k: nat | k < s.last ensures WaitsSince(log + [e], s.last, c, k) <==> WaitsSince(log, s.last, c, k) {
      WaitsSinceStays(log, e, s.last, c, k);
    }
  }

  lemma StillFaithful(log: seq<Entry>, e: Entry, s: Slot)
    requires Faithful(log, s)
    ensures Faithful(log + [e], s)
  {
    hide PayloadText, Sequenced, Merges, Opened, Concerns, Overlay;
    OverlayStays(log, e, s.sources);
    OpenedStays(log, e, s);
    forall src | src in s.sources ensures Concerns(log + [e], s, src) {
      var p :| 0 <= p < |s.sources| && s.sources[p] == src;
      ConcernsStays(log, e, s, s, src);
    }
    assert (log + [e])[s.last] == log[s.last] && (log + [e])[s.born] == log[s.born];
  }

  /** An event that is no newer version of the identity leaves its first and highest events what they were. */
  lemma StillFirstHighest(log: seq<Entry>, e: Entry, k: Key, born: nat, last: nat)
    requires k.CompactionOf? && FirstHighest(log, k, born, last)
    requires Denotes(k, e) ==> Seq(e) <= Seq(log[last])
    ensures FirstHighest(log + [e], k, born, last)
  {
    hide PayloadText, Sequenced;
    var longer := log + [e];
    assert forall j :: 0 <= j < |log| ==> longer[j] == log[j];
  }

  // ---- The open calls ------------------------------------------------------------------------

  /** A call is open exactly when its latest merged start has not been completed since. */
  lemma {:induction false} OpenMeans(log: seq<Entry>, c: string)
    requires c != ""
    ensures c in Narrate(log).memory.open <==> exists i :: 0 <= i < |log| && OpenSince(log, |log|, c, i)
  {
    hide PayloadText, Accepted, Merges, Decide, Apply;
    if log != [] {
      var n := |log| - 1;
      var front, e := log[..n], log[n];
      OpenMeans(front, c);
      assert log == front + [e];
      forall i: nat | i < n ensures OpenSince(log, |log|, c, i) <==> OpenSince(front, n, c, i) && !Turns(e, c) {
        OpenSinceStays(front, e, n, c, i);
        assert OpenSince(log, |log|, c, i) <==> OpenSince(log, n, c, i) && !Turns(log[n], c);
      }
      OpenAfter(Narrate(front).memory, e, c);
      if Accepted(e) && Merges(ToolName(e)) && Call(e) == c {
        assert OpenSince(log, |log|, c, n);
      }
    }
  }

  lemma OpenAfter(m: Memory, e: Entry, c: string)
    requires c != ""
    ensures c in Remember(m, e).open <==>
            if Turns(e, c) then Accepted(e) && Merges(ToolName(e)) else c in m.open
  {
    hide PayloadText, Merges;
  }

  /** Fields wait for a call exactly when some start's do by the log, and they are that start's. */
  lemma {:induction false} WaitingMeans(log: seq<Entry>, c: string)
    requires c != ""
    ensures c in Narrate(log).memory.unmerged <==> exists k | 0 <= k < |log| :: WaitsSince(log, |log|, c, k)
    ensures forall k | 0 <= k < |log| && WaitsSince(log, |log|, c, k) ::
              && PlainStart(log, c) == Some(k) && c in Narrate(log).memory.unmerged
              && Narrate(log).memory.unmerged[c] == StartFields(log[k].payload)
  {
    hide Decide, Apply, Remember, StartFields, WaitsSince, OpenAt, StartsPlain, Completes;
    if log != [] {
      var n := |log| - 1;
      var front, e := log[..n], log[n];
      WaitingMeans(front, c);
      OpenMeans(front, c);
      assert log == front + [e];
      forall k: nat | k < |log|
        ensures WaitsSince(log, |log|, c, k) <==>
                if k == n then StartsPlain(e, c)
                else WaitsSince(front, n, c, k) && !StartsPlain(e, c) && (Completes(e, c) ==> OpenAt(front, n, c))
      {
        WaitingGrows(front, e, c, k);
      }
      assert OpenAt(front, n, c) <==> c in Narrate(front).memory.open by { OpenAtMeans(front, c); }
      UnmergedAfter(Narrate(front).memory, e, c);
      LatestPlain(front, e, c);
      if StartsPlain(e, c) {
        assert WaitsSince(log, |log|, c, n);
      } else if k: nat :| k < n && WaitsSince(front, n, c, k) {
        assert WaitsSince(log, |log|, c, k) <==> (Completes(e, c) ==> OpenAt(front, n, c));
        assert log[k] == front[k];
      }
    }
  }

  lemma OpenAtMeans(log: seq<Entry>, c: string)
    requires c != ""
    ensures OpenAt(log, |log|, c) <==> c in Narrate(log).memory.open
  {
    hide OpenSince, Narrate;
    OpenMeans(log, c);
  }

  lemma WaitingGrows(front: seq<Entry>, e: Entry, c: string, k: nat)
    ensures var n := |front|;
            WaitsSince(front + [e], n + 1, c, k) <==>
            if k == n then StartsPlain(e, c)
            else WaitsSince(front, n, c, k) && !StartsPlain(e, c) && (Completes(e, c) ==> OpenAt(front, n, c))
  {
    hide OpenAt, StartsPlain, Completes;
    var n, log := |front|, front + [e];
    assert log[n] == e;
    forall m: nat | m <= n ensures (OpenAt(log, m, c) <==> OpenAt(front, m, c)) && (m < n ==> log[m] == front[m]) {
      OpenAtStays(front, e, m, c);
    }
  }

  lemma UnmergedAfter(m: Memory, e: Entry, c: string)
    requires c != ""
    ensures var k := Remember(m, e);
            if StartsPlain(e, c) then c in k.unmerged && k.unmerged[c] == StartFields(e.payload)
            else if Completes(e, c) && c !in m.open then c !in k.unmerged
            else (c in k.unmerged <==> c in m.unmerged) && (c in m.unmerged ==> k.unmerged[c] == m.unmerged[c])
  {
    hide PayloadText, Merges, StartFields;
  }

  lemma LatestPlain(front: seq<Entry>, e: Entry, c: string)
    ensures PlainStart(front + [e], c) == if StartsPlain(e, c) then Some(|front|) else PlainStart(front, c)
  {
    hide PayloadText, Merges, Accepted;
    assert (front + [e])[..|front|] == front;
  }

  /** What a completion does, in full. */
  lemma CompletionEffect(s: Story, e: Entry)
    requires Completion(e.event)
    ensures var a := Decide(s, e);
            var at := if Call(e) != "" && Call(e) in s.memory.open then Find(s.items, StartOf(Call(e))) else None;
            if at.Some? && !(e.event.ToolFailed? && ToolName(s.items[at.value]) == "apply_patch")
            then a == Replace(at.value, Merged(s.items[at.value], e))
            else a == Append(if Inherits(s.memory, e) then e.(payload := s.memory.unmerged[Call(e)] + e.payload) else e)
  {
    hide PayloadText, FindBelow, Denotes;
    assert map[] + e.payload == e.payload;
  }

  /** The start that keeps a call open is in its place, and it is the one that looking the call up finds. */
  lemma OpenSlot(log: seq<Entry>, slots: seq<Slot>, c: string, i: nat)
    requires Conserved(log, slots) && OpenSince(log, |log|, c, i) && c != ""
    ensures var at := Find(Entries(slots), StartOf(c));
            at.Some? && slots[at.value].born == slots[at.value].last == i && slots[at.value].entry == log[i]
  {
    hide PayloadText, Merges, Accepted, Conserved, FindBelow, Faithful, Turns, InOrder, Opens;
    StartKeepsPlace(log[i]);
    var p := PlaceOf(log, slots, i);
    StartUntouched(log, slots[p], c, i);
    assert Denotes(StartOf(c), Entries(slots)[p]);
    var at := Find(Entries(slots), StartOf(c)).value;
    OwnFaithful(log, slots, at);
    StartIsLogged(log, slots[at]);
    StartTurns(slots[at].entry, c);
    if p < at {
      BornInOrder(slots, p, at);
    }
  }

  lemma StartKeepsPlace(e: Entry)
    requires Accepted(e)
    ensures Opens(e) && e.event.ToolStarted?
  {
  }

  lemma BornInOrder(slots: seq<Slot>, p: nat, q: nat)
    requires InOrder(slots) && p < q < |slots|
    ensures slots[p].born < slots[q].born
  {
  }

  lemma PlaceOf(log: seq<Entry>, slots: seq<Slot>, j: nat) returns (p: nat)
    requires Conserved(log, slots) && j < |log| && Opens(log[j])
    ensures p < |slots| && slots[p].born == j && Faithful(log, slots[p])
  {
    hide Faithful, InOrder, OneEach, CompactionsKept, Opens;
    var s :| s in slots && s.born == j;
    p :| p < |slots| && slots[p] == s;
  }

  lemma OwnFaithful(log: seq<Entry>, slots: seq<Slot>, at: nat)
    requires Conserved(log, slots) && at < |slots|
    ensures Faithful(log, slots[at]) && slots[at] in slots && InOrder(slots)
  {
    hide Faithful, InOrder, OneEach, PlacesKept, CompactionsKept;
  }

  lemma StartTurns(e: Entry, c: string)
    requires Accepted(e) && Merges(ToolName(e)) && Call(e) == c
    ensures Turns(e, c)
  {
  }

  lemma StartIsLogged(log: seq<Entry>, s: Slot)
    requires Faithful(log, s) && s.entry.event.ToolStarted?
    ensures s.born == s.last < |log| && s.entry == log[s.born] && Accepted(s.entry) && s.sources == [Whole(s.born)]
  {
    hide PayloadText, Merges, Sequenced, Accepted;
    OnlySource(log, s);
    OverlayOne(log, Whole(s.last));
  }

  /** An entry that only its own event may write to has no other source. */
  lemma OnlySource(log: seq<Entry>, s: Slot)
    requires Faithful(log, s) && !s.entry.event.MessageCreated? && !Completion(s.entry.event)
    ensures s.sources == [Whole(s.last)]
  {
    hide PayloadText, Merges, Sequenced, Accepted, Overlay, Opened;
    var n := |s.sources| - 1;
    assert s.sources[0] in s.sources && s.sources[n] in s.sources;
    assert s.sources[0].at == s.sources[n].at;
  }

  lemma StartUntouched(log: seq<Entry>, s: Slot, c: string, i: nat)
    requires Faithful(log, s) && s.born == i && OpenSince(log, |log|, c, i) && c != ""
    ensures s.entry == log[i] && s.last == i
  {
    hide PayloadText, Merges, Sequenced, Overlay, Concerns, Body;
    var turns := Turns(log[s.last], c);
    if s.entry.event.ToolStarted? {
      StartIsLogged(log, s);
    }
  }

  // ---- Each action keeps the promises --------------------------------------------------------

  lemma {:induction false} KeptSlots(slots: seq<Slot>, marker: Entry)
    ensures forall s :: s in Kept(slots, marker) <==> s in slots && !Supersedes(marker, s.entry)
  {
    hide Supersedes;
    if slots != [] {
      var front := slots[..|slots| - 1];
      KeptSlots(front, marker);
      assert slots == front + [slots[|slots| - 1]];
    }
  }

  lemma {:induction false} KeptInOrder(slots: seq<Slot>, marker: Entry)
    requires InOrder(slots)
    ensures InOrder(Kept(slots, marker))
  {
    hide Supersedes;
    if slots != [] {
      var front := slots[..|slots| - 1];
      var kept := Kept(front, marker);
      KeptInOrder(front, marker);
      KeptSlots(front, marker);
      forall p | 0 <= p < |kept| ensures kept[p].born < slots[|slots| - 1].born {
        assert kept[p] in front;
      }
    }
  }

  /** Old slots keep their promises when the log grows; a new slot brings its own. */
  lemma AllFaithful(log: seq<Entry>, e: Entry, slots: seq<Slot>, added: Slot)
    requires forall s :: s in slots ==> Faithful(log, s)
    requires Faithful(log + [e], added)
    ensures forall s :: s in slots || s == added ==> Faithful(log + [e], s)
    ensures forall s :: s in slots ==> s.born <= s.last < |log| && Sorted(s.sources, |log|)
  {
    forall s | s in slots ensures Faithful(log + [e], s) && s.born <= s.last < |log| {
      StillFaithful(log, e, s);
      hide Denotes;
    }
  }

  /** An entry that messages may take away again. */
  predicate Removable(s: Slot) {
    s.entry.event.MessageCreated? && s.entry.actor == Some(Assistant)
  }

  /** Everything that stays keeps its place, and a completion stays as it is. */
  ghost predicate Carried(slots: seq<Slot>, next: seq<Slot>) {
    forall s :: s in slots && !Removable(s) ==>
      exists t :: t in next && t.born == s.born && (Completion(s.entry.event) ==> t == s)
  }

  lemma PlacesStillKept(log: seq<Entry>, e: Entry, slots: seq<Slot>, next: seq<Slot>)
    requires PlacesKept(log, slots) && Carried(slots, next)
    requires forall s :: s in slots ==> Faithful(log, s)
    requires WellActored(log) && WellActed(e)
    requires Completion(e.event) ==> exists t :: t in next && t.last == |log|
    requires Opens(e) ==> exists t :: t in next && t.born == |log|
    ensures PlacesKept(log + [e], next)
  {
    hide Opens, Faithful, WellActed, Completion, Removable;
    var longer := log + [e];
    forall j | 0 <= j < |longer|
      ensures Completion(longer[j].event) ==> exists s :: s in next && s.last == j
      ensures Opens(longer[j]) ==> exists s :: s in next && s.born == j
    {
      if j < |log| {
        assert longer[j] == log[j];
        if Completion(log[j].event) {
          var s :| s in slots && s.last == j;
          CompletionStays(log, s);
          var t :| t in next && t.born == s.born && (Completion(s.entry.event) ==> t == s);
        }
        if Opens(log[j]) {
          var s :| s in slots && s.born == j;
          NotRemovable(log, s);
          var t :| t in next && t.born == s.born;
        }
      }
    }
  }

  lemma CompletionStays(log: seq<Entry>, s: Slot)
    requires Faithful(log, s) && Completion(log[s.last].event)
    ensures Completion(s.entry.event) && !Removable(s)
  {
    hide PayloadText, Sequenced, Merges, Overlay, Body, Opened, Concerns;
  }

  lemma NotRemovable(log: seq<Entry>, s: Slot)
    requires Faithful(log, s) && Opens(log[s.born]) && WellActed(log[s.born])
    ensures !Removable(s)
  {
    hide PayloadText, Sequenced, Merges, Overlay, Body;
    if s.entry.event.MessageCreated? {
      assert Concerns(log, s, Whole(s.born));
    }
  }

  lemma CompactionsStillKept(log: seq<Entry>, e: Entry, slots: seq<Slot>, next: seq<Slot>)
    requires CompactionsKept(log, slots)
    requires forall s :: s in slots && Sequenced(s.entry) ==> s in next
    requires !Sequenced(e)
    ensures CompactionsKept(log + [e], next)
  {
    hide PayloadText, Sequenced, Merges, FirstHighest;
    var longer := log + [e];
    forall k: Key, j | k.CompactionOf? && k.item != "" && 0 <= j < |longer| && Denotes(k, longer[j])
      ensures exists s :: s in next && Denotes(k, s.entry) && FirstHighest(longer, k, s.born, s.last)
    {
      assert j < |log| && longer[j] == log[j];
      var s :| s in slots && Denotes(k, s.entry) && FirstHighest(log, k, s.born, s.last);
      StillFirstHighest(log, e, k, s.born, s.last);
      assert s in next;
    }
  }

  lemma NewCompactionKept(log: seq<Entry>, e: Entry, slots: seq<Slot>, added: Slot)
    requires CompactionsKept(log, slots) && Sequenced(e) && added.entry == e && added.born == added.last == |log|
    requires forall s :: s in slots ==> !Denotes(CompactionOf(e.turn, Item(e)), s.entry)
    ensures CompactionsKept(log + [e], slots + [added])
  {
    hide PayloadText, Sequenced, Merges;
    var longer := log + [e];
    var mine := CompactionOf(e.turn, Item(e));
    assert forall i :: 0 <= i < |log| ==> longer[i] == log[i];
    forall k: Key, j | k.CompactionOf? && k.item != "" && 0 <= j < |longer| && Denotes(k, longer[j])
      ensures exists s :: s in slots + [added] && Denotes(k, s.entry) && FirstHighest(longer, k, s.born, s.last)
    {
      if k == mine {
        assert forall i :: 0 <= i < |log| ==> !Denotes(k, log[i]);
        assert FirstHighest(longer, k, |log|, |log|);
        assert added in slots + [added];
      } else {
        assert longer[j] == log[j];
        var s :| s in slots && Denotes(k, s.entry) && FirstHighest(log, k, s.born, s.last);
        StillFirstHighest(log, e, k, s.born, s.last);
        assert s in slots + [added];
      }
    }
  }

  lemma OlderCompactionKept(log: seq<Entry>, e: Entry, slots: seq<Slot>)
    requires Sequenced(e) && OneEach(slots) && CompactionsKept(log, slots)
    requires forall s :: s in slots ==> Faithful(log, s)
    requires exists s :: s in slots && Newer(s.entry, e)
    ensures CompactionsKept(log + [e], slots)
  {
    hide PayloadText, Sequenced, Merges, FirstHighest, Faithful;
    var longer := log + [e];
    var mine := CompactionOf(e.turn, Item(e));
    var own :| own in slots && Newer(own.entry, e);
    CompactionIsLogged(log, own);
    forall k: Key, j | k.CompactionOf? && k.item != "" && 0 <= j < |longer| && Denotes(k, longer[j])
      ensures exists s :: s in slots && Denotes(k, s.entry) && FirstHighest(longer, k, s.born, s.last)
    {
      var i := if j < |log| then j else own.last;
      assert Denotes(k, log[i]);
      var s :| s in slots && Denotes(k, s.entry) && FirstHighest(log, k, s.born, s.last);
      assert k == mine ==> s == own by {
        assert k == mine ==> SameThing(s.entry, own.entry);
      }
      CompactionIsLogged(log, s);
      StillFirstHighest(log, e, k, s.born, s.last);
    }
  }

  lemma CompactionIsLogged(log: seq<Entry>, s: Slot)
    requires Faithful(log, s) && Compaction(s.entry.event)
    ensures s.last < |log| && s.entry == log[s.last]
  {
    hide PayloadText, Merges, Sequenced, Accepted;
    OnlySource(log, s);
    OverlayOne(log, Whole(s.last));
  }

  lemma NewerCompactionKept(log: seq<Entry>, e: Entry, slots: seq<Slot>, at: nat, added: Slot)
    requires OneEach(slots) && InOrder(slots) && CompactionsKept(log, slots) && at < |slots| && Sequenced(e)
    requires forall s :: s in slots ==> Faithful(log, s)
    requires Newer(e, slots[at].entry) && !Newer(slots[at].entry, e)
    requires added.entry == e && added.born == slots[at].born && added.last == |log|
    ensures CompactionsKept(log + [e], slots[at := added])
  {
    hide PayloadText, Sequenced, Merges, FirstHighest, Faithful;
    var longer, own, mine := log + [e], slots[at], CompactionOf(e.turn, Item(e));
    var next := slots[at := added];
    assert own in slots;
    CompactionIsLogged(log, own);
    SetOrder(slots, at, added);
    assert next[at] == added;
    forall k: Key, j | k.CompactionOf? && k.item != "" && 0 <= j < |longer| && Denotes(k, longer[j])
      ensures exists s :: s in next && Denotes(k, s.entry) && FirstHighest(longer, k, s.born, s.last)
    {
      var i := if j < |log| then j else own.last;
      assert Denotes(k, log[i]);
      var s :| s in slots && Denotes(k, s.entry) && FirstHighest(log, k, s.born, s.last);
      CompactionIsLogged(log, s);
      if k == mine {
        assert SameThing(s.entry, own.entry);
        TakesOver(log, e, k, own.born, own.last);
        assert added in next;
      } else {
        StillFirstHighest(log, e, k, s.born, s.last);
        assert s in next;
      }
    }
  }

  lemma TakesOver(log: seq<Entry>, e: Entry, k: Key, born: nat, last: nat)
    requires k.CompactionOf? && FirstHighest(log, k, born, last) && Denotes(k, e) && Seq(log[last]) < Seq(e)
    ensures FirstHighest(log + [e], k, born, |log|)
  {
    hide PayloadText, Sequenced;
    assert forall j :: 0 <= j < |log| ==> (log + [e])[j] == log[j];
  }

  lemma SetOrder(slots: seq<Slot>, at: nat, s: Slot)
    requires InOrder(slots) && at < |slots| && s.born == slots[at].born
    ensures InOrder(slots[at := s]) && s in slots[at := s]
    ensures forall t :: t in slots[at := s] ==> t == s || (t in slots && t != slots[at])
    ensures forall t :: t in slots && t != slots[at] ==> t in slots[at := s]
  {
    var next := slots[at := s];
    assert next[at] == s;
    forall t | t in next ensures t == s || (t in slots && t != slots[at]) {
      var p :| 0 <= p < |next| && next[p] == t;
      if p != at {
        assert slots[p].born != slots[at].born by { assert p < at || at < p; }
      }
    }
    forall t | t in slots && t != slots[at] ensures t in next {
      var p :| 0 <= p < |slots| && slots[p] == t;
      assert next[p] == t;
    }
  }

  /** A new entry at the end. */
  lemma AddConserves(log: seq<Entry>, e: Entry, slots: seq<Slot>, added: Slot)
    requires Conserved(log, slots) && WellActored(log) && WellActed(e)
    requires Faithful(log + [e], added) && added.born == added.last == |log|
    requires forall j :: Whole(j) in added.sources ==> j == |log|
    requires forall s :: s in slots ==> !SameThing(s.entry, added.entry) && !SameThing(added.entry, s.entry)
    requires Sequenced(e) ==> added.entry == e && forall s :: s in slots ==>
             !Denotes(CompactionOf(e.turn, Item(e)), s.entry)
    ensures Conserved(log + [e], slots + [added])
  {
    hide PayloadText, Sequenced, Merges, FirstHighest, PlacesKept, CompactionsKept, Denotes, Opens, SameThing, Faithful;
    AllFaithful(log, e, slots, added);
    var next := slots + [added];
    assert added in next && forall s :: s in slots ==> s in next;
    assert forall p :: 0 <= p < |slots| ==> slots[p] in slots;
    assert InOrder(next);
    assert OneEach(next) by { AddOneEach(log, slots, added); }
    PlacesStillKept(log, e, slots, next);
    if Sequenced(e) {
      NewCompactionKept(log, e, slots, added);
    } else {
      CompactionsStillKept(log, e, slots, next);
    }
  }

  lemma AddOneEach(log: seq<Entry>, slots: seq<Slot>, added: Slot)
    requires OneEach(slots) && forall s :: s in slots ==> Sorted(s.sources, |log|)
    requires forall j :: Whole(j) in added.sources ==> j == |log|
    requires forall s :: s in slots ==> !SameThing(s.entry, added.entry) && !SameThing(added.entry, s.entry)
    ensures OneEach(slots + [added])
  {
    hide SameThing;
    forall s | s in slots ensures Whole(|log|) !in s.sources {
    }
  }

  /** Another entry in the same place, written to by one more event. */
  lemma SwapConserves(log: seq<Entry>, e: Entry, slots: seq<Slot>, at: nat, t: Slot)
    requires Conserved(log, slots) && WellActored(log) && WellActed(e) && at < |slots|
    requires Faithful(log + [e], t) && t.born == slots[at].born
    requires !Completion(slots[at].entry.event) && (Completion(e.event) ==> t.last == |log|) && !Opens(e)
    requires forall j :: Whole(j) in t.sources ==> j == |log| || Whole(j) in slots[at].sources
    requires forall y :: (SameThing(y, t.entry) ==> SameThing(y, slots[at].entry))
                         && (SameThing(t.entry, y) ==> SameThing(slots[at].entry, y))
    requires if Sequenced(e)
             then t.entry == e && t.last == |log| && Newer(e, slots[at].entry) && !Newer(slots[at].entry, e)
             else !Sequenced(slots[at].entry)
    ensures Conserved(log + [e], slots[at := t])
  {
    hide PayloadText, Sequenced, Merges, FirstHighest, PlacesKept, CompactionsKept, Denotes, Opens, SameThing,
         Faithful, OneEach, InOrder;
    var own, next := slots[at], slots[at := t];
    assert own in slots;
    SetOrder(slots, at, t);
    AllFaithful(log, e, slots, t);
    SwapOneEach(log, slots, at, t);
    forall s | s in slots && !Removable(s)
      ensures exists u :: u in next && u.born == s.born && (Completion(s.entry.event) ==> u == s)
    {
      if s == own {
        assert t in next;
      } else {
        assert s in next;
      }
    }
    PlacesStillKept(log, e, slots, next);
    if Sequenced(e) {
      NewerCompactionKept(log, e, slots, at, t);
    } else {
      CompactionsStillKept(log, e, slots, next);
    }
  }

  lemma SwapOneEach(log: seq<Entry>, slots: seq<Slot>, at: nat, t: Slot)
    requires OneEach(slots) && InOrder(slots) && at < |slots| && t.born == slots[at].born
    requires forall s :: s in slots ==> Sorted(s.sources, |log|)
    requires forall j :: Whole(j) in t.sources ==> j == |log| || Whole(j) in slots[at].sources
    requires forall y :: (SameThing(y, t.entry) ==> SameThing(y, slots[at].entry))
                         && (SameThing(t.entry, y) ==> SameThing(slots[at].entry, y))
    ensures OneEach(slots[at := t])
  {
    hide SameThing, InOrder;
    SetOrder(slots, at, t);
    assert slots[at] in slots;
    forall s | s in slots ensures Whole(|log|) !in s.sources {
    }
  }

  /** An event that changes nothing, or only takes assistant messages away. */
  lemma RemainderConserves(log: seq<Entry>, e: Entry, slots: seq<Slot>, next: seq<Slot>)
    requires Conserved(log, slots) && WellActored(log) && WellActed(e)
    requires InOrder(next) && (forall s :: s in next ==> s in slots)
    requires forall s :: s in slots && !Removable(s) ==> s in next
    requires !Completion(e.event) && !Opens(e)
    requires Sequenced(e) ==> next == slots && exists s :: s in slots && Newer(s.entry, e)
    ensures Conserved(log + [e], next)
  {
    hide PayloadText, Sequenced, Merges, FirstHighest, PlacesKept, CompactionsKept, Denotes, Opens, SameThing, Faithful;
    forall s | s in slots ensures Faithful(log + [e], s) {
      StillFaithful(log, e, s);
    }
    PlacesStillKept(log, e, slots, next);
    if Sequenced(e) {
      OlderCompactionKept(log, e, slots);
    } else {
      forall s | s in slots && Sequenced(s.entry) ensures s in next {
        assert !Removable(s);
      }
      CompactionsStillKept(log, e, slots, next);
    }
  }

  // ---- What each event does to its target ----------------------------------------------------

  /** What a message event does to the entry it reaches, in full. */
  lemma MessageTarget(s: Story, e: Entry)
    requires Voiced(s.items) && WellActed(e)
    requires e.event.MessageCreated? || e.event.MessageUpdated?
    ensures var a := Decide(s, e);
            && (a.Replace? || a.Amend? || a.Remove? ==>
                  var z := s.items[a.at];
                  && z.event.MessageCreated? && z.actor == e.actor && (Truthy(e.turn) ==> z.turn == e.turn)
                  && (e.actor == Some(Assistant) ==> Item(z) == Item(e) != ""))
            && (a.Replace? ==> e.event.MessageCreated? && e.actor == Some(Assistant) && s.items[a.at].turn == e.turn
                               && a.entry == e.(payload := s.items[a.at].payload + e.payload)
                                  && Item(a.entry) == Item(e))
            && (a.Replace? || a.Amend? ==> Truthy(Body(e.payload)))
            && (a.Amend? ==> e.event.MessageUpdated? && a.payload == e.payload
                             && (e.actor == Some(Assistant) || e.actor == Some(User))
                             && (e.actor == Some(Assistant) ==>
                                PayloadText(s.items[a.at].payload + e.payload, ItemId) == Item(e))
                             && (e.actor == Some(User) ==>
                                   Find(s.items, if Truthy(e.turn) then UserOf(e.turn.value) else AnyUser) ==
                                       Some(a.at)))
            && (a.Remove? ==> e.event.MessageUpdated? && e.actor == Some(Assistant) && Body(e.payload) == Some(""))
            && (a.Append? ==>
                  && a.entry == e && e.event.MessageCreated? && (e.actor == Some(Assistant) || Opens(e))
                  && (e.actor == Some(Assistant) && Item(e) != "" ==> Find(s.items, MessageOf(e.turn, Item(e))).None?))
            && (a.Skip? ==> !Opens(e))
            && (a.Skip? || a.Append? || a.Replace? || a.Amend? || a.Remove?)
  {
    hide FindBelow, Strip;
  }

  lemma NewMessageFaithful(log: seq<Entry>, e: Entry)
    requires Opens(e) || Sequenced(e) || (e.event.MessageCreated? && e.actor == Some(Assistant))
    ensures Faithful(log + [e], Slot(e, |log|, |log|, [Whole(|log|)]))
  {
    hide PayloadText, Sequenced, Merges, Overlay, Body, Accepted;
    OverlayOne(log + [e], Whole(|log|));
    assert (log + [e])[|log|] == e;
    assert forall src :: src in [Whole(|log|)] ==> src == Whole(|log|);
  }

  lemma CreationConserves(log: seq<Entry>, e: Entry, slots: seq<Slot>)
    requires Conserved(log, slots) && WellActored(log) && WellActed(e)
    requires e.event.MessageCreated? && (e.actor == Some(Assistant) || Opens(e))
    requires e.actor == Some(Assistant) && Item(e) != "" ==> Find(Entries(slots), MessageOf(e.turn, Item(e))).None?
    ensures Conserved(log + [e], slots + [Slot(e, |log|, |log|, [Whole(|log|)])])
  {
    hide PayloadText, Merges, FindBelow, Faithful, OneEach, InOrder, PlacesKept, CompactionsKept, Conserved, Body;
    var added := Slot(e, |log|, |log|, [Whole(|log|)]);
    NewMessageFaithful(log, e);
    forall s | s in slots ensures !SameThing(s.entry, e) && !SameThing(e, s.entry) {
      var p :| 0 <= p < |slots| && slots[p] == s;
      assert Entries(slots)[p] == s.entry;
      assert Denotes(MessageOf(e.turn, Item(e)), s.entry) <==>
             s.entry.actor == Some(Assistant) && s.entry.turn == e.turn && Item(s.entry) == Item(e);
    }
    AddConserves(log, e, slots, added);
  }

  /** A message that is created again takes the place and the fields of its earlier version. */
  lemma RecreationFaithful(log: seq<Entry>, e: Entry, own: Slot, t: Slot)
    requires Faithful(log, own) && Removable(own)
    requires e.event.MessageCreated? && e.actor == Some(Assistant) && own.entry.turn == e.turn
             && Item(own.entry) == Item(e)
    requires t == Slot(e.(payload := own.entry.payload + e.payload), own.born, |log|, own.sources + [Whole(|log|)])
    requires Item(t.entry) == Item(e)
    ensures Faithful(log + [e], t)
  {
    hide PayloadText, Sequenced, Merges, Overlay, Body, Accepted, Concerns;
    var longer := log + [e];
    assert longer[|log|] == e && longer[own.born] == log[own.born];
    OverlayStays(log, e, own.sources);
    OverlayAdds(longer, own.sources, Whole(|log|));
    forall src | src in t.sources ensures Concerns(longer, t, src) {
      if src in own.sources {
        ConcernsStays(log, e, own, t, src);
      } else {
        NewSpeech(longer, t, src);
      }
    }
  }

  /** The event that a message's entry was made or amended by last concerns it. */
  lemma NewSpeech(longer: seq<Entry>, t: Slot, src: Source)
    requires src.Whole? && src.at < |longer| && t.born <= src.at && t.last < |longer| && t.entry.event.MessageCreated?
    requires var e := longer[src.at];
             && e.actor == t.entry.actor && (e.event.MessageCreated? || e.event.MessageUpdated?)
             && (e.event.MessageCreated? ==> src.at <= t.last && e.turn == t.entry.turn)
             && (Truthy(e.turn) ==> e.turn == t.entry.turn)
             && (if t.entry.actor == Some(Assistant) then Item(e) == Item(t.entry)
                else LatestUser(longer, t.born, src.at))
    ensures Concerns(longer, t, src)
  {
  }

  lemma AmendmentFaithful(log: seq<Entry>, e: Entry, own: Slot, t: Slot)
    requires Faithful(log, own) && own.entry.event.MessageCreated? && e.event.MessageUpdated?
             && e.actor == own.entry.actor
    requires Truthy(e.turn) ==> e.turn == own.entry.turn
    requires t == Slot(own.entry.(payload := own.entry.payload + e.payload), own.born, own.last,
             own.sources + [Whole(|log|)])
    requires if e.actor == Some(Assistant) then Item(own.entry) == Item(e) == Item(t.entry)
             else LatestUser(log + [e], own.born, |log|)
    ensures Faithful(log + [e], t)
  {
    hide PayloadText, Sequenced, Merges, Overlay, Body, Accepted, Concerns, LatestUser;
    var longer := log + [e];
    assert longer[|log|] == e && longer[own.born] == log[own.born] && longer[own.last] == log[own.last];
    OverlayStays(log, e, own.sources);
    OverlayAdds(longer, own.sources, Whole(|log|));
    forall src | src in t.sources ensures Concerns(longer, t, src) {
      if src in own.sources {
        ConcernsStays(log, e, own, t, src);
      } else {
        NewSpeech(longer, t, src);
      }
    }
  }

  /** The user message that an update reaches is the latest one, of the update's own turn if it names one. */
  lemma ReachesLatestUser(log: seq<Entry>, e: Entry, slots: seq<Slot>, at: nat)
    requires Conserved(log, slots) && WellActored(log) && e.event.MessageUpdated? && e.actor == Some(User)
    requires Find(Entries(slots), if Truthy(e.turn) then UserOf(e.turn.value) else AnyUser) == Some(at)
    ensures LatestUser(log + [e], slots[at].born, |log|)
  {
    hide PayloadText, FindBelow, Conserved, Faithful, InOrder, Opens, WellActed;
    var born := slots[at].born;
    OwnFaithful(log, slots, at);
    forall j | born < j < |log| && Opens(log[j]) && log[j].event.MessageCreated?
      ensures Truthy(e.turn) && log[j].turn != e.turn
    {
      var p := PlaceOf(log, slots, j);
      UserUntouched(log, slots[p]);
      assert at < p by {
        if p < at { BornInOrder(slots, p, at); }
      }
      assert Entries(slots)[p] == slots[p].entry;
    }
    assert (log + [e])[|log|] == e && forall j :: 0 <= j < |log| ==> (log + [e])[j] == log[j];
  }

  lemma UserUntouched(log: seq<Entry>, s: Slot)
    requires Faithful(log, s) && Opens(log[s.born]) && log[s.born].event.MessageCreated? && WellActed(log[s.born])
    ensures s.entry.event.MessageCreated? && s.entry.actor == Some(User) && s.entry.turn == log[s.born].turn
  {
    hide PayloadText, Sequenced, Merges, Overlay, Body;
    if s.entry.event.MessageCreated? {
      assert Concerns(log, s, Whole(s.born));
    }
  }

  lemma MessageConserves(log: seq<Entry>, e: Entry, s: Story, slots: seq<Slot>)
    requires Conserved(log, slots) && WellActored(log) && WellActed(e)
    requires Entries(slots) == s.items && Voiced(s.items)
    requires e.event.MessageCreated? || e.event.MessageUpdated?
    ensures Conserved(log + [e], Move(slots, Decide(s, e), |log|, [Whole(|log|)]))
  {
    hide PayloadText, Sequenced, Merges, FirstHighest, PlacesKept, CompactionsKept, Denotes, SameThing, Faithful,
         Decide,
         FindBelow, Conserved, Body, Opens;
    var a := Decide(s, e);
    MessageTarget(s, e);
    if a.Append? {
      CreationConserves(log, e, slots);
    } else if a.Skip? {
      NothingLost(log, e, slots);
    } else if a.Remove? {
      CutConserves(log, e, slots, a.at);
    } else {
      SpeechConserves(log, e, s, slots);
    }
  }

  lemma NothingLost(log: seq<Entry>, e: Entry, slots: seq<Slot>)
    requires Conserved(log, slots) && WellActored(log) && WellActed(e)
    requires !Completion(e.event) && !Opens(e)
    requires Sequenced(e) ==> exists s :: s in slots && Newer(s.entry, e)
    ensures Conserved(log + [e], slots)
  {
    hide PayloadText, Sequenced, Merges, PlacesKept, CompactionsKept, Faithful, OneEach, Opens, Denotes;
    RemainderConserves(log, e, slots, slots);
  }

  lemma NotSpeech(e: Entry)
    requires e.event.MessageUpdated? || e.event.MessageSuperseded?
    ensures !Opens(e) && !Completion(e.event) && !Sequenced(e)
  {
  }

  lemma CutConserves(log: seq<Entry>, e: Entry, slots: seq<Slot>, at: nat)
    requires Conserved(log, slots) && WellActored(log) && WellActed(e)
    requires at < |slots| && Removable(slots[at]) && e.event.MessageUpdated?
    ensures Conserved(log + [e], slots[..at] + slots[at + 1..])
  {
    hide PayloadText, Sequenced, Merges, PlacesKept, CompactionsKept, Faithful, OneEach, Opens, Denotes;
    NotSpeech(e);
    CutKeepsOthers(slots, at);
    RemainderConserves(log, e, slots, slots[..at] + slots[at + 1..]);
  }

  lemma CutKeepsOthers(slots: seq<Slot>, at: nat)
    requires InOrder(slots) && at < |slots|
    ensures var next := slots[..at] + slots[at + 1..];
            && InOrder(next) && (forall s :: s in next ==> s in slots)
            && (forall s :: s in slots && s != slots[at] ==> s in next)
  {
    var next := slots[..at] + slots[at + 1..];
    forall s | s in slots && s != slots[at] ensures s in next {
      var p :| 0 <= p < |slots| && slots[p] == s;
      assert s == next[if p < at then p else p - 1];
    }
  }

  lemma WithdrawalConserves(log: seq<Entry>, e: Entry, slots: seq<Slot>)
    requires Conserved(log, slots) && WellActored(log) && WellActed(e)
    requires Voiced(Entries(slots)) && e.event.MessageSuperseded?
    ensures Conserved(log + [e], Kept(slots, e))
  {
    hide PayloadText, Sequenced, Merges, PlacesKept, CompactionsKept, Faithful, OneEach, Opens, Denotes, InOrder,
         Supersedes;
    NotSpeech(e);
    KeptSlots(slots, e);
    KeptInOrder(slots, e);
    forall s | s in slots && !Removable(s) ensures s in Kept(slots, e) {
      var p :| 0 <= p < |slots| && slots[p] == s;
      assert Entries(slots)[p] == s.entry;
      SupersedesOnlyAssistants(e, s.entry);
    }
    RemainderConserves(log, e, slots, Kept(slots, e));
  }

  lemma SameMessageThings(x: Entry, z: Entry)
    requires x.event.MessageCreated? && z.event.MessageCreated? && x.actor == z.actor
    requires x.actor == Some(Assistant) ==> x.turn == z.turn && Item(x) == Item(z)
    ensures forall y :: (SameThing(y, x) ==> SameThing(y, z)) && (SameThing(x, y) ==> SameThing(z, y))
  {
    hide PayloadText;
  }

  lemma SpeechConserves(log: seq<Entry>, e: Entry, s: Story, slots: seq<Slot>)
    requires Conserved(log, slots) && WellActored(log) && WellActed(e)
    requires Entries(slots) == s.items && Voiced(s.items)
    requires e.event.MessageCreated? || e.event.MessageUpdated?
    requires Decide(s, e).Replace? || Decide(s, e).Amend?
    ensures Conserved(log + [e], Move(slots, Decide(s, e), |log|, [Whole(|log|)]))
  {
    hide PayloadText, Merges, FirstHighest, PlacesKept, CompactionsKept, Denotes, SameThing, Faithful, Decide,
         FindBelow, Conserved, Body, Opens, Concerns;
    var a := Decide(s, e);
    MessageTarget(s, e);
    var next := Move(slots, a, |log|, [Whole(|log|)]);
    var own, t := slots[a.at], next[a.at];
    OwnFaithful(log, slots, a.at);
    if a.Replace? {
      RecreationFaithful(log, e, own, t);
      NotOpening(e);
    } else {
      if e.actor == Some(User) {
        ReachesLatestUser(log, e, slots, a.at);
      }
      AmendmentFaithful(log, e, own, t);
      NotSpeech(e);
    }
    SameMessageThings(t.entry, own.entry);
    assert !Sequenced(e) && !Sequenced(own.entry);
    SwapConserves(log, e, slots, a.at, t);
  }

  lemma NotOpening(e: Entry)
    requires e.event.MessageCreated? && e.actor == Some(Assistant)
    ensures !Opens(e)
  {
  }

  // ---- Tools and compactions -----------------------------------------------------------------

  lemma CompletionFaithful(log: seq<Entry>, e: Entry, slots: seq<Slot>, x: Entry)
    requires Conserved(log, slots) && Entries(slots) == Narrate(log).items && Completion(e.event)
    requires Decide(Narrate(log), e) == Append(x)
    ensures Faithful(log + [e], Slot(x, |log|, |log|, Added(log, Narrate(log).memory, e)))
  {
    hide PayloadText, Merges, Sequenced, Accepted, Decide, Narrate, Conserved, FindBelow, Overlay, OpenSince,
         PlainStart, StartFields, Paired, Inherits, Inherited;
    var s, n, longer := Narrate(log), |log|, log + [e];
    var c := Call(e);
    var t := Slot(x, n, n, Added(log, s.memory, e));
    assert longer[n] == e;
    CompletionEffect(s, e);
    AppendPaired(log, e, slots, x, t);
    AppendInherited(log, e, t);
    if Inherits(s.memory, e) {
      InheritsFrom(log, e);
      var src := StartOnly(PlainStart(log, c).value);
      OverlayOne(longer, src);
      OverlayAdds(longer, [src], Whole(n));
      assert t.sources == [src, Whole(n)];
      assert longer[src.at] == log[src.at];
    } else {
      OverlayOne(longer, Whole(n));
      assert t.sources == [Whole(n)];
    }
    assert Whole(n) in t.sources;
  }

  lemma InheritsFrom(log: seq<Entry>, e: Entry)
    requires Inherits(Narrate(log).memory, e)
    ensures PlainStart(log, Call(e)).Some?
    ensures Narrate(log).memory.unmerged[Call(e)] == StartFields(log[PlainStart(log, Call(e)).value].payload)
  {
    hide Narrate, PlainStart, StartFields, WaitsSince;
    WaitingMeans(log, Call(e));
    var k: nat :| k < |log| && WaitsSince(log, |log|, Call(e), k);
  }

  lemma AppendInherited(log: seq<Entry>, e: Entry, t: Slot)
    requires t.born == t.last == |log| && t.sources == Added(log, Narrate(log).memory, e)
    ensures Completion(e.event) ==> Inherited(log + [e], t)
  {
    hide Narrate, PlainStart, StartFields, WaitsSince, OpenAt, PayloadText;
    var n, c := |log|, Call(e);
    assert (log + [e])[n] == e;
    if Completion(e.event) {
      OpenAtStays(log, e, n, c);
      if c != "" {
        OpenAtMeans(log, c);
        WaitingMeans(log, c);
      }
      forall k: nat | k < n
        ensures StartOnly(k) in t.sources <==> c != "" && WaitsSince(log + [e], n, c, k) && !OpenAt(log + [e], n, c)
      {
        WaitsSinceStays(log, e, n, c, k);
        if Inherits(Narrate(log).memory, e) {
          var j: nat :| j < n && WaitsSince(log, n, c, j);
        }
      }
    }
  }

  lemma AppendPaired(log: seq<Entry>, e: Entry, slots: seq<Slot>, x: Entry, t: Slot)
    requires Conserved(log, slots) && Entries(slots) == Narrate(log).items && Completion(e.event)
    requires Decide(Narrate(log), e) == Append(x) && t.born == t.last == |log|
    ensures Paired(log + [e], t)
  {
    hide PayloadText, Merges, Accepted, Decide, Narrate, Conserved, FindBelow, OpenSince;
    var n, longer, c := |log|, log + [e], Call(e);
    assert longer[n] == e;
    CompletionEffect(Narrate(log), e);
    forall i: nat | i < n && c != "" && OpenSince(longer, n, c, i)
      ensures e.event.ToolFailed? && ToolName(longer[i]) == "apply_patch"
    {
      OpenSinceStays(log, e, n, c, i);
      OpenSlot(log, slots, c, i);
      OpenMeans(log, c);
      assert longer[i] == log[i];
    }
  }

  lemma CompletionAppends(log: seq<Entry>, e: Entry, slots: seq<Slot>, x: Entry)
    requires Conserved(log, slots) && WellActored(log) && WellActed(e)
    requires Entries(slots) == Narrate(log).items && Completion(e.event) && Decide(Narrate(log), e) == Append(x)
    ensures Conserved(log + [e], slots + [Slot(x, |log|, |log|, Added(log, Narrate(log).memory, e))])
  {
    hide PayloadText, Merges, Accepted, Decide, Narrate, FindBelow, Faithful, OneEach, InOrder, PlacesKept,
         CompactionsKept, PlainStart;
    CompletionFaithful(log, e, slots, x);
    hide Conserved;
    CompletionEffect(Narrate(log), e);
    AddConserves(log, e, slots, Slot(x, |log|, |log|, Added(log, Narrate(log).memory, e)));
  }

  lemma MergeFaithful(log: seq<Entry>, e: Entry, own: Slot, i: nat, t: Slot)
    requires Faithful(log, own) && own.entry.event.ToolStarted? && own.born == i && own.entry == log[i]
             && Completion(e.event)
    requires OpenSince(log, |log|, Call(e), i) && Call(e) != ""
    requires !(e.event.ToolFailed? && ToolName(own.entry) == "apply_patch")
    requires t == Slot(Merged(own.entry, e), i, |log|, own.sources + [Whole(|log|)])
    ensures Faithful(log + [e], t)
  {
    hide PayloadText, Merges, Sequenced, Accepted, Overlay, OpenSince;
    var n, longer := |log|, log + [e];
    assert longer[n] == e && longer[i] == log[i];
    StartIsLogged(log, own);
    OpenSinceStays(log, e, n, Call(e), i);
    OverlayOne(longer, Whole(i));
    OverlayAdds(longer, [Whole(i)], Whole(n));
    assert t.sources == [Whole(i), Whole(n)];
    assert Whole(i) in t.sources && Whole(n) in t.sources;
  }

  lemma CompletionMerges(log: seq<Entry>, e: Entry, slots: seq<Slot>, at: nat, x: Entry)
    requires Conserved(log, slots) && WellActored(log) && WellActed(e)
    requires Entries(slots) == Narrate(log).items && Completion(e.event) && Decide(Narrate(log), e) == Replace(at, x)
    ensures at < |slots|
    ensures Conserved(log + [e], slots[at := Slot(x, slots[at].born, |log|, slots[at].sources + [Whole(|log|)])])
  {
    hide PayloadText, Merges, Accepted, Decide, Narrate, FindBelow, Faithful, Conserved, OpenSince, InOrder, OneEach,
         PlacesKept, CompactionsKept;
    var c := Call(e);
    CompletionEffect(Narrate(log), e);
    OpenMeans(log, c);
    var i: nat :| i < |log| && OpenSince(log, |log|, c, i);
    OpenSlot(log, slots, c, i);
    OwnFaithful(log, slots, at);
    var own := slots[at];
    var t := Slot(x, own.born, |log|, own.sources + [Whole(|log|)]);
    assert own.entry.event.ToolStarted?;
    MergeFaithful(log, e, own, i, t);
    StartIsLogged(log, own);
    NeverSame(t.entry);
    assert !Opens(e) by { hide Opens; CompletionOpensNothing(e); }
    SwapConserves(log, e, slots, at, t);
  }

  lemma CompletionOpensNothing(e: Entry)
    requires Completion(e.event)
    ensures !Opens(e)
  {
  }

  lemma NeverSame(x: Entry)
    requires Completion(x.event) && x.actor != Some(Assistant)
    ensures forall y :: !SameThing(x, y) && !SameThing(y, x)
  {
  }

  lemma CompactionAppends(log: seq<Entry>, e: Entry, slots: seq<Slot>)
    requires Conserved(log, slots) && WellActored(log) && WellActed(e) && Sequenced(e)
    requires Find(Entries(slots), CompactionOf(e.turn, Item(e))).None?
    ensures Conserved(log + [e], slots + [Slot(e, |log|, |log|, [Whole(|log|)])])
  {
    hide PayloadText, Merges, Sequenced, FindBelow, Faithful, OneEach, InOrder, PlacesKept, CompactionsKept,
         Conserved, Body, Accepted;
    NewMessageFaithful(log, e);
    forall s | s in slots
      ensures !Denotes(CompactionOf(e.turn, Item(e)), s.entry) && !SameThing(s.entry, e) && !SameThing(e, s.entry)
    {
      var p :| 0 <= p < |slots| && slots[p] == s;
      assert Entries(slots)[p] == s.entry;
    }
    AddConserves(log, e, slots, Slot(e, |log|, |log|, [Whole(|log|)]));
  }

  lemma CompactionReplaces(log: seq<Entry>, e: Entry, slots: seq<Slot>, at: nat)
    requires Conserved(log, slots) && WellActored(log) && WellActed(e) && Sequenced(e) && at < |slots|
    requires Newer(e, slots[at].entry) && !Newer(slots[at].entry, e)
    ensures Conserved(log + [e], slots[at := Slot(e, slots[at].born, |log|, [Whole(|log|)])])
  {
    hide PayloadText, Merges, Sequenced, FindBelow, OneEach, InOrder, PlacesKept, CompactionsKept, Conserved, Body,
         Accepted, Overlay;
    var longer, own, t := log + [e], slots[at], Slot(e, slots[at].born, |log|, [Whole(|log|)]);
    OwnFaithful(log, slots, at);
    assert longer[|log|] == e && longer[own.born] == log[own.born];
    OverlayOne(longer, Whole(|log|));
    assert forall src :: src in t.sources ==> src == Whole(|log|);
    assert Faithful(longer, t);
    assert !Opens(e);
    SwapConserves(log, e, slots, at, t);
  }

  /** The other events that open a place: starts, unsequenced compactions, and what happened to the turn. */
  lemma OpeningConserves(log: seq<Entry>, e: Entry, slots: seq<Slot>)
    requires Conserved(log, slots) && WellActored(log) && WellActed(e)
    requires Opens(e) && !e.event.MessageCreated? && !Sequenced(e)
    ensures Conserved(log + [e], slots + [Slot(e, |log|, |log|, [Whole(|log|)])])
  {
    hide PayloadText, Merges, Faithful, OneEach, InOrder, PlacesKept, CompactionsKept, Conserved, Body;
    NewMessageFaithful(log, e);
    AddConserves(log, e, slots, Slot(e, |log|, |log|, [Whole(|log|)]));
  }

  lemma OtherTarget(s: Story, e: Entry)
    requires !e.event.MessageCreated? && !e.event.MessageUpdated? && !e.event.MessageSuperseded? && !Completion(e.event)
    ensures var a := Decide(s, e);
            && (Sequenced(e) ==>
                  var at := Find(s.items, CompactionOf(e.turn, Item(e)));
                  if at.None? then a == Append(e)
                  else if Seq(e) <= Seq(s.items[at.value]) then a == Skip
                  else a == Replace(at.value, e))
            && (!Sequenced(e) ==> a == if Opens(e) then Append(e) else Skip)
  {
    hide PayloadText, FindBelow;
  }

  lemma OtherConserves(log: seq<Entry>, e: Entry, s: Story, slots: seq<Slot>)
    requires Conserved(log, slots) && WellActored(log) && WellActed(e) && Entries(slots) == s.items
    requires !e.event.MessageCreated? && !e.event.MessageUpdated? && !e.event.MessageSuperseded? && !Completion(e.event)
    ensures Conserved(log + [e], Move(slots, Decide(s, e), |log|, [Whole(|log|)]))
  {
    hide PayloadText, Merges, Sequenced, Decide, FindBelow, Conserved, Opens, Accepted;
    OtherTarget(s, e);
    var a := Decide(s, e);
    if Sequenced(e) {
      var at := Find(s.items, CompactionOf(e.turn, Item(e)));
      if at.None? {
        CompactionAppends(log, e, slots);
      } else if a.Skip? {
        assert slots[at.value].entry == s.items[at.value] && slots[at.value] in slots;
        SequencedOpensNothing(e);
        NothingLost(log, e, slots);
      } else {
        assert [] + [Whole(|log|)] == [Whole(|log|)];
        CompactionReplaces(log, e, slots, a.at);
      }
    } else if Opens(e) {
      OpeningConserves(log, e, slots);
    } else {
      NothingLost(log, e, slots);
    }
  }

  lemma SequencedOpensNothing(e: Entry)
    requires Sequenced(e)
    ensures !Opens(e)
  {
  }

  lemma StepConserves(log: seq<Entry>, e: Entry)
    requires Conserved(log, Trace(log)) && WellActored(log) && WellActed(e) && Voiced(Narrate(log).items)
    ensures Conserved(log + [e], Trace(log + [e]))
  {
    hide PayloadText, Merges, Sequenced, Decide, FindBelow, Conserved, PlainStart, Trace, Narrate;
    var s, slots, n := Narrate(log), Trace(log), |log|;
    TraceGrows(log, e);
    assert !Inherits(s.memory, e) ==> Added(log, s.memory, e) == [Whole(n)];
    if e.event.MessageSuperseded? {
      SupersededEffect(s, START.tables, e);
      NotSpeech(e);
      if e.actor == Some(Assistant) { WithdrawalConserves(log, e, slots); } else { NothingLost(log, e, slots); }
    } else if e.event.MessageCreated? || e.event.MessageUpdated? {
      MessageConserves(log, e, s, slots);
    } else if Completion(e.event) {
      CompletionEffect(s, e);
      match Decide(s, e)
      case Append(x) => CompletionAppends(log, e, slots, x);
      case Replace(at, x) => CompletionMerges(log, e, slots, at, x);
    } else {
      OtherConserves(log, e, s, slots);
    }
  }

  lemma TraceGrows(log: seq<Entry>, e: Entry)
    ensures Trace(log + [e]) == Move(Trace(log), Decide(Narrate(log), e), |log|, Added(log, Narrate(log).memory, e))
  {
    hide Decide, Move, Added;
    assert (log + [e])[..|log|] == log;
  }

  // ---- Whole logs ----------------------------------------------------------------------------

  lemma {:induction false} NarrationVoiced(log: seq<Entry>)
    requires WellActored(log)
    ensures Voiced(Narrate(log).items)
  {
    hide Decide, Tell;
    if log != [] {
      var n := |log| - 1;
      NarrationVoiced(log[..n]);
      TellVoiced(Narrate(log[..n]), log[n]);
    }
  }

  lemma TellVoiced(s: Story, e: Entry)
    requires Voiced(s.items) && WellActed(e)
    ensures Voiced(Tell(s, e).items)
  {
    hide PayloadText, Sequenced, Merges, Accepted, Act, ByIdentity, FindBelow, Supersedes, Withdrawn, Remember;
    var a := Decide(s, e);
    if e.event.MessageSuperseded? {
      SupersededEffect(s, START.tables, e);
      if a.Withdraw? { VoicedAfterRemoval(s.items, a); }
    } else if e.event.MessageCreated? || e.event.MessageUpdated? {
      MessageEffect(s, START.tables, e);
      if a.Remove? { VoicedAfterRemoval(s.items, a); }
    } else {
      OtherEffect(s, e);
    }
  }

  /**
   * Conservation over whole logs, for the position-free fold. Places stand in log order. Each entry has the stamp of
   * one event and exactly the payload that its sources wrote, events about the same thing in log order, and no event
   * wrote twice. Every tool completion fills exactly one place for good, that of the start which had its call open.
   * Every start, user message and turn event keeps its place. Every sequenced compaction identity has exactly one
   * place, opened by its first event and filled by the first event with the highest number.
   */
  lemma {:induction false} FoldConserves(log: seq<Entry>)
    requires WellActored(log)
    ensures Conserved(log, Trace(log)) && Entries(Trace(log)) == Narrate(log).items
  {
    hide Decide, Tell, Conserved, WellActed;
    if log == [] {
      ConservedAtStart();
    } else {
      var n := |log| - 1;
      var before := log[..n];
      FoldConserves(before);
      NarrationVoiced(before);
      assert log == before + [log[n]];
      StepConserves(before, log[n]);
    }
  }

  lemma ConservedAtStart()
    ensures Conserved([], [])
  {
  }
}
