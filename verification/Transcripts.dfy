/** The persistent event log of a session and its replay into a list of messages and tool records. */
module Transcripts {
  import opened Text

  datatype Actor = User | Assistant | System | Tool

  datatype Event =
    | MessageCreated | MessageUpdated | MessageSuperseded
    | ContextCompacted | ContextCompactionFailed | CompactionObservationStopped
    | TurnFailed | TurnIncomplete | TurnInterrupted
    | ToolStarted | ToolCompleted | ToolFailed
    | OtherEvent(name: string)

  /** Payload keys: one constructor for each key the replay reads, `OtherField` for the rest. */
  datatype Field =
    | Content | ItemId | SupersedesItemId | Scope | PresentationEpoch | Round | Attempt
    | EventSeq | Name | CallId | PatchPreview | Arguments
    | OtherField(key: string)

  datatype Value = Words(text: string) | Flag(on: bool) | Number(n: int) | Object(id: int) | OtherValue(id: int)

  type Payload = map<Field, Value>

  datatype Entry = Entry(
    timestamp: string, event: Event, session: string,
    turn: Option<string>, actor: Option<Actor>, payload: Payload)

  function PayloadText(p: Payload, f: Field): string {
    if f in p && p[f].Words? then Strip(p[f].text) else ""
  }

  function PositiveInt(p: Payload, f: Field): (r: Option<nat>)
    ensures r.Some? ==> r.value >= 1
  {
    if f in p && p[f].Number? && p[f].n >= 1 then Some(p[f].n) else None
  }

  /** The raw message body; `None` when it is missing or not a string. */
  function Body(p: Payload): Option<string> {
    if Content in p && p[Content].Words? then Some(p[Content].text) else None
  }

  function Item(e: Entry): string { PayloadText(e.payload, ItemId) }

  function Call(e: Entry): string { PayloadText(e.payload, CallId) }

  function ToolName(e: Entry): string { PayloadText(e.payload, Name) }

  predicate Merges(name: string) { name != "js_repl" }

  predicate Compaction(event: Event) { event.ContextCompacted? || event.ContextCompactionFailed? }

  predicate Completion(event: Event) { event.ToolCompleted? || event.ToolFailed? }

  predicate Sequenced(e: Entry): (r: bool)
    ensures r ==> Compaction(e.event) && Item(e) != ""
  {
    Compaction(e.event) && Item(e) != "" && PositiveInt(e.payload, EventSeq).Some?
  }

  function Seq(e: Entry): nat
    requires Sequenced(e)
  {
    PositiveInt(e.payload, EventSeq).value
  }

  /** A start event that replay keeps: a patch without its preview object is dropped. */
  predicate Accepted(e: Entry): (r: bool)
    ensures r ==> e.event.ToolStarted?
  {
    && e.event.ToolStarted?
    && (ToolName(e) != "apply_patch" || (PatchPreview in e.payload && e.payload[PatchPreview].Object?))
  }

  /** Whether a replacement marker withdraws an assistant message. */
  predicate Supersedes(marker: Entry, item: Entry) {
    if item.actor != Some(Assistant) || item.turn != marker.turn then false
    else
      var target := PayloadText(marker.payload, SupersedesItemId);
      if target != "" then Item(item) == target
      else
        var markerEpoch := PositiveInt(marker.payload, PresentationEpoch);
        var itemEpoch := PositiveInt(item.payload, PresentationEpoch);
        if markerEpoch.None? || itemEpoch.None? then false
        else
          var scope := PayloadText(marker.payload, Scope);
          if scope == "presentation" then itemEpoch.value <= markerEpoch.value
          else if scope != "response" || itemEpoch != markerEpoch then false
          else
            var markerRound := PositiveInt(marker.payload, Round);
            var markerAttempt := PositiveInt(marker.payload, Attempt);
            var itemAttempt := PositiveInt(item.payload, Attempt);
            && markerRound.Some? && markerAttempt.Some?
            && PositiveInt(item.payload, Round) == markerRound
            && itemAttempt.Some? && itemAttempt.value < markerAttempt.value
  }

  function Withdrawn(items: seq<Entry>, marker: Entry): seq<Entry> {
    if items == [] then []
    else
      var last := items[|items| - 1];
      Withdrawn(items[..|items| - 1], marker) + if Supersedes(marker, last) then [] else [last]
  }

  // ---- Identities ----------------------------------------------------------------------------

  /** What a log event can refer to, named by identity rather than by position. */
  datatype Key =
    | AnyUser
    | UserOf(turn: string)
    | MessageOf(owner: Option<string>, item: string)
    | MessageInAnyTurn(item: string)
    | StartOf(call: string)
    | CompactionOf(owner: Option<string>, item: string)

  predicate Denotes(k: Key, e: Entry) {
    match k
    case AnyUser => e.event.MessageCreated? && e.actor == Some(User)
    case UserOf(t) => e.event.MessageCreated? && e.actor == Some(User) && e.turn == Some(t)
    case MessageOf(o, i) => e.actor == Some(Assistant) && e.turn == o && Item(e) == i
    case MessageInAnyTurn(i) => e.actor == Some(Assistant) && Item(e) == i
    case StartOf(c) => e.event.ToolStarted? && Call(e) == c && Merges(ToolName(e))
    case CompactionOf(o, i) => Sequenced(e) && e.turn == o && Item(e) == i
  }

  /** The last position whose entry has the identity. */
  function Find(items: seq<Entry>, k: Key): (r: Option<nat>)
    ensures r.Some? ==> r.value < |items| && Denotes(k, items[r.value])
    ensures r.Some? ==> forall j :: r.value < j < |items| ==> !Denotes(k, items[j])
    ensures r.None? ==> forall j :: 0 <= j < |items| ==> !Denotes(k, items[j])
  {
    FindBelow(items, k, |items|)
  }

  function FindBelow(items: seq<Entry>, k: Key, n: nat): (r: Option<nat>)
    requires n <= |items|
    ensures r.Some? ==> r.value < n && Denotes(k, items[r.value])
    ensures r.Some? ==> forall j :: r.value < j < n ==> !Denotes(k, items[j])
    ensures r.None? ==> forall j :: 0 <= j < n ==> !Denotes(k, items[j])
  {
    if n == 0 then None
    else if Denotes(k, items[n - 1]) then Some(n - 1)
    else FindBelow(items, k, n - 1)
  }

  // ---- One replay step -----------------------------------------------------------------------

  /** What a log event does to the replay list. */
  datatype Action =
    | Skip
    | Append(entry: Entry)
    | Replace(at: nat, entry: Entry)   // the event takes the place of an entry
    | Amend(at: nat, payload: Payload) // an entry keeps its place and gets the event's fields
    | Remove(at: nat)
    | Withdraw(marker: Entry)
    | IndexError

  /** What the side tables answer for an event: a position, the stored sequence number and stored start fields. */
  datatype Lookup = Lookup(at: Option<nat>, seen: nat, extra: Payload)

  function Act(items: seq<Entry>, e: Entry, look: Lookup): (a: Action)
    ensures a.Replace? || a.Remove? || a.Amend? ==> look.at == Some(a.at) && a.at < |items|
    ensures a.IndexError? ==> look.at.Some? && look.at.value >= |items|
  {
    match e.event
    case MessageSuperseded => if e.actor == Some(Assistant) then Withdraw(e) else Skip
    case MessageCreated =>
      if (e.actor != Some(User) && e.actor != Some(Assistant)) || !Truthy(Body(e.payload)) then Skip
      else if e.actor == Some(Assistant) && look.at.Some? then
        if look.at.value < |items|
        then Replace(look.at.value, e.(payload := items[look.at.value].payload + e.payload))
        else IndexError
      else Append(e)
    case MessageUpdated =>
      if e.actor == Some(Assistant) then
        if Item(e) == "" || Body(e.payload).None? || look.at.None? then Skip
        else if look.at.value >= |items| then IndexError
        else if Truthy(Body(e.payload)) then Amend(look.at.value, e.payload)
        else Remove(look.at.value)
      else if e.actor == Some(User) then
        if !Truthy(Body(e.payload)) || look.at.None? then Skip
        else if look.at.value >= |items| then IndexError
        else Amend(look.at.value, e.payload)
      else Skip
    case ContextCompacted => ActCompaction(items, e, look)
    case ContextCompactionFailed => ActCompaction(items, e, look)
    case ToolStarted => if Accepted(e) then Append(e) else Skip
    case ToolCompleted => ActCompletion(items, e, look)
    case ToolFailed => ActCompletion(items, e, look)
    case CompactionObservationStopped => Append(e)
    case TurnFailed => Append(e)
    case TurnIncomplete => Append(e)
    case TurnInterrupted => Append(e)
    case OtherEvent(_) => Skip
  }

  function ActCompaction(items: seq<Entry>, e: Entry, look: Lookup): (a: Action)
    requires Compaction(e.event)
    ensures a.Skip? || a.Append? || a.IndexError? || (a.Replace? && look.at == Some(a.at) && a.at < |items|)
    ensures a.IndexError? ==> look.at.Some? && look.at.value >= |items|
  {
    if !Sequenced(e) || look.at.None? then Append(e)
    else if Seq(e) <= look.seen then Skip
    else if look.at.value < |items| then Replace(look.at.value, e)
    else IndexError
  }

  function ActCompletion(items: seq<Entry>, e: Entry, look: Lookup): (a: Action)
    ensures a.Append? || a.IndexError? || (a.Replace? && look.at == Some(a.at) && a.at < |items|)
    ensures a.IndexError? ==> look.at.Some? && look.at.value >= |items|
  {
    if look.at.None? then Append(e.(payload := look.extra + e.payload))
    else if look.at.value >= |items| then IndexError
    else
      var started := items[look.at.value];
      if e.event.ToolFailed? && ToolName(started) == "apply_patch" then Append(e)
      else Replace(look.at.value, Merged(started, e))
  }

  function Merged(started: Entry, e: Entry): Entry {
    e.(turn := if Truthy(e.turn) then e.turn else started.turn, payload := started.payload + e.payload)
  }

  function Apply(items: seq<Entry>, a: Action): seq<Entry>
    requires a.Replace? || a.Remove? || a.Amend? ==> a.at < |items|
  {
    match a
    case Skip => items
    case Append(e) => items + [e]
    case Replace(at, e) => items[at := e]
    case Amend(at, p) => items[at := items[at].(payload := items[at].payload + p)]
    case Remove(at) => items[..at] + items[at + 1..]
    case Withdraw(m) => Withdrawn(items, m)
    case IndexError => items
  }

  /** The fields of an unmergeable start that its completion inherits. */
  function StartFields(p: Payload): Payload {
    map f | f in p && (f == Name || f == Arguments) :: p[f]
  }

  // ---- Replay through the position tables ----------------------------------------------------

  /** The five side tables of the replay loop. */
  datatype Tables = Tables(
    userByTurn: map<string, nat>,
    lastUser: Option<nat>,
    pending: map<string, nat>,
    unmerged: map<string, Payload>,
    compacted: map<(Option<string>, string), (nat, nat)>)

  function Get<K, V>(m: map<K, V>, k: K): Option<V> {
    if k in m then Some(m[k]) else None
  }

  const NOTHING: Lookup := Lookup(None, 0, map[])

  /** Assistant messages are found by scanning; everything else through a stored position. */
  function ByTables(items: seq<Entry>, tables: Tables, e: Entry): Lookup {
    if e.event.MessageCreated? || (e.event.MessageUpdated? && e.actor == Some(Assistant)) then
      Lookup(FindMessage(items, e), 0, map[])
    else if e.event.MessageUpdated? then
      Lookup(if Truthy(e.turn) then Get(tables.userByTurn, e.turn.value) else tables.lastUser, 0, map[])
    else if Sequenced(e) then
      if (e.turn, Item(e)) in tables.compacted
      then Lookup(Some(tables.compacted[(e.turn, Item(e))].1), tables.compacted[(e.turn, Item(e))].0, map[])
      else NOTHING
    else if Completion(e.event) && Call(e) != "" then
      if Call(e) in tables.pending then Lookup(Some(tables.pending[Call(e)]), 0, map[])
      else if Call(e) in tables.unmerged then Lookup(None, 0, tables.unmerged[Call(e)])
      else NOTHING
    else NOTHING
  }

  function FindMessage(items: seq<Entry>, e: Entry): (r: Option<nat>)
    ensures r.Some? ==> r.value < |items|
  {
    if Item(e) == "" then None
    else if e.event.MessageCreated? || Truthy(e.turn) then Find(items, MessageOf(e.turn, Item(e)))
    else Find(items, MessageInAnyTurn(Item(e)))
  }

  /** The tables after an event whose action was `a` on a list of `n` entries. */
  function Track(tables: Tables, n: nat, e: Entry, a: Action): Tables {
    if e.event.MessageCreated? && e.actor == Some(User) && a.Append? then
      tables.(lastUser := Some(n),
              userByTurn := if Truthy(e.turn) then tables.userByTurn[e.turn.value := n] else tables.userByTurn)
    else if Sequenced(e) && a.Append? then
      tables.(compacted := tables.compacted[(e.turn, Item(e)) := (Seq(e), n)])
    else if Sequenced(e) && a.Replace? then
      tables.(compacted := tables.compacted[(e.turn, Item(e)) := (Seq(e), a.at)])
    else if Accepted(e) && Call(e) != "" then
      if Merges(ToolName(e)) then tables.(pending := tables.pending[Call(e) := n])
      else tables.(unmerged := tables.unmerged[Call(e) := StartFields(e.payload)])
    else if Completion(e.event) && Call(e) != "" then
      if Call(e) in tables.pending then tables.(pending := tables.pending - {Call(e)})
      else tables.(unmerged := tables.unmerged - {Call(e)})
    else tables
  }

  datatype Cursor = Cursor(items: seq<Entry>, tables: Tables)

  const START: Cursor := Cursor([], Tables(map[], None, map[], map[], map[]))

  /** One pass of the replay loop; `None` is Python's IndexError. */
  function Step(c: Cursor, e: Entry): Option<Cursor> {
    var a := Act(c.items, e, ByTables(c.items, c.tables, e));
    if a.IndexError? then None
    else Some(Cursor(Apply(c.items, a), Track(c.tables, |c.items|, e, a)))
  }

  function Run(log: seq<Entry>): Option<Cursor> {
    if log == [] then Some(START)
    else
      match Run(log[..|log| - 1])
      case None => None
      case Some(c) => Step(c, log[|log| - 1])
  }

  function Replay(log: seq<Entry>): Option<seq<Entry>> {
    match Run(log)
    case None => None
    case Some(c) => Some(c.items)
  }

  // ---- Replay by identity --------------------------------------------------------------------

  /** What replay must remember besides its list: which calls are open, and the fields of unmergeable starts. */
  datatype Memory = Memory(open: set<string>, unmerged: map<string, Payload>)

  function Remember(m: Memory, e: Entry): Memory {
    if Accepted(e) && Call(e) != "" then
      if Merges(ToolName(e)) then m.(open := m.open + {Call(e)})
      else m.(unmerged := m.unmerged[Call(e) := StartFields(e.payload)])
    else if Completion(e.event) && Call(e) != "" then
      if Call(e) in m.open then m.(open := m.open - {Call(e)})
      else m.(unmerged := m.unmerged - {Call(e)})
    else m
  }

  function SeqAt(items: seq<Entry>, at: Option<nat>): nat {
    if at.Some? && at.value < |items| && Sequenced(items[at.value]) then Seq(items[at.value]) else 0
  }

  /** The same answers as the tables give, computed by scanning the list for identities. */
  function ByIdentity(items: seq<Entry>, m: Memory, e: Entry): (look: Lookup)
    ensures look.at.Some? ==> look.at.value < |items|
  {
    if e.event.MessageCreated? || (e.event.MessageUpdated? && e.actor == Some(Assistant)) then
      Lookup(FindMessage(items, e), 0, map[])
    else if e.event.MessageUpdated? then
      Lookup(Find(items, if Truthy(e.turn) then UserOf(e.turn.value) else AnyUser), 0, map[])
    else if Sequenced(e) then
      var at := Find(items, CompactionOf(e.turn, Item(e)));
      Lookup(at, SeqAt(items, at), map[])
    else if Completion(e.event) && Call(e) != "" then
      if Call(e) in m.open then Lookup(Find(items, StartOf(Call(e))), 0, map[])
      else if Call(e) in m.unmerged then Lookup(None, 0, m.unmerged[Call(e)])
      else NOTHING
    else NOTHING
  }

  datatype Story = Story(items: seq<Entry>, memory: Memory)

  function Decide(s: Story, e: Entry): (a: Action)
    ensures a.Replace? || a.Remove? || a.Amend? ==> a.at < |s.items|
    ensures !a.IndexError?
  {
    Act(s.items, e, ByIdentity(s.items, s.memory, e))
  }

  function Tell(s: Story, e: Entry): Story {
    Story(Apply(s.items, Decide(s, e)), Remember(s.memory, e))
  }

  /** The position-free fold: no table holds an index, every reference is looked up by identity. */
  function Narrate(log: seq<Entry>): Story {
    if log == [] then Story([], Memory({}, map[]))
    else Tell(Narrate(log[..|log| - 1]), log[|log| - 1])
  }
}
