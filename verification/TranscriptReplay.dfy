/** The replay loop itself, with its list and its five tables updated in place. */
module TranscriptReplay {
  import opened Text
  import opened Transcripts
  import opened TranscriptRefinement

  /** The reverse scan for the last entry of an identity. */
  method FindLast(items: seq<Entry>, k: Key) returns (r: Option<nat>)
    ensures r == Find(items, k)
  {
    hide Denotes;
    for index := |items| downto 0
      invariant FindBelow(items, k, index) == Find(items, k)
    {
      if Denotes(k, items[index]) {
        return Some(index);
      }
    }
    return None;
  }

  method FindTarget(items: seq<Entry>, e: Entry) returns (r: Option<nat>)
    ensures r == FindMessage(items, e)
  {
    if Item(e) == "" {
      r := None;
    } else if e.event.MessageCreated? || Truthy(e.turn) {
      r := FindLast(items, MessageOf(e.turn, Item(e)));
    } else {
      r := FindLast(items, MessageInAnyTurn(Item(e)));
    }
  }

  /** The local state of one replay. */
  class ReplayLoop {
    var replay: seq<Entry>
    var userByTurn: map<string, nat>
    var lastUser: Option<nat>
    var pending: map<string, nat>
    var unmerged: map<string, Payload>
    var compacted: map<(Option<string>, string), (nat, nat)>

    function State(): Cursor
      reads this
    {
      Cursor(replay, Tables(userByTurn, lastUser, pending, unmerged, compacted))
    }

    constructor ()
      ensures State() == START
    {
      replay, userByTurn, lastUser, pending, unmerged, compacted := [], map[], None, map[], map[], map[];
    }

    method Create(e: Entry)
      requires e.event.MessageCreated?
      modifies this
      ensures Step(old(State()), e) == Some(State())
    {
      hide PayloadText, Body, FindBelow, Denotes;
      if (e.actor == Some(User) || e.actor == Some(Assistant)) && Truthy(Body(e.payload)) {
        if e.actor == Some(Assistant) {
          var target := FindTarget(replay, e);
          if target.Some? {
            var previous := replay[target.value];
            replay := replay[target.value := e.(payload := previous.payload + e.payload)];
            return;
          }
        }
        replay := replay + [e];
        if e.actor == Some(User) {
          lastUser := Some(|replay| - 1);
          if Truthy(e.turn) {
            userByTurn := userByTurn[e.turn.value := |replay| - 1];
          }
        }
      }
    }

    method Update(e: Entry) returns (ok: bool)
      requires e.event.MessageUpdated?
      modifies this
      ensures ok == Step(old(State()), e).Some?
      ensures ok ==> Step(old(State()), e) == Some(State())
    {
      hide PayloadText, Body, FindBelow, Denotes;
      ok := true;
      if e.actor == Some(Assistant) {
        if Item(e) == "" || Body(e.payload).None? {
          return;
        }
        var target := FindTarget(replay, e);
        if target.None? {
          return;
        }
        if Truthy(Body(e.payload)) {
          var previous := replay[target.value];
          replay := replay[target.value := previous.(payload := previous.payload + e.payload)];
        } else {
          replay := replay[..target.value] + replay[target.value + 1..];
        }
      } else if e.actor == Some(User) && Truthy(Body(e.payload)) {
        var target := if Truthy(e.turn) then Get(userByTurn, e.turn.value) else lastUser;
        if target.Some? {
          if target.value >= |replay| {
            return false;
          }
          var previous := replay[target.value];
          replay := replay[target.value := previous.(payload := previous.payload + e.payload)];
        }
      }
    }

    method Compact(e: Entry) returns (ok: bool)
      requires Compaction(e.event)
      modifies this
      ensures ok == Step(old(State()), e).Some?
      ensures ok ==> Step(old(State()), e) == Some(State())
    {
      hide PayloadText, FindBelow, Denotes;
      ok := true;
      if Sequenced(e) {
        var identity := (e.turn, Item(e));
        if identity in compacted {
          var (seen, previous) := compacted[identity];
          if Seq(e) <= seen {
            return;
          }
          if previous >= |replay| {
            return false;
          }
          replay := replay[previous := e];
          compacted := compacted[identity := (Seq(e), previous)];
          return;
        }
        compacted := compacted[identity := (Seq(e), |replay|)];
      }
      replay := replay + [e];
    }

    method Begin(e: Entry)
      requires e.event.ToolStarted?
      modifies this
      ensures Step(old(State()), e) == Some(State())
    {
      hide PayloadText, Accepted, Merges, FindBelow, Denotes;
      if Accepted(e) {
        replay := replay + [e];
        if Call(e) != "" && Merges(ToolName(e)) {
          pending := pending[Call(e) := |replay| - 1];
        } else if Call(e) != "" {
          unmerged := unmerged[Call(e) := StartFields(e.payload)];
        }
      }
    }

    method Complete(e: Entry) returns (ok: bool)
      requires Completion(e.event)
      modifies this
      ensures ok == Step(old(State()), e).Some?
      ensures ok ==> Step(old(State()), e) == Some(State())
    {
      hide PayloadText, FindBelow, Denotes;
      ok := true;
      assert map[] + e.payload == e.payload;
      if Call(e) != "" && Call(e) in pending {
        var target := pending[Call(e)];
        pending := pending - {Call(e)};
        if target >= |replay| {
          return false;
        }
        var started := replay[target];
        if e.event.ToolFailed? && ToolName(started) == "apply_patch" {
          replay := replay + [e];
        } else {
          replay := replay[target := Merged(started, e)];
        }
      } else if Call(e) != "" && Call(e) in unmerged {
        var metadata := unmerged[Call(e)];
        unmerged := unmerged - {Call(e)};
        replay := replay + [if metadata != map[] then e.(payload := metadata + e.payload) else e];
      } else {
        assert Call(e) != "" ==> unmerged - {Call(e)} == unmerged;
        replay := replay + [e];
      }
    }

    method Pass(e: Entry) returns (ok: bool)
      modifies this
      ensures ok == Step(old(State()), e).Some?
      ensures ok ==> Step(old(State()), e) == Some(State())
    {
      hide PayloadText, FindBelow, Denotes, Withdrawn;
      ok := true;
      match e.event {
        case MessageSuperseded =>
          if e.actor == Some(Assistant) {
            replay := Withdrawn(replay, e);
          }
        case MessageCreated => Create(e);
        case MessageUpdated => ok := Update(e);
        case ContextCompacted => ok := Compact(e);
        case ContextCompactionFailed => ok := Compact(e);
        case ToolStarted => Begin(e);
        case ToolCompleted => ok := Complete(e);
        case ToolFailed => ok := Complete(e);
        case OtherEvent(_) =>
        case _ => replay := replay + [e];
      }
    }
  }

  class TranscriptReplay {
    const entries: seq<Entry>

    constructor (entries: seq<Entry>)
      ensures this.entries == entries
    {
      this.entries := entries;
    }

    /** `None` stands for IndexError. On a clean log the result is what looking every entry up by identity gives. */
    method Build() returns (r: Option<seq<Entry>>)
      ensures r == Replay(entries)
      ensures WellActored(entries) && Clean(entries) ==> r == Some(Narrate(entries).items)
    {
      hide Step, Clean, Narrate;
      var loop := new ReplayLoop();
      if WellActored(entries) && Clean(entries) {
        ReplayIsIdentityFold(entries);
      }
      for i := 0 to |entries|
        invariant fresh(loop)
        invariant Run(entries[..i]) == Some(loop.State())
      {
        assert entries[..i + 1][..i] == entries[..i];
        var ok := loop.Pass(entries[i]);
        if !ok {
          RaisedStays(entries, i + 1);
          return None;
        }
      }
      assert entries[..|entries|] == entries;
      r := Some(loop.replay);
    }
  }

  /** An event that raises ends the replay. */
  lemma {:induction false} RaisedStays(log: seq<Entry>, i: nat)
    requires i <= |log| && Run(log[..i]).None?
    ensures Run(log).None?
    decreases |log|
  {
    hide Step;
    if i == |log| {
      assert log[..i] == log;
    } else {
      assert log[..|log| - 1][..i] == log[..i];
      RaisedStays(log[..|log| - 1], i);
    }
  }
}
