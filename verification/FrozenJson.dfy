/** Freezing JSON-like Python values into immutable ones, and thawing them into plain containers. */
module FrozenJson {
  import opened Text

  /** The field names the protocol spells out. */
  datatype Name =
    | Cid | Sid | TurnId | PrefConfig | Message | Tools | Attachments | EnvironmentSnapshot | Metadata | Options
    | Timeout
    | RequestId | Target | Delivery | Workspace | Execution | SessionMode
    | CommandId | SessionId | RunId | Kind | Payload | IdempotencyKey | CausationId | TraceContext | Request | Extras
    | LlmConf | AdditionalContext | SystemMessage | Streaming | HostedTools | Skills | SandboxMode
    | Annotations | ReadOnlyHint | ExecEnv | OnApprovalSnapshot | OnRecoveryStatus

  /** A dictionary key: a spelled-out name, any other text, or something that is not text. */
  datatype Key = Known(name: Name) | Named(text: string) | NotText(id: int)

  /** A Python value. `Proxy` is a read-only mapping view, `Foreign` anything JSON cannot hold. */
  datatype Value =
    | Null | Bool(on: bool) | Int(n: int) | Float(r: real) | NotFinite | Str(s: string)
    | List(items: seq<Value>) | Tuple(items: seq<Value>)
    | Dict(fields: map<Key, Value>) | Proxy(fields: map<Key, Value>)
    | Foreign(id: int)

  type Fields = map<Key, Value>

  predicate TextKeys(m: Fields) {
    forall k | k in m :: !k.NotText?
  }

  /** `None` stands for the TypeError or ValueError of a rejected value. */
  function Freeze(v: Value): Option<Value> {
    match v
    case Null => Some(v)
    case Bool(_) => Some(v)
    case Int(_) => Some(v)
    case Str(_) => Some(v)
    case Float(_) => Some(v)
    case NotFinite => None
    case List(items) => FreezeItems(items)
    case Tuple(items) => FreezeItems(items)
    case Dict(m) =>
      if TextKeys(m) && forall k | k in m :: Freeze(m[k]).Some?
      then Some(Proxy(map k | k in m :: Freeze(m[k]).value))
      else None
    case Proxy(_) => None
    case Foreign(_) => None
  }

  function FreezeItems(items: seq<Value>): Option<Value> {
    if forall i | 0 <= i < |items| :: Freeze(items[i]).Some?
    then Some(Tuple(seq(|items|, i requires 0 <= i < |items| && Freeze(items[i]).Some? => Freeze(items[i]).value)))
    else None
  }

  function Thaw(v: Value): Value {
    match v
    case Dict(m) => Dict(map k | k in m :: Thaw(m[k]))
    case Proxy(m) => Dict(map k | k in m :: Thaw(m[k]))
    case Tuple(items) => List(seq(|items|, i requires 0 <= i < |items| => Thaw(items[i])))
    case _ => v
  }

  /** What freezing accepts: finite JSON data in plain containers with text keys, however deep. */
  predicate Plain(v: Value) {
    match v
    case NotFinite => false
    case Proxy(_) => false
    case Foreign(_) => false
    case List(items) => forall i | 0 <= i < |items| :: Plain(items[i])
    case Tuple(items) => forall i | 0 <= i < |items| :: Plain(items[i])
    case Dict(m) => (forall k | k in m :: k.Known? || k.Named?) && forall k | k in m :: Plain(m[k])
    case _ => true
  }

  /** What freezing returns: no mutable container anywhere. */
  predicate Frozen(v: Value) {
    match v
    case NotFinite => false
    case List(_) => false
    case Dict(_) => false
    case Foreign(_) => false
    case Tuple(items) => forall i | 0 <= i < |items| :: Frozen(items[i])
    case Proxy(m) => TextKeys(m) && forall k | k in m :: Frozen(m[k])
    case _ => true
  }

  /** The value with its tuples turned into lists. */
  function Listed(v: Value): Value {
    match v
    case List(items) => List(seq(|items|, i requires 0 <= i < |items| => Listed(items[i])))
    case Tuple(items) => List(seq(|items|, i requires 0 <= i < |items| => Listed(items[i])))
    case Dict(m) => Dict(map k | k in m :: Listed(m[k]))
    case _ => v
  }

  /**
   * Freezing accepts exactly plain data, returns immutable data, and thawing gives the data back with lists for
   * tuples.
   */
  lemma {:induction false} FreezeThaws(v: Value)
    ensures Freeze(v).Some? <==> Plain(v)
    ensures Freeze(v).Some? ==> Frozen(Freeze(v).value) && Thaw(Freeze(v).value) == Listed(v)
  {
    match v
    case List(items) => ItemsThaw(items);
    case Tuple(items) => ItemsThaw(items);
    case Dict(m) =>
      forall k | k in m
        ensures Freeze(m[k]).Some? <==> Plain(m[k])
        ensures Freeze(m[k]).Some? ==> Frozen(Freeze(m[k]).value) && Thaw(Freeze(m[k]).value) == Listed(m[k])
      {
        FreezeThaws(m[k]);
      }
    case _ =>
  }

  lemma {:induction false} ItemsThaw(items: seq<Value>)
    ensures FreezeItems(items).Some? <==> forall i | 0 <= i < |items| :: Plain(items[i])
    ensures FreezeItems(items).Some? ==>
              && Frozen(FreezeItems(items).value) && FreezeItems(items).value.Tuple?
              && Thaw(FreezeItems(items).value) == List(seq(|items|, i requires 0 <= i < |items| => Listed(items[i])))
  {
    forall i | 0 <= i < |items|
      ensures Freeze(items[i]).Some? <==> Plain(items[i])
      ensures Freeze(items[i]).Some? ==>
                Frozen(Freeze(items[i]).value) && Thaw(Freeze(items[i]).value) == Listed(items[i])
    {
      FreezeThaws(items[i]);
    }
  }

  /** Thawed immutable data freezes to what it was. */
  lemma {:induction false} ThawFreezes(v: Value)
    requires Frozen(v)
    ensures Freeze(Thaw(v)) == Some(v)
  {
    match v
    case Tuple(items) =>
      var thawed := Thaw(v).items;
      forall i | 0 <= i < |items| ensures Freeze(thawed[i]) == Some(items[i]) {
        ThawFreezes(items[i]);
      }
      assert FreezeItems(thawed).Some?;
      assert FreezeItems(thawed).value.items == items;
    case Proxy(m) =>
      var thawed := Thaw(v).fields;
      forall k | k in m ensures Freeze(thawed[k]) == Some(m[k]) {
        ThawFreezes(m[k]);
      }
      assert thawed.Keys == m.Keys;
      assert Freeze(Dict(thawed)).value.fields == m;
    case _ =>
  }

  /** A round trip through thawed data changes nothing about a frozen value. */
  lemma FreezeStable(v: Value)
    requires Freeze(v).Some?
    ensures Freeze(Thaw(Freeze(v).value)) == Freeze(v)
  {
    FreezeThaws(v);
    ThawFreezes(Freeze(v).value);
  }

  /** No mapping anywhere. */
  predicate Flat(v: Value) {
    match v
    case Tuple(items) => forall i | 0 <= i < |items| :: Flat(items[i])
    case List(items) => forall i | 0 <= i < |items| :: Flat(items[i])
    case Dict(_) => false
    case Proxy(_) => false
    case _ => true
  }

  /** Freezing an already frozen value without thawing it first works exactly when it holds no mapping. */
  lemma {:induction false} RefreezeIffFlat(v: Value)
    requires Frozen(v)
    ensures Freeze(v).Some? <==> Flat(v)
    ensures Freeze(v).Some? ==> Freeze(v) == Some(v)
  {
    match v
    case Tuple(items) =>
      forall i | 0 <= i < |items|
        ensures Freeze(items[i]).Some? <==> Flat(items[i])
        ensures Freeze(items[i]).Some? ==> Freeze(items[i]) == Some(items[i])
      {
        RefreezeIffFlat(items[i]);
      }
      if FreezeItems(items).Some? {
        assert FreezeItems(items).value.items == items;
      }
    case _ =>
  }
}
