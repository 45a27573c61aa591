/** The persisted requests and commands of the agent protocol: normalising construction and dictionary forms. */
module Protocol {
  import opened Text
  import opened FrozenJson

  // ---- Field readers -------------------------------------------------------------------------

  function Look(m: Fields, name: Name): Value {
    if Known(name) in m then m[Known(name)] else Null
  }

  /** A required text field: not blank, kept stripped. */
  function Identity(v: Value): Option<string> {
    if v.Str? && Strip(v.s) != "" then Some(Strip(v.s)) else None
  }

  predicate Mapping(v: Value) { v.Dict? || v.Proxy? }

  /** A mapping of any kind, copied into a plain dictionary and frozen. */
  function FrozenObject(v: Value): Option<Fields> {
    if Mapping(v) && Freeze(Dict(v.fields)).Some? then Some(Freeze(Dict(v.fields)).value.fields) else None
  }

  function OptionalObject(v: Value): Option<Option<Fields>> {
    if v.Null? then Some(None)
    else match FrozenObject(v)
      case None => None
      case Some(m) => Some(Some(m))
  }

  function FrozenObjects(values: seq<Value>): Option<seq<Fields>> {
    if forall i | 0 <= i < |values| :: FrozenObject(values[i]).Some?
    then Some(seq(|values|, i requires 0 <= i < |values| && FrozenObject(values[i]).Some? =>
                              FrozenObject(values[i]).value))
    else None
  }

  function ThawObject(m: Fields): Value {
    Thaw(Proxy(m))
  }

  function ThawOptional(m: Option<Fields>): Value {
    if m.None? then Null else ThawObject(m.value)
  }

  function ThawObjects(ms: seq<Fields>): Value {
    List(seq(|ms|, i requires 0 <= i < |ms| => ThawObject(ms[i])))
  }

  predicate Immutable(m: Fields) { Frozen(Proxy(m)) }

  predicate AllImmutable(ms: seq<Fields>) { forall i | 0 <= i < |ms| :: Immutable(ms[i]) }

  predicate Stripped(s: string) { s != "" && Strip(s) == s }

  lemma IdentityStripped(v: Value)
    ensures Identity(v).Some? ==> Stripped(Identity(v).value) && Identity(Str(Identity(v).value)) == Identity(v)
  {
    if v.Str? {
      StripIdempotent(v.s);
    }
  }

  lemma ObjectFreezes(v: Value)
    ensures FrozenObject(v).Some? ==> Immutable(FrozenObject(v).value)
  {
    if Mapping(v) {
      FreezeThaws(Dict(v.fields));
    }
  }

  lemma ObjectReturns(m: Fields)
    requires Immutable(m)
    ensures ThawObject(m).Dict? && FrozenObject(ThawObject(m)) == Some(m)
  {
    ThawFreezes(Proxy(m));
    assert Dict(ThawObject(m).fields) == ThawObject(m);
  }

  lemma ObjectsFreeze(values: seq<Value>)
    ensures FrozenObjects(values).Some? ==> AllImmutable(FrozenObjects(values).value)
  {
    if FrozenObjects(values).Some? {
      forall i | 0 <= i < |values| ensures Immutable(FrozenObjects(values).value[i]) {
        ObjectFreezes(values[i]);
      }
    }
  }

  lemma ObjectsReturn(ms: seq<Fields>)
    requires AllImmutable(ms)
    ensures ThawObjects(ms).List? && |ThawObjects(ms).items| == |ms|
    ensures FrozenObjects(ThawObjects(ms).items) == Some(ms)
    ensures forall i | 0 <= i < |ms| :: ThawObjects(ms).items[i].Dict?
  {
    var values := ThawObjects(ms).items;
    forall i | 0 <= i < |ms| ensures values[i].Dict? && FrozenObject(values[i]) == Some(ms[i]) {
      ObjectReturns(ms[i]);
    }
    assert FrozenObjects(values).Some?;
    assert FrozenObjects(values).value == ms;
  }

  lemma OptionalFreezes(v: Value)
    ensures OptionalObject(v).Some? && OptionalObject(v).value.Some? ==> Immutable(OptionalObject(v).value.value)
  {
    ObjectFreezes(v);
  }

  lemma OptionalReturns(m: Option<Fields>)
    requires m.Some? ==> Immutable(m.value)
    ensures OptionalObject(ThawOptional(m)) == Some(m)
    ensures if m.Some? then ThawOptional(m).Dict? else ThawOptional(m).Null?
  {
    if m.Some? {
      ObjectReturns(m.value);
    }
  }

  // ---- Model requests ------------------------------------------------------------------------

  datatype ModelRequest = ModelRequest(
    cid: string, sid: string, turnId: string, prefConfig: Fields, message: string,
    tools: seq<Fields>, attachments: seq<Fields>, environment: Option<Fields>,
    metadata: Fields, options: Fields, timeout: real)

  const RESERVED_OPTIONS: set<Key> := {
    Known(Attachments), Known(Cid), Known(EnvironmentSnapshot), Known(ExecEnv), Known(Message), Known(Metadata),
    Known(OnApprovalSnapshot), Known(OnRecoveryStatus), Known(PrefConfig), Known(Sid), Known(Timeout), Known(Tools),
    Known(TurnId) }

  const RESERVED_METADATA: set<Key> := { Known(Cid), Known(Sid), Known(TurnId) }

  predicate Avoids(m: Fields, names: set<Key>) { m.Keys !! names }

  /** A positive finite number. */
  function Seconds(v: Value): Option<real> {
    if v.Int? && v.n > 0 then Some(v.n as real)
    else if v.Float? && v.r > 0.0 then Some(v.r)
    else None
  }

  predicate Sequence(v: Value) { v.List? || v.Tuple? }

  function NewModelRequest(cid: Value, sid: Value, turnId: Value, prefConfig: Value, message: Value, tools: Value,
                           attachments: Value, environment: Value, metadata: Value, options: Value, timeout: Value)
    : Option<ModelRequest>
  {
    if Identity(cid).None? || Identity(sid).None? || Identity(turnId).None? || !message.Str?
       || !Sequence(tools) || !Sequence(attachments) || FrozenObject(prefConfig).None?
       || OptionalObject(environment).None? || FrozenObject(metadata).None? || FrozenObject(options).None?
       || !Avoids(options.fields, RESERVED_OPTIONS) || !Avoids(metadata.fields, RESERVED_METADATA)
       || Seconds(timeout).None? || FrozenObjects(tools.items).None? || FrozenObjects(attachments.items).None?
    then None
    else Some(ModelRequest(
      Identity(cid).value, Identity(sid).value, Identity(turnId).value, FrozenObject(prefConfig).value, message.s,
      FrozenObjects(tools.items).value, FrozenObjects(attachments.items).value, OptionalObject(environment).value,
      FrozenObject(metadata).value, FrozenObject(options).value, Seconds(timeout).value))
  }

  function ModelToDict(r: ModelRequest): Fields {
    map[Known(Cid) := Str(r.cid), Known(Sid) := Str(r.sid), Known(TurnId) := Str(r.turnId),
        Known(PrefConfig) := ThawObject(r.prefConfig), Known(Message) := Str(r.message),
        Known(Tools) := ThawObjects(r.tools), Known(Attachments) := ThawObjects(r.attachments),
        Known(EnvironmentSnapshot) := ThawOptional(r.environment), Known(Metadata) := ThawObject(r.metadata),
        Known(Options) := ThawObject(r.options), Known(Timeout) := Float(r.timeout)]
  }

  predicate AllDicts(values: seq<Value>) {
    forall i | 0 <= i < |values| :: values[i].Dict?
  }

  const MODEL_KEYS: set<Key> := {
    Known(Cid), Known(Sid), Known(TurnId), Known(PrefConfig), Known(Message), Known(Tools), Known(Attachments),
    Known(EnvironmentSnapshot), Known(Metadata), Known(Options), Known(Timeout) }

  function ModelFromDict(m: Fields): Option<ModelRequest> {
    if m.Keys != MODEL_KEYS || !m[Known(PrefConfig)].Dict? || !m[Known(Tools)].List? || !m[Known(Attachments)].List?
       || !(m[Known(EnvironmentSnapshot)].Null? || m[Known(EnvironmentSnapshot)].Dict?)
       || !m[Known(Metadata)].Dict? || !m[Known(Options)].Dict?
       || !m[Known(Cid)].Str? || !m[Known(Sid)].Str? || !m[Known(TurnId)].Str? || !m[Known(Message)].Str?
       || !(m[Known(Timeout)].Int? || m[Known(Timeout)].Float? || m[Known(Timeout)].NotFinite?)
       || !AllDicts(m[Known(Tools)].items) || !AllDicts(m[Known(Attachments)].items)
    then None
    else NewModelRequest(
      m[Known(Cid)], m[Known(Sid)], m[Known(TurnId)], m[Known(PrefConfig)], m[Known(Message)], m[Known(Tools)],
      m[Known(Attachments)], m[Known(EnvironmentSnapshot)], m[Known(Metadata)], m[Known(Options)], m[Known(Timeout)])
  }

  /** What every constructed request satisfies. */
  predicate ValidModel(r: ModelRequest) {
    && Stripped(r.cid) && Stripped(r.sid) && Stripped(r.turnId)
    && Immutable(r.prefConfig) && Immutable(r.metadata) && Immutable(r.options)
    && AllImmutable(r.tools) && AllImmutable(r.attachments)
    && (r.environment.Some? ==> Immutable(r.environment.value))
    && Avoids(r.options, RESERVED_OPTIONS) && Avoids(r.metadata, RESERVED_METADATA) && r.timeout > 0.0
  }

  lemma KeysKept(v: Value)
    ensures FrozenObject(v).Some? ==> FrozenObject(v).value.Keys == v.fields.Keys
  {
  }

  lemma NewModelIsValid(cid: Value, sid: Value, turnId: Value, prefConfig: Value, message: Value, tools: Value,
                        attachments: Value, environment: Value, metadata: Value, options: Value, timeout: Value)
    ensures var r := NewModelRequest(cid, sid, turnId, prefConfig, message, tools, attachments, environment, metadata,
                                     options, timeout);
            r.Some? ==> ValidModel(r.value)
  {
    hide Strip, FrozenObject, FrozenObjects, Frozen, Freeze;
    var r := NewModelRequest(cid, sid, turnId, prefConfig, message, tools, attachments, environment, metadata,
                             options, timeout);
    if r.Some? {
      IdentityStripped(cid);
      IdentityStripped(sid);
      IdentityStripped(turnId);
      ObjectFreezes(prefConfig);
      ObjectFreezes(metadata);
      ObjectFreezes(options);
      KeysKept(metadata);
      KeysKept(options);
      OptionalFreezes(environment);
      ObjectsFreeze(tools.items);
      ObjectsFreeze(attachments.items);
    }
  }

  lemma ModelDictReads(r: ModelRequest)
    ensures var m := ModelToDict(r);
            && m.Keys == MODEL_KEYS
            && Look(m, Cid) == Str(r.cid) && Look(m, Sid) == Str(r.sid) && Look(m, TurnId) == Str(r.turnId)
            && Look(m, PrefConfig) == ThawObject(r.prefConfig) && Look(m, Message) == Str(r.message)
            && Look(m, Tools) == ThawObjects(r.tools) && Look(m, Attachments) == ThawObjects(r.attachments)
            && Look(m, EnvironmentSnapshot) == ThawOptional(r.environment)
            && Look(m, Metadata) == ThawObject(r.metadata)
            && Look(m, Options) == ThawObject(r.options) && Look(m, Timeout) == Float(r.timeout)
  {
    hide Thaw, ThawObject, ThawObjects, ThawOptional;
  }

  /** A valid request comes back from its dictionary form unchanged. */
  lemma ModelRoundTrip(r: ModelRequest)
    requires ValidModel(r)
    ensures ModelFromDict(ModelToDict(r)) == Some(r)
  {
    hide Strip, FrozenObject, FrozenObjects, OptionalObject, Frozen, Freeze, Thaw, ThawObject, ThawObjects,
         ThawOptional, ModelToDict;
    ModelDictReads(r);
    ObjectReturns(r.prefConfig);
    ObjectReturns(r.metadata);
    ObjectReturns(r.options);
    ThawKeys(r.metadata);
    ThawKeys(r.options);
    ObjectsReturn(r.tools);
    ObjectsReturn(r.attachments);
    OptionalReturns(r.environment);
  }

  lemma ThawKeys(m: Fields)
    ensures ThawObject(m).Dict? && ThawObject(m).fields.Keys == m.Keys
  {
  }

  // ---- Review requests -----------------------------------------------------------------------

  datatype Mode = Create | Existing

  datatype ReviewRequest = ReviewRequest(
    requestId: string, cid: string, sid: string, turnId: string,
    target: Fields, workspace: Fields, execution: Fields, mode: Mode)

  const INLINE: Value := Str("inline")

  function ModeText(m: Mode): string { if m.Create? then "create" else "existing" }

  function ModeOf(v: Value): Option<Mode> {
    if v == Str(ModeText(Create)) then Some(Create) else if v == Str(ModeText(Existing)) then Some(Existing) else None
  }

  lemma ModeReturns(m: Mode)
    ensures ModeOf(Str(ModeText(m))) == Some(m)
  {
    assert |"create"| != |"existing"|;
  }

  /** A tool of a review declares that it only reads. */
  predicate ReadOnlyTool(v: Value) {
    && v.Proxy? && Look(v.fields, Annotations).Proxy?
    && Look(Look(v.fields, Annotations).fields, ReadOnlyHint) == Bool(true)
  }

  /** What Python finds equal to `False`. */
  predicate EqualsFalse(v: Value) {
    v == Bool(false) || v == Int(0) || v == Float(0.0)
  }

  /** A review executes nothing but read-only tools, with fixed settings for everything else. */
  predicate ReviewExecution(m: Fields) {
    && m.Keys == { Known(LlmConf), Known(AdditionalContext), Known(SystemMessage), Known(Attachments), Known(Streaming),
                   Known(Tools), Known(HostedTools), Known(Skills), Known(SandboxMode), Known(Metadata) }
    && m[Known(AdditionalContext)] == Tuple([]) && m[Known(SystemMessage)] == Str("") && m[Known(Attachments)] == Null
    && EqualsFalse(m[Known(Streaming)]) && m[Known(HostedTools)] == Null && m[Known(Skills)] == Null
    && m[Known(SandboxMode)] == Str("read-only")
    && m[Known(LlmConf)].Proxy? && (m[Known(Metadata)].Null? || m[Known(Metadata)].Proxy?)
    && (m[Known(Tools)].Null?
        || (m[Known(Tools)].Tuple? && forall v | v in m[Known(Tools)].items :: ReadOnlyTool(v)))
  }

  function NewReviewRequest(requestId: Value, cid: Value, sid: Value, turnId: Value, target: Value, workspace: Value,
                            execution: Value, mode: Value, delivery: Value): Option<ReviewRequest>
  {
    if Identity(requestId).None? || Identity(cid).None? || Identity(sid).None? || Identity(turnId).None?
       || delivery != INLINE || ModeOf(mode).None?
       || FrozenObject(target).None? || FrozenObject(workspace).None? || FrozenObject(execution).None?
       || !ReviewExecution(FrozenObject(execution).value)
    then None
    else Some(ReviewRequest(
      Identity(requestId).value, Identity(cid).value, Identity(sid).value, Identity(turnId).value,
      FrozenObject(target).value, FrozenObject(workspace).value, FrozenObject(execution).value, ModeOf(mode).value))
  }

  function ReviewToDict(r: ReviewRequest): Fields {
    map[Known(RequestId) := Str(r.requestId), Known(Cid) := Str(r.cid), Known(Sid) := Str(r.sid),
        Known(TurnId) := Str(r.turnId), Known(Target) := ThawObject(r.target), Known(Delivery) := INLINE,
        Known(Workspace) := ThawObject(r.workspace), Known(Execution) := ThawObject(r.execution),
        Known(SessionMode) := Str(ModeText(r.mode))]
  }

  const REVIEW_KEYS: set<Key> := {
    Known(RequestId), Known(Cid), Known(Sid), Known(TurnId), Known(Target), Known(Delivery), Known(Workspace),
    Known(Execution), Known(SessionMode) }

  function ReviewFromDict(m: Fields): Option<ReviewRequest> {
    if m.Keys != REVIEW_KEYS
       || !m[Known(RequestId)].Str? || !m[Known(Cid)].Str? || !m[Known(Sid)].Str? || !m[Known(TurnId)].Str?
       || !m[Known(Target)].Dict? || !m[Known(Workspace)].Dict? || !m[Known(Execution)].Dict?
       || ModeOf(m[Known(SessionMode)]).None? || m[Known(Delivery)] != INLINE
    then None
    else NewReviewRequest(
      m[Known(RequestId)], m[Known(Cid)], m[Known(Sid)], m[Known(TurnId)], m[Known(Target)], m[Known(Workspace)],
      m[Known(Execution)], m[Known(SessionMode)], INLINE)
  }

  predicate ValidReview(r: ReviewRequest) {
    && Stripped(r.requestId) && Stripped(r.cid) && Stripped(r.sid) && Stripped(r.turnId)
    && Immutable(r.target) && Immutable(r.workspace) && Immutable(r.execution) && ReviewExecution(r.execution)
  }

  lemma NewReviewIsValid(requestId: Value, cid: Value, sid: Value, turnId: Value, target: Value, workspace: Value,
                         execution: Value, mode: Value, delivery: Value)
    ensures var r := NewReviewRequest(requestId, cid, sid, turnId, target, workspace, execution, mode, delivery);
            r.Some? ==> ValidReview(r.value)
  {
    hide Strip, FrozenObject, ReviewExecution, Frozen, Freeze, ModeOf;
    IdentityStripped(requestId);
    IdentityStripped(cid);
    IdentityStripped(sid);
    IdentityStripped(turnId);
    ObjectFreezes(target);
    ObjectFreezes(workspace);
    ObjectFreezes(execution);
  }

  lemma ReviewDictReads(r: ReviewRequest)
    ensures var m := ReviewToDict(r);
            && m.Keys == REVIEW_KEYS
            && Look(m, RequestId) == Str(r.requestId) && Look(m, Cid) == Str(r.cid) && Look(m, Sid) == Str(r.sid)
            && Look(m, TurnId) == Str(r.turnId) && Look(m, Target) == ThawObject(r.target)
            && Look(m, Workspace) == ThawObject(r.workspace) && Look(m, Execution) == ThawObject(r.execution)
            && Look(m, Delivery) == INLINE && Look(m, SessionMode) == Str(ModeText(r.mode))
  {
    hide Thaw, ThawObject, ModeText;
  }

  lemma ReviewRoundTrip(r: ReviewRequest)
    requires ValidReview(r)
    ensures ReviewFromDict(ReviewToDict(r)) == Some(r)
  {
    hide Strip, FrozenObject, ReviewExecution, Frozen, Freeze, ModeOf, ModeText, Thaw, ThawObject, ReviewToDict;
    ReviewDictReads(r);
    ObjectReturns(r.target);
    ObjectReturns(r.workspace);
    ObjectReturns(r.execution);
    ModeReturns(r.mode);
  }

  datatype RemoteRequest = Chat(model: ModelRequest) | Review(review: ReviewRequest)

  predicate ValidRemote(r: RemoteRequest) {
    match r
    case Chat(m) => ValidModel(m)
    case Review(v) => ValidReview(v)
  }

  function RemoteKind(r: RemoteRequest): string {
    if r.Chat? then "mind_chat" else "mind_review"
  }

  function RemoteToDict(r: RemoteRequest): Fields {
    match r
    case Chat(m) => ModelToDict(m)
    case Review(v) => ReviewToDict(v)
  }

  function RemoteFromDict(kind: string, m: Fields): Option<RemoteRequest> {
    if kind == "mind_chat" then
      match ModelFromDict(m)
      case None => None
      case Some(r) => Some(Chat(r))
    else if kind == "mind_review" then
      match ReviewFromDict(m)
      case None => None
      case Some(r) => Some(Review(r))
    else None
  }

  /** Every request a constructor accepts comes back from its persisted kind and dictionary. */
  lemma RemoteRoundTrip(r: RemoteRequest)
    requires ValidRemote(r)
    ensures RemoteFromDict(RemoteKind(r), RemoteToDict(r)) == Some(r)
  {
    hide ModelToDict, ReviewToDict, ModelFromDict, ReviewFromDict, ValidModel, ValidReview;
    assert |"mind_chat"| != |"mind_review"|;
    match r
    case Chat(m) => ModelRoundTrip(m);
    case Review(v) => ReviewRoundTrip(v);
  }

  // ---- Commands ------------------------------------------------------------------------------

  datatype TurnCommand = TurnCommand(
    commandId: string, sessionId: string, runId: string, message: string, attachments: seq<Fields>,
    environment: Option<Fields>, prefConfig: Option<Fields>, extras: Option<Fields>,
    idempotencyKey: string, causationId: Option<string>, trace: Fields)

  datatype ReviewCommand = ReviewCommand(
    commandId: string, sessionId: string, runId: string, request: ReviewRequest, environment: Option<Fields>,
    idempotencyKey: string, causationId: Option<string>, trace: Fields)

  /** Python's `str` on values that are not texts; nothing here depends on what it returns. */
  type Show = Value -> string

  predicate Falsy(v: Value) {
    match v
    case Null => true
    case Bool(on) => !on
    case Int(n) => n == 0
    case Float(r) => r == 0.0
    case Str(s) => s == ""
    case List(items) => items == []
    case Tuple(items) => items == []
    case Dict(m) => m == map[]
    case Proxy(m) => m == map[]
    case NotFinite => false
    case Foreign(_) => false
  }

  /** `str(value or "").strip()` */
  function Label(v: Value, show: Show): string {
    if Falsy(v) then "" else if v.Str? then Strip(v.s) else Strip(show(v))
  }

  function KeyOr(v: Value, show: Show, default: string): string {
    if Label(v, show) != "" then Label(v, show) else default
  }

  function Cause(v: Value, show: Show): Option<string> {
    if Label(v, show) != "" then Some(Label(v, show)) else None
  }

  function CauseValue(c: Option<string>): Value {
    if c.Some? then Str(c.value) else Null
  }

  predicate ValidLabels(key: string, cause: Option<string>) {
    Stripped(key) && (cause.Some? ==> Stripped(cause.value))
  }

  lemma LabelsReturn(key: string, cause: Option<string>, show: Show, default: string)
    requires ValidLabels(key, cause)
    ensures KeyOr(Str(key), show, default) == key && Cause(CauseValue(cause), show) == cause
  {
    hide Strip;
  }

  lemma LabelsValid(key: Value, cause: Value, show: Show, default: string)
    requires Stripped(default)
    ensures ValidLabels(KeyOr(key, show, default), Cause(cause, show))
  {
    hide Strip;
    forall t: string ensures Strip(t) != "" ==> Stripped(Strip(t)) {
      StripIdempotent(t);
    }
  }

  function NewTurnCommand(commandId: Value, sessionId: Value, runId: Value, message: Value, attachments: Value,
                          environment: Value, prefConfig: Value, extras: Value, key: Value, cause: Value, trace: Value,
                          show: Show): Option<TurnCommand>
  {
    if Identity(commandId).None? || Identity(sessionId).None? || Identity(runId).None? || !message.Str?
       || !Sequence(attachments) || FrozenObjects(attachments.items).None? || OptionalObject(prefConfig).None?
       || OptionalObject(environment).None? || OptionalObject(extras).None? || FrozenObject(trace).None?
    then None
    else Some(TurnCommand(
      Identity(commandId).value, Identity(sessionId).value, Identity(runId).value, message.s,
      FrozenObjects(attachments.items).value, OptionalObject(environment).value, OptionalObject(prefConfig).value,
      OptionalObject(extras).value, KeyOr(key, show, Identity(commandId).value), Cause(cause, show),
      FrozenObject(trace).value))
  }

  /** The payload of a submitted turn: absent optional parts are left out. */
  function TurnPayload(c: TurnCommand): Fields {
    map[Known(Message) := Str(c.message), Known(Attachments) := ThawObjects(c.attachments)]
    + (if c.prefConfig.Some? then map[Known(PrefConfig) := ThawOptional(c.prefConfig)] else map[])
    + (if c.environment.Some? then map[Known(EnvironmentSnapshot) := ThawOptional(c.environment)] else map[])
    + (if c.extras.Some? then map[Known(Extras) := ThawOptional(c.extras)] else map[])
  }

  const SUBMIT_TURN: Value := Str("submit_turn")
  const SUBMIT_REVIEW: Value := Str("submit_review")

  function TurnToDict(c: TurnCommand): Fields {
    map[Known(CommandId) := Str(c.commandId), Known(SessionId) := Str(c.sessionId), Known(RunId) := Str(c.runId),
        Known(Kind) := SUBMIT_TURN, Known(Payload) := Dict(TurnPayload(c)),
        Known(IdempotencyKey) := Str(c.idempotencyKey), Known(CausationId) := CauseValue(c.causationId),
        Known(TraceContext) := ThawObject(c.trace)]
  }

  function TurnFromDict(m: Fields, show: Show): Option<TurnCommand> {
    var payload := Look(m, Payload);
    if Look(m, Kind) != SUBMIT_TURN || !Mapping(payload) then None
    else
      var p := payload.fields;
      var attachments := if Known(Attachments) in p then p[Known(Attachments)] else Tuple([]);
      var trace := if Falsy(Look(m, TraceContext)) then Dict(map[]) else Look(m, TraceContext);
      NewTurnCommand(
        Look(m, CommandId), Look(m, SessionId), Look(m, RunId), Look(p, Message), attachments,
        Look(p, EnvironmentSnapshot), Look(p, PrefConfig), Look(p, Extras), Look(m, IdempotencyKey),
        Look(m, CausationId), trace, show)
  }

  predicate ValidTurn(c: TurnCommand) {
    && Stripped(c.commandId) && Stripped(c.sessionId) && Stripped(c.runId)
    && AllImmutable(c.attachments) && Immutable(c.trace) && ValidLabels(c.idempotencyKey, c.causationId)
    && (c.environment.Some? ==> Immutable(c.environment.value))
    && (c.prefConfig.Some? ==> Immutable(c.prefConfig.value))
    && (c.extras.Some? ==> Immutable(c.extras.value))
  }

  lemma NewTurnIsValid(commandId: Value, sessionId: Value, runId: Value, message: Value, attachments: Value,
                       environment: Value, prefConfig: Value, extras: Value, key: Value, cause: Value, trace: Value,
                       show: Show)
    ensures var c := NewTurnCommand(commandId, sessionId, runId, message, attachments, environment, prefConfig, extras,
                                    key, cause, trace, show);
            c.Some? ==> ValidTurn(c.value)
  {
    hide Strip, FrozenObject, FrozenObjects, OptionalObject, Frozen, Freeze, KeyOr, Cause, ValidLabels;
    if NewTurnCommand(commandId, sessionId, runId, message, attachments, environment, prefConfig, extras, key, cause,
                      trace, show).Some? {
      IdentityStripped(commandId);
      IdentityStripped(sessionId);
      IdentityStripped(runId);
      LabelsValid(key, cause, show, Identity(commandId).value);
      OptionalFreezes(environment);
      OptionalFreezes(prefConfig);
      OptionalFreezes(extras);
      ObjectFreezes(trace);
      ObjectsFreeze(attachments.items);
    }
  }

  lemma PayloadReads(c: TurnCommand)
    ensures var p := TurnPayload(c);
            && Look(p, Message) == Str(c.message)
            && Known(Attachments) in p && p[Known(Attachments)] == ThawObjects(c.attachments)
            && Look(p, PrefConfig) == ThawOptional(c.prefConfig)
            && Look(p, EnvironmentSnapshot) == ThawOptional(c.environment)
            && Look(p, Extras) == ThawOptional(c.extras)
  {
    hide Thaw, ThawObject, ThawObjects;
  }

  lemma TurnDictReads(c: TurnCommand)
    ensures var m := TurnToDict(c);
            && Look(m, Kind) == SUBMIT_TURN
            && Look(m, CommandId) == Str(c.commandId) && Look(m, SessionId) == Str(c.sessionId)
            && Look(m, RunId) == Str(c.runId) && Look(m, Payload) == Dict(TurnPayload(c))
            && Look(m, IdempotencyKey) == Str(c.idempotencyKey) && Look(m, CausationId) == CauseValue(c.causationId)
            && Look(m, TraceContext) == ThawObject(c.trace)
  {
    hide Thaw, ThawObject, TurnPayload, CauseValue;
  }

  lemma TurnRoundTrip(c: TurnCommand, show: Show)
    requires ValidTurn(c)
    ensures TurnFromDict(TurnToDict(c), show) == Some(c)
  {
    hide Strip, FrozenObject, FrozenObjects, OptionalObject, Frozen, Freeze, Thaw, ThawObject, ThawOptional,
         TurnPayload, KeyOr, Cause, CauseValue, ValidLabels, TurnToDict, ThawObjects, Look;
    TurnDictReads(c);
    PayloadReads(c);
    LabelsReturn(c.idempotencyKey, c.causationId, show, c.commandId);
    OptionalReturns(c.environment);
    OptionalReturns(c.prefConfig);
    OptionalReturns(c.extras);
    ObjectsReturn(c.attachments);
    ObjectReturns(c.trace);
  }

  function NewReviewCommand(commandId: Value, sessionId: Value, runId: Value, request: ReviewRequest,
                            environment: Value, key: Value, cause: Value, trace: Value,
                            show: Show): Option<ReviewCommand>
  {
    if Identity(commandId).None? || Identity(sessionId).None? || Identity(runId).None?
       || OptionalObject(environment).None? || FrozenObject(trace).None?
    then None
    else Some(ReviewCommand(
      Identity(commandId).value, Identity(sessionId).value, Identity(runId).value, request,
      OptionalObject(environment).value, KeyOr(key, show, Identity(commandId).value), Cause(cause, show),
      FrozenObject(trace).value))
  }

  function ReviewCommandToDict(c: ReviewCommand): Fields {
    map[Known(CommandId) := Str(c.commandId), Known(SessionId) := Str(c.sessionId), Known(RunId) := Str(c.runId),
        Known(Kind) := SUBMIT_REVIEW,
        Known(Payload) := Dict(map[Known(Request) := Dict(ReviewToDict(c.request)),
                                   Known(EnvironmentSnapshot) := ThawOptional(c.environment)]),
        Known(IdempotencyKey) := Str(c.idempotencyKey), Known(CausationId) := CauseValue(c.causationId),
        Known(TraceContext) := ThawObject(c.trace)]
  }

  function ReviewCommandFromDict(m: Fields, show: Show): Option<ReviewCommand> {
    var expected: set<Key> := {
      Known(CommandId), Known(SessionId), Known(RunId), Known(Kind), Known(Payload), Known(IdempotencyKey),
      Known(CausationId), Known(TraceContext) };
    if m.Keys != expected || m[Known(Kind)] != SUBMIT_REVIEW || !m[Known(Payload)].Dict?
       || m[Known(Payload)].fields.Keys != { Known(Request), Known(EnvironmentSnapshot) }
       || !m[Known(CommandId)].Str? || !m[Known(SessionId)].Str? || !m[Known(RunId)].Str?
       || !m[Known(IdempotencyKey)].Str? || !(m[Known(CausationId)].Null? || m[Known(CausationId)].Str?)
       || !m[Known(TraceContext)].Dict?
    then None
    else
      var request := m[Known(Payload)].fields[Known(Request)];
      var environment := m[Known(Payload)].fields[Known(EnvironmentSnapshot)];
      if !request.Dict? || !(environment.Null? || environment.Dict?) then None
      else match ReviewFromDict(request.fields)
        case None => None
        case Some(r) => NewReviewCommand(
          m[Known(CommandId)], m[Known(SessionId)], m[Known(RunId)], r, environment, m[Known(IdempotencyKey)],
          m[Known(CausationId)], m[Known(TraceContext)], show)
  }

  predicate ValidReviewCommand(c: ReviewCommand) {
    && Stripped(c.commandId) && Stripped(c.sessionId) && Stripped(c.runId) && ValidReview(c.request)
    && Immutable(c.trace) && ValidLabels(c.idempotencyKey, c.causationId)
    && (c.environment.Some? ==> Immutable(c.environment.value))
  }

  lemma NewReviewCommandIsValid(commandId: Value, sessionId: Value, runId: Value, request: ReviewRequest,
                                environment: Value, key: Value, cause: Value, trace: Value, show: Show)
    requires ValidReview(request)
    ensures var c := NewReviewCommand(commandId, sessionId, runId, request, environment, key, cause, trace, show);
            c.Some? ==> ValidReviewCommand(c.value)
  {
    hide Strip, FrozenObject, OptionalObject, Frozen, Freeze, KeyOr, Cause, ValidLabels, ValidReview;
    if NewReviewCommand(commandId, sessionId, runId, request, environment, key, cause, trace, show).Some? {
      IdentityStripped(commandId);
      IdentityStripped(sessionId);
      IdentityStripped(runId);
      LabelsValid(key, cause, show, Identity(commandId).value);
      OptionalFreezes(environment);
      ObjectFreezes(trace);
    }
  }

  lemma ReviewCommandRoundTrip(c: ReviewCommand, show: Show)
    requires ValidReviewCommand(c)
    ensures ReviewCommandFromDict(ReviewCommandToDict(c), show) == Some(c)
  {
    hide Strip, FrozenObject, OptionalObject, Frozen, Freeze, Thaw, ThawObject, ThawOptional,
         KeyOr, Cause, ValidLabels, ValidReview, ReviewToDict, ReviewFromDict;
    ReviewRoundTrip(c.request);
    LabelsReturn(c.idempotencyKey, c.causationId, show, c.commandId);
    OptionalReturns(c.environment);
    ObjectReturns(c.trace);
  }

  datatype RunCommand = SubmitTurn(turn: TurnCommand) | SubmitReview(review: ReviewCommand)

  predicate ValidCommand(c: RunCommand) {
    match c
    case SubmitTurn(t) => ValidTurn(t)
    case SubmitReview(r) => ValidReviewCommand(r)
  }

  function CommandToDict(c: RunCommand): Fields {
    match c
    case SubmitTurn(t) => TurnToDict(t)
    case SubmitReview(r) => ReviewCommandToDict(r)
  }

  function ParseRunCommand(m: Fields, show: Show): Option<RunCommand> {
    if Look(m, Kind) == SUBMIT_TURN then
      match TurnFromDict(m, show)
      case None => None
      case Some(t) => Some(SubmitTurn(t))
    else if Look(m, Kind) == SUBMIT_REVIEW then
      match ReviewCommandFromDict(m, show)
      case None => None
      case Some(r) => Some(SubmitReview(r))
    else None
  }

  /** Every command a constructor accepts is parsed back from its dictionary. */
  lemma CommandRoundTrip(c: RunCommand, show: Show)
    requires ValidCommand(c)
    ensures ParseRunCommand(CommandToDict(c), show) == Some(c)
  {
    hide TurnPayload, Thaw, ThawObject, ThawOptional, ReviewToDict, TurnFromDict, ReviewCommandFromDict,
         ValidTurn, ValidReviewCommand, CauseValue;
    assert |"submit_turn"| != |"submit_review"|;
    match c
    case SubmitTurn(t) => TurnRoundTrip(t, show);
    case SubmitReview(r) => ReviewCommandRoundTrip(r, show);
  }

  // ---- What is persisted is what was given ---------------------------------------------------

  lemma ObjectKeepsData(v: Value)
    ensures FrozenObject(v).Some? ==> ThawObject(FrozenObject(v).value) == Listed(Dict(v.fields))
  {
    if Mapping(v) {
      FreezeThaws(Dict(v.fields));
    }
  }

  lemma ObjectsKeepData(values: seq<Value>)
    ensures FrozenObjects(values).Some? ==>
              && |ThawObjects(FrozenObjects(values).value).items| == |values|
              && forall i | 0 <= i < |values| ::
                   && Mapping(values[i])
                   && ThawObjects(FrozenObjects(values).value).items[i] == Listed(Dict(values[i].fields))
  {
    hide Listed, Freeze, Thaw;
    if FrozenObjects(values).Some? {
      forall i | 0 <= i < |values|
        ensures Mapping(values[i])
        ensures ThawObjects(FrozenObjects(values).value).items[i] == Listed(Dict(values[i].fields))
      {
        ObjectKeepsData(values[i]);
      }
    }
  }

  /** An optional part is persisted as given, or as null. */
  predicate KeptOptional(given: Value, stored: Value) {
    if given.Null? then stored.Null? else Mapping(given) && stored == Listed(Dict(given.fields))
  }

  lemma OptionalKeepsData(v: Value)
    ensures OptionalObject(v).Some? ==> KeptOptional(v, ThawOptional(OptionalObject(v).value))
  {
    hide Listed, Freeze, Thaw;
    if !v.Null? {
      ObjectKeepsData(v);
    }
  }

  predicate KeptObjects(given: seq<Value>, stored: Value) {
    && stored.List? && |stored.items| == |given|
    && forall i | 0 <= i < |given| :: Mapping(given[i]) && stored.items[i] == Listed(Dict(given[i].fields))
  }

  /** A required part is persisted with its data unchanged. */
  predicate KeptObject(given: Value, stored: Value) {
    Mapping(given) && stored == Listed(Dict(given.fields))
  }

  predicate KeptIdentity(given: Value, stored: Value) {
    given.Str? && stored == Str(Strip(given.s))
  }

  lemma IdentityKept(v: Value)
    ensures Identity(v).Some? ==> KeptIdentity(v, Str(Identity(v).value))
  {
    hide Strip;
  }

  lemma ObjectKept(v: Value)
    ensures FrozenObject(v).Some? ==> KeptObject(v, ThawObject(FrozenObject(v).value))
  {
    hide Listed, Freeze, Thaw;
    ObjectKeepsData(v);
  }

  lemma ObjectsKept(values: seq<Value>)
    ensures FrozenObjects(values).Some? ==> KeptObjects(values, ThawObjects(FrozenObjects(values).value))
  {
    hide Listed, Freeze, Thaw, FrozenObject;
    ObjectsKeepData(values);
  }

  /** Persisting a new request stores each argument under its own name, identities stripped and data unchanged. */
  lemma ModelPersistsArguments(cid: Value, sid: Value, turnId: Value, prefConfig: Value, message: Value, tools: Value,
                               attachments: Value, environment: Value, metadata: Value, options: Value, timeout: Value)
    ensures var r := NewModelRequest(cid, sid, turnId, prefConfig, message, tools, attachments, environment, metadata,
                                     options, timeout);
            r.Some? ==>
              var m := ModelToDict(r.value);
              && KeptIdentity(cid, Look(m, Cid)) && KeptIdentity(sid, Look(m, Sid))
              && KeptIdentity(turnId, Look(m, TurnId))
              && Look(m, Message) == message && KeptObject(prefConfig, Look(m, PrefConfig))
              && KeptObject(metadata, Look(m, Metadata)) && KeptObject(options, Look(m, Options))
              && Sequence(tools) && KeptObjects(tools.items, Look(m, Tools))
              && Sequence(attachments) && KeptObjects(attachments.items, Look(m, Attachments))
              && KeptOptional(environment, Look(m, EnvironmentSnapshot))
              && Look(m, Timeout).Float? && Seconds(timeout) == Some(Look(m, Timeout).r)
  {
    hide Identity, FrozenObject, FrozenObjects, OptionalObject, ThawObject, ThawObjects, ThawOptional, ModelToDict,
         Look,
         KeptIdentity, KeptObject, KeptObjects, KeptOptional, Seconds, Avoids;
    var r := NewModelRequest(cid, sid, turnId, prefConfig, message, tools, attachments, environment, metadata, options,
                             timeout);
    if r.Some? {
      ModelDictReads(r.value);
      IdentityKept(cid);
      IdentityKept(sid);
      IdentityKept(turnId);
      ObjectKept(prefConfig);
      ObjectKept(metadata);
      ObjectKept(options);
      ObjectsKept(tools.items);
      ObjectsKept(attachments.items);
      OptionalKeepsData(environment);
    }
  }

  /** The same for a review request. */
  lemma ReviewPersistsArguments(requestId: Value, cid: Value, sid: Value, turnId: Value, target: Value,
                                workspace: Value, execution: Value, mode: Value, delivery: Value)
    ensures var r := NewReviewRequest(requestId, cid, sid, turnId, target, workspace, execution, mode, delivery);
            r.Some? ==>
              var m := ReviewToDict(r.value);
              && KeptIdentity(requestId, Look(m, RequestId)) && KeptIdentity(cid, Look(m, Cid))
              && KeptIdentity(sid, Look(m, Sid)) && KeptIdentity(turnId, Look(m, TurnId))
              && KeptObject(target, Look(m, Target)) && KeptObject(workspace, Look(m, Workspace))
              && KeptObject(execution, Look(m, Execution))
              && Look(m, SessionMode) == mode && Look(m, Delivery) == delivery
  {
    hide Identity, FrozenObject, ThawObject, ReviewToDict, Look, KeptIdentity, KeptObject, ReviewExecution;
    var r := NewReviewRequest(requestId, cid, sid, turnId, target, workspace, execution, mode, delivery);
    if r.Some? {
      ReviewDictReads(r.value);
      IdentityKept(requestId);
      IdentityKept(cid);
      IdentityKept(sid);
      IdentityKept(turnId);
      ObjectKept(target);
      ObjectKept(workspace);
      ObjectKept(execution);
    }
  }

  /** The same for a turn command: a blank idempotency key becomes the command's own, a blank cause none. */
  lemma TurnPersistsArguments(commandId: Value, sessionId: Value, runId: Value, message: Value, attachments: Value,
                              environment: Value, prefConfig: Value, extras: Value, key: Value, cause: Value,
                              trace: Value, show: Show)
    ensures var c := NewTurnCommand(commandId, sessionId, runId, message, attachments, environment, prefConfig, extras,
                                    key, cause, trace, show);
            c.Some? ==>
              var m := TurnToDict(c.value);
              var p := Look(m, Payload);
              && KeptIdentity(commandId, Look(m, CommandId)) && KeptIdentity(sessionId, Look(m, SessionId))
              && KeptIdentity(runId, Look(m, RunId)) && p.Dict? && Look(p.fields, Message) == message
              && Sequence(attachments) && KeptObjects(attachments.items, Look(p.fields, Attachments))
              && KeptOptional(environment, Look(p.fields, EnvironmentSnapshot))
              && KeptOptional(prefConfig, Look(p.fields, PrefConfig)) && KeptOptional(extras, Look(p.fields, Extras))
              && Look(m, IdempotencyKey) ==
                 (if Label(key, show) != "" then Str(Label(key, show)) else Look(m, CommandId))
              && Look(m, CausationId) == (if Label(cause, show) != "" then Str(Label(cause, show)) else Null)
              && KeptObject(trace, Look(m, TraceContext))
  {
    hide Identity, FrozenObject, FrozenObjects, OptionalObject, ThawObject, ThawObjects, ThawOptional, TurnToDict,
         TurnPayload,
         KeptIdentity, KeptObject, KeptObjects, KeptOptional, Label;
    var c := NewTurnCommand(commandId, sessionId, runId, message, attachments, environment, prefConfig, extras,
                            key, cause, trace, show);
    if c.Some? {
      TurnDictReads(c.value);
      PayloadReads(c.value);
      IdentityKept(commandId);
      IdentityKept(sessionId);
      IdentityKept(runId);
      ObjectKept(trace);
      ObjectsKept(attachments.items);
      OptionalKeepsData(environment);
      OptionalKeepsData(prefConfig);
      OptionalKeepsData(extras);
    }
  }

  lemma ReviewCommandDictReads(c: ReviewCommand)
    ensures var m := ReviewCommandToDict(c);
            && Look(m, CommandId) == Str(c.commandId) && Look(m, SessionId) == Str(c.sessionId)
            && Look(m, RunId) == Str(c.runId) && Look(m, Payload).Dict?
            && Look(Look(m, Payload).fields, Request) == Dict(ReviewToDict(c.request))
            && Look(Look(m, Payload).fields, EnvironmentSnapshot) == ThawOptional(c.environment)
            && Look(m, IdempotencyKey) == Str(c.idempotencyKey) && Look(m, CausationId) == CauseValue(c.causationId)
            && Look(m, TraceContext) == ThawObject(c.trace)
  {
    hide Thaw, ThawObject, ThawOptional, ReviewToDict, CauseValue;
  }

  /** The same for a review command, whose request is persisted as the request's own dictionary. */
  lemma ReviewCommandPersistsArguments(commandId: Value, sessionId: Value, runId: Value, request: ReviewRequest,
                                       environment: Value, key: Value, cause: Value, trace: Value, show: Show)
    ensures var c := NewReviewCommand(commandId, sessionId, runId, request, environment, key, cause, trace, show);
            c.Some? ==>
              var m := ReviewCommandToDict(c.value);
              var p := Look(m, Payload);
              && KeptIdentity(commandId, Look(m, CommandId)) && KeptIdentity(sessionId, Look(m, SessionId))
              && KeptIdentity(runId, Look(m, RunId))
              && p.Dict? && Look(p.fields, Request) == Dict(ReviewToDict(request))
              && KeptOptional(environment, Look(p.fields, EnvironmentSnapshot))
              && Look(m, IdempotencyKey) ==
                 (if Label(key, show) != "" then Str(Label(key, show)) else Look(m, CommandId))
              && Look(m, CausationId) == (if Label(cause, show) != "" then Str(Label(cause, show)) else Null)
              && KeptObject(trace, Look(m, TraceContext))
  {
    hide Identity, FrozenObject, OptionalObject, ThawObject, ThawOptional, ReviewCommandToDict, ReviewToDict,
         KeptIdentity, KeptObject, KeptOptional, Label;
    var c := NewReviewCommand(commandId, sessionId, runId, request, environment, key, cause, trace, show);
    if c.Some? {
      ReviewCommandDictReads(c.value);
      IdentityKept(commandId);
      IdentityKept(sessionId);
      IdentityKept(runId);
      ObjectKept(trace);
      OptionalKeepsData(environment);
    }
  }
}
