/** Which arguments and dictionaries the requests and commands accept, and the texts that they store. */
module ProtocolAcceptance {
  import opened Text
  import opened FrozenJson
  import opened Protocol

  /** A text that is not blank. */
  predicate NonBlank(v: Value) {
    v.Str? && exists i | 0 <= i < |v.s| :: !IsSpace(v.s[i])
  }

  /** A mapping with text keys and plain data. */
  predicate Storable(v: Value) {
    && (v.Dict? || v.Proxy?) && (forall k | k in v.fields :: k.Known? || k.Named?)
    && forall k | k in v.fields :: Plain(v.fields[k])
  }

  predicate StorableOrNull(v: Value) {
    v == Null || Storable(v)
  }

  predicate StorableList(v: Value) {
    (v.List? || v.Tuple?) && forall x | x in v.items :: Storable(x)
  }

  predicate Positive(v: Value) {
    (v.Int? && v.n > 0) || (v.Float? && v.r > 0.0)
  }

  lemma IdentityAccepts(v: Value)
    ensures Identity(v).Some? <==> NonBlank(v)
  {
    hide IsSpace, Strip;
    if v.Str? {
      StripMeans(v.s, "");
      if AllSpace(v.s) {
        assert Padded(v.s, v.s, "", "");
      }
      if Inside(v.s, "") {
        var front, back :| Padded(v.s, front, "", back);
        assert forall i :: 0 <= i < |v.s| ==> v.s[i] == if i < |front| then front[i] else back[i - |front|];
      }
    }
  }

  lemma ObjectAccepts(v: Value)
    ensures FrozenObject(v).Some? <==> Storable(v)
  {
    if Mapping(v) {
      FreezeThaws(Dict(v.fields));
    }
  }

  lemma OptionalAccepts(v: Value)
    ensures OptionalObject(v).Some? <==> StorableOrNull(v)
  {
    hide FrozenObject, Storable;
    ObjectAccepts(v);
  }

  lemma ListAccepts(v: Value)
    ensures Sequence(v) && FrozenObjects(v.items).Some? <==> StorableList(v)
  {
    hide FrozenObject, Storable;
    if Sequence(v) {
      forall i | 0 <= i < |v.items| ensures FrozenObject(v.items[i]).Some? <==> Storable(v.items[i]) {
        ObjectAccepts(v.items[i]);
      }
    }
  }

  // ---- Model requests ------------------------------------------------------------------------

  /** No option and no metadata entry has the name of a request field or of a runtime hook. */
  predicate Unreserved(metadata: Fields, options: Fields) {
    && metadata.Keys !! { Known(Cid), Known(Sid), Known(TurnId) }
    && options.Keys !! {
         Known(Cid), Known(Sid), Known(TurnId), Known(PrefConfig), Known(Message), Known(Tools), Known(Attachments),
         Known(EnvironmentSnapshot), Known(Metadata), Known(Timeout),
         Known(ExecEnv), Known(OnApprovalSnapshot), Known(OnRecoveryStatus) }
  }

  /** A model request is constructed exactly from these arguments, and keeps the timeout as a number. */
  lemma ModelAccepts(cid: Value, sid: Value, turnId: Value, prefConfig: Value, message: Value, tools: Value,
                     attachments: Value, environment: Value, metadata: Value, options: Value, timeout: Value)
    ensures var r := NewModelRequest(cid, sid, turnId, prefConfig, message, tools, attachments, environment, metadata,
                                     options, timeout);
            && (r.Some? <==>
                  && NonBlank(cid) && NonBlank(sid) && NonBlank(turnId) && message.Str?
                  && Storable(prefConfig) && StorableList(tools) && StorableList(attachments)
                  && StorableOrNull(environment) && Storable(metadata) && Storable(options)
                  && Unreserved(metadata.fields, options.fields) && Positive(timeout))
            && (r.Some? ==> r.value.timeout == if timeout.Int? then timeout.n as real else timeout.r)
  {
    hide Identity, NonBlank, FrozenObject, Storable, OptionalObject, StorableOrNull, FrozenObjects, StorableList;
    IdentityAccepts(cid);
    IdentityAccepts(sid);
    IdentityAccepts(turnId);
    ObjectAccepts(prefConfig);
    ObjectAccepts(metadata);
    ObjectAccepts(options);
    ListAccepts(tools);
    ListAccepts(attachments);
    OptionalAccepts(environment);
    StorableIsMapping(metadata);
    StorableIsMapping(options);
    ListIsSequence(tools);
    ListIsSequence(attachments);
  }

  lemma StorableIsMapping(v: Value)
    ensures Storable(v) ==> v.Dict? || v.Proxy?
  {
  }

  lemma ListIsSequence(v: Value)
    ensures StorableList(v) ==> v.List? || v.Tuple?
  {
  }

  predicate DictOrNull(v: Value) {
    v == Null || v.Dict?
  }

  predicate ListOfDicts(v: Value) {
    v.List? && forall x | x in v.items :: x.Dict?
  }

  /** A persisted model request is read back exactly from these dictionaries. */
  lemma ModelDictAccepts(m: Fields)
    ensures ModelFromDict(m).Some? <==>
            && m.Keys == { Known(Cid), Known(Sid), Known(TurnId), Known(PrefConfig), Known(Message), Known(Tools),
                           Known(Attachments), Known(EnvironmentSnapshot), Known(Metadata), Known(Options),
                           Known(Timeout) }
            && NonBlank(m[Known(Cid)]) && NonBlank(m[Known(Sid)]) && NonBlank(m[Known(TurnId)])
            && m[Known(Message)].Str? && m[Known(PrefConfig)].Dict? && Storable(m[Known(PrefConfig)])
            && ListOfDicts(m[Known(Tools)]) && StorableList(m[Known(Tools)])
            && ListOfDicts(m[Known(Attachments)]) && StorableList(m[Known(Attachments)])
            && DictOrNull(m[Known(EnvironmentSnapshot)]) && StorableOrNull(m[Known(EnvironmentSnapshot)])
            && m[Known(Metadata)].Dict? && Storable(m[Known(Metadata)])
            && m[Known(Options)].Dict? && Storable(m[Known(Options)])
            && Unreserved(m[Known(Metadata)].fields, m[Known(Options)].fields) && Positive(m[Known(Timeout)])
  {
    hide NonBlank, Storable, StorableOrNull, StorableList, NewModelRequest, Unreserved;
    if m.Keys == MODEL_KEYS {
      ModelAccepts(
        m[Known(Cid)], m[Known(Sid)], m[Known(TurnId)], m[Known(PrefConfig)], m[Known(Message)], m[Known(Tools)],
        m[Known(Attachments)], m[Known(EnvironmentSnapshot)], m[Known(Metadata)], m[Known(Options)],
        m[Known(Timeout)]);
      NonBlankIsText(m[Known(Cid)]);
      NonBlankIsText(m[Known(Sid)]);
      NonBlankIsText(m[Known(TurnId)]);
      DictsOnly(m[Known(Tools)]);
      DictsOnly(m[Known(Attachments)]);
    }
  }

  lemma NonBlankIsText(v: Value)
    ensures NonBlank(v) ==> v.Str?
  {
  }

  lemma DictsOnly(v: Value)
    ensures v.List? ==> (AllDicts(v.items) <==> ListOfDicts(v))
  {
  }

  // ---- Review requests -----------------------------------------------------------------------

  predicate ReadOnlyTools(v: Value) {
    || v == Null
    || ((v.List? || v.Tuple?) && forall x | x in v.items :: DeclaresReadOnly(x))
  }

  predicate DeclaresReadOnly(tool: Value) {
    && tool.Dict? && Known(Annotations) in tool.fields && tool.fields[Known(Annotations)].Dict?
    && var annotations := tool.fields[Known(Annotations)].fields;
       Known(ReadOnlyHint) in annotations && annotations[Known(ReadOnlyHint)] == Bool(true)
  }

  /** The execution part of a review, as it is given: a read-only sandbox, read-only tools, and nothing added. */
  predicate ReadOnlyExecution(m: Fields) {
    && m.Keys == { Known(LlmConf), Known(AdditionalContext), Known(SystemMessage), Known(Attachments), Known(Streaming),
                   Known(Tools), Known(HostedTools), Known(Skills), Known(SandboxMode), Known(Metadata) }
    && m[Known(SandboxMode)] == Str("read-only") && ReadOnlyTools(m[Known(Tools)])
    && (m[Known(AdditionalContext)] == List([]) || m[Known(AdditionalContext)] == Tuple([]))
    && m[Known(SystemMessage)] == Str("") && m[Known(Attachments)] == Null
    && m[Known(HostedTools)] == Null && m[Known(Skills)] == Null
    && m[Known(Streaming)] in { Bool(false), Int(0), Float(0.0) }
    && m[Known(LlmConf)].Dict? && (m[Known(Metadata)] == Null || m[Known(Metadata)].Dict?)
  }

  /** The constructor's check of the frozen execution is that check of the given one. */
  lemma ExecutionChecked(v: Value)
    requires Storable(v)
    ensures FrozenObject(v).Some?
    ensures ReviewExecution(FrozenObject(v).value) <==> ReadOnlyExecution(v.fields)
  {
    hide ReadOnlyTools, Freeze, ReadOnlyTool, ReviewExecution, ReadOnlyExecution, Shapes, FrozenObject, Storable;
    FieldsFreeze(v);
    StorableIsMapping(v);
    var frozen := FrozenObject(v).value;
    forall k | k in v.fields ensures Shapes(v.fields[k], frozen[k]) {
      ShapeFrozen(v.fields[k]);
    }
    if Known(Tools) in v.fields {
      ToolsFreeze(v.fields[Known(Tools)]);
    }
    SameExecution(v.fields, frozen);
  }

  predicate FrozenTools(f: Value) {
    f.Null? || (f.Tuple? && forall x | x in f.items :: ReadOnlyTool(x))
  }

  lemma SameExecution(given: Fields, frozen: Fields)
    requires given.Keys == frozen.Keys && forall k | k in given :: Shapes(given[k], frozen[k])
    requires Known(Tools) in given ==> (ReadOnlyTools(given[Known(Tools)]) <==> FrozenTools(frozen[Known(Tools)]))
    ensures ReviewExecution(frozen) <==> ReadOnlyExecution(given)
  {
    hide ReadOnlyTools, ReadOnlyTool;
  }

  lemma FieldsFreeze(v: Value)
    requires Storable(v)
    ensures FrozenObject(v).Some? && FrozenObject(v).value.Keys == v.fields.Keys
    ensures forall k | k in v.fields :: Freeze(v.fields[k]) == Some(FrozenObject(v).value[k])
  {
    ObjectAccepts(v);
  }

  /** What freezing does to the outermost constructor. */
  predicate Shapes(v: Value, f: Value) {
    && (v.Dict? <==> f.Proxy?) && (v.List? || v.Tuple? <==> f.Tuple?)
    && (v.List? || v.Tuple? ==> (v.items == [] <==> f == Tuple([])))
    && (!v.Dict? && !v.List? && !v.Tuple? ==> f == v)
  }

  lemma ShapeFrozen(v: Value)
    requires Freeze(v).Some?
    ensures Shapes(v, Freeze(v).value)
  {
  }

  lemma ToolsFreeze(v: Value)
    requires Freeze(v).Some?
    ensures var f := Freeze(v).value;
            ReadOnlyTools(v) <==> FrozenTools(f)
  {
    hide ReadOnlyTool, DeclaresReadOnly;
    var f := Freeze(v).value;
    if v.List? || v.Tuple? {
      assert |f.items| == |v.items|;
      forall i | 0 <= i < |v.items| ensures DeclaresReadOnly(v.items[i]) <==> ReadOnlyTool(f.items[i]) {
        assert Freeze(v.items[i]) == Some(f.items[i]);
        ToolFreezes(v.items[i]);
      }
      if forall x | x in f.items :: ReadOnlyTool(x) {
        forall x | x in v.items ensures DeclaresReadOnly(x) {
          var i :| 0 <= i < |v.items| && v.items[i] == x;
          assert f.items[i] in f.items;
        }
      }
    }
  }

  lemma ToolFreezes(v: Value)
    requires Freeze(v).Some?
    ensures DeclaresReadOnly(v) <==> ReadOnlyTool(Freeze(v).value)
  {
    if v.Dict? && Known(Annotations) in v.fields {
      var a := v.fields[Known(Annotations)];
      ShapeFrozen(a);
      if a.Dict? && Known(ReadOnlyHint) in a.fields {
        ShapeFrozen(a.fields[Known(ReadOnlyHint)]);
      }
    }
  }

  /** A review request is constructed exactly from these arguments. */
  lemma ReviewAccepts(requestId: Value, cid: Value, sid: Value, turnId: Value, target: Value, workspace: Value,
                      execution: Value, mode: Value, delivery: Value)
    ensures NewReviewRequest(requestId, cid, sid, turnId, target, workspace, execution, mode, delivery).Some? <==>
            && NonBlank(requestId) && NonBlank(cid) && NonBlank(sid) && NonBlank(turnId)
            && delivery == Str("inline") && (mode == Str("create") || mode == Str("existing"))
            && Storable(target) && Storable(workspace) && Storable(execution) && ReadOnlyExecution(execution.fields)
  {
    hide Identity, NonBlank, FrozenObject, Storable, ReviewExecution, ReadOnlyExecution;
    IdentityAccepts(requestId);
    IdentityAccepts(cid);
    IdentityAccepts(sid);
    IdentityAccepts(turnId);
    ObjectAccepts(target);
    ObjectAccepts(workspace);
    ObjectAccepts(execution);
    StorableIsMapping(execution);
    if Storable(execution) {
      ExecutionChecked(execution);
    }
  }

  /** A persisted review request is read back exactly from these dictionaries. */
  lemma ReviewDictAccepts(m: Fields)
    ensures ReviewFromDict(m).Some? <==>
            && m.Keys == { Known(RequestId), Known(Cid), Known(Sid), Known(TurnId), Known(Target), Known(Delivery),
                           Known(Workspace), Known(Execution), Known(SessionMode) }
            && NonBlank(m[Known(RequestId)]) && NonBlank(m[Known(Cid)]) && NonBlank(m[Known(Sid)])
            && NonBlank(m[Known(TurnId)])
            && m[Known(Delivery)] == Str("inline") && m[Known(SessionMode)] in { Str("create"), Str("existing") }
            && m[Known(Target)].Dict? && Storable(m[Known(Target)])
            && m[Known(Workspace)].Dict? && Storable(m[Known(Workspace)])
            && m[Known(Execution)].Dict? && Storable(m[Known(Execution)])
            && ReadOnlyExecution(m[Known(Execution)].fields)
  {
    hide NonBlank, Storable, NewReviewRequest, ReadOnlyExecution;
    if m.Keys == REVIEW_KEYS {
      ReviewAccepts(
        m[Known(RequestId)], m[Known(Cid)], m[Known(Sid)], m[Known(TurnId)], m[Known(Target)], m[Known(Workspace)],
        m[Known(Execution)], m[Known(SessionMode)], INLINE);
      NonBlankIsText(m[Known(RequestId)]);
      NonBlankIsText(m[Known(Cid)]);
      NonBlankIsText(m[Known(Sid)]);
      NonBlankIsText(m[Known(TurnId)]);
    }
  }

  // ---- Commands ------------------------------------------------------------------------------

  /** Python's empty values. */
  predicate Nothing(v: Value) {
    v in { Null, Bool(false), Int(0), Float(0.0), Str(""), List([]), Tuple([]), Dict(map[]), Proxy(map[]) }
  }

  /** A turn command is constructed exactly from these arguments. */
  lemma TurnAccepts(commandId: Value, sessionId: Value, runId: Value, message: Value, attachments: Value,
                    environment: Value, prefConfig: Value, extras: Value, key: Value, cause: Value, trace: Value,
                    show: Show)
    ensures NewTurnCommand(commandId, sessionId, runId, message, attachments, environment, prefConfig, extras, key,
                           cause, trace, show).Some? <==>
            && NonBlank(commandId) && NonBlank(sessionId) && NonBlank(runId) && message.Str?
            && StorableList(attachments) && StorableOrNull(environment) && StorableOrNull(prefConfig)
            && StorableOrNull(extras) && Storable(trace)
  {
    hide Identity, NonBlank, FrozenObject, Storable, OptionalObject, StorableOrNull, FrozenObjects, StorableList,
         KeyOr, Cause;
    IdentityAccepts(commandId);
    IdentityAccepts(sessionId);
    IdentityAccepts(runId);
    ListAccepts(attachments);
    ListIsSequence(attachments);
    OptionalAccepts(environment);
    OptionalAccepts(prefConfig);
    OptionalAccepts(extras);
    ObjectAccepts(trace);
  }

  /** The entry, or null when there is none. */
  function EntryOr(m: Fields, name: Name, default: Value): Value {
    if Known(name) in m then m[Known(name)] else default
  }

  /**
   * A persisted turn command is read back exactly from these dictionaries; other entries are ignored, missing
   * attachments are none, and an empty trace context is an empty object.
   */
  lemma TurnDictAccepts(m: Fields, show: Show)
    ensures var payload := EntryOr(m, Payload, Null);
            var trace := EntryOr(m, TraceContext, Null);
            && (TurnFromDict(m, show).Some? <==>
                  && EntryOr(m, Kind, Null) == Str("submit_turn") && (payload.Dict? || payload.Proxy?)
                  && NonBlank(EntryOr(m, CommandId, Null)) && NonBlank(EntryOr(m, SessionId, Null))
                  && NonBlank(EntryOr(m, RunId, Null)) && EntryOr(payload.fields, Message, Null).Str?
                  && StorableList(EntryOr(payload.fields, Attachments, Tuple([])))
                  && StorableOrNull(EntryOr(payload.fields, EnvironmentSnapshot, Null))
                  && StorableOrNull(EntryOr(payload.fields, PrefConfig, Null))
                  && StorableOrNull(EntryOr(payload.fields, Extras, Null))
                  && (Nothing(trace) || Storable(trace)))
            && (TurnFromDict(m, show).Some? && Nothing(trace) ==> TurnFromDict(m, show).value.trace == map[])
  {
    hide NonBlank, StorableOrNull, StorableList, KeyOr, Cause, OptionalObject, FrozenObjects, Identity;
    var payload := EntryOr(m, Payload, Null);
    if payload.Dict? || payload.Proxy? {
      var p := payload.fields;
      var trace := if Falsy(Look(m, TraceContext)) then Dict(map[]) else Look(m, TraceContext);
      assert Falsy(EntryOr(m, TraceContext, Null)) == Nothing(EntryOr(m, TraceContext, Null)) by {
        FalsyIsNothing(EntryOr(m, TraceContext, Null));
      }
      TurnAccepts(
        Look(m, CommandId), Look(m, SessionId), Look(m, RunId), Look(p, Message), EntryOr(p, Attachments, Tuple([])),
        Look(p, EnvironmentSnapshot), Look(p, PrefConfig), Look(p, Extras), Look(m, IdempotencyKey),
        Look(m, CausationId), trace, show);
    }
  }

  lemma FalsyIsNothing(v: Value)
    ensures Falsy(v) <==> Nothing(v)
  {
  }

  /** A review command is constructed exactly from these arguments. */
  lemma ReviewCommandAccepts(commandId: Value, sessionId: Value, runId: Value, request: ReviewRequest,
                             environment: Value, key: Value, cause: Value, trace: Value, show: Show)
    ensures NewReviewCommand(commandId, sessionId, runId, request, environment, key, cause, trace, show).Some? <==>
            && NonBlank(commandId) && NonBlank(sessionId) && NonBlank(runId)
            && StorableOrNull(environment) && Storable(trace)
  {
    hide Identity, NonBlank, FrozenObject, Storable, OptionalObject, StorableOrNull, KeyOr, Cause;
    IdentityAccepts(commandId);
    IdentityAccepts(sessionId);
    IdentityAccepts(runId);
    OptionalAccepts(environment);
    ObjectAccepts(trace);
  }

  /** A persisted review command is read back exactly from these dictionaries. */
  lemma ReviewCommandDictAccepts(m: Fields, show: Show)
    ensures ReviewCommandFromDict(m, show).Some? <==>
            && m.Keys == { Known(CommandId), Known(SessionId), Known(RunId), Known(Kind), Known(Payload),
                           Known(IdempotencyKey), Known(CausationId), Known(TraceContext) }
            && m[Known(Kind)] == Str("submit_review")
            && NonBlank(m[Known(CommandId)]) && NonBlank(m[Known(SessionId)]) && NonBlank(m[Known(RunId)])
            && m[Known(IdempotencyKey)].Str? && (m[Known(CausationId)] == Null || m[Known(CausationId)].Str?)
            && m[Known(TraceContext)].Dict? && Storable(m[Known(TraceContext)])
            && m[Known(Payload)].Dict?
            && var p := m[Known(Payload)].fields;
               && p.Keys == { Known(Request), Known(EnvironmentSnapshot) }
               && DictOrNull(p[Known(EnvironmentSnapshot)]) && StorableOrNull(p[Known(EnvironmentSnapshot)])
               && p[Known(Request)].Dict? && ReviewFromDict(p[Known(Request)].fields).Some?
  {
    hide NonBlank, Storable, StorableOrNull, NewReviewCommand, ReviewFromDict;
    forall v: Value ensures NonBlank(v) ==> v.Str? {
      NonBlankIsText(v);
    }
    if Known(Payload) in m && m[Known(Payload)].Dict? && Known(Request) in m[Known(Payload)].fields
       && Known(EnvironmentSnapshot) in m[Known(Payload)].fields && m[Known(Payload)].fields[Known(Request)].Dict?
    {
      var p := m[Known(Payload)].fields;
      var request := ReviewFromDict(p[Known(Request)].fields);
      if request.Some? {
        ReviewCommandAccepts(
          Look(m, CommandId), Look(m, SessionId), Look(m, RunId), request.value, p[Known(EnvironmentSnapshot)],
          Look(m, IdempotencyKey), Look(m, CausationId), Look(m, TraceContext), show);
      }
    }
  }

  // ---- Stored texts --------------------------------------------------------------------------

  /** The kinds, the delivery and the session modes that are stored and told apart. */
  lemma StoredTexts(t: TurnCommand, c: ReviewCommand, r: ReviewRequest, remote: RemoteRequest)
    ensures Look(TurnToDict(t), Kind) == Str("submit_turn")
    ensures Look(ReviewCommandToDict(c), Kind) == Str("submit_review")
    ensures Look(ReviewToDict(r), Delivery) == Str("inline")
    ensures Look(ReviewToDict(r), SessionMode) == Str(if r.mode.Create? then "create" else "existing")
    ensures RemoteKind(remote) == if remote.Chat? then "mind_chat" else "mind_review"
  {
    hide Thaw, TurnPayload, ThawOptional, CauseValue;
    TurnDictReads(t);
    ReviewDictReads(r);
  }

  /** A key is kept stripped, and an empty one is the command's id; a cause is kept stripped, and an empty one null. */
  lemma LabelsStored(commandId: string, key: Value, cause: Value, show: Show)
    ensures KeyOr(key, show, commandId) ==
            if Nothing(key) then commandId
            else
              var text := Strip(if key.Str? then key.s else show(key));
              if text != "" then text else commandId
    ensures CauseValue(Cause(cause, show)) ==
            if Nothing(cause) then Null
            else
              var text := Strip(if cause.Str? then cause.s else show(cause));
              if text != "" then Str(text) else Null
  {
    hide Strip;
    FalsyIsNothing(key);
    FalsyIsNothing(cause);
  }
}
