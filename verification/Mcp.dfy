/** The owner loop of the MCP server: which frames are admitted as calls, and which responses leave.
    JSON parsing and parameter validation are left as the verdicts they return. */
module Mcp {
  import opened Common

  type RequestId = string
  type TaskId = nat

  datatype Shape = June | November

  datatype ProtocolState = AwaitInitialize | AwaitInitialized | Ready | Closing

  datatype Call = Call(name: string, fits: bool)

  /** What the validators say of a frame's parameters, under either negotiated shape. */
  datatype Params = Params(
    initialize: Option<Shape>,
    plain: set<Shape>,
    list: set<Shape>,
    call: map<Shape, Call>,
    cancel: map<Shape, RequestId>)

  /** A frame after strict parsing: `Unusable` stands for duplicate keys, too much structure, a value
      that is not an object, and an id of the wrong kind. */
  datatype Frame =
    | Malformed
    | Unusable
    | Envelope(id: Option<RequestId>, valid: bool, rpcMethod: string, params: Params)

  datatype Control =
    | ParseError
    | InvalidRequest
    | RequestTooLarge
    | DuplicateId
    | InvalidRequestFor(id: RequestId)
    | InvalidParams(id: RequestId)
    | NotInitialized(id: RequestId)
    | MethodNotFound(id: RequestId)
    | InternalError(id: RequestId)
    | Initialized(id: RequestId, shape: Shape)
    | Pong(id: RequestId)
    | Tools(id: RequestId)

  datatype Outcome = Result(content: string) | TaskFailure

  datatype Message = ControlMessage(control: Control) | CallResponse(id: RequestId, outcome: Outcome)

  predicate Bears(c: Control, id: RequestId) {
    !c.ParseError? && !c.InvalidRequest? && !c.RequestTooLarge? && !c.DuplicateId? && c.id == id
  }

  // ----- what a frame should lead to -----

  /** What is done with a frame. */
  datatype Verdict =
    | Respond(control: Control)
    | Admit(id: RequestId, name: string)
    | CancelCall(target: RequestId)
    | BecomeReady
    | Ignore

  predicate RequestOnly(rpcMethod: string) {
    rpcMethod in {"initialize", "ping", "tools/list", "tools/call"}
  }

  predicate NotificationOnly(rpcMethod: string) {
    rpcMethod in {"notifications/initialized", "notifications/cancelled"}
  }

  function VerdictOn(
      frame: Frame, state: ProtocolState, shape: Option<Shape>, active: set<RequestId>, tools: set<string>)
    : (v: Verdict)
  {
    match frame
    case Malformed => Respond(ParseError)
    case Unusable => Respond(InvalidRequest)
    case Envelope(None, valid, rpcMethod, params) =>
      if valid then OnNotification(rpcMethod, params, state, shape, active) else Ignore
    case Envelope(Some(id), valid, rpcMethod, params) =>
      if !valid then Respond(InvalidRequestFor(id))
      else if id in active then Respond(DuplicateId)
      else OnRequest(id, rpcMethod, params, state, shape, tools)
  }

  function OnNotification(
      rpcMethod: string, params: Params, state: ProtocolState, shape: Option<Shape>, active: set<RequestId>)
    : (v: Verdict)
  {
    if shape.None? then Ignore
    else if rpcMethod == "notifications/initialized" then
      if state.AwaitInitialized? && shape.value in params.plain then BecomeReady else Ignore
    else if rpcMethod == "notifications/cancelled" then
      if shape.value in params.cancel && params.cancel[shape.value] in active
      then CancelCall(params.cancel[shape.value])
      else Ignore
    else Ignore
  }

  function OnRequest(id: RequestId, rpcMethod: string, params: Params, state: ProtocolState, shape: Option<Shape>,
                     tools: set<string>): (v: Verdict)
  {
    if NotificationOnly(rpcMethod) then Respond(InvalidRequestFor(id))
    else if !RequestOnly(rpcMethod) then Respond(MethodNotFound(id))
    else if rpcMethod == "initialize" then
      if !state.AwaitInitialize? then Respond(InvalidRequestFor(id))
      else if params.initialize.None? then Respond(InvalidParams(id))
      else Respond(Initialized(id, params.initialize.value))
    else if shape.None? || !(state.Ready? || (rpcMethod == "ping" && state.AwaitInitialized?))
    then Respond(NotInitialized(id))
    else if rpcMethod == "ping" then Respond(if shape.value in params.plain then Pong(id) else InvalidParams(id))
    else if rpcMethod == "tools/list" then Respond(if shape.value in params.list then Tools(id) else InvalidParams(id))
    else if shape.value !in params.call || params.call[shape.value].name !in tools then Respond(InvalidParams(id))
    else if !params.call[shape.value].fits then Respond(InternalError(id))
    else Admit(id, params.call[shape.value].name)
  }

  /** A request gets exactly one of a control response and an admission; a frame that is neither a request
      nor broken gets no response at all. */
  lemma {:induction false} RequestsGetOneAnswer(frame: Frame, state: ProtocolState, shape: Option<Shape>,
                                                active: set<RequestId>, tools: set<string>)
    ensures var v := VerdictOn(frame, state, shape, active, tools);
            && (v.Respond? || v.Admit? <==> !(frame.Envelope? && frame.id.None?))
            && (v.Admit? ==>
                  state.Ready? && shape.Some? && v.id !in active && v.name in tools && frame.id == Some(v.id))
  {
  }

  /** A control response bears the id of an outstanding call exactly when an invalid envelope carries that
      id: the envelope is checked before the duplicate. */
  lemma {:induction false} OutstandingIdIsAnsweredEarlyIff(frame: Frame, state: ProtocolState, shape: Option<Shape>,
                                                           active: set<RequestId>, tools: set<string>, id: RequestId)
    requires id in active
    ensures var v := VerdictOn(frame, state, shape, active, tools);
            v.Respond? && Bears(v.control, id) <==> frame.Envelope? && !frame.valid && frame.id == Some(id)
  {
  }

  /** A well-formed request under an id no open call holds. */
  predicate FreshRequest(frame: Frame, active: set<RequestId>, id: RequestId) {
    frame.Envelope? && frame.valid && frame.id == Some(id) && id !in active
  }

  /** Whether the server serves tools, under the shape that was agreed. */
  predicate Serving(state: ProtocolState, shape: Option<Shape>) {
    state.Ready? && shape.Some?
  }

  /** A tool call for a listed tool with valid parameters, made to a server that is ready for it. */
  predicate GoodCall(frame: Frame, state: ProtocolState, shape: Option<Shape>, active: set<RequestId>,
                     tools: set<string>, id: RequestId, name: string)
  {
    && FreshRequest(frame, active, id) && frame.rpcMethod == "tools/call" && Serving(state, shape)
    && shape.value in frame.params.call && frame.params.call[shape.value].name == name && name in tools
  }

  /** A frame is admitted as a call exactly when it is a good call whose response fits in a frame; a good
      call whose response cannot fit is the only frame that meets an internal error. */
  lemma {:induction false} AdmittedIff(
      frame: Frame, state: ProtocolState, shape: Option<Shape>, active: set<RequestId>, tools: set<string>,
      id: RequestId, name: string)
    ensures VerdictOn(frame, state, shape, active, tools) == Admit(id, name) <==>
              GoodCall(frame, state, shape, active, tools, id, name) && frame.params.call[shape.value].fits
    ensures VerdictOn(frame, state, shape, active, tools) == Respond(InternalError(id)) <==>
              exists tool :: && GoodCall(frame, state, shape, active, tools, id, tool)
                             && !frame.params.call[shape.value].fits
  {
    if FreshRequest(frame, active, id) && shape.Some? && shape.value in frame.params.call {
      var tool := frame.params.call[shape.value].name;
      assert frame.rpcMethod == "tools/call" && Serving(state, shape) && tool in tools <==>
             GoodCall(frame, state, shape, active, tools, id, tool);
    }
  }

  /** When initialize, ping and the list of tools get their results, and when a notification acts. */
  lemma {:induction false} ServedIff(
      frame: Frame, state: ProtocolState, shape: Option<Shape>, active: set<RequestId>, tools: set<string>,
      id: RequestId, agreed: Shape)
    ensures var v := VerdictOn(frame, state, shape, active, tools);
            && (v == Respond(Initialized(id, agreed)) <==>
                  && FreshRequest(frame, active, id) && frame.rpcMethod == "initialize" && state.AwaitInitialize?
                  && frame.params.initialize == Some(agreed))
            && (v == Respond(Pong(id)) <==>
                  && FreshRequest(frame, active, id) && frame.rpcMethod == "ping"
                  && (state.AwaitInitialized? || state.Ready?) && shape.Some? && shape.value in frame.params.plain)
            && (v == Respond(Tools(id)) <==>
                  && FreshRequest(frame, active, id) && frame.rpcMethod == "tools/list" && Serving(state, shape)
                  && shape.value in frame.params.list)
            && (v == BecomeReady <==>
                  && frame.Envelope? && frame.valid && frame.id.None?
                  && frame.rpcMethod == "notifications/initialized" && state.AwaitInitialized? && shape.Some?
                  && shape.value in frame.params.plain)
            && (v == CancelCall(id) <==>
                  && frame.Envelope? && frame.valid && frame.id.None?
                  && frame.rpcMethod == "notifications/cancelled" && shape.Some? && id in active
                  && shape.value in frame.params.cancel && frame.params.cancel[shape.value] == id)
  {
  }

  /** When each of the other errors is the answer. */
  lemma {:induction false} RefusedIff(
      frame: Frame, state: ProtocolState, shape: Option<Shape>, active: set<RequestId>, tools: set<string>,
      id: RequestId)
    ensures var v := VerdictOn(frame, state, shape, active, tools);
            && v != Respond(RequestTooLarge)
            && (v == Respond(ParseError) <==> frame.Malformed?)
            && (v == Respond(InvalidRequest) <==> frame.Unusable?)
            && (v == Respond(DuplicateId) <==>
                  frame.Envelope? && frame.valid && frame.id.Some? && frame.id.value in active)
            && (v == Respond(InvalidRequestFor(id)) <==>
                  || (frame.Envelope? && !frame.valid && frame.id == Some(id))
                  || (FreshRequest(frame, active, id)
                      && (frame.rpcMethod in {"notifications/initialized", "notifications/cancelled"}
                          || (frame.rpcMethod == "initialize" && !state.AwaitInitialize?))))
            && (v == Respond(MethodNotFound(id)) <==>
                  && FreshRequest(frame, active, id)
                  && frame.rpcMethod !in {"initialize", "ping", "tools/list", "tools/call",
                                          "notifications/initialized", "notifications/cancelled"})
            && (v == Respond(NotInitialized(id)) <==>
                  && FreshRequest(frame, active, id)
                  && ((frame.rpcMethod == "ping" && (!(state.AwaitInitialized? || state.Ready?) || shape.None?))
                      || (frame.rpcMethod in {"tools/list", "tools/call"} && !Serving(state, shape))))
            && (v == Respond(InvalidParams(id)) <==>
                  && FreshRequest(frame, active, id)
                  && ((frame.rpcMethod == "initialize" && state.AwaitInitialize? && frame.params.initialize.None?)
                      || (frame.rpcMethod == "ping" && (state.AwaitInitialized? || state.Ready?) && shape.Some?
                          && shape.value !in frame.params.plain)
                      || (frame.rpcMethod == "tools/list" && Serving(state, shape)
                          && shape.value !in frame.params.list)
                      || (frame.rpcMethod == "tools/call" && Serving(state, shape)
                          && (shape.value !in frame.params.call
                              || frame.params.call[shape.value].name !in tools))))
  {
  }

  // ----- the ledger of calls -----

  /** What became of an admitted call. */
  datatype Fate =
    | Open
    | Answered(at: nat)
    | CancelledByClient
    | Unsendable
    | Closed

  /** Every call ever admitted, in order; the open call of each outstanding id; which call each message
      answers; the calls the client has cancelled. */
  datatype Ledger = Ledger(
    calls: seq<RequestId>,
    fates: seq<Fate>,
    open: map<RequestId, nat>,
    source: map<nat, nat>,
    cancels: set<nat>)

  /** Calls and responses correspond one to one. */
  predicate Balanced(l: Ledger, sent: seq<Message>) {
    && |l.calls| == |l.fates|
    && (forall id :: id in l.open ==>
          l.open[id] < |l.calls| && l.calls[l.open[id]] == id && l.fates[l.open[id]] == Open)
    && (forall t :: 0 <= t < |l.fates| && l.fates[t] == Open ==> l.calls[t] in l.open && l.open[l.calls[t]] == t)
    && (forall i :: i in l.source ==> i < |sent| && l.source[i] < |l.fates| && l.fates[l.source[i]] == Answered(i))
    && (forall i :: 0 <= i < |sent| && sent[i].CallResponse? ==> i in l.source)
    && (forall t :: 0 <= t < |l.fates| && l.fates[t].Answered? ==>
          && l.fates[t].at < |sent| && sent[l.fates[t].at].CallResponse? && sent[l.fates[t].at].id == l.calls[t]
          && l.fates[t].at in l.source && l.source[l.fates[t].at] == t)
    && (forall t :: 0 <= t < |l.fates| ==>
          (l.fates[t].CancelledByClient? ==> t in l.cancels) && (l.fates[t].Answered? ==> t !in l.cancels))
    && (forall t :: t in l.cancels ==> t < |l.fates|)
  }

  ghost function Opened(l: Ledger, id: RequestId): Ledger {
    l.(calls := l.calls + [id], fates := l.fates + [Open], open := l.open[id := |l.calls|])
  }

  ghost function Settled(l: Ledger, id: RequestId, fate: Fate): Ledger
    requires id in l.open && l.open[id] < |l.fates|
  {
    var t := l.open[id];
    l.(fates := l.fates[t := fate], open := l.open - {id},
       source := if fate.Answered? then l.source[fate.at := t] else l.source)
  }

  lemma {:induction false} OpenBalances(l: Ledger, sent: seq<Message>, id: RequestId)
    requires Balanced(l, sent) && id !in l.open
    ensures Balanced(Opened(l, id), sent)
  {
    assert |l.fates| !in l.cancels;
  }

  lemma {:induction false} AnswerBalances(l: Ledger, sent: seq<Message>, id: RequestId, outcome: Outcome)
    requires Balanced(l, sent) && id in l.open && l.open[id] !in l.cancels
    ensures Balanced(Settled(l, id, Answered(|sent|)), sent + [CallResponse(id, outcome)])
  {
    var l', sent' := Settled(l, id, Answered(|sent|)), sent + [CallResponse(id, outcome)];
    forall t | 0 <= t < |l'.fates| && l'.fates[t].Answered?
      ensures l'.fates[t].at < |sent'| && sent'[l'.fates[t].at].CallResponse? && sent'[l'.fates[t].at].id == l'.calls[t]
      ensures l'.fates[t].at in l'.source && l'.source[l'.fates[t].at] == t
    {
    }
  }

  lemma {:induction false} SilenceBalances(l: Ledger, sent: seq<Message>, id: RequestId, fate: Fate)
    requires Balanced(l, sent) && id in l.open && !fate.Answered? && fate != Open
    requires fate.CancelledByClient? ==> l.open[id] in l.cancels
    ensures Balanced(Settled(l, id, fate), sent)
  {
    var l' := Settled(l, id, fate);
    forall t | 0 <= t < |l'.fates| && l'.fates[t] == Open ensures l'.calls[t] in l'.open && l'.open[l'.calls[t]] == t {
    }
  }

  lemma {:induction false} ControlBalances(l: Ledger, sent: seq<Message>, control: Control)
    requires Balanced(l, sent)
    ensures Balanced(l, sent + [ControlMessage(control)])
  {
  }

  ghost function Responses(sent: seq<Message>): set<nat> {
    set i | 0 <= i < |sent| && sent[i].CallResponse?
  }

  ghost function AnsweredCalls(l: Ledger): set<nat> {
    set t | 0 <= t < |l.fates| && l.fates[t].Answered?
  }

  /** As many responses leave as calls were answered: none twice, none without a call. */
  lemma {:induction false} ResponsesCountCalls(l: Ledger, sent: seq<Message>)
    requires Balanced(l, sent)
    ensures |Responses(sent)| == |AnsweredCalls(l)|
  {
    var left, right := Responses(sent), AnsweredCalls(l);
    assert right == set i | i in left :: l.source[i] by {
      forall t | t in right ensures t in (set i | i in left :: l.source[i]) {
        assert l.fates[t].at in left;
      }
    }
    InjectiveImage(left, l.source);
  }

  lemma {:induction false} InjectiveImage(keys: set<nat>, m: map<nat, nat>)
    requires forall i :: i in keys ==> i in m
    requires forall i, j :: i in keys && j in keys && m[i] == m[j] ==> i == j
    ensures |set i | i in keys :: m[i]| == |keys|
    decreases keys
  {
    if keys != {} {
      var k :| k in keys;
      InjectiveImage(keys - {k}, m);
      assert (set i | i in keys :: m[i]) == (set i | i in keys - {k} :: m[i]) + {m[k]};
    }
  }

  // ----- the registries -----

  datatype InFlight = InFlight(cancelledByClient: bool)

  /** Active ids and task ids are in bijection, and the active ids are those of the open calls. */
  ghost predicate Linked(l: Ledger, active: map<RequestId, InFlight>, tasks: map<TaskId, RequestId>, next: TaskId) {
    && active.Keys == l.open.Keys
    && (forall id :: id in active ==> (active[id].cancelledByClient <==> l.open[id] in l.cancels))
    && (forall task :: task in tasks ==> task < next && tasks[task] in active)
    && (forall p, q :: p in tasks && q in tasks && tasks[p] == tasks[q] ==> p == q)
    && (forall id :: id in active ==> exists task :: task in tasks && tasks[task] == id)
  }

  /** The initialize result left before the server became ready, and calls came after that. */
  ghost predicate Shaken(state: ProtocolState, shape: Option<Shape>, handshake: Option<nat>, calls: seq<RequestId>,
                         sent: seq<Message>)
  {
    && (state.AwaitInitialize? ==> shape.None? && handshake.None?)
    && (state.AwaitInitialized? || state.Ready? ==> shape.Some? && handshake.Some?)
    && (handshake.None? || state.AwaitInitialized? ==> calls == [])
    && (handshake.Some? ==>
          && handshake.value < |sent| && sent[handshake.value].ControlMessage?
          && sent[handshake.value].control.Initialized?)
    && (forall i :: 0 <= i < |sent| && sent[i].CallResponse? ==> handshake.Some? && handshake.value < i)
    && (forall i :: 0 <= i < |sent| && sent[i].ControlMessage? && sent[i].control.Initialized? ==> handshake == Some(i))
  }

  lemma {:induction false} LinkedOpen(
      l: Ledger, active: map<RequestId, InFlight>, tasks: map<TaskId, RequestId>, next: TaskId)
    requires Linked(l, active, tasks, next)
    ensures active.Keys == l.open.Keys
    ensures forall task :: task in tasks ==> tasks[task] in active
    ensures forall id :: id in active ==> (active[id].cancelledByClient <==> l.open[id] in l.cancels)
  {
  }

  lemma {:induction false} OpenCalls(l: Ledger, sent: seq<Message>, id: RequestId)
    requires Balanced(l, sent) && id in l.open
    ensures l.open[id] < |l.fates| && |l.calls| == |l.fates| && l.calls != []
  {
  }

  lemma {:induction false} NewCallUncancelled(l: Ledger, sent: seq<Message>)
    requires Balanced(l, sent)
    ensures |l.calls| !in l.cancels
  {
  }

  lemma {:induction false} SpawnLinks(l: Ledger, sent: seq<Message>, active: map<RequestId, InFlight>,
                                      tasks: map<TaskId, RequestId>, next: TaskId, id: RequestId)
    requires Balanced(l, sent) && Linked(l, active, tasks, next) && id !in active
    ensures Linked(Opened(l, id), active[id := InFlight(false)], tasks[next := id], next + 1)
  {
    var active', tasks' := active[id := InFlight(false)], tasks[next := id];
    NewCallUncancelled(l, sent);
    hide Balanced;
    forall other | other in active' ensures exists task :: task in tasks' && tasks'[task] == other {
      if other == id {
        assert tasks'[next] == id;
      } else {
        var task :| task in tasks && tasks[task] == other;
        assert tasks'[task] == other;
      }
    }
  }

  lemma {:induction false} EndLinks(l: Ledger, sent: seq<Message>, active: map<RequestId, InFlight>,
                                    tasks: map<TaskId, RequestId>, next: TaskId, task: TaskId, fate: Fate)
    requires Balanced(l, sent) && Linked(l, active, tasks, next) && task in tasks
    ensures Linked(Settled(l, tasks[task], fate), active - {tasks[task]}, tasks - {task}, next)
  {
    var id := tasks[task];
    var active', tasks' := active - {id}, tasks - {task};
    forall other | other in active' ensures exists p :: p in tasks' && tasks'[p] == other {
      var p :| p in tasks && tasks[p] == other;
      assert tasks'[p] == other;
    }
  }

  lemma {:induction false} CancelBalances(l: Ledger, sent: seq<Message>, id: RequestId)
    requires Balanced(l, sent) && id in l.open
    ensures Balanced(l.(cancels := l.cancels + {l.open[id]}), sent)
  {
  }

  lemma {:induction false} OpenDiffer(l: Ledger, sent: seq<Message>, id: RequestId)
    requires Balanced(l, sent) && id in l.open
    ensures forall other :: other in l.open && other != id ==> l.open[other] != l.open[id]
  {
  }

  lemma {:induction false} CancelLinks(l: Ledger, active: map<RequestId, InFlight>, tasks: map<TaskId, RequestId>,
                                       next: TaskId, id: RequestId)
    requires Linked(l, active, tasks, next) && id in active
    requires forall other :: other in l.open && other != id ==> l.open[other] != l.open[id]
    ensures Linked(l.(cancels := l.cancels + {l.open[id]}), active[id := InFlight(true)], tasks, next)
  {
  }

  lemma {:induction false} ReadyShakes(
      shape: Option<Shape>, handshake: Option<nat>, calls: seq<RequestId>, sent: seq<Message>)
    requires Shaken(AwaitInitialized, shape, handshake, calls, sent)
    ensures Shaken(Ready, shape, handshake, calls, sent)
  {
  }

  lemma {:induction false} AnswerShakes(state: ProtocolState, shape: Option<Shape>, handshake: Option<nat>,
                                        calls: seq<RequestId>, sent: seq<Message>, message: Message)
    requires Shaken(state, shape, handshake, calls, sent) && calls != []
    requires message.CallResponse?
    ensures Shaken(state, shape, handshake, calls, sent + [message])
  {
  }

  // ----- what the input demands -----

  datatype Event =
    | WriterGone
    | InputError
    | Eof
    | PartialEof
    | Oversized
    | FrameRead(frame: Frame)
    | TaskEnded

  /** Everything but a well-formed or nameless notification demands an answer: a control response or a
      call. */
  predicate Demanding(event: Event) {
    match event
    case PartialEof => true
    case Oversized => true
    case FrameRead(frame) => !(frame.Envelope? && frame.id.None?)
    case _ => false
  }

  predicate Ending(event: Event) {
    event.WriterGone? || event.InputError? || event.Eof? || event.PartialEof?
  }

  function Demands(events: seq<(Event, Around)>): nat {
    if events == [] then 0
    else Demands(events[..|events| - 1]) + (if Demanding(events[|events| - 1].0) then 1 else 0)
  }

  function Controls(sent: seq<Message>): nat {
    if sent == [] then 0
    else Controls(sent[..|sent| - 1]) + (if sent[|sent| - 1].ControlMessage? then 1 else 0)
  }

  lemma {:induction false} ControlsAppend(sent: seq<Message>, message: Message)
    ensures Controls(sent + [message]) == Controls(sent) + (if message.ControlMessage? then 1 else 0)
  {
    assert (sent + [message])[..|sent|] == sent;
  }

  // ----- the owner -----

  /** How a task ends. */
  datatype TaskEnding = Returned(content: string) | Panicked | Aborted

  /** Why handling an event ends the connection. */
  datatype Fault = NoFault | BookkeepingFault | SerializeFault | SendFault

  /** What the world does around one event: whether sends go through, whether a response fits in a frame,
      and which task has finished, if any. */
  datatype Around = Around(sends: bool, replySends: bool, serializes: bool, finished: Option<(TaskId, TaskEnding)>)

  class Owner {
    const tools: set<string>
    var state: ProtocolState
    var shape: Option<Shape>
    var active: map<RequestId, InFlight>
    var taskIds: map<TaskId, RequestId>
    var tasks: map<TaskId, RequestId>
    var nextTask: TaskId
    var sent: seq<Message>
    ghost var ledger: Ledger
    ghost var handshake: Option<nat>

    ghost predicate Valid()
      reads this
    {
      && Balanced(ledger, sent)
      && Linked(ledger, active, tasks, nextTask) && taskIds == tasks
      && Shaken(state, shape, handshake, ledger.calls, sent)
    }

    constructor (tools: set<string>)
      ensures Valid() && this.tools == tools && sent == [] && ledger.calls == [] && state == AwaitInitialize
    {
      this.tools := tools;
      state, shape := AwaitInitialize, None;
      active, taskIds, tasks, nextTask := map[], map[], map[], 0;
      sent := [];
      ledger := Ledger([], [], map[], map[], {});
      handshake := None;
    }

    method ProcessControlFrame(frame: Frame) returns (response: Option<Control>, transition: Option<Shape>)
      requires Valid() && !state.Closing?
      modifies this
      ensures Valid() && sent == old(sent) && handshake == old(handshake)
      ensures var v := old(VerdictOn(frame, state, shape, active.Keys, tools));
              && response == (if v.Respond? then Some(v.control) else None)
              && transition == (if v.Respond? && v.control.Initialized? then Some(v.control.shape) else None)
              && state == (if v.BecomeReady? then Ready else old(state))
              && shape == old(shape)
              && ledger.calls == old(ledger).calls + (if v.Admit? then [v.id] else [])
              && ledger.fates == old(ledger).fates + (if v.Admit? then [Open] else [])
              && active == (if v.Admit? then old(active)[v.id := InFlight(false)]
                            else if v.CancelCall? then old(active)[v.target := InFlight(true)] else old(active))
              && (!v.Admit? ==> tasks == old(tasks) && ledger.open == old(ledger).open)
    {
      hide Balanced, Linked, Shaken;
      LinkedOpen(ledger, active, tasks, nextTask);
      transition := None;
      match frame {
        case Malformed => return Some(ParseError), None;
        case Unusable => return Some(InvalidRequest), None;
        case Envelope(trusted, valid, rpcMethod, params) =>
          if !valid {
            return if trusted.Some? then Some(InvalidRequestFor(trusted.value)) else None, None;
          }
          if trusted.Some? && trusted.value in active {
            return Some(DuplicateId), None;
          }
          if trusted.None? && RequestOnly(rpcMethod) {
            return None, None;
          }
          if trusted.Some? && NotificationOnly(rpcMethod) {
            return Some(InvalidRequestFor(trusted.value)), None;
          }
          if rpcMethod == "notifications/initialized" {
            if shape.Some? && state == AwaitInitialized && shape.value in params.plain {
              ReadyShakes(shape, handshake, ledger.calls, sent);
              state := Ready;
            }
            return None, None;
          }
          if rpcMethod == "notifications/cancelled" {
            if shape.Some? && shape.value in params.cancel && params.cancel[shape.value] in active {
              var target := params.cancel[shape.value];
              MarkCancelled(target);
            }
            return None, None;
          }
          if !RequestOnly(rpcMethod) {
            return if trusted.Some? then Some(MethodNotFound(trusted.value)) else None, None;
          }
          response, transition := Dispatch(trusted.value, rpcMethod, params);
      }
    }

    method MarkCancelled(target: RequestId)
      requires Valid() && target in active
      modifies this`active, this`ledger
      ensures Valid() && active == old(active)[target := InFlight(true)]
      ensures ledger == old(ledger).(cancels := old(ledger).cancels + {old(ledger).open[target]})
    {
      hide Balanced, Linked, Shaken;
      LinkedOpen(ledger, active, tasks, nextTask);
      CancelBalances(ledger, sent, target);
      OpenDiffer(ledger, sent, target);
      CancelLinks(ledger, active, tasks, nextTask, target);
      active := active[target := InFlight(true)];
      ledger := ledger.(cancels := ledger.cancels + {ledger.open[target]});
    }

    method Dispatch(id: RequestId, rpcMethod: string, params: Params)
      returns (response: Option<Control>, transition: Option<Shape>)
      requires Valid() && !state.Closing? && RequestOnly(rpcMethod) && id !in active
      modifies this
      ensures Valid() && sent == old(sent) && handshake == old(handshake) && state == old(state) && shape == old(shape)
      ensures var v := old(OnRequest(id, rpcMethod, params, state, shape, tools));
              && response == (if v.Respond? then Some(v.control) else None)
              && transition == (if v.Respond? && v.control.Initialized? then Some(v.control.shape) else None)
              && ledger.calls == old(ledger).calls + (if v.Admit? then [id] else [])
              && ledger.fates == old(ledger).fates + (if v.Admit? then [Open] else [])
              && active == (if v.Admit? then old(active)[id := InFlight(false)] else old(active))
              && (!v.Admit? ==> tasks == old(tasks) && ledger.open == old(ledger).open)
    {
      transition := None;
      match rpcMethod {
        case "initialize" =>
          if state != AwaitInitialize {
            return Some(InvalidRequestFor(id)), None;
          }
          if params.initialize.None? {
            return Some(InvalidParams(id)), None;
          }
          return Some(Initialized(id, params.initialize.value)), params.initialize;
        case "ping" =>
          if (state != AwaitInitialized && state != Ready) || shape.None? {
            return Some(NotInitialized(id)), None;
          }
          return Some(if shape.value in params.plain then Pong(id) else InvalidParams(id)), None;
        case "tools/list" =>
          if state != Ready || shape.None? {
            return Some(NotInitialized(id)), None;
          }
          return Some(if shape.value in params.list then Tools(id) else InvalidParams(id)), None;
        case _ =>
          if state != Ready || shape.None? {
            return Some(NotInitialized(id)), None;
          }
          if shape.value !in params.call || params.call[shape.value].name !in tools {
            return Some(InvalidParams(id)), None;
          }
          if !params.call[shape.value].fits {
            return Some(InternalError(id)), None;
          }
          Spawn(id);
          return None, None;
      }
    }

    method Spawn(id: RequestId)
      requires Valid() && state == Ready && id !in active
      modifies this`active, this`taskIds, this`tasks, this`nextTask, this`ledger
      ensures Valid() && active == old(active)[id := InFlight(false)]
      ensures ledger == Opened(old(ledger), id)
    {
      hide Balanced, Linked;
      assert id !in ledger.open by { LinkedOpen(ledger, active, tasks, nextTask); }
      OpenBalances(ledger, sent, id);
      SpawnLinks(ledger, sent, active, tasks, nextTask, id);
      active := active[id := InFlight(false)];
      tasks := tasks[nextTask := id];
      taskIds := taskIds[nextTask := id];
      nextTask := nextTask + 1;
      ledger := Opened(ledger, id);
    }

    /** A finished task answers its call, unless the client cancelled it or the connection is failing; the
        registries always agree. */
    method ProcessCompletion(task: TaskId, ending: TaskEnding, serializes: bool, sends: bool) returns (fault: Fault)
      requires Valid() && task in tasks
      modifies this
      ensures Valid() && state == old(state) && shape == old(shape) && handshake == old(handshake)
      ensures fault != BookkeepingFault
      ensures ledger.calls == old(ledger).calls && ledger.cancels == old(ledger).cancels
      ensures var id := old(tasks[task]);
              && active == old(active) - {id} && tasks == old(tasks) - {task}
              && var t := old(ledger.open[id]);
                 var fate :=
                   if old(active[id]).cancelledByClient then CancelledByClient
                   else if ending.Aborted? then Closed
                   else if serializes && sends then Answered(|old(sent)|)
                   else Unsendable;
                 && ledger.fates == old(ledger).fates[t := fate]
                 && (fault == NoFault <==> fate != Unsendable)
                 && var outcome := if ending.Returned? then Result(ending.content) else TaskFailure;
                    sent == old(sent) + (if fate.Answered? then [CallResponse(id, outcome)] else [])
    {
      hide Balanced, Linked, Shaken;
      LinkedOpen(ledger, active, tasks, nextTask);
      OpenCalls(ledger, sent, tasks[task]);
      // A completion carries the id its call was spawned with.
      var completedId := tasks[task];
      tasks := tasks - {task};
      if task !in taskIds {
        assert false;
        return BookkeepingFault;
      }
      var associatedId := taskIds[task];
      taskIds := taskIds - {task};
      if associatedId != completedId || completedId !in active {
        assert false;
        return BookkeepingFault;
      }
      var inflight := active[completedId];
      active := active - {completedId};
      ghost var t := ledger.open[completedId];
      if !inflight.cancelledByClient && !ending.Aborted? {
        var outcome := if ending.Returned? then Result(ending.content) else TaskFailure;
        if serializes && sends {
          AnswerBalances(ledger, sent, completedId, outcome);
          AnswerShakes(state, shape, handshake, ledger.calls, sent, CallResponse(completedId, outcome));
          EndLinks(ledger, sent, old(active), old(tasks), nextTask, task, Answered(|sent|));
          ledger := Settled(ledger, completedId, Answered(|sent|));
          sent := sent + [CallResponse(completedId, outcome)];
          fault := NoFault;
        } else {
          SilenceBalances(ledger, sent, completedId, Unsendable);
          EndLinks(ledger, sent, old(active), old(tasks), nextTask, task, Unsendable);
          ledger := Settled(ledger, completedId, Unsendable);
          fault := if serializes then SendFault else SerializeFault;
        }
      } else {
        var fate := if inflight.cancelledByClient then CancelledByClient else Closed;
        SilenceBalances(ledger, sent, completedId, fate);
        EndLinks(ledger, sent, old(active), old(tasks), nextTask, task, fate);
        ledger := Settled(ledger, completedId, fate);
        fault := NoFault;
      }
    }

    method SendControl(control: Control, sends: bool) returns (fault: Fault)
      requires Valid() && !control.Initialized?
      modifies this`sent
      ensures Valid() && sent == old(sent) + (if sends then [ControlMessage(control)] else [])
      ensures Controls(sent) == Controls(old(sent)) + (if sends then 1 else 0)
      ensures fault == if sends then NoFault else SendFault
    {
      hide Linked;
      if !sends {
        return SendFault;
      }
      ControlBalances(ledger, sent, control);
      ControlsAppend(sent, ControlMessage(control));
      sent := sent + [ControlMessage(control)];
      fault := NoFault;
    }

    method SendInitialized(control: Control, sends: bool) returns (fault: Fault)
      requires Valid() && control.Initialized? && state.AwaitInitialize?
      modifies this
      ensures Valid() && sent == old(sent) + (if sends then [ControlMessage(control)] else [])
      ensures Controls(sent) == Controls(old(sent)) + (if sends then 1 else 0)
      ensures fault == if sends then NoFault else SendFault
      ensures state == (if sends then AwaitInitialized else AwaitInitialize)
      ensures shape == (if sends then Some(control.shape) else None)
      ensures active == old(active) && tasks == old(tasks) && ledger == old(ledger)
    {
      if !sends {
        return SendFault;
      }
      ControlBalances(ledger, sent, control);
      ControlsAppend(sent, ControlMessage(control));
      handshake := Some(|sent|);
      sent := sent + [ControlMessage(control)];
      state := AwaitInitialized;
      shape := Some(control.shape);
      fault := NoFault;
    }

    /** What an input event should lead to; the others lead to nothing by themselves. */
    function VerdictOf(event: Event): Verdict
      reads this
    {
      match event
      case PartialEof => Respond(ParseError)
      case Oversized => Respond(RequestTooLarge)
      case FrameRead(frame) => VerdictOn(frame, state, shape, active.Keys, tools)
      case _ => Ignore
    }

    /** One event of the owner loop; `stop` says that the loop ends. */
    method TakeEvent(event: Event, around: Around) returns (stop: bool, fault: Fault)
      requires Valid() && !state.Closing?
      requires around.finished.Some? ==> !around.finished.value.1.Aborted?
      modifies this
      ensures Valid() && !state.Closing?
      ensures fault != BookkeepingFault && (fault != NoFault ==> stop)
      ensures var v := old(VerdictOf(event));
              && ledger.calls == old(ledger).calls + (if v.Admit? then [v.id] else [])
              && old(sent) + (if v.Respond? && around.sends then [ControlMessage(v.control)] else []) <= sent
              && (v.Respond? && !around.sends ==> fault == SendFault)
              && (fault == NoFault && v.CancelCall? && v.target in active ==> active[v.target].cancelledByClient)
      ensures fault == NoFault ==>
                Controls(sent) + |ledger.calls|
                == Controls(old(sent)) + |old(ledger).calls| + if Demanding(event) then 1 else 0
      ensures stop <==> Ending(event) || fault != NoFault
      ensures fault == NoFault && !stop && around.finished.Some? ==> around.finished.value.0 !in tasks
      ensures forall t :: 0 <= t < |ledger.fates| && ledger.fates[t] in {Unsendable, Closed} ==>
                fault != NoFault || (t < |old(ledger).fates| && old(ledger).fates[t] == ledger.fates[t])
    {
      hide Balanced, Linked, Shaken, VerdictOn, OnRequest;
      stop, fault := false, NoFault;
      if event.FrameRead? {
        RequestsGetOneAnswer(event.frame, state, shape, active.Keys, tools);
      }
      match event {
        case WriterGone => stop := true;
        case InputError => stop := true;
        case Eof => stop := true;
        case PartialEof =>
          fault := SendControl(ParseError, around.sends);
          stop := true;
        case Oversized =>
          fault := SendControl(RequestTooLarge, around.sends);
          if fault == NoFault {
            fault := ReapOne(around);
          }
          stop := fault != NoFault;
        case FrameRead(frame) =>
          fault := AnswerFrame(frame, around.sends);
          if fault == NoFault {
            fault := ReapOne(around);
          }
          stop := fault != NoFault;
        case TaskEnded =>
          fault := ReapOne(around);
          stop := fault != NoFault;
      }
    }

    /** The response or the admission that a frame calls for. */
    method AnswerFrame(frame: Frame, sends: bool) returns (fault: Fault)
      requires Valid() && !state.Closing?
      modifies this
      ensures Valid() && !state.Closing? && (fault == NoFault || fault == SendFault)
      ensures var v := old(VerdictOf(FrameRead(frame)));
              && ledger.calls == old(ledger).calls + (if v.Admit? then [v.id] else [])
              && ledger.fates == old(ledger).fates + (if v.Admit? then [Open] else [])
              && sent == old(sent) + (if v.Respond? && sends then [ControlMessage(v.control)] else [])
              && (v.Respond? && !sends <==> fault == SendFault)
              && (v.CancelCall? ==> v.target in active && active[v.target].cancelledByClient)
              && (v.Respond? ==> active == old(active) && tasks == old(tasks) && ledger.open == old(ledger).open)
      ensures Controls(sent) == Controls(old(sent)) + |sent| - |old(sent)|
    {
      hide Balanced, Linked, Shaken, VerdictOn, OnRequest;
      InitializeNeedsFreshState(frame, state, shape, active.Keys, tools);
      fault := NoFault;
      var response, transition := ProcessControlFrame(frame);
      if response.Some? {
        if transition.Some? {
          fault := SendInitialized(response.value, sends);
        } else {
          fault := SendControl(response.value, sends);
        }
      }
    }

    /** An invalid envelope with the id of an outstanding call is answered at once, and the call's own response
        still follows when its task ends: the client gets two answers with that id. */
    method AnswerTwice(id: RequestId, frame: Frame, task: TaskId, content: string) returns (first: Fault, second: Fault)
      requires Valid() && !state.Closing?
      requires task in tasks && tasks[task] == id && id in active && !active[id].cancelledByClient
      requires frame.Envelope? && frame.id == Some(id) && !frame.valid
      modifies this
      ensures Valid() && first == NoFault && second == NoFault
      ensures sent == old(sent) + [ControlMessage(InvalidRequestFor(id)), CallResponse(id, Result(content))]
    {
      hide Balanced, Linked, Shaken, OnRequest, OnNotification;
      LinkedOpen(ledger, active, tasks, nextTask);
      OpenCalls(ledger, sent, id);
      first := AnswerFrame(frame, true);
      second := ProcessCompletion(task, Returned(content), true, true);
    }

    method ReapOne(around: Around) returns (fault: Fault)
      requires Valid() && !state.Closing?
      requires around.finished.Some? ==> !around.finished.value.1.Aborted?
      modifies this
      ensures Valid() && state == old(state)
      ensures fault != BookkeepingFault
      ensures ledger.calls == old(ledger).calls && |ledger.fates| == |old(ledger).fates| && old(sent) <= sent
      ensures around.finished.Some? ==> around.finished.value.0 !in tasks
      ensures Controls(sent) == Controls(old(sent))
      ensures forall id :: id in active ==> id in old(active) && active[id] == old(active)[id]
      ensures forall t :: 0 <= t < |ledger.fates| && ledger.fates[t] in {Unsendable, Closed} ==>
                fault != NoFault || old(ledger).fates[t] == ledger.fates[t]
    {
      hide Balanced, Linked, Shaken;
      fault := NoFault;
      if around.finished.Some? && around.finished.value.0 in tasks {
        LinkedOpen(ledger, active, tasks, nextTask);
        OpenCalls(ledger, sent, tasks[around.finished.value.0]);
        var (task, ending) := around.finished.value;
        fault := ProcessCompletion(task, ending, around.serializes, around.replySends);
        if sent != old(sent) {
          ControlsAppend(old(sent), sent[|sent| - 1]);
        }
      }
    }

    /** Closing: running tasks are joined until the grace runs out, and nothing more is sent. */
    method Close(grace: nat) returns (fault: Fault)
      requires Valid()
      modifies this
      ensures state == Closing && active == map[] && taskIds == map[]
      ensures sent == old(sent) && Balanced(ledger, sent)
      ensures ledger == AllClosed(old(ledger))
      ensures fault == NoFault
    {
      hide Balanced, Linked, Shaken, AllClosed;
      state := Closing;
      fault := NoFault;
      ghost var before := ledger;
      var left := grace;
      while tasks != map[] && left > 0
        invariant state == Closing && sent == old(sent)
        invariant Balanced(ledger, sent) && Linked(ledger, active, tasks, nextTask) && taskIds == tasks
        invariant AllClosed(ledger) == AllClosed(before) && fault == NoFault
        decreases left
      {
        var task :| task in tasks;
        fault := RemoveCompletion(task);
        left := left - 1;
      }
      AllClosedBalances(ledger, sent);
      ledger := AllClosed(ledger);
      active, taskIds := map[], map[];
    }

    method RemoveCompletion(task: TaskId) returns (fault: Fault)
      requires Balanced(ledger, sent) && Linked(ledger, active, tasks, nextTask) && taskIds == tasks && task in tasks
      modifies this`active, this`tasks, this`taskIds, this`ledger
      ensures Balanced(ledger, sent) && Linked(ledger, active, tasks, nextTask) && taskIds == tasks
      ensures AllClosed(ledger) == AllClosed(old(ledger))
      ensures tasks == old(tasks) - {task} && fault == NoFault
    {
      hide Balanced, Linked;
      LinkedOpen(ledger, active, tasks, nextTask);
      OpenCalls(ledger, sent, tasks[task]);
      var completedId := tasks[task];
      SilenceBalances(ledger, sent, completedId, Closed);
      EndLinks(ledger, sent, active, tasks, nextTask, task, Closed);
      CloseOneOfAll(ledger, sent, completedId);
      tasks := tasks - {task};
      if task !in taskIds || taskIds[task] != completedId || completedId !in active {
        assert false;
        return BookkeepingFault;
      }
      taskIds := taskIds - {task};
      fault := NoFault;
      active := active - {completedId};
      ledger := Settled(ledger, completedId, Closed);
    }

    /** A whole connection. Without a fault, every event that demands an answer up to the end of the loop
        was answered once: by a control response or by admitting a call. Every admitted call is answered by
        exactly one response, which is a call response with its id, or was cancelled by the client, or was
        still open when the loop ended; the registries are never found inconsistent, and a response is only
        lost to a failing transport. */
    method Serve(events: seq<(Event, Around)>, grace: nat) returns (fault: Fault, handled: nat)
      requires Valid() && state.AwaitInitialize? && sent == [] && ledger.fates == [] && ledger.calls == []
      requires forall i :: 0 <= i < |events| && events[i].1.finished.Some? ==> !events[i].1.finished.value.1.Aborted?
      modifies this
      ensures Balanced(ledger, sent) && state == Closing
      ensures forall t :: 0 <= t < |ledger.fates| ==> !ledger.fates[t].Open?
      ensures fault == NoFault ==> forall t :: 0 <= t < |ledger.fates| ==> !ledger.fates[t].Unsendable?
      ensures fault != BookkeepingFault
      ensures handled <= |events| && forall i :: 0 <= i < handled - 1 ==> !Ending(events[i].0)
      ensures fault == NoFault ==>
                && Controls(sent) + |ledger.calls| == Demands(events[..handled])
                && (handled < |events| ==> handled > 0 && Ending(events[handled - 1].0))
      ensures forall i :: 0 <= i < |sent| && sent[i].CallResponse? ==>
                exists j :: 0 <= j < i && sent[j].ControlMessage? && sent[j].control.Initialized?
    {
      hide Balanced, Linked, Shaken, Controls, Demands, VerdictOn, Demanding, Ending;
      NothingDemanded(events);
      fault, handled := NoFault, 0;
      var stop := false;
      while handled < |events| && !stop
        invariant handled <= |events|
        invariant forall i :: 0 <= i < handled - (if stop then 1 else 0) ==> !Ending(events[i].0)
        invariant stop && fault == NoFault ==> handled > 0 && Ending(events[handled - 1].0)
        invariant fault == NoFault ==> Controls(sent) + |ledger.calls| == Demands(events[..handled])
        invariant Valid() && !state.Closing?
        invariant fault != BookkeepingFault && (fault != NoFault ==> stop)
        invariant fault == NoFault ==> forall t :: 0 <= t < |ledger.fates| ==> ledger.fates[t] !in {Unsendable, Closed}
      {
        stop, fault := TakeEvent(events[handled].0, events[handled].1);
        DemandsNext(events, handled);
        handled := handled + 1;
      }
      HandshakeFirst(state, shape, handshake, ledger.calls, sent);
      var closing := Close(grace);
    }
  }

  lemma {:induction false} NothingDemanded(events: seq<(Event, Around)>)
    ensures Demands(events[..0]) == 0 && Controls([]) == 0
  {
  }

  lemma {:induction false} DemandsNext(events: seq<(Event, Around)>, n: nat)
    requires n < |events|
    ensures Demands(events[..n + 1]) == Demands(events[..n]) + (if Demanding(events[n].0) then 1 else 0)
  {
    assert events[..n + 1][..n] == events[..n];
  }

  lemma {:induction false} HandshakeFirst(state: ProtocolState, shape: Option<Shape>, handshake: Option<nat>,
                                          calls: seq<RequestId>, sent: seq<Message>)
    requires Shaken(state, shape, handshake, calls, sent)
    ensures forall i :: 0 <= i < |sent| && sent[i].CallResponse? ==>
              exists j :: 0 <= j < i && sent[j].ControlMessage? && sent[j].control.Initialized?
  {
  }

  lemma {:induction false} InitializeNeedsFreshState(frame: Frame, state: ProtocolState, shape: Option<Shape>,
                                                     active: set<RequestId>, tools: set<string>)
    ensures var v := VerdictOn(frame, state, shape, active, tools);
            v.Respond? && v.control.Initialized? ==> state.AwaitInitialize?
  {
  }

  /** What remains open when the connection closes is closed without an answer. */
  ghost function AllClosed(l: Ledger): Ledger {
    l.(fates := seq(|l.fates|, t requires 0 <= t < |l.fates| => if l.fates[t] == Open then Closed else l.fates[t]),
       open := map[])
  }

  lemma {:induction false} AllClosedBalances(l: Ledger, sent: seq<Message>)
    requires Balanced(l, sent)
    ensures Balanced(AllClosed(l), sent)
  {
  }

  lemma {:induction false} CloseOneOfAll(l: Ledger, sent: seq<Message>, id: RequestId)
    requires Balanced(l, sent) && id in l.open
    ensures AllClosed(Settled(l, id, Closed)) == AllClosed(l)
  {
    assert AllClosed(Settled(l, id, Closed)).fates == AllClosed(l).fates;
  }
}
