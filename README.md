# Storyboard websocket session — a Dafny model

This project models the websocket session logic of the storyboard arena in
thunderdome-planning-poker: `http/storyboard/client.go`. A session does the
following:

- **Admission.** `ServeWs` resolves the user from the session cookie or the
  guest cookie, looks up the storyboard and checks the user's active status.
  Every failure closes the socket with its own code: 4001, 4004, 4003 or 4005.
- **Join-code gate.** When the storyboard has a join code and the user never
  joined, `ServeWs` holds the connection until one `auth_storyboard` frame
  carries that code.
- **Activation.** An admitted connection is registered with the hub, `init`
  is written to that connection only, and `user_joined` is broadcast to the
  storyboard.
- **Read pump.** `readPump` decodes each inbound frame. For an owner-only type
  it asks the facilitator check first; it then runs the event handler for
  that type and broadcasts whatever is not marked bad. Its deferred cleanup
  broadcasts `user_left`, unregisters, writes the 4002 "abandoned" close
  frame after a forced close, and closes the socket.
- **Write pump.** `writePump` writes queued messages and pings. It sends an
  empty close frame when the send queue closes, and stops at the first
  write error.
- **API bridge.** `APIEvent` runs the same facilitator check and handler for
  an event that arrives through the REST API. It broadcasts the result only
  when the storyboard has live subscribers.

How the model is built:

- **The hub becomes a registry plus a trace.** The hub's goroutine and
  channels become a registry (`Hub.Registry`: storyboard id to the set of
  subscribed connections). The observable steps go into one ordered trace
  of effects: hub register, unregister and broadcast, a frame written to one
  connection, a socket close, and the calls `AddUserToStoryboard`,
  `RetreatStoryboardUser`, `ConfirmStoryboardFacilitator` and the event
  handlers. The admission lookups are inputs only and leave no effect.
- **Collaborators are inputs.** What the collaborators answer is part of the
  input:
  - the cookie checks, the session and guest user lookups, the storyboard
    lookup and the active status (`Admission.Lookups`);
  - the facilitator check and the handler reply for every inbound frame
    (`Protocol.Frame`);
  - the marshalled user lists that `AddUserToStoryboard` and
    `RetreatStoryboardUser` return.
- **JSON decoding is a function parameter.** It maps the raw bytes to the
  string fields it filled, plus whether it reported an error
  (`Protocol.Decoded`).
- **Inbound frames are a finite script.** Its end stands for the read that
  fails. In the join-code gate that is a read error or a peer close: the
  gate reads before any read deadline is set. In `readPump` it can also be
  the expired pong deadline that `readPump` sets first
  (`http/storyboard/client.go:82`).
- **Outbound events for the write pump are a finite script.** Its end means
  the pump is still waiting.
- **Two layers.** The pure modules (`Admission`, `JoinGate`, `Establish`,
  `Ingress`, `Egress`, `Api`) give each operation as a specification
  function, with lemmas about it. `Session.Service` holds the registry and
  the trace as fields. Its methods follow the Go code statement by statement,
  and each method's postcondition ties the new trace and registry to those
  functions.

Three behaviours of the code are worth pointing out:

- **Unknown event types.** A well-formed frame whose type has no handler is
  relayed to the whole storyboard byte for byte: `msg` is still the frame
  as read, and `badEvent` stays false (`http/storyboard/client.go:91`,
  `:118-133`). The comment at `http/storyboard/client.go:117` calls such an
  event invalid, but the code does not mark it bad.
  `Ingress.DispatchOutcomes` states this behaviour.
- **Decoding errors in the join-code gate.** The gate ignores the decoding
  error and uses whatever fields decoding filled
  (`http/storyboard/client.go:263-269`). The model does the same.
- **A gated connection whose reads fail stays open.** When a read fails in
  the join-code gate, `ServeWs` returns without writing a close frame and
  without closing the socket (`http/storyboard/client.go:256-260`).
  `Establish.GatedConnectionLeftOpen` states that such a connection only
  gets text frames and no socket close.

## Model

| member | source | states |
|---|---|---|
| Protocol.OwnerOnlyOperationsListed | http/storyboard/client.go:33-39 | exactly four types are owner-only: `facilitator_add`, `facilitator_remove`, `edit_storyboard` and `concede_storyboard`; `auth_storyboard` is not one of them |
| Protocol.PingPeriod | http/storyboard/client.go:19-31 | the ping period is 54 s, strictly positive and strictly below the 60 s pong window, and `pongWait*9` does not overflow int64 |
| Hub.Registered | http/storyboard/client.go:283 | registering adds exactly this connection to its storyboard's members, keeps every other storyboard's members, adds the storyboard key, and keeps every entry non-empty |
| Hub.Unregistered | http/storyboard/client.go:70 | unregistering removes exactly this connection from its storyboard, leaves other storyboards alone, leaves an unregistered connection's registry unchanged, and drops no entry while it still has members |
| Hub.RegisterThenUnregister | http/storyboard/client.go:281-297 | for a connection new to its storyboard, registering and then unregistering gives back the registry exactly |
| Admission.ResolveUser | http/storyboard/client.go:201-227 | a cookie error other than NO_SESSION_COOKIE fails; with a session id the user is the session user, and resolving fails exactly when that lookup fails; without one the user is the guest user, and resolving fails exactly when the user cookie or the guest lookup fails |
| Admission.Decide | http/storyboard/client.go:201-251 | 4001 "unauthorized" iff no user resolves; 4004 iff the storyboard lookup fails; 4003 iff the status error is DUPLICATE_STORYBOARD_USER; 4005 iff another non-no-rows status error; gated iff a join code is set and the status is no-rows; admitted directly iff the user is active, or no-rows with an open storyboard; no other close code |
| JoinGate.Gate | http/storyboard/client.go:254-276 | the gate writes only `join_code_incorrect` notices; the frames handed on are a suffix of the input, and none are handed on when it is not admitted |
| JoinGate.GateAdmitsIffCodeSent | http/storyboard/client.go:269-271 | the gate admits if and only if some frame is `auth_storyboard` with exactly the join code |
| JoinGate.GateStopsAtFirstCode | http/storyboard/client.go:254-276 | at the first frame with the code the gate admits, hands every later frame to the read pump, and has written one `join_code_incorrect` per earlier wrong `auth_storyboard` frame; any other frame, malformed ones included, writes nothing |
| JoinGate.GateWithoutCode | http/storyboard/client.go:254-276 | with no frame carrying the code, the gate ends unadmitted after one `join_code_incorrect` per wrong `auth_storyboard` frame, with nothing left for a read pump |
| Establish.Activation | http/storyboard/client.go:281-294 | activation registers exactly once, this subscription, first; every frame it writes goes to this connection only; the hub carries only `user_joined` to this storyboard, never `init` |
| Establish.Serve | http/storyboard/client.go:201-298 | a refusal writes one close frame with its code and then closes; a direct admission activates without reading a frame; a gated connection is first sent `join_code_required`; the subscription carries the resolved user |
| Establish.ServeRegistersOnlyOnAdmission | http/storyboard/client.go:201-290 | exactly one register and one `init` write on every admitting path, none on any other path, and `init` is never broadcast |
| Establish.AdmissionOrder | http/storyboard/client.go:281-294 | on admission the last four effects are: register, add the user, `init` with the snapshot written to this connection only, `user_joined` with the updated users broadcast to the storyboard; nothing before them touches the hub |
| Establish.GatedAdmission | http/storyboard/client.go:250-298 | a gated connection whose first code-carrying frame is `k` is admitted; its effects are `join_code_required`, one `join_code_incorrect` per earlier wrong attempt, then the activation sequence; the read pump gets every frame after `k` |
| Establish.GatedConnection | http/storyboard/client.go:250-281 | a gated connection is admitted iff some frame carries the code; without one its effects are exactly `join_code_required` followed by one `join_code_incorrect` per wrong attempt |
| Establish.GatedConnectionLeftOpen | http/storyboard/client.go:254-281 | a gated connection that is not admitted only gets text frames written to it; its socket is never closed and the hub is never touched |
| Ingress.Dispatch | http/storyboard/client.go:88-138 | one iteration forces the close iff the handler runs and its reply says so; it calls only the facilitator check and handlers and broadcasts only raw payloads to its own storyboard |
| Ingress.DispatchOutcomes | http/storyboard/client.go:88-138 | a malformed frame does nothing; an owner-only type is checked first, and a failed check stops the frame; a well-formed frame without a handler is relayed as read; a handler error suppresses the broadcast and a success broadcasts the handler's payload; the handler runs at most once; the facilitator check runs exactly once for a well-formed owner-only frame and for no other frame; the frame is broadcast exactly once unless it is malformed, denied or its handler failed, and then never; only a handler forces the close |
| Ingress.Pump | http/storyboard/client.go:88-138 | the loop calls only the facilitator check and handlers, and broadcasts only raw payloads to its own storyboard |
| Ingress.PumpWithoutForce | http/storyboard/client.go:88-138 | with no forcing frame, the loop runs every frame in order and does not force the close |
| Ingress.PumpStopsAtForce | http/storyboard/client.go:135-137 | the loop stops right after the first forcing frame, having run that frame in full |
| Ingress.PumpForcedIffSomeFrameForces | http/storyboard/client.go:119-137 | the read pump ends forced iff some frame's handler forced the close |
| Ingress.ReadPumpEffects | http/storyboard/client.go:56-139 | the read pump's effects start with the loop's effects unchanged, add at least one effect after them, and end with the socket close |
| Ingress.Cleanup | http/storyboard/client.go:62-80 | the socket close is last; the 4002 "abandoned" frame is written iff the loop was forced; the only broadcast is `user_left` to this storyboard and the only unregister is this subscription's |
| Ingress.CleanupCounts | http/storyboard/client.go:62-80 | the cleanup broadcasts `user_left` once, unregisters once, and writes the 4002 frame once if forced, otherwise not at all |
| Ingress.ExitOrder | http/storyboard/client.go:62-80 | after any loop run the `user_left` broadcast comes before the unregister, no hub operation follows the unregister, and the socket close is last |
| Ingress.ReadPumpExit | http/storyboard/client.go:56-139 | whatever ends the loop, the read pump broadcasts exactly one `user_left` before exactly one unregister, writes 4002 "abandoned" iff the loop was forced, and closes the socket last |
| Ingress.ForcedReplyStillBroadcast | http/storyboard/client.go:119-137 | a forcing handler reply without an error is still broadcast as the loop's last step, and the 4002 frame follows |
| Egress.WritePumpRun | http/storyboard/client.go:148-171 | the pump stops iff a queue-close or failed-write event occurs; when it stops, the socket close is its last effect and happens only there |
| Egress.StopsAtFirstStop | http/storyboard/client.go:155-170 | every event up to the first stopping one is written in order, then the socket closes, and no later event is looked at |
| Egress.RunsWithoutStop | http/storyboard/client.go:155-170 | with no stopping event every event is written and the socket stays open |
| Egress.PingsAndCloseFrame | http/storyboard/client.go:155-170 | over the events consumed, one ping per tick; an empty close frame only if the queue closed, and then as the last frame before the socket closes |
| Egress.WritesCount | http/storyboard/client.go:157-168 | writing events gives one ping per tick and one empty close frame per closed queue |
| Api.ApiEvent | http/storyboard/client.go:303-326 | a failed facilitator check on an owner-only type is returned with no effect but that check; for an owner-only type the check is the first effect; the only effects are the facilitator check, the handler run and the broadcast of the handler's payload to this storyboard, and a broadcast can only be the last effect; nothing is ever written to a connection or closed, so `forceClosed` is ignored |
| Api.ApiEventOutcomes | http/storyboard/client.go:303-326 | an unknown type returns nil and broadcasts nothing; a handler error is returned unbroadcast; a success returns nil and is broadcast once iff the storyboard is live; the handler runs exactly once when the type has a handler and the check, if any, passed, and otherwise not at all, always with the caller's arguments; the facilitator check runs exactly once for owner-only types and never for others |
| Session.Service.Register | http/storyboard/client.go:283 | the registry becomes `Registered` of the old one and one register effect is appended |
| Session.Service.Unregister | http/storyboard/client.go:70 | the registry becomes `Unregistered` of the old one and one unregister effect is appended |
| Session.Service.Broadcast | http/storyboard/client.go:131-132 | one broadcast effect is appended and the registry is unchanged |
| Session.Service.WriteFrame | http/storyboard/client.go:142-145 | one frame is written to the given connection and the registry is unchanged |
| Session.Service.CloseSocket | http/storyboard/client.go:77 | one socket close of the given connection is appended and the registry is unchanged (also at `:153` and `:179`) |
| Session.Service.Consult | http/storyboard/client.go:111 | one call into the storyboard service or a handler is appended and the registry is unchanged (also at `:63`, `:119` and `:285`) |
| Session.Service.HandleSocketClose | http/storyboard/client.go:174-182 | one close frame with the given code and reason is written, then the socket is closed |
| Session.Service.ResolveUserOrClose | http/storyboard/client.go:201-227 | succeeds iff `ResolveUser` does, with its user and no effect; otherwise closes with 4001 "unauthorized" |
| Session.Service.ReadJoinCode | http/storyboard/client.go:254-276 | the read loop's admission, remaining frames and writes are exactly those of `Gate` |
| Session.Service.CheckStatusOrClose | http/storyboard/client.go:237-248 | goes on iff the active status is not an error other than no-rows, with no effect; otherwise closes with 4003 "duplicate session" for DUPLICATE_STORYBOARD_USER and 4005 "internal error" for anything else |
| Session.Service.Admit | http/storyboard/client.go:250-298 | the gate (when gated) and the activation have exactly the effects, admission and remaining frames of `Serve` on the gated or direct decision; the registry gains the connection iff admitted |
| Session.Service.Activate | http/storyboard/client.go:281-294 | the subscription is registered and the effects are exactly the activation sequence |
| Session.Service.ServeWs | http/storyboard/client.go:185-298 | the effects, admission and remaining frames are those of `Serve` on `Decide` of the lookups; the registry gains the connection on admission and is unchanged otherwise |
| Session.Service.ReadFrame | http/storyboard/client.go:88-138 | one pass of the read loop has exactly the effects and forced flag of `Dispatch` |
| Session.Service.PumpFrames | http/storyboard/client.go:88-138 | the read loop has exactly the effects and forced flag of `Pump` |
| Session.Service.Leave | http/storyboard/client.go:62-80 | the deferred cleanup unregisters the subscription and appends exactly `Cleanup` |
| Session.Service.ReadPump | http/storyboard/client.go:56-139 | the read pump appends exactly `ReadPumpEffects` and unregisters the subscription |
| Session.Service.WritePump | http/storyboard/client.go:148-171 | the write pump appends exactly the effects of `WritePumpRun` and leaves the registry alone |
| Session.Service.APIEvent | http/storyboard/client.go:303-326 | the returned error and the effects are those of `ApiEvent`, where live means the storyboard is a key of the registry |
| Session.Service.Connect | http/storyboard/client.go:281-297 | a connection new to its storyboard that is admitted and then read to its end leaves the registry exactly as it found it; the trace is `Serve`'s effects followed by the read pump's |

## Left out

- The hub's own loop, its delivery of a broadcast to each member's send queue, and its backpressure handling are left out: the hub's implementation is not part of this model. The registry rules `Hub.Registered` and `Hub.Unregistered` are assumed, not taken from the hub's code; in particular the model assumes the hub deletes a storyboard's entry when its last connection leaves, and `APIEvent`'s live test (`http/storyboard/client.go:319`) depends on that assumption.
- How the `Service` and the hub's registry are created is left out: that happens in files that are not part of this model. `Session.Service` starts from an empty registry and an empty trace.
- Hub.Registered: the registry is keyed by connection, not by the subscription value. A connection belongs to one storyboard and one user, so the two keys coincide.
- Goroutines, channels, `select` and the ticker (`http/storyboard/client.go:150`, `:296-297`) are left out. The two pumps are separate methods, nothing interleaves them, and a tick is an input event. `Session.Service.Connect` runs the read pump only.
- The websocket upgrade and its failure path (`http/storyboard/client.go:194-199`) are left out: that failure happens before any protocol effect.
- Read limits, read and write deadlines, and the pong handler (`http/storyboard/client.go:81-86`, `:143`) are left out. A read that fails for any of these reasons is the end of the inbound frame script.
- `websocket.IsUnexpectedCloseError` and every zap log call are left out: they only log.
- The write errors that `handleSocketClose` and the read pump's cleanup log are left out: the code carries on after them as if the write had succeeded, and so does the model.
- JSON encoding is left out. `createSocketEvent` is modelled as a `SocketEvent` value. The user lists and the storyboard snapshot enter as already-marshalled strings.
- JSON decoding is left out: it is a function parameter, and its error flag and partial result stand for what `json.Unmarshal` leaves in the map.
- The storyboard, auth and user services and the bodies of the event handlers are left out: they are foreign calls, and their answers are inputs. Only `AddUserToStoryboard`, `RetreatStoryboardUser`, `ConfirmStoryboardFacilitator` and the handler calls are recorded in the trace; the admission lookups (`ValidateSessionCookie`, `GetSessionUser`, `ValidateUserCookie`, `GetGuestUser`, `GetStoryboard`, `GetStoryboardUserActiveStatus`) are not.
- Session.Service.WritePump: an exhausted event script means the pump is still blocked in `select`, so nothing happens in the model until the next event. The model states nothing about a pump that never stops.
- The HTTP handlers in `http/auth.go` and `http/poker.go`, the database code and the browser tests are not part of this model.
