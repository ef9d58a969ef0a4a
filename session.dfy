/**
 * The storyboard websocket Service together with the process-wide hub it
 * talks to. The hub's registry is a field the hub operations update; the
 * hub's channels, the websocket writes and closes, and the calls into the
 * storyboard service and the event handlers all become one ordered trace
 * of effects. Each method's contract ties the new trace and registry to
 * the specification functions of the other modules.
 */
module Session {
  import opened Protocol
  import opened Hub
  import opened Admission
  import opened JoinGate
  import opened Establish
  import opened Ingress
  import opened Egress
  import opened Api

  class Service {
    /** The names the event handler table has entries for; fixed after startup. */
    const eventHandlers: set<string>

    /** The hub's registry: storyboard id to subscribed connections. */
    var arenas: Registry

    /** Every observable effect so far, in order. */
    var trace: seq<Effect>

    ghost predicate Valid()
      reads this
    {
      WellFormed(arenas)
    }

    constructor (handlers: set<string>)
      ensures Valid()
      ensures eventHandlers == handlers && arenas == map[] && trace == []
    {
      eventHandlers := handlers;
      arenas := map[];
      trace := [];
    }

    // -------------------------------------------------------------------
    // Hub operations
    // -------------------------------------------------------------------

    method Register(sub: Subscription)
      requires Valid()
      modifies this
      ensures Valid()
      ensures arenas == Registered(old(arenas), sub)
      ensures trace == old(trace) + [HubRegister(sub)]
    {
      arenas := Registered(arenas, sub);
      trace := trace + [HubRegister(sub)];
    }

    method Unregister(sub: Subscription)
      requires Valid()
      modifies this
      ensures Valid()
      ensures arenas == Unregistered(old(arenas), sub)
      ensures trace == old(trace) + [HubUnregister(sub)]
    {
      arenas := Unregistered(arenas, sub);
      trace := trace + [HubUnregister(sub)];
    }

    /** Hands a payload to the hub for every subscriber of `arena`; the registry does not change. */
    method Broadcast(arena: string, payload: Payload)
      modifies this
      ensures arenas == old(arenas)
      ensures trace == old(trace) + [HubBroadcast(arena, payload)]
    {
      trace := trace + [HubBroadcast(arena, payload)];
    }

    // -------------------------------------------------------------------
    // The connection and the collaborators
    // -------------------------------------------------------------------

    /** Writes one frame on connection `conn`; the callers here ignore a write error. */
    method WriteFrame(conn: ConnId, frame: OutFrame)
      modifies this
      ensures arenas == old(arenas)
      ensures trace == old(trace) + [Write(conn, frame)]
    {
      trace := trace + [Write(conn, frame)];
    }

    method CloseSocket(conn: ConnId)
      modifies this
      ensures arenas == old(arenas)
      ensures trace == old(trace) + [Shut(conn)]
    {
      trace := trace + [Shut(conn)];
    }

    /** Records a call into the storyboard service or a handler; its answer comes with the input. */
    method Consult(call: Call)
      modifies this
      ensures arenas == old(arenas)
      ensures trace == old(trace) + [Called(call)]
    {
      trace := trace + [Called(call)];
    }

    /** Writes one close frame with the code and reason, then closes the socket. */
    method HandleSocketClose(conn: ConnId, code: int, reason: string)
      modifies this
      ensures arenas == old(arenas)
      ensures trace == old(trace) + [Write(conn, CloseFrame(code, reason)), Shut(conn)]
    {
      WriteFrame(conn, CloseFrame(code, reason));
      CloseSocket(conn);
    }

    // -------------------------------------------------------------------
    // ServeWs
    // -------------------------------------------------------------------

    /** The join-code read loop; it writes to the connection and registers nothing. */
    method ReadJoinCode(conn: ConnId, userId: string, code: string, decode: Bytes -> Decoded, frames: seq<Frame>)
      returns (authed: bool, rest: seq<Frame>)
      modifies this
      ensures arenas == old(arenas)
      ensures var g := Gate(code, conn, userId, decode, frames);
              authed == g.admitted && rest == g.rest && trace == old(trace) + g.effects
    {
      ghost var whole := Gate(code, conn, userId, decode, frames);
      authed := false;
      var i := 0;
      while i < |frames| && !authed
        invariant 0 <= i <= |frames|
        invariant arenas == old(arenas)
        invariant !authed ==>
          var g := Gate(code, conn, userId, decode, frames[i..]);
          trace + g.effects == old(trace) + whole.effects && g.admitted == whole.admitted && g.rest == whole.rest
        invariant authed ==> trace == old(trace) + whole.effects && whole.admitted && whole.rest == frames[i..]
        decreases |frames| - i
      {
        GateAdvance(code, conn, userId, decode, frames, i, trace);
        ghost var before := trace;
        // the decoding error is ignored: the fields it filled are used as they are
        var keyVal := decode(frames[i].raw);
        if Field(keyVal, "type") == AuthType && Field(keyVal, "value") == code {
          assert Opens(code, decode, frames[i]);
          authed := true;
        } else if Field(keyVal, "type") == AuthType {
          WriteFrame(conn, Text(Notice(SocketEvent("join_code_incorrect", "", userId))));
          assert !Opens(code, decode, frames[i]) && IsAuth(decode, frames[i]);
          assert trace == before + [IncorrectNotice(conn, userId)];
        } else {
          assert !Opens(code, decode, frames[i]) && !IsAuth(decode, frames[i]);
        }
        i := i + 1;
      }
      rest := if authed then frames[i..] else [];
    }

    /**
     * The identity step of `ServeWs`: the session user when the session
     * cookie names a session, otherwise the guest user; on any failure it
     * closes the connection with 4001.
     */
    method ResolveUserOrClose(conn: ConnId, lk: Lookups) returns (ok: bool, user: User)
      modifies this
      ensures arenas == old(arenas)
      ensures ok <==> ResolveUser(lk).Success?
      ensures ok ==> user == ResolveUser(lk).value && trace == old(trace)
      ensures !ok ==> trace == old(trace) + [Write(conn, CloseFrame(CloseUnauthorized, "unauthorized")), Shut(conn)]
    {
      ok, user := false, User("");
      var cookie := lk.sessionCookie;
      if cookie.err.Some? && cookie.err.value.text != NoSessionCookie {
        HandleSocketClose(conn, CloseUnauthorized, "unauthorized");
        return;
      }
      if cookie.id != "" {
        if lk.sessionUser.Failure? {
          HandleSocketClose(conn, CloseUnauthorized, "unauthorized");
          return;
        }
        user := lk.sessionUser.value;
      } else {
        if lk.userCookie.Failure? {
          HandleSocketClose(conn, CloseUnauthorized, "unauthorized");
          return;
        }
        if lk.guestUser.Failure? {
          HandleSocketClose(conn, CloseUnauthorized, "unauthorized");
          return;
        }
        user := lk.guestUser.value;
      }
      ok := true;
    }

    /**
     * The active-status step of `ServeWs`: an error other than "no rows"
     * closes the connection, with 4003 for a duplicate session and 4005
     * for anything else.
     */
    method CheckStatusOrClose(conn: ConnId, status: ActiveStatus) returns (ok: bool)
      modifies this
      ensures arenas == old(arenas)
      ensures ok <==> !status.StatusError?
      ensures ok ==> trace == old(trace)
      ensures !ok && status.err.text == DuplicateStoryboardUser ==>
                trace == old(trace) + [Write(conn, CloseFrame(CloseDuplicate, "duplicate session")), Shut(conn)]
      ensures !ok && status.err.text != DuplicateStoryboardUser ==>
                trace == old(trace) + [Write(conn, CloseFrame(CloseInternal, "internal error")), Shut(conn)]
    {
      ok := true;
      if status.StatusError? {
        if status.err.text == DuplicateStoryboardUser {
          HandleSocketClose(conn, CloseDuplicate, "duplicate session");
        } else {
          HandleSocketClose(conn, CloseInternal, "internal error");
        }
        ok := false;
      }
    }

    /**
     * `ServeWs` for connection `conn` and storyboard `storyboardId`. It
     * returns whether the connection became active, its subscription and
     * the frames left for its read pump.
     */
    method ServeWs(conn: ConnId, storyboardId: string, lk: Lookups, decode: Bytes -> Decoded,
                   frames: seq<Frame>, joinedUsers: string)
      returns (admitted: bool, sub: Subscription, pumpInput: seq<Frame>)
      requires Valid()
      modifies this
      ensures Valid()
      ensures var r := Serve(conn, storyboardId, Decide(lk), decode, frames, joinedUsers);
              && admitted == r.admitted && pumpInput == r.pumpInput
              && (admitted ==> sub == r.sub)
              && trace == old(trace) + r.effects
              && arenas == (if admitted then Registered(old(arenas), sub) else old(arenas))
    {
      sub := Subscription(conn, storyboardId, "");
      admitted, pumpInput := false, [];
      ghost var d := Decide(lk);
      var resolved, user := ResolveUserOrClose(conn, lk);
      if !resolved {
        assert d == Refused(CloseUnauthorized, "unauthorized");
        return;
      }
      if lk.storyboard.Failure? {
        HandleSocketClose(conn, CloseNotFound, "storyboard not found");
        assert d == Refused(CloseNotFound, "storyboard not found");
        return;
      }
      var board := lk.storyboard.value;
      var usable := CheckStatusOrClose(conn, lk.status);
      if !usable {
        if lk.status.err.text == DuplicateStoryboardUser {
          assert d == Refused(CloseDuplicate, "duplicate session");
        } else {
          assert d == Refused(CloseInternal, "internal error");
        }
        return;
      }
      var gated := board.joinCode != "" && lk.status == NoRows;
      assert d == (if gated then Gated(user, board) else Admitted(user, board));
      admitted, sub, pumpInput := Admit(conn, storyboardId, user, board, gated, decode, frames, joinedUsers);
    }

    /**
     * The last step of `ServeWs` for a user and storyboard that passed the
     * checks: the join-code gate when `gated`, then activation.
     */
    method Admit(conn: ConnId, storyboardId: string, user: User, board: Storyboard, gated: bool,
                 decode: Bytes -> Decoded, frames: seq<Frame>, joinedUsers: string)
      returns (admitted: bool, sub: Subscription, pumpInput: seq<Frame>)
      requires Valid()
      modifies this
      ensures Valid()
      ensures var d := if gated then Gated(user, board) else Admitted(user, board);
              var r := Serve(conn, storyboardId, d, decode, frames, joinedUsers);
              && admitted == r.admitted && pumpInput == r.pumpInput && sub == r.sub
              && trace == old(trace) + r.effects
              && arenas == (if admitted then Registered(old(arenas), sub) else old(arenas))
    {
      sub := Subscription(conn, storyboardId, user.id);
      ghost var head := [];
      var authed: bool;
      if gated {
        ghost var g := Gate(board.joinCode, conn, user.id, decode, frames);
        WriteFrame(conn, Text(Notice(SocketEvent("join_code_required", "", user.id))));
        authed, pumpInput := ReadJoinCode(conn, user.id, board.joinCode, decode, frames);
        head := [RequiredNotice(conn, user.id)] + g.effects;
        assert authed == g.admitted && pumpInput == g.rest;
      } else {
        authed, pumpInput := true, frames;
      }
      assert trace == old(trace) + head && arenas == old(arenas);
      if authed {
        Activate(sub, board, joinedUsers);
      }
      admitted := authed;
    }

    /** The activation of an admitted connection. */
    method Activate(sub: Subscription, board: Storyboard, joinedUsers: string)
      requires Valid()
      modifies this
      ensures Valid()
      ensures arenas == Registered(old(arenas), sub)
      ensures trace == old(trace) + Activation(sub, board, joinedUsers)
    {
      Register(sub);
      Consult(AddUser(sub.arena, sub.userId));
      WriteFrame(sub.conn, Text(Notice(SocketEvent("init", board.snapshot, sub.userId))));
      Broadcast(sub.arena, Notice(SocketEvent("user_joined", joinedUsers, sub.userId)));
    }

    // -------------------------------------------------------------------
    // The pumps
    // -------------------------------------------------------------------

    /** One pass of the read loop: the frame `f` has been read. */
    method ReadFrame(sub: Subscription, decode: Bytes -> Decoded, f: Frame) returns (forceClosed: bool)
      modifies this
      ensures arenas == old(arenas)
      ensures var step := Dispatch(eventHandlers, sub, decode, f);
              trace == old(trace) + step.effects && forceClosed == step.forced
    {
      forceClosed := false;
      var badEvent := false;
      var msg := f.raw;
      var keyVal := decode(msg);
      if !keyVal.ok {
        badEvent := true;
      }
      var eventType := Field(keyVal, "type");
      var eventValue := Field(keyVal, "value");
      if IsOwnerOnly(eventType) && !badEvent {
        Consult(ConfirmFacilitator(sub.arena, sub.userId));
        if f.facilitator.Some? {
          badEvent := true;
        }
      }
      if eventType in eventHandlers && !badEvent {
        Consult(RunHandler(eventType, sub.arena, sub.userId, eventValue));
        msg, forceClosed := f.reply.msg, f.reply.forceClosed;
        if f.reply.err.Some? {
          badEvent := true;
        }
      }
      if !badEvent {
        Broadcast(sub.arena, Raw(msg));
      }
    }

    /** The read loop of subscription `sub`: it stops at a read error or a forced close. */
    method PumpFrames(sub: Subscription, decode: Bytes -> Decoded, frames: seq<Frame>) returns (forceClosed: bool)
      modifies this
      ensures arenas == old(arenas)
      ensures var run := Pump(eventHandlers, sub, decode, frames);
              trace == old(trace) + run.effects && forceClosed == run.forced
    {
      ghost var whole := Pump(eventHandlers, sub, decode, frames);
      forceClosed := false;
      var i := 0;
      while i < |frames| && !forceClosed
        invariant 0 <= i <= |frames|
        invariant arenas == old(arenas)
        invariant !forceClosed ==>
          var p := Pump(eventHandlers, sub, decode, frames[i..]);
          trace + p.effects == old(trace) + whole.effects && p.forced == whole.forced
        invariant forceClosed ==> trace == old(trace) + whole.effects && whole.forced
        decreases |frames| - i
      {
        PumpAdvance(eventHandlers, sub, decode, frames, i, trace, old(trace) + whole.effects);
        ghost var step := Dispatch(eventHandlers, sub, decode, frames[i]);
        ghost var before := trace;
        forceClosed := ReadFrame(sub, decode, frames[i]);
        assert trace == before + step.effects && forceClosed == step.forced;
        i := i + 1;
      }
      if !forceClosed {
        assert frames[i..] == [];
      }
    }

    /**
     * The read pump of subscription `sub` over the frames its connection
     * delivers; `leftUsers` is the marshalled list `RetreatStoryboardUser`
     * returns in the cleanup.
     */
    method ReadPump(sub: Subscription, decode: Bytes -> Decoded, frames: seq<Frame>, leftUsers: string)
      requires Valid()
      modifies this
      ensures Valid()
      ensures arenas == Unregistered(old(arenas), sub)
      ensures trace == old(trace) + ReadPumpEffects(eventHandlers, sub, decode, frames, leftUsers)
    {
      ghost var run := Pump(eventHandlers, sub, decode, frames);
      var forceClosed := PumpFrames(sub, decode, frames);
      ghost var mid := trace;
      Leave(sub, leftUsers, forceClosed);
      ghost var cleanup := Cleanup(sub, leftUsers, forceClosed);
      assert trace == mid + cleanup && mid == old(trace) + run.effects;
      assert trace == old(trace) + (run.effects + cleanup);
    }

    /** The read pump's deferred cleanup, after a forced close or not. */
    method Leave(sub: Subscription, leftUsers: string, forceClosed: bool)
      requires Valid()
      modifies this
      ensures Valid()
      ensures arenas == Unregistered(old(arenas), sub)
      ensures trace == old(trace) + Cleanup(sub, leftUsers, forceClosed)
    {
      Consult(RetreatUser(sub.arena, sub.userId));
      Broadcast(sub.arena, Notice(SocketEvent("user_left", leftUsers, sub.userId)));
      Unregister(sub);
      if forceClosed {
        WriteFrame(sub.conn, CloseFrame(CloseAbandoned, "abandoned"));
      }
      CloseSocket(sub.conn);
    }

    /** The write pump of connection `conn` over the events its send queue and ticker deliver. */
    method WritePump(conn: ConnId, events: seq<Outbound>)
      modifies this
      ensures arenas == old(arenas)
      ensures trace == old(trace) + WritePumpRun(conn, events).effects
    {
      ghost var whole := WritePumpRun(conn, events);
      var done := false;
      var i := 0;
      while i < |events| && !done
        invariant 0 <= i <= |events|
        invariant arenas == old(arenas)
        invariant !done ==>
          var w := WritePumpRun(conn, events[i..]);
          trace + w.effects == old(trace) + whole.effects && w.stopped == whole.stopped
        invariant done ==> trace + [Shut(conn)] == old(trace) + whole.effects && whole.stopped
        decreases |events| - i
      {
        EgressAdvance(conn, events, i, trace);
        match events[i] {
          case Queued(payload, writeOk) =>
            WriteFrame(conn, Text(payload));
            done := !writeOk;
          case QueueClosed =>
            WriteFrame(conn, EmptyClose);
            done := true;
          case Tick(writeOk) =>
            WriteFrame(conn, Ping);
            done := !writeOk;
        }
        i := i + 1;
      }
      // the deferred close runs only once the pump returns
      if done {
        CloseSocket(conn);
      }
    }

    // -------------------------------------------------------------------
    // APIEvent
    // -------------------------------------------------------------------

    /** An API-driven event; `facilitator` and `reply` are what the collaborators answer. */
    method APIEvent(arenaId: string, userId: string, kind: string, value: string,
                    facilitator: Option<Error>, reply: Reply)
      returns (err: Option<Error>)
      modifies this
      ensures arenas == old(arenas)
      ensures var o := ApiEvent(eventHandlers, arenaId in old(arenas), arenaId, userId, kind, value, facilitator, reply);
              err == o.err && trace == old(trace) + o.effects
    {
      if IsOwnerOnly(kind) {
        Consult(ConfirmFacilitator(arenaId, userId));
        if facilitator.Some? {
          return facilitator;
        }
      }
      if kind in eventHandlers {
        Consult(RunHandler(kind, arenaId, userId, value));
        if reply.err.Some? {
          return reply.err;
        }
        if arenaId in arenas {
          Broadcast(arenaId, Raw(reply.msg));
        }
      }
      return None;
    }

    // -------------------------------------------------------------------
    // A whole connection
    // -------------------------------------------------------------------

    /**
     * `ServeWs` followed, once the connection is active, by its read
     * pump. A connection not yet registered leaves the registry as it
     * found it: it is registered on admission and unregistered on exit.
     */
    method Connect(conn: ConnId, storyboardId: string, lk: Lookups, decode: Bytes -> Decoded,
                   frames: seq<Frame>, joinedUsers: string, leftUsers: string)
      returns (admitted: bool)
      requires Valid()
      requires conn !in Members(arenas, storyboardId)
      modifies this
      ensures Valid()
      ensures arenas == old(arenas)
      ensures var r := Serve(conn, storyboardId, Decide(lk), decode, frames, joinedUsers);
              admitted == r.admitted &&
              trace == old(trace) + r.effects +
                       (if admitted then ReadPumpEffects(eventHandlers, r.sub, decode, r.pumpInput, leftUsers) else [])
    {
      var sub, pumpInput;
      admitted, sub, pumpInput := ServeWs(conn, storyboardId, lk, decode, frames, joinedUsers);
      if admitted {
        RegisterThenUnregister(old(arenas), sub);
        ReadPump(sub, decode, pumpInput, leftUsers);
      }
    }
  }
}
