/**
 * Connection establishment in `ServeWs` (http/storyboard/client.go): the
 * admission decision, the join-code gate when the decision calls for it,
 * and the activation sequence of an admitted connection.
 */
module Establish {
  import opened Protocol
  import opened Admission
  import opened JoinGate

  /**
   * Activation: register the subscription, add the user to the
   * storyboard, write `init` with the storyboard snapshot to this
   * connection only, and broadcast `user_joined` with the updated users.
   */
  function Activation(sub: Subscription, board: Storyboard, joinedUsers: string): (a: seq<Effect>)
    // exactly one registration, of this subscription, and it comes first
    ensures |a| > 0 && a[0] == HubRegister(sub) && Count(a, IsRegister) == 1
    // every frame written goes to this connection only
    ensures forall i :: 0 <= i < |a| && a[i].Write? ==> a[i].conn == sub.conn
    // the hub carries only the `user_joined` notice to this storyboard, never `init`
    ensures forall i :: 0 <= i < |a| && a[i].HubBroadcast? ==>
              a[i].arena == sub.arena && IsNoticeBroadcast(a[i], "user_joined")
  {
    [HubRegister(sub),
     Called(AddUser(sub.arena, sub.userId)),
     Write(sub.conn, Text(Notice(SocketEvent("init", board.snapshot, sub.userId)))),
     HubBroadcast(sub.arena, Notice(SocketEvent("user_joined", joinedUsers, sub.userId)))]
  }

  /**
   * What `ServeWs` did: whether the connection became active, as which
   * subscription, its effects in order, and the frames left for the
   * read pump (none unless it became active).
   */
  datatype ServeRun = ServeRun(admitted: bool, sub: Subscription, effects: seq<Effect>, pumpInput: seq<Frame>)

  predicate IsInitWrite(e: Effect)
  {
    e.Write? && e.frame.Text? && e.frame.payload.Notice? && e.frame.payload.event.kind == "init"
  }

  predicate IsInitBroadcast(e: Effect)
  {
    IsNoticeBroadcast(e, "init")
  }

  /**
   * `ServeWs` on connection `conn` for storyboard `arenaId` once the
   * admission decision `d` is known (`Admission.Decide` of the
   * collaborators' answers), with the frames the connection delivers and
   * the marshalled users `AddUserToStoryboard` would return.
   */
  function Serve(conn: ConnId, arenaId: string, d: Decision, decode: Bytes -> Decoded,
                 frames: seq<Frame>, joinedUsers: string): (r: ServeRun)
    // a refusal writes one close frame with its code, closes, and registers nothing
    ensures d.Refused? ==>
              r == ServeRun(false, r.sub, [Write(conn, CloseFrame(d.code, d.reason)), Shut(conn)], [])
    // without the gate, the connection is activated without reading a frame
    ensures d.Admitted? ==>
              r.admitted && r.pumpInput == frames &&
              r.effects == Activation(r.sub, d.board, joinedUsers)
    // with the gate, `join_code_required` comes first
    ensures d.Gated? ==> |r.effects| > 0 && r.effects[0] == RequiredNotice(conn, d.user.id)
    ensures !d.Refused? ==> r.sub == Subscription(conn, arenaId, d.user.id)
    ensures !r.admitted ==> r.pumpInput == []
  {
    var sub := Subscription(conn, arenaId, "");
    match d
    case Refused(code, reason) =>
      ServeRun(false, sub, [Write(conn, CloseFrame(code, reason)), Shut(conn)], [])
    case Admitted(user, board) =>
      var sub := Subscription(conn, arenaId, user.id);
      ServeRun(true, sub, Activation(sub, board, joinedUsers), frames)
    case Gated(user, board) =>
      var sub := Subscription(conn, arenaId, user.id);
      var g := Gate(board.joinCode, conn, user.id, decode, frames);
      ServeRun(g.admitted, sub,
               [RequiredNotice(conn, user.id)] + g.effects
               + (if g.admitted then Activation(sub, board, joinedUsers) else []),
               g.rest)
  }

  /** The activation sequence registers once, writes `init` once and broadcasts no `init`. */
  lemma ActivationCounts(sub: Subscription, board: Storyboard, joinedUsers: string)
    ensures var a := Activation(sub, board, joinedUsers);
            Count(a, IsRegister) == 1 && Count(a, IsInitWrite) == 1 && Count(a, IsInitBroadcast) == 0
  {
    var a := Activation(sub, board, joinedUsers);
    assert a == [a[0]] + ([a[1]] + ([a[2]] + [a[3]]));
    CountCons(a[2], [a[3]], IsRegister);
    CountCons(a[1], [a[2]] + [a[3]], IsRegister);
    CountCons(a[0], [a[1]] + ([a[2]] + [a[3]]), IsRegister);
    CountCons(a[2], [a[3]], IsInitWrite);
    CountCons(a[1], [a[2]] + [a[3]], IsInitWrite);
    CountCons(a[0], [a[1]] + ([a[2]] + [a[3]]), IsInitWrite);
  }

  /** Before activation, a gated connection only receives notices on its own socket. */
  lemma GateHeadCounts(conn: ConnId, userId: string, g: GateRun)
    requires forall i :: 0 <= i < |g.effects| ==> g.effects[i] == IncorrectNotice(conn, userId)
    ensures var head := [RequiredNotice(conn, userId)] + g.effects;
            Count(head, IsRegister) == 0 && Count(head, IsInitWrite) == 0 && Count(head, IsInitBroadcast) == 0
  {
    var head := [RequiredNotice(conn, userId)] + g.effects;
    assert forall i :: 1 <= i < |head| ==> head[i] == g.effects[i - 1];
  }

  /**
   * Registration happens exactly once on every path that activates the
   * connection and never on any other; the same holds for `init`, which
   * is written to the connection and never goes through the hub.
   */
  lemma ServeRegistersOnlyOnAdmission(conn: ConnId, arenaId: string, d: Decision, decode: Bytes -> Decoded,
                                      frames: seq<Frame>, joinedUsers: string)
    ensures var r := Serve(conn, arenaId, d, decode, frames, joinedUsers);
            && Count(r.effects, IsRegister) == (if r.admitted then 1 else 0)
            && Count(r.effects, IsInitWrite) == (if r.admitted then 1 else 0)
            && Count(r.effects, IsInitBroadcast) == 0
  {
    var r := Serve(conn, arenaId, d, decode, frames, joinedUsers);
    match d
    case Refused(code, reason) =>
      assert r.effects == [Write(conn, CloseFrame(code, reason))] + [Shut(conn)];
    case Admitted(user, board) =>
      ActivationCounts(r.sub, board, joinedUsers);
    case Gated(user, board) =>
      var g := Gate(board.joinCode, conn, user.id, decode, frames);
      var head := [RequiredNotice(conn, user.id)] + g.effects;
      var act := if g.admitted then Activation(r.sub, board, joinedUsers) else [];
      assert r.effects == head + act;
      GateHeadCounts(conn, user.id, g);
      ActivationCounts(r.sub, board, joinedUsers);
      CountAppend(head, act, IsRegister);
      CountAppend(head, act, IsInitWrite);
      CountAppend(head, act, IsInitBroadcast);
  }

  /**
   * On admission, the activation sequence closes the effects in this
   * order: register, add the user, `init` to this connection,
   * `user_joined` to the storyboard; nothing before it touches the hub.
   */
  lemma AdmissionOrder(conn: ConnId, arenaId: string, d: Decision, decode: Bytes -> Decoded,
                       frames: seq<Frame>, joinedUsers: string)
    requires Serve(conn, arenaId, d, decode, frames, joinedUsers).admitted
    ensures var r := Serve(conn, arenaId, d, decode, frames, joinedUsers);
            && |r.effects| >= 4
            && r.effects[|r.effects| - 4..] == Activation(r.sub, d.board, joinedUsers)
            && (forall i :: 0 <= i < |r.effects| - 4 ==> !IsHubOp(r.effects[i]))
  {
    var r := Serve(conn, arenaId, d, decode, frames, joinedUsers);
    if d.Gated? {
      var g := Gate(d.board.joinCode, conn, d.user.id, decode, frames);
      var head := [RequiredNotice(conn, d.user.id)] + g.effects;
      assert r.effects == head + Activation(r.sub, d.board, joinedUsers);
      assert forall i :: 1 <= i < |head| ==> head[i] == g.effects[i - 1];
    }
  }

  /**
   * A gated connection admitted at its first frame `k` carrying the join
   * code: `join_code_required`, one `join_code_incorrect` per earlier
   * wrong attempt, then the activation sequence; the read pump gets every
   * frame after `k`.
   */
  lemma GatedAdmission(conn: ConnId, arenaId: string, d: Decision, decode: Bytes -> Decoded,
                       frames: seq<Frame>, joinedUsers: string, k: nat)
    requires d.Gated?
    requires k < |frames| && Opens(d.board.joinCode, decode, frames[k])
    requires forall j :: 0 <= j < k ==> !Opens(d.board.joinCode, decode, frames[j])
    ensures var r := Serve(conn, arenaId, d, decode, frames, joinedUsers);
            && r.admitted && r.pumpInput == frames[k + 1..]
            && r.effects == [RequiredNotice(conn, d.user.id)]
                            + Copies(WrongAttempts(d.board.joinCode, decode, frames[..k]), IncorrectNotice(conn, d.user.id))
                            + Activation(r.sub, d.board, joinedUsers)
  {
    GateStopsAtFirstCode(d.board.joinCode, conn, d.user.id, decode, frames, k);
  }

  /**
   * A gated connection is admitted exactly when some frame carries the
   * join code; until then it receives `join_code_required` and one
   * `join_code_incorrect` per wrong attempt, and if no frame carries the
   * code nothing is registered and no `init` is written.
   */
  lemma GatedConnection(conn: ConnId, arenaId: string, d: Decision, decode: Bytes -> Decoded,
                        frames: seq<Frame>, joinedUsers: string)
    requires d.Gated?
    ensures var r := Serve(conn, arenaId, d, decode, frames, joinedUsers);
            var code := d.board.joinCode;
            r.admitted <==> exists i :: 0 <= i < |frames| && Opens(code, decode, frames[i])
    ensures var r := Serve(conn, arenaId, d, decode, frames, joinedUsers);
            var code := d.board.joinCode;
            (forall i :: 0 <= i < |frames| ==> !Opens(code, decode, frames[i])) ==>
              r.effects == [RequiredNotice(conn, d.user.id)]
                           + Copies(WrongAttempts(code, decode, frames), IncorrectNotice(conn, d.user.id))
  {
    var code := d.board.joinCode;
    var uid := d.user.id;
    GateAdmitsIffCodeSent(code, conn, uid, decode, frames);
    if forall i :: 0 <= i < |frames| ==> !Opens(code, decode, frames[i]) {
      GateWithoutCode(code, conn, uid, decode, frames);
    }
  }

  /**
   * A connection the gate does not admit is left open: it only gets text
   * frames, its socket is never closed and the hub is never touched.
   */
  lemma GatedConnectionLeftOpen(conn: ConnId, arenaId: string, d: Decision, decode: Bytes -> Decoded,
                                frames: seq<Frame>, joinedUsers: string)
    requires d.Gated?
    ensures var r := Serve(conn, arenaId, d, decode, frames, joinedUsers);
            !r.admitted ==> forall i :: 0 <= i < |r.effects| ==>
              r.effects[i].Write? && r.effects[i].conn == conn && r.effects[i].frame.Text?
  {
    var g := Gate(d.board.joinCode, conn, d.user.id, decode, frames);
    if !g.admitted {
      var r := Serve(conn, arenaId, d, decode, frames, joinedUsers);
      assert r.effects == [RequiredNotice(conn, d.user.id)] + g.effects;
    }
  }
}
