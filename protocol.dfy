/**
 * Vocabulary shared by the storyboard websocket model: bytes and frames,
 * the system notices the server builds, the close codes, the timing
 * constants, the owner-only operation set, and the observable effects
 * (hub operations, frames written to one connection, socket closes and
 * calls into the storyboard service) that every other module records.
 */
module Protocol {

  newtype byte = x: int | 0 <= x < 256
  type Bytes = seq<byte>

  datatype Option<T> = None | Some(value: T)

  /** An error returned by a collaborator; only its text is observable. */
  datatype Error = Error(text: string)

  datatype Result<T> = Success(value: T) | Failure(error: Error)

  // ---------------------------------------------------------------------
  // Timing constants. Go's time.Duration counts nanoseconds in an int64.
  // ---------------------------------------------------------------------

  const Second: int := 1_000_000_000
  const Int64Bound: int := 0x8000_0000_0000_0000

  /** Time allowed to write a message to the peer. */
  const WriteWait: int := 10 * Second

  /** Time allowed to read the next pong message from the peer. */
  const PongWait: int := 60 * Second

  /** Maximum message size allowed from the peer, in bytes. */
  const MaxMessageSize: int := 1024 * 1024

  /**
   * The ping period, nine tenths of the pong window: 54 seconds, so a
   * healthy peer's read deadline is refreshed before it expires. The
   * product `pongWait * 9` fits in int64, so the typed constant compiles.
   */
  function PingPeriod(): (r: int)
    ensures r == 54 * Second
    ensures 0 < r < PongWait
    ensures 0 < PongWait * 9 < Int64Bound
  {
    (PongWait * 9) / 10
  }

  // ---------------------------------------------------------------------
  // Close codes written on the websocket.
  // ---------------------------------------------------------------------

  const CloseUnauthorized: int := 4001
  const CloseAbandoned: int := 4002
  const CloseDuplicate: int := 4003
  const CloseNotFound: int := 4004
  const CloseInternal: int := 4005

  /** Event types that only a facilitator of the storyboard may run. */
  const OwnerOnlyOperations: set<string> :=
    {"facilitator_add", "facilitator_remove", "edit_storyboard", "concede_storyboard"}

  predicate IsOwnerOnly(kind: string)
  {
    kind in OwnerOnlyOperations
  }

  /**
   * Exactly four event types need a facilitator: adding and removing a
   * facilitator, editing and conceding the storyboard. The join-code
   * frame type is not among them.
   */
  lemma OwnerOnlyOperationsListed()
    ensures |OwnerOnlyOperations| == 4
    ensures forall k :: IsOwnerOnly(k) <==>
              k == "facilitator_add" || k == "facilitator_remove" || k == "edit_storyboard" || k == "concede_storyboard"
    ensures !IsOwnerOnly("auth_storyboard")
  {
    assert OwnerOnlyOperations == {"facilitator_add"} + {"facilitator_remove"} + {"edit_storyboard"} + {"concede_storyboard"};
  }

  // ---------------------------------------------------------------------
  // Inbound frames.
  // ---------------------------------------------------------------------

  /**
   * What decoding an inbound frame into a string map yields: the fields
   * it filled and whether decoding reported an error. A frame that is
   * not JSON at all fills nothing; a JSON object holding a non-string
   * member reports an error but still fills its string members.
   */
  datatype Decoded = Decoded(fields: map<string, string>, ok: bool)

  /** A missing key reads as the empty string, as a Go map lookup does. */
  function Field(d: Decoded, key: string): string
  {
    if key in d.fields then d.fields[key] else ""
  }

  /** What an event handler returns: its payload, its error and whether it forces the connection closed. */
  datatype Reply = Reply(msg: Bytes, err: Option<Error>, forceClosed: bool)

  /**
   * One frame read from a connection, together with what the storyboard
   * service would answer about it: the facilitator check (None when the
   * user is a facilitator) and the reply of the handler for its type.
   * The answers are used only if the code asks for them.
   */
  datatype Frame = Frame(raw: Bytes, facilitator: Option<Error>, reply: Reply)

  // ---------------------------------------------------------------------
  // Outbound frames and effects.
  // ---------------------------------------------------------------------

  /** A system notice `{type, value, userId}` built by the server. */
  datatype SocketEvent = SocketEvent(kind: string, value: string, userId: string)

  /** A broadcast or queued payload: a notice the server built, or bytes as a client or handler gave them. */
  datatype Payload = Notice(event: SocketEvent) | Raw(bytes: Bytes)

  /** A frame written on the websocket. */
  datatype OutFrame =
    | Text(payload: Payload)
    | CloseFrame(code: int, reason: string)
    | EmptyClose
    | Ping

  type ConnId = nat

  /** One connection bound to one storyboard and one user. */
  datatype Subscription = Subscription(conn: ConnId, arena: string, userId: string)

  /** Calls into the storyboard service and the event handlers that the core makes. */
  datatype Call =
    | AddUser(arena: string, userId: string)
    | RetreatUser(arena: string, userId: string)
    | ConfirmFacilitator(arena: string, userId: string)
    | RunHandler(kind: string, arena: string, userId: string, value: string)

  /** One observable step, in the order the core performs it. */
  datatype Effect =
    | HubRegister(sub: Subscription)
    | HubUnregister(sub: Subscription)
    | HubBroadcast(arena: string, payload: Payload)
    | Write(conn: ConnId, frame: OutFrame)
    | Shut(conn: ConnId)
    | Called(call: Call)

  predicate IsHubOp(e: Effect)
  {
    e.HubRegister? || e.HubUnregister? || e.HubBroadcast?
  }

  predicate IsBroadcast(e: Effect)
  {
    e.HubBroadcast?
  }

  predicate IsRegister(e: Effect)
  {
    e.HubRegister?
  }

  predicate IsUnregister(e: Effect)
  {
    e.HubUnregister?
  }

  /** A hub broadcast of a server-built notice of the given kind. */
  predicate IsNoticeBroadcast(e: Effect, kind: string)
  {
    e.HubBroadcast? && e.payload.Notice? && e.payload.event.kind == kind
  }

  predicate IsUserLeft(e: Effect)
  {
    IsNoticeBroadcast(e, "user_left")
  }

  /** A close frame with the abandonment code, written on any connection. */
  predicate IsAbandonFrame(e: Effect)
  {
    e.Write? && e.frame.CloseFrame? && e.frame.code == CloseAbandoned
  }

  predicate IsHandlerRun(e: Effect)
  {
    e.Called? && e.call.RunHandler?
  }

  /** A call of the facilitator check. */
  predicate IsFacilitatorCheck(e: Effect)
  {
    e.Called? && e.call.ConfirmFacilitator?
  }

  /** The number of effects in `s` that satisfy `p`. */
  function Count(s: seq<Effect>, p: Effect -> bool): (n: nat)
    ensures n == 0 <==> forall i :: 0 <= i < |s| ==> !p(s[i])
  {
    if s == [] then 0
    else (if p(s[0]) then 1 else 0) + Count(s[1..], p)
  }

  lemma CountCons(e: Effect, s: seq<Effect>, p: Effect -> bool)
    ensures Count([e] + s, p) == (if p(e) then 1 else 0) + Count(s, p)
  {
    assert ([e] + s)[1..] == s;
  }

  lemma {:induction false} CountAppend(a: seq<Effect>, b: seq<Effect>, p: Effect -> bool)
    ensures Count(a + b, p) == Count(a, p) + Count(b, p)
  {
    if a == [] {
      assert a + b == b;
    } else {
      assert (a + b)[1..] == a[1..] + b;
      CountAppend(a[1..], b, p);
    }
  }
}
