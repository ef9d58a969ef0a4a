/**
 * The admission chain of `ServeWs` (http/storyboard/client.go): from the
 * answers of the cookie checks and the lookups to either a close code or
 * the user and storyboard to go on with, gated or not by a join code.
 */
module Admission {
  import opened Protocol

  const NoSessionCookie: string := "NO_SESSION_COOKIE"
  const DuplicateStoryboardUser: string := "DUPLICATE_STORYBOARD_USER"

  /** What `ValidateSessionCookie` yields: a session id and maybe an error. */
  datatype SessionCookie = SessionCookie(id: string, err: Option<Error>)

  datatype User = User(id: string)

  /** A storyboard as looked up: its join code and its marshalled snapshot. */
  datatype Storyboard = Storyboard(joinCode: string, snapshot: string)

  /**
   * The active-status lookup: nil (the user is an active member), an
   * error that `errors.Is` matches with `sql.ErrNoRows` (never joined),
   * or any other error.
   */
  datatype ActiveStatus = Active | NoRows | StatusError(err: Error)

  /**
   * The answers the collaborators would give for this request: session
   * cookie, session user, guest-user cookie, guest user, storyboard and
   * active status. Only the ones the chain reaches are consulted.
   */
  datatype Lookups = Lookups(
    sessionCookie: SessionCookie,
    sessionUser: Result<User>,
    userCookie: Result<string>,
    guestUser: Result<User>,
    storyboard: Result<Storyboard>,
    status: ActiveStatus)

  datatype Decision =
    | Refused(code: int, reason: string)
    | Gated(user: User, board: Storyboard)
    | Admitted(user: User, board: Storyboard)

  /** A cookie error other than "no session cookie" rejects at once. */
  predicate BadCookie(c: SessionCookie)
  {
    c.err.Some? && c.err.value.text != NoSessionCookie
  }

  /**
   * The user the request acts for: the session's user when a session id
   * came back, otherwise the guest user named by the user cookie.
   */
  function ResolveUser(lk: Lookups): (r: Result<User>)
    ensures BadCookie(lk.sessionCookie) ==> r.Failure?
    ensures !BadCookie(lk.sessionCookie) && lk.sessionCookie.id != "" ==>
              (r.Success? <==> lk.sessionUser.Success?) &&
              (r.Success? ==> r.value == lk.sessionUser.value)
    ensures !BadCookie(lk.sessionCookie) && lk.sessionCookie.id == "" ==>
              (r.Success? <==> lk.userCookie.Success? && lk.guestUser.Success?) &&
              (r.Success? ==> r.value == lk.guestUser.value)
  {
    if BadCookie(lk.sessionCookie) then Failure(Error("unauthorized"))
    else if lk.sessionCookie.id != "" then
      match lk.sessionUser
      case Failure(e) => Failure(e)
      case Success(u) => Success(u)
    else
      match lk.userCookie
      case Failure(e) => Failure(e)
      case Success(_) =>
        match lk.guestUser
        case Failure(e) => Failure(e)
        case Success(u) => Success(u)
  }

  /**
   * The admission decision. Every failure is one close code: 4001 when no
   * user resolves, 4004 when the storyboard lookup fails, 4003 for a
   * duplicate session, 4005 for any other active-status error that is not
   * "no rows". The join-code gate is entered exactly when the storyboard
   * has a join code and the user never joined; an active member, or any
   * user of an open storyboard, is admitted directly.
   */
  function Decide(lk: Lookups): (r: Decision)
    ensures r.Refused? ==> r.code in {CloseUnauthorized, CloseNotFound, CloseDuplicate, CloseInternal}
    ensures r == Refused(CloseUnauthorized, "unauthorized") <==> ResolveUser(lk).Failure?
    ensures r == Refused(CloseNotFound, "storyboard not found") <==>
              ResolveUser(lk).Success? && lk.storyboard.Failure?
    ensures r == Refused(CloseDuplicate, "duplicate session") <==>
              ResolveUser(lk).Success? && lk.storyboard.Success? &&
              lk.status == StatusError(Error(DuplicateStoryboardUser))
    ensures r == Refused(CloseInternal, "internal error") <==>
              ResolveUser(lk).Success? && lk.storyboard.Success? &&
              lk.status.StatusError? && lk.status.err.text != DuplicateStoryboardUser
    ensures r.Gated? <==>
              ResolveUser(lk).Success? && lk.storyboard.Success? &&
              lk.storyboard.value.joinCode != "" && lk.status == NoRows
    ensures r.Admitted? <==>
              ResolveUser(lk).Success? && lk.storyboard.Success? &&
              (lk.status == Active || (lk.status == NoRows && lk.storyboard.value.joinCode == ""))
    ensures !r.Refused? ==> r.user == ResolveUser(lk).value && r.board == lk.storyboard.value
  {
    match ResolveUser(lk)
    case Failure(_) => Refused(CloseUnauthorized, "unauthorized")
    case Success(user) =>
      match lk.storyboard
      case Failure(_) => Refused(CloseNotFound, "storyboard not found")
      case Success(board) =>
        match lk.status
        case StatusError(e) =>
          if e.text == DuplicateStoryboardUser then Refused(CloseDuplicate, "duplicate session")
          else Refused(CloseInternal, "internal error")
        case NoRows =>
          if board.joinCode != "" then Gated(user, board) else Admitted(user, board)
        case Active => Admitted(user, board)
  }
}
