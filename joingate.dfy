/**
 * The join-code gate of `ServeWs`: after `join_code_required` is written,
 * frames are read one at a time until one is an `auth_storyboard` frame
 * whose value is the join code. Every other `auth_storyboard` frame earns
 * one `join_code_incorrect` notice, every other frame nothing, and a read
 * error (the end of the frame script) ends the gate unadmitted. The
 * decoding error is ignored, as the code ignores it: only the fields
 * that decoding filled are looked at.
 */
module JoinGate {
  import opened Protocol

  const AuthType: string := "auth_storyboard"

  predicate IsAuth(decode: Bytes -> Decoded, f: Frame)
  {
    Field(decode(f.raw), "type") == AuthType
  }

  /** The frame that opens the gate. */
  predicate Opens(code: string, decode: Bytes -> Decoded, f: Frame)
  {
    IsAuth(decode, f) && Field(decode(f.raw), "value") == code
  }

  function RequiredNotice(conn: ConnId, userId: string): Effect
  {
    Write(conn, Text(Notice(SocketEvent("join_code_required", "", userId))))
  }

  function IncorrectNotice(conn: ConnId, userId: string): Effect
  {
    Write(conn, Text(Notice(SocketEvent("join_code_incorrect", "", userId))))
  }

  /** The outcome of the gate loop and the frames left for the read pump. */
  datatype GateRun = GateRun(admitted: bool, effects: seq<Effect>, rest: seq<Frame>)

  /** The gate loop over the frames the connection delivers. */
  function Gate(code: string, conn: ConnId, userId: string, decode: Bytes -> Decoded, frames: seq<Frame>): (r: GateRun)
    ensures |r.rest| < |frames| || r.rest == []
    ensures r.rest == frames[|frames| - |r.rest|..]
    ensures !r.admitted ==> r.rest == []
    ensures forall i :: 0 <= i < |r.effects| ==> r.effects[i] == IncorrectNotice(conn, userId)
    decreases |frames|
  {
    if frames == [] then GateRun(false, [], [])
    else if Opens(code, decode, frames[0]) then GateRun(true, [], frames[1..])
    else
      var tail := Gate(code, conn, userId, decode, frames[1..]);
      var notice := if IsAuth(decode, frames[0]) then [IncorrectNotice(conn, userId)] else [];
      GateRun(tail.admitted, notice + tail.effects, tail.rest)
  }

  /** One pass of the gate loop over frame `i`, appended to the effects `done` so far. */
  lemma GateAdvance(code: string, conn: ConnId, userId: string, decode: Bytes -> Decoded,
                    frames: seq<Frame>, i: nat, done: seq<Effect>)
    requires i < |frames|
    ensures Opens(code, decode, frames[i]) ==>
              Gate(code, conn, userId, decode, frames[i..]) == GateRun(true, [], frames[i + 1..])
    ensures !Opens(code, decode, frames[i]) ==>
              var here := Gate(code, conn, userId, decode, frames[i..]);
              var tail := Gate(code, conn, userId, decode, frames[i + 1..]);
              var notice := if IsAuth(decode, frames[i]) then [IncorrectNotice(conn, userId)] else [];
              && here.admitted == tail.admitted && here.rest == tail.rest
              && done + here.effects == (done + notice) + tail.effects
  {
    var fs := frames[i..];
    assert fs[0] == frames[i] && fs[1..] == frames[i + 1..];
    if !Opens(code, decode, frames[i]) {
      var tail := Gate(code, conn, userId, decode, frames[i + 1..]);
      var notice := if IsAuth(decode, frames[i]) then [IncorrectNotice(conn, userId)] else [];
      assert Gate(code, conn, userId, decode, fs).effects == notice + tail.effects;
      assert done + (notice + tail.effects) == (done + notice) + tail.effects;
    }
  }

  /** The number of `auth_storyboard` frames in `fs` that carry a wrong code. */
  function WrongAttempts(code: string, decode: Bytes -> Decoded, fs: seq<Frame>): (n: nat)
  {
    if fs == [] then 0
    else (if IsAuth(decode, fs[0]) && !Opens(code, decode, fs[0]) then 1 else 0)
         + WrongAttempts(code, decode, fs[1..])
  }

  /** `n` copies of `e`. */
  function Copies(n: nat, e: Effect): (s: seq<Effect>)
    ensures |s| == n
  {
    if n == 0 then [] else [e] + Copies(n - 1, e)
  }

  /** The gate admits if and only if some frame carries the join code. */
  lemma {:induction false} GateAdmitsIffCodeSent(code: string, conn: ConnId, userId: string,
                                                   decode: Bytes -> Decoded, frames: seq<Frame>)
    ensures Gate(code, conn, userId, decode, frames).admitted <==>
            exists i :: 0 <= i < |frames| && Opens(code, decode, frames[i])
  {
    if frames != [] && !Opens(code, decode, frames[0]) {
      GateAdmitsIffCodeSent(code, conn, userId, decode, frames[1..]);
      if exists i :: 0 <= i < |frames| && Opens(code, decode, frames[i]) {
        var i :| 0 <= i < |frames| && Opens(code, decode, frames[i]);
        assert frames[1..][i - 1] == frames[i];
      }
    }
  }

  /**
   * The gate stops at the first frame carrying the join code: it admits,
   * hands every later frame to the read pump, and has written exactly one
   * `join_code_incorrect` per wrong `auth_storyboard` frame before it.
   */
  lemma {:induction false} GateStopsAtFirstCode(code: string, conn: ConnId, userId: string,
                                                  decode: Bytes -> Decoded, frames: seq<Frame>, k: nat)
    requires k < |frames| && Opens(code, decode, frames[k])
    requires forall j :: 0 <= j < k ==> !Opens(code, decode, frames[j])
    ensures var r := Gate(code, conn, userId, decode, frames);
            r.admitted && r.rest == frames[k + 1..] &&
            r.effects == Copies(WrongAttempts(code, decode, frames[..k]), IncorrectNotice(conn, userId))
  {
    if k > 0 {
      assert !Opens(code, decode, frames[0]);
      forall j | 0 <= j < k - 1 ensures !Opens(code, decode, frames[1..][j]) {
        assert frames[1..][j] == frames[j + 1];
      }
      GateStopsAtFirstCode(code, conn, userId, decode, frames[1..], k - 1);
      assert frames[1..][k..] == frames[k + 1..];
      NoticesOfPrefix(code, IncorrectNotice(conn, userId), decode, frames, k);
    }
  }

  /** The notices for a prefix whose first frame does not open the gate: that frame's, then the rest's. */
  lemma NoticesOfPrefix(code: string, e: Effect, decode: Bytes -> Decoded, frames: seq<Frame>, k: nat)
    requires 0 < k <= |frames| && !Opens(code, decode, frames[0])
    ensures Copies(WrongAttempts(code, decode, frames[..k]), e) ==
            (if IsAuth(decode, frames[0]) then [e] else []) + Copies(WrongAttempts(code, decode, frames[1..][..k - 1]), e)
  {
    assert frames[..k][1..] == frames[1..][..k - 1];
    assert frames[..k][0] == frames[0];
    var n := WrongAttempts(code, decode, frames[1..][..k - 1]);
    if IsAuth(decode, frames[0]) {
      assert WrongAttempts(code, decode, frames[..k]) == n + 1;
      assert Copies(n + 1, e) == [e] + Copies(n, e);
    } else {
      assert WrongAttempts(code, decode, frames[..k]) == n;
    }
  }

  /**
   * When no frame carries the join code the gate ends unadmitted with
   * one `join_code_incorrect` per wrong `auth_storyboard` frame, and
   * nothing left for a read pump.
   */
  lemma {:induction false} GateWithoutCode(code: string, conn: ConnId, userId: string,
                                             decode: Bytes -> Decoded, frames: seq<Frame>)
    requires forall j :: 0 <= j < |frames| ==> !Opens(code, decode, frames[j])
    ensures var r := Gate(code, conn, userId, decode, frames);
            !r.admitted && r.rest == [] &&
            r.effects == Copies(WrongAttempts(code, decode, frames), IncorrectNotice(conn, userId))
  {
    if frames != [] {
      assert !Opens(code, decode, frames[0]);
      forall j | 0 <= j < |frames| - 1 ensures !Opens(code, decode, frames[1..][j]) {
        assert frames[1..][j] == frames[j + 1];
      }
      GateWithoutCode(code, conn, userId, decode, frames[1..]);
    }
  }
}
