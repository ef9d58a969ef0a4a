/**
 * The read pump (`readPump` in http/storyboard/client.go): per inbound
 * frame, decode; for a well-formed owner-only type, ask the facilitator
 * check; for a registered type that is not marked bad, run its handler;
 * broadcast to the storyboard whenever the frame is not marked bad. The
 * loop ends at a read error (the end of the frame script) or right
 * after a handler forces the connection closed, and the deferred
 * cleanup always runs.
 */
module Ingress {
  import opened Protocol

  /** The effects of one loop iteration and whether it forces the close. */
  datatype Step = Step(effects: seq<Effect>, forced: bool)

  /** The only kinds of effect one iteration can have. */
  predicate PumpEffect(sub: Subscription, e: Effect)
  {
    (e.Called? && (e.call.ConfirmFacilitator? || e.call.RunHandler?)) ||
    (e.HubBroadcast? && e.arena == sub.arena && e.payload.Raw?)
  }

  /** The frame decodes, its type is owner-only and the facilitator check fails. */
  predicate Denied(decode: Bytes -> Decoded, f: Frame)
  {
    decode(f.raw).ok && IsOwnerOnly(Field(decode(f.raw), "type")) && f.facilitator.Some?
  }

  /** The handler for the frame's type is invoked. */
  predicate RunsHandler(handlers: set<string>, decode: Bytes -> Decoded, f: Frame)
  {
    decode(f.raw).ok && !Denied(decode, f) && Field(decode(f.raw), "type") in handlers
  }

  function Confirm(sub: Subscription): Effect
  {
    Called(ConfirmFacilitator(sub.arena, sub.userId))
  }

  function Invoke(sub: Subscription, decode: Bytes -> Decoded, f: Frame): Effect
  {
    Called(RunHandler(Field(decode(f.raw), "type"), sub.arena, sub.userId, Field(decode(f.raw), "value")))
  }

  /** One iteration of the read loop on frame `f`. */
  function Dispatch(handlers: set<string>, sub: Subscription, decode: Bytes -> Decoded, f: Frame): (r: Step)
    // only a handler can force the close
    ensures r.forced <==> RunsHandler(handlers, decode, f) && f.reply.forceClosed
    ensures forall i :: 0 <= i < |r.effects| ==> PumpEffect(sub, r.effects[i])
  {
    var d := decode(f.raw);
    var kind := Field(d, "type");
    var checked := d.ok && IsOwnerOnly(kind);
    var denied := checked && f.facilitator.Some?;
    var runs := d.ok && !denied && kind in handlers;
    var bad := !d.ok || denied || (runs && f.reply.err.Some?);
    var msg := if runs then f.reply.msg else f.raw;
    Step((if checked then [Confirm(sub)] else [])
         + (if runs then [Invoke(sub, decode, f)] else [])
         + (if bad then [] else [HubBroadcast(sub.arena, Raw(msg))]),
         runs && f.reply.forceClosed)
  }

  /** What one iteration of the read loop does with frame `f`. */
  lemma DispatchOutcomes(handlers: set<string>, sub: Subscription, decode: Bytes -> Decoded, f: Frame)
    ensures var r := Dispatch(handlers, sub, decode, f);
    // a malformed frame skips the check and the handler and is never broadcast
    && (!decode(f.raw).ok ==> r == Step([], false))
    // an owner-only type is checked first ...
    && (decode(f.raw).ok && IsOwnerOnly(Field(decode(f.raw), "type")) ==>
          |r.effects| > 0 && r.effects[0] == Confirm(sub))
    // ... and a failed check stops the frame there
    && (Denied(decode, f) ==> r == Step([Confirm(sub)], false))
    // a well-formed frame without a handler is relayed as it was read
    && (decode(f.raw).ok && !Denied(decode, f) && Field(decode(f.raw), "type") !in handlers ==>
          |r.effects| > 0 && r.effects[|r.effects| - 1] == HubBroadcast(sub.arena, Raw(f.raw)) && !r.forced)
    // a handler error suppresses the broadcast, a success broadcasts the handler's payload
    && (RunsHandler(handlers, decode, f) ==>
          Invoke(sub, decode, f) in r.effects &&
          (f.reply.err.Some? ==> Count(r.effects, IsBroadcast) == 0) &&
          (f.reply.err.None? ==> |r.effects| > 0 && r.effects[|r.effects| - 1] == HubBroadcast(sub.arena, Raw(f.reply.msg))))
    // the handler runs once when it runs, and never otherwise
    && Count(r.effects, IsHandlerRun) == (if RunsHandler(handlers, decode, f) then 1 else 0)
    // the check runs once for a well-formed owner-only frame, and for no other frame
    && Count(r.effects, IsFacilitatorCheck) ==
         (if decode(f.raw).ok && IsOwnerOnly(Field(decode(f.raw), "type")) then 1 else 0)
    // a frame is broadcast exactly once unless it is marked bad, and then never
    && Count(r.effects, IsBroadcast) ==
         (if !decode(f.raw).ok || Denied(decode, f) || (RunsHandler(handlers, decode, f) && f.reply.err.Some?)
          then 0 else 1)
  {
    var d := decode(f.raw);
    var kind := Field(d, "type");
    var checked := d.ok && IsOwnerOnly(kind);
    var runs := RunsHandler(handlers, decode, f);
    var bad := !d.ok || Denied(decode, f) || (runs && f.reply.err.Some?);
    var msg := if runs then f.reply.msg else f.raw;
    var a := if checked then [Confirm(sub)] else [];
    var b := if runs then [Invoke(sub, decode, f)] else [];
    var c := if bad then [] else [HubBroadcast(sub.arena, Raw(msg))];
    assert Dispatch(handlers, sub, decode, f).effects == a + b + c;
    CountAppend(a, b, IsBroadcast);
    CountAppend(a + b, c, IsBroadcast);
  }

  /** The read loop: iterate until the frames run out or an iteration forces the close. */
  function Pump(handlers: set<string>, sub: Subscription, decode: Bytes -> Decoded, frames: seq<Frame>): (r: Step)
    ensures forall i :: 0 <= i < |r.effects| ==> PumpEffect(sub, r.effects[i])
    decreases |frames|
  {
    if frames == [] then Step([], false)
    else
      var s := Dispatch(handlers, sub, decode, frames[0]);
      if s.forced then s
      else
        var rest := Pump(handlers, sub, decode, frames[1..]);
        Step(s.effects + rest.effects, rest.forced)
  }

  /**
   * One pass of the read loop keeps its invariant: `done ++ Pump(frames[i..])`
   * is the whole pump, and after frame `i` either the pump is over (a forced
   * close) or `done ++ step ++ Pump(frames[i + 1..])` still is.
   */
  lemma PumpAdvance(handlers: set<string>, sub: Subscription, decode: Bytes -> Decoded,
                    frames: seq<Frame>, i: nat, done: seq<Effect>, whole: seq<Effect>)
    requires i < |frames|
    requires done + Pump(handlers, sub, decode, frames[i..]).effects == whole
    ensures var step := Dispatch(handlers, sub, decode, frames[i]);
            var rest := Pump(handlers, sub, decode, frames[i + 1..]);
            && (step.forced ==> done + step.effects == whole && Pump(handlers, sub, decode, frames[i..]).forced)
            && (!step.forced ==> (done + step.effects) + rest.effects == whole &&
                                 rest.forced == Pump(handlers, sub, decode, frames[i..]).forced)
  {
    var tail := frames[i..];
    assert tail[0] == frames[i] && tail[1..] == frames[i + 1..];
    var step := Dispatch(handlers, sub, decode, frames[i]);
    var rest := Pump(handlers, sub, decode, frames[i + 1..]);
    if !step.forced {
      assert Pump(handlers, sub, decode, tail).effects == step.effects + rest.effects;
      assert done + (step.effects + rest.effects) == (done + step.effects) + rest.effects;
    }
  }

  /**
   * The deferred cleanup: leave the storyboard, broadcast `user_left`
   * with the remaining users, unregister, write the 4002 close frame
   * only after a forced close, and close the socket.
   */
  function Cleanup(sub: Subscription, leftUsers: string, forced: bool): (c: seq<Effect>)
    // the socket close is last
    ensures |c| > 0 && c[|c| - 1] == Shut(sub.conn)
    // the 4002 frame is written exactly after a forced close
    ensures Write(sub.conn, CloseFrame(CloseAbandoned, "abandoned")) in c <==> forced
    // the only broadcast is `user_left` to this storyboard, and the only unregister is this subscription's
    ensures forall i :: 0 <= i < |c| && c[i].HubBroadcast? ==> c[i].arena == sub.arena && IsUserLeft(c[i])
    ensures forall i :: 0 <= i < |c| && c[i].HubUnregister? ==> c[i].sub == sub
  {
    [Called(RetreatUser(sub.arena, sub.userId)),
     HubBroadcast(sub.arena, Notice(SocketEvent("user_left", leftUsers, sub.userId))),
     HubUnregister(sub)]
    + (if forced then [Write(sub.conn, CloseFrame(CloseAbandoned, "abandoned"))] else [])
    + [Shut(sub.conn)]
  }

  /** Everything the read pump does, from its first read to its deferred cleanup. */
  function ReadPumpEffects(handlers: set<string>, sub: Subscription, decode: Bytes -> Decoded,
                           frames: seq<Frame>, leftUsers: string): (r: seq<Effect>)
    // the loop's effects come first, unchanged, and the socket close is last
    ensures var run := Pump(handlers, sub, decode, frames);
            |run.effects| < |r| && r[..|run.effects|] == run.effects && r[|r| - 1] == Shut(sub.conn)
  {
    var run := Pump(handlers, sub, decode, frames);
    run.effects + Cleanup(sub, leftUsers, run.forced)
  }

  // ---------------------------------------------------------------------
  // Reference: every iteration's effects, concatenated, with no early stop.
  // ---------------------------------------------------------------------

  function DispatchAll(handlers: set<string>, sub: Subscription, decode: Bytes -> Decoded, fs: seq<Frame>): seq<Effect>
  {
    if fs == [] then []
    else Dispatch(handlers, sub, decode, fs[0]).effects + DispatchAll(handlers, sub, decode, fs[1..])
  }

  /** `k` is the first frame whose iteration forces the close. */
  predicate FirstForced(handlers: set<string>, sub: Subscription, decode: Bytes -> Decoded, fs: seq<Frame>, k: nat)
  {
    k < |fs| && Dispatch(handlers, sub, decode, fs[k]).forced &&
    forall j :: 0 <= j < k ==> !Dispatch(handlers, sub, decode, fs[j]).forced
  }

  lemma {:induction false} DispatchAllAppend(handlers: set<string>, sub: Subscription, decode: Bytes -> Decoded,
                                             fs: seq<Frame>, f: Frame)
    ensures DispatchAll(handlers, sub, decode, fs + [f]) ==
            DispatchAll(handlers, sub, decode, fs) + Dispatch(handlers, sub, decode, f).effects
  {
    if fs == [] {
      assert fs + [f] == [f];
      assert [f][1..] == [];
    } else {
      assert (fs + [f])[1..] == fs[1..] + [f];
      DispatchAllAppend(handlers, sub, decode, fs[1..], f);
    }
  }

  /** With no forcing frame the loop runs every frame and does not force the close. */
  lemma {:induction false} PumpWithoutForce(handlers: set<string>, sub: Subscription, decode: Bytes -> Decoded, fs: seq<Frame>)
    requires forall j :: 0 <= j < |fs| ==> !Dispatch(handlers, sub, decode, fs[j]).forced
    ensures Pump(handlers, sub, decode, fs) == Step(DispatchAll(handlers, sub, decode, fs), false)
  {
    if fs != [] {
      assert !Dispatch(handlers, sub, decode, fs[0]).forced;
      forall j | 0 <= j < |fs| - 1 ensures !Dispatch(handlers, sub, decode, fs[1..][j]).forced {
        assert fs[1..][j] == fs[j + 1];
      }
      PumpWithoutForce(handlers, sub, decode, fs[1..]);
    }
  }

  /** The loop stops right after the first forcing frame, having run it in full. */
  lemma {:induction false} PumpStopsAtForce(handlers: set<string>, sub: Subscription, decode: Bytes -> Decoded,
                                            fs: seq<Frame>, k: nat)
    requires FirstForced(handlers, sub, decode, fs, k)
    ensures Pump(handlers, sub, decode, fs) == Step(DispatchAll(handlers, sub, decode, fs[..k + 1]), true)
  {
    if k == 0 {
      assert fs[..1] == [fs[0]];
      assert [fs[0]][1..] == [];
    } else {
      assert !Dispatch(handlers, sub, decode, fs[0]).forced;
      assert FirstForced(handlers, sub, decode, fs[1..], k - 1) by {
        assert fs[1..][k - 1] == fs[k];
        forall j | 0 <= j < k - 1 ensures !Dispatch(handlers, sub, decode, fs[1..][j]).forced {
          assert fs[1..][j] == fs[j + 1];
        }
      }
      PumpStopsAtForce(handlers, sub, decode, fs[1..], k - 1);
      assert fs[..k + 1][1..] == fs[1..][..k];
      assert fs[..k + 1][0] == fs[0];
      assert DispatchAll(handlers, sub, decode, fs[..k + 1]) ==
             Dispatch(handlers, sub, decode, fs[0]).effects + DispatchAll(handlers, sub, decode, fs[1..][..k]);
    }
  }

  /** The loop forces the close exactly when some frame's iteration does. */
  lemma {:induction false} PumpForcedIffSomeFrameForces(handlers: set<string>, sub: Subscription,
                                                        decode: Bytes -> Decoded, fs: seq<Frame>)
    ensures Pump(handlers, sub, decode, fs).forced <==>
            exists k :: 0 <= k < |fs| && Dispatch(handlers, sub, decode, fs[k]).forced
  {
    if fs != [] && !Dispatch(handlers, sub, decode, fs[0]).forced {
      PumpForcedIffSomeFrameForces(handlers, sub, decode, fs[1..]);
      if exists k :: 0 <= k < |fs| && Dispatch(handlers, sub, decode, fs[k]).forced {
        var k :| 0 <= k < |fs| && Dispatch(handlers, sub, decode, fs[k]).forced;
        assert fs[1..][k - 1] == fs[k];
      }
    }
  }

  /** The cleanup's counts of `user_left` broadcasts, unregisters and 4002 close frames. */
  lemma CleanupCounts(sub: Subscription, leftUsers: string, forced: bool)
    ensures var c := Cleanup(sub, leftUsers, forced);
            && Count(c, IsUserLeft) == 1
            && Count(c, IsUnregister) == 1
            && Count(c, IsAbandonFrame) == (if forced then 1 else 0)
  {
    CleanupCount(sub, leftUsers, forced, IsUserLeft);
    CleanupCount(sub, leftUsers, forced, IsUnregister);
    CleanupCount(sub, leftUsers, forced, IsAbandonFrame);
  }

  /** How many of the cleanup's effects satisfy `p`, effect by effect. */
  lemma CleanupCount(sub: Subscription, leftUsers: string, forced: bool, p: Effect -> bool)
    ensures var c := Cleanup(sub, leftUsers, forced);
            Count(c, p) == (if p(c[0]) then 1 else 0) + (if p(c[1]) then 1 else 0) + (if p(c[2]) then 1 else 0)
                           + (if forced && p(c[3]) then 1 else 0) + (if p(c[|c| - 1]) then 1 else 0)
  {
    var c := Cleanup(sub, leftUsers, forced);
    var shut := [Shut(sub.conn)];
    var tail := (if forced then [Write(sub.conn, CloseFrame(CloseAbandoned, "abandoned"))] else []) + shut;
    assert c == [c[0]] + ([c[1]] + ([c[2]] + tail));
    if forced {
      assert tail == [tail[0]] + shut;
      CountCons(tail[0], shut, p);
    }
    CountCons(c[2], tail, p);
    CountCons(c[1], [c[2]] + tail, p);
    CountCons(c[0], [c[1]] + ([c[2]] + tail), p);
  }

  /** In a loop run followed by the cleanup, the cleanup's `user_left` and unregister are the only ones. */
  lemma ExitOrder(sub: Subscription, leftUsers: string, run: Step)
    requires forall i :: 0 <= i < |run.effects| ==> PumpEffect(sub, run.effects[i])
    ensures var r := run.effects + Cleanup(sub, leftUsers, run.forced);
            && (forall i, j :: 0 <= i < |r| && 0 <= j < |r| && IsUserLeft(r[i]) && IsUnregister(r[j]) ==> i < j)
            && (forall i, j :: 0 <= i < j < |r| && IsUnregister(r[i]) ==> !IsHubOp(r[j]))
            && r[|r| - 1] == Shut(sub.conn)
  {
    var s := run.effects;
    var n := |s|;
    var c := Cleanup(sub, leftUsers, run.forced);
    var r := s + c;
    assert forall i :: 0 <= i < n ==> r[i] == s[i] && PumpEffect(sub, r[i]);
    assert forall i :: n <= i < |r| ==> r[i] == c[i - n];
    assert forall i :: 0 <= i < |r| && IsUserLeft(r[i]) ==> i == n + 1;
    assert forall j :: 0 <= j < |r| && IsUnregister(r[j]) ==> j == n + 2;
    forall i, j | 0 <= i < j < |r| && IsUnregister(r[i]) ensures !IsHubOp(r[j]) {
      assert i == n + 2;
      assert r[j] == c[j - n];
    }
  }

  /**
   * However the read pump ends: exactly one `user_left` broadcast and
   * exactly one unregister, the broadcast before the unregister and no
   * hub operation after it; the 4002 close frame exactly when the loop
   * was forced closed; and the socket closed last.
   */
  lemma ReadPumpExit(handlers: set<string>, sub: Subscription, decode: Bytes -> Decoded,
                     frames: seq<Frame>, leftUsers: string)
    ensures var r := ReadPumpEffects(handlers, sub, decode, frames, leftUsers);
            var forced := Pump(handlers, sub, decode, frames).forced;
            && Count(r, IsUserLeft) == 1
            && Count(r, IsUnregister) == 1
            && Count(r, IsAbandonFrame) == (if forced then 1 else 0)
            && (forall i, j :: 0 <= i < |r| && 0 <= j < |r| && IsUserLeft(r[i]) && IsUnregister(r[j]) ==> i < j)
            && (forall i, j :: 0 <= i < j < |r| && IsUnregister(r[i]) ==> !IsHubOp(r[j]))
            && r[|r| - 1] == Shut(sub.conn)
  {
    var run := Pump(handlers, sub, decode, frames);
    ExitCounts(sub, leftUsers, run);
    ExitOrder(sub, leftUsers, run);
  }

  /** The exit counts of a loop's effects followed by the cleanup. */
  lemma ExitCounts(sub: Subscription, leftUsers: string, run: Step)
    requires forall i :: 0 <= i < |run.effects| ==> PumpEffect(sub, run.effects[i])
    ensures var r := run.effects + Cleanup(sub, leftUsers, run.forced);
            && Count(r, IsUserLeft) == 1
            && Count(r, IsUnregister) == 1
            && Count(r, IsAbandonFrame) == (if run.forced then 1 else 0)
  {
    var c := Cleanup(sub, leftUsers, run.forced);
    NoExitEffectsInLoop(sub, run.effects);
    CleanupCounts(sub, leftUsers, run.forced);
    CountAppend(run.effects, c, IsUserLeft);
    CountAppend(run.effects, c, IsUnregister);
    CountAppend(run.effects, c, IsAbandonFrame);
  }

  /** The loop itself never broadcasts `user_left`, unregisters or writes a close frame. */
  lemma NoExitEffectsInLoop(sub: Subscription, s: seq<Effect>)
    requires forall i :: 0 <= i < |s| ==> PumpEffect(sub, s[i])
    ensures Count(s, IsUserLeft) == 0 && Count(s, IsUnregister) == 0 && Count(s, IsAbandonFrame) == 0
  {
    assert forall i :: 0 <= i < |s| ==> !IsUserLeft(s[i]) && !IsUnregister(s[i]) && !IsAbandonFrame(s[i]);
  }

  /**
   * A forcing handler result without an error is still broadcast, as the
   * last step of the loop, and the pump then writes the 4002 close frame.
   */
  lemma ForcedReplyStillBroadcast(handlers: set<string>, sub: Subscription, decode: Bytes -> Decoded,
                                  fs: seq<Frame>, k: nat, leftUsers: string)
    requires FirstForced(handlers, sub, decode, fs, k)
    requires fs[k].reply.err.None?
    ensures var p := Pump(handlers, sub, decode, fs);
            p.forced && |p.effects| > 0 && p.effects[|p.effects| - 1] == HubBroadcast(sub.arena, Raw(fs[k].reply.msg))
    ensures Write(sub.conn, CloseFrame(CloseAbandoned, "abandoned")) in ReadPumpEffects(handlers, sub, decode, fs, leftUsers)
  {
    PumpStopsAtForce(handlers, sub, decode, fs, k);
    assert fs[..k + 1] == fs[..k] + [fs[k]];
    DispatchAllAppend(handlers, sub, decode, fs[..k], fs[k]);
    var p := Pump(handlers, sub, decode, fs);
    var pre := DispatchAll(handlers, sub, decode, fs[..k]);
    var st := Dispatch(handlers, sub, decode, fs[k]);
    assert p.effects == pre + st.effects;
    assert RunsHandler(handlers, decode, fs[k]);
    DispatchOutcomes(handlers, sub, decode, fs[k]);
    assert p.effects[|p.effects| - 1] == st.effects[|st.effects| - 1];
    var c := Cleanup(sub, leftUsers, true);
    var abandon := Write(sub.conn, CloseFrame(CloseAbandoned, "abandoned"));
    assert abandon in c;
    assert ReadPumpEffects(handlers, sub, decode, fs, leftUsers) == p.effects + c;
  }
}
