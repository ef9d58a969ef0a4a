/**
 * The API bridge (`APIEvent` in http/storyboard/client.go): an event that
 * arrives through the REST API runs the same facilitator check and the
 * same handler as a websocket event, and its result is broadcast only
 * when the storyboard has an entry in the hub's registry.
 */
module Api {
  import opened Protocol

  /** The error `APIEvent` returns and the effects it has, in order. */
  datatype ApiOutcome = ApiOutcome(err: Option<Error>, effects: seq<Effect>)

  /**
   * `live` is whether `arenaId` is a key of the hub's registry,
   * `facilitator` the facilitator check's answer and `reply` the handler's.
   */
  function ApiEvent(handlers: set<string>, live: bool, arenaId: string, userId: string,
                    kind: string, value: string, facilitator: Option<Error>, reply: Reply): (r: ApiOutcome)
    // a failed facilitator check is returned and the handler never runs
    ensures IsOwnerOnly(kind) && facilitator.Some? ==>
              r == ApiOutcome(facilitator, [Called(ConfirmFacilitator(arenaId, userId))])
    // the facilitator check, when it runs, comes first
    ensures IsOwnerOnly(kind) ==> |r.effects| > 0 && r.effects[0] == Called(ConfirmFacilitator(arenaId, userId))
    // nothing is written to any connection, whatever the handler's forceClosed says
    ensures forall i :: 0 <= i < |r.effects| ==> !r.effects[i].Write? && !r.effects[i].Shut?
    // the only effects are the check, the handler run and the handler's payload broadcast to this storyboard
    ensures forall i :: 0 <= i < |r.effects| ==>
              IsFacilitatorCheck(r.effects[i]) || IsHandlerRun(r.effects[i]) ||
              r.effects[i] == HubBroadcast(arenaId, Raw(reply.msg))
    // ... and a broadcast can only be the last effect
    ensures forall i :: 0 <= i < |r.effects| - 1 ==> !r.effects[i].HubBroadcast?
  {
    var check := if IsOwnerOnly(kind) then [Called(ConfirmFacilitator(arenaId, userId))] else [];
    if IsOwnerOnly(kind) && facilitator.Some? then ApiOutcome(facilitator, check)
    else if kind !in handlers then ApiOutcome(None, check)
    else
      var run := check + [Called(RunHandler(kind, arenaId, userId, value))];
      if reply.err.Some? then ApiOutcome(reply.err, run)
      else if live then ApiOutcome(None, run + [HubBroadcast(arenaId, Raw(reply.msg))])
      else ApiOutcome(None, run)
  }

  /** The decisions of `APIEvent`: what it returns, what it runs and what it broadcasts. */
  lemma ApiEventOutcomes(handlers: set<string>, live: bool, arenaId: string, userId: string,
                         kind: string, value: string, facilitator: Option<Error>, reply: Reply)
    ensures var r := ApiEvent(handlers, live, arenaId, userId, kind, value, facilitator, reply);
            var passes := !(IsOwnerOnly(kind) && facilitator.Some?);
    // an unknown type returns nil and broadcasts nothing
    && (passes && kind !in handlers ==> r.err.None? && Count(r.effects, IsBroadcast) == 0)
    // a handler error is returned and nothing is broadcast
    && (passes && kind in handlers && reply.err.Some? ==> r.err == reply.err && Count(r.effects, IsBroadcast) == 0)
    // a success returns nil, and is broadcast exactly when the storyboard is live
    && (passes && kind in handlers && reply.err.None? ==>
          r.err.None? &&
          (HubBroadcast(arenaId, Raw(reply.msg)) in r.effects <==> live) &&
          Count(r.effects, IsBroadcast) == (if live then 1 else 0))
    // the handler runs exactly when the type is known and the check, if any, passed; live or not
    && Count(r.effects, IsHandlerRun) == (if passes && kind in handlers then 1 else 0)
    // ... with the caller's storyboard, user and value
    && (forall i :: 0 <= i < |r.effects| && IsHandlerRun(r.effects[i]) ==>
          r.effects[i] == Called(RunHandler(kind, arenaId, userId, value)))
    // the facilitator check runs exactly for owner-only types
    && Count(r.effects, IsFacilitatorCheck) == (if IsOwnerOnly(kind) then 1 else 0)
  {
    var r := ApiEvent(handlers, live, arenaId, userId, kind, value, facilitator, reply);
    var check := if IsOwnerOnly(kind) then [Called(ConfirmFacilitator(arenaId, userId))] else [];
    var call := [Called(RunHandler(kind, arenaId, userId, value))];
    var out := [HubBroadcast(arenaId, Raw(reply.msg))];
    if !(IsOwnerOnly(kind) && facilitator.Some?) && kind in handlers {
      var run := check + call;
      CountAppend(check, call, IsBroadcast);
      CountAppend(check, call, IsHandlerRun);
      CountAppend(check, call, IsFacilitatorCheck);
      if reply.err.None? && live {
        assert r.effects == run + out;
        CountAppend(run, out, IsBroadcast);
        CountAppend(run, out, IsHandlerRun);
        CountAppend(run, out, IsFacilitatorCheck);
        assert r.effects[|run|] == out[0];
      }
    }
  }
}
