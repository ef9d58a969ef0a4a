/**
 * The write pump (`writePump` in http/storyboard/client.go): a loop over
 * what the connection's send queue and its ping ticker deliver. A queued
 * message is written as a text frame, a tick as a ping; a closed queue
 * gets one empty close frame and ends the pump whatever that write
 * returns; any other failed write ends the pump. On return the socket is
 * closed. When the script runs out the pump is still waiting, so nothing
 * more happens.
 */
module Egress {
  import opened Protocol

  /** One event the write pump's `select` can take. */
  datatype Outbound =
    | Queued(payload: Payload, writeOk: bool)
    | QueueClosed
    | Tick(writeOk: bool)

  /** The frame written for one event. */
  function WriteOf(conn: ConnId, ev: Outbound): Effect
  {
    match ev
    case Queued(p, _) => Write(conn, Text(p))
    case QueueClosed => Write(conn, EmptyClose)
    case Tick(_) => Write(conn, Ping)
  }

  /** The event ends the pump: the queue closed or a write failed. */
  predicate Stops(ev: Outbound)
  {
    ev.QueueClosed? || !ev.writeOk
  }

  datatype EgressRun = EgressRun(effects: seq<Effect>, stopped: bool)

  /** The write pump over a script of events. */
  function WritePumpRun(conn: ConnId, evs: seq<Outbound>): (r: EgressRun)
    ensures r.stopped <==> exists k :: 0 <= k < |evs| && Stops(evs[k])
    ensures r.stopped ==> |r.effects| > 0 && r.effects[|r.effects| - 1] == Shut(conn)
    ensures forall i :: 0 <= i < |r.effects| && r.effects[i] == Shut(conn) ==> r.stopped && i == |r.effects| - 1
    decreases |evs|
  {
    if evs == [] then EgressRun([], false)
    else if Stops(evs[0]) then EgressRun([WriteOf(conn, evs[0]), Shut(conn)], true)
    else
      var tail := WritePumpRun(conn, evs[1..]);
      assert forall k :: 1 <= k < |evs| ==> evs[1..][k - 1] == evs[k];
      EgressRun([WriteOf(conn, evs[0])] + tail.effects, tail.stopped)
  }

  /** One pass of the write loop over event `i`, appended to the effects `done` so far. */
  lemma EgressAdvance(conn: ConnId, evs: seq<Outbound>, i: nat, done: seq<Effect>)
    requires i < |evs|
    ensures Stops(evs[i]) ==>
              WritePumpRun(conn, evs[i..]) == EgressRun([WriteOf(conn, evs[i]), Shut(conn)], true)
    ensures !Stops(evs[i]) ==>
              var here := WritePumpRun(conn, evs[i..]);
              var tail := WritePumpRun(conn, evs[i + 1..]);
              && here.stopped == tail.stopped
              && done + here.effects == (done + [WriteOf(conn, evs[i])]) + tail.effects
  {
    var es := evs[i..];
    assert es[0] == evs[i] && es[1..] == evs[i + 1..];
    if !Stops(evs[i]) {
      var tail := WritePumpRun(conn, evs[i + 1..]);
      assert WritePumpRun(conn, es).effects == [WriteOf(conn, evs[i])] + tail.effects;
      assert done + ([WriteOf(conn, evs[i])] + tail.effects) == (done + [WriteOf(conn, evs[i])]) + tail.effects;
    }
  }

  /** Reference: the frames for every event of `evs`, in order. */
  function Writes(conn: ConnId, evs: seq<Outbound>): seq<Effect>
  {
    seq(|evs|, i requires 0 <= i < |evs| => WriteOf(conn, evs[i]))
  }

  /** `k` is the first event that ends the pump. */
  predicate FirstStop(evs: seq<Outbound>, k: nat)
  {
    k < |evs| && Stops(evs[k]) && forall j :: 0 <= j < k ==> !Stops(evs[j])
  }

  /**
   * The pump stops at the first event that ends it: every event up to and
   * including that one is written, in order, then the socket is closed,
   * and no later event is looked at.
   */
  lemma {:induction false} StopsAtFirstStop(conn: ConnId, evs: seq<Outbound>, k: nat)
    requires FirstStop(evs, k)
    ensures WritePumpRun(conn, evs) == EgressRun(Writes(conn, evs[..k + 1]) + [Shut(conn)], true)
  {
    if k == 0 {
      assert evs[..1] == [evs[0]];
    } else {
      assert !Stops(evs[0]);
      assert FirstStop(evs[1..], k - 1) by {
        assert evs[1..][k - 1] == evs[k];
        forall j | 0 <= j < k - 1 ensures !Stops(evs[1..][j]) {
          assert evs[1..][j] == evs[j + 1];
        }
      }
      StopsAtFirstStop(conn, evs[1..], k - 1);
      assert Writes(conn, evs[..k + 1]) == [WriteOf(conn, evs[0])] + Writes(conn, evs[1..][..k]);
    }
  }

  /** Without an ending event every event is written and the pump keeps waiting, the socket open. */
  lemma {:induction false} RunsWithoutStop(conn: ConnId, evs: seq<Outbound>)
    requires forall j :: 0 <= j < |evs| ==> !Stops(evs[j])
    ensures WritePumpRun(conn, evs) == EgressRun(Writes(conn, evs), false)
  {
    if evs != [] {
      assert !Stops(evs[0]);
      forall j | 0 <= j < |evs| - 1 ensures !Stops(evs[1..][j]) {
        assert evs[1..][j] == evs[j + 1];
      }
      RunsWithoutStop(conn, evs[1..]);
      assert Writes(conn, evs) == [WriteOf(conn, evs[0])] + Writes(conn, evs[1..]);
    }
  }

  predicate IsPing(e: Effect)
  {
    e.Write? && e.frame.Ping?
  }

  predicate IsEmptyClose(e: Effect)
  {
    e.Write? && e.frame.EmptyClose?
  }

  /** The number of ticks in `evs`. */
  function Ticks(evs: seq<Outbound>): (n: nat)
  {
    if evs == [] then 0 else (if evs[0].Tick? then 1 else 0) + Ticks(evs[1..])
  }

  /** The number of closed-queue events in `evs`. */
  function Closings(evs: seq<Outbound>): (n: nat)
  {
    if evs == [] then 0 else (if evs[0].QueueClosed? then 1 else 0) + Closings(evs[1..])
  }

  /** Writing a script of events writes one ping per tick and one close frame per closed queue. */
  lemma {:induction false} WritesCount(conn: ConnId, evs: seq<Outbound>)
    ensures Count(Writes(conn, evs), IsPing) == Ticks(evs)
    ensures Count(Writes(conn, evs), IsEmptyClose) == Closings(evs)
  {
    if evs != [] {
      WritesCount(conn, evs[1..]);
      assert Writes(conn, evs) == [WriteOf(conn, evs[0])] + Writes(conn, evs[1..]);
      CountCons(WriteOf(conn, evs[0]), Writes(conn, evs[1..]), IsPing);
      CountCons(WriteOf(conn, evs[0]), Writes(conn, evs[1..]), IsEmptyClose);
    }
  }

  /**
   * What the pump writes over the events it consumes: one ping per tick
   * and a close frame only when the send queue was closed, in which case
   * it is the last frame before the socket closes.
   */
  lemma PingsAndCloseFrame(conn: ConnId, evs: seq<Outbound>, k: nat)
    requires FirstStop(evs, k)
    ensures var r := WritePumpRun(conn, evs);
            && Count(r.effects, IsPing) == Ticks(evs[..k + 1])
            && Count(r.effects, IsEmptyClose) == (if evs[k].QueueClosed? then 1 else 0)
            && r.effects[|r.effects| - 2] == WriteOf(conn, evs[k])
  {
    StopsAtFirstStop(conn, evs, k);
    ConsumedCounts(conn, evs, k);
    LastConsumedWrite(conn, evs[..k + 1]);
  }

  /** The frame before the socket close is the last consumed event's. */
  lemma LastConsumedWrite(conn: ConnId, consumed: seq<Outbound>)
    requires |consumed| > 0
    ensures var effects := Writes(conn, consumed) + [Shut(conn)];
            effects[|effects| - 2] == WriteOf(conn, consumed[|consumed| - 1])
  {
    var w := Writes(conn, consumed);
    assert (w + [Shut(conn)])[|w| - 1] == w[|w| - 1];
  }

  /** The ping and close-frame counts of the consumed events' writes followed by the socket close. */
  lemma ConsumedCounts(conn: ConnId, evs: seq<Outbound>, k: nat)
    requires FirstStop(evs, k)
    ensures var effects := Writes(conn, evs[..k + 1]) + [Shut(conn)];
            && Count(effects, IsPing) == Ticks(evs[..k + 1])
            && Count(effects, IsEmptyClose) == (if evs[k].QueueClosed? then 1 else 0)
  {
    var consumed := evs[..k + 1];
    var w := Writes(conn, consumed);
    WritesCount(conn, consumed);
    CountAppend(w, [Shut(conn)], IsPing);
    CountAppend(w, [Shut(conn)], IsEmptyClose);
    ClosingsOfConsumed(evs, k);
  }

  /** Among the consumed events, only the last can be a closed queue. */
  lemma ClosingsOfConsumed(evs: seq<Outbound>, k: nat)
    requires FirstStop(evs, k)
    ensures Closings(evs[..k + 1]) == (if evs[k].QueueClosed? then 1 else 0)
  {
    ZeroClosings(evs[..k]);
    assert evs[..k + 1] == evs[..k] + [evs[k]];
    ClosingsAppend(evs[..k], evs[k]);
  }

  lemma {:induction false} ZeroClosings(evs: seq<Outbound>)
    requires forall j :: 0 <= j < |evs| ==> !evs[j].QueueClosed?
    ensures Closings(evs) == 0
  {
    if evs != [] {
      assert forall j :: 0 <= j < |evs| - 1 ==> evs[1..][j] == evs[j + 1];
      ZeroClosings(evs[1..]);
    }
  }

  lemma {:induction false} ClosingsAppend(evs: seq<Outbound>, ev: Outbound)
    ensures Closings(evs + [ev]) == Closings(evs) + (if ev.QueueClosed? then 1 else 0)
  {
    if evs == [] {
      assert [ev][1..] == [];
    } else {
      assert (evs + [ev])[1..] == evs[1..] + [ev];
      ClosingsAppend(evs[1..], ev);
    }
  }
}
