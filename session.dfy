/**
 * The keepalive flag `start_pinging` and the callbacks that write it (main.py:65-157).
 * `Relay` holds the module-level flag together with what one connection exposes to the
 * callbacks: `ws.keep_running`, whether its `send_ping` loop is still looping, and the
 * frames written to the socket. The threads are not modelled as such: each method is one
 * callback or one pass of the ping loop, and any interleaving of them is a sequence of calls.
 */
module Session {
  import opened Text
  import opened Json
  import opened Frames
  import opened Handler
  import opened Delivery
  import Alert

  /** What happened on the relay, as far as the flag is concerned. */
  datatype Event = Opened | Received(msg: string) | Closed | Pinged

  predicate IsReset(e: Event) {
    e == Opened || e == Closed
  }

  predicate IsJoinAck(e: Event) {
    e.Received? && Classify(e.msg) == JoinAck
  }

  /** The value of `start_pinging` after a history, event by event. */
  function FlagAfter(h: seq<Event>): bool
    decreases |h|
  {
    if |h| == 0 then false
    else
      var e := h[|h| - 1];
      if IsReset(e) then false
      else if IsJoinAck(e) then true
      else FlagAfter(h[..|h| - 1])
  }

  /** A namespace-join acknowledgment has arrived since the last open or close. */
  ghost predicate JoinedSinceReset(h: seq<Event>) {
    exists i :: 0 <= i < |h| && IsJoinAck(h[i]) && forall j :: i < j < |h| ==> !IsReset(h[j])
  }

  /** The flag is set exactly when a join-ack has arrived since the last reset. */
  lemma {:induction false} FlagMeansJoined(h: seq<Event>)
    ensures FlagAfter(h) <==> JoinedSinceReset(h)
    decreases |h|
  {
    if |h| > 0 {
      var n := |h| - 1;
      var h' := h[..n];
      var e := h[n];
      assert forall i :: 0 <= i < n ==> h'[i] == h[i];
      if IsReset(e) {
        if JoinedSinceReset(h) {
          var i :| 0 <= i < |h| && IsJoinAck(h[i]) && forall j :: i < j < |h| ==> !IsReset(h[j]);
          assert false;
        }
      } else if IsJoinAck(e) {
        assert IsJoinAck(h[n]);
      } else {
        FlagMeansJoined(h');
        if JoinedSinceReset(h) {
          var i :| 0 <= i < |h| && IsJoinAck(h[i]) && forall j :: i < j < |h| ==> !IsReset(h[j]);
          assert i < n && IsJoinAck(h'[i]);
          assert JoinedSinceReset(h');
        }
        if JoinedSinceReset(h') {
          var i :| 0 <= i < |h'| && IsJoinAck(h'[i]) && forall j :: i < j < |h'| ==> !IsReset(h'[j]);
          assert IsJoinAck(h[i]);
          assert forall j :: i < j < |h| ==> !IsReset(h[j]);
        }
      }
    }
  }

  /** Every ping in the history was sent after a join-ack with no open or close since. */
  ghost predicate PingsGated(h: seq<Event>) {
    forall i :: 0 <= i < |h| && h[i] == Pinged ==> JoinedSinceReset(h[..i])
  }

  lemma PingsGatedAppend(h: seq<Event>, e: Event)
    requires PingsGated(h)
    requires e == Pinged ==> JoinedSinceReset(h)
    ensures PingsGated(h + [e])
  {
    var h2 := h + [e];
    forall i | 0 <= i < |h2| && h2[i] == Pinged ensures JoinedSinceReset(h2[..i]) {
      if i < |h| {
        assert h2[..i] == h[..i];
      } else {
        assert h2[..i] == h;
      }
    }
  }

  class Relay {
    /** `start_pinging`. */
    var startPinging: bool
    /** `ws.keep_running` of the current connection. */
    var keepRunning: bool
    /** The `send_ping` loop of the current connection has not left its loop. */
    var pinging: bool
    /** Frames written to the upstream socket, oldest first. */
    var sent: seq<string>
    /** Alert texts handed to `send_to_telegram`, oldest first. */
    var alerts: seq<string>
    ghost var history: seq<Event>

    ghost predicate Valid()
      reads this
    {
      startPinging == FlagAfter(history) && PingsGated(history)
    }

    /** The state at import time: `start_pinging = False`, no connection yet. */
    constructor ()
      ensures Valid() && history == []
      ensures !startPinging && !keepRunning && !pinging && sent == [] && alerts == []
    {
      startPinging, keepRunning, pinging := false, false, false;
      sent, alerts := [], [];
      history := [];
    }

    /** `on_open`: reset the flag, send the namespace join and the auth frame, start the ping loop. */
    method OnOpen(auth: string)
      requires Valid()
      modifies this
      ensures Valid() && history == old(history) + [Opened]
      ensures !startPinging && keepRunning && pinging
      ensures sent == old(sent) + [NamespaceJoin, auth] && alerts == old(alerts)
    {
      PingsGatedAppend(history, Opened);
      startPinging := false;
      sent := sent + [NamespaceJoin, auth];
      keepRunning, pinging := true, true;
      history := history + [Opened];
    }

    /**
     * `on_message`: a join-ack sets the flag and nothing else touches it; an alert, when the
     * frame yields one, goes to the delivery loop with its default three attempts.
     */
    method OnMessage(msg: string, loads: string -> Option<Json>, now: Alert.Clock, attempt: nat -> Attempt)
      returns (r: Reaction, delivered: bool)
      requires Valid()
      modifies this
      ensures Valid() && history == old(history) + [Received(msg)]
      ensures r == Handle(msg, loads, now)
      ensures startPinging == (r == Joined || old(startPinging))
      ensures alerts == if r.Deliver? then old(alerts) + [r.alert] else old(alerts)
      ensures delivered <==> r.Deliver? && exists k :: 0 <= k < 3 && Succeeded(attempt(k))
      ensures sent == old(sent) && keepRunning == old(keepRunning) && pinging == old(pinging)
    {
      r := Handle(msg, loads, now);
      ClassifyCharacterised(msg);
      HandleNonEvent(msg, loads, now);
      PingsGatedAppend(history, Received(msg));
      if Classify(msg) == JoinAck {
        startPinging := true;
      }
      history := history + [Received(msg)];
      delivered := false;
      if r.Deliver? {
        alerts := alerts + [r.alert];
        var tried, pauses, waited;
        delivered, tried, pauses, waited := SendToTelegram(attempt, DefaultRetries, DefaultDelay);
      }
    }

    /** `on_close`: reset the flag; the connection stops running. */
    method OnClose()
      requires Valid()
      modifies this
      ensures Valid() && history == old(history) + [Closed]
      ensures !startPinging && !keepRunning && pinging == old(pinging)
      ensures sent == old(sent) && alerts == old(alerts)
    {
      PingsGatedAppend(history, Closed);
      startPinging, keepRunning := false, false;
      history := history + [Closed];
    }

    /**
     * One pass of the `send_ping` loop: leave when the connection stopped running; send "3"
     * while the flag is set, leaving the loop when that send raises; otherwise wait.
     */
    method PingTick(sendOk: bool) returns (pinged: bool)
      requires Valid()
      modifies this
      ensures Valid()
      ensures pinged <==> old(pinging && keepRunning && startPinging) && sendOk
      ensures pinged ==> JoinedSinceReset(old(history))
      ensures sent == (if pinged then old(sent) + [HeartbeatToken] else old(sent))
      ensures history == (if pinged then old(history) + [Pinged] else old(history))
      ensures pinging == (old(pinging) && old(keepRunning) && (old(startPinging) ==> sendOk))
      ensures startPinging == old(startPinging) && keepRunning == old(keepRunning) && alerts == old(alerts)
    {
      pinged := false;
      if !pinging {
        return;
      }
      if !keepRunning {
        pinging := false;
        return;
      }
      if startPinging {
        if sendOk {
          FlagMeansJoined(history);
          PingsGatedAppend(history, Pinged);
          sent := sent + [HeartbeatToken];
          history := history + [Pinged];
          pinged := true;
        } else {
          pinging := false;
        }
      }
    }
  }

  /**
   * After an open, the flag stays down until a join-ack arrives, whatever else is received,
   * closed or attempted meanwhile; so PingTick sends nothing in that stretch.
   */
  lemma {:induction false} FlagDownUntilJoin(h: seq<Event>, rest: seq<Event>)
    requires forall j :: 0 <= j < |rest| ==> !IsJoinAck(rest[j])
    ensures !FlagAfter(h + [Opened] + rest)
    decreases |rest|
  {
    var all := h + [Opened] + rest;
    if |rest| > 0 {
      assert all[..|all| - 1] == h + [Opened] + rest[..|rest| - 1];
      assert all[|all| - 1] == rest[|rest| - 1];
      FlagDownUntilJoin(h, rest[..|rest| - 1]);
    } else {
      assert all[|all| - 1] == Opened;
    }
  }
}
