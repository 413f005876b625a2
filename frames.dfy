/**
 * Classification of the text frames the upstream socket delivers (main.py:94-101).
 * The wire format is Socket.IO over Engine.IO: `3` is an Engine.IO pong, `40/livesms`
 * a Socket.IO CONNECT acknowledgment for namespace `/livesms`, and `42/livesms,`
 * followed by a JSON array a Socket.IO EVENT on that namespace.
 */
module Frames {
  import opened Text

  const HeartbeatToken: string := "3"
  const JoinAckPrefix: string := "40/livesms"
  /** The Socket.IO CONNECT frame for the namespace, sent when the socket opens. */
  const NamespaceJoin: string := "40/livesms"
  const EventPrefix: string := "42/livesms,"

  datatype Frame = Heartbeat | JoinAck | Event(payload: string) | Unrecognized

  /** The tests of `on_message`, in their order. */
  function Classify(msg: string): Frame {
    if msg == HeartbeatToken then Heartbeat
    else if StartsWith(msg, JoinAckPrefix) then JoinAck
    else if StartsWith(msg, EventPrefix) then Event(msg[|EventPrefix|..])
    else Unrecognized
  }

  /** A canonical frame of each recognised kind. */
  function Render(f: Frame): string {
    match f
    case Heartbeat => HeartbeatToken
    case JoinAck => JoinAckPrefix
    case Event(p) => EventPrefix + p
    case Unrecognized => ""
  }

  /** Each kind is recognised by exactly its own test; an event's payload is the frame minus the 11-character prefix. */
  lemma ClassifyCharacterised(msg: string)
    ensures Classify(msg) == Heartbeat <==> msg == "3"
    ensures Classify(msg) == JoinAck <==> StartsWith(msg, "40/livesms")
    ensures Classify(msg).Event? <==> StartsWith(msg, "42/livesms,")
    ensures Classify(msg).Event? ==> |EventPrefix| == 11 && msg == "42/livesms," + Classify(msg).payload
    ensures Classify(msg) == Unrecognized <==>
      msg != "3" && !StartsWith(msg, "40/livesms") && !StartsWith(msg, "42/livesms,")
  {
    if StartsWith(msg, JoinAckPrefix) {
      assert msg[1] == '0';
    }
    if StartsWith(msg, EventPrefix) {
      assert msg[1] == '2';
      assert msg == EventPrefix + msg[|EventPrefix|..];
    }
  }

  /** Classification undoes rendering for every recognised frame: no frame kind shadows another. */
  lemma ClassifyRender(f: Frame)
    requires !f.Unrecognized?
    ensures Classify(Render(f)) == f
  {
    match f
    case Heartbeat =>
    case JoinAck =>
      assert StartsWith(JoinAckPrefix, JoinAckPrefix);
    case Event(p) =>
      var m := EventPrefix + p;
      assert m[1] == '2';
      assert StartsWith(m, EventPrefix);
      assert m[|EventPrefix|..] == p;
  }

  /** An event frame is exactly its prefix followed by the payload. */
  lemma EventIff(msg: string, p: string)
    ensures Classify(msg) == Event(p) <==> msg == EventPrefix + p
  {
    if msg == EventPrefix + p {
      ClassifyRender(Event(p));
    } else if Classify(msg) == Event(p) {
      ClassifyCharacterised(msg);
    }
  }
}
