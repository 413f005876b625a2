/**
 * `on_message` of main.py:92-147 as a pure function of the frame, of `json.loads`
 * (a parameter: None is a parse failure) and of the wall-clock reading. Its effect on the
 * keepalive flag is modelled in the Session module; here it yields what the handler does.
 */
module Handler {
  import opened Text
  import opened Json
  import opened Frames
  import Otp
  import opened Alert

  /** Why an event frame produced no alert. */
  datatype Drop =
    | NotJson            // json.loads raised
    | UnexpectedFormat   // not a list of two or more with a dict at index 1
    | FieldTypeError     // .upper(), re.search or the recipient mask raised on a non-str value

  /** What the handler does with one frame; only Deliver hands text to the delivery client. */
  datatype Reaction = Pong | Joined | Ignored | Dropped(reason: Drop) | Deliver(alert: string)

  /** The fields of an event after `.get` with defaults and upper-casing (main.py:105-109). */
  datatype Sms = Sms(message: string, originator: string, recipient: Json, country: string)

  /** The shape guard of main.py:104. */
  predicate WellShaped(data: Json) {
    data.JArr? && |data.items| > 1 && data.items[1].JObj?
  }

  function DecodeSms(data: Json): (r: Result<Sms, Drop>)
    ensures r == Err(UnexpectedFormat) <==> !WellShaped(data)
    ensures r.Err? ==> r.error == UnexpectedFormat || r.error == FieldTypeError
  {
    if !WellShaped(data) then Err(UnexpectedFormat)
    else
      var ms := data.items[1].members;
      var message := GetOr(ms, "message", JStr(""));
      var originator := GetOr(ms, "originator", JStr("Unknown"));
      var recipient := GetOr(ms, "recipient", JStr(""));
      var country := GetOr(ms, "country_iso", JStr("??"));
      if !country.JStr? || !message.JStr? then Err(FieldTypeError)
      else Ok(Sms(message.s, Str(originator), recipient, Upper(country.s)))
  }

  /** The alert built for a decoded event and its masked recipient. */
  function FieldsOf(sms: Sms, masked: string, now: Clock): Fields {
    Fields(sms.country, sms.originator, Otp.Extract(sms.message), Hms(now),
           masked, Service(sms.message), sms.message)
  }

  function Handle(msg: string, loads: string -> Option<Json>, now: Clock): Reaction {
    match Classify(msg)
    case Heartbeat => Pong
    case JoinAck => Joined
    case Unrecognized => Ignored
    case Event(payload) =>
      match loads(payload)
      case None => Dropped(NotJson)
      case Some(data) =>
        match DecodeSms(data)
        case Err(e) => Dropped(e)
        case Ok(sms) =>
          match MaskRecipient(sms.recipient)
          case None => Dropped(FieldTypeError)
          case Some(masked) => Deliver(Template(FieldsOf(sms, masked, now)))
  }

  /** Frames other than events are answered in the fixed order of the tests, and never produce an alert. */
  lemma HandleNonEvent(msg: string, loads: string -> Option<Json>, now: Clock)
    ensures msg == "3" ==> Handle(msg, loads, now) == Pong
    ensures StartsWith(msg, "40/livesms") ==> Handle(msg, loads, now) == Joined
    ensures msg != "3" && !StartsWith(msg, "40/livesms") && !StartsWith(msg, "42/livesms,")
            ==> Handle(msg, loads, now) == Ignored
  {
  }

  /**
   * An alert is produced only for an event frame whose payload (exactly the text after the
   * prefix) parses to a list of length > 1 with a dict at index 1; a parse failure or any
   * other shape drops the frame without raising.
   */
  lemma HandleGuard(msg: string, loads: string -> Option<Json>, now: Clock)
    ensures Handle(msg, loads, now).Deliver? ==>
      StartsWith(msg, "42/livesms,") && loads(msg[11..]).Some? && WellShaped(loads(msg[11..]).value)
    ensures StartsWith(msg, "42/livesms,") && loads(msg[11..]).None? ==>
      Handle(msg, loads, now) == Dropped(NotJson)
    ensures StartsWith(msg, "42/livesms,") && loads(msg[11..]).Some? && !WellShaped(loads(msg[11..]).value) ==>
      Handle(msg, loads, now) == Dropped(UnexpectedFormat)
  {
    ClassifyCharacterised(msg);
    if StartsWith(msg, EventPrefix) {
      assert Classify(msg) == Event(msg[11..]);
    }
  }

  /** `.get(key)` found nothing, or found a str. */
  predicate AbsentOrStr(v: Option<Json>) {
    v.None? || v.value.JStr?
  }

  /**
   * A frame of the right shape decodes exactly when `message` and `country_iso` are each
   * absent or a str; `originator` and `recipient` may hold any value.
   */
  lemma DecodeOkIff(data: Json)
    ensures DecodeSms(data).Ok? <==>
      WellShaped(data)
      && AbsentOrStr(Get(data.items[1].members, "message"))
      && AbsentOrStr(Get(data.items[1].members, "country_iso"))
  {
  }

  /** `message` defaults to "" and is otherwise the str stored under the key. */
  lemma DecodeMessage(data: Json)
    requires DecodeSms(data).Ok?
    ensures var v := Get(data.items[1].members, "message");
      var m := DecodeSms(data).value.message;
      (v.None? ==> m == "") && (v.Some? ==> v == Some(JStr(m)))
  {
  }

  /** `originator` defaults to "Unknown"; a stored str is taken as it is, any other value as its `str`. */
  lemma DecodeOriginator(data: Json)
    requires DecodeSms(data).Ok?
    ensures var v := Get(data.items[1].members, "originator");
      var o := DecodeSms(data).value.originator;
      (v.None? ==> o == "Unknown") && (v.Some? ==> o == Str(v.value))
      && (v.Some? && v.value.JStr? ==> o == v.value.s)
  {
  }

  /** `recipient` defaults to "" and is otherwise the value stored under the key, of any type. */
  lemma DecodeRecipient(data: Json)
    requires DecodeSms(data).Ok?
    ensures var v := Get(data.items[1].members, "recipient");
      var r := DecodeSms(data).value.recipient;
      (v.None? ==> r == JStr("")) && (v.Some? ==> r == v.value)
  {
  }

  /** `country_iso` defaults to "??"; a stored str is upper-cased, leaving no lower-case letter. */
  lemma DecodeCountry(data: Json)
    requires DecodeSms(data).Ok?
    ensures var v := Get(data.items[1].members, "country_iso");
      var c := DecodeSms(data).value.country;
      (v.None? ==> c == "??")
      && (v.Some? ==> v.value.JStr? && c == Upper(v.value.s))
      && forall i :: 0 <= i < |c| ==> !('a' <= c[i] <= 'z')
  {
  }

  /** A present `message` or `country_iso` that is not a str makes the handler drop the frame. */
  lemma DecodeTypeError(data: Json)
    requires WellShaped(data)
    requires var ms := data.items[1].members;
      (Get(ms, "message").Some? && !Get(ms, "message").value.JStr?)
      || (Get(ms, "country_iso").Some? && !Get(ms, "country_iso").value.JStr?)
    ensures DecodeSms(data) == Err(FieldTypeError)
  {
  }

  /**
   * A delivered alert carries the decoded event: its code field is the OTP scan of the
   * message, and the body recovered from the alert text is the raw message itself.
   */
  lemma HandleAlert(msg: string, loads: string -> Option<Json>, now: Clock, payload: string, data: Json)
    requires msg == EventPrefix + payload && loads(payload) == Some(data)
    requires DecodeSms(data).Ok? && MaskRecipient(DecodeSms(data).value.recipient).Some?
    ensures var sms := DecodeSms(data).value;
      var f := FieldsOf(sms, MaskRecipient(sms.recipient).value, now);
      Handle(msg, loads, now) == Deliver(Template(f))
      && f.code == Otp.Extract(sms.message)
      && BodyOf(Template(f)) == Some(sms.message)
  {
    EventIff(msg, payload);
    var sms := DecodeSms(data).value;
    BodyOfTemplate(FieldsOf(sms, MaskRecipient(sms.recipient).value, now));
  }

  const SampleLead: string := "Your WhatsApp code is "
  const SampleMessage: string := SampleLead + "123-456"

  /** The decoded form of `["sms",{"message":…,"originator":"WhatsApp","recipient":"15551234567","country_iso":"us"}]`. */
  const SampleData: Json := JArr([JStr("sms"), JObj([
    Member("message", JStr(SampleMessage)),
    Member("originator", JStr("WhatsApp")),
    Member("recipient", JStr("15551234567")),
    Member("country_iso", JStr("us"))])])

  /** A split code after text without digits, ending the message, is the code found. */
  lemma CodeAfterPlainText(p: string, code: string)
    requires |p| > 0 && !IsWordChar(p[|p| - 1])
    requires forall k :: 0 <= k < |p| ==> !IsAsciiDigit(p[k])
    requires |code| == 7 && Otp.DigitsAt(code, 0, 3) && Otp.IsSeparator(code[3]) && Otp.DigitsAt(code, 4, 3)
    ensures Otp.Extract(p + code) == code
  {
    var s := p + code;
    assert forall k :: 0 <= k < 7 ==> s[|p| + k] == code[k];
    assert Otp.SplitAt(s, |p|);
    forall i | 0 <= i < |p| ensures !Otp.Matches(s, i) {
      assert s[i] == p[i];
    }
    Otp.ExtractLeftmost(s, |p|);
    assert s[|p|..|p| + 7] == code;
  }

  lemma SampleCode()
    ensures Otp.Extract(SampleMessage) == "123-456"
  {
    var p := SampleLead;
    assert forall k :: 0 <= k < |p| ==> !IsAsciiDigit(p[k]);
    CodeAfterPlainText(p, "123-456");
  }

  lemma LowerAppend(a: string, b: string)
    ensures Lower(a + b) == Lower(a) + Lower(b)
  {
  }

  lemma SampleService()
    ensures Service(SampleMessage) == "WhatsApp"
  {
    var rest := " code is " + "123-456";
    assert SampleMessage == "Your " + "WhatsApp" + rest;
    LowerAppend("Your " + "WhatsApp", rest);
    LowerAppend("Your ", "WhatsApp");
    assert Lower("WhatsApp") == "whatsapp";
    var l := Lower(SampleMessage);
    assert l == Lower("Your ") + "whatsapp" + Lower(rest);
    assert l[5..] == "whatsapp" + Lower(rest);
    assert StartsWith(l[5..], "whatsapp");
  }

  const SampleMembers: seq<Member> := SampleData.items[1].members

  lemma SampleLookups()
    ensures GetOr(SampleMembers, "message", JStr("")) == JStr(SampleMessage)
    ensures GetOr(SampleMembers, "originator", JStr("Unknown")) == JStr("WhatsApp")
    ensures GetOr(SampleMembers, "recipient", JStr("")) == JStr("15551234567")
    ensures GetOr(SampleMembers, "country_iso", JStr("??")) == JStr("us")
  {
    var ms := SampleMembers;
    assert Get(ms, "message") == Some(JStr(SampleMessage));
    assert Get(ms, "originator") == Some(JStr("WhatsApp")) by {
      assert Get(ms[1..], "originator") == Some(JStr("WhatsApp"));
    }
    assert Get(ms, "recipient") == Some(JStr("15551234567")) by {
      assert Get(ms[1..], "recipient") == Some(JStr("15551234567")) by {
        assert Get(ms[2..], "recipient") == Some(JStr("15551234567"));
      }
    }
    assert Get(ms, "country_iso") == Some(JStr("us")) by {
      assert Get(ms[1..], "country_iso") == Some(JStr("us")) by {
        assert Get(ms[2..], "country_iso") == Some(JStr("us")) by {
          assert Get(ms[3..], "country_iso") == Some(JStr("us"));
        }
      }
    }
  }

  lemma SampleDecoded()
    ensures DecodeSms(SampleData) == Ok(Sms(SampleMessage, "WhatsApp", JStr("15551234567"), "US"))
  {
    SampleLookups();
    assert WellShaped(SampleData);
    assert Upper("us") == "US";
  }

  lemma SampleMask()
    ensures MaskRecipient(JStr("15551234567")) == Some("⁕⁕⁕⁕⁕⁕⁕4567")
  {
    assert Mask("15551234567") == "⁕⁕⁕⁕⁕⁕⁕4567";
  }

  /** The sample event frame yields the country "US", the code "123-456", the service "WhatsApp" and the recipient "⁕⁕⁕⁕⁕⁕⁕4567". */
  lemma SampleFrame(loads: string -> Option<Json>, now: Clock, payload: string)
    requires loads(payload) == Some(SampleData)
    ensures Handle(EventPrefix + payload, loads, now) ==
      Deliver(Template(Fields("US", "WhatsApp", "123-456", Hms(now), "⁕⁕⁕⁕⁕⁕⁕4567", "WhatsApp", SampleMessage)))
  {
    var sms := Sms(SampleMessage, "WhatsApp", JStr("15551234567"), "US");
    SampleDecoded();
    SampleMask();
    SampleCode();
    SampleService();
    assert FieldsOf(sms, "⁕⁕⁕⁕⁕⁕⁕4567", now)
        == Fields("US", "WhatsApp", "123-456", Hms(now), "⁕⁕⁕⁕⁕⁕⁕4567", "WhatsApp", SampleMessage);
    HandleAlert(EventPrefix + payload, loads, now, payload, SampleData);
  }
}
