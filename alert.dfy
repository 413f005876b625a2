/**
 * The pieces of the alert text built in main.py:115-139: the masked recipient, the service
 * guess, the HH:MM:SS arrival time and the fixed HTML template around them.
 */
module Alert {
  import opened Text
  import opened Json
  import Html

  const MaskChar: char := '⁕'
  const UnknownText: string := "Unknown"

  /** main.py:116-119 for a str recipient: all but the last four characters masked, or "Unknown" when shorter than four. */
  function Mask(recipient: string): (r: string)
    ensures |recipient| >= 4 ==>
      |r| == |recipient|
      && r[|r| - 4..] == recipient[|recipient| - 4..]
      && forall k :: 0 <= k < |r| - 4 ==> r[k] == MaskChar
    ensures |recipient| < 4 ==> r == UnknownText
  {
    if |recipient| > 0 && |recipient| >= 4 then
      Repeat(MaskChar, |recipient| - 4) + recipient[|recipient| - 4..]
    else
      UnknownText
  }

  /** The mask shows nothing but the length and the last four characters. */
  lemma MaskRevealsOnlyTail(a: string, b: string)
    requires |a| == |b| >= 4 && a[|a| - 4..] == b[|b| - 4..]
    ensures Mask(a) == Mask(b)
  {
  }

  /**
   * main.py:116-119 for any decoded value: Python's truthiness and `len` decide the branch, and
   * a value that reaches `len(...)` or the slice-and-concatenate without supporting it raises
   * (None here: the exception handler of `on_message` then drops the frame).
   */
  function MaskRecipient(v: Json): (r: Option<string>)
    ensures v.JStr? ==> r == Some(Mask(v.s))
    ensures !Truthy(v) ==> r == Some(UnknownText)
    ensures r.None? <==> Truthy(v) && (v.JBool? || v.JNum? || (v.JArr? && |v.items| >= 4) || (v.JObj? && |v.members| >= 4))
    ensures !v.JStr? && r.Some? ==> r == Some(UnknownText)
  {
    match v
    case JStr(s) => Some(Mask(s))
    case JArr(xs) => if |xs| < 4 then Some(UnknownText) else None
    case JObj(ms) => if |ms| < 4 then Some(UnknownText) else None
    case _ => if Truthy(v) then None else Some(UnknownText)
  }

  /** main.py:122: "WhatsApp" exactly when the lower-cased message contains "whatsapp". */
  function Service(message: string): (r: string)
    ensures r == "WhatsApp" <==> Occurs("whatsapp", Lower(message))
    ensures r != "WhatsApp" ==> r == UnknownText
  {
    if Contains(Lower(message), "whatsapp") then "WhatsApp" else UnknownText
  }

  type Hour = h: nat | h < 24
  type Sixty = m: nat | m < 60

  /** The wall-clock reading of `datetime.now()` that the alert shows. */
  datatype Clock = Clock(hour: Hour, minute: Sixty, second: Sixty)

  function TwoDigits(n: nat): (r: string)
    requires n < 100
    ensures |r| == 2 && IsAsciiDigit(r[0]) && IsAsciiDigit(r[1])
  {
    [DigitChar(n / 10), DigitChar(n % 10)]
  }

  /** `strftime("%H:%M:%S")`. */
  function Hms(t: Clock): (r: string)
    ensures |r| == 8 && r[2] == ':' && r[5] == ':'
  {
    TwoDigits(t.hour) + ":" + TwoDigits(t.minute) + ":" + TwoDigits(t.second)
  }

  /** Reads an HH:MM:SS text back into a clock reading. */
  function ParseHms(s: string): Option<Clock> {
    if |s| == 8 && s[2] == ':' && s[5] == ':'
       && forall k :: 0 <= k < 8 && k != 2 && k != 5 ==> IsAsciiDigit(s[k])
    then
      var h := DigitValue(s[0]) * 10 + DigitValue(s[1]);
      var m := DigitValue(s[3]) * 10 + DigitValue(s[4]);
      var sec := DigitValue(s[6]) * 10 + DigitValue(s[7]);
      if h < 24 && m < 60 && sec < 60 then Some(Clock(h, m, sec)) else None
    else None
  }

  /** The time field names the reading it was made from. */
  lemma ParseHmsRoundTrip(t: Clock)
    ensures ParseHms(Hms(t)) == Some(t)
  {
  }

  /** What one alert shows; `body` is the raw message, escaped by the template. */
  datatype Fields = Fields(
    country: string, originator: string, code: string, time: string,
    recipient: string, service: string, body: string)

  const Rule: string := "━━━━━━━━━━━━━━━━━━━━\n"
  const Header: string := "🔔 <b><u>Real-Time OTP Alert</u></b>\n" + Rule
  const Footer: string := "</code>\n" + Rule + "📡 <i>Sponsored by UN Secure OTP Platform</i>"

  function Line(caption: string, value: string): string {
    caption + " <code>" + value + "</code>\n"
  }

  /** Everything before the `<code>` that opens the escaped body. */
  function Preamble(f: Fields): string {
    Header
    + Line("🌐 <b>Country:</b>", f.country)
    + Line("🪪 <b>Originator:</b>", f.originator)
    + Line("🔢 <b>OTP Code:</b>", f.code)
    + Line("⏰ <b>Received At:</b>", f.time)
    + Line("📱 <b>Recipient:</b>", f.recipient)
    + Line("⚙️ <b>Service:</b>", f.service)
    + Rule
    + "📝 <b>Full Message:</b>\n"
  }

  /** The alert text of main.py:125-139. */
  function Template(f: Fields): string {
    Preamble(f) + "<code>" + Html.Escape(f.body) + Footer
  }

  /** The part of `s` after its last `<` (all of `s` when it has none). */
  function AfterLastLt(s: string): string
    decreases |s|
  {
    if |s| == 0 then ""
    else if s[|s| - 1] == '<' then ""
    else AfterLastLt(s[..|s| - 1]) + [s[|s| - 1]]
  }

  /** The message body as a reader of the alert recovers it: the text between the last tag opened before the footer and the footer, unescaped. */
  function BodyOf(text: string): Option<string> {
    if |Footer| <= |text| && text[|text| - |Footer|..] == Footer then
      BodyBefore(text[..|text| - |Footer|])
    else None
  }

  function BodyBefore(pre: string): Option<string> {
    var seg := AfterLastLt(pre);
    if StartsWith(seg, "code>") then Some(Html.Unescape(seg[5..])) else None
  }

  lemma {:induction false} AfterLastLtOf(p: string, t: string)
    requires forall k :: 0 <= k < |t| ==> t[k] != '<'
    ensures AfterLastLt(p + "<" + t) == t
    decreases |t|
  {
    var s := p + "<" + t;
    if |t| > 0 {
      var t' := t[..|t| - 1];
      assert s[..|s| - 1] == p + "<" + t';
      AfterLastLtOf(p, t');
      assert t' + [t[|t| - 1]] == t;
    }
  }

  lemma NoLtAfterCode(e: string)
    requires forall k :: 0 <= k < |e| ==> e[k] != '<'
    ensures forall k :: 0 <= k < |"code>" + e| ==> ("code>" + e)[k] != '<'
  {
    var t := "code>" + e;
    assert forall k :: 5 <= k < |t| ==> t[k] == e[k - 5];
  }

  lemma BodyBeforeFramed(p: string, body: string)
    ensures BodyBefore(p + "<code>" + Html.Escape(body)) == Some(body)
  {
    var e := Html.Escape(body);
    var t := "code>" + e;
    Html.EscapeIsSafe(body);
    NoLtAfterCode(e);
    assert p + "<code>" + e == p + "<" + t;
    AfterLastLtOf(p, t);
    assert StartsWith(t, "code>") && t[5..] == e;
    Html.UnescapeEscape(body);
  }

  lemma ConcatSplit(u: string, v: string)
    ensures (u + v)[..|u|] == u && (u + v)[|u|..] == v
  {
  }

  /**
   * The body cannot close its own `<code>` element: whatever the message says, the text
   * after the last tag before the fixed footer unescapes to exactly that message.
   */
  lemma BodyOfTemplate(f: Fields)
    ensures BodyOf(Template(f)) == Some(f.body)
  {
    var u := Preamble(f) + "<code>" + Html.Escape(f.body);
    assert Template(f) == u + Footer;
    ConcatSplit(u, Footer);
    BodyBeforeFramed(Preamble(f), f.body);
  }
}
