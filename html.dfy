/**
 * `html.escape(s)` with its default `quote=True` (main.py:136): `&`, `<`, `>`, `"` and `'`
 * become character references, every other character is kept. `Unescape` decodes exactly
 * those five references and is the partner that shows nothing of the body is lost.
 */
module Html {
  import opened Text

  const Amp: string := "&amp;"
  const Lt: string := "&lt;"
  const Gt: string := "&gt;"
  const Quot: string := "&quot;"
  const Apos: string := "&#x27;"

  /** A character that must not appear raw inside the alert's HTML. */
  predicate IsSpecial(c: char) {
    c == '&' || c == '<' || c == '>' || c == '"' || c == '\''
  }

  /** The reference for a special character, the character itself otherwise. */
  function EscapeChar(c: char): (r: string)
    ensures |r| > 0
    ensures !IsSpecial(c) <==> r == [c]
    ensures IsSpecial(c) ==> r[0] == '&' && forall k :: 1 <= k < |r| ==> !IsSpecial(r[k])
  {
    if c == '&' then Amp
    else if c == '<' then Lt
    else if c == '>' then Gt
    else if c == '"' then Quot
    else if c == '\'' then Apos
    else [c]
  }

  function Escape(s: string): string {
    if |s| == 0 then "" else EscapeChar(s[0]) + Escape(s[1..])
  }

  /** The `&` at position `k` of `e` starts one of the five references. */
  predicate EntityAt(e: string, k: nat)
    requires k < |e|
  {
    var t := e[k..];
    StartsWith(t, Amp) || StartsWith(t, Lt) || StartsWith(t, Gt) || StartsWith(t, Quot) || StartsWith(t, Apos)
  }

  function Unescape(e: string): string
    decreases |e|
  {
    if |e| == 0 then ""
    else if StartsWith(e, Amp) then "&" + Unescape(e[|Amp|..])
    else if StartsWith(e, Lt) then "<" + Unescape(e[|Lt|..])
    else if StartsWith(e, Gt) then ">" + Unescape(e[|Gt|..])
    else if StartsWith(e, Quot) then "\"" + Unescape(e[|Quot|..])
    else if StartsWith(e, Apos) then "'" + Unescape(e[|Apos|..])
    else [e[0]] + Unescape(e[1..])
  }

  /** The escaped text has no raw `<`, `>`, `"` or `'`, and it is never shorter than the input. */
  lemma {:induction false} EscapeIsSafe(s: string)
    ensures |Escape(s)| >= |s|
    ensures forall k :: 0 <= k < |Escape(s)| ==> var c := Escape(s)[k]; c != '<' && c != '>' && c != '"' && c != '\''
  {
    if |s| > 0 {
      EscapeIsSafe(s[1..]);
      var h := EscapeChar(s[0]);
      assert forall k :: |h| <= k < |Escape(s)| ==> Escape(s)[k] == Escape(s[1..])[k - |h|];
    }
  }

  /** Every `&` of the escaped text begins a character reference. */
  lemma {:induction false} EscapeAmpersands(s: string)
    ensures forall k :: 0 <= k < |Escape(s)| && Escape(s)[k] == '&' ==> EntityAt(Escape(s), k)
  {
    if |s| > 0 {
      var h, t := EscapeChar(s[0]), Escape(s[1..]);
      EscapeAmpersands(s[1..]);
      var e := Escape(s);
      assert e == h + t;
      forall k | 0 <= k < |e| && e[k] == '&' ensures EntityAt(e, k) {
        if k < |h| {
          assert k == 0;
          assert e[k..] == h + t;
        } else {
          assert e[k] == t[k - |h|];
          assert e[k..] == t[k - |h|..];
        }
      }
    }
  }

  lemma UnescapeHead(c: char, t: string)
    ensures Unescape(EscapeChar(c) + t) == [c] + Unescape(t)
  {
    var e := EscapeChar(c) + t;
    if IsSpecial(c) {
      assert StartsWith(e, EscapeChar(c));
      assert e[|EscapeChar(c)|..] == t;
    } else {
      assert e[1..] == t;
      assert e[0] == c;
    }
  }

  /** Unescaping undoes escaping: the alert carries the message body unchanged. */
  lemma {:induction false} UnescapeEscape(s: string)
    ensures Unescape(Escape(s)) == s
  {
    if |s| > 0 {
      UnescapeEscape(s[1..]);
      UnescapeHead(s[0], Escape(s[1..]));
      assert [s[0]] + s[1..] == s;
    }
  }
}
