/**
 * The values `json.loads` can return, and the two Python renderings the relay
 * applies to them: `str(v)` inside an f-string and, for nested values, `repr(v)`.
 * Numbers are Python ints; floats are not modelled.
 */
module Json {
  import opened Text

  datatype Json =
    | JNull
    | JBool(b: bool)
    | JNum(n: int)
    | JStr(s: string)
    | JArr(items: seq<Json>)
    | JObj(members: seq<Member>)

  /** One key of a decoded dict, in insertion order. */
  datatype Member = Member(key: string, value: Json)

  /** `d.get(key)`: the value stored under `key`, if any. */
  function Get(members: seq<Member>, key: string): (r: Option<Json>)
    ensures r.None? <==> forall i :: 0 <= i < |members| ==> members[i].key != key
    ensures r.Some? ==> exists i :: 0 <= i < |members| && members[i] == Member(key, r.value)
  {
    if |members| == 0 then None
    else if members[0].key == key then Some(members[0].value)
    else
      var r := Get(members[1..], key);
      assert forall i :: 1 <= i < |members| ==> members[i] == members[1..][i - 1];
      r
  }

  /** `d.get(key, default)`. */
  function GetOr(members: seq<Member>, key: string, default: Json): (r: Json)
    ensures (forall i :: 0 <= i < |members| ==> members[i].key != key) ==> r == default
    ensures (exists i :: 0 <= i < |members| && members[i].key == key) ==> Get(members, key) == Some(r)
  {
    match Get(members, key)
    case None => default
    case Some(v) => v
  }

  /** Python truthiness of a decoded value. */
  predicate Truthy(v: Json) {
    match v
    case JNull => false
    case JBool(b) => b
    case JNum(n) => n != 0
    case JStr(s) => |s| > 0
    case JArr(xs) => |xs| > 0
    case JObj(ms) => |ms| > 0
  }

  /** `repr(s)` of a Python str: single quotes unless only double quotes avoid escaping. */
  function StrRepr(s: string): (r: string)
    ensures |r| >= |s| + 2
    ensures r[0] == r[|r| - 1] && (r[0] == '\'' || r[0] == '"')
  {
    var q := if '\'' in s && '"' !in s then '"' else '\'';
    [q] + EscapeRepr(s, q) + [q]
  }

  function EscapeRepr(s: string, q: char): (r: string)
    ensures |r| >= |s|
  {
    if |s| == 0 then ""
    else
      var c := s[0];
      var e := if c == '\\' then "\\\\"
               else if c == q then ['\\', q]
               else if c == '\n' then "\\n"
               else if c == '\r' then "\\r"
               else if c == '\t' then "\\t"
               else [c];
      e + EscapeRepr(s[1..], q)
  }

  function JoinComma(parts: seq<string>): string {
    if |parts| == 0 then ""
    else if |parts| == 1 then parts[0]
    else parts[0] + ", " + JoinComma(parts[1..])
  }

  /** `repr(v)`: how Python shows a value nested in a list or dict. */
  function Repr(v: Json): (r: string)
    ensures |r| > 0
  {
    match v
    case JNull => "None"
    case JBool(b) => if b then "True" else "False"
    case JNum(n) => IntToDecimal(n)
    case JStr(s) => StrRepr(s)
    case JArr(xs) =>
      "[" + JoinComma(seq(|xs|, i requires 0 <= i < |xs| => Repr(xs[i]))) + "]"
    case JObj(ms) =>
      "{" + JoinComma(seq(|ms|, i requires 0 <= i < |ms| => StrRepr(ms[i].key) + ": " + Repr(ms[i].value))) + "}"
  }

  /** `str(v)`, as an f-string renders a decoded value: a str is shown as itself, anything else as its repr. */
  function Str(v: Json): (r: string)
    ensures v.JStr? ==> r == v.s
    ensures !v.JStr? ==> r == Repr(v) && |r| > 0
  {
    if v.JStr? then v.s else Repr(v)
  }

  /** A character `repr` shows as itself inside single quotes. */
  predicate PlainInRepr(c: char) {
    c != '\\' && c != '\'' && c != '\n' && c != '\r' && c != '\t'
  }

  lemma {:induction false} EscapeReprPlain(s: string, q: char)
    requires forall i :: 0 <= i < |s| ==> PlainInRepr(s[i]) && s[i] != q
    ensures EscapeRepr(s, q) == s
    decreases |s|
  {
    if |s| > 0 {
      EscapeReprPlain(s[1..], q);
      assert [s[0]] + s[1..] == s;
    }
  }

  /** A str with no quote, backslash or control escape is shown as itself in single quotes. */
  lemma StrReprPlain(s: string)
    requires forall i :: 0 <= i < |s| ==> PlainInRepr(s[i])
    ensures StrRepr(s) == "'" + s + "'"
  {
    assert '\'' !in s by {
      forall i | 0 <= i < |s| ensures s[i] != '\'' {
        assert PlainInRepr(s[i]);
      }
    }
    EscapeReprPlain(s, '\'');
  }

  /** A list of a str and a negative number is shown as Python shows it. */
  lemma StrListExample()
    ensures Str(JArr([JStr("a"), JNum(-1)])) == "['a', -1]"
  {
    StrReprPlain("a");
    assert IntToDecimal(-1) == "-1";
    var parts := seq(2, i requires 0 <= i < 2 => Repr([JStr("a"), JNum(-1)][i]));
    assert parts[0] == "'a'";
    assert parts[1] == "-1";
    assert parts == ["'a'", "-1"];
    assert JoinComma(parts) == "'a', -1";
  }
}
