/**
 * The part of JSON the rating pipeline writes and reads back: objects whose
 * members are strings or integers, in the compact form `JSON.stringify`
 * produces, and a reader for that form standing in for `JSON.parse`.
 */
module JsonText {
  import opened Wrappers
  import opened Text
  import opened JsNumber

  datatype JsonValue = JStr(s: string) | JInt(n: int)

  /** An object as its members in order; `JSON.parse` keeps the last of repeated names. */
  type JsonObject = seq<(string, JsonValue)>

  function HexDigit(d: nat): (c: char)
    requires d < 16
  {
    if d < 10 then ('0' as int + d) as char else ('a' as int + (d - 10)) as char
  }

  function HexValue(c: char): (r: Option<nat>)
    ensures r.Some? ==> r.value < 16
  {
    if '0' <= c <= '9' then Some(c as int - '0' as int)
    else if 'a' <= c <= 'f' then Some(c as int - 'a' as int + 10)
    else if 'A' <= c <= 'F' then Some(c as int - 'A' as int + 10)
    else None
  }

  /** How `JSON.stringify` writes one character inside a string literal. */
  function EscapeChar(c: char): (e: string)
    ensures |e| >= 1
  {
    if c == '"' then "\\\""
    else if c == '\\' then "\\\\"
    else if c == '\U{0008}' then "\\b"
    else if c == '\U{000C}' then "\\f"
    else if c == '\n' then "\\n"
    else if c == '\r' then "\\r"
    else if c == '\t' then "\\t"
    else if c < ' ' then "\\u00" + [HexDigit(c as int / 16), HexDigit(c as int % 16)]
    else [c]
  }

  function Escape(s: string): string
    decreases |s|
  {
    if |s| == 0 then "" else EscapeChar(s[0]) + Escape(s[1..])
  }

  /** `JSON.stringify` of a string. */
  function Quote(s: string): string {
    "\"" + Escape(s) + "\""
  }

  /**
   * Decodes the escape sequence that follows a backslash: the character and
   * how many characters it took. Escapes of UTF-16 surrogates are refused.
   */
  function Unescape(u: string): (r: Option<(char, nat)>)
    ensures r.Some? ==> 1 <= r.value.1 <= |u|
  {
    if |u| == 0 then None
    else if u[0] == '"' || u[0] == '\\' || u[0] == '/' then Some((u[0], 1))
    else if u[0] == 'b' then Some(('\U{0008}', 1))
    else if u[0] == 'f' then Some(('\U{000C}', 1))
    else if u[0] == 'n' then Some(('\n', 1))
    else if u[0] == 'r' then Some(('\r', 1))
    else if u[0] == 't' then Some(('\t', 1))
    else if u[0] == 'u' && |u| >= 5 then
      match (HexValue(u[1]), HexValue(u[2]), HexValue(u[3]), HexValue(u[4]))
      case (Some(a), Some(b), Some(c), Some(d)) =>
        var v := ((a * 16 + b) * 16 + c) * 16 + d;
        if 0xD800 <= v < 0xE000 then None else Some((v as char, 5))
      case _ => None
    else None
  }

  /** Reads the rest of a string literal after its opening quote: the text and what follows the closing quote. */
  function ReadChars(t: string, acc: string): (r: Option<(string, string)>)
    ensures r.Some? ==> |r.value.1| < |t|
    decreases |t|
  {
    if |t| == 0 then None
    else if t[0] == '"' then Some((acc, t[1..]))
    else if t[0] == '\\' then
      match Unescape(t[1..])
      case None => None
      case Some(p) => ReadChars(t[1 + p.1..], acc + [p.0])
    else if t[0] < ' ' then None
    else ReadChars(t[1..], acc + [t[0]])
  }

  /** Reads a string literal at the start of `t`. */
  function ReadString(t: string): (r: Option<(string, string)>)
    ensures r.Some? ==> |r.value.1| < |t|
  {
    if |t| > 0 && t[0] == '"' then ReadChars(t[1..], "") else None
  }

  /** Reads an integer literal (optional minus, digits, no leading zero) at the start of `t`. */
  function ReadInt(t: string): (r: Option<(int, string)>)
    ensures r.Some? ==> |r.value.1| < |t|
  {
    var neg := |t| > 0 && t[0] == '-';
    var u := if neg then t[1..] else t;
    var k := DigitPrefixLen(u);
    if k == 0 || (u[0] == '0' && k > 1) then None
    else Some(((if neg then -1 else 1) * DigitsValue(u[..k]), u[k..]))
  }

  /** The text after `lit`, when `t` starts with it. */
  function Literal(t: string, lit: string): (r: Option<string>)
    ensures r.Some? ==> t == lit + r.value
  {
    if |lit| <= |t| && t[..|lit|] == lit then Some(t[|lit|..]) else None
  }

  function EncodeValue(v: JsonValue): string {
    match v
    case JStr(s) => Quote(s)
    case JInt(n) => IntToString(n)
  }

  function EncodeMember(m: (string, JsonValue)): string {
    Quote(m.0) + ":" + EncodeValue(m.1)
  }

  function EncodeMembers(ms: JsonObject): string
    decreases |ms|
  {
    if |ms| == 0 then ""
    else if |ms| == 1 then EncodeMember(ms[0])
    else EncodeMember(ms[0]) + "," + EncodeMembers(ms[1..])
  }

  /** `JSON.stringify` of an object: no whitespace, members in order. */
  function EncodeObject(ms: JsonObject): string {
    "{" + EncodeMembers(ms) + "}"
  }

  function ReadValue(t: string): (r: Option<(JsonValue, string)>)
    ensures r.Some? ==> |r.value.1| < |t|
  {
    if |t| > 0 && t[0] == '"' then
      var p :- ReadString(t);
      Some((JStr(p.0), p.1))
    else
      var p :- ReadInt(t);
      Some((JInt(p.0), p.1))
  }

  function ReadMember(t: string): (r: Option<((string, JsonValue), string)>)
    ensures r.Some? ==> |r.value.1| < |t|
  {
    var k :- ReadString(t);
    var u :- Literal(k.1, ":");
    var v :- ReadValue(u);
    Some(((k.0, v.0), v.1))
  }

  function ReadMembers(t: string): (r: Option<(JsonObject, string)>)
    ensures r.Some? ==> |r.value.1| < |t|
    decreases |t|
  {
    var m :- ReadMember(t);
    if |m.1| > 0 && m.1[0] == ',' then
      var more :- ReadMembers(m.1[1..]);
      Some(([m.0] + more.0, more.1))
    else
      Some(([m.0], m.1))
  }

  /** `JSON.parse` restricted to the compact objects above; anything else is a parse error (None). */
  function ParseObject(text: string): Option<JsonObject> {
    var t :- Literal(text, "{");
    if t == "}" then Some([])
    else
      var ms :- ReadMembers(t);
      if ms.1 == "}" then Some(ms.0) else None
  }

  /** Property access on a parsed object: the last member with that name, None when absent. */
  function Lookup(ms: JsonObject, name: string): (r: Option<JsonValue>)
    ensures r.Some? ==> exists i :: 0 <= i < |ms| && ms[i] == (name, r.value)
    ensures r.None? ==> forall i :: 0 <= i < |ms| ==> ms[i].0 != name
    decreases |ms|
  {
    if |ms| == 0 then None
    else if ms[|ms| - 1].0 == name then Some(ms[|ms| - 1].1)
    else Lookup(ms[..|ms| - 1], name)
  }

  /** The names of an object's members. */
  function Names(ms: JsonObject): set<string> {
    set i | 0 <= i < |ms| :: ms[i].0
  }

  // ---------------------------------------------------------------------
  // Round trips
  // ---------------------------------------------------------------------

  lemma LiteralPrefix(lit: string, rest: string)
    ensures Literal(lit + rest, lit) == Some(rest)
  {
    assert (lit + rest)[..|lit|] == lit;
    assert (lit + rest)[|lit|..] == rest;
  }

  /** One escaped character reads back as that character. */
  lemma ReadEscapedChar(c: char, tail: string, acc: string)
    ensures ReadChars(EscapeChar(c) + tail, acc) == ReadChars(tail, acc + [c])
  {
    var e := EscapeChar(c);
    var t := e + tail;
    if |e| == 1 {
      assert t[0] == c && t[1..] == tail;
    } else {
      assert t[0] == '\\';
      assert t[1..] == e[1..] + tail;
      if c < ' ' && c != '\U{0008}' && c != '\U{000C}' && c != '\n' && c != '\r' && c != '\t' {
        var u := t[1..];
        assert u[0] == 'u' && u[1] == '0' && u[2] == '0';
        assert u[3] == HexDigit(c as int / 16) && u[4] == HexDigit(c as int % 16);
        assert HexValue(u[3]) == Some(c as int / 16);
        assert HexValue(u[4]) == Some(c as int % 16);
        assert Unescape(u) == Some((c, 5));
        assert t[1 + 5..] == tail;
      } else {
        assert Unescape(t[1..]) == Some((c, 1));
        assert t[2..] == tail;
      }
    }
  }

  lemma {:induction false} ReadEscaped(s: string, rest: string, acc: string)
    ensures ReadChars(Escape(s) + "\"" + rest, acc) == Some((acc + s, rest))
    decreases |s|
  {
    if |s| == 0 {
      assert Escape(s) + "\"" + rest == "\"" + rest;
      assert acc + s == acc;
    } else {
      assert Escape(s) + "\"" + rest == EscapeChar(s[0]) + (Escape(s[1..]) + "\"" + rest);
      ReadEscapedChar(s[0], Escape(s[1..]) + "\"" + rest, acc);
      ReadEscaped(s[1..], rest, acc + [s[0]]);
      assert acc + [s[0]] + s[1..] == acc + s;
    }
  }

  /** A quoted string reads back as the string, leaving what follows. */
  lemma QuoteRoundTrip(s: string, rest: string)
    ensures ReadString(Quote(s) + rest) == Some((s, rest))
  {
    var t := Quote(s) + rest;
    assert t[0] == '"';
    assert t[1..] == Escape(s) + "\"" + rest;
    ReadEscaped(s, rest, "");
    assert "" + s == s;
  }

  /** A rendered integer reads back as the integer when no digit follows it. */
  lemma ReadIntRoundTrip(n: int, rest: string)
    requires |rest| == 0 || !IsDigit(rest[0])
    ensures ReadInt(IntToString(n) + rest) == Some((n, rest))
  {
    var m: nat := if n < 0 then -n else n;
    var d := NatToString(m);
    var t := IntToString(n) + rest;
    var u := d + rest;
    DigitsRead(m, rest);
    if n < 0 {
      assert t[0] == '-' && t[1..] == u;
    } else {
      assert t == u && IsDigit(t[0]);
    }
  }

  /** The digits of a natural number followed by a non-digit read back as that number, without a leading zero. */
  lemma DigitsRead(m: nat, rest: string)
    requires |rest| == 0 || !IsDigit(rest[0])
    ensures var d := NatToString(m);
      var u := d + rest;
      && |d| >= 1 && DigitPrefixLen(u) == |d| && u[..|d|] == d && u[|d|..] == rest
      && DigitsValue(d) == m && u[0] == d[0] && (d[0] == '0' ==> |d| == 1)
  {
    var d := NatToString(m);
    var u := d + rest;
    DigitPrefixOfDigits(d, rest);
    assert u[..|d|] == d;
    assert u[|d|..] == rest;
    NatToStringRoundTrip(m);
    NatToStringNoLeadingZero(m);
  }

  lemma ReadMemberRoundTrip(m: (string, JsonValue), rest: string)
    requires |rest| > 0 && (rest[0] == ',' || rest[0] == '}')
    ensures ReadMember(EncodeMember(m) + rest) == Some((m, rest))
  {
    var v := EncodeValue(m.1) + rest;
    assert EncodeMember(m) + rest == Quote(m.0) + (":" + v);
    QuoteRoundTrip(m.0, ":" + v);
    LiteralPrefix(":", v);
    match m.1
    case JStr(s) =>
      assert v == Quote(s) + rest;
      QuoteRoundTrip(s, rest);
    case JInt(n) =>
      assert v == IntToString(n) + rest;
      assert IntToString(n)[0] == '-' || IsDigit(IntToString(n)[0]);
      ReadIntRoundTrip(n, rest);
  }

  lemma ReadMembersLast(t: string, m: (string, JsonValue), rest: string)
    requires ReadMember(t) == Some((m, rest))
    requires |rest| > 0 && rest[0] == '}'
    ensures ReadMembers(t) == Some(([m], rest))
  {
  }

  lemma ReadMembersNext(t: string, m: (string, JsonValue), after: string, more: JsonObject, rest: string)
    requires ReadMember(t) == Some((m, after))
    requires |after| > 0 && after[0] == ','
    requires ReadMembers(after[1..]) == Some((more, rest))
    ensures ReadMembers(t) == Some(([m] + more, rest))
  {
  }

  lemma EncodeMembersFirst(ms: JsonObject)
    requires |ms| >= 1
    ensures |ms| == 1 ==> EncodeMembers(ms) == EncodeMember(ms[0])
    ensures |ms| > 1 ==> EncodeMembers(ms) == EncodeMember(ms[0]) + "," + EncodeMembers(ms[1..])
  {
  }

  lemma {:induction false} ReadMembersRoundTrip(ms: JsonObject, rest: string)
    requires |ms| >= 1
    requires |rest| > 0 && rest[0] == '}'
    ensures ReadMembers(EncodeMembers(ms) + rest) == Some((ms, rest))
    decreases |ms|
  {
    EncodeMembersFirst(ms);
    if |ms| == 1 {
      ReadLastMember(ms[0], rest);
      assert ms == [ms[0]];
    } else {
      ReadMembersRoundTrip(ms[1..], rest);
      ReadNextMember(ms[0], EncodeMembers(ms[1..]), ms[1..], rest);
      assert [ms[0]] + ms[1..] == ms;
      assert EncodeMembers(ms) + rest == EncodeMember(ms[0]) + "," + EncodeMembers(ms[1..]) + rest;
    }
  }

  lemma ReadLastMember(m: (string, JsonValue), rest: string)
    requires |rest| > 0 && rest[0] == '}'
    ensures ReadMembers(EncodeMember(m) + rest) == Some(([m], rest))
  {
    ReadMemberRoundTrip(m, rest);
    ReadMembersLast(EncodeMember(m) + rest, m, rest);
  }

  lemma ReadNextMember(m: (string, JsonValue), encoded: string, more: JsonObject, rest: string)
    requires ReadMembers(encoded + rest) == Some((more, rest))
    ensures ReadMembers(EncodeMember(m) + "," + encoded + rest) == Some(([m] + more, rest))
  {
    var after := "," + (encoded + rest);
    assert EncodeMember(m) + "," + encoded + rest == EncodeMember(m) + after;
    ReadMemberRoundTrip(m, after);
    assert after[1..] == encoded + rest;
    ReadMembersNext(EncodeMember(m) + after, m, after, more, rest);
  }

  /** Parsing what `EncodeObject` wrote gives back the same members. */
  lemma ParseEncodeObject(ms: JsonObject)
    ensures ParseObject(EncodeObject(ms)) == Some(ms)
  {
    LiteralPrefix("{", EncodeMembers(ms) + "}");
    assert EncodeObject(ms) == "{" + (EncodeMembers(ms) + "}");
    if |ms| > 0 {
      ReadMembersRoundTrip(ms, "}");
      var m :| ms == [m] + ms[1..];
      assert EncodeMembers(ms) + "}" != "}" by {
        assert EncodeMembers(ms)[0] == '"';
      }
    }
  }

  /** Members after the last one named `name` do not affect reading it. */
  lemma {:induction false} LookupSkipsOthers(a: JsonObject, b: JsonObject, name: string)
    requires name !in Names(b)
    ensures Lookup(a + b, name) == Lookup(a, name)
    decreases |b|
  {
    if |b| > 0 {
      var ab := a + b;
      assert ab[|ab| - 1] == b[|b| - 1];
      assert ab[..|ab| - 1] == a + b[..|b| - 1];
      assert b[|b| - 1].0 in Names(b);
      assert Names(b[..|b| - 1]) <= Names(b) by {
        forall x | x in Names(b[..|b| - 1]) ensures x in Names(b) {
          var i :| 0 <= i < |b| - 1 && b[..|b| - 1][i].0 == x;
          assert b[i].0 == x;
        }
      }
      LookupSkipsOthers(a, b[..|b| - 1], name);
    } else {
      assert a + b == a;
    }
  }

  /** A member is read back when no later member repeats its name. */
  lemma LookupFinds(a: JsonObject, name: string, v: JsonValue, b: JsonObject)
    requires name !in Names(b)
    ensures Lookup(a + [(name, v)] + b, name) == Some(v)
  {
    LookupSkipsOthers(a + [(name, v)], b, name);
  }
}
