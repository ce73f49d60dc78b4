/**
 * `JSON.parse(JSON.stringify(o))` gives `o` back for the flat objects the
 * Route 53 gateway stores as metadata.
 */
module JsonRoundTrip {
  import opened Wrappers
  import opened Json
  import opened JsonText

  lemma HexDigitValue(d: nat)
    requires d < 16
    ensures HexValue(Hex[d]) == Some(d)
  {
  }

  /** `JSON.stringify`'s two-character escapes. */
  predicate ShortEscape(c: char) {
    c == '"' || c == '\\' || c == '\U{0008}' || c == '\U{000C}' || c == '\n' || c == '\r' || c == '\t'
  }

  lemma ShortEscape_RoundTrip(c: char, rest: string)
    requires ShortEscape(c)
    ensures ParseEscape(EscapeChar(c)[1..] + rest) == Some(Parsed(c, rest))
  {
    var e := EscapeChar(c);
    assert |e| == 2;
    assert (e[1..] + rest)[1..] == rest;
  }

  lemma Hex4_Byte(hi: nat, lo: nat, rest: string)
    requires hi < 16 && lo < 16
    ensures Hex4(['0', '0', Hex[hi], Hex[lo]] + rest) == Some(hi * 16 + lo)
  {
    HexDigitValue(hi);
    HexDigitValue(lo);
    HexDigitValue(0);
    var x := ['0', '0', Hex[hi], Hex[lo]] + rest;
    assert x[0] == '0' && x[1] == '0' && x[2] == Hex[hi] && x[3] == Hex[lo];
  }

  lemma UnicodeEscape_RoundTrip(c: char, rest: string)
    requires !ShortEscape(c) && c < ' '
    ensures ParseEscape(EscapeChar(c)[1..] + rest) == Some(Parsed(c, rest))
  {
    var hi := c as int / 16;
    var lo := c as int % 16;
    var x := ['0', '0', Hex[hi], Hex[lo]] + rest;
    var s := ['u'] + x;
    assert EscapeChar(c)[1..] == ['u', '0', '0', Hex[hi], Hex[lo]];
    assert EscapeChar(c)[1..] + rest == s;
    DropPrefix(['u'], x);
    Hex4_Byte(hi, lo, rest);
    assert s[5..] == rest;
  }

  lemma {:induction false} EscapeChar_RoundTrip(c: char, rest: string)
    ensures ParseStringBody(EscapeChar(c) + rest) ==
              match ParseStringBody(rest)
              case None => None
              case Some(Parsed(t, r)) => Some(Parsed([c] + t, r))
  {
    var e := EscapeChar(c);
    var s := e + rest;
    if ShortEscape(c) || c < ' ' {
      assert e[0] == '\\';
      assert s[1..] == e[1..] + rest;
      if ShortEscape(c) {
        ShortEscape_RoundTrip(c, rest);
      } else {
        UnicodeEscape_RoundTrip(c, rest);
      }
    } else {
      assert e == [c];
      assert s[1..] == rest;
    }
  }

  lemma {:induction false} Escape_RoundTrip(str: string, rest: string)
    ensures ParseStringBody(Escape(str) + "\"" + rest) == Some(Parsed(str, rest))
  {
    if str == [] {
      assert (Escape(str) + "\"" + rest)[1..] == rest;
    } else {
      assert Escape(str) + "\"" + rest == EscapeChar(str[0]) + (Escape(str[1..]) + "\"" + rest);
      EscapeChar_RoundTrip(str[0], Escape(str[1..]) + "\"" + rest);
      Escape_RoundTrip(str[1..], rest);
      assert [str[0]] + str[1..] == str;
    }
  }

  /** A value that is a string or null. */
  predicate IsScalarText(v: Value) { v.JStr? || v.JNull? }

  lemma ScalarValue_RoundTrip(v: Value, rest: string)
    requires IsScalarText(v)
    ensures ParseValue(Stringify(v) + rest) == Some(Parsed(v, rest))
  {
    var s := Stringify(v) + rest;
    assert SkipWs(s) == s;
    if v.JStr? {
      var body := Escape(v.s) + "\"" + rest;
      assert s == "\"" + body by {
        Assoc("\"", Escape(v.s), "\"");
        Assoc("\"", Escape(v.s) + "\"", rest);
      }
      DropPrefix("\"", body);
      Escape_RoundTrip(v.s, rest);
    } else {
      assert s == "null" + rest;
      DropPrefix("null", rest);
      assert s[..4] == "null";
    }
  }

  /** An object whose values are all strings or null, with distinct keys. */
  predicate FlatObject(ms: seq<Member>) {
    Distinct(ms) && forall i :: 0 <= i < |ms| ==> IsScalarText(ms[i].value)
  }

  lemma ParseMember_Unfold(s: string, k: string, r1: string, pv: Option<Parsed<Value>>)
    requires s != [] && s[0] == '"'
    requires ParseStringBody(s[1..]) == Some(Parsed(k, r1))
    requires r1 != [] && r1[0] == ':'
    requires ParseValue(r1[1..]) == pv
    ensures ParseMember(s) == match pv
                              case None => None
                              case Some(Parsed(v, r2)) => Some(Parsed(Member(k, v), r2))
  {
    assert SkipWs(s) == s;
    assert SkipWs(r1) == r1;
  }

  lemma MemberText_Shape(k: string, v: Value, tail: string)
    ensures MemberText(Member(k, v)) + tail == "\"" + (Escape(k) + "\"" + (":" + Stringify(v) + tail))
  {
  }

  lemma QuotedKey_RoundTrip(k: string, r1: string)
    ensures var s := "\"" + (Escape(k) + "\"" + r1);
            s != [] && s[0] == '"' && ParseStringBody(s[1..]) == Some(Parsed(k, r1))
  {
    var s := "\"" + (Escape(k) + "\"" + r1);
    Escape_RoundTrip(k, r1);
    assert s[1..] == Escape(k) + "\"" + r1;
  }

  lemma ColonValue_RoundTrip(v: Value, tail: string)
    requires IsScalarText(v)
    ensures var r1 := ":" + Stringify(v) + tail;
            r1 != [] && r1[0] == ':' && ParseValue(r1[1..]) == Some(Parsed(v, tail))
  {
    var r1 := ":" + Stringify(v) + tail;
    ScalarValue_RoundTrip(v, tail);
    Assoc(":", Stringify(v), tail);
    DropPrefix(":", Stringify(v) + tail);
  }

  /** Parsing one member written by `JSON.stringify`. */
  lemma Member_RoundTrip(k: string, v: Value, tail: string)
    requires IsScalarText(v)
    ensures ParseMember(MemberText(Member(k, v)) + tail) == Some(Parsed(Member(k, v), tail))
  {
    var r1 := ":" + Stringify(v) + tail;
    var s := "\"" + (Escape(k) + "\"" + r1);
    MemberText_Shape(k, v, tail);
    QuotedKey_RoundTrip(k, r1);
    ColonValue_RoundTrip(v, tail);
    ParseMember_Unfold(s, k, r1, Some(Parsed(v, tail)));
  }

  lemma ParseMembers_Unfold(s: string, acc: seq<Member>, m: Member, r: string)
    requires ParseMember(s) == Some(Parsed(m, r))
    requires r != [] && (r[0] == ',' || r[0] == '}')
    ensures ParseMembers(s, acc) ==
              if r[0] == ',' then ParseMembers(r[1..], Put(acc, m.key, m.value))
              else Some(Parsed(JObj(Put(acc, m.key, m.value)), r[1..]))
  {
    var w := SkipWs(r);
    assert w == r;
    assert w[1..] == r[1..];
  }

  lemma Assoc(a: string, b: string, c: string)
    ensures (a + b) + c == a + (b + c)
  {
  }

  lemma DropPrefix(a: string, x: string)
    ensures (a + x)[|a|..] == x
  {
  }

  lemma AppendHead(a: seq<Member>, b: seq<Member>)
    requires b != []
    ensures (a + [b[0]]) + b[1..] == a + b
  {
    assert b == [b[0]] + b[1..];
  }

  lemma MembersText_Shape(ms: seq<Member>, rest: string)
    requires ms != []
    ensures StringifyMembers(ms) + "}" + rest ==
              MemberText(ms[0]) + if |ms| == 1 then "}" + rest else "," + (StringifyMembers(ms[1..]) + "}" + rest)
  {
    var h := MemberText(ms[0]);
    var t := if |ms| == 1 then "" else "," + StringifyMembers(ms[1..]);
    assert StringifyMembers(ms) == h + t;
    Assoc(h, t, "}");
    Assoc(h, t + "}", rest);
    if |ms| > 1 {
      var more := StringifyMembers(ms[1..]);
      Assoc(",", more, "}");
      Assoc(",", more + "}", rest);
    } else {
      assert t + "}" == "}";
    }
  }

  /** One member written by `JSON.stringify`, then the separator after it. */
  lemma Members_Step(acc: seq<Member>, m: Member, tail: string)
    requires IsScalarText(m.value)
    requires tail != [] && (tail[0] == ',' || tail[0] == '}')
    ensures ParseMembers(MemberText(m) + tail, acc) ==
              if tail[0] == ',' then ParseMembers(tail[1..], Put(acc, m.key, m.value))
              else Some(Parsed(JObj(Put(acc, m.key, m.value)), tail[1..]))
  {
    Member_RoundTrip(m.key, m.value, tail);
    ParseMembers_Unfold(MemberText(m) + tail, acc, m, tail);
  }

  lemma FreshKey(acc: seq<Member>, ms: seq<Member>)
    requires ms != [] && FlatObject(acc + ms)
    ensures !HasKey(acc, ms[0].key) && IsScalarText(ms[0].value)
  {
    assert (acc + ms)[|acc|] == ms[0];
    forall i | 0 <= i < |acc| ensures acc[i].key != ms[0].key {
      assert (acc + ms)[i] == acc[i];
    }
  }

  lemma FlatShift(acc: seq<Member>, ms: seq<Member>)
    requires ms != [] && FlatObject(acc + ms)
    ensures FlatObject((acc + [ms[0]]) + ms[1..])
  {
    AppendHead(acc, ms);
  }

  /** The first member of a flat object, whose key is new to what was parsed before it. */
  lemma Members_FreshStep(acc: seq<Member>, ms: seq<Member>, tail: string)
    requires ms != [] && FlatObject(acc + ms)
    requires tail != [] && (tail[0] == ',' || tail[0] == '}')
    ensures ParseMembers(MemberText(ms[0]) + tail, acc) ==
              if tail[0] == ',' then ParseMembers(tail[1..], acc + [ms[0]])
              else Some(Parsed(JObj(acc + [ms[0]]), tail[1..]))
  {
    FreshKey(acc, ms);
    PutShape(acc, ms[0].key, ms[0].value);
    Members_Step(acc, ms[0], tail);
  }

  lemma Members_Last(acc: seq<Member>, ms: seq<Member>, rest: string)
    requires |ms| == 1 && FlatObject(acc + ms)
    ensures ParseMembers(StringifyMembers(ms) + "}" + rest, acc) == Some(Parsed(JObj(acc + ms), rest))
  {
    MembersText_Shape(ms, rest);
    Members_FreshStep(acc, ms, "}" + rest);
    DropPrefix("}", rest);
    assert ms == [ms[0]];
  }

  lemma Members_Cons(acc: seq<Member>, ms: seq<Member>, rest: string)
    requires |ms| > 1 && FlatObject(acc + ms)
    requires ParseMembers(StringifyMembers(ms[1..]) + "}" + rest, acc + [ms[0]])
               == Some(Parsed(JObj((acc + [ms[0]]) + ms[1..]), rest))
    ensures ParseMembers(StringifyMembers(ms) + "}" + rest, acc) == Some(Parsed(JObj(acc + ms), rest))
  {
    MembersText_Shape(ms, rest);
    var more := StringifyMembers(ms[1..]) + "}" + rest;
    Members_FreshStep(acc, ms, "," + more);
    DropPrefix(",", more);
    AppendHead(acc, ms);
  }

  lemma {:induction false} Members_RoundTrip(acc: seq<Member>, ms: seq<Member>, rest: string)
    requires ms != [] && FlatObject(acc + ms)
    ensures ParseMembers(StringifyMembers(ms) + "}" + rest, acc) == Some(Parsed(JObj(acc + ms), rest))
    decreases |ms|
  {
    if |ms| == 1 {
      Members_Last(acc, ms, rest);
    } else {
      FlatShift(acc, ms);
      Members_RoundTrip(acc + [ms[0]], ms[1..], rest);
      Members_Cons(acc, ms, rest);
    }
  }

  lemma ParseValue_Object(s: string)
    requires s != [] && s[0] == '{'
    ensures ParseValue(s) == ParseObject(s[1..])
  {
    assert SkipWs(s) == s;
  }

  lemma ParseObject_Members(s: string)
    requires s != [] && s[0] == '"'
    ensures ParseObject(s) == ParseMembers(s, [])
  {
    assert SkipWs(s) == s;
  }

  lemma EmptyObject_RoundTrip()
    ensures Parse(Stringify(JObj([]))) == Some(JObj([]))
  {
    var s := Stringify(JObj([]));
    assert s == "{}";
    ParseValue_Object(s);
    assert s[1..] == "}";
    assert SkipWs(s[1..]) == "}";
    assert ParseObject(s[1..]) == Some(Parsed(JObj([]), []));
  }

  lemma ObjectText(ms: seq<Member>)
    ensures Stringify(JObj(ms)) == "{" + (StringifyMembers(ms) + "}" + [])
  {
    var text := StringifyMembers(ms);
    Assoc("{", text, "}");
    AppendEmpty(text + "}");
  }

  lemma AppendEmpty(x: string)
    ensures x + [] == x
  {
  }

  lemma ObjectBody_RoundTrip(ms: seq<Member>)
    requires ms != [] && FlatObject(ms)
    ensures ParseObject(StringifyMembers(ms) + "}" + []) == Some(Parsed(JObj(ms), []))
  {
    var body := StringifyMembers(ms) + "}" + [];
    MembersText_Shape(ms, []);
    ParseObject_Members(body);
    assert [] + ms == ms;
    Members_RoundTrip([], ms, []);
  }

  lemma NonEmptyObject_RoundTrip(ms: seq<Member>)
    requires ms != [] && FlatObject(ms)
    ensures Parse(Stringify(JObj(ms))) == Some(JObj(ms))
  {
    var body := StringifyMembers(ms) + "}" + [];
    ObjectText(ms);
    ParseValue_Object("{" + body);
    DropPrefix("{", body);
    ObjectBody_RoundTrip(ms);
  }

  /**
   * `JSON.parse(JSON.stringify(o))` gives back `o` for an object whose values
   * are strings or null.
   */
  lemma FlatObject_RoundTrip(ms: seq<Member>)
    requires FlatObject(ms)
    ensures Parse(Stringify(JObj(ms))) == Some(JObj(ms))
  {
    if ms == [] {
      EmptyObject_RoundTrip();
    } else {
      NonEmptyObject_RoundTrip(ms);
    }
  }

  /** A character `JSON.stringify` writes unchanged inside a string. */
  predicate Plain(c: char) {
    c != '"' && c != '\\' && c >= ' '
  }

  lemma {:induction false} EscapePlain(t: string)
    requires forall i :: 0 <= i < |t| ==> Plain(t[i])
    ensures Escape(t) == t
  {
    if t != [] {
      EscapePlain(t[1..]);
      assert [t[0]] + t[1..] == t;
    }
  }

  /** A string of plain characters between double quotes parses as that string. */
  lemma QuotedPlain_Parse(t: string)
    requires forall i :: 0 <= i < |t| ==> Plain(t[i])
    ensures Parse("\"" + t + "\"") == Some(JStr(t))
  {
    EscapePlain(t);
    ScalarValue_RoundTrip(JStr(t), "");
    assert Stringify(JStr(t)) + "" == "\"" + t + "\"";
    assert SkipWs("") == "";
  }
}
