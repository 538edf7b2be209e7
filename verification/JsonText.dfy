/**
 JSON strings and flat objects as `JSON.stringify` and Python's `json.dumps` write
 them in compact form, and a reader that follows sections 4 and 7 of RFC 8259.
 */
module JsonText {
  import opened Options

  /** `JSON.stringify` leaves every other character alone; `json.dumps` writes ASCII. */
  datatype Writer = Stringify | Dumps

  function HexDigit(n: nat): char
    requires n < 16
  {
    "0123456789abcdef"[n]
  }

  function HexValue(c: char): Option<nat> {
    if '0' <= c <= '9' then Some(c as int - '0' as int)
    else if 'a' <= c <= 'f' then Some(c as int - 'a' as int + 10)
    else if 'A' <= c <= 'F' then Some(c as int - 'A' as int + 10)
    else None
  }

  function HexDigits(n: nat, k: nat): string {
    if k == 0 then "" else HexDigits(n / 16, k - 1) + [HexDigit(n % 16)]
  }

  /** The escape of one code unit. */
  function Unit(n: nat): string {
    ['\\', 'u'] + HexDigits(n, 4)
  }

  function Escaped(w: Writer, c: char): string {
    var n := c as int;
    if c == '\"' then ['\\', '\"']
    else if c == '\\' then ['\\', '\\']
    else if n == 8 then ['\\', 'b']
    else if n == 9 then ['\\', 't']
    else if n == 10 then ['\\', 'n']
    else if n == 12 then ['\\', 'f']
    else if n == 13 then ['\\', 'r']
    else if n < 0x20 then Unit(n)
    else if w.Stringify? || n < 0x7f then [c]
    else if n < 0x10000 then Unit(n)
    else Unit(0xD800 + (n - 0x10000) / 0x400) + Unit(0xDC00 + (n - 0x10000) % 0x400)
  }

  function EscapedAll(w: Writer, s: string): string {
    if s == "" then "" else Escaped(w, s[0]) + EscapedAll(w, s[1..])
  }

  function Quoted(w: Writer, s: string): string {
    ['\"'] + EscapedAll(w, s) + ['\"']
  }

  datatype Field = Field(name: string, value: Option<string>)

  function Valued(w: Writer, v: Option<string>): string {
    if v.Some? then Quoted(w, v.value) else "null"
  }

  function Member(w: Writer, f: Field): string {
    Quoted(w, f.name) + [':'] + Valued(w, f.value)
  }

  function Members(w: Writer, fs: seq<Field>): string
    requires fs != []
  {
    if |fs| == 1 then Member(w, fs[0]) else Member(w, fs[0]) + [','] + Members(w, fs[1..])
  }

  function Object(w: Writer, fs: seq<Field>): string {
    if fs == [] then "{}" else ['{'] + Members(w, fs) + ['}']
  }

  // ----- reading -----

  datatype Read<T> = Fail | Got(value: T, rest: string)

  function HexNumber(t: string): Option<nat> {
    if t == "" then Some(0)
    else
      var high, low := HexNumber(t[..|t| - 1]), HexValue(t[|t| - 1]);
      if high == None || low == None then None else Some(high.value * 16 + low.value)
  }

  /** The code unit spelled by four hexadecimal digits. */
  function ReadUnit(t: string): (r: Read<nat>)
    ensures r.Got? ==> |r.rest| == |t| - 4
  {
    if |t| < 4 || HexNumber(t[..4]) == None then Fail else Got(HexNumber(t[..4]).value, t[4..])
  }

  /** The character that a pair of surrogates spells. */
  function Paired(high: nat, low: nat): char
    requires 0xD800 <= high < 0xDC00 <= low < 0xE000
  {
    (0x10000 + (high - 0xD800) * 0x400 + (low - 0xDC00)) as char
  }

  /** What must follow an escaped high surrogate: an escaped low one. */
  function ReadLowHalf(high: nat, t: string): (r: Read<char>)
    requires 0xD800 <= high < 0xDC00
    ensures r.Got? ==> |r.rest| < |t|
  {
    if |t| < 2 || t[0] != '\\' || t[1] != 'u' then Fail
    else
      var low := ReadUnit(t[2..]);
      if low.Fail? || low.value < 0xDC00 || 0xE000 <= low.value then Fail
      else Got(Paired(high, low.value), low.rest)
  }

  /** The character whose escape began with a backslash and a `u`; an escaped pair of surrogates is one. */
  function ReadEscapedUnit(t: string): (r: Read<char>)
    ensures r.Got? ==> |r.rest| < |t|
  {
    var unit := ReadUnit(t);
    if unit.Fail? || 0x10000 <= unit.value then Fail
    else if unit.value < 0xD800 || 0xE000 <= unit.value then Got(unit.value as char, unit.rest)
    else if 0xDC00 <= unit.value then Fail
    else ReadLowHalf(unit.value, unit.rest)
  }

  /** One character of a string literal, escaped or not. */
  function ReadChar(t: string): (r: Read<char>)
    ensures r.Got? ==> |r.rest| < |t|
  {
    if t == "" || t[0] == '\"' || t[0] as int < 0x20 then Fail
    else if t[0] != '\\' then Got(t[0], t[1..])
    else if |t| < 2 then Fail
    else if t[1] == '\"' || t[1] == '\\' || t[1] == '/' then Got(t[1], t[2..])
    else if t[1] == 'b' then Got(8 as char, t[2..])
    else if t[1] == 't' then Got(9 as char, t[2..])
    else if t[1] == 'n' then Got(10 as char, t[2..])
    else if t[1] == 'f' then Got(12 as char, t[2..])
    else if t[1] == 'r' then Got(13 as char, t[2..])
    else if t[1] == 'u' then ReadEscapedUnit(t[2..])
    else Fail
  }

  /** The rest of a string literal whose opening quote has been read. */
  function ReadRest(t: string): (r: Read<string>)
    ensures r.Got? ==> |r.rest| < |t|
    decreases |t|
  {
    if t != "" && t[0] == '\"' then Got("", t[1..])
    else
      var c := ReadChar(t);
      if c.Fail? then Fail
      else
        var more := ReadRest(c.rest);
        if more.Fail? then Fail else Got([c.value] + more.value, more.rest)
  }

  function ReadString(t: string): (r: Read<string>)
    ensures r.Got? ==> |r.rest| < |t|
  {
    if t != "" && t[0] == '\"' then ReadRest(t[1..]) else Fail
  }

  function ReadValue(t: string): (r: Read<Option<string>>)
    ensures r.Got? ==> |r.rest| < |t|
  {
    if |t| >= 4 && t[..4] == "null" then Got(None, t[4..])
    else
      var s := ReadString(t);
      if s.Fail? then Fail else Got(Some(s.value), s.rest)
  }

  function ReadMember(t: string): (r: Read<Field>)
    ensures r.Got? ==> |r.rest| < |t|
  {
    var name := ReadString(t);
    if name.Fail? || name.rest == "" || name.rest[0] != ':' then Fail
    else
      var value := ReadValue(name.rest[1..]);
      if value.Fail? then Fail else Got(Field(name.value, value.value), value.rest)
  }

  function ReadMembers(t: string): Read<seq<Field>>
    decreases |t|
  {
    var f := ReadMember(t);
    if f.Fail? || f.rest == "" then Fail
    else if f.rest[0] == '}' then Got([f.value], f.rest[1..])
    else if f.rest[0] != ',' then Fail
    else
      var more := ReadMembers(f.rest[1..]);
      if more.Fail? then Fail else Got([f.value] + more.value, more.rest)
  }

  function ReadObject(t: string): Read<seq<Field>> {
    if |t| >= 2 && t[..2] == "{}" then Got([], t[2..])
    else if t != "" && t[0] == '{' then ReadMembers(t[1..])
    else Fail
  }

  // ----- what is written reads back -----

  lemma HexRoundTrip(n: nat)
    requires n < 16
    ensures HexValue(HexDigit(n)) == Some(n)
  {
  }

  lemma HexNumberAppends(t: string, n: nat, d: nat)
    requires HexNumber(t) == Some(n) && d < 16
    ensures HexNumber(t + [HexDigit(d)]) == Some(n * 16 + d)
  {
    HexRoundTrip(d);
    assert (t + [HexDigit(d)])[..|t|] == t;
  }

  lemma DropsADigit(n: nat, p: nat)
    requires n < 16 * p
    ensures n / 16 < p
  {
  }

  lemma LastDigit(n: nat, k: nat)
    requires k > 0
    ensures HexDigits(n, k) == HexDigits(n / 16, k - 1) + [HexDigit(n % 16)]
  {
  }

  function Pow16(k: nat): nat {
    if k == 0 then 1 else 16 * Pow16(k - 1)
  }

  lemma {:induction false} HexDigitsCount(n: nat, k: nat)
    ensures |HexDigits(n, k)| == k
  {
    if k == 0 {
    } else {
      HexDigitsCount(n / 16, k - 1);
    }
  }

  lemma {:induction false} HexNumberRoundTrip(n: nat, k: nat)
    requires n < Pow16(k)
    ensures HexNumber(HexDigits(n, k)) == Some(n)
  {
    if k == 0 {
    } else {
      DropsADigit(n, Pow16(k - 1));
      HexNumberRoundTrip(n / 16, k - 1);
      LastDigit(n, k);
      HexNumberAppends(HexDigits(n / 16, k - 1), n / 16, n % 16);
    }
  }

  lemma ReadsUnit(n: nat, rest: string)
    requires n < 0x10000
    ensures ReadUnit(HexDigits(n, 4) + rest) == Got(n, rest)
  {
    assert Pow16(4) == 16 * Pow16(3) && Pow16(3) == 16 * Pow16(2) && Pow16(2) == 16 * Pow16(1);
    HexNumberRoundTrip(n, 4);
    HexDigitsCount(n, 4);
    var digits := HexDigits(n, 4);
    assert (digits + rest)[..4] == digits && (digits + rest)[4..] == rest;
  }

  /** An escape begins with a backslash and a `u`, and the rest is up to its digits. */
  lemma UnitOpens(n: nat, rest: string)
    ensures var t := Unit(n) + rest;
            |t| >= 2 && t[0] == '\\' && t[1] == 'u' && t[2..] == HexDigits(n, 4) + rest
  {
  }

  lemma ReadsLowHalf(high: nat, low: nat, rest: string)
    requires 0xD800 <= high < 0xDC00 <= low < 0xE000
    ensures ReadLowHalf(high, Unit(low) + rest) == Got(Paired(high, low), rest)
  {
    UnitOpens(low, rest);
    ReadsUnit(low, rest);
  }

  lemma ReadsHighHalf(high: nat, after: string)
    requires 0xD800 <= high < 0xDC00
    ensures ReadChar(Unit(high) + after) == ReadLowHalf(high, after)
  {
    UnitOpens(high, after);
    ReadsUnit(high, after);
  }

  /** A character past U+FFFF is spelled by a high and a low surrogate. */
  lemma PairSpells(n: nat)
    requires 0x10000 <= n < 0x110000
    ensures var high, low := 0xD800 + (n - 0x10000) / 0x400, 0xDC00 + (n - 0x10000) % 0x400;
            0xD800 <= high < 0xDC00 <= low < 0xE000 && Paired(high, low) == n as char
  {
    var q, r := (n - 0x10000) / 0x400, (n - 0x10000) % 0x400;
    assert q * 0x400 + r == n - 0x10000 && q < 0x400;
  }

  lemma Associates(a: string, b: string, c: string)
    ensures a + b + c == a + (b + c)
  {
  }

  lemma ReadsPair(high: nat, low: nat, t: string, rest: string)
    requires 0xD800 <= high < 0xDC00 <= low < 0xE000 && t == Unit(high) + Unit(low) + rest
    ensures ReadChar(t) == Got(Paired(high, low), rest)
  {
    Associates(Unit(high), Unit(low), rest);
    ReadsHighHalf(high, Unit(low) + rest);
    ReadsLowHalf(high, low, rest);
  }

  lemma ReadsOne(n: nat, rest: string)
    requires n < 0xD800 || 0xE000 <= n < 0x10000
    ensures ReadChar(Unit(n) + rest) == Got(n as char, rest)
  {
    UnitOpens(n, rest);
    ReadsUnit(n, rest);
  }

  lemma ReadsShort(w: Writer, c: char, t: string, rest: string)
    requires |Escaped(w, c)| == 2 && t == Escaped(w, c) + rest
    ensures ReadChar(t) == Got(c, rest)
  {
    assert t[2..] == rest && t[0] == Escaped(w, c)[0] && t[1] == Escaped(w, c)[1];
  }

  lemma ReadsItself(c: char, t: string, rest: string)
    requires t == [c] + rest && c != '\\' && c != '\"' && c as int >= 0x20
    ensures ReadChar(t) == Got(c, rest)
  {
    assert t[1..] == rest;
  }

  lemma ReadsAscii(w: Writer, c: char, rest: string)
    requires c as int < 0x7f
    ensures ReadChar(Escaped(w, c) + rest) == Got(c, rest)
  {
    var t, n := Escaped(w, c) + rest, c as int;
    if c == '\"' || c == '\\' || n in {8, 9, 10, 12, 13} {
      ReadsShort(w, c, t, rest);
    } else if n < 0x20 {
      ReadsOne(n, rest);
    } else {
      ReadsItself(c, t, rest);
    }
  }

  lemma EscapedAsUnit(c: char)
    requires 0x7f <= c as int < 0x10000
    ensures Escaped(Dumps, c) == Unit(c as int)
  {
  }

  lemma EscapedAsPair(c: char) returns (high: nat, low: nat)
    requires 0x10000 <= c as int
    ensures 0xD800 <= high < 0xDC00 <= low < 0xE000
    ensures Paired(high, low) == c && Escaped(Dumps, c) == Unit(high) + Unit(low)
  {
    var n := c as int;
    high, low := 0xD800 + (n - 0x10000) / 0x400, 0xDC00 + (n - 0x10000) % 0x400;
    PairSpells(n);
  }

  lemma ReadsDumpedUnit(c: char, t: string, rest: string)
    requires 0x7f <= c as int < 0x10000 && t == Escaped(Dumps, c) + rest
    ensures ReadChar(t) == Got(c, rest)
  {
    EscapedAsUnit(c);
    ReadsOne(c as int, rest);
  }

  lemma ReadsDumpedPair(c: char, t: string, rest: string)
    requires 0x10000 <= c as int && t == Escaped(Dumps, c) + rest
    ensures ReadChar(t) == Got(c, rest)
  {
    var high, low := EscapedAsPair(c);
    ReadsPair(high, low, t, rest);
  }

  lemma ReadsWide(w: Writer, c: char, t: string, rest: string)
    requires c as int >= 0x7f && t == Escaped(w, c) + rest
    ensures ReadChar(t) == Got(c, rest)
  {
    if w.Stringify? {
      ReadsItself(c, t, rest);
    } else if c as int < 0x10000 {
      ReadsDumpedUnit(c, t, rest);
    } else {
      ReadsDumpedPair(c, t, rest);
    }
  }

  lemma ReadsEscaped(w: Writer, c: char, rest: string)
    ensures ReadChar(Escaped(w, c) + rest) == Got(c, rest)
  {
    if c as int < 0x7f {
      ReadsAscii(w, c, rest);
    } else {
      ReadsWide(w, c, Escaped(w, c) + rest, rest);
    }
  }

  /** How the two writers spell what must be escaped: short forms where there are any, else lower-case hexadecimal. */
  lemma SpelledByBoth(w: Writer, c: char)
    requires c as int < 0x20 || c == '\"' || c == '\\'
    ensures Escaped(w, c) == match c as int
                             case 8 => "\\b"
                             case 9 => "\\t"
                             case 10 => "\\n"
                             case 12 => "\\f"
                             case 13 => "\\r"
                             case 34 => "\\\""
                             case 92 => "\\\\"
                             case n => "\\u00" + ["01"[n / 16], "0123456789abcdef"[n % 16]]
  {
    var n := c as int;
    if n < 0x20 && n !in {8, 9, 10, 12, 13} {
      LastDigit(n, 4);
      LastDigit(n / 16, 3);
      LastDigit(n / 16 / 16, 2);
      LastDigit(n / 16 / 16 / 16, 1);
      assert n / 16 / 16 == 0 && (n / 16) % 16 == n / 16;
    }
  }

  lemma EscapedStarts(w: Writer, c: char)
    ensures Escaped(w, c) != "" && Escaped(w, c)[0] != '\"'
  {
  }

  lemma {:induction false} ReadsAll(w: Writer, s: string, rest: string)
    ensures ReadRest(EscapedAll(w, s) + ['\"'] + rest) == Got(s, rest)
  {
    var t := EscapedAll(w, s) + ['\"'] + rest;
    if s == "" {
      assert t[1..] == rest;
    } else {
      var after := EscapedAll(w, s[1..]) + ['\"'] + rest;
      assert t == Escaped(w, s[0]) + after;
      EscapedStarts(w, s[0]);
      assert t[0] == Escaped(w, s[0])[0];
      assert [s[0]] + s[1..] == s;
      ReadsEscaped(w, s[0], after);
      ReadsAll(w, s[1..], rest);
    }
  }

  /** Section 7 of RFC 8259: reading a string literal gives back the string, whichever writer wrote it. */
  lemma StringRoundTrip(w: Writer, s: string, rest: string)
    ensures ReadString(Quoted(w, s) + rest) == Got(s, rest)
  {
    ReadsAll(w, s, rest);
    OpensString(EscapedAll(w, s), rest);
  }

  lemma OpensString(body: string, rest: string)
    ensures ReadString(['\"'] + body + ['\"'] + rest) == ReadRest(body + ['\"'] + rest)
  {
    var t := body + ['\"'] + rest;
    assert ['\"'] + body + ['\"'] + rest == ['\"'] + t;
    assert (['\"'] + t)[1..] == t;
  }

  lemma ValueRoundTrip(w: Writer, v: Option<string>, rest: string)
    ensures ReadValue(Valued(w, v) + rest) == Got(v, rest)
  {
    var t := Valued(w, v) + rest;
    if v.Some? {
      StringRoundTrip(w, v.value, rest);
      assert t[0] == '\"';
      assert |t| >= 4 ==> t[..4][0] == '\"';
    } else {
      assert t[..4] == "null" && t[4..] == rest;
    }
  }

  lemma MemberRoundTrip(w: Writer, f: Field, rest: string)
    ensures ReadMember(Member(w, f) + rest) == Got(f, rest)
  {
    var v := Valued(w, f.value) + rest;
    assert Member(w, f) + rest == Quoted(w, f.name) + ([':'] + v);
    StringRoundTrip(w, f.name, [':'] + v);
    assert ([':'] + v)[1..] == v;
    ValueRoundTrip(w, f.value, rest);
  }

  lemma Regroup(a: string, b: string, c: string, d: string)
    ensures a + b + c + d == a + (b + (c + d))
  {
  }

  lemma LastMember(w: Writer, f: Field)
    ensures ReadMembers(Member(w, f) + ['}']) == Got([f], "")
  {
    MemberRoundTrip(w, f, ['}']);
  }

  lemma OneMoreMember(w: Writer, f: Field, tail: string, fs: seq<Field>)
    requires ReadMembers(tail) == Got(fs, "")
    ensures ReadMembers(Member(w, f) + ([','] + tail)) == Got([f] + fs, "")
  {
    MemberRoundTrip(w, f, [','] + tail);
    assert ([','] + tail)[1..] == tail;
  }

  lemma {:induction false} MembersRoundTrip(w: Writer, fs: seq<Field>)
    requires fs != []
    ensures ReadMembers(Members(w, fs) + ['}']) == Got(fs, "")
    decreases |fs|
  {
    if |fs| == 1 {
      LastMember(w, fs[0]);
      assert fs == [fs[0]];
    } else {
      var f, rest := fs[0], fs[1..];
      assert fs == [f] + rest;
      MembersRoundTrip(w, rest);
      OneMoreMember(w, f, Members(w, rest) + ['}'], rest);
      Regroup(Member(w, f), [','], Members(w, rest), ['}']);
    }
  }

  /** Reading an object gives back its members in order. */
  lemma ObjectRoundTrip(w: Writer, fs: seq<Field>)
    ensures ReadObject(Object(w, fs)) == Got(fs, "")
  {
    var t := Object(w, fs);
    if fs == [] {
      assert t[..2] == "{}" && t[2..] == "";
    } else {
      MembersRoundTrip(w, fs);
      assert t[1..] == Members(w, fs) + ['}'];
      assert Members(w, fs)[0] == '\"' && t[1] == '\"' && t[..2][1] == '\"';
    }
  }
}
