/**
 What the three orders on names are: by UTF-16 code unit as `Array.prototype.sort`
 compares strings, by code point as Python does, and by number among the names that
 JavaScript takes for array indices.
 */
module CanonicalOrders {
  import opened Options
  import opened JsonText
  import opened CanonicalPayload

  /** Dictionary order. */
  predicate Before(a: seq<int>, b: seq<int>) {
    b != [] && (a == [] || a[0] < b[0] || (a[0] == b[0] && Before(a[1..], b[1..])))
  }

  lemma {:induction false} CommonHead(head: seq<int>, a: seq<int>, b: seq<int>)
    ensures Before(head + a, head + b) <==> Before(a, b)
  {
    if head == [] {
      assert [] + a == a && [] + b == b;
    } else {
      assert (head + a)[1..] == head[1..] + a && (head + b)[1..] == head[1..] + b;
      CommonHead(head[1..], a, b);
    }
  }

  // ----- code units and code points -----

  /** The UTF-16 code units of a character. */
  function Units(c: char): (r: seq<int>)
    ensures 1 <= |r| <= 2
  {
    var n := c as int;
    if n < 0x10000 then [n] else [0xD800 + (n - 0x10000) / 0x400, 0xDC00 + (n - 0x10000) % 0x400]
  }

  function Utf16(s: string): (r: seq<int>)
    ensures r == [] <==> s == ""
  {
    if s == "" then [] else Units(s[0]) + Utf16(s[1..])
  }

  lemma HalvesOrder(m: nat, n: nat)
    requires m < n
    ensures m / 0x400 < n / 0x400 || (m / 0x400 == n / 0x400 && m % 0x400 < n % 0x400)
  {
  }

  lemma LessUnits(c: char, d: char, x: seq<int>, y: seq<int>)
    requires Rank(CodeUnits, c) < Rank(CodeUnits, d)
    ensures Before(Units(c) + x, Units(d) + y)
  {
    var m, n := c as int, d as int;
    if m >= 0x10000 && n >= 0x10000 {
      HalvesOrder(m - 0x10000, n - 0x10000);
      assert (Units(c) + x)[1..][0] == Units(c)[1] && (Units(d) + y)[1..][0] == Units(d)[1];
    }
  }

  lemma {:induction false} BeforeIsAsymmetric(a: seq<int>, b: seq<int>)
    ensures !(Before(a, b) && Before(b, a))
  {
    if a == [] || b == [] {
    } else {
      BeforeIsAsymmetric(a[1..], b[1..]);
    }
  }

  /** Main result: the order of the TypeScript text is that of the UTF-16 code units. */
  lemma {:induction false} CodeUnitsIsUtf16Order(a: string, b: string)
    ensures Lex(CodeUnits, a, b) <==> Before(Utf16(a), Utf16(b))
  {
    if a == "" || b == "" {
    } else if a[0] == b[0] {
      CodeUnitsIsUtf16Order(a[1..], b[1..]);
      CommonHead(Units(a[0]), Utf16(a[1..]), Utf16(b[1..]));
    } else if Rank(CodeUnits, a[0]) < Rank(CodeUnits, b[0]) {
      LessUnits(a[0], b[0], Utf16(a[1..]), Utf16(b[1..]));
    } else {
      LessUnits(b[0], a[0], Utf16(b[1..]), Utf16(a[1..]));
      BeforeIsAsymmetric(Utf16(a), Utf16(b));
    }
  }

  function Points(s: string): (r: seq<int>)
    ensures r == [] <==> s == ""
  {
    if s == "" then [] else [s[0] as int] + Points(s[1..])
  }

  /** And that of the Python text is that of the code points. */
  lemma {:induction false} CodePointsIsPointOrder(a: string, b: string)
    ensures Lex(CodePoints, a, b) <==> Before(Points(a), Points(b))
  {
    if a == "" || b == "" {
    } else {
      CodePointsIsPointOrder(a[1..], b[1..]);
    }
  }

  /** The two differ: an emoji comes before a full-width letter for one and behind it for the other. */
  lemma OrdersDiffer(emoji: char, fullWidth: char)
    requires emoji as int == 0x1F600 && fullWidth as int == 0xFF21
    ensures Less(CodeUnits, [emoji], [fullWidth]) && Less(CodePoints, [fullWidth], [emoji])
  {
  }

  // ----- array indices -----

  function Digit(n: nat): char
    requires n < 10
  {
    "0123456789"[n]
  }

  /** `String(n)`. */
  function Decimal(n: nat): (r: string)
    ensures r != ""
  {
    if n < 10 then [Digit(n)] else Decimal(n / 10) + [Digit(n % 10)]
  }

  lemma DigitsOrder(m: nat, n: nat)
    requires m < 10 && n < 10
    ensures Digit(m) as int == 48 + m && (m < n <==> Digit(m) as int < Digit(n) as int)
  {
  }

  lemma {:induction false} LexAppends(a: string, b: string, x: char, y: char)
    requires |a| == |b|
    ensures Lex(Numeric, a, b) ==> Lex(Numeric, a + [x], b + [y])
    ensures a == b && x as int < y as int ==> Lex(Numeric, a + [x], b + [y])
  {
    if a == "" {
    } else {
      assert (a + [x])[1..] == a[1..] + [x] && (b + [y])[1..] == b[1..] + [y];
      LexAppends(a[1..], b[1..], x, y);
    }
  }

  lemma {:induction false} SmallerIsLess(m: nat, n: nat)
    requires m < n
    ensures Less(Numeric, Decimal(m), Decimal(n))
    ensures |Decimal(m)| <= |Decimal(n)|
    decreases n
  {
    if n < 10 {
      DigitsOrder(m, n);
    } else if m < 10 {
    } else {
      DigitsOrder(m % 10, n % 10);
      if m / 10 < n / 10 {
        SmallerIsLess(m / 10, n / 10);
      }
      if |Decimal(m / 10)| == |Decimal(n / 10)| {
        LexAppends(Decimal(m / 10), Decimal(n / 10), Digit(m % 10), Digit(n % 10));
      }
    }
  }

  /** Main result: among numerals the order is that of the numbers. */
  lemma NumericIsOrderOfNumbers(m: nat, n: nat)
    ensures Less(Numeric, Decimal(m), Decimal(n)) <==> m < n
  {
    if m < n {
      SmallerIsLess(m, n);
    } else if n < m {
      SmallerIsLess(n, m);
      LessIsOrder(Numeric, Decimal(m), Decimal(n), Decimal(m));
    } else {
      LessIsOrder(Numeric, Decimal(m), Decimal(n), "");
    }
  }

  predicate IsNumeral(name: string) {
    && name != ""
    && (forall i :: 0 <= i < |name| ==> '0' <= name[i] <= '9')
    && (name[0] == '0' ==> name == "0")
  }

  lemma {:induction false} DecimalIsNumeral(n: nat)
    ensures IsNumeral(Decimal(n)) && (Decimal(n)[0] == '0' <==> n == 0)
  {
    if n < 10 {
      DigitsOrder(n, 0);
    } else {
      DecimalIsNumeral(n / 10);
      DigitsOrder(n % 10, 0);
    }
  }

  lemma {:induction false} NumeralIsDecimal(name: string) returns (n: nat)
    requires IsNumeral(name)
    ensures name == Decimal(n)
  {
    var d := name[|name| - 1] as int - 48;
    assert Digit(d) == name[|name| - 1];
    if |name| == 1 {
      n := d;
    } else {
      var front := name[..|name| - 1];
      var m := NumeralIsDecimal(front);
      DecimalIsNumeral(m);
      assert m > 0;
      n := m * 10 + d;
      assert n / 10 == m && n % 10 == d;
    }
  }

  lemma OneMoreDigit(m: nat, d: nat, front: string, whole: string)
    requires m > 0 && d < 10 && Decimal(m) == front && whole == front + [Digit(d)]
    ensures Decimal(m * 10 + d) == whole
  {
  }

  lemma TopIndex()
    ensures Decimal(4294967295) == "4294967295"
  {
    OneMoreDigit(4, 2, "4", "42");
    OneMoreDigit(42, 9, "42", "429");
    OneMoreDigit(429, 4, "429", "4294");
    OneMoreDigit(4294, 9, "4294", "42949");
    OneMoreDigit(42949, 6, "42949", "429496");
    OneMoreDigit(429496, 7, "429496", "4294967");
    OneMoreDigit(4294967, 2, "4294967", "42949672");
    OneMoreDigit(42949672, 9, "42949672", "429496729");
    OneMoreDigit(429496729, 5, "429496729", "4294967295");
  }

  /** Main result: a name is an array index exactly when it is how a number below 2^32 - 1 is written. */
  lemma IndexIsNumeralBelowTop(name: string)
    ensures IsIndex(name) <==> exists n: nat :: n < 4294967295 && name == Decimal(n)
  {
    TopIndex();
    if IsIndex(name) {
      var n := NumeralIsDecimal(name);
      NumericIsOrderOfNumbers(n, 4294967295);
    }
    forall n: nat | n < 4294967295 && name == Decimal(n)
      ensures IsIndex(name)
    {
      DecimalIsNumeral(n);
      NumericIsOrderOfNumbers(n, 4294967295);
    }
  }
}
