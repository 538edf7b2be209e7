/**
 Putting a Markdown file into TypeScript source as a template literal
 (inject-mpas-spec.py): three chained replaces, a splice into the source text, and
 what a TypeScript reader then makes of the literal.
 */
module TemplateLiteral {
  import opened Options

  /** `str.replace` of one character. */
  function ReplaceChar(s: string, c: char, rep: string): string {
    if s == "" then "" else (if s[0] == c then rep else [s[0]]) + ReplaceChar(s[1..], c, rep)
  }

  /** `str.replace("${", "\${")`. */
  function ReplaceDollarBrace(s: string): string {
    if s == "" then ""
    else if |s| >= 2 && s[0] == '$' && s[1] == '{' then "\\${" + ReplaceDollarBrace(s[2..])
    else [s[0]] + ReplaceDollarBrace(s[1..])
  }

  /** The chain of the script: backslashes, then backticks, then dollar-braces. */
  function Escaped(s: string): string {
    ReplaceDollarBrace(ReplaceChar(ReplaceChar(s, '\\', "\\\\"), '`', "\\`"))
  }

  /** One pass that escapes a character where it stands. */
  function OnePass(s: string): string {
    if s == "" then ""
    else
      (if s[0] == '\\' || s[0] == '`' || (s[0] == '$' && |s| >= 2 && s[1] == '{') then ['\\', s[0]] else [s[0]])
      + OnePass(s[1..])
  }

  // ----- reading a template literal -----

  const LF := '\n'
  const CR := '\r'

  datatype Cooked =
    | Text(value: string, rest: string)   // closed by a backtick
    | Substitution(rest: string)          // an unescaped dollar-brace
    | Malformed                           // no terminator, or an escape outside this model

  function Prepend(c: string, r: Cooked): Cooked {
    if r.Text? then Text(c + r.value, r.rest) else r
  }

  /** What a backslash and one character stand for; None is an escape this model does not read. */
  function EscapeValue(c: char): Option<string> {
    if c == 'b' then Some([8 as char])
    else if c == 'f' then Some([12 as char])
    else if c == 'n' then Some([LF])
    else if c == 'r' then Some([CR])
    else if c == 't' then Some([9 as char])
    else if c == 'v' then Some([11 as char])
    else if c == LF || c == 0x2028 as char || c == 0x2029 as char then Some("")
    else if c == CR || c == 'u' || c == 'x' || '0' <= c <= '9' then None
    else Some([c])
  }

  /**
   The template value of the characters up to the closing backtick (sections 12.9.6
   and 12.9.6.1 of ECMA-262): CR and CR LF read as LF.
   */
  function Read(t: string): Cooked
    decreases |t|
  {
    if t == "" then Malformed
    else if t[0] == '`' then Text("", t[1..])
    else if t[0] == '$' && |t| >= 2 && t[1] == '{' then Substitution(t[2..])
    else if t[0] == '\\' then
      if |t| < 2 || EscapeValue(t[1]) == None then Malformed
      else Prepend(EscapeValue(t[1]).value, Read(t[2..]))
    else if t[0] == CR then
      if |t| >= 2 && t[1] == LF then Prepend([LF], Read(t[2..])) else Prepend([LF], Read(t[1..]))
    else Prepend([t[0]], Read(t[1..]))
  }

  /** CR LF and CR as LF. */
  function Normalized(s: string): string
    decreases |s|
  {
    if s == "" then ""
    else if s[0] != CR then [s[0]] + Normalized(s[1..])
    else if |s| >= 2 && s[1] == LF then Normalized(s[1..])
    else [LF] + Normalized(s[1..])
  }

  // ----- the chain is one pass -----

  /** What the first two replaces leave. */
  function Slashed(s: string): string {
    if s == "" then ""
    else (if s[0] == '\\' || s[0] == '`' then ['\\', s[0]] else [s[0]]) + Slashed(s[1..])
  }

  lemma ReplaceCharCons(x: char, t: string, c: char, rep: string)
    ensures ReplaceChar([x] + t, c, rep) == (if x == c then rep else [x]) + ReplaceChar(t, c, rep)
  {
    assert ([x] + t)[1..] == t;
  }

  lemma Regroup(a: string, b: string, c: string)
    ensures a + b + c == a + (b + c)
  {
  }

  lemma {:induction false} ReplaceCharSplits(a: string, b: string, c: char, rep: string)
    ensures ReplaceChar(a + b, c, rep) == ReplaceChar(a, c, rep) + ReplaceChar(b, c, rep)
  {
    if a == "" {
      assert a + b == b;
    } else {
      assert a + b == [a[0]] + (a[1..] + b) && a == [a[0]] + a[1..];
      ReplaceCharCons(a[0], a[1..] + b, c, rep);
      ReplaceCharCons(a[0], a[1..], c, rep);
      ReplaceCharSplits(a[1..], b, c, rep);
      Regroup(if a[0] == c then rep else [a[0]], ReplaceChar(a[1..], c, rep), ReplaceChar(b, c, rep));
    }
  }

  lemma {:induction false} TwoReplacesAreSlashed(s: string)
    ensures ReplaceChar(ReplaceChar(s, '\\', "\\\\"), '`', "\\`") == Slashed(s)
  {
    if s == "" {
    } else {
      var head := if s[0] == '\\' then "\\\\" else [s[0]];
      ReplaceCharSplits(head, ReplaceChar(s[1..], '\\', "\\\\"), '`', "\\`");
      TwoReplacesAreSlashed(s[1..]);
      assert "\\\\"[1..] == "\\" && "\\"[1..] == "" && [s[0]][1..] == "";
      assert ReplaceChar(head, '`', "\\`") == if s[0] == '\\' || s[0] == '`' then ['\\', s[0]] else [s[0]];
    }
  }

  /** A leading character that opens no dollar-brace is passed over. */
  lemma PassesOver(c: char, t: string)
    requires c != '$' || t == "" || t[0] != '{'
    ensures ReplaceDollarBrace([c] + t) == [c] + ReplaceDollarBrace(t)
  {
    assert ([c] + t)[1..] == t;
  }

  lemma SlashedStarts(s: string)
    ensures Slashed(s) != "" && Slashed(s)[0] == '{' <==> s != "" && s[0] == '{'
  {
  }

  lemma OpensBrace(t: string)
    ensures ReplaceDollarBrace(['$', '{'] + t) == "\\${" + ReplaceDollarBrace(t)
  {
    assert (['$', '{'] + t)[2..] == t;
  }

  lemma SlashPassed(c: char, t: string)
    requires c == '\\' || c == '`'
    ensures ReplaceDollarBrace(['\\', c] + t) == ['\\', c] + ReplaceDollarBrace(t)
  {
    PassesOver('\\', [c] + t);
    PassesOver(c, t);
    assert ['\\', c] + t == ['\\'] + ([c] + t);
  }

  lemma BraceCons(t: string)
    ensures Slashed(['{'] + t) == ['{'] + Slashed(t) && OnePass(['{'] + t) == ['{'] + OnePass(t)
  {
    assert (['{'] + t)[1..] == t;
  }

  lemma DollarCons(t: string)
    requires t != "" && t[0] == '{'
    ensures Slashed(['$'] + t) == ['$'] + Slashed(t) && OnePass(['$'] + t) == ['\\', '$'] + OnePass(t)
  {
    assert (['$'] + t)[1..] == t;
  }

  lemma BraceSlashed(s: string, t: string)
    requires s == ['$'] + (['{'] + t)
    ensures Slashed(s) == ['$', '{'] + Slashed(t)
    ensures OnePass(s) == "\\${" + OnePass(t)
  {
    DollarCons(['{'] + t);
    BraceCons(t);
  }

  lemma HeadSlashed(s: string)
    requires s != "" && !(s[0] == '$' && |s| >= 2 && s[1] == '{')
    ensures ReplaceDollarBrace(Slashed(s))
            == (if s[0] == '\\' || s[0] == '`' then ['\\', s[0]] else [s[0]]) + ReplaceDollarBrace(Slashed(s[1..]))
  {
    if s[0] == '\\' || s[0] == '`' {
      SlashPassed(s[0], Slashed(s[1..]));
    } else {
      SlashedStarts(s[1..]);
      PassesOver(s[0], Slashed(s[1..]));
    }
  }

  lemma {:induction false} DollarBraceOfSlashed(s: string)
    ensures ReplaceDollarBrace(Slashed(s)) == OnePass(s)
    decreases |s|
  {
    if |s| >= 2 && s[0] == '$' && s[1] == '{' {
      DollarBraceOfSlashed(s[2..]);
      BraceSlashed(s, s[2..]);
      OpensBrace(Slashed(s[2..]));
    } else if s != "" {
      DollarBraceOfSlashed(s[1..]);
      HeadSlashed(s);
    }
  }

  /** Main result: the three passes come to a single one. */
  lemma ChainIsOnePass(s: string)
    ensures Escaped(s) == OnePass(s)
  {
    TwoReplacesAreSlashed(s);
    DollarBraceOfSlashed(s);
  }

  // ----- and the reader undoes it -----

  /** What follows a character of the text in the literal: the next one, escaped or not, or the end. */
  function Rest(s: string, rest: string): string {
    OnePass(s) + (['`'] + rest)
  }

  lemma RestStarts(s: string, rest: string)
    ensures Rest(s, rest) != ""
    ensures Rest(s, rest)[0] == '{' <==> s != "" && s[0] == '{'
    ensures Rest(s, rest)[0] == LF <==> s != "" && s[0] == LF
  {
  }

  predicate NeedsSlash(s: string)
    requires s != ""
  {
    s[0] == '\\' || s[0] == '`' || (s[0] == '$' && |s| >= 2 && s[1] == '{')
  }

  lemma RestUnfolds(s: string, rest: string)
    requires s != ""
    ensures Rest(s, rest) == (if NeedsSlash(s) then ['\\', s[0]] else [s[0]]) + Rest(s[1..], rest)
  {
  }

  lemma ReadsSlashed(c: char, t: string)
    requires c == '\\' || c == '`' || c == '$'
    ensures Read(['\\', c] + t) == Prepend([c], Read(t))
  {
    assert (['\\', c] + t)[2..] == t;
  }

  lemma ReadsPlain(c: char, t: string)
    requires c != '\\' && c != '`' && c != CR && (c == '$' ==> t == "" || t[0] != '{')
    ensures Read([c] + t) == Prepend([c], Read(t))
  {
    assert ([c] + t)[1..] == t;
  }

  lemma ReadsCr(t: string)
    ensures (t == "" || t[0] != LF) ==> Read([CR] + t) == Prepend([LF], Read(t))
    ensures t != "" && t[0] == LF ==> Read([CR] + t) == Read(t)
  {
    assert ([CR] + t)[1..] == t;
    if t != "" && t[0] == LF {
      assert ([CR] + t)[2..] == t[1..];
    }
  }

  lemma {:induction false} ReadsOnePass(s: string, rest: string)
    ensures Read(Rest(s, rest)) == Text(Normalized(s), rest)
    decreases |s|
  {
    if s == "" {
      assert (['`'] + rest)[1..] == rest && Rest(s, rest) == ['`'] + rest;
    } else {
      var t := Rest(s[1..], rest);
      RestUnfolds(s, rest);
      RestStarts(s[1..], rest);
      ReadsOnePass(s[1..], rest);
      if NeedsSlash(s) {
        ReadsSlashed(s[0], t);
      } else if s[0] != CR {
        ReadsPlain(s[0], t);
      } else {
        ReadsCr(t);
      }
    }
  }

  lemma {:induction false} NormalizedIsSame(s: string)
    ensures |Normalized(s)| <= |s|
    ensures Normalized(s) == s <==> CR !in s
    decreases |s|
  {
    if s == "" {
    } else {
      assert s == [s[0]] + s[1..];
      NormalizedIsSame(s[1..]);
    }
  }

  /**
   Main result: whatever the text, the literal closes where the script closes it,
   with no substitution on the way, and reads as the text with its line ends
   normalised; it reads as the very text exactly when that has no carriage return.
   */
  lemma LiteralReadsBack(s: string, rest: string)
    ensures Read(Escaped(s) + "`" + rest) == Text(Normalized(s), rest)
    ensures Read(Escaped(s) + "`" + rest) == Text(s, rest) <==> CR !in s
  {
    assert Escaped(s) + "`" + rest == Escaped(s) + (['`'] + rest);
    ChainIsOnePass(s);
    ReadsOnePass(s, rest);
    NormalizedIsSame(s);
  }

  // ----- where the constant is spliced in -----

  const ANCHOR := "const SMA_RFC_001_MD = `"
  const CLOSE := "`;\n"

  predicate At(t: string, p: string, i: nat) {
    i + |p| <= |t| && t[i..i + |p|] == p
  }

  /** `str.find` from a position on. */
  function Find(t: string, p: string, from: nat): (r: Option<nat>)
    ensures r.Some? ==> from <= r.value && At(t, p, r.value)
    decreases |t| - from
  {
    if from > |t| then None
    else if At(t, p, from) then Some(from)
    else Find(t, p, from + 1)
  }

  /** It is the first from there: if `p` stands at `i`, the search ends there or before. */
  lemma {:induction false} FindsFirst(t: string, p: string, from: nat, i: nat)
    requires from <= i && At(t, p, i)
    ensures Find(t, p, from).Some? && Find(t, p, from).value <= i
    decreases |t| - from
  {
    if At(t, p, from) {
    } else {
      FindsFirst(t, p, from + 1, i);
    }
  }

  /** Where the script inserts: after the first close that follows the anchor. */
  function InsertPosition(content: string): Option<nat> {
    var anchor := Find(content, ANCHOR, 0);
    if anchor == None then None
    else
      var close := Find(content, CLOSE, anchor.value + |ANCHOR|);
      if close == None then None else Some(close.value + |CLOSE|)
  }

  /** The text has a line that ends in a backtick and a semicolon. */
  predicate HasClose(s: string) {
    |s| >= 3 && (s[..3] == CLOSE || HasClose(s[1..]))
  }

  /** The close begins at one of the first `n` characters. */
  predicate ClosesWithin(t: string, n: nat) {
    exists i: nat :: i < n && At(t, CLOSE, i)
  }

  lemma AtBehind(head: string, t: string, i: nat)
    ensures At(head + t, CLOSE, |head| + i) <==> At(t, CLOSE, i)
  {
    if |head| + i + 3 <= |head + t| {
      assert (head + t)[|head| + i..|head| + i + 3] == t[i..i + 3];
    }
  }

  lemma ClosesBehind(head: string, t: string, n: nat)
    requires forall i: nat :: i < |head| ==> !At(head + t, CLOSE, i)
    ensures ClosesWithin(head + t, |head| + n) <==> ClosesWithin(t, n)
  {
    if ClosesWithin(t, n) {
      var i: nat :| i < n && At(t, CLOSE, i);
      AtBehind(head, t, i);
    }
    if ClosesWithin(head + t, |head| + n) {
      var i: nat :| i < |head| + n && At(head + t, CLOSE, i);
      AtBehind(head, t, i - |head|);
    }
  }

  lemma CloseAt(t: string, i: nat)
    ensures At(t, CLOSE, i) <==> i + 3 <= |t| && t[i] == '`' && t[i + 1] == ';' && t[i + 2] == LF
  {
    if i + 3 <= |t| {
      assert t[i..i + 3] == [t[i], t[i + 1], t[i + 2]];
      assert CLOSE == ['`', ';', LF];
    }
  }

  /** How the two characters after one of the text look in the literal. */
  lemma NextTwo(s: string, rest: string)
    ensures var t := Rest(s, rest);
            (|t| >= 2 && t[0] == ';' && t[1] == LF) <==> (|s| >= 2 && s[0] == ';' && s[1] == LF)
  {
    if s != "" {
      RestUnfolds(s, rest);
      RestStarts(s[1..], rest);
    }
  }

  /** The escape neither hides a close nor makes one. */
  lemma {:induction false} CloseSurvivesEscape(s: string, rest: string)
    ensures ClosesWithin(Rest(s, rest), |OnePass(s)|) <==> HasClose(s)
    decreases |s|
  {
    if s == "" {
    } else {
      var head, t := if NeedsSlash(s) then ['\\', s[0]] else [s[0]], Rest(s[1..], rest);
      RestUnfolds(s, rest);
      CloseSurvivesEscape(s[1..], rest);
      NextTwo(s[1..], rest);
      CloseAt(head + t, 0);
      CloseAt(head + t, 1);
      CloseAt(s, 0);
      if At(s, CLOSE, 0) {
        assert At(head + t, CLOSE, 1);
        assert s[..3] == s[0..0 + 3];
      } else {
        ClosesBehind(head, t, |OnePass(s[1..])|);
        assert |s| >= 3 ==> s[..3] == s[0..0 + 3];
      }
    }
  }

  lemma CloseShifts(s: string, i: nat)
    requires s != ""
    ensures At(s, CLOSE, i + 1) <==> At(s[1..], CLOSE, i)
  {
    assert s == [s[0]] + s[1..];
    AtBehind([s[0]], s[1..], i);
  }

  lemma {:induction false} HasCloseAt(s: string, i: nat)
    requires At(s, CLOSE, i)
    ensures HasClose(s)
  {
    if i == 0 {
      assert s[0..0 + 3] == s[..3];
    } else {
      CloseShifts(s, i - 1);
      HasCloseAt(s[1..], i - 1);
    }
  }

  lemma {:induction false} CloseOf(s: string) returns (i: nat)
    requires HasClose(s)
    ensures At(s, CLOSE, i)
  {
    if s[..3] == CLOSE {
      i := 0;
      assert s[0..0 + 3] == s[..3];
    } else {
      i := CloseOf(s[1..]);
      CloseShifts(s, i);
      i := i + 1;
    }
  }

  /** `rest` is what stands behind a backtick of `t`. */
  predicate BehindBacktick(t: string, rest: string) {
    |rest| < |t| && t[|t| - |rest| - 1] == '`' && t[|t| - |rest|..] == rest
  }

  lemma BehindLater(t: string, k: nat, rest: string)
    requires k <= |t| && BehindBacktick(t[k..], rest)
    ensures BehindBacktick(t, rest)
  {
  }

  /** What is left over once a literal has been read stands right behind its closing backtick. */
  lemma {:induction false} ReadClosesAtBacktick(t: string)
    requires Read(t).Text?
    ensures BehindBacktick(t, Read(t).rest)
    decreases |t|
  {
    if t[0] == '`' {
    } else {
      var k := if t[0] == '\\' || (t[0] == CR && |t| >= 2 && t[1] == LF) then 2 else 1;
      assert Read(t).rest == Read(t[k..]).rest;
      ReadClosesAtBacktick(t[k..]);
      BehindLater(t, k, Read(t).rest);
    }
  }

  /** A close before the backtick at `end` lies wholly before it, so it is one of the text between. */
  lemma CloseBetween(content: string, start: nat, end: nat, i: nat)
    requires start <= i < end < |content| && content[end] == '`'
    ensures At(content, CLOSE, i) <==> At(content[start..end], CLOSE, i - start)
  {
    CloseAt(content, i);
    CloseAt(content[start..end], i - start);
  }

  /** The first close from `start` on stands at `end` exactly when one stands there and none in the text before. */
  lemma FirstCloseAt(content: string, start: nat, end: nat)
    requires start <= end < |content| && content[end] == '`'
    ensures Find(content, CLOSE, start) == Some(end) <==> At(content, CLOSE, end) && !HasClose(content[start..end])
  {
    var body, close := content[start..end], Find(content, CLOSE, start);
    if HasClose(body) {
      var i := CloseOf(body);
      CloseBetween(content, start, end, start + i);
      FindsFirst(content, CLOSE, start, start + i);
    } else if At(content, CLOSE, end) {
      FindsFirst(content, CLOSE, start, end);
      if close.value < end {
        CloseBetween(content, start, end, close.value);
        HasCloseAt(body, close.value - start);
      }
    }
  }

  /** The source text between the anchor and the backtick at `end`, and what follows, let the splice land behind it. */
  predicate LandsBehind(content: string, start: nat, end: nat)
    requires start <= end < |content|
  {
    && end + 2 < |content| && content[end + 1] == ';' && content[end + 2] == LF
    && !HasClose(content[start..end])
  }

  /** The anchor ends, and the literal it opens begins, at `start`. */
  predicate Opens(content: string, start: nat) {
    Find(content, ANCHOR, 0).Some? && start == Find(content, ANCHOR, 0).value + |ANCHOR|
  }

  lemma InsertsBehindClose(content: string, start: nat)
    requires Opens(content, start)
    ensures var close := Find(content, CLOSE, start);
            InsertPosition(content) == if close == None then None else Some(close.value + |CLOSE|)
  {
  }

  lemma SpliceBehindBacktick(content: string, start: nat, end: nat)
    requires Opens(content, start)
    requires start <= end < |content| && content[end] == '`'
    ensures InsertPosition(content) == Some(end + |CLOSE|) <==> LandsBehind(content, start, end)
  {
    InsertsBehindClose(content, start);
    CloseAt(content, end);
    FirstCloseAt(content, start, end);
  }

  /** The literal whose text begins at `start` is closed by the backtick at `end`. */
  predicate Closes(content: string, start: nat, end: nat) {
    start <= |content| && Read(content[start..]).Text? && end + 1 + |Read(content[start..]).rest| == |content|
  }

  lemma ClosesAtBacktick(content: string, start: nat, end: nat)
    requires Closes(content, start, end)
    ensures start <= end < |content| && content[end] == '`'
  {
    ReadClosesAtBacktick(content[start..]);
  }

  /**
   Main result: whatever literal the anchor opens, the constant is inserted right
   behind it exactly when a semicolon and a line end follow it and no line of its
   source text ends in a backtick and a semicolon.
   */
  lemma SpliceLandsBehindLiteral(content: string, start: nat, end: nat)
    requires Opens(content, start) && Closes(content, start, end)
    ensures start <= end < |content|
    ensures InsertPosition(content) == Some(end + |CLOSE|) <==> LandsBehind(content, start, end)
  {
    ClosesAtBacktick(content, start, end);
    SpliceBehindBacktick(content, start, end);
  }

  /**
   And of a literal that this script wrote, one before another: the source text has
   such a line exactly when the text it stands for has one.
   */
  lemma SpliceLandsBehindEscaped(before: string, text: string, rest: string)
    requires var content := before + ANCHOR + (Escaped(text) + (CLOSE + rest));
             Find(content, ANCHOR, 0) == Some(|before|)
    ensures var content := before + ANCHOR + (Escaped(text) + (CLOSE + rest));
            var behind := |before| + |ANCHOR| + |Escaped(text)| + |CLOSE|;
            && InsertPosition(content).Some?
            && InsertPosition(content).value <= behind
            && (InsertPosition(content).value == behind <==> !HasClose(text))
  {
    var head, tail := before + ANCHOR, Escaped(text) + (CLOSE + rest);
    FirstCloseOfLiteral(text, rest);
    FindBehind(head, tail, |Escaped(text)|);
  }

  /** A text of one such line: the constant lands in the literal, at the close that the text brought along. */
  lemma BacktickLineSplicesInside(rest: string)
    ensures var content := ANCHOR + (Escaped(CLOSE) + (CLOSE + rest));
            && InsertPosition(content).Some?
            && InsertPosition(content).value < |ANCHOR| + |Escaped(CLOSE)| + |CLOSE|
  {
    var content := ANCHOR + (Escaped(CLOSE) + (CLOSE + rest));
    assert content[0..0 + |ANCHOR|] == ANCHOR;
    assert At(content, ANCHOR, 0);
    assert Find(content, ANCHOR, 0) == Some(0);
    assert "" + ANCHOR == ANCHOR;
    SpliceLandsBehindEscaped("", CLOSE, rest);
    assert CLOSE[..3] == CLOSE;
  }

  /** The first close after the opening of the literal is its own exactly when the text has none. */
  lemma FirstCloseOfLiteral(text: string, rest: string)
    ensures var tail := Escaped(text) + (CLOSE + rest);
            && At(tail, CLOSE, |Escaped(text)|)
            && (ClosesWithin(tail, |Escaped(text)|) <==> HasClose(text))
  {
    ChainIsOnePass(text);
    assert CLOSE + rest == ['`'] + ([';', LF] + rest);
    CloseSurvivesEscape(text, [';', LF] + rest);
    assert (CLOSE + rest)[..3] == CLOSE;
    AtBehind(Escaped(text), CLOSE + rest, 0);
  }

  /** Searching from the end of `head` finds the first close of `tail`. */
  lemma FindBehind(head: string, tail: string, n: nat)
    requires At(tail, CLOSE, n)
    ensures var close := Find(head + tail, CLOSE, |head|);
            && close.Some? && close.value <= |head| + n
            && (close.value == |head| + n <==> !ClosesWithin(tail, n))
  {
    AtBehind(head, tail, n);
    FindsFirst(head + tail, CLOSE, |head|, |head| + n);
    var close := Find(head + tail, CLOSE, |head|).value;
    AtBehind(head, tail, close - |head|);
    if ClosesWithin(tail, n) {
      var i: nat :| i < n && At(tail, CLOSE, i);
      AtBehind(head, tail, i);
      FindsFirst(head + tail, CLOSE, |head|, |head| + i);
    }
  }

  const NAME := "MPAS_SPEC_MD"
  const OPENING := "const MPAS_SPEC_MD = `"

  lemma SplicedReads(before: string, spec: string, after: string)
    ensures var spliced := before + [LF] + (OPENING + Escaped(spec) + CLOSE) + after;
            var start := |before| + 1 + |OPENING|;
            && start <= |spliced| && spliced[..start] == before + [LF] + OPENING
            && Read(spliced[start..]) == Text(Normalized(spec), [';', LF] + after)
  {
    var spliced := before + [LF] + (OPENING + Escaped(spec) + CLOSE) + after;
    var head, tail := before + [LF] + OPENING, Escaped(spec) + "`" + ([';', LF] + after);
    assert CLOSE == "`" + [';', LF];
    assert spliced == head + tail;
    assert (head + tail)[..|head|] == head && (head + tail)[|head|..] == tail;
    LiteralReadsBack(spec, [';', LF] + after);
  }

  /**
   The splice of the constant; None when the anchor or its close is missing, and
   the script exits. What is inserted is a literal that reads as the specification.
   */
  method InjectConstant(content: string, spec: string) returns (r: Option<string>)
    ensures r == None <==> InsertPosition(content) == None
    ensures r.Some? && Find(content, "MPAS_SPEC_MD", 0).Some? ==> r.value == content
    ensures r.Some? && Find(content, "MPAS_SPEC_MD", 0) == None ==>
              var p := InsertPosition(content).value;
              var start := p + 1 + |"const MPAS_SPEC_MD = `"|;
              && p <= |content| && start <= |r.value|
              && r.value[..start] == content[..p] + [LF] + "const MPAS_SPEC_MD = `"
              && Read(r.value[start..]) == Text(Normalized(spec), [';', LF] + content[p..])
  {
    var escaped := Escaped(spec);
    var constant := OPENING + escaped + CLOSE;
    var idx := Find(content, ANCHOR, 0);
    if idx == None {
      return None;
    }
    var closeIdx := Find(content, CLOSE, idx.value + |ANCHOR|);
    if closeIdx == None {
      return None;
    }
    var insertPos := closeIdx.value + |CLOSE|;
    if Find(content, NAME, 0).Some? {
      return Some(content);
    }
    var spliced := content[..insertPos] + [LF] + constant + content[insertPos..];
    SplicedReads(content[..insertPos], spec, content[insertPos..]);
    r := Some(spliced);
  }
}
