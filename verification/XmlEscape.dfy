/**
 The escaper of the SVG status card (insert-card-endpoint.py): four chained
 replaces, undone by the predefined entities of section 4.6 of XML 1.0.
 */
module XmlEscape {
  import opened TemplateLiteral

  const AMP := "&amp;"
  const LT := "&lt;"
  const GT := "&gt;"
  const QUOT := "&quot;"
  const APOS := "&apos;"

  /** The chain, in the order of the code: ampersands first. */
  function Escape(s: string): string {
    ReplaceChar(ReplaceChar(ReplaceChar(ReplaceChar(s, '&', AMP), '<', LT), '>', GT), '\"', QUOT)
  }

  function Entity(c: char): string {
    if c == '&' then AMP else if c == '<' then LT else if c == '>' then GT else if c == '\"' then QUOT else [c]
  }

  function EscapeOnce(s: string): string {
    if s == "" then "" else Entity(s[0]) + EscapeOnce(s[1..])
  }

  /** The characters a document may hold at all (section 2.2 of XML 1.0). */
  predicate IsXmlChar(c: char) {
    var n := c as int;
    n == 9 || n == 10 || n == 13 || 0x20 <= n < 0xD800 || 0xE000 <= n <= 0xFFFD || 0x10000 <= n
  }

  predicate AllXmlChars(s: string) {
    forall i :: 0 <= i < |s| ==> IsXmlChar(s[i])
  }

  /** What an XML reader makes of character data: entities replaced, other markup and forbidden characters refused. */
  datatype Data = Data(text: string) | Refused

  function Join(c: char, d: Data): Data {
    if d.Data? then Data([c] + d.text) else d
  }

  predicate Starts(t: string, p: string) {
    |p| <= |t| && t[..|p|] == p
  }

  /** A bare `>` and a double quote are refused too, so that no attribute value could be ended either. */
  function Decode(t: string): Data
    decreases |t|
  {
    if t == "" then Data("")
    else if t[0] == '<' || t[0] == '>' || t[0] == '\"' || !IsXmlChar(t[0]) then Refused
    else if t[0] != '&' then Join(t[0], Decode(t[1..]))
    else if Starts(t, AMP) then Join('&', Decode(t[5..]))
    else if Starts(t, LT) then Join('<', Decode(t[4..]))
    else if Starts(t, GT) then Join('>', Decode(t[4..]))
    else if Starts(t, QUOT) then Join('\"', Decode(t[6..]))
    else if Starts(t, APOS) then Join('\'', Decode(t[6..]))
    else Refused
  }

  /** Line ends are normalised before anything else is read (section 2.11 of XML 1.0). */
  function ReadData(t: string): Data {
    Decode(Normalized(t))
  }

  /** A replace leaves a text without the character alone. */
  lemma {:induction false} NothingToReplace(s: string, c: char, rep: string)
    requires c !in s
    ensures ReplaceChar(s, c, rep) == s
  {
    if s == "" {
    } else {
      NothingToReplace(s[1..], c, rep);
      assert s == [s[0]] + s[1..];
    }
  }

  lemma ReplaceHead(head: string, t: string, c: char, rep: string)
    requires c !in head
    ensures ReplaceChar(head + t, c, rep) == head + ReplaceChar(t, c, rep)
  {
    ReplaceCharSplits(head, t, c, rep);
    NothingToReplace(head, c, rep);
  }

  lemma ReplaceFirst(c: char, t: string, rep: string)
    ensures ReplaceChar([c] + t, c, rep) == rep + ReplaceChar(t, c, rep)
  {
    assert ([c] + t)[1..] == t;
  }

  /** Main result: the four passes come to one; the order matters only in that ampersands go first. */
  lemma {:induction false} FourPassesAreOne(s: string)
    ensures Escape(s) == EscapeOnce(s)
  {
    if s == "" {
    } else {
      FourPassesAreOne(s[1..]);
      var c, t0 := s[0], s[1..];
      var t1 := ReplaceChar(t0, '&', AMP);
      var t2 := ReplaceChar(t1, '<', LT);
      var t3 := ReplaceChar(t2, '>', GT);
      var e1 := if c == '&' then AMP else [c];
      var e2 := if c == '<' then LT else e1;
      var e3 := if c == '>' then GT else e2;
      assert s == [c] + t0;
      assert ReplaceChar(s, '&', AMP) == e1 + t1 by {
        Pass(c, [c], t0, '&', AMP);
      }
      assert ReplaceChar(e1 + t1, '<', LT) == e2 + t2 by {
        Pass(c, e1, t1, '<', LT);
      }
      assert ReplaceChar(e2 + t2, '>', GT) == e3 + t3 by {
        Pass(c, e2, t2, '>', GT);
      }
      assert ReplaceChar(e3 + t3, '\"', QUOT) == Entity(c) + ReplaceChar(t3, '\"', QUOT) by {
        Pass(c, e3, t3, '\"', QUOT);
      }
    }
  }

  /** One replace over what `c` has become so far, an entity or still itself. */
  lemma Pass(c: char, head: string, t: string, d: char, rep: string)
    requires c == d ==> head == [c]
    requires c != d ==> d !in head
    ensures ReplaceChar(head + t, d, rep) == (if c == d then rep else head) + ReplaceChar(t, d, rep)
  {
    if c == d {
      ReplaceFirst(c, t, rep);
    } else {
      ReplaceHead(head, t, d, rep);
    }
  }

  lemma DecodesEntity(c: char, t: string)
    ensures Decode(Entity(c) + t) == if IsXmlChar(c) then Join(c, Decode(t)) else Refused
  {
    var all := Entity(c) + t;
    assert all[|Entity(c)|..] == t && all[..|Entity(c)|] == Entity(c);
    if c == '<' || c == '>' {
      assert all[1] == Entity(c)[1];
      assert |all| >= 5 ==> all[..5][1] == all[1];
      assert AMP[1] == 'a' && LT[1] == 'l' && GT[1] == 'g';
      assert all[..4][1] == all[1];
    } else if c == '\"' {
      assert all[1] == 'q' && all[..5][1] == 'q' && all[..4][1] == 'q';
      assert AMP[1] == 'a' && LT[1] == 'l' && GT[1] == 'g';
    }
  }

  lemma XmlCharsCons(c: char, t: string)
    ensures AllXmlChars([c] + t) <==> IsXmlChar(c) && AllXmlChars(t)
  {
    assert forall i :: 0 < i < |[c] + t| ==> ([c] + t)[i] == t[i - 1];
    assert forall i :: 0 <= i < |t| ==> t[i] == ([c] + t)[i + 1];
    assert ([c] + t)[0] == c;
  }

  lemma {:induction false} DecodesOnce(s: string)
    ensures Decode(EscapeOnce(s)) == if AllXmlChars(s) then Data(s) else Refused
  {
    if s == "" {
    } else {
      assert s == [s[0]] + s[1..];
      DecodesOnce(s[1..]);
      DecodesEntity(s[0], EscapeOnce(s[1..]));
      XmlCharsCons(s[0], s[1..]);
    }
  }

  // ----- line ends -----

  lemma {:induction false} NormalizedBehind(head: string, t: string)
    requires CR !in head
    ensures Normalized(head + t) == head + Normalized(t)
  {
    if head == "" {
      assert head + t == t;
    } else {
      assert (head + t)[1..] == head[1..] + t;
      NormalizedBehind(head[1..], t);
    }
  }

  lemma EntityStarts(s: string)
    ensures EscapeOnce(s) != "" && EscapeOnce(s)[0] == LF <==> s != "" && s[0] == LF
    ensures s != "" && s[0] != CR ==> CR !in Entity(s[0])
  {
  }

  lemma EscapeOnceCons(c: char, t: string)
    ensures EscapeOnce([c] + t) == Entity(c) + EscapeOnce(t)
  {
    assert ([c] + t)[1..] == t;
  }

  /** The escaper leaves line ends alone, so they may as well be normalised before it. */
  lemma {:induction false} NormalizedEscape(s: string)
    ensures Normalized(EscapeOnce(s)) == EscapeOnce(Normalized(s))
  {
    if s == "" {
    } else {
      var t := EscapeOnce(s[1..]);
      NormalizedEscape(s[1..]);
      EntityStarts(s);
      EntityStarts(s[1..]);
      if s[0] != CR {
        NormalizedBehind(Entity(s[0]), t);
        EscapeOnceCons(s[0], Normalized(s[1..]));
      } else {
        assert ([CR] + t)[1..] == t;
        EscapeOnceCons(LF, Normalized(s[1..]));
      }
    }
  }

  lemma {:induction false} NormalizedChars(s: string)
    ensures AllXmlChars(Normalized(s)) <==> AllXmlChars(s)
    decreases |s|
  {
    if s == "" {
    } else {
      NormalizedChars(s[1..]);
      XmlCharsCons(s[0], s[1..]);
      XmlCharsCons(s[0], Normalized(s[1..]));
      XmlCharsCons(LF, Normalized(s[1..]));
      assert s == [s[0]] + s[1..];
    }
  }

  /**
   Main result: a text comes back from the escaper through an XML reader with its
   line ends normalised, so none of it can be taken for markup, exactly when XML
   admits its characters; it comes back as it was exactly when it has no carriage
   return besides.
   */
  lemma EscapeDecodes(s: string)
    ensures ReadData(Escape(s)) == if AllXmlChars(s) then Data(Normalized(s)) else Refused
    ensures ReadData(Escape(s)) == Data(s) <==> AllXmlChars(s) && CR !in s
  {
    FourPassesAreOne(s);
    NormalizedEscape(s);
    DecodesOnce(Normalized(s));
    NormalizedChars(s);
    NormalizedIsSame(s);
  }

  /** Ampersands must go first: put last, they spoil the entities already written. */
  lemma AmpersandsLastSpoil()
    ensures ReplaceChar(ReplaceChar("<", '<', LT), '&', AMP) == "&amp;lt;"
    ensures Decode(ReplaceChar(ReplaceChar("<", '<', LT), '&', AMP)) != Data("<")
  {
    assert "<" == ['<'] + "";
    ReplaceFirst('<', "", LT);
    assert LT == ['&'] + "lt;" && LT + "" == LT;
    ReplaceFirst('&', "lt;", AMP);
    NothingToReplace("lt;", '&', AMP);
    assert "&amp;lt;" == Entity('&') + "lt;";
    DecodesEntity('&', "lt;");
  }
}
