/** `json.dumps` of a string, which is how a project path becomes part of a table header. */
module JsonText {
  import opened TextLines

  function HexDigit(d: nat): char
    requires d < 16
  {
    if d < 10 then (d + 48) as char else (d + 87) as char
  }

  /** One UTF-16 unit as an escape. */
  function Unit(n: nat): string
    requires n < 0x10000
  {
    ['\\', 'u', HexDigit(n / 16 / 16 / 16), HexDigit(n / 16 / 16 % 16), HexDigit(n / 16 % 16), HexDigit(n % 16)]
  }

  /** The letter after the backslash for the characters with a short escape, and 'u' for none. */
  function Short(c: char): char {
    if c == '"' then '"' else if c == '\\' then '\\' else if c == '\n' then 'n' else if c == '\r' then 'r'
    else if c == '\t' then 't' else if c == '\U{8}' then 'b' else if c == '\U{C}' then 'f' else 'u'
  }

  function Escape(c: char): string {
    if Short(c) != 'u' then ['\\', Short(c)]
    else if ' ' <= c <= '~' then [c]
    else if c as int < 0x10000 then Unit(c as int)
    else
      var v := c as int - 0x10000;
      Unit(0xD800 + v / 1024) + Unit(0xDC00 + v % 1024)
  }

  function EscapeAll(s: string): string { if s == "" then "" else Escape(s[0]) + EscapeAll(s[1..]) }

  function Quoted(s: string): string { "\"" + EscapeAll(s) + "\"" }

  // ----- characters that stay what they are -------------------------------------------------------

  lemma UnitIsPlain(n: nat, i: nat)
    requires n < 0x10000 && i < 6
    ensures Unit(n)[i] == '\\' || '0' <= Unit(n)[i] <= '9' || 'a' <= Unit(n)[i] <= 'u'
  {
  }

  lemma EscapeIsPlain(c: char, i: nat)
    requires i < |Escape(c)|
    ensures ' ' <= Escape(c)[i] <= '~'
    ensures Escape(c)[i] == '#' || Escape(c)[i] == ']' ==> Escape(c) == [c]
  {
    if |Escape(c)| == 6 {
      UnitIsPlain(c as int, i);
    } else if |Escape(c)| == 12 {
      var v := c as int - 0x10000;
      if i < 6 {
        UnitIsPlain(0xD800 + v / 1024, i);
      } else {
        UnitIsPlain(0xDC00 + v % 1024, i - 6);
      }
    }
  }

  lemma {:induction false} EscapedChars(s: string, c: char)
    ensures forall i :: 0 <= i < |EscapeAll(s)| ==> ' ' <= EscapeAll(s)[i] <= '~'
    ensures c == '#' || c == ']' ==> (c in EscapeAll(s) <==> c in s)
  {
    if s != "" {
      EscapedChars(s[1..], c);
      forall i: nat | i < |Escape(s[0])|
        ensures ' ' <= Escape(s[0])[i] <= '~'
        ensures Escape(s[0])[i] == '#' || Escape(s[0])[i] == ']' ==> Escape(s[0]) == [s[0]]
      {
        EscapeIsPlain(s[0], i);
      }
      assert c == '#' || c == ']' ==> (c in Escape(s[0]) <==> c == s[0]);
      assert s == [s[0]] + s[1..];
    }
  }

  lemma PlainHasNoBreak(s: string)
    requires forall i :: 0 <= i < |s| ==> ' ' <= s[i] <= '~'
    ensures NoBreak(s)
  {
  }

  /** A text of printable characters other than the quote and the backslash is only put between quotes. */
  lemma {:induction false} PrintableIsKept(s: string)
    requires forall i :: 0 <= i < |s| ==> ' ' <= s[i] <= '~' && s[i] != '"' && s[i] != '\\'
    ensures EscapeAll(s) == s && Quoted(s) == "\"" + s + "\""
  {
    if s != "" {
      PrintableIsKept(s[1..]);
      assert s == [s[0]] + s[1..];
    }
  }

  // ----- different texts, different quotations ------------------------------------------------------

  lemma HexInjective(d: nat, e: nat)
    requires d < 16 && e < 16 && HexDigit(d) == HexDigit(e)
    ensures d == e
  {
  }

  lemma UnitInjective(m: nat, n: nat)
    requires m < 0x10000 && n < 0x10000 && Unit(m) == Unit(n)
    ensures m == n
  {
    var a, b := Unit(m), Unit(n);
    assert a[2] == b[2] && a[3] == b[3] && a[4] == b[4] && a[5] == b[5];
    HexInjective(m / 16 / 16 / 16, n / 16 / 16 / 16);
    HexInjective(m / 16 / 16 % 16, n / 16 / 16 % 16);
    SameQuotients(m / 16 / 16, n / 16 / 16);
    HexInjective(m / 16 % 16, n / 16 % 16);
    SameQuotients(m / 16, n / 16);
    HexInjective(m % 16, n % 16);
    SameQuotients(m, n);
  }

  lemma SameQuotients(m: nat, n: nat)
    requires m / 16 == n / 16 && m % 16 == n % 16
    ensures m == n
  {
  }

  /** The UTF-16 unit an escape of the long form starts with. */
  function FirstUnit(c: char): nat {
    if c as int < 0x10000 then c as int else 0xD800 + (c as int - 0x10000) / 1024
  }

  function SecondUnit(c: char): nat {
    if c as int < 0x10000 then 0xDC00 else 0xDC00 + (c as int - 0x10000) % 1024
  }

  lemma LongForm(c: char, x: string)
    requires |Escape(c)| >= 6
    ensures (Escape(c) + x)[..6] == Unit(FirstUnit(c))
    ensures c as int >= 0x10000 ==> |Escape(c)| == 12 && (Escape(c) + x)[6..12] == Unit(SecondUnit(c))
  {
  }

  lemma UnitsInjective(a: char, b: char)
    requires FirstUnit(a) == FirstUnit(b) && SecondUnit(a) == SecondUnit(b)
    ensures a == b
  {
  }

  /** A first unit says whether a second one follows, since no character is a surrogate. */
  lemma FirstUnitTells(a: char, b: char)
    requires FirstUnit(a) == FirstUnit(b)
    ensures a as int >= 0x10000 <==> b as int >= 0x10000
  {
  }

  lemma LongInjective(a: char, b: char, x: string, y: string)
    requires |Escape(a)| >= 6 && |Escape(b)| >= 6 && Escape(a) + x == Escape(b) + y
    ensures a == b
  {
    LongForm(a, x);
    LongForm(b, y);
    UnitInjective(FirstUnit(a), FirstUnit(b));
    FirstUnitTells(a, b);
    if a as int >= 0x10000 {
      UnitInjective(SecondUnit(a), SecondUnit(b));
    }
    UnitsInjective(a, b);
  }

  lemma EscapePrefixFree(a: char, b: char, x: string, y: string)
    requires Escape(a) + x == Escape(b) + y
    ensures a == b && x == y
  {
    var s := Escape(a) + x;
    assert s[0] == Escape(a)[0] && s[0] == Escape(b)[0];
    if |Escape(a)| >= 6 && |Escape(b)| >= 6 {
      LongInjective(a, b, x, y);
    } else if |Escape(a)| > 1 {
      assert s[1] == Escape(a)[1];
      assert |Escape(b)| > 1 ==> s[1] == Escape(b)[1];
    }
    assert x == s[|Escape(a)|..] && y == s[|Escape(b)|..];
  }

  lemma EscapeNonEmpty(c: char)
    ensures Escape(c) != ""
  {
  }

  lemma {:induction false} EscapeAllInjective(s: string, t: string)
    requires EscapeAll(s) == EscapeAll(t)
    ensures s == t
  {
    if s != "" && t != "" {
      EscapePrefixFree(s[0], t[0], EscapeAll(s[1..]), EscapeAll(t[1..]));
      EscapeAllInjective(s[1..], t[1..]);
      assert s == [s[0]] + s[1..] && t == [t[0]] + t[1..];
    }
    if s != "" {
      EscapeNonEmpty(s[0]);
    }
    if t != "" {
      EscapeNonEmpty(t[0]);
    }
  }

  lemma QuotedInjective(s: string, t: string)
    requires Quoted(s) == Quoted(t)
    ensures s == t
  {
    assert EscapeAll(s) == Quoted(s)[1..|Quoted(s)| - 1] && EscapeAll(t) == Quoted(t)[1..|Quoted(t)| - 1];
    EscapeAllInjective(s, t);
  }

  lemma EscapeStarts(c: char)
    ensures Escape(c) != "" && Escape(c)[0] != '"'
  {
  }

  /** A quoted text ends at its first bare quote, whatever follows. */
  lemma {:induction false} QuotedEnds(s: string, t: string, x: string, y: string)
    requires EscapeAll(s) + ("\"" + x) == EscapeAll(t) + ("\"" + y)
    ensures s == t && x == y
    decreases |s|
  {
    var u, v := "\"" + x, "\"" + y;
    assert u[0] == '"' && v[0] == '"';
    assert s == "" ==> EscapeAll(s) + u == u;
    assert t == "" ==> EscapeAll(t) + v == v;
    if s != "" {
      EscapeStarts(s[0]);
      EscapeMore(s, u);
    }
    if t != "" {
      EscapeStarts(t[0]);
      EscapeMore(t, v);
    }
    if s != "" && t != "" {
      EscapePrefixFree(s[0], t[0], EscapeAll(s[1..]) + u, EscapeAll(t[1..]) + v);
      QuotedEnds(s[1..], t[1..], x, y);
      assert s == [s[0]] + s[1..] && t == [t[0]] + t[1..];
    } else if s == "" && t == "" {
      assert x == u[1..] && y == v[1..];
    }
  }

  lemma EscapeMore(s: string, u: string)
    requires s != ""
    ensures EscapeAll(s) + u == Escape(s[0]) + (EscapeAll(s[1..]) + u)
  {
  }
}
