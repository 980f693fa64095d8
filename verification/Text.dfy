/** Text as the handlers measure and trim it: length in bytes of its UTF-8 form, and the removal
    of surrounding Unicode white space. */
module Text {
  predicate IsWhiteSpace(c: char) {
    var n := c as int;
    0x09 <= n <= 0x0D || n == 0x20 || n == 0x85 || n == 0xA0 || n == 0x1680 || 0x2000 <= n <= 0x200A
    || n == 0x2028 || n == 0x2029 || n == 0x202F || n == 0x205F || n == 0x3000
  }

  /** The characters with the Unicode property White_Space, one by one. */
  lemma WhiteSpaceListed(c: char)
    ensures IsWhiteSpace(c) <==>
            c as int in {0x09, 0x0A, 0x0B, 0x0C, 0x0D, 0x20, 0x85, 0xA0, 0x1680, 0x2000, 0x2001, 0x2002, 0x2003, 0x2004,
                         0x2005, 0x2006, 0x2007, 0x2008, 0x2009, 0x200A, 0x2028, 0x2029, 0x202F, 0x205F, 0x3000}
  {}

  predicate Blank(s: string) { forall i | 0 <= i < |s| :: IsWhiteSpace(s[i]) }

  function TrimStart(s: string): (t: string)
    ensures t == "" || !IsWhiteSpace(t[0])
    ensures t <= s || |t| < |s|
  {
    if s != "" && IsWhiteSpace(s[0]) then TrimStart(s[1..]) else s
  }

  function TrimEnd(s: string): (t: string)
    ensures t <= s
    ensures t == "" || !IsWhiteSpace(t[|t| - 1])
  {
    if s != "" && IsWhiteSpace(s[|s| - 1]) then TrimEnd(s[..|s| - 1]) else s
  }

  function Trim(s: string): (t: string)
    ensures t == "" || (!IsWhiteSpace(t[0]) && !IsWhiteSpace(t[|t| - 1]))
  {
    TrimEnd(TrimStart(s))
  }

  lemma {:induction false} StartTrimmed(s: string) returns (before: string)
    ensures s == before + TrimStart(s) && Blank(before)
  {
    before := "";
    if s != "" && IsWhiteSpace(s[0]) {
      var rest := StartTrimmed(s[1..]);
      before := [s[0]] + rest;
    }
  }

  lemma {:induction false} EndTrimmed(s: string) returns (after: string)
    ensures s == TrimEnd(s) + after && Blank(after)
  {
    after := "";
    if s != "" && IsWhiteSpace(s[|s| - 1]) {
      var rest := EndTrimmed(s[..|s| - 1]);
      after := rest + [s[|s| - 1]];
    }
  }

  /** Nothing but white space at the two ends is trimmed. */
  lemma OnlyEndsAreTrimmed(s: string) returns (before: string, after: string)
    ensures s == before + Trim(s) + after && Blank(before) && Blank(after)
  {
    before := StartTrimmed(s);
    after := EndTrimmed(TrimStart(s));
    assert before + (Trim(s) + after) == before + Trim(s) + after;
  }

  lemma TrimmedToNothing(s: string)
    ensures Trim(s) == "" <==> Blank(s)
  {
    var before, after := OnlyEndsAreTrimmed(s);
    if Trim(s) != "" {
      assert s[|before|] == Trim(s)[0];
    }
  }

  function Utf8Width(c: char): nat {
    var n := c as int;
    if n < 0x80 then 1 else if n < 0x800 then 2 else if n < 0x10000 then 3 else 4
  }

  /** One to four bytes, by the ranges of section 3 of RFC 3629. */
  lemma Utf8WidthByRange(c: char)
    ensures 1 <= Utf8Width(c) <= 4
    ensures Utf8Width(c) <= 1 <==> c as int <= 0x7F
    ensures Utf8Width(c) <= 2 <==> c as int <= 0x7FF
    ensures Utf8Width(c) <= 3 <==> c as int <= 0xFFFF
  {}

  function Utf8Size(s: string): nat {
    if s == "" then 0 else Utf8Size(s[..|s| - 1]) + Utf8Width(s[|s| - 1])
  }

  predicate IsGraphicAscii(s: string) { forall i | 0 <= i < |s| :: '!' <= s[i] <= '~' }

  lemma {:induction false} GraphicAsciiIsPlain(s: string)
    requires IsGraphicAscii(s)
    ensures Trim(s) == s && Utf8Size(s) == |s|
  {
    if s != "" {
      GraphicAsciiIsPlain(s[..|s| - 1]);
    }
  }
}
