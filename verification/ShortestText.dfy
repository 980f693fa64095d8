/** The canonical text of a value is the shortest text that reads as it, whatever escapes a reader
    admits.  In strings it is the only one of its length. */
module ShortestText {
  import opened Json
  import opened Lex
  import opened Decimal
  import opened CanonicalJson

  // ----- Characters and strings -----

  lemma HexCharOfValue(c: char)
    requires HexValue(c).Some?
    ensures HexChar(HexValue(c).value) == c
  {}

  /** No spelling of a character is shorter than its escape, and none other is as short. */
  lemma EscapeIsShortest(s: string)
    requires ReadChar(s).Some?
    ensures var (c, n) := ReadChar(s).value;
            |Escape(c)| <= n && (n <= |Escape(c)| ==> s[..n] == Escape(c))
  {
    var (c, n) := ReadChar(s).value;
    if n == 6 {
      var a, b := HexValue(s[2]), HexValue(s[3]);
      HexCharOfValue(s[2]);
      HexCharOfValue(s[3]);
      HexCharOfValue(s[4]);
      HexCharOfValue(s[5]);
      if |Escape(c)| == 6 {
        assert c as int < 0x20;
        assert a.value == 0 && b.value == 0;
        assert s[2] == '0' && s[3] == '0';
      }
    }
  }

  /** `spelling` says `c`, and `text` goes on to the closing quote. */
  lemma OneMoreChar(c: char, spelling: string, content: string, text: string, rest: string)
    requires |Escape(c)| <= |spelling| && (|spelling| <= |Escape(c)| ==> spelling == Escape(c))
    requires |EscapeAll(content)| + 1 + |rest| <= |text|
    requires |text| <= |EscapeAll(content)| + 1 + |rest| ==> text == EscapeAll(content) + "\"" + rest
    ensures |EscapeAll([c] + content)| + 1 + |rest| <= |spelling + text|
    ensures |spelling + text| <= |EscapeAll([c] + content)| + 1 + |rest| ==>
              spelling + text == EscapeAll([c] + content) + "\"" + rest
  {
    hide Escape;
    assert ([c] + content)[1..] == content;
    assert EscapeAll([c] + content) == Escape(c) + EscapeAll(content);
    Regroup(Escape(c), EscapeAll(content), "\"", rest);
  }

  /** The same for whole strings, up to the closing quote. */
  lemma {:induction false} StringIsShortest(s: string)
    requires ReadString(s).Some?
    ensures var (content, rest) := ReadString(s).value;
            && |EscapeAll(content)| + 1 + |rest| <= |s|
            && (|s| <= |EscapeAll(content)| + 1 + |rest| ==> s == EscapeAll(content) + "\"" + rest)
  {
    hide Escape, ReadChar;
    if s[0] == '"' {
      assert s == "\"" + s[1..];
    } else {
      hide EscapeAll;
      EscapeIsShortest(s);
      var (c, n) := ReadChar(s).value;
      StringIsShortest(s[n..]);
      var (content, rest) := ReadString(s[n..]).value;
      OneMoreChar(c, s[..n], content, s[n..], rest);
      assert s == s[..n] + s[n..];
    }
  }

  // ----- Numbers -----

  lemma {:induction false} DecimalIsShortest(s: string)
    requires s != "" && AllDigits(s)
    ensures |FromNat(ToNat(s))| <= |s|
  {
    var n := |s| - 1;
    if n == 0 {
      assert ToNat(s[..0]) == 0;
    } else {
      DecimalIsShortest(s[..n]);
      var before := ToNat(s[..n]);
      assert ToNat(s) / 10 == before;
    }
  }

  lemma NumberIsShortest(text: string)
    requires ReadNumber(text).Some?
    ensures |PrintNumber(ReadNumber(text).value)| <= |text|
  {
    if !IsFloatText(text) {
      DecimalIsShortest(if text[0] == '-' then text[1..] else text);
    }
  }

  // ----- Members, in whatever order they are met -----

  /** What one member adds to the text of an object, with its colon and its comma. */
  ghost function Width(fields: map<string, Document>, key: string): nat
    requires key in fields
  {
    |PrintString(key)| + |Print(fields[key])| + 2
  }

  ghost function Widths(fields: map<string, Document>, keys: set<string>): nat
    requires keys <= fields.Keys
  {
    if keys == {} then 0
    else
      var key :| key in keys;
      Width(fields, key) + Widths(fields, keys - {key})
  }

  lemma {:induction false} TakeAny(fields: map<string, Document>, keys: set<string>, key: string)
    requires keys <= fields.Keys && key in keys
    ensures Widths(fields, keys) == Width(fields, key) + Widths(fields, keys - {key})
    decreases |keys|
  {
    hide Width;
    var first :| first in keys && Widths(fields, keys) == Width(fields, first) + Widths(fields, keys - {first});
    if first != key {
      TakeAny(fields, keys - {first}, key);
      TakeAny(fields, keys - {key}, first);
      assert keys - {first} - {key} == keys - {key} - {first};
    }
  }

  lemma {:induction false} SameWidths(fields: map<string, Document>, others: map<string, Document>, keys: set<string>)
    requires keys <= fields.Keys && keys <= others.Keys && forall k | k in keys :: fields[k] == others[k]
    ensures Widths(fields, keys) == Widths(others, keys)
    decreases |keys|
  {
    if keys != {} {
      var key :| key in keys;
      SameWidths(fields, others, keys - {key});
      TakeAny(fields, keys, key);
      TakeAny(others, keys, key);
    }
  }

  /** A member read before others makes the object no wider than its own text, also when its key is
      read again. */
  lemma OneMoreMember(fields: map<string, Document>, key: string, v: Document)
    ensures Widths(fields[key := v], fields.Keys + {key}) <=
            Widths(fields, fields.Keys) + |PrintString(key)| + |Print(v)| + 2
  {
    var more := fields[key := v];
    var others := fields.Keys - {key};
    assert (fields.Keys + {key}) - {key} == others;
    TakeAny(more, fields.Keys + {key}, key);
    SameWidths(fields, more, others);
    if key in fields {
      TakeAny(fields, fields.Keys, key);
    } else {
      assert others == fields.Keys;
    }
  }

  lemma FirstAndOthers(keys: seq<string>)
    requires keys != [] && Ascending(keys)
    ensures (set k | k in keys) - {keys[0]} == set k | k in keys[1..]
    ensures Ascending(keys[1..]) && keys[0] in keys && forall k | k in keys[1..] :: k in keys
  {
    assert keys == [keys[0]] + keys[1..];
  }

  /** The text of distinct members has the same length in every order. */
  lemma {:induction false} MembersWidth(v: Document, keys: seq<string>)
    requires v.Object? && Ascending(keys) && forall k | k in keys :: k in v.fields
    ensures (set k | k in keys) <= v.fields.Keys
    ensures Widths(v.fields, set k | k in keys) == if keys == [] then 0 else |PrintMembers(v, keys)| + 1
    decreases |keys|
  {
    if keys == [] {
      assert (set k | k in keys) == {};
    } else {
      hide Print, PrintString, Widths, Ascending;
      FirstAndOthers(keys);
      MembersWidth(v, keys[1..]);
      TakeAny(v.fields, (set k | k in keys), keys[0]);
    }
  }

  lemma ObjectWidth(fields: map<string, Document>)
    requires fields != map[]
    ensures |Print(Object(fields))| == Widths(fields, fields.Keys) + 1
  {
    var v: Document := Object(fields);
    var keys := Sorted(fields.Keys);
    assert keys != [] by {
      var k :| k in fields;
      assert k in keys;
    }
    MembersWidth(v, keys);
    assert (set k | k in keys) == fields.Keys;
  }

  // ----- Values -----

  /** Whatever text reads as a value is at least as long as the canonical one. */
  lemma {:induction false} CanonicalIsShortest(s: string)
    requires Parse(s).Some?
    ensures |Print(Parse(s).value.0)| + |Parse(s).value.1| <= |s|
    decreases |s|, 2
  {
    hide ParseItems, ParseMembers, PrintMembers, PrintItems, PrintNumber, ReadNumber, PrintString, Widths, ReadString;
    var (v, rest) := Parse(s).value;
    if v.String? {
      StringTextIsShortest(s);
    } else if v.Number? {
      NumberIsShortest(s[..NumberSpan(s)]);
    } else if v.Array? && v.items != [] {
      ArrayIsShortest(s);
    } else if v.Object? && v.fields != map[] {
      ObjectIsShortest(s);
    } else {
      SmallTexts();
    }
  }

  lemma SmallTexts()
    ensures Print(Object(map[])) == "{}" && Print(Array([])) == "[]" && Print(Null) == "null"
    ensures Print(Bool(true)) == "true" && Print(Bool(false)) == "false"
  {
    var none: map<string, Document> := map[];
    assert Sorted(none.Keys) == [];
  }

  lemma StringTextIsShortest(s: string)
    requires Parse(s).Some? && Parse(s).value.0.String?
    ensures |Print(Parse(s).value.0)| + |Parse(s).value.1| <= |s|
  {
    hide ParseItems, ParseMembers, ReadString;
    StringIsShortest(s[1..]);
  }

  lemma {:induction false} ArrayIsShortest(s: string)
    requires Parse(s).Some? && Parse(s).value.0.Array? && Parse(s).value.0.items != []
    ensures |Print(Parse(s).value.0)| + |Parse(s).value.1| <= |s|
    decreases |s|, 1
  {
    hide ParseItems, ParseMembers, PrintItems, ReadString, ReadNumber;
    assert s[0] == '[' && ParseItems(s[1..]).Some?;
    ItemsAreShortest(s[1..]);
  }

  lemma {:induction false} ObjectIsShortest(s: string)
    requires Parse(s).Some? && Parse(s).value.0.Object? && Parse(s).value.0.fields != map[]
    ensures |Print(Parse(s).value.0)| + |Parse(s).value.1| <= |s|
    decreases |s|, 1
  {
    hide ParseItems, ParseMembers, Print, Widths, ReadString, ReadNumber;
    assert s[0] == '{' && ParseMembers(s[1..]).Some?;
    MembersAreShortest(s[1..]);
    ObjectWidth(Parse(s).value.0.fields);
  }

  lemma {:induction false} ItemsAreShortest(s: string)
    requires ParseItems(s).Some?
    ensures ParseItems(s).value.0 != []
    ensures |PrintItems(ParseItems(s).value.0)| + 1 + |ParseItems(s).value.1| <= |s|
    decreases |s|, 3
  {
    hide Parse, Print;
    var (v, after) := Parse(s).value;
    CanonicalIsShortest(s);
    if after[0] == ',' {
      ItemsAreShortest(after[1..]);
      var items := ParseItems(after[1..]).value.0;
      assert ([v] + items)[1..] == items;
    }
  }

  lemma {:induction false} MembersAreShortest(s: string)
    requires ParseMembers(s).Some?
    ensures var (fields, rest) := ParseMembers(s).value; Widths(fields, fields.Keys) + |rest| <= |s|
    decreases |s|, 3
  {
    hide Parse, Print, ReadString, Widths, EscapeAll;
    StringIsShortest(s[1..]);
    var (key, colon) := ReadString(s[1..]).value;
    var (v, after) := Parse(colon[1..]).value;
    CanonicalIsShortest(colon[1..]);
    if after[0] == ',' {
      MembersAreShortest(after[1..]);
      var fields := ParseMembers(after[1..]).value.0;
      OneMoreMember(fields, key, v);
      assert fields[key := v].Keys == fields.Keys + {key};
    } else {
      OnlyMember(key, v);
    }
  }

  lemma OnlyMember(key: string, v: Document)
    ensures Widths(map[key := v], map[key := v].Keys) == |PrintString(key)| + |Print(v)| + 2
  {
    hide Print;
    var fields := map[key := v];
    TakeAny(fields, fields.Keys, key);
    assert fields.Keys - {key} == {};
  }
}
