/** The canonical JSON text of the MCP interface, over which intents are signed: objects are
    printed with their keys in ascending order at every depth, strings are escaped as in
    section 7 of RFC 8259, and no white space is written.  Injectivity is shown by a parser. */
module CanonicalJson {
  import opened Outcomes
  import opened Json
  import opened Lex
  import opened Decimal

  // ----- Printer -----

  predicate IsNumberChar(c: char) { IsDigit(c) || c == '-' || c == '+' || c == '.' || c == 'e' || c == 'E' }

  predicate IsFloatMark(c: char) { c == '.' || c == 'e' || c == 'E' }

  /** The text of a floating-point number is opaque: any run of number characters that starts
      like a number and that no integer prints as. */
  predicate IsFloatText(s: string) {
    && s != "" && (IsDigit(s[0]) || s[0] == '-')
    && (forall i | 0 <= i < |s| :: IsNumberChar(s[i]))
    && (exists i | 0 <= i < |s| :: IsFloatMark(s[i]))
  }

  function FloatZero(): (s: string)
    ensures IsFloatText(s)
  {
    assert IsFloatMark("0.0"[1]);
    "0.0"
  }

  type FloatText = s: string | IsFloatText(s) witness FloatZero()

  datatype NumberToken = Integer(i: int) | Float(text: FloatText)

  type Document = Value<NumberToken>

  function PrintNumber(n: NumberToken): string {
    match n
    case Integer(i) => FromInt(i)
    case Float(text) => text
  }

  function HexChar(d: nat): (c: char)
    requires d < 16
  {
    if d < 10 then '0' + d as char else 'a' + (d - 10) as char
  }

  function Escape(c: char): (s: string)
    ensures s != ""
  {
    if c == '"' then "\\\""
    else if c == '\\' then "\\\\"
    else if c as int == 0x08 then "\\b"
    else if c as int == 0x0C then "\\f"
    else if c == '\n' then "\\n"
    else if c == '\r' then "\\r"
    else if c == '\t' then "\\t"
    else if c as int < 0x20 then "\\u00" + [HexChar(c as int / 16), HexChar(c as int % 16)]
    else [c]
  }

  function EscapeAll(s: string): string {
    if s == "" then "" else Escape(s[0]) + EscapeAll(s[1..])
  }

  function PrintString(s: string): string { "\"" + EscapeAll(s) + "\"" }

  ghost function Print(v: Document): string
    decreases v
  {
    match v
    case Null => "null"
    case Bool(b) => if b then "true" else "false"
    case Number(n) => PrintNumber(n)
    case String(s) => PrintString(s)
    case Array(items) => "[" + PrintItems(items) + "]"
    case Object(fields) => "{" + PrintMembers(v, Sorted(fields.Keys)) + "}"
  }

  ghost function PrintItems(items: seq<Document>): string
    decreases items
  {
    if items == [] then ""
    else if |items| == 1 then Print(items[0])
    else Print(items[0]) + "," + PrintItems(items[1..])
  }

  ghost function PrintMember(v: Document, key: string): string
    requires v.Object? && key in v.fields
    decreases v, 0
  {
    PrintString(key) + ":" + Print(v.fields[key])
  }

  /** The members of object `v` under `keys`, in that order. */
  ghost function PrintMembers(v: Document, keys: seq<string>): string
    requires v.Object? && forall k | k in keys :: k in v.fields
    decreases v, 1, |keys|
  {
    if keys == [] then ""
    else if |keys| == 1 then PrintMember(v, keys[0])
    else PrintMember(v, keys[0]) + "," + PrintMembers(v, keys[1..])
  }

  // ----- The printer as the source runs it -----

  function Join(pieces: seq<string>): string {
    if pieces == [] then ""
    else if |pieces| == 1 then pieces[0]
    else pieces[0] + "," + Join(pieces[1..])
  }

  lemma {:induction false} JoinedItems(items: seq<Document>, pieces: seq<string>)
    requires |pieces| == |items| && forall i | 0 <= i < |items| :: pieces[i] == Print(items[i])
    ensures Join(pieces) == PrintItems(items)
  {
    if |items| > 1 {
      JoinedItems(items[1..], pieces[1..]);
    }
  }

  lemma {:induction false} JoinedMembers(v: Document, keys: seq<string>, pieces: seq<string>)
    requires v.Object? && forall k | k in keys :: k in v.fields
    requires |pieces| == |keys| && forall i | 0 <= i < |keys| :: keys[i] in keys && pieces[i] == PrintMember(v, keys[i])
    ensures Join(pieces) == PrintMembers(v, keys)
    decreases |keys|
  {
    if |keys| > 1 {
      assert forall i | 0 <= i < |keys| - 1 :: keys[1..][i] == keys[i + 1] && pieces[1..][i] == pieces[i + 1];
      JoinedMembers(v, keys[1..], pieces[1..]);
    }
  }

  /** The keys of an object, met in whatever order the map yields them, sorted. */
  method SortedKeys(fields: map<string, Document>) returns (keys: seq<string>)
    ensures Ascending(keys) && Enumerates(keys, fields.Keys)
    ensures keys == Sorted(fields.Keys)
  {
    keys := [];
    var unseen := fields.Keys;
    while unseen != {}
      invariant unseen <= fields.Keys && Ascending(keys)
      invariant forall k :: k in keys <==> k in fields.Keys - unseen
      decreases |unseen|
    {
      var key :| key in unseen;
      InsertAscending(key, keys);
      keys := Insert(key, keys);
      unseen := unseen - {key};
    }
    AscendingIsUnique(keys, Sorted(fields.Keys), fields.Keys);
  }

  method SerializeItems(items: seq<Document>) returns (pieces: seq<string>)
    ensures |pieces| == |items| && forall i | 0 <= i < |items| :: pieces[i] == Print(items[i])
    decreases items, 1
  {
    hide Print;
    pieces := [];
    for i := 0 to |items|
      invariant |pieces| == i && forall j | 0 <= j < i :: pieces[j] == Print(items[j])
    {
      var piece := SerializeCanonicalValue(items[i]);
      pieces := pieces + [piece];
    }
  }

  method SerializeMembers(v: Document, keys: seq<string>) returns (pieces: seq<string>)
    requires v.Object? && forall k | k in keys :: k in v.fields
    ensures |pieces| == |keys| && forall i | 0 <= i < |keys| :: keys[i] in keys && pieces[i] == PrintMember(v, keys[i])
    decreases v, 0
  {
    hide Print, PrintString;
    pieces := [];
    for i := 0 to |keys|
      invariant |pieces| == i && forall j | 0 <= j < i :: keys[j] in keys && pieces[j] == PrintMember(v, keys[j])
    {
      var key := keys[i];
      var piece := SerializeCanonicalValue(v.fields[key]);
      pieces := pieces + [PrintString(key) + ":" + piece];
    }
  }

  /** The recursive printer.  Its text does not depend on the order in which any map at any depth
      yields its entries. */
  method SerializeCanonicalValue(v: Document) returns (text: string)
    ensures text == Print(v)
    decreases v, 1
  {
    hide Join, PrintItems, PrintMembers, PrintString, PrintNumber, Sorted;
    match v
    case Null => text := "null";
    case Bool(b) => text := if b then "true" else "false";
    case Number(n) => text := PrintNumber(n);
    case String(s) => text := PrintString(s);
    case Array(items) =>
      var pieces := SerializeItems(items);
      JoinedItems(items, pieces);
      text := "[" + Join(pieces) + "]";
    case Object(fields) =>
      var keys := SortedKeys(fields);
      var pieces := SerializeMembers(v, keys);
      JoinedMembers(v, keys, pieces);
      text := "{" + Join(pieces) + "}";
  }

  // ----- Parser -----

  function HexValue(c: char): (n: Option<nat>)
    ensures n.Some? ==> n.value < 16
  {
    if IsDigit(c) then Some(c as int - '0' as int)
    else if 'a' <= c <= 'f' then Some(c as int - 'a' as int + 10)
    else None
  }

  /** Four hexadecimal digits as a character that stands alone. */
  function HexChars(s: string): Option<char>
    requires |s| == 4
  {
    match (HexValue(s[0]), HexValue(s[1]), HexValue(s[2]), HexValue(s[3]))
    case (Some(a), Some(b), Some(c), Some(d)) =>
      var n := ((a * 16 + b) * 16 + c) * 16 + d;
      if n < 0xD800 || 0xE000 <= n then Some(n as char) else None
    case _ => None
  }

  /** The first character of string content, in any of its spellings, and how many characters of text
      it takes. */
  function ReadChar(s: string): (r: Option<(char, nat)>)
    ensures r.Some? ==> 0 < r.value.1 <= |s|
  {
    if s == "" || s[0] == '"' || s[0] as int < 0x20 then None
    else if s[0] != '\\' then Some((s[0], 1))
    else if |s| < 2 then None
    else if s[1] == '"' || s[1] == '\\' || s[1] == '/' then Some((s[1], 2))
    else if s[1] == 'b' then Some((0x08 as char, 2))
    else if s[1] == 'f' then Some((0x0C as char, 2))
    else if s[1] == 'n' then Some(('\n', 2))
    else if s[1] == 'r' then Some(('\r', 2))
    else if s[1] == 't' then Some(('\t', 2))
    else if |s| >= 6 && s[1] == 'u' && HexChars(s[2..6]).Some? then Some((HexChars(s[2..6]).value, 6))
    else None
  }

  /** String content up to the closing quote, and the text after it. */
  function ReadString(s: string): (r: Option<(string, string)>)
    ensures r.Some? ==> |r.value.1| < |s|
  {
    if s == "" then None
    else if s[0] == '"' then Some(("", s[1..]))
    else
      match ReadChar(s)
      case None => None
      case Some((c, n)) =>
        match ReadString(s[n..])
        case None => None
        case Some((content, rest)) => Some(([c] + content, rest))
  }

  function NumberSpan(s: string): (n: nat)
    ensures n <= |s| && forall i | 0 <= i < n :: IsNumberChar(s[i])
    ensures n < |s| ==> !IsNumberChar(s[n])
  {
    if s == "" || !IsNumberChar(s[0]) then 0 else 1 + NumberSpan(s[1..])
  }

  function ReadNumber(text: string): Option<NumberToken> {
    if IsFloatText(text) then Some(Float(text))
    else if IsIntText(text) then Some(Integer(ToInt(text)))
    else None
  }

  function Parse(s: string): (r: Option<(Document, string)>)
    ensures r.Some? ==> |r.value.1| < |s|
    decreases |s|, 0
  {
    if s == "" then None
    else if "null" <= s then Some((Null, s[4..]))
    else if "true" <= s then Some((Bool(true), s[4..]))
    else if "false" <= s then Some((Bool(false), s[5..]))
    else if s[0] == '"' then
      match ReadString(s[1..])
      case None => None
      case Some((content, rest)) => Some((String(content), rest))
    else if s[0] == '[' then
      if |s| > 1 && s[1] == ']' then Some((Array([]), s[2..]))
      else
        match ParseItems(s[1..])
        case None => None
        case Some((items, rest)) => Some((Array(items), rest))
    else if s[0] == '{' then
      if |s| > 1 && s[1] == '}' then Some((Object(map[]), s[2..]))
      else
        match ParseMembers(s[1..])
        case None => None
        case Some((fields, rest)) => Some((Object(fields), rest))
    else if NumberSpan(s) > 0 then
      match ReadNumber(s[..NumberSpan(s)])
      case None => None
      case Some(n) => Some((Number(n), s[NumberSpan(s)..]))
    else None
  }

  function ParseItems(s: string): (r: Option<(seq<Document>, string)>)
    ensures r.Some? ==> |r.value.1| < |s|
    decreases |s|, 1
  {
    match Parse(s)
    case None => None
    case Some((v, after)) =>
      if after == "" then None
      else if after[0] == ']' then Some(([v], after[1..]))
      else if after[0] == ',' then
        match ParseItems(after[1..])
        case None => None
        case Some((items, rest)) => Some(([v] + items, rest))
      else None
  }

  function ParseMembers(s: string): (r: Option<(map<string, Document>, string)>)
    ensures r.Some? ==> |r.value.1| < |s|
    decreases |s|, 1
  {
    if s == "" || s[0] != '"' then None
    else
      match ReadString(s[1..])
      case None => None
      case Some((key, colon)) =>
        if colon == "" || colon[0] != ':' then None
        else
          match Parse(colon[1..])
          case None => None
          case Some((v, after)) =>
            if after == "" then None
            else if after[0] == '}' then Some((map[key := v], after[1..]))
            else if after[0] == ',' then
              match ParseMembers(after[1..])
              case None => None
              case Some((fields, rest)) => Some((fields[key := v], rest))
            else None
  }

  // ----- The parser inverts the printer -----

  lemma ReadCharInvertsEscape(c: char, rest: string)
    ensures ReadChar(Escape(c) + rest) == Some((c, |Escape(c)|))
    ensures (Escape(c) + rest)[0] != '"'
  {
    var s := Escape(c) + rest;
    assert s[0] == Escape(c)[0];
    if |Escape(c)| > 1 { assert s[1] == Escape(c)[1]; }
    if |Escape(c)| == 6 {
      assert s[2] == '0' && s[3] == '0' && s[4] == Escape(c)[4] && s[5] == Escape(c)[5];
    }
  }

  lemma {:induction false} ReadStringInverts(s: string, rest: string)
    ensures ReadString(EscapeAll(s) + "\"" + rest) == Some((s, rest))
  {
    var text := EscapeAll(s) + "\"" + rest;
    if s == "" {
      assert text == "\"" + rest;
    } else {
      var tail := EscapeAll(s[1..]) + "\"" + rest;
      assert text == Escape(s[0]) + tail;
      ReadCharInvertsEscape(s[0], tail);
      assert text[|Escape(s[0])|..] == tail;
      ReadStringInverts(s[1..], rest);
      assert s == [s[0]] + s[1..];
    }
  }

  /** What may follow a value inside a document: nothing that could continue a number. */
  predicate Delimited(rest: string) { rest == "" || !IsNumberChar(rest[0]) }

  lemma {:induction false} SpanOf(text: string, rest: string)
    requires (forall i | 0 <= i < |text| :: IsNumberChar(text[i])) && Delimited(rest)
    ensures NumberSpan(text + rest) == |text|
  {
    if text == "" {
      assert text + rest == rest;
    } else {
      assert (text + rest)[1..] == text[1..] + rest;
      SpanOf(text[1..], rest);
    }
  }

  lemma NumberTextShape(n: NumberToken)
    ensures var t := PrintNumber(n);
            && t != "" && (IsDigit(t[0]) || t[0] == '-')
            && (forall i | 0 <= i < |t| :: IsNumberChar(t[i]))
            && ReadNumber(t) == Some(n)
  {
    if n.Integer? {
      IntRoundTrip(n.i);
      var t := FromInt(n.i);
      assert forall i | 0 <= i < |t| :: IsDigit(t[i]) || t[i] == '-';
    }
  }

  lemma NumberInverts(n: NumberToken, rest: string)
    requires Delimited(rest)
    ensures Parse(PrintNumber(n) + rest) == Some((Number(n), rest))
  {
    var t := PrintNumber(n);
    NumberTextShape(n);
    SpanOf(t, rest);
    var s := t + rest;
    assert s[0] == t[0] && s[..|t|] == t && s[|t|..] == rest;
  }

  /** No value prints as text that starts with a closing bracket or brace. */
  lemma StartsAValue(v: Document)
    ensures Print(v) != "" && Print(v)[0] != ']' && Print(v)[0] != '}'
  {
    if v.Number? { NumberTextShape(v.n); }
  }

  lemma ItemsStartAValue(items: seq<Document>)
    requires items != []
    ensures PrintItems(items) != "" && PrintItems(items)[0] != ']'
  {
    StartsAValue(items[0]);
  }

  lemma {:induction false} ParseInverts(v: Document, rest: string)
    requires Delimited(rest)
    ensures Parse(Print(v) + rest) == Some((v, rest))
    decreases v
  {
    hide PrintItems, PrintMembers, ParseItems, ParseMembers, FromInt;
    var s := Print(v) + rest;
    match v
    case Null => assert s[..4] == "null" && s[4..] == rest;
    case Bool(b) =>
      if b {
        assert s[0] == 't' && s[..4] == "true" && s[4..] == rest;
      } else {
        assert s[0] == 'f' && s[..5] == "false" && s[5..] == rest;
      }
    case Number(n) => NumberInverts(n, rest);
    case String(content) =>
      assert s[0] == '"' && s[1..] == EscapeAll(content) + "\"" + rest;
      ReadStringInverts(content, rest);
    case Array(items) => ArrayInverts(v, rest);
    case Object(fields) => ObjectInverts(v, rest);
  }

  lemma {:induction false} ArrayInverts(v: Document, rest: string)
    requires v.Array? && Delimited(rest)
    ensures Parse(Print(v) + rest) == Some((v, rest))
    decreases v, 2
  {
    var s := Print(v) + rest;
    assert s[0] == '[' && s[1..] == PrintItems(v.items) + "]" + rest;
    if v.items == [] {
      assert s[1] == ']' && s[2..] == rest;
    } else {
      ItemsStartAValue(v.items);
      assert s[1] == PrintItems(v.items)[0];
      ItemsInvert(v.items, rest);
    }
  }

  lemma ParseBrace(s: string)
    requires |s| > 1 && s[0] == '{'
    ensures s[1] == '}' ==> Parse(s) == Some((Object(map[]), s[2..]))
    ensures s[1] != '}' && ParseMembers(s[1..]).Some? ==>
              Parse(s) == Some((Object(ParseMembers(s[1..]).value.0), ParseMembers(s[1..]).value.1))
  {}

  /** The text of an object after its opening brace, and of a list of members. */
  ghost function ObjectTail(v: Document, keys: seq<string>, rest: string): string
    requires v.Object? && forall k | k in keys :: k in v.fields
  {
    PrintMembers(v, keys) + "}" + rest
  }

  lemma Regroup(open: string, body: string, close: string, rest: string)
    ensures (open + body + close) + rest == open + (body + close + rest)
  {}

  lemma RegroupList(first: string, others: string, close: string, rest: string)
    ensures (first + "," + others) + close + rest == first + ("," + (others + close + rest))
  {}

  lemma ObjectShape(v: Document, rest: string)
    requires v.Object?
    ensures Print(v) + rest == "{" + ObjectTail(v, Sorted(v.fields.Keys), rest)
  {
    Regroup("{", PrintMembers(v, Sorted(v.fields.Keys)), "}", rest);
  }

  lemma ObjectTailShape(v: Document, keys: seq<string>, rest: string)
    requires v.Object? && keys != [] && forall k | k in keys :: k in v.fields
    ensures ObjectTail(v, keys, rest) == PrintMember(v, keys[0]) +
              (if |keys| == 1 then "}" + rest else "," + ObjectTail(v, keys[1..], rest))
  {
    if |keys| == 1 {
      assert PrintMembers(v, keys) + "}" + rest == PrintMembers(v, keys) + ("}" + rest);
    } else {
      RegroupList(PrintMember(v, keys[0]), PrintMembers(v, keys[1..]), "}", rest);
    }
  }

  lemma EmptyObjectInverts(rest: string)
    ensures Parse(Print(Object(map[])) + rest) == Some((Object(map[]), rest))
  {
    var v: Document := Object(map[]);
    var s := Print(v) + rest;
    assert Sorted(v.fields.Keys) == [];
    assert Print(v) == "{}";
    assert s[0] == '{' && s[1] == '}' && s[2..] == rest;
    ParseBrace(s);
  }

  lemma {:induction false} ObjectInverts(v: Document, rest: string)
    requires v.Object? && Delimited(rest)
    ensures Parse(Print(v) + rest) == Some((v, rest))
    decreases v, 2
  {
    var keys := Sorted(v.fields.Keys);
    assert (map k | k in keys :: v.fields[k]) == v.fields;
    if v.fields == map[] {
      EmptyObjectInverts(rest);
    } else {
      var tail := ObjectTail(v, keys, rest);
      ObjectShape(v, rest);
      MembersInvert(v, keys, rest);
      assert ("{" + tail)[1..] == tail;
      ParseBrace("{" + tail);
    }
  }

  lemma ItemsShape(items: seq<Document>, rest: string)
    requires items != []
    ensures PrintItems(items) + "]" + rest == Print(items[0]) +
              (if |items| == 1 then "]" + rest else "," + (PrintItems(items[1..]) + "]" + rest))
  {
    if |items| == 1 {
      assert PrintItems(items) + "]" + rest == PrintItems(items) + ("]" + rest);
    } else {
      RegroupList(Print(items[0]), PrintItems(items[1..]), "]", rest);
    }
  }

  lemma ParseItem(s: string, v: Document, after: string)
    requires Parse(s) == Some((v, after)) && after != ""
    ensures after[0] == ']' ==> ParseItems(s) == Some(([v], after[1..]))
    ensures after[0] == ',' && ParseItems(after[1..]).Some? ==>
              ParseItems(s) == Some(([v] + ParseItems(after[1..]).value.0, ParseItems(after[1..]).value.1))
  {}

  lemma {:induction false} ItemsInvert(items: seq<Document>, rest: string)
    requires items != []
    ensures ParseItems(PrintItems(items) + "]" + rest) == Some((items, rest))
    decreases items
  {
    hide Print, PrintItems, Parse, ParseItems;
    var tail := PrintItems(items[1..]) + "]" + rest;
    var follow := if |items| == 1 then "]" + rest else "," + tail;
    ItemsShape(items, rest);
    ParseInverts(items[0], follow);
    if |items| == 1 {
      assert items == [items[0]];
      assert follow[1..] == rest;
    } else {
      assert items == [items[0]] + items[1..];
      ItemsInvert(items[1..], rest);
      assert follow[1..] == tail;
    }
    ParseItem(Print(items[0]) + follow, items[0], follow);
  }

  lemma MemberShape(key: string, value: string, follow: string)
    ensures (PrintString(key) + ":" + value) + follow == "\"" + (EscapeAll(key) + "\"" + (":" + (value + follow)))
  {}

  lemma {:induction false} MemberInverts(v: Document, key: string, follow: string)
    requires v.Object? && key in v.fields && Delimited(follow)
    ensures var s := PrintMember(v, key) + follow;
            && s[0] == '"'
            && ReadString(s[1..]) == Some((key, ":" + (Print(v.fields[key]) + follow)))
            && Parse(Print(v.fields[key]) + follow) == Some((v.fields[key], follow))
    decreases v, 0
  {
    var value := Print(v.fields[key]);
    var tail := EscapeAll(key) + "\"" + (":" + (value + follow));
    MemberShape(key, value, follow);
    assert ("\"" + tail)[1..] == tail;
    ReadStringInverts(key, ":" + (value + follow));
    ParseInverts(v.fields[key], follow);
  }

  lemma ParseMember(s: string, key: string, colon: string, value: Document, after: string)
    requires s != "" && s[0] == '"' && ReadString(s[1..]) == Some((key, ":" + colon))
    requires Parse(colon) == Some((value, after)) && after != ""
    ensures after[0] == '}' ==> ParseMembers(s) == Some((map[key := value], after[1..]))
    ensures after[0] == ',' && ParseMembers(after[1..]).Some? ==>
              ParseMembers(s) == Some((ParseMembers(after[1..]).value.0[key := value],
                                       ParseMembers(after[1..]).value.1))
  {
    assert (":" + colon)[1..] == colon;
  }

  lemma FirstMember(fields: map<string, Document>, keys: seq<string>)
    requires keys != [] && forall k | k in keys :: k in fields
    ensures (map k | k in keys :: fields[k]) == (map k | k in keys[1..] :: fields[k])[keys[0] := fields[keys[0]]]
    ensures |keys| == 1 ==> (map k | k in keys :: fields[k]) == map[keys[0] := fields[keys[0]]]
  {
    assert forall k :: k in keys <==> k == keys[0] || k in keys[1..];
  }

  lemma {:induction false} MembersInvert(v: Document, keys: seq<string>, rest: string)
    requires v.Object? && keys != [] && forall k | k in keys :: k in v.fields
    ensures var s := ObjectTail(v, keys, rest);
            s != "" && s[0] == '"' && ParseMembers(s) == Some((map k | k in keys :: v.fields[k], rest))
    decreases v, 1, |keys|
  {
    hide Print, PrintMember, PrintMembers, Parse, ParseMembers, ReadString;
    var s := ObjectTail(v, keys, rest);
    var value := v.fields[keys[0]];
    var follow := if |keys| == 1 then "}" + rest else "," + ObjectTail(v, keys[1..], rest);
    ObjectTailShape(v, keys, rest);
    FirstMember(v.fields, keys);
    MemberInverts(v, keys[0], follow);
    if |keys| == 1 {
      assert follow[1..] == rest;
    } else {
      MembersInvert(v, keys[1..], rest);
      assert follow[1..] == ObjectTail(v, keys[1..], rest);
    }
    ParseMember(s, keys[0], Print(value) + follow, value, follow);
  }

  /** Two values with one canonical text are equal, whatever follows them in the signed text. */
  lemma PrintIsInjective(v: Document, w: Document)
    ensures Print(v) == Print(w) <==> v == w
  {
    if Print(v) == Print(w) {
      ParseInverts(v, "");
      ParseInverts(w, "");
      assert Print(v) + "" == Print(v) && Print(w) + "" == Print(w);
    }
  }

  /** No canonical text is a proper prefix of another, unless a number could go on. */
  lemma PrintIsPrefixFree(v: Document, w: Document, tail: string, tail': string)
    requires Delimited(tail) && Delimited(tail')
    requires Print(v) + tail == Print(w) + tail'
    ensures v == w && tail == tail'
  {
    ParseInverts(v, tail);
    ParseInverts(w, tail');
  }
}
