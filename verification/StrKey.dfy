/** Stellar account addresses (StrKey, SEP-0023): Base32 as in section 6 of RFC 4648 without
    padding, and the two address encoders and the decoder of the coordinator. */
module StrKey {
  import opened Outcomes
  import opened Crc16
  import Text

  const ED25519_PUBLIC_KEY_VERSION: bv8 := 0x30
  const ALPHABET := "ABCDEFGHIJKLMNOPQRSTUVWXYZ234567"

  // ----- Base32 without padding, five bytes to eight symbols -----

  predicate IsSymbol(c: char) { 'A' <= c <= 'Z' || '2' <= c <= '7' }

  function Symbol(digit: bv8): (c: char)
    requires digit < 32
    ensures IsSymbol(c)
  {
    ALPHABET[digit as int]
  }

  function Index(c: char): (n: nat)
    requires IsSymbol(c)
    ensures n < 32
  {
    if 'A' <= c <= 'Z' then c as int - 'A' as int else c as int - '2' as int + 26
  }

  function Digit(c: char): (d: bv8)
    requires IsSymbol(c)
    ensures d < 32
  {
    Index(c) as bv8
  }

  lemma AlphabetAt(c: char)
    requires IsSymbol(c)
    ensures ALPHABET[Index(c)] == c
  {}

  lemma IndexAt(n: nat)
    requires n < 32
    ensures IsSymbol(ALPHABET[n]) && Index(ALPHABET[n]) == n
  {}

  lemma WordOfIndex(n: nat)
    requires n < 32
    ensures (n as bv8) as int == n
  {}

  lemma DigitSymbol(d: bv8)
    requires d < 32
    ensures Digit(Symbol(d)) == d
  {
    IndexAt(d as int);
  }

  lemma SymbolDigit(c: char)
    requires IsSymbol(c)
    ensures Symbol(Digit(c)) == c
  {
    AlphabetAt(c);
    WordOfIndex(Index(c));
  }

  function Digits(b: seq<bv8>): (d: seq<bv8>)
    requires |b| == 5
    ensures |d| == 8 && forall i | 0 <= i < 8 :: d[i] < 32
  {
    [b[0] >> 3,
     ((b[0] & 7) << 2) | (b[1] >> 6),
     (b[1] >> 1) & 31,
     ((b[1] & 1) << 4) | (b[2] >> 4),
     ((b[2] & 15) << 1) | (b[3] >> 7),
     (b[3] >> 2) & 31,
     ((b[3] & 3) << 3) | (b[4] >> 5),
     b[4] & 31]
  }

  function Bytes(d: seq<bv8>): (b: seq<bv8>)
    requires |d| == 8 && forall i | 0 <= i < 8 :: d[i] < 32
    ensures |b| == 5
  {
    [(d[0] << 3) | (d[1] >> 2),
     ((d[1] & 3) << 6) | (d[2] << 1) | (d[3] >> 4),
     ((d[3] & 15) << 4) | (d[4] >> 1),
     ((d[4] & 1) << 7) | (d[5] << 2) | (d[6] >> 3),
     ((d[6] & 7) << 5) | d[7]]
  }

  lemma BytesDigits(b: seq<bv8>)
    requires |b| == 5
    ensures Bytes(Digits(b)) == b
  {}

  lemma DigitsBytes(d: seq<bv8>)
    requires |d| == 8 && forall i | 0 <= i < 8 :: d[i] < 32
    ensures Digits(Bytes(d)) == d
  {}

  function EncodeGroup(b: seq<bv8>): (s: string)
    requires |b| == 5
    ensures |s| == 8 && AllSymbols(s)
  {
    var d := Digits(b);
    seq(8, i requires 0 <= i < 8 => Symbol(d[i]))
  }

  function DecodeGroup(s: string): (b: seq<bv8>)
    requires |s| == 8 && AllSymbols(s)
    ensures |b| == 5
  {
    Bytes(seq(8, i requires 0 <= i < 8 => Digit(s[i])))
  }

  lemma GroupDecodesEncoded(b: seq<bv8>)
    requires |b| == 5
    ensures DecodeGroup(EncodeGroup(b)) == b
  {
    var d := Digits(b);
    forall i | 0 <= i < 8 { DigitSymbol(d[i]); }
    assert seq(8, i requires 0 <= i < 8 => Digit(EncodeGroup(b)[i])) == d;
    BytesDigits(b);
  }

  lemma GroupEncodesDecoded(s: string)
    requires |s| == 8 && AllSymbols(s)
    ensures EncodeGroup(DecodeGroup(s)) == s
  {
    DigitsBytes(seq(8, i requires 0 <= i < 8 => Digit(s[i])));
    forall i | 0 <= i < 8 { SymbolDigit(s[i]); }
  }

  predicate AllSymbols(s: string) { forall i | 0 <= i < |s| :: IsSymbol(s[i]) }

  /** Base32 of a whole number of five-byte groups; an address payload is seven of them. */
  function Encode(b: seq<bv8>): (s: string)
    requires |b| % 5 == 0
    ensures |s| == |b| / 5 * 8 && AllSymbols(s)
  {
    if b == [] then "" else EncodeGroup(b[..5]) + Encode(b[5..])
  }

  function Decode(s: string): (b: seq<bv8>)
    requires |s| % 8 == 0 && AllSymbols(s)
    ensures |b| == |s| / 8 * 5
  {
    if s == "" then [] else DecodeGroup(s[..8]) + Decode(s[8..])
  }

  lemma EncodeCons(group: seq<bv8>, rest: seq<bv8>)
    requires |group| == 5 && |rest| % 5 == 0
    ensures Encode(group + rest) == EncodeGroup(group) + Encode(rest)
  {
    assert (group + rest)[..5] == group && (group + rest)[5..] == rest;
  }

  lemma DecodeCons(group: string, rest: string)
    requires |group| == 8 && AllSymbols(group) && |rest| % 8 == 0 && AllSymbols(rest)
    ensures Decode(group + rest) == DecodeGroup(group) + Decode(rest)
  {
    assert (group + rest)[..8] == group && (group + rest)[8..] == rest;
  }

  lemma {:induction false} DecodeEncode(b: seq<bv8>)
    requires |b| % 5 == 0
    ensures Decode(Encode(b)) == b
    decreases |b|
  {
    if b != [] {
      GroupDecodesEncoded(b[..5]);
      DecodeEncode(b[5..]);
      DecodeCons(EncodeGroup(b[..5]), Encode(b[5..]));
    }
  }

  lemma {:induction false} EncodeDecode(s: string)
    requires |s| % 8 == 0 && AllSymbols(s)
    ensures Encode(Decode(s)) == s
    decreases |s|
  {
    if s != "" {
      GroupEncodesDecoded(s[..8]);
      EncodeDecode(s[8..]);
      EncodeCons(DecodeGroup(s[..8]), Decode(s[8..]));
    }
  }

  // ----- Addresses -----

  /** `Encode` of version, key and tail; the tail is where the checksum goes. */
  function Address(version: bv8, key: seq<bv8>, tail: seq<bv8>): (s: string)
    requires |key| == 32 && |tail| == 2
    ensures |s| == 56 && AllSymbols(s)
  {
    Encode([version] + key + tail)
  }

  function LittleEndian(r: bv16): (b: seq<bv8>)
    ensures |b| == 2
  {
    [LowByte(r), HighByte(r)]
  }

  /** The key-generation encoder: the little-endian checksum of version and key follows them. */
  method EncodeWithChecksum(version: bv8, data: seq<bv8>) returns (s: string)
    requires |data| == 32
    ensures s == Address(version, data, LittleEndian(Crc([version] + data)))
  {
    var payload := [version] + data;
    var checksum := Crc16Xmodem(payload);
    payload := payload + LittleEndian(checksum);
    s := Encode(payload);
  }

  /** The MCP encoder, which leaves the two checksum bytes zero. */
  method EncodeStellarAddress(key: seq<bv8>) returns (s: string)
    requires |key| == 32
    ensures s == Address(ED25519_PUBLIC_KEY_VERSION, key, [0, 0])
  {
    var raw := [ED25519_PUBLIC_KEY_VERSION];
    raw := raw + key;
    raw := raw + [0, 0];
    s := Encode(raw);
  }

  /** `Base32` decoding yields 35 bytes exactly for 56 symbols, so that is the length test. */
  predicate WellFormedAddress(s: string) {
    |s| == 56 && AllSymbols(s) && Decode(s)[0] == ED25519_PUBLIC_KEY_VERSION
  }

  lemma PayloadParts(p: seq<bv8>)
    requires |p| == 35
    ensures p == [p[0]] + p[1..33] + p[33..]
  {}

  /** A well-formed address is the address of the key it decodes to, with its last two bytes. */
  lemma DecodedIsAddress(s: string)
    requires WellFormedAddress(s)
    ensures |Decode(s)| == 35
    ensures s == Address(ED25519_PUBLIC_KEY_VERSION, Decode(s)[1..33], Decode(s)[33..])
  {
    EncodeDecode(s);
    hide Decode, Encode;
    PayloadParts(Decode(s));
  }

  /** The decoder; as in the source, the checksum bytes are not looked at. */
  method DecodeStellarAddress(s: string) returns (r: Result<seq<bv8>>)
    ensures r.Ok? <==> WellFormedAddress(s)
    ensures r.Ok? ==> |r.value| == 32 && exists tail | |tail| == 2 ::
        s == Address(ED25519_PUBLIC_KEY_VERSION, r.value, tail)
    ensures r.Err? ==> r.error == CosignFailed
  {
    hide Decode, Address;
    if |s| != 56 || exists i | 0 <= i < |s| :: !IsSymbol(s[i]) {
      return Err(CosignFailed);
    }
    var decoded := Decode(s);
    if decoded[0] != ED25519_PUBLIC_KEY_VERSION {
      return Err(CosignFailed);
    }
    r := Ok(decoded[1..33]);
    DecodedIsAddress(s);
  }

  /** The key an address holds: what every successful decoding must return. */
  lemma AddressDeterminesKey(key: seq<bv8>, tail: seq<bv8>, key': seq<bv8>, tail': seq<bv8>)
    requires |key| == 32 && |tail| == 2 && |key'| == 32 && |tail'| == 2
    requires Address(ED25519_PUBLIC_KEY_VERSION, key, tail) == Address(ED25519_PUBLIC_KEY_VERSION, key', tail')
    ensures key == key' && tail == tail'
  {
    var p, p' := [ED25519_PUBLIC_KEY_VERSION] + key + tail, [ED25519_PUBLIC_KEY_VERSION] + key' + tail';
    DecodeEncode(p);
    DecodeEncode(p');
    assert p == p';
    assert key == p[1..33] && key' == p'[1..33] && tail == p[33..] && tail' == p'[33..];
  }

  // ----- Checked and unchecked addresses -----

  type PublicKey = key: seq<bv8> | |key| == 32 witness seq(32, _ => 0)

  /** The address of a key, as the network writes it. */
  function Account(key: PublicKey): string {
    Address(ED25519_PUBLIC_KEY_VERSION, key, LittleEndian(Crc([ED25519_PUBLIC_KEY_VERSION] + key)))
  }

  /** The address of a key as the MCP encoder writes it. */
  function Unchecked(key: PublicKey): string {
    Address(ED25519_PUBLIC_KEY_VERSION, key, [0, 0])
  }

  lemma AccountIsWellFormed(key: PublicKey)
    ensures WellFormedAddress(Account(key))
  {
    hide Address, WellFormedAddress, ValidPublicKey;
    EncodedAddressIsAccepted(key, LittleEndian(Crc([ED25519_PUBLIC_KEY_VERSION] + key)));
  }

  /** Whether a text comes from the MCP encoder. */
  predicate IsUnchecked(s: string) { WellFormedAddress(s) && Decode(s)[33..] == [0, 0] }

  lemma UncheckedExactly(s: string)
    ensures IsUnchecked(s) <==> exists key: PublicKey :: Unchecked(key) == s
  {
    hide Decode, Address;
    if IsUnchecked(s) {
      DecodedIsAddress(s);
      var key: PublicKey := Decode(s)[1..33];
      assert Unchecked(key) == s;
    }
    if key: PublicKey :| Unchecked(key) == s {
      UncheckedDecodes(key);
    }
  }

  lemma UncheckedDecodes(key: PublicKey)
    ensures IsUnchecked(Unchecked(key))
  {
    var p := [ED25519_PUBLIC_KEY_VERSION] + key + [0, 0];
    DecodeEncode(p);
    hide Decode, Encode;
    assert p[33..] == [0, 0];
  }

  lemma UncheckedDeterminesKey(key: PublicKey, key': PublicKey)
    requires Unchecked(key) == Unchecked(key')
    ensures key == key'
  {
    AddressDeterminesKey(key, [0, 0], key', [0, 0]);
  }

  lemma ZeroBytes(r: bv16)
    ensures LittleEndian(r) == [0, 0] <==> r == 0
  {
    assert LittleEndian(r)[0] == LowByte(r) && LittleEndian(r)[1] == HighByte(r);
  }

  /** The MCP encoder writes the address of an account only if the checksum is zero. */
  lemma CheckedIsUncheckedExactly(key: PublicKey)
    ensures IsUnchecked(Account(key)) <==> Crc([ED25519_PUBLIC_KEY_VERSION] + key) == 0
  {
    hide Decode, Address, Crc;
    var crc := Crc([ED25519_PUBLIC_KEY_VERSION] + key);
    ZeroBytes(crc);
    UncheckedExactly(Account(key));
    if key': PublicKey :| Unchecked(key') == Account(key) {
      AddressDeterminesKey(key', [0, 0], key, LittleEndian(crc));
    }
    if crc == 0 {
      assert Unchecked(key) == Account(key);
    }
  }

  /** Of the 65536 keys with the same first 30 bytes that is so for exactly one. */
  lemma OneKeyIn65536(prefix: seq<bv8>, x: bv8, y: bv8)
    requires |prefix| == 30
    ensures var crc := Crc([ED25519_PUBLIC_KEY_VERSION] + prefix);
            IsUnchecked(Account(prefix + [x, y])) <==> x == HighByte(crc) && y == LowByte(crc)
  {
    hide Decode, Address, Crc;
    var data := [ED25519_PUBLIC_KEY_VERSION] + prefix;
    assert [ED25519_PUBLIC_KEY_VERSION] + (prefix + [x, y]) == data + [x, y];
    CrcZeroExactly(data, x, y);
    CheckedIsUncheckedExactly(prefix + [x, y]);
  }

  /** `validate_public_key`, which trims and counts bytes. */
  predicate ValidPublicKey(s: string) {
    var key := Text.Trim(s);
    Text.Utf8Size(key) == 56 && key[0] == 'G'
  }

  /** The version byte 0x30 opens with the five bits of symbol 6. */
  lemma VersionStartsWithG(b: seq<bv8>)
    requires |b| == 5 && b[0] == ED25519_PUBLIC_KEY_VERSION
    ensures EncodeGroup(b)[0] == 'G'
  {
    assert b[0] >> 3 == 6;
    assert ALPHABET[6] == 'G';
  }

  lemma EncodedAddressIsAccepted(key: seq<bv8>, tail: seq<bv8>)
    requires |key| == 32 && |tail| == 2
    ensures WellFormedAddress(Address(ED25519_PUBLIC_KEY_VERSION, key, tail))
    ensures ValidPublicKey(Address(ED25519_PUBLIC_KEY_VERSION, key, tail))
  {
    hide Text.Trim, Text.Utf8Size, Decode;
    var p := [ED25519_PUBLIC_KEY_VERSION] + key + tail;
    DecodeEncode(p);
    var group := p[..5];
    VersionStartsWithG(group);
    assert Encode(p)[0] == EncodeGroup(group)[0];
    SymbolsArePlain(Encode(p));
  }

  lemma SymbolsArePlain(s: string)
    requires AllSymbols(s)
    ensures Text.Trim(s) == s && Text.Utf8Size(s) == |s|
  {
    Text.GraphicAsciiIsPlain(s);
  }

  /** Round trip through either encoder: the decoder gives back the key it was given. */
  method DecodeInvertsEncode(key: seq<bv8>) returns (plain: Result<seq<bv8>>, checked: Result<seq<bv8>>)
    requires |key| == 32
    ensures plain == checked == Ok(key)
  {
    var a := EncodeStellarAddress(key);
    EncodedAddressIsAccepted(key, [0, 0]);
    plain := DecodeStellarAddress(a);
    ghost var tail :| |tail| == 2 && a == Address(ED25519_PUBLIC_KEY_VERSION, plain.value, tail);
    AddressDeterminesKey(key, [0, 0], plain.value, tail);
    var b := EncodeWithChecksum(ED25519_PUBLIC_KEY_VERSION, key);
    ghost var crc := Crc([ED25519_PUBLIC_KEY_VERSION] + key);
    EncodedAddressIsAccepted(key, LittleEndian(crc));
    checked := DecodeStellarAddress(b);
    ghost var tail' :| |tail'| == 2 && b == Address(ED25519_PUBLIC_KEY_VERSION, checked.value, tail');
    AddressDeterminesKey(key, LittleEndian(crc), checked.value, tail');
  }
}
