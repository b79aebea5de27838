/** The 32-byte build hash and its base16 text form
    (crates/securedeploy-types/src/build_hash.rs). `hex::encode` and
    `hex::decode` are base16 of section 8 of RFC 4648, either case accepted. */
module BuildHashes {
  import opened Machine
  import opened GovernanceRules

  const ZERO_HASH: seq<u8> := [
    0, 0, 0, 0, 0, 0, 0, 0, 0, 0, 0, 0, 0, 0, 0, 0,
    0, 0, 0, 0, 0, 0, 0, 0, 0, 0, 0, 0, 0, 0, 0, 0]

  type Bytes32 = b: seq<u8> | |b| == 32 witness ZERO_HASH

  function HexDigit(n: int): (c: char)
    requires 0 <= n < 16
  {
    if n < 10 then '0' + n as char else 'a' + (n - 10) as char
  }

  function DigitValue(c: char): (r: Option<int>)
    ensures r.Some? ==> 0 <= r.value < 16
  {
    if '0' <= c <= '9' then Some((c - '0') as int)
    else if 'a' <= c <= 'f' then Some((c - 'a') as int + 10)
    else if 'A' <= c <= 'F' then Some((c - 'A') as int + 10)
    else None
  }

  /** A base16 digit in lower case; any other character is left alone. */
  function Lower(c: char): char
  {
    if 'A' <= c <= 'F' then c - 'A' + 'a' else c
  }

  function HexEncode(bytes: seq<u8>): (s: string)
    ensures |s| == 2 * |bytes|
  {
    if |bytes| == 0 then "" else [HexDigit(bytes[0] / 16), HexDigit(bytes[0] % 16)] + HexEncode(bytes[1..])
  }

  function HexDecode(s: string): (r: Option<seq<u8>>)
    ensures r.Some? ==> |s| == 2 * |r.value|
  {
    if |s| == 0 then Some([])
    else if |s| == 1 then None
    else
      var hi, lo, rest := DigitValue(s[0]), DigitValue(s[1]), HexDecode(s[2..]);
      if hi.None? || lo.None? || rest.None? then None else Some([16 * hi.value + lo.value] + rest.value)
  }

  /** UTF-8 length of a Rust `&str`, which the length error reports. */
  function Utf8Length(s: string): nat
  {
    if |s| == 0 then 0 else
      var n := s[0] as int;
      (if n < 0x80 then 1 else if n < 0x800 then 2 else if n < 0x10000 then 3 else 4) + Utf8Length(s[1..])
  }

  function FromBytes(bytes: Bytes32): (r: Result<Bytes32, SecureError>)
    ensures r.Ok? <==> bytes != ZERO_HASH
    ensures r.Ok? ==> r.value == bytes
  {
    if bytes == ZERO_HASH then Err(EmptyBuildHash) else Ok(bytes)
  }

  /** What becomes of the decoded bytes of a text. */
  function Checked(s: string, decoded: Option<seq<u8>>): (r: Result<Bytes32, SecureError>)
    ensures r.Ok? ==> r.value != ZERO_HASH
  {
    match decoded
    case None => Err(InvalidLength(64, Utf8Length(s)))
    case Some(raw) => if |raw| != 32 then Err(InvalidLength(32, |raw|)) else FromBytes(raw)
  }

  /** What `BuildHash::from_hex` answers. */
  function FromHex(s: string): (r: Result<Bytes32, SecureError>)
    ensures r.Ok? ==> r.value != ZERO_HASH
  {
    Checked(s, HexDecode(s))
  }

  /** `BuildHash::from_hex`, copying the decoded bytes into a fixed buffer. */
  method ParseBuildHash(s: string) returns (r: Result<Bytes32, SecureError>)
    ensures r == FromHex(s)
  {
    var decoded := HexDecode(s);
    if decoded.None? {
      return Err(InvalidLength(64, Utf8Length(s)));
    }
    var raw := decoded.value;
    if |raw| != 32 {
      return Err(InvalidLength(32, |raw|));
    }
    var arr := new u8[32](_ => 0);
    for i := 0 to 32
      invariant arr[..i] == raw[..i]
    {
      arr[i] := raw[i];
    }
    assert arr[..] == raw;
    r := FromBytes(arr[..]);
  }

  /** `c` is a base16 digit of either case, of value `v`: its position in the
      base16 alphabet. */
  ghost predicate Spells(c: char, v: int) {
    0 <= v < 16 && (c == "0123456789abcdef"[v] || c == "0123456789ABCDEF"[v])
  }

  ghost predicate IsBase16Digit(c: char)
  {
    '0' <= c <= '9' || 'a' <= c <= 'f' || 'A' <= c <= 'F'
  }

  ghost predicate IsBase16(s: string)
  {
    forall i :: 0 <= i < |s| ==> IsBase16Digit(s[i])
  }

  /** The two digit functions, against the alphabet. */
  lemma DigitsSpell(c: char, v: int)
    ensures DigitValue(c) == Some(v) <==> Spells(c, v)
  {
  }

  lemma DigitPrinted(v: int)
    requires 0 <= v < 16
    ensures HexDigit(v) == "0123456789abcdef"[v]
  {
  }

  lemma IsDigit(c: char)
    ensures DigitValue(c).Some? <==> IsBase16Digit(c)
  {
  }

  lemma Base16Tail(s: string)
    requires |s| >= 2
    ensures IsBase16(s) <==> IsBase16Digit(s[0]) && IsBase16Digit(s[1]) && IsBase16(s[2..])
  {
    var rest := s[2..];
    assert forall i :: 0 <= i < |rest| ==> rest[i] == s[i + 2];
    assert forall i :: 2 <= i < |s| ==> s[i] == rest[i - 2];
  }

  lemma DecodeStep(s: string)
    requires |s| >= 2
    ensures HexDecode(s).Some?
            <==> DigitValue(s[0]).Some? && DigitValue(s[1]).Some? && HexDecode(s[2..]).Some?
  {
  }

  /** Decoding succeeds on exactly the even-length base16 strings. */
  lemma {:induction false} DecodeAccepts(s: string)
    ensures HexDecode(s).Some? <==> |s| % 2 == 0 && IsBase16(s)
  {
    if |s| == 0 {
    } else if |s| == 1 {
    } else {
      DecodeAccepts(s[2..]);
      IsDigit(s[0]);
      IsDigit(s[1]);
      Base16Tail(s);
      DecodeStep(s);
    }
  }

  lemma DigitSpelt(c: char)
    requires DigitValue(c).Some?
    ensures HexDigit(DigitValue(c).value) == Lower(c)
  {
    DigitsSpell(c, DigitValue(c).value);
  }

  /** Decoding the first two digits and then the rest. */
  lemma DecodeFirst(s: string)
    requires |s| >= 2 && HexDecode(s).Some?
    ensures HexDecode(s[2..]).Some? && DigitValue(s[0]).Some? && DigitValue(s[1]).Some?
    ensures HexDecode(s).value == [16 * DigitValue(s[0]).value + DigitValue(s[1]).value] + HexDecode(s[2..]).value
  {
  }

  /** Lower case, character by character. */
  function LowerAll(s: string): (t: string)
    ensures |t| == |s| && forall i :: 0 <= i < |s| ==> t[i] == Lower(s[i])
  {
    seq(|s|, i requires 0 <= i < |s| => Lower(s[i]))
  }

  /** Encoding what was decoded spells the input in lower case. */
  lemma {:induction false} DecodeSpells(s: string)
    requires HexDecode(s).Some?
    ensures HexEncode(HexDecode(s).value) == LowerAll(s)
  {
    if |s| < 2 {
    } else {
      DecodeFirst(s);
      DecodeSpells(s[2..]);
      EncodeFirst(DigitValue(s[0]).value, DigitValue(s[1]).value, HexDecode(s[2..]).value);
      DigitSpelt(s[0]);
      DigitSpelt(s[1]);
      LowerFirst(s);
    }
  }

  lemma LowerFirst(s: string)
    requires |s| >= 2
    ensures LowerAll(s) == [Lower(s[0]), Lower(s[1])] + LowerAll(s[2..])
  {
  }

  lemma EncodeFirst(hi: int, lo: int, rest: seq<u8>)
    requires 0 <= hi < 16 && 0 <= lo < 16
    ensures HexEncode([16 * hi + lo] + rest) == [HexDigit(hi), HexDigit(lo)] + HexEncode(rest)
  {
    assert ([16 * hi + lo] + rest)[1..] == rest;
  }

  lemma {:induction false} DecodeEncode(bytes: seq<u8>)
    ensures HexDecode(HexEncode(bytes)) == Some(bytes)
  {
    if |bytes| == 0 {
    } else {
      DecodeEncode(bytes[1..]);
      assert HexEncode(bytes)[2..] == HexEncode(bytes[1..]);
      assert bytes == [bytes[0]] + bytes[1..];
    }
  }

  lemma {:induction false} ZeroDigits(s: string)
    requires HexDecode(s).Some?
    ensures (forall k :: 0 <= k < |HexDecode(s).value| ==> HexDecode(s).value[k] == 0)
            <==> (forall i :: 0 <= i < |s| ==> s[i] == '0')
  {
    if |s| < 2 {
    } else {
      var bytes, rest := HexDecode(s).value, s[2..];
      DecodeFirst(s);
      ZeroDigits(rest);
      assert bytes[0] == 0 <==> s[0] == '0' && s[1] == '0';
      AllOf(bytes, (b: u8) => b == 0, 1);
      AllOf(s, (c: char) => c == '0', 2);
      assert bytes[1..] == HexDecode(rest).value;
    }
  }

  /** All of a sequence is all of its first part and all of the rest. */
  lemma AllOf<T>(s: seq<T>, p: T -> bool, n: nat)
    requires n <= |s|
    ensures (forall i :: 0 <= i < |s| ==> p(s[i]))
            <==> (forall i :: 0 <= i < n ==> p(s[i])) && (forall i :: 0 <= i < |s[n..]| ==> p(s[n..][i]))
  {
    assert forall i :: 0 <= i < |s[n..]| ==> s[n..][i] == s[i + n];
    assert forall i :: n <= i < |s| ==> s[i] == s[n..][i - n];
  }

  lemma ZeroHashOnly(raw: Bytes32)
    ensures raw == ZERO_HASH <==> forall k :: 0 <= k < |raw| ==> raw[k] == 0
  {
    assert forall k :: 0 <= k < 32 ==> ZERO_HASH[k] == 0;
    if forall k :: 0 <= k < |raw| ==> raw[k] == 0 {
      assert raw == ZERO_HASH;
    }
  }

  /** Parsing in terms of decoding. */
  lemma CheckedCases(s: string, decoded: Option<seq<u8>>)
    requires decoded.Some? ==> |s| == 2 * |decoded.value|
    ensures decoded.None? ==> Checked(s, decoded) == Err(InvalidLength(64, Utf8Length(s)))
    ensures decoded.Some? && |s| != 64 ==> Checked(s, decoded) == Err(InvalidLength(32, |decoded.value|))
    ensures decoded.Some? && |s| == 64 ==> Checked(s, decoded) == FromBytes(decoded.value)
  {
  }

  lemma Accepts(s: string)
    ensures FromHex(s).Ok? <==> |s| == 64 && IsBase16(s) && exists i :: 0 <= i < |s| && s[i] != '0'
  {
    CheckedCases(s, HexDecode(s));
    DecodeAccepts(s);
    if HexDecode(s).Some? && |s| == 64 {
      ZeroDigits(s);
      ZeroHashOnly(HexDecode(s).value);
    }
  }

  /** `from_hex` accepts exactly the 64-digit base16 strings with a nonzero
      digit; the text of the parsed hash is the input in lower case. */
  lemma FromHexAcceptsExactly(s: string)
    ensures FromHex(s).Ok? <==> |s| == 64 && IsBase16(s) && exists i :: 0 <= i < |s| && s[i] != '0'
    ensures FromHex(s).Ok? ==> HexEncode(FromHex(s).value) == LowerAll(s)
  {
    Accepts(s);
    if FromHex(s).Ok? {
      DecodeSpells(s);
    }
  }

  lemma {:induction false} DecodedByte(s: string, i: nat) returns (h: int, l: int)
    requires HexDecode(s).Some? && 2 * i < |s|
    ensures Spells(s[2 * i], h) && Spells(s[2 * i + 1], l) && HexDecode(s).value[i] == 16 * h + l
  {
    DecodeFirst(s);
    if i == 0 {
      h, l := DigitValue(s[0]).value, DigitValue(s[1]).value;
      DigitsSpell(s[0], h);
      DigitsSpell(s[1], l);
    } else {
      h, l := DecodedByte(s[2..], i - 1);
    }
  }

  lemma LowerDigit(c: char, v: int)
    requires Spells(c, v)
    ensures "0123456789abcdef"[v] == Lower(c)
  {
  }

  /** What a parsed hash is, byte by byte: byte `i` is 16 times the value of digit
      2i plus the value of digit 2i+1, a digit's value being its position in the
      base16 alphabet. */
  lemma ParsedBytes(s: string, i: nat) returns (h: int, l: int)
    requires FromHex(s).Ok? && i < 32
    ensures |s| == 64 && Spells(s[2 * i], h) && Spells(s[2 * i + 1], l)
    ensures "0123456789abcdef"[h] == Lower(s[2 * i]) && "0123456789abcdef"[l] == Lower(s[2 * i + 1])
    ensures FromHex(s).value[i] == 16 * h + l
  {
    h, l := DecodedByte(s, i);
    LowerDigit(s[2 * i], h);
    LowerDigit(s[2 * i + 1], l);
  }

  /** .. and what a hash is printed as, digit by digit. */
  lemma {:induction false} PrintedDigits(bytes: seq<u8>, i: nat)
    requires i < |bytes|
    ensures HexEncode(bytes)[2 * i] == "0123456789abcdef"[bytes[i] / 16]
    ensures HexEncode(bytes)[2 * i + 1] == "0123456789abcdef"[bytes[i] % 16]
  {
    if i == 0 {
      DigitPrinted(bytes[0] / 16);
      DigitPrinted(bytes[0] % 16);
    } else {
      PrintedDigits(bytes[1..], i - 1);
    }
  }

  /** Why a text is refused: the length in bytes of one that is no base16, the
      number of bytes of one that spells another number than 32, the zero hash. */
  lemma FromHexRefusals(s: string)
    ensures !(|s| % 2 == 0 && IsBase16(s)) ==> FromHex(s) == Err(InvalidLength(64, Utf8Length(s)))
    ensures |s| % 2 == 0 && IsBase16(s) && |s| != 64 ==> FromHex(s) == Err(InvalidLength(32, |s| / 2))
    ensures |s| == 64 && (forall i :: 0 <= i < |s| ==> s[i] == '0') ==> FromHex(s) == Err(EmptyBuildHash)
  {
    CheckedCases(s, HexDecode(s));
    DecodeAccepts(s);
    if HexDecode(s).Some? {
      Half(|s|, |HexDecode(s).value|);
    }
    if |s| == 64 && forall i :: 0 <= i < |s| ==> s[i] == '0' {
      ZerosAreBase16(s);
      ZeroDigits(s);
      ZeroHashOnly(HexDecode(s).value);
    }
  }

  lemma Half(n: nat, m: nat)
    requires n == 2 * m
    ensures n / 2 == m && n % 2 == 0
  {
  }

  lemma ZerosAreBase16(s: string)
    requires forall i :: 0 <= i < |s| ==> s[i] == '0'
    ensures IsBase16(s)
  {
  }

  /** A text is as long in bytes as in characters exactly when it is ASCII. */
  lemma {:induction false} AsciiLength(s: string)
    ensures |s| <= Utf8Length(s) <= 4 * |s|
    ensures Utf8Length(s) == |s| <==> forall i :: 0 <= i < |s| ==> s[i] as int < 0x80
  {
    if |s| == 0 {
    } else {
      AsciiLength(s[1..]);
      assert s == [s[0]] + s[1..];
      AllOf(s, (c: char) => c as int < 0x80, 1);
    }
  }

  /** Text that is the canonical form of some nonzero hash. */
  ghost predicate Canonical(text: string)
  {
    FromHex(text).Ok? && HexEncode(FromHex(text).value) == text
  }

  /** Round trip: every nonzero hash survives printing and parsing, and its
      text is canonical. */
  lemma HashRoundTrip(h: Bytes32)
    requires h != ZERO_HASH
    ensures FromHex(HexEncode(h)) == Ok(h)
    ensures Canonical(HexEncode(h))
  {
    DecodeEncode(h);
  }
}
