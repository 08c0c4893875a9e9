/**
The two encodings of the endorsement service: the pre-authentication encoding, over which an
endorsement is signed, and the escaping of identities into policy keys and client ids.

Each is proved injective through a decoder that inverts it.
*/
module Encodings {
  import opened Bytes
  import opened Options
  import opened Sequences

  // ---------------------------------------------------------------- decimal lengths

  const SPACE: byte := 0x20
  const ZERO: byte := 0x30

  predicate IsDigit(c: byte) {
    ZERO <= c <= ZERO + 9
  }

  // A number in decimal, without leading zeros.
  function Decimal(n: nat): (r: seq<byte>)
    ensures |r| > 0 && forall i | 0 <= i < |r| :: IsDigit(r[i])
  {
    if n < 10 then [ZERO + n as byte] else Decimal(n / 10) + [ZERO + (n % 10) as byte]
  }

  // The number that digits denote.
  function Value(digits: seq<byte>): nat
    requires forall i | 0 <= i < |digits| :: IsDigit(digits[i])
  {
    if digits == [] then 0
    else
      var last := |digits| - 1;
      assert IsDigit(digits[last]);
      Value(digits[..last]) * 10 + (digits[last] - ZERO) as nat
  }

  lemma {:induction false} ValueOfDecimal(n: nat)
    ensures Value(Decimal(n)) == n
  {
    if n >= 10 {
      ValueOfDecimal(n / 10);
      assert Decimal(n)[..|Decimal(n)| - 1] == Decimal(n / 10);
    } else {
      assert Decimal(n)[..0] == [];
    }
  }

  // ---------------------------------------------------------------- one field

  // A length between two spaces, and the data.
  function Encode(data: seq<byte>): seq<byte> {
    [SPACE] + Decimal(|data|) + [SPACE] + data
  }

  // How many digits the bytes start with.
  function Digits(b: seq<byte>): (k: nat)
    ensures k <= |b|
    ensures forall i | 0 <= i < k :: IsDigit(b[i])
    ensures k < |b| ==> !IsDigit(b[k])
  {
    if b == [] || !IsDigit(b[0]) then 0 else 1 + Digits(b[1..])
  }

  // The field that the bytes start with, and the bytes behind it.
  function DecodeField(b: seq<byte>): Option<(seq<byte>, seq<byte>)> {
    if b == [] || b[0] != SPACE then None
    else
      var k := Digits(b[1..]);
      var digits := b[1..][..k];
      var behind := b[1..][k..];
      if behind == [] || behind[0] != SPACE || Decimal(Value(digits)) != digits then None
      else if |behind| - 1 < Value(digits) then None
      else Some((behind[1..][..Value(digits)], behind[1..][Value(digits)..]))
  }

  lemma {:induction false} DigitsOf(d: seq<byte>, rest: seq<byte>)
    requires forall i | 0 <= i < |d| :: IsDigit(d[i])
    requires rest != [] && !IsDigit(rest[0])
    ensures Digits(d + rest) == |d|
  {
    assert forall i | 0 <= i < |d| :: (d + rest)[i] == d[i];
    assert (d + rest)[|d|] == rest[0];
  }

  /** A field decodes exactly to itself and what follows it. */
  lemma {:induction false} FieldDecodesIff(b: seq<byte>, data: seq<byte>, rest: seq<byte>)
    ensures DecodeField(b) == Some((data, rest)) <==> b == Encode(data) + rest
  {
    if DecodeField(b) == Some((data, rest)) {
      FieldSound(b);
    }
    if b == Encode(data) + rest {
      FieldComplete(data, rest);
    }
  }

  // A field and what follows it, piece by piece.
  lemma {:induction false} EncodedParts(data: seq<byte>, rest: seq<byte>)
    ensures Encode(data) + rest == [SPACE] + (Decimal(|data|) + ([SPACE] + (data + rest)))
  {
    hide Decimal;
    var d := Decimal(|data|);
    Associate([SPACE], d, [SPACE] + (data + rest));
    Associate([SPACE] + d, [SPACE], data + rest);
    Associate([SPACE] + d + [SPACE], data, rest);
  }

  lemma {:induction false} FieldSound(b: seq<byte>)
    requires DecodeField(b).Some?
    ensures b == Encode(DecodeField(b).value.0) + DecodeField(b).value.1
  {
    var k := Digits(b[1..]);
    var digits, behind := b[1..][..k], b[1..][k..];
    var data, rest := DecodeField(b).value.0, DecodeField(b).value.1;
    assert Decimal(|data|) == digits;
    hide DecodeField, Decimal, Digits, Value, Encode;
    EncodedParts(data, rest);
    Split(b[1..], k);
    Split(behind[1..], |data|);
    HeadAndTail(b);
    HeadAndTail(behind);
  }

  lemma {:induction false} HeadAndTail(b: seq<byte>)
    requires b != []
    ensures b == [b[0]] + b[1..]
  {
  }

  lemma {:induction false} FieldComplete(data: seq<byte>, rest: seq<byte>)
    ensures DecodeField(Encode(data) + rest) == Some((data, rest))
  {
    var d, behind := Decimal(|data|), [SPACE] + (data + rest);
    EncodedParts(data, rest);
    DigitsOf(d, behind);
    ValueOfDecimal(|data|);
    Cut([SPACE], d + behind);
    Cut(d, behind);
    Cut([SPACE], data + rest);
    Cut(data, rest);
    hide Encode, Decimal, Digits, Value;
  }

  // ---------------------------------------------------------------- pre-authentication encoding

  const PES_PREFIX: seq<byte> := [0x50, 0x45, 0x53]

  // What an endorsement is signed over: the serialized statement, the content of the verification
  // material, the signature, and the log id in UTF-8.
  datatype Signed = Signed(statement: seq<byte>, material: seq<byte>, signature: seq<byte>, logId: seq<byte>)

  function Pae(x: Signed): seq<byte> {
    PES_PREFIX + (Encode(x.statement) + (Encode(x.material) + (Encode(x.signature) + (Encode(x.logId) + []))))
  }

  function DecodePae(b: seq<byte>): Option<Signed> {
    if !(PES_PREFIX <= b) then None else
    match DecodeField(b[3..])
    case None => None
    case Some((statement, b1)) =>
    match DecodeField(b1)
    case None => None
    case Some((material, b2)) =>
    match DecodeField(b2)
    case None => None
    case Some((signature, b3)) =>
    match DecodeField(b3)
    case None => None
    case Some((logId, b4)) => if b4 == [] then Some(Signed(statement, material, signature, logId)) else None
  }

  /** The decoder accepts exactly the encodings, and inverts them. */
  lemma {:induction false} PaeDecodesIff(b: seq<byte>, x: Signed)
    ensures DecodePae(b) == Some(x) <==> b == Pae(x)
  {
    hide DecodeField, Encode;
    var t4 := Encode(x.logId) + [];
    var t3 := Encode(x.signature) + t4;
    var t2 := Encode(x.material) + t3;
    var t1 := Encode(x.statement) + t2;
    FieldDecodesIff(t4, x.logId, []);
    FieldDecodesIff(t3, x.signature, t4);
    FieldDecodesIff(t2, x.material, t3);
    FieldDecodesIff(t1, x.statement, t2);
    if b == Pae(x) {
      assert b[3..] == t1;
    }
    if DecodePae(b) == Some(x) {
      PaeSound(b);
    }
  }

  lemma {:induction false} PaeSound(b: seq<byte>)
    requires DecodePae(b).Some?
    ensures b == Pae(DecodePae(b).value)
  {
    hide DecodeField, Encode;
    var f1 := DecodeField(b[3..]).value;
    FieldDecodesIff(b[3..], f1.0, f1.1);
    var f2 := DecodeField(f1.1).value;
    FieldDecodesIff(f1.1, f2.0, f2.1);
    var f3 := DecodeField(f2.1).value;
    FieldDecodesIff(f2.1, f3.0, f3.1);
    var f4 := DecodeField(f3.1).value;
    FieldDecodesIff(f3.1, f4.0, f4.1);
    assert b == PES_PREFIX + b[3..];
  }

  /** Equal encodings come from equal statements, verification material, signatures and log ids. */
  lemma {:induction false} PaeInjective(x: Signed, y: Signed)
    requires Pae(x) == Pae(y)
    ensures x == y
  {
    PaeDecodesIff(Pae(x), x);
    PaeDecodesIff(Pae(y), y);
  }

  // Characters that are one byte each in UTF-8.
  function Ascii(s: string): seq<byte>
    requires forall i | 0 <= i < |s| :: s[i] as int < 128
  {
    seq(|s|, i requires 0 <= i < |s| => s[i] as int as byte)
  }

  /** The encoding, byte by byte: the letters PES, and for each of the four parts, in this order, a
      space, its length, a space and the part itself. */
  lemma {:induction false} PaeLayout(x: Signed)
    ensures Pae(x) == Ascii("PES")
                    + Ascii(" ") + Decimal(|x.statement|) + Ascii(" ") + x.statement
                    + Ascii(" ") + Decimal(|x.material|) + Ascii(" ") + x.material
                    + Ascii(" ") + Decimal(|x.signature|) + Ascii(" ") + x.signature
                    + Ascii(" ") + Decimal(|x.logId|) + Ascii(" ") + x.logId
    ensures forall n: nat | n < 10 :: Decimal(n) == [Ascii("0123456789")[n]]
  {
    assert Ascii("PES") == PES_PREFIX && Ascii(" ") == [SPACE];
    hide Decimal;
    var a, b, c, d := Encode(x.statement), Encode(x.material), Encode(x.signature), Encode(x.logId);
    assert d + [] == d;
    Flattened(PES_PREFIX, x.statement);
    Flattened(PES_PREFIX + a, x.material);
    Flattened(PES_PREFIX + a + b, x.signature);
    Flattened(PES_PREFIX + a + b + c, x.logId);
    FiveAssociate(PES_PREFIX, a, b, c, d);
    DecimalDigits();
  }

  lemma {:induction false} Flattened(before: seq<byte>, data: seq<byte>)
    ensures before + Encode(data) == before + [SPACE] + Decimal(|data|) + [SPACE] + data
  {
    hide Decimal;
    var d := Decimal(|data|);
    Associate(before, [SPACE] + d + [SPACE], data);
    Associate(before, [SPACE] + d, [SPACE]);
    Associate(before, [SPACE], d);
  }

  lemma {:induction false} FiveAssociate(p: seq<byte>, a: seq<byte>, b: seq<byte>, c: seq<byte>, d: seq<byte>)
    ensures p + (a + (b + (c + d))) == p + a + b + c + d
  {
    Associate(p, a, b + (c + d));
    Associate(p + a, b, c + d);
    Associate(p + a + b, c, d);
  }

  lemma {:induction false} DecimalDigits()
    ensures forall n: nat | n < 10 :: Decimal(n) == [Ascii("0123456789")[n]]
  {
    var digits := Ascii("0123456789");
    assert digits == [0x30, 0x31, 0x32, 0x33, 0x34, 0x35, 0x36, 0x37, 0x38, 0x39];
  }

  // The parts of a list, one after the other.
  function Concat(parts: seq<seq<byte>>): seq<byte> {
    if parts == [] then [] else parts[0] + Concat(parts[1..])
  }

  lemma {:induction false} ConcatCons(part: seq<byte>, parts: seq<seq<byte>>)
    ensures Concat([part] + parts) == part + Concat(parts)
  {
    assert ([part] + parts)[1..] == parts;
  }

  method Join(parts: seq<seq<byte>>) returns (r: seq<byte>)
    ensures r == Concat(parts)
  {
    r := [];
    for i := 0 to |parts|
      invariant r + Concat(parts[i..]) == Concat(parts)
    {
      assert parts[i..] == [parts[i]] + parts[i + 1..];
      ConcatCons(parts[i], parts[i + 1..]);
      r := r + parts[i];
    }
    assert parts[|parts|..] == [];
  }

  /** The parts are collected in a list that is joined at the end. */
  method Calculate(x: Signed) returns (r: seq<byte>)
    ensures r == Pae(x) && DecodePae(r) == Some(x)
  {
    hide Encode, DecodePae, Concat;
    var parts := [];
    parts := parts + [PES_PREFIX];
    parts := parts + [Encode(x.statement)];
    parts := parts + [Encode(x.material)];
    parts := parts + [Encode(x.signature)];
    parts := parts + [Encode(x.logId)];
    FiveParts(PES_PREFIX, Encode(x.statement), Encode(x.material), Encode(x.signature), Encode(x.logId));
    r := Join(parts);
    PaeDecodesIff(r, x);
  }

  lemma {:induction false} FiveParts(a: seq<byte>, b: seq<byte>, c: seq<byte>, d: seq<byte>, e: seq<byte>)
    ensures Concat([] + [a] + [b] + [c] + [d] + [e]) == a + (b + (c + (d + (e + []))))
  {
    ConcatCons(e, []);
    ConcatCons(d, [e] + []);
    ConcatCons(c, [d] + ([e] + []));
    ConcatCons(b, [c] + ([d] + ([e] + [])));
    ConcatCons(a, [b] + ([c] + ([d] + ([e] + []))));
    assert [] + [a] + [b] + [c] + [d] + [e] == [a] + ([b] + ([c] + ([d] + ([e] + []))));
  }

  // ---------------------------------------------------------------- escaping

  // A code unit of UTF-16.
  type Unit = n: nat | n < 0x1_0000

  const UNDERSCORE: Unit := 0x5F
  const SLASH: Unit := 0x2F

  // Letters, digits, hyphen and period.
  predicate IsSafe(c: Unit) {
    0x61 <= c <= 0x7A || 0x41 <= c <= 0x5A || 0x30 <= c <= 0x39 || c == 0x2D || c == 0x2E
  }

  function HexDigit(n: nat): (c: Unit)
    requires n < 16
    ensures IsSafe(c)
  {
    if n < 10 then 0x30 + n else 0x61 + n - 10
  }

  function HexValue(c: Unit): nat {
    if 0x30 <= c <= 0x39 then c - 0x30 else if 0x61 <= c <= 0x66 then c - 0x61 + 10 else 0
  }

  // An underscore and four hexadecimal digits.
  function Hex(c: Unit): (r: seq<Unit>)
    ensures |r| == 5
  {
    [UNDERSCORE, HexDigit(c / 4096), HexDigit(c / 256 % 16), HexDigit(c / 16 % 16), HexDigit(c % 16)]
  }

  function EscapeUnit(c: Unit): seq<Unit> {
    if IsSafe(c) then [c] else Hex(c)
  }

  function Escaped(s: seq<Unit>): seq<Unit> {
    if s == [] then [] else EscapeUnit(s[0]) + Escaped(s[1..])
  }

  function Unescaped(t: seq<Unit>): seq<Unit>
    decreases |t|
  {
    if t == [] then []
    else if t[0] != UNDERSCORE then [t[0]] + Unescaped(t[1..])
    else if |t| < 5 then []
    else
      var v := HexValue(t[1]) * 4096 + HexValue(t[2]) * 256 + HexValue(t[3]) * 16 + HexValue(t[4]);
      (if v < 0x1_0000 then [v] else []) + Unescaped(t[5..])
  }

  lemma {:induction false} HexDecodes(c: Unit)
    ensures var h := Hex(c);
            HexValue(h[1]) * 4096 + HexValue(h[2]) * 256 + HexValue(h[3]) * 16 + HexValue(h[4]) == c
  {
    forall n: nat | n < 16 ensures HexValue(HexDigit(n)) == n { }
    assert c == c / 16 * 16 + c % 16;
    assert c / 16 == c / 256 * 16 + c / 16 % 16;
    assert c / 256 == c / 4096 * 16 + c / 256 % 16;
  }

  /** Unescaping inverts escaping on every UTF-16 string, well formed or not. */
  lemma {:induction false} UnescapeInverts(s: seq<Unit>)
    ensures Unescaped(Escaped(s)) == s
  {
    if s != [] {
      var rest := Escaped(s[1..]);
      UnescapeInverts(s[1..]);
      if IsSafe(s[0]) {
        assert Escaped(s)[1..] == rest;
      } else {
        HexDecodes(s[0]);
        var h := Hex(s[0]);
        assert Escaped(s) == h + rest;
        assert (h + rest)[5..] == rest && forall i | 0 <= i < 5 :: (h + rest)[i] == h[i];
      }
      assert s == [s[0]] + s[1..];
    }
  }

  /** Only letters, digits, hyphen, period and underscore come out; in particular no slash. */
  lemma {:induction false} EscapedIsSafe(s: seq<Unit>)
    ensures forall c | c in Escaped(s) :: IsSafe(c) || c == UNDERSCORE
    ensures SLASH !in Escaped(s)
  {
    if s != [] {
      EscapedIsSafe(s[1..]);
    }
  }

  /** Exactly which characters pass unescaped, and what becomes of the others: an underscore and the four
      hexadecimal digits of the code unit, in lower case. */
  lemma {:induction false} EscapesIff(c: Unit)
    ensures Escaped([c]) == [c] <==>
              || 'a' as int <= c <= 'z' as int || 'A' as int <= c <= 'Z' as int || '0' as int <= c <= '9' as int
              || c == '-' as int || c == '.' as int
    ensures Escaped([c]) != [c] ==>
              Escaped([c]) == ['_' as int, HexLetter(c / 4096), HexLetter(c / 256), HexLetter(c / 16), HexLetter(c)]
  {
    EscapedOne(c);
    HexLetters(c);
    hide Escaped, HexLetter, Hex;
    assert !IsSafe(c) ==> |EscapeUnit(c)| != |[c]|;
  }

  function HexLetter(n: nat): Unit {
    "0123456789abcdef"[n % 16] as int
  }

  lemma {:induction false} EscapedOne(c: Unit)
    ensures Escaped([c]) == EscapeUnit(c)
  {
    assert [c][1..] == [] && EscapeUnit(c) + [] == EscapeUnit(c);
  }

  lemma {:induction false} HexLetters(c: Unit)
    ensures Hex(c) == [UNDERSCORE, HexLetter(c / 4096), HexLetter(c / 256), HexLetter(c / 16), HexLetter(c)]
  {
    assert c / 4096 < 16;
    IsHexLetter(c / 4096);
    IsHexLetter(c / 256);
    IsHexLetter(c / 16);
    IsHexLetter(c);
    hide HexDigit, HexLetter;
  }

  lemma {:induction false} IsHexLetter(n: nat)
    ensures HexDigit(n % 16) == HexLetter(n)
  {
  }

  /** The loop over the characters that appends to a builder. */
  method Escape(s: seq<Unit>) returns (r: seq<Unit>)
    ensures r == Escaped(s) && Unescaped(r) == s && SLASH !in r
  {
    hide Hex, Unescaped;
    r := [];
    assert s[0..] == s;
    for i := 0 to |s|
      invariant r + Escaped(s[i..]) == Escaped(s)
    {
      EscapedFrom(s, i);
      Associate(r, EscapeUnit(s[i]), Escaped(s[i + 1..]));
      r := r + if IsSafe(s[i]) then [s[i]] else Hex(s[i]);
    }
    assert Escaped(s[|s|..]) == [];
    UnescapeInverts(s);
    EscapedIsSafe(s);
  }

  lemma {:induction false} EscapedFrom(s: seq<Unit>, i: nat)
    requires i < |s|
    ensures Escaped(s[i..]) == EscapeUnit(s[i]) + Escaped(s[i + 1..])
  {
    assert s[i..][1..] == s[i + 1..];
  }

  function ClientId(issuer: seq<Unit>, subject: seq<Unit>): seq<Unit> {
    Escaped(issuer) + [SLASH] + Escaped(subject)
  }

  lemma {:induction false} SplitAtSlash(a: seq<Unit>, b: seq<Unit>, c: seq<Unit>, d: seq<Unit>)
    requires SLASH !in a && SLASH !in c && a + [SLASH] + b == c + [SLASH] + d
    ensures a == c && b == d
  {
    var l, r := a + [SLASH] + b, c + [SLASH] + d;
    assert (forall i | 0 <= i < |a| :: l[i] == a[i]) && l[|a|] == SLASH;
    assert (forall i | 0 <= i < |c| :: r[i] == c[i]) && r[|c|] == SLASH;
    assert a == l[..|a|] && c == r[..|c|] && b == l[|a| + 1..] && d == r[|c| + 1..];
  }

  /** Distinct publisher ids have distinct policy keys, and distinct callers distinct client ids. */
  lemma {:induction false} IdentitiesDistinct(
    issuer: seq<Unit>, subject: seq<Unit>, issuer': seq<Unit>, subject': seq<Unit>)
    ensures Escaped(issuer) == Escaped(issuer') <==> issuer == issuer'
    ensures ClientId(issuer, subject) == ClientId(issuer', subject') <==> issuer == issuer' && subject == subject'
    ensures Escaped(issuer) + ['/' as int] <= ClientId(issuer, subject)
  {
    UnescapeInverts(issuer);
    UnescapeInverts(issuer');
    UnescapeInverts(subject);
    UnescapeInverts(subject');
    EscapedIsSafe(issuer);
    EscapedIsSafe(issuer');
    if ClientId(issuer, subject) == ClientId(issuer', subject') {
      SplitAtSlash(Escaped(issuer), Escaped(subject), Escaped(issuer'), Escaped(subject'));
    }
  }
}
