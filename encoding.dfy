/**
 * The string encodings the /verify handler applies to the random values it
 * is given: `randomBytes(32).toString("hex")` for the session token, and
 * `randomUUID().substring(0, 8).toUpperCase()` for the support reference.
 * The random values themselves are inputs of the model.
 */
module Encoding {
  import opened Wrappers

  newtype byte = x: int | 0 <= x < 256

  /** The number of random bytes behind one session token. */
  const TokenBytes: nat := 32

  /** The length of a support reference. */
  const SupportReferenceLength: nat := 8

  /** The lower-case hexadecimal digit for a value below 16. */
  function HexDigit(v: nat): (c: char)
    requires v < 16
    ensures IsLowerHexChar(c)
  {
    if v < 10 then ('0' as int + v) as char else ('a' as int + v - 10) as char
  }

  predicate IsLowerHexChar(c: char) {
    ('0' <= c <= '9') || ('a' <= c <= 'f')
  }

  predicate IsUpperHexChar(c: char) {
    ('0' <= c <= '9') || ('A' <= c <= 'F')
  }

  /** The value of one lower-case hexadecimal digit. */
  function HexValue(c: char): (v: nat)
    requires IsLowerHexChar(c)
    ensures v < 16 && HexDigit(v) == c
  {
    if c <= '9' then (c as int - '0' as int) else (c as int - 'a' as int) + 10
  }

  /** Node's lower-case hexadecimal rendering of a byte string, two digits per byte. */
  function Hex(bytes: seq<byte>): (r: string)
    ensures |r| == 2 * |bytes|
    ensures forall i :: 0 <= i < |r| ==> IsLowerHexChar(r[i])
  {
    if bytes == [] then ""
    else
      var b := bytes[0] as int;
      [HexDigit(b / 16), HexDigit(b % 16)] + Hex(bytes[1..])
  }

  /** Reads back a hexadecimal string of even length; `None` on anything else. */
  function Unhex(s: string): Option<seq<byte>>
    decreases |s|
  {
    if s == [] then Some([])
    else if |s| == 1 || !IsLowerHexChar(s[0]) || !IsLowerHexChar(s[1]) then None
    else
      match Unhex(s[2..])
      case None => None
      case Some(rest) => Some([(HexValue(s[0]) * 16 + HexValue(s[1])) as byte] + rest)
  }

  /** Reading a digit back gives the value it was written for. */
  lemma HexDigitValue(v: nat)
    requires v < 16
    ensures HexValue(HexDigit(v)) == v
  {
  }

  /** Decoding undoes the encoding, so the token carries the bytes it was made from. */
  lemma {:induction false} UnhexHex(bytes: seq<byte>)
    ensures Unhex(Hex(bytes)) == Some(bytes)
  {
    if bytes != [] {
      var b := bytes[0] as int;
      var s := Hex(bytes);
      assert s[2..] == Hex(bytes[1..]);
      UnhexHex(bytes[1..]);
      HexDigitValue(b / 16);
      HexDigitValue(b % 16);
      assert [bytes[0]] + bytes[1..] == bytes;
    }
  }

  /** Distinct random byte strings give distinct session tokens. */
  lemma HexInjective(a: seq<byte>, b: seq<byte>)
    ensures Hex(a) == Hex(b) ==> a == b
  {
    UnhexHex(a);
    UnhexHex(b);
  }

  /** ASCII upper-casing of one character; every other character is kept. */
  function UpperAscii(c: char): char {
    if IsLowerAsciiLetter(c) then (c as int - 'a' as int + 'A' as int) as char else c
  }

  /** `String.prototype.substring(0, n)`: the first `n` characters, or all of a shorter string. */
  function Prefix(s: string, n: nat): (r: string)
    ensures |r| == if |s| < n then |s| else n
    ensures r <= s
  {
    if |s| < n then s else s[..n]
  }

  predicate IsLowerAsciiLetter(c: char) {
    'a' <= c <= 'z'
  }

  /**
   * `String.prototype.toUpperCase` restricted to ASCII letters: no lower-case
   * letter is left, every other character is kept, and a lower-case letter
   * becomes the letter 32 code points below it.
   */
  function ToUpperAscii(s: string): (r: string)
    ensures |r| == |s|
    ensures forall i :: 0 <= i < |r| ==> !IsLowerAsciiLetter(r[i])
    ensures forall i :: 0 <= i < |s| && !IsLowerAsciiLetter(s[i]) ==> r[i] == s[i]
    ensures forall i :: 0 <= i < |s| && IsLowerAsciiLetter(s[i]) ==>
              'A' <= r[i] <= 'Z' && r[i] as int == s[i] as int - 32
  {
    seq(|s|, i requires 0 <= i < |s| => UpperAscii(s[i]))
  }

  /** Upper-casing an upper-cased string changes nothing. */
  lemma ToUpperAsciiIdempotent(s: string)
    ensures ToUpperAscii(ToUpperAscii(s)) == ToUpperAscii(s)
  {
    var r := ToUpperAscii(s);
    assert forall i :: 0 <= i < |r| ==> ToUpperAscii(r)[i] == r[i];
  }

  /** The 401 body's `support_reference`: the UUID's first eight characters, upper-cased. */
  function SupportReference(uuid: string): (r: string)
    ensures |uuid| >= SupportReferenceLength ==> |r| == SupportReferenceLength
    ensures |r| <= SupportReferenceLength && |r| <= |uuid|
    ensures forall i :: 0 <= i < |r| ==> r[i] == UpperAscii(uuid[i])
  {
    ToUpperAscii(Prefix(uuid, SupportReferenceLength))
  }

  /**
   * The textual form `crypto.randomUUID()` produces: 36 characters, hyphens
   * at positions 8, 13, 18 and 23, lower-case hexadecimal digits elsewhere.
   */
  predicate IsUuidText(u: string) {
    && |u| == 36
    && forall i :: 0 <= i < |u| ==>
         if i == 8 || i == 13 || i == 18 || i == 23 then u[i] == '-' else IsLowerHexChar(u[i])
  }

  /** A support reference cut from a well-formed UUID is eight upper-case hexadecimal digits. */
  lemma SupportReferenceOfUuid(uuid: string)
    requires IsUuidText(uuid)
    ensures |SupportReference(uuid)| == SupportReferenceLength
    ensures forall i :: 0 <= i < SupportReferenceLength ==> IsUpperHexChar(SupportReference(uuid)[i])
  {
    var r := SupportReference(uuid);
    forall i | 0 <= i < SupportReferenceLength ensures IsUpperHexChar(r[i]) {
      assert IsLowerHexChar(uuid[i]);
    }
  }
}
