/** The byte-compare and hex-digest pair that decides whether a claimed digest is the computed one. */
module Digests {
  import opened Unicode

  /** A SHA-256 value: 32 octets. */
  type Digest = d: seq<Byte> | |d| == 32 witness seq(32, i => 0)

  predicate LowerHexUnit(c: char) { '0' <= c <= '9' || 'a' <= c <= 'f' }

  /** `n.toString(16)` for one hexadecimal digit. */
  function LowerHex(n: int): (u: Unit)
    requires 0 <= n < 16
    ensures LowerHexUnit(u)
  {
    if n < 10 then ('0' as int + n) as char else ('a' as int + n - 10) as char
  }

  function LowerHexValue(c: char): (n: int)
    requires LowerHexUnit(c)
    ensures 0 <= n < 16
  {
    if c <= '9' then c as int - '0' as int else c as int - 'a' as int + 10
  }

  /** `byte.toString(16).padStart(2, "0")`: a small byte has one digit and is padded. */
  function PaddedHex(b: Byte): (t: Text) {
    if b < 16 then ['0', LowerHex(b)] else [LowerHex(b / 16), LowerHex(b % 16)]
  }

  function HexDigest(bytes: seq<Byte>): (t: Text)
    ensures |t| == 2 * |bytes|
  {
    if bytes == [] then [] else PaddedHex(bytes[0]) + HexDigest(bytes[1..])
  }

  /** An even number of lower-case hexadecimal digits. */
  predicate IsHex(t: Text) {
    |t| % 2 == 0 && forall i :: 0 <= i < |t| ==> LowerHexUnit(t[i])
  }

  /** The octets a run of lower-case hexadecimal digits denotes. */
  function Denoted(t: Text): (b: seq<Byte>)
    requires IsHex(t)
    ensures |b| == |t| / 2
  {
    if t == [] then [] else [LowerHexValue(t[0]) * 16 + LowerHexValue(t[1])] + Denoted(t[2..])
  }

  /** A digest's text is lower-case hex, and reading it back gives the digest. */
  lemma {:induction false} DenotedHexDigest(bytes: seq<Byte>)
    ensures IsHex(HexDigest(bytes))
    ensures Denoted(HexDigest(bytes)) == bytes
  {
    if bytes != [] {
      DenotedHexDigest(bytes[1..]);
      assert HexDigest(bytes)[2..] == HexDigest(bytes[1..]);
    }
  }

  lemma PaddedHexOfValue(a: char, b: char)
    requires LowerHexUnit(a) && LowerHexUnit(b)
    ensures PaddedHex(LowerHexValue(a) * 16 + LowerHexValue(b)) == [a, b]
  {}

  /** Every run of lower-case hex is the digest text of the octets it denotes. */
  lemma {:induction false} HexDigestDenoted(t: Text)
    requires IsHex(t)
    ensures HexDigest(Denoted(t)) == t
  {
    if t != [] {
      PaddedHexOfValue(t[0], t[1]);
      HexDigestDenoted(t[2..]);
      assert t == [t[0], t[1]] + t[2..];
    }
  }

  /** `a ^ b`, bit by bit. */
  function Xor(a: nat, b: nat): nat
    decreases a + b
  {
    if a == 0 && b == 0 then 0 else (a + b) % 2 + 2 * Xor(a / 2, b / 2)
  }

  /** `a | b`, bit by bit. */
  function Or(a: nat, b: nat): nat
    decreases a + b
  {
    if a == 0 && b == 0 then 0 else (if a % 2 == 1 || b % 2 == 1 then 1 else 0) + 2 * Or(a / 2, b / 2)
  }

  lemma {:induction false} XorZero(a: nat, b: nat)
    ensures Xor(a, b) == 0 <==> a == b
    decreases a + b
  {
    if a != 0 || b != 0 {
      XorZero(a / 2, b / 2);
    }
  }

  lemma {:induction false} OrZero(a: nat, b: nat)
    ensures Or(a, b) == 0 <==> a == 0 && b == 0
    decreases a + b
  {
    if a != 0 || b != 0 {
      OrZero(a / 2, b / 2);
    }
  }

  /**
   The comparison folds the exclusive-or of every pair of octets into `difference` before it
   looks at it, so how long it takes does not tell where the texts part.
   */
  method ConstantTimeTextEqual(left: Text, right: Text) returns (equal: bool)
    ensures equal <==> Utf8(left) == Utf8(right)
  {
    var a, b := Utf8(left), Utf8(right);
    if |a| != |b| {
      return false;
    }
    var difference: nat := 0;
    for index := 0 to |a|
      invariant difference == 0 <==> a[..index] == b[..index]
    {
      XorZero(a[index], b[index]);
      OrZero(difference, Xor(a[index], b[index]));
      assert a[..index + 1] == a[..index] + [a[index]] && b[..index + 1] == b[..index] + [b[index]];
      difference := Or(difference, Xor(a[index], b[index]));
    }
    assert a[..|a|] == a && b[..|a|] == b;
    return difference == 0;
  }

  /** A lone surrogate and U+FFFD have the same octets: the comparison takes them for equal. */
  lemma LoneSurrogateComparesEqual()
    ensures var lone: Text := [UnitOf(0xD800)]; var replacement: Text := [UnitOf(0xFFFD)];
      lone != replacement && Utf8(lone) == Utf8(replacement)
  {}

  const PREFIX: Text := "sha256:"

  /** `/^sha256:[a-f0-9]{64}$/`. */
  predicate IsDigestText(t: Text) {
    |t| == 71 && t[..7] == PREFIX && IsHex(t[7..])
  }

  lemma DigestTextAscii(t: Text)
    requires IsDigestText(t)
    ensures WellFormed(t)
  {
    forall i | 0 <= i < |t| ensures Code(t[i]) < 0x80 {
      if i < 7 {
        assert t[i] == PREFIX[i];
      } else {
        assert t[i] == t[7..][i - 7];
      }
    }
    AsciiWellFormed(t);
  }

  /** A well-shaped claim compares equal to the computed digest exactly when it denotes that digest. */
  lemma ClaimMatches(claim: Text, hash: Digest)
    requires IsDigestText(claim)
    ensures IsDigestText(PREFIX + HexDigest(hash))
    ensures Utf8(claim) == Utf8(PREFIX + HexDigest(hash)) <==> Denoted(claim[7..]) == hash
  {
    var computed := PREFIX + HexDigest(hash);
    DenotedHexDigest(hash);
    assert computed[..7] == PREFIX && computed[7..] == HexDigest(hash);
    DigestTextAscii(claim);
    DigestTextAscii(computed);
    Utf8Equal(claim, computed);
    HexDigestDenoted(claim[7..]);
    assert claim == PREFIX + claim[7..];
  }
}
