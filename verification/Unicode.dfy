/**
 A JavaScript string is a sequence of UTF-16 code units. A code unit outside the surrogate
 range is the `char` of that value; the surrogate u, which is no Unicode scalar value, is
 the `char` 0x10000 above it. So every JavaScript string is a `Text`, and an ordinary
 string literal is the `Text` it looks like.
 */
module Unicode {
  import opened Sequences

  type Unit = c: char | c as int < 0x10000 || 0x1D800 <= c as int <= 0x1DFFF witness 'a'
  type Text = seq<Unit>
  type Byte = b: int | 0 <= b < 256

  function Code(u: Unit): (n: int)
    ensures 0 <= n < 0x10000
  {
    if u as int < 0x10000 then u as int else u as int - 0x10000
  }

  function UnitOf(n: int): Unit
    requires 0 <= n < 0x10000
  {
    if 0xD800 <= n <= 0xDFFF then (0x10000 + n) as char else n as char
  }

  predicate High(u: Unit) { 0xD800 <= Code(u) <= 0xDBFF }
  predicate Low(u: Unit) { 0xDC00 <= Code(u) <= 0xDFFF }
  predicate Scalar(p: int) { 0 <= p < 0xD800 || 0xE000 <= p <= 0x10FFFF }

  /** How many units the code point at the front of `s` takes. */
  function HeadWidth(s: Text): (n: nat)
    requires s != []
    ensures 1 <= n <= 2 && n <= |s|
  {
    if |s| > 1 && High(s[0]) && Low(s[1]) then 2 else 1
  }

  /** The code point at the front of `s`; a lone surrogate stands for itself. */
  function HeadPoint(s: Text): (p: int)
    requires s != []
    ensures 0 <= p <= 0x10FFFF
  {
    if HeadWidth(s) == 2 then 0x10000 + (Code(s[0]) - 0xD800) * 0x400 + (Code(s[1]) - 0xDC00)
    else Code(s[0])
  }

  /** The units of a code point (section 10.1.1 of ECMA-262). */
  function UnitsOf(p: int): (s: Text)
    requires 0 <= p <= 0x10FFFF
  {
    if p < 0x10000 then [UnitOf(p)]
    else [UnitOf(0xD800 + (p - 0x10000) / 0x400), UnitOf(0xDC00 + (p - 0x10000) % 0x400)]
  }

  lemma UnitsOfHead(s: Text)
    requires s != []
    ensures UnitsOf(HeadPoint(s)) == s[..HeadWidth(s)]
  {}

  /** No lone surrogate anywhere. */
  predicate WellFormed(s: Text) {
    s == [] || (Scalar(HeadPoint(s)) && WellFormed(s[HeadWidth(s)..]))
  }

  /** The UTF-8 form of one scalar value (section 3 of RFC 3629). */
  function EncodePoint(p: int): (b: seq<Byte>)
    requires Scalar(p)
    ensures 1 <= |b| <= 4
  {
    if p < 0x80 then [p]
    else if p < 0x800 then [0xC0 + p / 64, 0x80 + p % 64]
    else if p < 0x10000 then [0xE0 + p / 4096, 0x80 + p / 64 % 64, 0x80 + p % 64]
    else [0xF0 + p / 262144, 0x80 + p / 4096 % 64, 0x80 + p / 64 % 64, 0x80 + p % 64]
  }

  predicate Continuation(b: Byte) { 0x80 <= b < 0xC0 }

  /** How many octets the lead octet announces; 0 when it can lead nothing. */
  function LeadWidth(b: Byte): nat {
    if b < 0x80 then 1 else if b < 0xC0 then 0 else if b < 0xE0 then 2 else if b < 0xF0 then 3 else if b < 0xF8 then 4 else 0
  }

  function Payload(b: Byte): int { b - 0x80 }

  /** The number an octet sequence spells, its marker bits taken away. */
  function Combine(b: seq<Byte>): int
    requires 1 <= |b| <= 4
  {
    var first: int := b[0];
    if |b| == 1 then first
    else if |b| == 2 then (first - 0xC0) * 64 + Payload(b[1])
    else if |b| == 3 then (first - 0xE0) * 4096 + Payload(b[1]) * 64 + Payload(b[2])
    else (first - 0xF0) * 262144 + Payload(b[1]) * 4096 + Payload(b[2]) * 64 + Payload(b[3])
  }

  /** The scalar value an octet sequence is the UTF-8 form of, if it is one. */
  function DecodePoint(b: seq<Byte>): (p: Option<int>)
    ensures p.Some? ==> Scalar(p.value)
  {
    if b == [] || LeadWidth(b[0]) != |b| || (exists i :: 0 < i < |b| && !Continuation(b[i])) then None
    else if Scalar(Combine(b)) && |EncodePoint(Combine(b))| == |b| then Some(Combine(b))
    else None
  }

  lemma CombineEncoded(p: int)
    requires Scalar(p)
    ensures Combine(EncodePoint(p)) == p
  {
    if p >= 0x10000 {
      assert p / 4096 / 64 == p / 262144 && p / 64 / 64 == p / 4096;
    } else if p >= 0x800 {
      assert p / 64 / 64 == p / 4096;
    }
  }

  lemma DecodeEncodedPoint(p: int)
    requires Scalar(p)
    ensures DecodePoint(EncodePoint(p)) == Some(p)
    ensures LeadWidth(EncodePoint(p)[0]) == |EncodePoint(p)|
  {
    CombineEncoded(p);
    var b := EncodePoint(p);
    if p >= 0x10000 {
      assert p / 262144 <= 4;
    }
    assert LeadWidth(b[0]) == |b|;
    assert forall i :: 0 < i < |b| ==> Continuation(b[i]);
  }

  /** `new TextEncoder().encode(s)`: UTF-8, with U+FFFD for every lone surrogate. */
  function Utf8(s: Text): seq<Byte> {
    if s == [] then []
    else
      var p := HeadPoint(s);
      EncodePoint(if Scalar(p) then p else 0xFFFD) + Utf8(s[HeadWidth(s)..])
  }

  /** Every unit costs between one and three octets. */
  lemma {:induction false} Utf8Length(s: Text)
    ensures |s| <= |Utf8(s)| <= 3 * |s|
  {
    if s != [] {
      Utf8Length(s[HeadWidth(s)..]);
    }
  }

  /** `s` with U+FFFD for every lone surrogate. */
  function Repaired(s: Text): Text {
    if s == [] then []
    else (if Scalar(HeadPoint(s)) then s[..HeadWidth(s)] else [UnitOf(0xFFFD)]) + Repaired(s[HeadWidth(s)..])
  }

  lemma {:induction false} RepairedWellFormed(s: Text)
    requires WellFormed(s)
    ensures Repaired(s) == s
  {
    if s != [] {
      RepairedWellFormed(s[HeadWidth(s)..]);
    }
  }

  /** What `Utf8` keeps of a text: the reading of its octets one code point at a time. */
  function ReadUtf8(b: seq<Byte>): Text {
    if b == [] then []
    else
      var n := LeadWidth(b[0]);
      if n == 0 || n > |b| || DecodePoint(b[..n]).None? then []
      else UnitsOf(DecodePoint(b[..n]).value) + ReadUtf8(b[n..])
  }

  lemma {:induction false} ReadUtf8Encoded(s: Text)
    ensures ReadUtf8(Utf8(s)) == Repaired(s)
  {
    if s != [] {
      var p := if Scalar(HeadPoint(s)) then HeadPoint(s) else 0xFFFD;
      var b, rest := EncodePoint(p), Utf8(s[HeadWidth(s)..]);
      assert (b + rest)[..|b|] == b && (b + rest)[|b|..] == rest && (b + rest)[0] == b[0];
      DecodeEncodedPoint(p);
      UnitsOfHead(s);
      ReadUtf8Encoded(s[HeadWidth(s)..]);
    }
  }

  lemma {:induction false} Utf8Repaired(s: Text)
    ensures Utf8(Repaired(s)) == Utf8(s)
  {
    if s != [] {
      var n, r := HeadWidth(s), Repaired(s[HeadWidth(s)..]);
      Utf8Repaired(s[n..]);
      if Scalar(HeadPoint(s)) {
        var t := s[..n] + r;
        assert HeadWidth(t) == n && HeadPoint(t) == HeadPoint(s) && t[n..] == r;
      } else {
        var t := [UnitOf(0xFFFD)] + r;
        assert HeadWidth(t) == 1 && HeadPoint(t) == 0xFFFD && t[1..] == r;
      }
    }
  }

  /** Two texts have the same octets exactly when they agree up to lone surrogates. */
  lemma Utf8Equal(s: Text, t: Text)
    ensures Utf8(s) == Utf8(t) <==> Repaired(s) == Repaired(t)
    ensures WellFormed(s) && WellFormed(t) ==> (Utf8(s) == Utf8(t) <==> s == t)
  {
    ReadUtf8Encoded(s);
    ReadUtf8Encoded(t);
    Utf8Repaired(s);
    Utf8Repaired(t);
    if WellFormed(s) && WellFormed(t) {
      RepairedWellFormed(s);
      RepairedWellFormed(t);
    }
  }

  /** A text of code units below 0x80 has no surrogate at all. */
  lemma {:induction false} AsciiWellFormed(s: Text)
    requires forall i :: 0 <= i < |s| ==> Code(s[i]) < 0x80
    ensures WellFormed(s)
  {
    if s != [] {
      AsciiWellFormed(s[1..]);
    }
  }

  /** White space and line terminators (sections 12.2 and 12.3 of ECMA-262): what `\s` matches and `trim` removes. */
  predicate Whitespace(c: char) {
    var n := c as int;
    9 <= n <= 13 || n in {0x20, 0xA0, 0x1680, 0x2028, 0x2029, 0x202F, 0x205F, 0x3000, 0xFEFF} || 0x2000 <= n <= 0x200A
  }

  predicate WhitespaceUnit(u: Unit) { Whitespace(u) }

  /** `s.trim()`. */
  function Trimmed(s: Text): Text {
    Trim(s, WhitespaceUnit)
  }

  /** How long a run the text begins with. */
  function RunLength(s: string, inRun: char -> bool): (n: nat)
    ensures n <= |s| && (n < |s| ==> !inRun(s[n]))
    ensures forall i :: 0 <= i < n ==> inRun(s[i])
  {
    if s == [] || !inRun(s[0]) then 0 else 1 + RunLength(s[1..], inRun)
  }

  /** `s.replace(/[...]{least,}/g, mark)`: every maximal run that is long enough becomes one `mark`. */
  function Collapse(s: string, inRun: char -> bool, least: nat, mark: char): (t: string)
    requires least >= 1
    decreases |s|
  {
    if s == [] then []
    else
      var n := RunLength(s, inRun);
      if n >= least then [mark] + Collapse(s[n..], inRun, least, mark)
      else [s[0]] + Collapse(s[1..], inRun, least, mark)
  }

  /** A text with nothing to collapse stays as it is. */
  lemma {:induction false} CollapseNone(s: string, inRun: char -> bool, least: nat, mark: char)
    requires least >= 1 && forall i :: 0 <= i < |s| ==> !inRun(s[i])
    ensures Collapse(s, inRun, least, mark) == s
  {
    if s != [] {
      var rest := s[1..];
      assert forall i :: 0 <= i < |rest| ==> rest[i] == s[i + 1];
      CollapseNone(rest, inRun, least, mark);
      assert RunLength(s, inRun) == 0;
    }
  }

  /** So does a text without two adjacent characters to collapse, if it takes two. */
  lemma {:induction false} CollapseSingles(s: string, inRun: char -> bool, mark: char)
    requires forall i :: 0 < i < |s| ==> !(inRun(s[i - 1]) && inRun(s[i]))
    ensures Collapse(s, inRun, 2, mark) == s
  {
    if s != [] {
      var rest := s[1..];
      forall i | 0 < i < |rest| ensures !(inRun(rest[i - 1]) && inRun(rest[i])) {
        assert rest[i - 1] == s[i] && rest[i] == s[i + 1];
      }
      CollapseSingles(rest, inRun, mark);
      assert RunLength(s, inRun) < 2;
    }
  }
}
