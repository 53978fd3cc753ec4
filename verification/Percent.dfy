/** `encodeURIComponent` and `decodeURIComponent` (section 19.2.6 of ECMA-262). */
module Percent {
  import opened Sequences
  import opened Unicode

  predicate Digit(c: char) { '0' <= c <= '9' }
  predicate Letter(c: char) { 'a' <= c <= 'z' || 'A' <= c <= 'Z' }

  /** The units `encodeURIComponent` leaves alone. */
  predicate Unreserved(c: char) {
    Digit(c) || Letter(c) || c in "-_.!~*'()"
  }

  /** The two hexadecimal digits of an octet, upper case as percent-encoding wants them. */
  function UpperHex(n: int): (u: Unit)
    requires 0 <= n < 16
    ensures Digit(u) || 'A' <= u <= 'F'
  {
    if n < 10 then ('0' as int + n) as char else ('A' as int + n - 10) as char
  }

  /** The value of a hexadecimal digit of either case. */
  function HexValue(c: char): (n: Option<int>)
    ensures n.Some? ==> 0 <= n.value < 16
  {
    if Digit(c) then Some(c as int - '0' as int)
    else if 'A' <= c <= 'F' then Some(c as int - 'A' as int + 10)
    else if 'a' <= c <= 'f' then Some(c as int - 'a' as int + 10)
    else None
  }

  /** `%XX`. */
  function Triplet(b: Byte): (t: Text)
    ensures |t| == 3
  {
    ['%', UpperHex(b / 16), UpperHex(b % 16)]
  }

  /** `%XX` for each octet. */
  function Triplets(b: seq<Byte>): (t: Text)
    ensures |t| == 3 * |b|
  {
    if b == [] then [] else Triplet(b[0]) + Triplets(b[1..])
  }

  /** The octet the first three units spell, if they do. */
  function TripletValue(t: Text): (b: Option<Byte>) {
    if |t| < 3 || t[0] != '%' || HexValue(t[1]).None? || HexValue(t[2]).None? then None
    else Some(HexValue(t[1]).value * 16 + HexValue(t[2]).value)
  }

  /** The first `n` octets spelled by `t`, if there are that many. */
  function TripletValues(t: Text, n: nat): (b: Option<seq<Byte>>)
    ensures b.Some? ==> |b.value| == n && 3 * n <= |t|
  {
    if n == 0 then Some([])
    else if TripletValue(t).None? || TripletValues(t[3..], n - 1).None? then None
    else Some([TripletValue(t).value] + TripletValues(t[3..], n - 1).value)
  }

  lemma TripletRead(b: Byte, rest: Text)
    ensures TripletValue(Triplet(b) + rest) == Some(b)
  {}

  lemma {:induction false} TripletsRead(b: seq<Byte>, rest: Text)
    ensures TripletValues(Triplets(b) + rest, |b|) == Some(b)
  {
    if b != [] {
      var tail := Triplets(b[1..]) + rest;
      TripletRead(b[0], tail);
      TripletsRead(b[1..], rest);
      hide Triplet, TripletValue;
      assert Triplets(b) + rest == Triplet(b[0]) + tail;
      assert (Triplet(b[0]) + tail)[3..] == tail;
      assert b == [b[0]] + b[1..];
    }
  }

  /** What one code point at the front of `s` is written as. */
  function EncodeHead(s: Text): (t: Text)
    requires s != [] && Scalar(HeadPoint(s))
    ensures t != []
  {
    if Unreserved(s[0]) then [s[0]] else Triplets(EncodePoint(HeadPoint(s)))
  }

  /** `encodeURIComponent(s)`; nothing when it throws a URIError on a lone surrogate. */
  function Encode(s: Text): (t: Option<Text>) {
    if s == [] then Some([])
    else if !Scalar(HeadPoint(s)) || Encode(s[HeadWidth(s)..]).None? then None
    else Some(EncodeHead(s) + Encode(s[HeadWidth(s)..]).value)
  }

  /** `decodeURIComponent(t)`; nothing when it throws a URIError. */
  function Decode(t: Text): (s: Option<Text>)
    decreases |t|
  {
    if t == [] then Some([])
    else if t[0] != '%' then
      match Decode(t[1..]) case None => None case Some(rest) => Some([t[0]] + rest)
    else
      match TripletValue(t)
      case None => None
      case Some(lead) =>
        var n := LeadWidth(lead);
        if n == 0 then None
        else
          match TripletValues(t, n)
          case None => None
          case Some(octets) =>
            match DecodePoint(octets)
            case None => None
            case Some(p) =>
              match Decode(t[3 * n..]) case None => None case Some(rest) => Some(UnitsOf(p) + rest)
  }

  /** Encoding fails on exactly the texts with a lone surrogate. */
  lemma {:induction false} EncodeDefined(s: Text)
    ensures Encode(s).Some? <==> WellFormed(s)
  {
    if s != [] {
      EncodeDefined(s[HeadWidth(s)..]);
    }
  }

  lemma DecodeTriplets(p: int, rest: Text)
    requires Scalar(p)
    ensures var t := Triplets(EncodePoint(p)) + rest;
      Decode(t) == match Decode(rest) case None => None case Some(r) => Some(UnitsOf(p) + r)
  {
    var b := EncodePoint(p);
    var t := Triplets(b) + rest;
    DecodeEncodedPoint(p);
    TripletsRead(b, rest);
    TripletsRead([b[0]], Triplets(b[1..]) + rest);
    assert Triplets([b[0]]) + (Triplets(b[1..]) + rest) == t by {
      assert [b[0]][1..] == [];
      assert b == [b[0]] + b[1..];
    }
    assert TripletValues(t, 1) == Some([b[0]]);
    assert TripletValue(t) == Some(b[0]);
    assert t[3 * |b|..] == rest;
  }

  /** Decoding inverts encoding on every text that can be encoded. */
  lemma {:induction false} DecodeEncoded(s: Text)
    requires Encode(s).Some?
    ensures Decode(Encode(s).value) == Some(s)
  {
    if s != [] {
      var n := HeadWidth(s);
      var rest := Encode(s[n..]).value;
      DecodeEncoded(s[n..]);
      assert s == s[..n] + s[n..];
      if Unreserved(s[0]) {
        var t := Encode(s).value;
        assert n == 1 && s[..1] == [s[0]];
        assert t == [s[0]] + rest && t[1..] == rest;
      } else {
        DecodeTriplets(HeadPoint(s), rest);
        UnitsOfHead(s);
      }
    }
  }

  /** Different texts have different encodings. */
  lemma EncodeInjective(s: Text, t: Text)
    requires Encode(s).Some? && Encode(s) == Encode(t)
    ensures s == t
  {
    DecodeEncoded(s);
    DecodeEncoded(t);
  }

  /** An encoding is made of unreserved units and percent signs only. */
  predicate Clean(t: Text) {
    forall i :: 0 <= i < |t| ==> Unreserved(t[i]) || t[i] == '%'
  }

  lemma {:induction false} TripletsClean(b: seq<Byte>)
    ensures Clean(Triplets(b))
  {
    if b != [] {
      TripletsClean(b[1..]);
    }
  }

  lemma {:induction false} EncodeClean(s: Text)
    requires Encode(s).Some?
    ensures Clean(Encode(s).value)
    ensures Encode(s).value == [] <==> s == []
  {
    if s != [] {
      EncodeClean(s[HeadWidth(s)..]);
      TripletsClean(EncodePoint(HeadPoint(s)));
      assert Clean(EncodeHead(s));
    }
  }

  /** None of the separators the keys and routes are built with is a clean unit. */
  lemma CleanHasNoSeparator(t: Text)
    requires Clean(t)
    ensures ':' !in t && '/' !in t && '?' !in t
  {}

  /** A text of unreserved units is its own encoding and its own decoding. */
  lemma {:induction false} UnreservedUnchanged(s: Text)
    requires forall i :: 0 <= i < |s| ==> Unreserved(s[i])
    ensures Encode(s) == Some(s) && Decode(s) == Some(s)
  {
    if s != [] {
      UnreservedUnchanged(s[1..]);
      assert s == [s[0]] + s[1..];
    }
  }

  /** Decoding never loses everything: only the empty text decodes to the empty text. */
  lemma DecodeNonEmpty(t: Text)
    requires Decode(t).Some?
    ensures Decode(t).value == [] <==> t == []
  {}

  const CAPITALS := "ABCDEFGHIJKLMNOPQRSTUVWXYZ"
  const SMALL := "abcdefghijklmnopqrstuvwxyz"
  const DIGITS := "0123456789"

  lemma Alphabet(c: char)
    ensures 'A' <= c <= 'Z' <==> c in CAPITALS
    ensures 'a' <= c <= 'z' <==> c in SMALL
    ensures '0' <= c <= '9' <==> c in DIGITS
  {
    assert forall k :: 0 <= k < 26 ==> CAPITALS[k] as int == 'A' as int + k;
    assert forall k :: 0 <= k < 26 ==> SMALL[k] as int == 'a' as int + k;
    assert forall k :: 0 <= k < 10 ==> DIGITS[k] as int == '0' as int + k;
    assert 'A' <= c <= 'Z' ==> CAPITALS[c as int - 'A' as int] == c;
    assert 'a' <= c <= 'z' ==> SMALL[c as int - 'a' as int] == c;
    assert '0' <= c <= '9' ==> DIGITS[c as int - '0' as int] == c;
  }

  /** The 71 units that stand for themselves, one by one. */
  lemma UnreservedExactly(c: char)
    ensures Unreserved(c) <==> c in CAPITALS || c in SMALL || c in DIGITS || c in "-_.!~*'()"
  {
    Alphabet(c);
    hide CAPITALS, SMALL, DIGITS;
  }
}
