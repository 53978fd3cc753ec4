/** Facts about finite sequences that the text, key and log proofs share. */
module Sequences {

  datatype Option<+T> = None | Some(value: T)

  /** `part` occurs in `whole` at index `i`. */
  predicate OccursAt<T(==)>(whole: seq<T>, part: seq<T>, i: int) {
    0 <= i && i + |part| <= |whole| && whole[i..i + |part|] == part
  }

  /** `part` occurs somewhere in `whole`. */
  predicate Contains<T(==)>(whole: seq<T>, part: seq<T>) {
    exists i {:trigger OccursAt(whole, part, i)} :: 0 <= i <= |whole| - |part| && OccursAt(whole, part, i)
  }

  lemma ContainsAt<T>(whole: seq<T>, part: seq<T>, i: int)
    requires OccursAt(whole, part, i)
    ensures Contains(whole, part)
  {}

  /** Occurrence is transitive: a part of a part is a part. */
  lemma ContainsTransitive<T>(whole: seq<T>, middle: seq<T>, part: seq<T>)
    requires Contains(whole, middle) && Contains(middle, part)
    ensures Contains(whole, part)
  {
    var i :| 0 <= i <= |whole| - |middle| && OccursAt(whole, middle, i);
    var j :| 0 <= j <= |middle| - |part| && OccursAt(middle, part, j);
    OccursInSlice(whole, part, i, i + |middle|, j);
    ContainsAt(whole, part, i + j);
  }

  lemma SliceOfSlice<T>(s: seq<T>, m: nat, e: nat, j: nat, k: nat)
    requires m <= e <= |s| && j <= k <= e - m
    ensures s[m..e][j..k] == s[m + j..m + k]
  {
    assert forall i :: 0 <= i < k - j ==> s[m..e][j..k][i] == s[m..e][j + i] == s[m + j + i];
  }

  /** An occurrence in a slice is one in the whole, and one in the whole that lies in the slice is one there. */
  lemma OccursInSlice<T>(s: seq<T>, part: seq<T>, m: nat, e: nat, j: nat)
    requires m <= e <= |s| && j + |part| <= e - m
    ensures OccursAt(s[m..e], part, j) <==> OccursAt(s, part, m + j)
  {
    SliceOfSlice(s, m, e, j, j + |part|);
  }

  /** What stands before, at and after an occurrence makes up the whole. */
  lemma AroundOccurrence<T>(s: seq<T>, part: seq<T>, i: nat)
    requires OccursAt(s, part, i)
    ensures s == s[..i] + part + s[i + |part|..]
  {}

  lemma ThreeParts<T>(a: seq<T>, b: seq<T>, c: seq<T>)
    ensures var s := a + b + c;
      s[..|a|] == a && OccursAt(s, b, |a|) && s[|a| + |b|..] == c
  {}

  /** An occurrence in three joined parts that misses the middle one occurs in an outer one. */
  lemma MissesMiddle<T>(left: seq<T>, glue: seq<T>, right: seq<T>, part: seq<T>, i: nat)
    requires OccursAt(left + glue + right, part, i)
    ensures i + |part| <= |left| ==> OccursAt(left, part, i)
    ensures i >= |left| + |glue| ==> OccursAt(right, part, i - |left| - |glue|)
  {
    ThreeParts(left, glue, right);
    var s, r := left + glue + right, |left| + |glue|;
    hide OccursAt;
    if i + |part| <= |left| {
      assert s[0..|left|] == left;
      OccursInSlice(s, part, 0, |left|, i);
    }
    if i >= r {
      OccurrenceAt(s, part, i);
      assert s[r..|s|] == right;
      OccursInSlice(s, part, r, |s|, i - r);
    }
  }

  lemma OccurrenceAt<T>(s: seq<T>, part: seq<T>, i: nat)
    requires OccursAt(s, part, i)
    ensures i + |part| <= |s| && s[i..i + |part|] == part
  {}

  /** One that lies in the middle part occurs there, and one around it has the middle part occur in it. */
  lemma MeetsMiddle<T>(left: seq<T>, glue: seq<T>, right: seq<T>, part: seq<T>, i: nat)
    requires OccursAt(left + glue + right, part, i)
    ensures |left| <= i && i + |part| <= |left| + |glue| ==> OccursAt(glue, part, i - |left|)
    ensures i <= |left| && |left| + |glue| <= i + |part| ==> OccursAt(part, glue, |left| - i)
  {
    var s, l, g := left + glue + right, |left|, |glue|;
    ThreeParts(left, glue, right);
    OccurrenceAt(s, part, i);
    OccurrenceAt(s, glue, l);
    hide OccursAt;
    if l <= i && i + |part| <= l + g {
      OccursInSlice(s, part, l, l + g, i - l);
    }
    if i <= l && l + g <= i + |part| {
      OccursInSlice(s, glue, i, i + |part|, l - i);
    }
  }

  /** One that ends in the middle part ends as that begins. */
  lemma ReachesMiddle<T>(left: seq<T>, glue: seq<T>, right: seq<T>, part: seq<T>, i: nat)
    requires OccursAt(left + glue + right, part, i) && i < |left| < i + |part| < |left| + |glue|
    ensures part[|left| - i..] == glue[..i + |part| - |left|] && part == left[i..] + glue[..i + |part| - |left|]
  {
    var s, l, n := left + glue + right, |left|, |part|;
    var m := i + n - l;
    ThreeParts(left, glue, right);
    OccurrenceAt(s, part, i);
    OccurrenceAt(s, glue, l);
    hide OccursAt;
    SliceOfSlice(s, i, i + n, n - m, n);
    SliceOfSlice(s, l, l + |glue|, 0, m);
    assert part[n - m..n] == part[n - m..] && glue[0..m] == glue[..m];
    SliceOfSlice(s, i, i + n, 0, n - m);
    SliceOfSlice(s, 0, l, i, l);
    assert s[0..l] == left && left[i..l] == left[i..];
    assert part == part[0..n - m] + part[n - m..n];
  }

  /** One that begins in the middle part begins as that ends. */
  lemma LeavesMiddle<T>(left: seq<T>, glue: seq<T>, right: seq<T>, part: seq<T>, i: nat)
    requires OccursAt(left + glue + right, part, i) && |left| < i < |left| + |glue| < i + |part|
    ensures part[..|left| + |glue| - i] == glue[i - |left|..]
  {
    var s, l, g, n := left + glue + right, |left|, |glue|, |part|;
    var m := l + g - i;
    ThreeParts(left, glue, right);
    OccurrenceAt(s, part, i);
    OccurrenceAt(s, glue, l);
    hide OccursAt;
    SliceOfSlice(s, i, i + n, 0, m);
    SliceOfSlice(s, l, l + g, g - m, g);
    assert part[0..m] == part[..m] && glue[g - m..g] == glue[g - m..];
  }

  /** The pieces of a split, put back together around `glue`. */
  function Join<T>(pieces: seq<seq<T>>, glue: seq<T>): seq<T> {
    if |pieces| == 0 then []
    else if |pieces| == 1 then pieces[0]
    else pieces[0] + glue + Join(pieces[1..], glue)
  }

  /** Where `element` first occurs in `s`; the length of `s` when it does not. */
  function FirstIndex<T(==)>(s: seq<T>, element: T): nat {
    if |s| == 0 || s[0] == element then 0 else 1 + FirstIndex(s[1..], element)
  }

  lemma {:induction false} FirstIndexAfter<T>(a: seq<T>, b: seq<T>, element: T)
    requires element !in a
    ensures FirstIndex(a + [element] + b, element) == |a|
  {
    var s := a + [element] + b;
    if |a| > 0 {
      assert s[1..] == a[1..] + [element] + b;
      FirstIndexAfter(a[1..], b, element);
    }
  }

  /** Splitting at the first separator is unambiguous when what precedes it has none. */
  lemma SplitUnique<T>(a: seq<T>, b: seq<T>, c: seq<T>, d: seq<T>, separator: T)
    requires separator !in a && separator !in c
    requires a + [separator] + b == c + [separator] + d
    ensures a == c && b == d
  {
    var left, right := a + [separator] + b, c + [separator] + d;
    FirstIndexAfter(a, b, separator);
    FirstIndexAfter(c, d, separator);
    assert a == left[..|a|] == right[..|c|] == c;
    assert b == left[|a| + 1..] == right[|c| + 1..] == d;
  }

  /** `s` without the elements at either end that satisfy `drop`. */
  function Trim<T>(s: seq<T>, drop: T -> bool): seq<T> {
    if |s| > 0 && drop(s[0]) then Trim(s[1..], drop)
    else if |s| > 0 && drop(s[|s| - 1]) then Trim(s[..|s| - 1], drop)
    else s
  }

  /** `s.split(separator)` for a separator of one element. */
  function SplitOn<T(==)>(s: seq<T>, separator: T): (pieces: seq<seq<T>>)
    ensures |pieces| >= 1
  {
    if s == [] then [[]]
    else
      var rest := SplitOn(s[1..], separator);
      if s[0] == separator then [[]] + rest else [[s[0]] + rest[0]] + rest[1..]
  }

  /** No piece of a split holds the separator. */
  lemma {:induction false} SplitOnApart<T>(s: seq<T>, separator: T)
    ensures forall piece :: piece in SplitOn(s, separator) ==> separator !in piece
  {
    if s != [] {
      SplitOnApart(s[1..], separator);
      var rest := SplitOn(s[1..], separator);
      assert separator !in rest[0];
      forall piece | piece in SplitOn(s, separator) ensures separator !in piece {
        assert piece == [] || piece == [s[0]] + rest[0] || piece in rest;
      }
    }
  }

  /** Joining the pieces of a split gives the text back. */
  lemma {:induction false} JoinSplitOn<T>(s: seq<T>, separator: T)
    ensures Join(SplitOn(s, separator), [separator]) == s
  {
    if s != [] {
      JoinSplitOn(s[1..], separator);
      var rest, all := SplitOn(s[1..], separator), SplitOn(s, separator);
      assert s == [s[0]] + s[1..];
      assert s[0] == separator ==> all[1..] == rest;
      assert s[0] != separator ==> all[1..] == rest[1..];
    }
  }

  /** A text is split back into the pieces it was joined from, if none holds the separator. */
  lemma {:induction false} SplitOnJoin<T>(pieces: seq<seq<T>>, separator: T)
    requires |pieces| >= 1 && forall piece :: piece in pieces ==> separator !in piece
    ensures SplitOn(Join(pieces, [separator]), separator) == pieces
  {
    var s := Join(pieces, [separator]);
    if |pieces| == 1 {
      SplitOnNone(s, separator);
    } else {
      SplitOnJoin(pieces[1..], separator);
      SplitOnAfter(pieces[0], Join(pieces[1..], [separator]), separator);
      assert pieces == [pieces[0]] + pieces[1..];
    }
  }

  lemma {:induction false} SplitOnNone<T>(s: seq<T>, separator: T)
    requires separator !in s
    ensures SplitOn(s, separator) == [s]
  {
    if s != [] {
      SplitOnNone(s[1..], separator);
      assert s == [s[0]] + s[1..];
    }
  }

  lemma {:induction false} SplitOnAfter<T>(front: seq<T>, back: seq<T>, separator: T)
    requires separator !in front
    ensures SplitOn(front + [separator] + back, separator) == [front] + SplitOn(back, separator)
  {
    var s := front + [separator] + back;
    if front == [] {
      assert s[1..] == back;
    } else {
      assert s[1..] == front[1..] + [separator] + back;
      SplitOnAfter(front[1..], back, separator);
      assert front == [front[0]] + front[1..];
    }
  }

  predicate AllDropped<T(!new)>(s: seq<T>, drop: T -> bool) {
    forall i :: 0 <= i < |s| ==> drop(s[i])
  }

  predicate KeptEnds<T(!new)>(s: seq<T>, drop: T -> bool) {
    s == [] || (!drop(s[0]) && !drop(s[|s| - 1]))
  }

  /** What is trimmed off is all to be dropped, and what is left begins and ends with something that is not. */
  lemma {:induction false} TrimParts<T(!new)>(s: seq<T>, drop: T -> bool) returns (front: seq<T>, back: seq<T>)
    ensures s == front + Trim(s, drop) + back
    ensures AllDropped(front, drop) && AllDropped(back, drop) && KeptEnds(Trim(s, drop), drop)
    decreases |s|
  {
    if |s| > 0 && drop(s[0]) {
      front, back := TrimParts(s[1..], drop);
      assert s == [s[0]] + s[1..];
      front := [s[0]] + front;
    } else if |s| > 0 && drop(s[|s| - 1]) {
      front, back := TrimParts(s[..|s| - 1], drop);
      assert s == s[..|s| - 1] + [s[|s| - 1]];
      back := back + [s[|s| - 1]];
    } else {
      front, back := [], [];
    }
  }

  /** Whatever parts a sequence falls into in this way, the middle one is what trimming leaves. */
  lemma {:induction false} TrimUnique<T(!new)>(front: seq<T>, middle: seq<T>, back: seq<T>, drop: T -> bool)
    requires AllDropped(front, drop) && AllDropped(back, drop) && KeptEnds(middle, drop)
    ensures Trim(front + middle + back, drop) == middle
    decreases |front| + |back|
  {
    var s := front + middle + back;
    if front != [] {
      assert s[0] == front[0] && s[1..] == front[1..] + middle + back;
      TrimUnique(front[1..], middle, back, drop);
    } else if back != [] {
      var n := |back| - 1;
      assert s[|s| - 1] == back[n] && s[..|s| - 1] == front + middle + back[..n];
      if middle == [] {
        assert s == back && s[1..] == [] + middle + back[1..];
        TrimUnique([], middle, back[1..], drop);
      } else {
        assert s[0] == middle[0];
        TrimUnique(front, middle, back[..n], drop);
      }
    } else {
      assert s == middle;
    }
  }
}
