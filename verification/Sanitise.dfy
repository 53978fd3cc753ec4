/**
 Text sanitising in the Action: secrets are cut out of what is printed, messages become one
 line, and workflow commands are escaped. The proofs hold for strings over any characters.
 */
module Sanitise {
  import opened Sequences

  const REDACTED := "[REDACTED]"
  const MIN_SECRET := 4

  /** Where `separator` first occurs in `text`; nothing when it does not. */
  function Find(text: string, separator: string): (i: Option<nat>)
    requires separator != ""
    ensures i.Some? ==> i.value + |separator| <= |text|
  {
    if |text| < |separator| then None
    else if text[..|separator|] == separator then Some(0)
    else match Find(text[1..], separator) case None => None case Some(i) => Some(i + 1)
  }

  lemma {:induction false} FindExact(text: string, separator: string)
    requires separator != ""
    ensures Find(text, separator).Some? <==> Contains(text, separator)
    ensures Find(text, separator).Some? ==> OccursAt(text, separator, Find(text, separator).value)
    ensures Find(text, separator).Some? ==>
      forall j :: 0 <= j < Find(text, separator).value ==> !OccursAt(text, separator, j)
  {
    if |text| < |separator| {
    } else if text[..|separator|] == separator {
      ContainsAt(text, separator, 0);
    } else {
      var rest := text[1..];
      FindExact(rest, separator);
      assert !OccursAt(text, separator, 0);
      OccurrencesLater(text, separator);
      hide OccursAt;
      if Contains(rest, separator) {
        var j :| 0 <= j <= |rest| - |separator| && OccursAt(rest, separator, j);
        assert OccursAt(text, separator, j + 1);
      }
      if Contains(text, separator) {
        var j :| 0 <= j <= |text| - |separator| && OccursAt(text, separator, j);
        assert OccursAt(rest, separator, j - 1);
      }
    }
  }

  /** Without its first character, a text has the same later occurrences, one place earlier. */
  lemma OccurrencesLater(text: string, part: string)
    requires text != ""
    ensures forall j {:trigger OccursAt(text, part, j)} :: 0 < j ==> (OccursAt(text, part, j) <==> OccursAt(text[1..], part, j - 1))
    ensures forall j {:trigger OccursAt(text[1..], part, j)} :: 0 <= j ==> (OccursAt(text[1..], part, j) <==> OccursAt(text, part, j + 1))
  {
    forall j | 0 < j ensures OccursAt(text, part, j) <==> OccursAt(text[1..], part, j - 1) {
      if j + |part| <= |text| {
        assert text[1..][j - 1..j - 1 + |part|] == text[j..j + |part|];
      }
    }
  }

  /** `text.split(separator)`: leftmost occurrences that do not overlap. */
  function Split(text: string, separator: string): (pieces: seq<string>)
    requires separator != ""
    ensures |pieces| >= 1
    decreases |text|
  {
    match Find(text, separator)
    case None => [text]
    case Some(i) => [text[..i]] + Split(text[i + |separator|..], separator)
  }

  /** Joining the pieces with the separator gives the text back. */
  lemma {:induction false} JoinSplit(text: string, separator: string)
    requires separator != ""
    ensures Join(Split(text, separator), separator) == text
    decreases |text|
  {
    match Find(text, separator)
    case None =>
    case Some(i) =>
      FindExact(text, separator);
      AroundOccurrence(text, separator, i);
      var rest := Split(text[i + |separator|..], separator);
      JoinSplit(text[i + |separator|..], separator);
      hide Contains, OccursAt, Find;
      assert ([text[..i]] + rest)[1..] == rest;
  }

  /** What precedes the first occurrence holds no occurrence. */
  lemma NoneBeforeFirst(text: string, separator: string)
    requires separator != "" && Find(text, separator).Some?
    ensures !Contains(text[..Find(text, separator).value], separator)
  {
    FindExact(text, separator);
    var i := Find(text, separator).value;
    forall j | 0 <= j <= i - |separator| ensures !OccursAt(text[..i], separator, j) {
      assert text[..i][j..j + |separator|] == text[j..j + |separator|];
      assert !OccursAt(text, separator, j);
    }
  }

  /** Every piece is a part of the text, and no piece holds the separator. */
  lemma {:induction false} SplitPieces(text: string, separator: string, piece: string)
    requires separator != "" && piece in Split(text, separator)
    ensures Contains(text, piece) && !Contains(piece, separator)
    decreases |text|
  {
    match Find(text, separator)
    case None =>
      FindExact(text, separator);
      ContainsAt(text, text, 0);
    case Some(i) =>
      var tail := text[i + |separator|..];
      if piece == text[..i] {
        NoneBeforeFirst(text, separator);
        ContainsAt(text, piece, 0);
      } else {
        SplitPieces(tail, separator, piece);
        ContainsAt(text, tail, i + |separator|);
        ContainsTransitive(text, tail, piece);
      }
  }

  /** `a` lies neither inside nor around the glue, and no end of one is an end of the other it could overlap. */
  predicate Apart(a: string, glue: string) {
    && a != "" && !Contains(glue, a) && !Contains(a, glue)
    && (forall n :: 0 < n <= |a| && n <= |glue| ==> a[|a| - n..] != glue[..n])
    && (forall n :: 0 < n <= |a| && n <= |glue| ==> a[..n] != glue[|glue| - n..])
  }

  /** Where a part that reaches into the glue would overlap it. */
  lemma Overlapping(left: string, glue: string, right: string, part: string, i: nat)
    requires glue != "" && OccursAt(left + glue + right, part, i)
    requires i < |left| + |glue| && i + |part| > |left|
    ensures !Apart(part, glue)
  {
    var l, g, n := |left|, |glue|, |part|;
    MeetsMiddle(left, glue, right, part, i);
    if l <= i && i + n <= l + g {
      ContainsAt(glue, part, i - l);
    } else if i <= l && l + g <= i + n {
      ContainsAt(part, glue, l - i);
    } else if i < l {
      ReachesMiddle(left, glue, right, part, i);
      var m := i + n - l;
      assert part[n - m..] == glue[..m];
    } else {
      LeavesMiddle(left, glue, right, part, i);
      var m := l + g - i;
      assert part[..m] == glue[g - m..];
    }
  }

  /** Around a glue that the part cannot touch, the part lies wholly to the left or wholly to the right. */
  lemma ApartSides(left: string, glue: string, right: string, part: string, i: nat)
    requires Apart(part, glue) && glue != "" && OccursAt(left + glue + right, part, i)
    ensures i + |part| <= |left| || i >= |left| + |glue|
  {
    if i < |left| + |glue| && i + |part| > |left| {
      Overlapping(left, glue, right, part, i);
    }
  }

  /** A part kept apart from the glue occurs in a joined text only if it occurs in a piece. */
  lemma {:induction false} JoinCreatesNothing(pieces: seq<string>, glue: string, part: string)
    requires Apart(part, glue) && glue != ""
    requires forall k :: 0 <= k < |pieces| ==> !Contains(pieces[k], part)
    ensures !Contains(Join(pieces, glue), part)
  {
    if |pieces| > 1 {
      var left, right := pieces[0], Join(pieces[1..], glue);
      JoinCreatesNothing(pieces[1..], glue, part);
      forall i | 0 <= i <= |left + glue + right| - |part| ensures !OccursAt(left + glue + right, part, i) {
        if OccursAt(left + glue + right, part, i) {
          OneSide(left, glue, right, part, i);
        }
      }
    }
  }

  lemma OneSide(left: string, glue: string, right: string, part: string, i: nat)
    requires Apart(part, glue) && glue != "" && OccursAt(left + glue + right, part, i)
    ensures Contains(left, part) || Contains(right, part)
  {
    ApartSides(left, glue, right, part, i);
    MissesMiddle(left, glue, right, part, i);
    if i + |part| <= |left| {
      ContainsAt(left, part, i);
    } else {
      ContainsAt(right, part, i - |left| - |glue|);
    }
  }

  /** One pass of redaction: `output.split(secret).join("[REDACTED]")`. */
  function Pass(text: string, secret: string): string
    requires secret != ""
  {
    Join(Split(text, secret), REDACTED)
  }

  /** A pass over a text without the secret leaves it alone. */
  lemma PassIdle(text: string, secret: string)
    requires secret != "" && !Contains(text, secret)
    ensures Pass(text, secret) == text
  {
    FindExact(text, secret);
  }

  /** A pass removes its own secret, and brings back none that was absent. */
  lemma PassCleans(text: string, secret: string, other: string)
    requires secret != "" && Apart(other, REDACTED)
    requires other == secret || !Contains(text, other)
    ensures !Contains(Pass(text, secret), other)
  {
    forall piece | piece in Split(text, secret) ensures !Contains(piece, other) {
      SplitPieces(text, secret, piece);
      if other != secret && Contains(piece, other) {
        ContainsTransitive(text, piece, other);
      }
    }
    JoinCreatesNothing(Split(text, secret), REDACTED, other);
  }

  /** A pass that finds its secret leaves the replacement in the text. */
  lemma PassMarks(text: string, secret: string)
    requires secret != "" && Contains(text, secret)
    ensures Contains(Pass(text, secret), REDACTED)
  {
    FindExact(text, secret);
    var i := Find(text, secret).value;
    var rest := Split(text[i + |secret|..], secret);
    assert ([text[..i]] + rest)[1..] == rest;
    assert Pass(text, secret) == text[..i] + REDACTED + Join(rest, REDACTED);
    ContainsAt(Pass(text, secret), REDACTED, i);
  }

  type Secret = s: string | s != "" witness "token"

  /** The secrets worth hiding: those that are set and have at least four characters. */
  function Secrets(sources: seq<Option<string>>): (secrets: seq<Secret>)
    ensures forall s: Secret :: s in secrets <==> Some(s) in sources && |s| >= 4
  {
    if sources == [] then []
    else (if sources[0].Some? && |sources[0].value| >= MIN_SECRET then [sources[0].value] else []) + Secrets(sources[1..])
  }

  /** All passes, in the order of the list. */
  function RedactAll(text: string, secrets: seq<Secret>): string
    decreases |secrets|
  {
    if secrets == [] then text
    else
      var n := |secrets| - 1;
      Pass(RedactAll(text, secrets[..n]), secrets[n])
  }

  /** `redact`. */
  method Redact(value: string, sources: seq<Option<string>>) returns (output: string)
    ensures output == RedactAll(value, Secrets(sources))
  {
    var secrets := Secrets(sources);
    output := value;
    for i := 0 to |secrets|
      invariant output == RedactAll(value, secrets[..i])
    {
      assert secrets[..i + 1][..i] == secrets[..i];
      assert secrets[i] in secrets;
      output := Pass(output, secrets[i]);
    }
    assert secrets[..|secrets|] == secrets;
  }

  predicate Free(text: string, secrets: seq<Secret>) {
    forall s :: s in secrets ==> !Contains(text, s)
  }

  predicate AllApart(secrets: seq<Secret>) {
    forall s :: s in secrets ==> Apart(s, REDACTED)
  }

  /** Once all passes are done no secret is left, whatever the text and the order of the secrets. */
  lemma {:induction false} RedactLeavesNoSecret(text: string, secrets: seq<Secret>)
    requires AllApart(secrets)
    ensures Free(RedactAll(text, secrets), secrets)
    decreases |secrets|
  {
    if secrets != [] {
      var n := |secrets| - 1;
      var before := RedactAll(text, secrets[..n]);
      RedactLeavesNoSecret(text, secrets[..n]);
      forall s | s in secrets ensures !Contains(RedactAll(text, secrets), s) {
        assert s == secrets[n] || s in secrets[..n];
        PassCleans(before, secrets[n], s);
      }
    }
  }

  lemma {:induction false} RedactIdle(text: string, secrets: seq<Secret>)
    requires Free(text, secrets)
    ensures RedactAll(text, secrets) == text
    decreases |secrets|
  {
    if secrets != [] {
      RedactIdle(text, secrets[..|secrets| - 1]);
      PassIdle(text, secrets[|secrets| - 1]);
    }
  }

  /** Redaction is idempotent, and alters exactly the texts that hold a secret. */
  lemma RedactIdempotent(text: string, secrets: seq<Secret>)
    requires AllApart(secrets)
    ensures RedactAll(RedactAll(text, secrets), secrets) == RedactAll(text, secrets)
    ensures RedactAll(text, secrets) == text <==> Free(text, secrets)
  {
    RedactLeavesNoSecret(text, secrets);
    RedactIdle(RedactAll(text, secrets), secrets);
    if Free(text, secrets) {
      RedactIdle(text, secrets);
    }
  }

  predicate BracketFree(s: string) {
    '[' !in s && ']' !in s
  }

  lemma ReplacementIsBracketed()
    ensures |REDACTED| == 10 && REDACTED[0] == '[' && REDACTED[9] == ']' && REDACTED[1..9] == "REDACTED"
  {}

  /** A bracket-free part of the replacement is a part of its word. */
  lemma InsideTheWord(s: string, i: nat)
    requires s != "" && BracketFree(s) && OccursAt(REDACTED, s, i)
    ensures OccursAt("REDACTED", s, i - 1)
  {
    hide REDACTED, OccursAt;
    ReplacementIsBracketed();
    OccurrenceAt(REDACTED, s, i);
    var last := |s| - 1;
    assert s[0] == REDACTED[i..i + |s|][0] == REDACTED[i];
    assert s[last] == REDACTED[i..i + |s|][last] == REDACTED[i + last];
    OccursInSlice(REDACTED, s, 1, 9, i - 1);
  }

  lemma AroundTheReplacement(s: string)
    requires Contains(s, REDACTED)
    ensures !BracketFree(s)
  {
    var i :| 0 <= i <= |s| - |REDACTED| && OccursAt(s, REDACTED, i);
    assert s[i] == s[i..i + |REDACTED|][0] == '[';
  }

  lemma WordInside()
    ensures Contains(REDACTED, "REDACTED")
  {
    assert REDACTED[1..9] == "REDACTED";
    ContainsAt(REDACTED, "REDACTED", 1);
  }

  /** Without brackets, a secret touches the replacement only from inside its word. */
  lemma ApartExactly(s: string)
    requires s != "" && BracketFree(s)
    ensures Apart(s, REDACTED) <==> !Contains("REDACTED", s)
    ensures Contains("REDACTED", s) <==> Contains(REDACTED, s)
  {
    if Contains(REDACTED, s) {
      var i :| 0 <= i <= |REDACTED| - |s| && OccursAt(REDACTED, s, i);
      InsideTheWord(s, i);
      ContainsAt("REDACTED", s, i - 1);
    }
    if Contains("REDACTED", s) {
      WordInside();
      ContainsTransitive(REDACTED, "REDACTED", s);
    }
    if Contains(s, REDACTED) {
      AroundTheReplacement(s);
    }
    forall n | 0 < n <= |s| && n <= |REDACTED| ensures s[|s| - n..] != REDACTED[..n] {
      assert s[|s| - n..][0] == s[|s| - n] && REDACTED[..n][0] == '[';
    }
    forall n | 0 < n <= |s| && n <= |REDACTED| ensures s[..n] != REDACTED[|REDACTED| - n..] {
      assert s[..n][n - 1] == s[n - 1] && REDACTED[|REDACTED| - n..][n - 1] == ']';
    }
  }

  /** A secret inside the replacement can never be got rid of. */
  lemma {:induction false} RedactKeeps(text: string, secrets: seq<Secret>, s: string)
    requires Contains(REDACTED, s) && Contains(text, s)
    ensures Contains(RedactAll(text, secrets), s)
    decreases |secrets|
  {
    if secrets != [] {
      var n := |secrets| - 1;
      var before := RedactAll(text, secrets[..n]);
      RedactKeeps(text, secrets[..n], s);
      if Contains(before, secrets[n]) {
        PassMarks(before, secrets[n]);
        ContainsTransitive(RedactAll(text, secrets), REDACTED, s);
      } else {
        PassIdle(before, secrets[n]);
      }
    }
  }

  /** Bracket-free secrets are hidden in every text exactly when none of them lies inside `REDACTED`. */
  lemma RedactsExactly(secrets: seq<Secret>)
    requires forall s :: s in secrets ==> BracketFree(s)
    ensures (forall text :: Free(RedactAll(text, secrets), secrets)) <==> (forall s :: s in secrets ==> !Contains("REDACTED", s))
  {
    forall s | s in secrets ensures Apart(s, REDACTED) <==> !Contains("REDACTED", s)
      ensures Contains("REDACTED", s) <==> Contains(REDACTED, s)
    {
      ApartExactly(s);
    }
    if AllApart(secrets) {
      forall text ensures Free(RedactAll(text, secrets), secrets) {
        RedactLeavesNoSecret(text, secrets);
      }
    } else {
      var s :| s in secrets && !Apart(s, REDACTED);
      ContainsAt(s, s, 0);
      RedactKeeps(s, secrets, s);
      assert Contains("REDACTED", s);
      var text: string := s;
      assert !Free(RedactAll(text, secrets), secrets);
    }
  }

  /** A secret that begins as the replacement ends reappears where the rest of it follows an occurrence. */
  lemma BracketedSecretReturns(rest: string, n: nat)
    requires 0 < n < |REDACTED| && rest != ""
    ensures var secret := REDACTED[n..] + rest;
      Contains(Pass(secret + rest, secret), secret)
  {
    var secret := REDACTED[n..] + rest;
    var text := secret + rest;
    assert text[..|secret|] == secret && text[|secret|..] == rest;
    assert Find(text, secret) == Some(0);
    assert Find(rest, secret) == None;
    var pieces := [text[..0], rest];
    assert Split(text, secret) == pieces;
    assert pieces[1..] == [rest];
    assert Join([rest], REDACTED) == rest;
    assert REDACTED == REDACTED[..n] + REDACTED[n..];
    assert Join(pieces, REDACTED) == text[..0] + REDACTED + rest == REDACTED[..n] + secret;
    ContainsAt(Pass(text, secret), secret, n);
  }

  /** Some proper end of the replacement begins the secret. */
  predicate BeginsAsItEnds(s: string) {
    exists n :: 0 < n < |REDACTED| && |REDACTED| - n <= |s| && REDACTED[n..] == s[..|REDACTED| - n]
  }

  /** The secret ends as the replacement begins, after `front`, and nothing of it is found in `front + s` before its own place. */
  predicate EndsAsItBegins(s: string, front: string) {
    |front| < |s| < |front| + |REDACTED| && s == front + REDACTED[..|s| - |front|] && Find(front + s, s) == Some(|front|)
  }

  /** Redaction of the secret alone can leave it in some text. */
  predicate CanReturn(s: string)
    requires s != ""
  {
    || Contains(REDACTED, s) || Contains(s, REDACTED) || BeginsAsItEnds(s)
    || exists m :: 0 <= m < |s| && EndsAsItBegins(s, s[..m])
  }

  /** Where an occurrence around one replacement can lie, if neither side holds one. */
  lemma OccurrenceAround(left: string, right: string, s: string, i: nat)
    requires s != "" && OccursAt(left + REDACTED + right, s, i) && !Contains(left, s) && !Contains(right, s)
    ensures Contains(REDACTED, s) || Contains(s, REDACTED) || BeginsAsItEnds(s)
      || (i < |left| < i + |s| < |left| + |REDACTED| && s == left[i..] + REDACTED[..i + |s| - |left|])
  {
    var l, g, n := |left|, |REDACTED|, |s|;
    MissesMiddle(left, REDACTED, right, s, i);
    MeetsMiddle(left, REDACTED, right, s, i);
    hide Contains, OccursAt;
    if i + n <= l {
      ContainsAt(left, s, i);
    } else if i >= l + g {
      ContainsAt(right, s, i - l - g);
    } else if l <= i && i + n <= l + g {
      ContainsAt(REDACTED, s, i - l);
    } else if i <= l && l + g <= i + n {
      ContainsAt(s, REDACTED, l - i);
    } else if i < l {
      ReachesMiddle(left, REDACTED, right, s, i);
    } else {
      LeavesMiddle(left, REDACTED, right, s, i);
      assert REDACTED[i - l..] == s[..|REDACTED| - (i - l)];
    }
  }

  /** An occurrence with none before it is the one that is found. */
  lemma FoundFirst(text: string, s: string, p: nat)
    requires s != "" && OccursAt(text, s, p) && forall j :: 0 <= j < p ==> !OccursAt(text, s, j)
    ensures Find(text, s) == Some(p)
  {
    ContainsAt(text, s, p);
    FindExact(text, s);
    hide Find;
    var q := Find(text, s).value;
    assert !(q < p) && !(p < q);
  }

  /** What is found first in a text is found first in what the text ends with, from any point before it on. */
  lemma FirstFromLater(text: string, s: string, m: nat, p: nat)
    requires s != "" && m <= p && p + |s| <= |text| && OccursAt(text, s, p)
    requires forall j :: 0 <= j < p ==> !OccursAt(text, s, j)
    ensures Find(text[m..p + |s|], s) == Some(p - m)
  {
    hide OccursAt, Contains;
    var part := text[m..p + |s|];
    OccursInSlice(text, s, m, p + |s|, p - m);
    forall j | 0 <= j < p - m ensures !OccursAt(part, s, j) {
      OccursInSlice(text, s, m, p + |s|, j);
    }
    FoundFirst(part, s, p - m);
  }

  /** Where a secret reaches from what precedes it into the replacement, it meets the condition. */
  lemma ReachesIn(text: string, s: string, p: nat, i: nat)
    requires s != "" && Find(text, s) == Some(p) && i < p
    requires p < i + |s| < p + |REDACTED| && s == text[i..p] + REDACTED[..i + |s| - p]
    ensures CanReturn(s)
  {
    hide Find, Contains, OccursAt, BeginsAsItEnds;
    var front, m := text[i..p], p - i;
    FrontOf(front, REDACTED[..i + |s| - p]);
    FindExact(text, s);
    FirstFromLater(text, s, i, p);
    TwoSlices(text, i, p, p + |s|);
    OccurrenceAt(text, s, p);
    assert EndsAsItBegins(s, s[..m]);
  }

  lemma FrontOf(front: string, back: string)
    ensures (front + back)[..|front|] == front
  {}


  lemma TwoSlices(text: string, i: nat, p: nat, e: nat)
    requires i <= p <= e <= |text|
    ensures text[i..e] == text[i..p] + text[p..e]
  {}

  /** Around the first replacement there is no occurrence of a secret that cannot return. */
  lemma NotAround(text: string, s: string, p: nat, right: string, i: nat)
    requires s != "" && !CanReturn(s) && Find(text, s) == Some(p) && !Contains(text[..p], s) && !Contains(right, s)
    ensures !OccursAt(text[..p] + REDACTED + right, s, i)
  {
    var left := text[..p];
    if OccursAt(left + REDACTED + right, s, i) {
      hide OccursAt, Contains, Find, BeginsAsItEnds;
      OccurrenceAround(left, right, s, i);
      assert left[i..] == text[i..p];
      ReachesIn(text, s, p, i);
    }
  }

  /** A secret that cannot return never does. */
  lemma {:induction false} NeverReturns(text: string, s: string)
    requires s != "" && !CanReturn(s)
    ensures !Contains(Pass(text, s), s)
    decreases |text|
  {
    FindExact(text, s);
    match Find(text, s)
    case None =>
    case Some(p) =>
      var tail := text[p + |s|..];
      NeverReturns(tail, s);
      NoneBeforeFirst(text, s);
      PassSplits(text, s);
      hide CanReturn, Find, Pass, OccursAt;
      forall i | 0 <= i <= |Pass(text, s)| - |s| ensures !OccursAt(Pass(text, s), s, i) {
        NotAround(text, s, p, Pass(tail, s), i);
      }
  }

  /** A pass over a text with the secret: what precedes its first occurrence, the replacement, and the pass over what follows. */
  lemma PassSplits(text: string, s: string)
    requires s != "" && Find(text, s).Some?
    ensures var p := Find(text, s).value;
      Pass(text, s) == text[..p] + REDACTED + Pass(text[p + |s|..], s)
  {
    var p := Find(text, s).value;
    var rest := Split(text[p + |s|..], s);
    assert ([text[..p]] + rest)[1..] == rest;
  }

  /** A secret that lies inside the replacement, or in which the replacement lies, returns. */
  lemma InsideReturns(s: string)
    requires s != "" && Contains(REDACTED, s)
    ensures Contains(Pass(s, s), s)
  {
    ContainsAt(s, s, 0);
    PassMarks(s, s);
    ContainsTransitive(Pass(s, s), REDACTED, s);
  }

  /** An occurrence of a secret carries the replacements in it along. */
  lemma CarriesReplacement(text: string, s: string, j: nat, x: nat)
    requires OccursAt(text, s, j) && OccursAt(s, REDACTED, x)
    ensures OccursAt(text, REDACTED, j + x)
  {
    OccursInSlice(text, REDACTED, j, j + |s|, x);
  }

  /** Everything before the first replacement in a secret, put before the secret, holds no other occurrence of it. */
  lemma AroundFound(s: string, text: string, x: nat)
    requires s != "" && Find(s, REDACTED) == Some(x) && OccursAt(text, s, x)
    ensures Find(text, s) == Some(x)
  {
    FindExact(s, REDACTED);
    hide Find, Contains;
    forall j | 0 <= j < x ensures !OccursAt(text, s, j) {
      assert !OccursAt(s, REDACTED, j);
      OccursInSlice(text, REDACTED, x, x + |s|, j);
      if OccursAt(text, s, j) {
        CarriesReplacement(text, s, j, x);
      }
    }
    FoundFirst(text, s, x);
  }

  lemma AroundReturns(s: string)
    requires s != "" && Contains(s, REDACTED)
    ensures exists text :: Contains(Pass(text, s), s)
  {
    FindExact(s, REDACTED);
    var x := Find(s, REDACTED).value;
    var front, back := s[..x], s[x + |REDACTED|..];
    AroundOccurrence(s, REDACTED, x);
    ThreeParts(front, s, back);
    hide Find, Pass, Contains, OccursAt;
    var text := front + s + back;
    AroundFound(s, text, x);
    PassSplits(text, s);
    ShortIdle(back, s);
    ContainsAt(s, s, 0);
    assert Contains(Pass(text, s), s);
  }

  lemma ShortIdle(text: string, s: string)
    requires |text| < |s|
    ensures Pass(text, s) == text
  {
    PassIdle(text, s);
  }

  lemma BeginningReturns(s: string)
    requires s != "" && BeginsAsItEnds(s)
    ensures exists text :: Contains(Pass(text, s), s)
  {
    var n :| 0 < n < |REDACTED| && |REDACTED| - n <= |s| && REDACTED[n..] == s[..|REDACTED| - n];
    var rest := s[|REDACTED| - n..];
    assert s == REDACTED[n..] + rest;
    hide Pass, Contains, Find;
    if rest == "" {
      assert REDACTED[n..n + |s|] == s;
      ContainsAt(REDACTED, s, n);
      InsideReturns(s);
    } else {
      BracketedSecretReturns(rest, n);
      assert Contains(Pass(s + rest, s), s);
    }
  }

  lemma EndingReturns(s: string, front: string)
    requires s != "" && EndsAsItBegins(s, front)
    ensures Contains(Pass(front + s, s), s)
  {
    var text, m := front + s, |s| - |front|;
    PassSplits(text, s);
    assert text[..|front|] == front && text[|front| + |s|..] == "";
    ShortIdle("", s);
    assert Pass(text, s) == front + REDACTED;
    assert (front + REDACTED)[..|s|] == s;
    ContainsAt(Pass(text, s), s, 0);
  }

  /** The pass for a secret leaves it out of every text exactly when the secret cannot return. */
  lemma PassExactly(s: string)
    requires s != ""
    ensures (forall text :: !Contains(Pass(text, s), s)) <==> !CanReturn(s)
  {
    if CanReturn(s) {
      if Contains(REDACTED, s) {
        InsideReturns(s);
      } else if Contains(s, REDACTED) {
        AroundReturns(s);
      } else if BeginsAsItEnds(s) {
        BeginningReturns(s);
      } else {
        var m :| 0 <= m < |s| && EndsAsItBegins(s, s[..m]);
        EndingReturns(s, s[..m]);
      }
    } else {
      forall text ensures !Contains(Pass(text, s), s) {
        NeverReturns(text, s);
      }
    }
  }

  lemma RedactOne(text: string, secret: Secret)
    ensures RedactAll(text, [secret]) == Pass(text, secret)
    ensures Free(RedactAll(text, [secret]), [secret]) <==> !Contains(Pass(text, secret), secret)
  {
    hide Pass, Contains;
    assert [secret][..0] == [];
    assert secret in [secret];
  }

  /** The same of redaction with this one secret. */
  lemma RedactsOneExactly(secret: Secret)
    ensures (forall text :: Free(RedactAll(text, [secret]), [secret])) <==> !CanReturn(secret)
  {
    PassExactly(secret);
    hide CanReturn, Pass, Contains, RedactAll, Free;
    if CanReturn(secret) {
      var text: string :| Contains(Pass(text, secret), secret);
      RedactOne(text, secret);
    } else {
      forall text: string ensures Free(RedactAll(text, [secret]), [secret]) {
        RedactOne(text, secret);
        assert !Contains(Pass(text, secret), secret);
      }
    }
  }

  /** A secret can end as the replacement begins: `abcabc[` is redacted to a text that holds `abc[`. */
  lemma EndingExample()
    ensures CanReturn("abc[") && Pass("abcabc[", "abc[") == "abc[REDACTED]"
  {
    hide Find, Pass, Contains, BeginsAsItEnds;
    var s, text := "abc[", "abcabc[";
    assert text[3..7] == s;
    forall j | 0 <= j < 3 ensures !OccursAt(text, s, j) {
      assert text[j..j + 4][0] == text[j] && text[j..j + 4][3] == text[j + 3];
      assert text[j] != 'a' || text[j + 3] != '[';
    }
    FoundFirst(text, s, 3);
    assert s[..3] == "abc" && "abc" + s == text;
    assert EndsAsItBegins(s, s[..3]);
    PassSplits(text, s);
    assert text[..3] == "abc" && text[7..] == "";
    ShortIdle("", s);
    assert "abc" + REDACTED + "" == "abc[REDACTED]";
  }

  /** To touch the replacement is not enough: `[[[[` ends as the replacement begins, and yet never returns. */
  lemma TouchingExample()
    ensures !Apart("[[[[", REDACTED) && !CanReturn("[[[[")
  {
    var s := "[[[[";
    assert s[|s| - 1..] == REDACTED[..1];
    BracketsInside(s);
    forall m | 0 <= m < |s| ensures !EndsAsItBegins(s, s[..m]) {
      BracketsEnding(m);
    }
  }

  lemma BracketsInside(s: string)
    requires s == "[[[["
    ensures !Contains(REDACTED, s) && !Contains(s, REDACTED) && !BeginsAsItEnds(s)
  {
    forall i | 0 <= i <= |REDACTED| - |s| ensures !OccursAt(REDACTED, s, i) {
      assert REDACTED[i..i + 4][1] == REDACTED[i + 1] != '[';
    }
    forall n | 0 < n < |REDACTED| && |REDACTED| - n <= |s| ensures REDACTED[n..] != s[..|REDACTED| - n] {
      assert REDACTED[n..][0] == REDACTED[n] != '[';
    }
  }

  lemma BracketsEnding(m: nat)
    requires m < 4
    ensures !EndsAsItBegins("[[[[", "[[[["[..m])
  {
    var s := "[[[[";
    var text := s[..m] + s;
    if m == 0 {
      assert REDACTED[..4][1] == 'R';
    } else {
      assert forall k :: 0 <= k < |text| ==> text[k] == '[';
      assert text[..4] == s;
      FoundFirst(text, s, 0);
    }
  }

  /** The secrets are cut out in the order of the list: first those of the front part, then those of the rest. */
  lemma {:induction false} RedactInOrder(text: string, first: seq<Secret>, rest: seq<Secret>)
    ensures RedactAll(text, first + rest) == RedactAll(RedactAll(text, first), rest)
    ensures forall secret: Secret :: RedactAll(text, [secret]) == Pass(text, secret)
    decreases |rest|
  {
    forall secret: Secret ensures RedactAll(text, [secret]) == Pass(text, secret) {
      RedactOne(text, secret);
    }
    hide Pass;
    if rest == [] {
      assert first + rest == first;
    } else {
      var n := |rest| - 1;
      assert (first + rest)[..|first + rest| - 1] == first + rest[..n] && (first + rest)[|first + rest| - 1] == rest[n];
      RedactInOrder(text, first, rest[..n]);
    }
  }

  /** The pieces hold no secret, and with the secret between them they make up the text. */
  predicate Cut(text: string, secret: string, pieces: seq<string>) {
    |pieces| >= 1 && text == Join(pieces, secret) && forall piece :: piece in pieces ==> !Contains(piece, secret)
  }

  /** One pass keeps everything between the occurrences: the replacements stand where they stood. */
  lemma PassKeepsRest(text: string, secret: string)
    requires secret != ""
    ensures exists pieces :: Cut(text, secret, pieces) && Pass(text, secret) == Join(pieces, REDACTED)
  {
    JoinSplit(text, secret);
    var pieces := Split(text, secret);
    forall piece | piece in pieces ensures !Contains(piece, secret) {
      SplitPieces(text, secret, piece);
    }
    assert Cut(text, secret, pieces);
  }
}
