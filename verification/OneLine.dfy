/** Messages on one line: redacted, line breaks and tabs flattened, white space collapsed, trimmed. */
module OneLine {
  import opened Sequences
  import opened Unicode
  import opened Sanitise

  predicate Break(c: char) { c in "\r\n\t" }

  /** What `oneLine` does to a text that is already redacted. */
  function Flatten(s: string): string {
    Trim(Collapse(Collapse(s, Break, 1, ' '), Whitespace, 2, ' '), Whitespace)
  }

  /** `oneLine`. */
  function ToOneLine(value: string, secrets: seq<Secret>): string {
    Flatten(RedactAll(value, secrets))
  }

  /** One line: no line break or tab, and no two adjacent white space characters. */
  predicate Single(s: string) {
    && (forall i :: 0 <= i < |s| ==> !Break(s[i]))
    && (forall i :: 0 < i < |s| ==> !(Whitespace(s[i - 1]) && Whitespace(s[i])))
  }

  /** No white space at either end. */
  predicate Neat(s: string) {
    s != [] ==> !Whitespace(s[0]) && !Whitespace(s[|s| - 1])
  }

  lemma BreaksAreWhitespace(c: char)
    ensures Break(c) ==> Whitespace(c)
    ensures Whitespace(' ') && !Break(' ')
  {}

  /** The first pass leaves no line break or tab. */
  lemma {:induction false} NoBreaks(s: string)
    ensures forall i :: 0 <= i < |Collapse(s, Break, 1, ' ')| ==> !Break(Collapse(s, Break, 1, ' ')[i])
    decreases |s|
  {
    if s != [] {
      var n := RunLength(s, Break);
      NoBreaks(s[if n == 0 then 1 else n..]);
    }
  }

  /** The second pass keeps line breaks out, leaves no two white space characters together, and starts as its input did. */
  lemma {:induction false} NoDoubles(s: string)
    requires forall i :: 0 <= i < |s| ==> !Break(s[i])
    ensures Single(Collapse(s, Whitespace, 2, ' '))
    ensures s == [] <==> Collapse(s, Whitespace, 2, ' ') == []
    ensures s != [] ==> (Whitespace(Collapse(s, Whitespace, 2, ' ')[0]) <==> Whitespace(s[0]))
    decreases |s|
  {
    if s != [] {
      var n := RunLength(s, Whitespace);
      var rest := s[if n == 0 then 1 else n..];
      NoDoubles(rest);
      BreaksAreWhitespace(' ');
      assert Collapse(s, Whitespace, 2, ' ')[1..] == Collapse(rest, Whitespace, 2, ' ');
      assert n > 0 && rest != [] ==> rest[0] == s[n];
    }
  }

  /** Trimming takes a slice, from which no white space sticks out. */
  lemma {:induction false} TrimSlice(s: string)
    ensures Contains(s, Trim(s, Whitespace)) && Neat(Trim(s, Whitespace))
    decreases |s|
  {
    ContainsAt(s, s, 0);
    if s != [] && Whitespace(s[0]) {
      TrimSlice(s[1..]);
      ContainsAt(s, s[1..], 1);
      ContainsTransitive(s, s[1..], Trim(s, Whitespace));
    } else if s != [] && Whitespace(s[|s| - 1]) {
      TrimSlice(s[..|s| - 1]);
      ContainsAt(s, s[..|s| - 1], 0);
      ContainsTransitive(s, s[..|s| - 1], Trim(s, Whitespace));
    }
  }

  lemma SingleSlice(s: string, part: string)
    requires Single(s) && Contains(s, part)
    ensures Single(part)
  {}

  /** Whatever goes in, one trimmed line comes out. */
  lemma FlattenIsSingle(s: string)
    ensures Single(Flatten(s)) && Neat(Flatten(s))
  {
    var unbroken := Collapse(s, Break, 1, ' ');
    NoBreaks(s);
    NoDoubles(unbroken);
    var collapsed := Collapse(unbroken, Whitespace, 2, ' ');
    TrimSlice(collapsed);
    SingleSlice(collapsed, Flatten(s));
  }

  /** A trimmed single line stays as it is. */
  lemma FlattenIdle(s: string)
    requires Single(s) && Neat(s)
    ensures Flatten(s) == s
  {
    CollapseNone(s, Break, 1, ' ');
    CollapseSingles(s, Whitespace, ' ');
  }

  predicate StartsWith(s: string, part: string) {
    |part| <= |s| && s[..|part|] == part
  }

  /** A part without a space that begins the collapsed text began the text. */
  lemma {:induction false} CollapsePrefix(s: string, inRun: char -> bool, least: nat, part: string)
    requires least >= 1 && ' ' !in part && StartsWith(Collapse(s, inRun, least, ' '), part)
    ensures StartsWith(s, part)
    decreases |part|
  {
    if part != [] {
      var t := Collapse(s, inRun, least, ' ');
      assert t[0] == part[0];
      assert t[1..][..|part| - 1] == part[1..];
      CollapsePrefix(s[1..], inRun, least, part[1..]);
      assert part == [part[0]] + part[1..] && s[..|part|] == [s[0]] + s[1..][..|part| - 1];
    }
  }

  /** Collapsing brings about no part that holds no space. */
  lemma {:induction false} CollapseCreatesNothing(s: string, inRun: char -> bool, least: nat, part: string)
    requires least >= 1 && part != "" && ' ' !in part && Contains(Collapse(s, inRun, least, ' '), part)
    ensures Contains(s, part)
    decreases |s|
  {
    var t := Collapse(s, inRun, least, ' ');
    var i :| 0 <= i <= |t| - |part| && OccursAt(t, part, i);
    if i == 0 {
      CollapsePrefix(s, inRun, least, part);
      ContainsAt(s, part, 0);
    } else {
      var n := RunLength(s, inRun);
      var cut := if n >= least then n else 1;
      var rest, tail := s[cut..], t[1..];
      assert tail == Collapse(rest, inRun, least, ' ');
      assert tail[i - 1..i - 1 + |part|] == t[i..i + |part|] == part;
      ContainsAt(tail, part, i - 1);
      CollapseCreatesNothing(rest, inRun, least, part);
      assert s[cut..cut + |rest|] == rest;
      ContainsAt(s, rest, cut);
      ContainsTransitive(s, rest, part);
    }
  }

  /** Flattening can only bring about a secret that is itself a single line with a space in it. */
  predicate Reassembled(secret: string) {
    ' ' in secret && Single(secret)
  }

  lemma FlattenCreatesNothing(s: string, secret: string)
    requires secret != "" && !Reassembled(secret) && Contains(Flatten(s), secret)
    ensures Contains(s, secret)
  {
    FlattenIsSingle(s);
    SingleSlice(Flatten(s), secret);
    var unbroken := Collapse(s, Break, 1, ' ');
    TrimSlice(Collapse(unbroken, Whitespace, 2, ' '));
    ContainsTransitive(Collapse(unbroken, Whitespace, 2, ' '), Flatten(s), secret);
    CollapseCreatesNothing(unbroken, Whitespace, 2, secret);
    CollapseCreatesNothing(s, Break, 1, secret);
  }

  /** What is printed is one line without secrets, and printing it again changes nothing. */
  lemma OneLineIsSafe(value: string, secrets: seq<Secret>)
    requires AllApart(secrets) && forall s :: s in secrets ==> !Reassembled(s)
    ensures var line := ToOneLine(value, secrets);
      Single(line) && Neat(line) && Free(line, secrets) && ToOneLine(line, secrets) == line
  {
    var line := ToOneLine(value, secrets);
    RedactLeavesNoSecret(value, secrets);
    FlattenIsSingle(RedactAll(value, secrets));
    forall s | s in secrets ensures !Contains(line, s) {
      if Contains(line, s) {
        FlattenCreatesNothing(RedactAll(value, secrets), s);
      }
    }
    RedactIdle(line, secrets);
    FlattenIdle(line);
  }

  lemma {:induction false} CollapseOneBreak(front: string, back: string)
    requires forall i :: 0 <= i < |front| ==> !Break(front[i])
    requires forall i :: 0 <= i < |back| ==> !Break(back[i])
    ensures Collapse(front + "\n" + back, Break, 1, ' ') == front + " " + back
  {
    var s := front + "\n" + back;
    if front == [] {
      assert s[1..] == back;
      CollapseNone(back, Break, 1, ' ');
    } else {
      assert s[1..] == front[1..] + "\n" + back;
      CollapseOneBreak(front[1..], back);
    }
  }

  /** A secret with one of its spaces broken into a line feed. */
  function Broken(secret: string, k: nat): string
    requires k < |secret|
  {
    "[" + secret[..k] + "\n" + secret[k + 1..] + "]"
  }

  /** Redaction overlooks the broken secret. */
  lemma BrokenUnseen(secret: Secret, k: nat)
    requires k < |secret| && secret[k] == ' ' && BracketFree(secret)
    ensures RedactAll(Broken(secret, k), [secret]) == Broken(secret, k)
  {
    var text := Broken(secret, k);
    var last := |secret| - 1;
    forall i | 0 <= i <= |text| - |secret| ensures !OccursAt(text, secret, i) {
      assert text[i] != secret[0] || text[i + last] != secret[last] || text[i + k] != secret[k];
      var part := text[i..i + |secret|];
      assert part[0] == text[i] && part[last] == text[i + last] && part[k] == text[i + k];
    }
    RedactIdle(text, [secret]);
  }

  /** Flattening mends it. */
  lemma BrokenMended(secret: string, k: nat)
    requires k < |secret| && secret[k] == ' ' && Single(secret)
    ensures Flatten(Broken(secret, k)) == "[" + secret + "]"
  {
    var front, back := "[" + secret[..k], secret[k + 1..] + "]";
    assert Broken(secret, k) == front + "\n" + back;
    CollapseOneBreak(front, back);
    var line := "[" + secret + "]";
    assert secret == secret[..k] + " " + secret[k + 1..];
    assert front + " " + back == line;
    FlattenIdle(line);
    CollapseSingles(line, Whitespace, ' ');
  }

  /** A bracket-free secret reaches a printed line exactly when it lies inside `REDACTED` or flattening can mend it. */
  lemma OneLineLeaksExactly(secret: Secret)
    requires BracketFree(secret)
    ensures (exists value :: Contains(ToOneLine(value, [secret]), secret)) <==> Contains("REDACTED", secret) || Reassembled(secret)
  {
    ApartExactly(secret);
    if Contains("REDACTED", secret) {
      Unhideable(secret);
    } else if Reassembled(secret) {
      var k :| 0 <= k < |secret| && secret[k] == ' ';
      BrokenUnseen(secret, k);
      BrokenMended(secret, k);
      ContainsAt("[" + secret + "]", secret, 1);
      assert Contains(ToOneLine(Broken(secret, k), [secret]), secret);
    } else {
      forall value ensures !Contains(ToOneLine(value, [secret]), secret) {
        OneLineIsSafe(value, [secret]);
      }
    }
  }

  /** A pass over the secret itself leaves the replacement alone. */
  lemma PassOverItself(secret: Secret)
    ensures RedactAll(secret, [secret]) == REDACTED
  {
    var tail: string := secret[|secret|..];
    assert secret[..|secret|] == secret;
    assert Split(secret, secret) == [secret[..0], tail];
    assert [secret[..0], tail][1..] == [tail];
    assert Join([tail], REDACTED) == tail;
    assert [secret][..0] == [];
  }

  lemma Unhideable(secret: Secret)
    requires Contains("REDACTED", secret)
    ensures Contains(ToOneLine(secret, [secret]), secret)
  {
    hide Whitespace, Break, Collapse, Trim, Contains, RedactAll, Flatten;
    PassOverItself(secret);
    ReplacementIsPlain();
    WordInside();
    ContainsTransitive(REDACTED, "REDACTED", secret);
  }

  lemma ReplacementIsPlain()
    ensures Flatten(REDACTED) == REDACTED
  {
    hide Flatten, Collapse, Trim;
    assert forall i :: 0 <= i < |REDACTED| ==> REDACTED[i] as int > 0x20 && REDACTED[i] as int < 0x7F;
    FlattenIdle(REDACTED);
  }

  /** The words of a text: what stands between its white space. */
  function Words(s: string): (words: seq<string>)
    ensures s != "" && !Whitespace(s[0]) ==> words != []
    decreases |s|
  {
    if s == "" then []
    else if Whitespace(s[0]) then Words(s[1..])
    else if |s| == 1 || Whitespace(s[1]) then [[s[0]]] + Words(s[1..])
    else
      var rest := Words(s[1..]);
      [[s[0]] + rest[0]] + rest[1..]
  }

  /** Texts that begin alike, and whose rests have the same words, have the same words. */
  lemma WordsCons(c: char, s: string, t: string)
    requires Words(s) == Words(t)
    requires s == "" || Whitespace(s[0]) <==> t == "" || Whitespace(t[0])
    ensures Words([c] + s) == Words([c] + t)
  {
    assert ([c] + s)[1..] == s && ([c] + t)[1..] == t;
    assert s != "" ==> ([c] + s)[1] == s[0];
    assert t != "" ==> ([c] + t)[1] == t[0];
  }

  lemma {:induction false} WordsAfterRun(s: string, n: nat)
    requires n <= |s| && forall i :: 0 <= i < n ==> Whitespace(s[i])
    ensures Words(s) == Words(s[n..])
  {
    if n > 0 {
      WordsAfterRun(s[1..], n - 1);
      assert s[1..][n - 1..] == s[n..];
    } else {
      assert s[0..] == s;
    }
  }

  /** Collapsing white space leaves the words alone. */
  lemma {:induction false} CollapseKeepsWords(s: string, inRun: char -> bool, least: nat)
    requires least >= 1 && forall c :: inRun(c) ==> Whitespace(c)
    ensures var t := Collapse(s, inRun, least, ' ');
      Words(t) == Words(s) && (s == "" || Whitespace(s[0]) <==> t == "" || Whitespace(t[0]))
    decreases |s|
  {
    if s != "" {
      var n := RunLength(s, inRun);
      BreaksAreWhitespace(' ');
      if n >= least {
        var rest := Collapse(s[n..], inRun, least, ' ');
        CollapseKeepsWords(s[n..], inRun, least);
        WordsAfterRun(s, n);
        assert (" " + rest)[1..] == rest && (" " + rest)[0] == ' ';
        assert inRun(s[0]);
      } else {
        CollapseKeepsWords(s[1..], inRun, least);
        WordsCons(s[0], s[1..], Collapse(s[1..], inRun, least, ' '));
        assert s == [s[0]] + s[1..];
      }
    }
  }

  lemma {:induction false} WordsBeforeEnd(s: string, c: char)
    requires Whitespace(c)
    ensures Words(s + [c]) == Words(s)
  {
    var t := s + [c];
    if s == "" {
      assert t[1..] == "";
    } else {
      assert t[1..] == s[1..] + [c];
      WordsBeforeEnd(s[1..], c);
      assert |s| > 1 ==> t[1] == s[1];
      assert |s| == 1 ==> t[1] == c;
      assert |s| == 1 ==> s[1..] == "";
    }
  }

  lemma {:induction false} TrimKeepsWords(s: string)
    ensures Words(Trim(s, Whitespace)) == Words(s)
    decreases |s|
  {
    if s != "" && Whitespace(s[0]) {
      TrimKeepsWords(s[1..]);
    } else if s != "" && Whitespace(s[|s| - 1]) {
      TrimKeepsWords(s[..|s| - 1]);
      WordsBeforeEnd(s[..|s| - 1], s[|s| - 1]);
      assert s == s[..|s| - 1] + [s[|s| - 1]];
    }
  }

  /** What is printed has the words of the redacted text, all of them and in their order. */
  lemma OneLineKeepsWords(value: string, secrets: seq<Secret>)
    ensures Words(ToOneLine(value, secrets)) == Words(RedactAll(value, secrets))
  {
    var s := RedactAll(value, secrets);
    forall c ensures Break(c) ==> Whitespace(c) {
      BreaksAreWhitespace(c);
    }
    var unbroken := Collapse(s, Break, 1, ' ');
    CollapseKeepsWords(s, Break, 1);
    CollapseKeepsWords(unbroken, Whitespace, 2);
    TrimKeepsWords(Collapse(unbroken, Whitespace, 2, ' '));
  }
}
