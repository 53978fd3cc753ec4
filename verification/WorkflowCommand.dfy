/** Escaping of workflow command values in the Action, and the reading that undoes it. */
module WorkflowCommand {
  import opened Sequences

  const SPECIAL := {'%', '\r', '\n', ':', ','}

  /** Every character replaced by a string, all at once. */
  function Substitute(s: string, f: char -> string): string {
    if s == [] then [] else f(s[0]) + Substitute(s[1..], f)
  }

  function With(c: char, replacement: string): char -> string {
    x => if x == c then replacement else [x]
  }

  /** `s.replace(/c/g, replacement)`. */
  function ReplaceAll(s: string, c: char, replacement: string): string {
    Substitute(s, With(c, replacement))
  }

  /** `escapeWorkflowCommand`: five replacements, one after the other. */
  function EscapeWorkflowCommand(value: string): string {
    ReplaceAll(ReplaceAll(ReplaceAll(ReplaceAll(ReplaceAll(value, '%', "%25"), '\r', "%0D"), '\n', "%0A"), ':', "%3A"), ',', "%2C")
  }

  /** The five replacements at once. */
  function Escape(c: char): string {
    match c
    case '%' => "%25"
    case '\r' => "%0D"
    case '\n' => "%0A"
    case ':' => "%3A"
    case ',' => "%2C"
    case _ => [c]
  }

  lemma {:induction false} SubstituteConcat(s: string, t: string, f: char -> string)
    ensures Substitute(s + t, f) == Substitute(s, f) + Substitute(t, f)
  {
    if s == [] {
      assert s + t == t;
    } else {
      SubstituteConcat(s[1..], t, f);
      assert (s + t)[1..] == s[1..] + t;
    }
  }

  /** Substituting twice is substituting once with the composition. */
  lemma {:induction false} SubstituteTwice(s: string, f: char -> string, g: char -> string, both: char -> string)
    requires forall c :: both(c) == Substitute(f(c), g)
    ensures Substitute(Substitute(s, f), g) == Substitute(s, both)
  {
    if s != [] {
      SubstituteTwice(s[1..], f, g, both);
      SubstituteConcat(f(s[0]), Substitute(s[1..], f), g);
    }
  }

  /** The replacement for the characters in `done`, every other character left alone. */
  function Only(done: set<char>): char -> string {
    c => if c in done then Escape(c) else [c]
  }

  /** No pass but the first is about a character that stands in a replacement. */
  lemma EscapeUntouched(x: char, c: char)
    requires x in SPECIAL && c in SPECIAL && c != '%'
    ensures Substitute(Escape(x), With(c, Escape(c))) == Escape(x)
  {
    Untouched(Escape(x), c);
  }

  lemma {:induction false} Untouched(s: string, c: char)
    requires c !in s
    ensures Substitute(s, With(c, Escape(c))) == s
  {
    if s != [] {
      Untouched(s[1..], c);
    }
  }

  /** One more pass: it leaves what earlier passes wrote alone. */
  lemma OneMorePass(value: string, done: set<char>, c: char)
    requires done <= SPECIAL && c in SPECIAL - done && c != '%'
    ensures ReplaceAll(Substitute(value, Only(done)), c, Escape(c)) == Substitute(value, Only(done + {c}))
  {
    var pass := With(c, Escape(c));
    forall x ensures Only(done + {c})(x) == Substitute(Only(done)(x), pass) {
      if x in done {
        EscapeUntouched(x, c);
      } else {
        assert [x][1..] == [];
        assert Substitute([x], pass) == pass(x) + Substitute([x][1..], pass);
      }
    }
    SubstituteTwice(value, Only(done), pass, Only(done + {c}));
  }

  lemma {:induction false} SubstituteSame(s: string, f: char -> string, g: char -> string)
    requires forall c :: f(c) == g(c)
    ensures Substitute(s, f) == Substitute(s, g)
  {
    if s != [] {
      SubstituteSame(s[1..], f, g);
    }
  }

  /** The five passes are one simultaneous substitution. */
  lemma FivePassesAreOne(value: string)
    ensures EscapeWorkflowCommand(value) == Substitute(value, Escape)
  {
    hide Substitute;
    FirstPass(value);
    LastPass(value);
    assert {'%'} + {'\r'} == {'%', '\r'} && {'%', '\r'} + {'\n'} == {'%', '\r', '\n'};
    assert {'%', '\r', '\n'} + {':'} == {'%', '\r', '\n', ':'} && {'%', '\r', '\n', ':'} + {','} == SPECIAL;
    assert Escape('\r') == "%0D" && Escape('\n') == "%0A" && Escape(':') == "%3A" && Escape(',') == "%2C";
    hide Escape, Only, With, ReplaceAll;
    OneMorePass(value, {'%'}, '\r');
    OneMorePass(value, {'%', '\r'}, '\n');
    OneMorePass(value, {'%', '\r', '\n'}, ':');
    OneMorePass(value, {'%', '\r', '\n', ':'}, ',');
  }

  lemma FirstPass(value: string)
    ensures ReplaceAll(value, '%', "%25") == Substitute(value, Only({'%'}))
  {}

  lemma LastPass(value: string)
    ensures Substitute(value, Only(SPECIAL)) == Substitute(value, Escape)
  {}

  /** The character an escape stands for. */
  function EscapeOf(e: string): Option<char> {
    if e == "%25" then Some('%')
    else if e == "%0D" then Some('\r')
    else if e == "%0A" then Some('\n')
    else if e == "%3A" then Some(':')
    else if e == "%2C" then Some(',')
    else None
  }

  /** What an escaped text spells: the five escapes read back, everything else as it stands. */
  function Unescape(t: string): string {
    if t == [] then []
    else if |t| >= 3 && EscapeOf(t[..3]).Some? then [EscapeOf(t[..3]).value] + Unescape(t[3..])
    else [t[0]] + Unescape(t[1..])
  }

  /** Reading the escaped text gives the value back. */
  lemma {:induction false} UnescapeEscaped(value: string)
    ensures Unescape(Substitute(value, Escape)) == value
  {
    if value != [] {
      var head, tail := Escape(value[0]), Substitute(value[1..], Escape);
      UnescapeEscaped(value[1..]);
      assert (head + tail)[|head|..] == tail;
      if value[0] in SPECIAL {
        assert (head + tail)[..3] == head;
      } else if |head + tail| >= 3 {
        assert (head + tail)[..3][0] == value[0];
      }
    }
  }

  /** Nothing a workflow command is split at, and no percent sign that is not an escape. */
  predicate Escaped(t: string) {
    forall i :: 0 <= i < |t| ==>
      && t[i] !in {'\r', '\n', ':', ','}
      && (t[i] == '%' ==> i + 3 <= |t| && EscapeOf(t[i..i + 3]).Some?)
  }

  lemma EscapedConcat(s: string, t: string)
    requires Escaped(s) && Escaped(t)
    ensures Escaped(s + t)
  {
    hide EscapeOf;
    var u := s + t;
    forall i | 0 <= i < |u|
      ensures u[i] !in {'\r', '\n', ':', ','} && (u[i] == '%' ==> i + 3 <= |u| && EscapeOf(u[i..i + 3]).Some?)
    {
      if i < |s| {
        assert u[i] == s[i] && (i + 3 <= |s| ==> u[i..i + 3] == s[i..i + 3]);
      } else {
        assert u[i] == t[i - |s|] && (i + 3 <= |u| ==> u[i..i + 3] == t[i - |s|..i + 3 - |s|]);
      }
    }
  }

  lemma {:induction false} SubstituteEscaped(value: string)
    ensures Escaped(Substitute(value, Escape))
  {
    if value != [] {
      SubstituteEscaped(value[1..]);
      var e := Escape(value[0]);
      assert |e| == 3 ==> e[0..3] == e;
      assert Escaped(e);
      EscapedConcat(e, Substitute(value[1..], Escape));
    }
  }

  /** What the Action writes cannot break out of its command, and loses nothing. */
  lemma EscapeIsSafeAndFaithful(value: string)
    ensures Escaped(EscapeWorkflowCommand(value))
    ensures Unescape(EscapeWorkflowCommand(value)) == value
  {
    FivePassesAreOne(value);
    SubstituteEscaped(value);
    UnescapeEscaped(value);
  }
}
