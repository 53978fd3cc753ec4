/** The depth-limited scan that keeps source text and secrets out of hosted metadata. */
module UntrustedSource {
  import opened Unicode
  import opened Json

  const MAX_DEPTH := 12

  const FORBIDDEN: seq<string> := [
    "sourcecode", "fulldiff", "patch", "diff", "diffcontent", "secret", "token", "apikey", "password", "credential", "privatekey"]

  /** The lower-case form of an ASCII letter or digit; nothing for any other unit. */
  function KeptUnit(c: char): string {
    if 'a' <= c <= 'z' || '0' <= c <= '9' then [c]
    else if 'A' <= c <= 'Z' then [(c as int + 32) as char]
    else ""
  }

  /** `key.replace(/[^a-z0-9]/gi, "").toLowerCase()`. */
  function NormalizedKey(key: string): string {
    if key == "" then "" else KeptUnit(key[0]) + NormalizedKey(key[1..])
  }

  predicate Small(c: char) { 'a' <= c <= 'z' }
  predicate Capital(c: char) { 'A' <= c <= 'Z' }
  predicate Figure(c: char) { '0' <= c <= '9' }

  /** An ASCII letter or digit. */
  predicate Counts(c: char) { Small(c) || Capital(c) || Figure(c) }

  /** The same letter or digit, whatever its case. */
  predicate SameLetter(c: char, d: char) {
    c == d || (Capital(c) && Small(d) && d as int - c as int == 32) || (Small(c) && Capital(d) && c as int - d as int == 32)
  }

  /** The letters and digits of the key, in order, spell the word up to case; nothing else in the key matters. */
  predicate Spells(key: string, word: string) {
    if key == "" then word == ""
    else if Counts(key[0]) then word != "" && SameLetter(key[0], word[0]) && Spells(key[1..], word[1..])
    else Spells(key[1..], word)
  }

  /** Two keys spell the same up to case. */
  predicate Alike(a: string, b: string)
    decreases |a| + |b|
  {
    if a != "" && !Counts(a[0]) then Alike(a[1..], b)
    else if b != "" && !Counts(b[0]) then Alike(a, b[1..])
    else if a == "" || b == "" then a == b
    else SameLetter(a[0], b[0]) && Alike(a[1..], b[1..])
  }

  /** The key spells one of the words under which hosted metadata could carry source text or secrets. */
  predicate SpellsForbidden(key: string) {
    || Spells(key, "sourcecode") || Spells(key, "fulldiff") || Spells(key, "patch") || Spells(key, "diff") || Spells(key, "diffcontent")
    || Spells(key, "secret") || Spells(key, "token") || Spells(key, "apikey") || Spells(key, "password") || Spells(key, "credential")
    || Spells(key, "privatekey")
  }

  lemma SpellsListed(key: string)
    ensures SpellsForbidden(key) <==> exists i :: 0 <= i < |FORBIDDEN| && Spells(key, FORBIDDEN[i])
  {
    hide Spells;
    assert FORBIDDEN == [
      "sourcecode", "fulldiff", "patch", "diff", "diffcontent", "secret", "token", "apikey", "password", "credential", "privatekey"];
    if SpellsForbidden(key) {
      var words := FORBIDDEN;
      var i := if Spells(key, words[0]) then 0 else if Spells(key, words[1]) then 1 else if Spells(key, words[2]) then 2
        else if Spells(key, words[3]) then 3 else if Spells(key, words[4]) then 4 else if Spells(key, words[5]) then 5
        else if Spells(key, words[6]) then 6 else if Spells(key, words[7]) then 7 else if Spells(key, words[8]) then 8
        else if Spells(key, words[9]) then 9 else 10;
      assert Spells(key, FORBIDDEN[i]);
    }
  }

  /** A word as the list has it: small letters and digits only. */
  predicate Normal(word: string) {
    forall i :: 0 <= i < |word| ==> Small(word[i]) || Figure(word[i])
  }

  lemma {:induction false} NormalizedSpells(key: string, word: string)
    requires Normal(word)
    ensures NormalizedKey(key) == word <==> Spells(key, word)
  {
    if key != "" {
      var rest := NormalizedKey(key[1..]);
      if Counts(key[0]) {
        assert KeptUnit(key[0]) == [KeptUnit(key[0])[0]];
        if word != "" {
          NormalizedSpells(key[1..], word[1..]);
          assert word == [word[0]] + word[1..];
          assert NormalizedKey(key)[0] == KeptUnit(key[0])[0] && NormalizedKey(key)[1..] == rest;
        }
      } else {
        NormalizedSpells(key[1..], word);
        assert NormalizedKey(key) == rest;
      }
    }
  }

  lemma ForbiddenAreNormal(i: nat)
    requires i < |FORBIDDEN|
    ensures Normal(FORBIDDEN[i])
  {}

  /** A key is refused exactly when its letters and digits spell a forbidden word, up to case. */
  lemma ForbiddenExactly(key: Text)
    ensures ForbiddenKey(key) <==> SpellsForbidden(key)
  {
    SpellsListed(key);
    hide NormalizedKey, Spells, SpellsForbidden, FORBIDDEN;
    forall i | 0 <= i < |FORBIDDEN| ensures NormalizedKey(key) == FORBIDDEN[i] <==> Spells(key, FORBIDDEN[i]) {
      ForbiddenAreNormal(i);
      NormalizedSpells(key, FORBIDDEN[i]);
    }
  }

  /** Keys that are alike spell the same words. */
  lemma {:induction false} AlikeSpells(a: string, b: string, word: string)
    requires Alike(a, b) && Normal(word)
    ensures Spells(a, word) <==> Spells(b, word)
    decreases |a| + |b|
  {
    if a != "" && !Counts(a[0]) {
      AlikeSpells(a[1..], b, word);
    } else if b != "" && !Counts(b[0]) {
      AlikeSpells(a, b[1..], word);
    } else if a != "" && b != "" && word != "" {
      AlikeSpells(a[1..], b[1..], word[1..]);
    }
  }

  lemma AlikeForbidden(a: Text, b: Text)
    requires Alike(a, b)
    ensures SpellsForbidden(a) <==> SpellsForbidden(b)
  {
    SpellsListed(a);
    SpellsListed(b);
    hide Alike, Spells, SpellsForbidden, FORBIDDEN;
    forall i | 0 <= i < |FORBIDDEN| ensures Spells(a, FORBIDDEN[i]) <==> Spells(b, FORBIDDEN[i]) {
      ForbiddenAreNormal(i);
      AlikeSpells(a, b, FORBIDDEN[i]);
    }
  }

  predicate ForbiddenKey(key: Text) {
    NormalizedKey(key) in FORBIDDEN
  }

  predicate ContainsUntrustedSource(v: Json, depth: nat)
    decreases v
  {
    depth > MAX_DEPTH ||
    match v
    case Arr(items) => exists i :: 0 <= i < |items| && ContainsUntrustedSource(items[i], depth + 1)
    case Obj(fields) =>
      exists i :: 0 <= i < |fields| && (ForbiddenKey(fields[i].key) || ContainsUntrustedSource(fields[i].value, depth + 1))
    case _ => false
  }

  function Max(a: nat, b: nat): nat { if a < b then b else a }

  /** How many containers lie above the deepest value. */
  function Height(v: Json): nat
    decreases v, 0
  {
    match v
    case Arr(items) => ItemsHeight(items)
    case Obj(fields) => FieldsHeight(fields)
    case _ => 0
  }

  function ItemsHeight(items: seq<Json>): nat
    decreases items, 1
  {
    if items == [] then 0 else Max(1 + Height(items[0]), ItemsHeight(items[1..]))
  }

  function FieldsHeight(fields: seq<Entry>): nat
    decreases fields, 1
  {
    if fields == [] then 0 else Max(1 + Height(fields[0].value), FieldsHeight(fields[1..]))
  }

  lemma {:induction false} ItemsHeightIsMax(items: seq<Json>)
    ensures forall i :: 0 <= i < |items| ==> Height(items[i]) < ItemsHeight(items)
    ensures items != [] ==> exists i :: 0 <= i < |items| && ItemsHeight(items) == 1 + Height(items[i])
  {
    if items != [] {
      ItemsHeightIsMax(items[1..]);
      assert forall i :: 0 < i < |items| ==> items[i] == items[1..][i - 1];
      assert ItemsHeight(items) == 1 + Height(items[0]) || ItemsHeight(items) == ItemsHeight(items[1..]);
    }
  }

  lemma {:induction false} FieldsHeightIsMax(fields: seq<Entry>)
    ensures forall i :: 0 <= i < |fields| ==> Height(fields[i].value) < FieldsHeight(fields)
    ensures fields != [] ==> exists i :: 0 <= i < |fields| && FieldsHeight(fields) == 1 + Height(fields[i].value)
  {
    if fields != [] {
      FieldsHeightIsMax(fields[1..]);
      assert forall i :: 0 < i < |fields| ==> fields[i] == fields[1..][i - 1];
      assert FieldsHeight(fields) == 1 + Height(fields[0].value) || FieldsHeight(fields) == FieldsHeight(fields[1..]);
    }
  }

  /** Some object key, reachable through arrays and objects, spells a forbidden word. */
  predicate HasForbiddenKey(v: Json) {
    match v
    case Arr(items) => exists i :: 0 <= i < |items| && HasForbiddenKey(items[i])
    case Obj(fields) => exists i :: 0 <= i < |fields| && (SpellsForbidden(fields[i].key) || HasForbiddenKey(fields[i].value))
    case _ => false
  }

  /** The scan says yes exactly for a value nested too deep or holding a forbidden key anywhere. */
  lemma {:induction false} ScanExact(v: Json, depth: nat)
    ensures ContainsUntrustedSource(v, depth) <==> depth + Height(v) > MAX_DEPTH || HasForbiddenKey(v)
    decreases v
  {
    hide ForbiddenKey, SpellsForbidden;
    match v
    case Arr(items) =>
      ItemsHeightIsMax(items);
      forall i | 0 <= i < |items|
        ensures ContainsUntrustedSource(items[i], depth + 1) <==> depth + 1 + Height(items[i]) > MAX_DEPTH || HasForbiddenKey(items[i])
      {
        ScanExact(items[i], depth + 1);
      }
    case Obj(fields) =>
      FieldsHeightIsMax(fields);
      forall i | 0 <= i < |fields|
        ensures ContainsUntrustedSource(fields[i].value, depth + 1) <==>
                depth + 1 + Height(fields[i].value) > MAX_DEPTH || HasForbiddenKey(fields[i].value)
      {
        ScanExact(fields[i].value, depth + 1);
      }
      forall i | 0 <= i < |fields| ensures ForbiddenKey(fields[i].key) <==> SpellsForbidden(fields[i].key) {
        ForbiddenExactly(fields[i].key);
      }
    case _ =>
  }

  /** `sub` is `v` or lies inside it. */
  predicate Subtree(sub: Json, v: Json)
    decreases v
  {
    sub == v ||
    match v
    case Arr(items) => exists i :: 0 <= i < |items| && Subtree(sub, items[i])
    case Obj(fields) => exists i :: 0 <= i < |fields| && Subtree(sub, fields[i].value)
    case _ => false
  }

  lemma {:induction false} SubtreeMilder(sub: Json, v: Json)
    requires Subtree(sub, v)
    ensures Height(sub) <= Height(v)
    ensures HasForbiddenKey(sub) ==> HasForbiddenKey(v)
    decreases v
  {
    hide SpellsForbidden;
    if sub != v {
      match v
      case Arr(items) =>
        ItemsHeightIsMax(items);
        var i :| 0 <= i < |items| && Subtree(sub, items[i]);
        SubtreeMilder(sub, items[i]);
      case Obj(fields) =>
        FieldsHeightIsMax(fields);
        var i :| 0 <= i < |fields| && Subtree(sub, fields[i].value);
        SubtreeMilder(sub, fields[i].value);
    }
  }

  /** Every part of an accepted value is accepted on its own. */
  lemma AcceptedSubtree(sub: Json, v: Json, depth: nat)
    requires Subtree(sub, v) && !ContainsUntrustedSource(v, depth)
    ensures !ContainsUntrustedSource(sub, depth)
  {
    SubtreeMilder(sub, v);
    ScanExact(v, depth);
    ScanExact(sub, depth);
  }

  /**
   `w` offers everything `v` holds, up to leaf values, the order and number of siblings, and the
   case and separators of object keys.
   */
  predicate Covers(w: Json, v: Json)
    decreases v, 0
  {
    match v
    case Arr(items) => w.Arr? && forall i :: 0 <= i < |items| ==> CoversItem(w.items, items[i])
    case Obj(fields) => w.Obj? && forall i :: 0 <= i < |fields| ==> CoversEntry(w.fields, fields[i])
    case _ => true
  }

  predicate CoversItem(candidates: seq<Json>, item: Json)
    decreases item, 1
  {
    exists j :: 0 <= j < |candidates| && Covers(candidates[j], item)
  }

  predicate CoversEntry(candidates: seq<Entry>, entry: Entry)
    decreases entry, 1
  {
    exists j :: 0 <= j < |candidates| &&
      (Alike(candidates[j].key, entry.key) && Covers(candidates[j].value, entry.value))
  }

  /** `w` is at least as deep as `v` and holds a forbidden key if `v` does. */
  predicate AtLeast(w: Json, v: Json) {
    Height(v) <= Height(w) && (HasForbiddenKey(v) ==> HasForbiddenKey(w))
  }

  lemma {:induction false} CoversAtLeast(w: Json, v: Json)
    requires Covers(w, v)
    ensures AtLeast(w, v)
    decreases v, 1
  {
    hide Alike, SpellsForbidden;
    match v
    case Arr(items) =>
      forall i | 0 <= i < |items|
        ensures SomeItemAtLeast(w.items, items[i])
      {
        assert CoversItem(w.items, items[i]);
        var j :| 0 <= j < |w.items| && Covers(w.items[j], items[i]);
        CoversAtLeast(w.items[j], items[i]);
      }
      ItemsAtLeast(w.items, items);
    case Obj(fields) =>
      forall i | 0 <= i < |fields|
        ensures SomeEntryAtLeast(w.fields, fields[i])
      {
        assert CoversEntry(w.fields, fields[i]);
        var j :| 0 <= j < |w.fields| &&
          (Alike(w.fields[j].key, fields[i].key) && Covers(w.fields[j].value, fields[i].value));
        CoversAtLeast(w.fields[j].value, fields[i].value);
        AlikeForbidden(w.fields[j].key, fields[i].key);
        assert EntryAtLeast(w.fields[j], fields[i]);
      }
      FieldsAtLeast(w.fields, fields);
    case _ =>
  }

  predicate SomeItemAtLeast(ws: seq<Json>, v: Json) {
    exists j :: 0 <= j < |ws| && AtLeast(ws[j], v)
  }

  lemma ItemsAtLeast(ws: seq<Json>, vs: seq<Json>)
    requires forall i :: 0 <= i < |vs| ==> SomeItemAtLeast(ws, vs[i])
    ensures AtLeast(Arr(ws), Arr(vs))
  {
    ItemsHeightIsMax(vs);
    ItemsHeightIsMax(ws);
  }

  predicate EntryAtLeast(w: Entry, v: Entry) {
    (SpellsForbidden(v.key) ==> SpellsForbidden(w.key)) && AtLeast(w.value, v.value)
  }

  predicate SomeEntryAtLeast(ws: seq<Entry>, v: Entry) {
    exists j :: 0 <= j < |ws| && EntryAtLeast(ws[j], v)
  }

  lemma FieldsKeysAtLeast(ws: seq<Entry>, vs: seq<Entry>)
    requires forall i :: 0 <= i < |vs| ==> SomeEntryAtLeast(ws, vs[i])
    ensures HasForbiddenKey(Obj(vs)) ==> HasForbiddenKey(Obj(ws))
  {
    hide SpellsForbidden;
    if HasForbiddenKey(Obj(vs)) {
      var i :| 0 <= i < |vs| && (SpellsForbidden(vs[i].key) || HasForbiddenKey(vs[i].value));
      assert SomeEntryAtLeast(ws, vs[i]);
      var j :| 0 <= j < |ws| && EntryAtLeast(ws[j], vs[i]);
      assert SpellsForbidden(ws[j].key) || HasForbiddenKey(ws[j].value);
    }
  }

  lemma FieldsAtLeast(ws: seq<Entry>, vs: seq<Entry>)
    requires forall i :: 0 <= i < |vs| ==> SomeEntryAtLeast(ws, vs[i])
    ensures AtLeast(Obj(ws), Obj(vs))
  {
    FieldsKeysAtLeast(ws, vs);
    FieldsHeightIsMax(vs);
    FieldsHeightIsMax(ws);
    if vs != [] {
      var i :| 0 <= i < |vs| && FieldsHeight(vs) == 1 + Height(vs[i].value);
      assert SomeEntryAtLeast(ws, vs[i]);
      var j :| 0 <= j < |ws| && EntryAtLeast(ws[j], vs[i]);
    }
  }

  lemma SameVerdict(v: Json, w: Json, depth: nat)
    requires AtLeast(v, w) && AtLeast(w, v)
    ensures ContainsUntrustedSource(v, depth) <==> ContainsUntrustedSource(w, depth)
  {
    ScanExact(v, depth);
    ScanExact(w, depth);
  }

  /** Key order, key case, key separators and leaf values never change the verdict. */
  lemma ScanIgnoresPresentation(v: Json, w: Json, depth: nat)
    requires Covers(v, w) && Covers(w, v)
    ensures ContainsUntrustedSource(v, depth) <==> ContainsUntrustedSource(w, depth)
  {
    CoversAtLeast(v, w);
    CoversAtLeast(w, v);
    SameVerdict(v, w, depth);
  }

  /** Case and separators of a key, one unit at a time. */
  lemma {:induction false} NormalizedKeyConcat(a: string, b: string)
    ensures NormalizedKey(a + b) == NormalizedKey(a) + NormalizedKey(b)
  {
    if a == "" {
      assert a + b == b;
    } else {
      assert (a + b)[1..] == a[1..] + b;
      NormalizedKeyConcat(a[1..], b);
    }
  }

  lemma {:induction false} NormalizedKeyIdempotent(key: string)
    ensures NormalizedKey(NormalizedKey(key)) == NormalizedKey(key)
  {
    if key != "" {
      NormalizedKeyIdempotent(key[1..]);
      NormalizedKeyConcat(KeptUnit(key[0]), NormalizedKey(key[1..]));
      assert NormalizedKey(KeptUnit(key[0])) == KeptUnit(key[0]);
    }
  }
}
