/** JSON values as a request body holds them, and the runtime services the model takes as given. */
module Json {
  import opened Sequences
  import opened Unicode
  import opened Digests

  datatype Json =
    | Null
    | Bool(b: bool)
    | Num(n: real)
    | NaN
    | Str(s: Text)
    | Arr(items: seq<Json>)
    | Obj(fields: seq<Entry>)

  datatype Entry = Entry(key: Text, value: Json)

  datatype Result<+T, +E> = Ok(value: T) | Err(error: E)

  /** The value under `key`; nothing where JavaScript has `undefined`. */
  function Lookup(fields: seq<Entry>, key: Text): Option<Json> {
    if fields == [] then None
    else if fields[0].key == key then Some(fields[0].value)
    else Lookup(fields[1..], key)
  }

  function Field(v: Json, key: Text): Option<Json> {
    if v.Obj? then Lookup(v.fields, key) else None
  }

  /** `const { [key]: _, ...rest } = object`. */
  function Without(fields: seq<Entry>, key: Text): seq<Entry> {
    if fields == [] then []
    else (if fields[0].key == key then [] else [fields[0]]) + Without(fields[1..], key)
  }

  /** What is left finds everything but the key that is left out. */
  lemma {:induction false} WithoutExactly(fields: seq<Entry>, key: Text, other: Text)
    ensures Lookup(Without(fields, key), other) == if other == key then None else Lookup(fields, other)
  {
    if fields != [] {
      WithoutExactly(fields[1..], key, other);
      var rest := Without(fields[1..], key);
      if fields[0].key == key {
        assert Without(fields, key) == rest;
      } else {
        assert Without(fields, key)[1..] == rest;
      }
    }
  }

  /** `a ?? b`: the first operand unless it is `undefined` or `null`. */
  function Coalesce(a: Option<Json>, b: Option<Json>): Option<Json> {
    if a.Some? && a != Some(Null) then a else b
  }

  /** Services the repository calls: nothing is assumed of them beyond being functions. */
  datatype Runtime = Runtime(
    sha256: seq<Byte> -> Digest,
    stringify: Json -> Text,
    canonicalize: Json -> Json,
    lower: Text -> Text)
  {
    /** The SHA-256 of a value's canonical form. */
    function Fingerprint(value: Json): Digest {
      sha256(Utf8(stringify(canonicalize(value))))
    }
  }
}
