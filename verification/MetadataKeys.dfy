/** The key layout that makes one flat metadata table hold bundles, an audit log and run-token claims. */
module MetadataKeys {
  import opened Sequences
  import opened Unicode
  import opened Percent
  import opened Digests

  const NAMESPACE: Text := "assurance:"
  const RUN_TOKEN: Text := "run-token"
  const AUDIT: Text := "audit"
  const UUID_LENGTH := 36

  function Layout(section: Text, rest: Text): Text {
    NAMESPACE + section + ":" + rest
  }

  /** `assuranceMetadataKey(organizationId, repository)`; nothing when encoding throws. */
  function BundleKey(org: Text, repository: Text): Option<Text> {
    if Encode(org).None? || Encode(repository).None? then None
    else Some(Layout(Encode(org).value, Encode(repository).value))
  }

  /** The key under which the use of a run token is claimed; `hash` is the hash of the bearer. */
  function ClaimKey(hash: Digest): Text {
    Layout(RUN_TOKEN, HexDigest(hash))
  }

  /** The key of an audit entry: the organisation is not encoded here. */
  function AuditKey(org: Text, uuid: Text): Text {
    Layout(AUDIT, org + ":" + uuid)
  }

  predicate IsUuid(uuid: Text) {
    |uuid| == UUID_LENGTH && ':' !in uuid
  }

  lemma LayoutInjective(a: Text, b: Text, c: Text, d: Text)
    requires ':' !in a && ':' !in c
    ensures Layout(a, b) == Layout(c, d) <==> a == c && b == d
  {
    if Layout(a, b) == Layout(c, d) {
      var x, y := a + [':'] + b, c + [':'] + d;
      assert Layout(a, b) == NAMESPACE + x && Layout(c, d) == NAMESPACE + y;
      assert x == Layout(a, b)[|NAMESPACE|..] == Layout(c, d)[|NAMESPACE|..] == y;
      SplitUnique(a, b, c, d, ':');
    }
  }

  lemma EncodedHasNoColon(s: Text)
    requires Encode(s).Some?
    ensures ':' !in Encode(s).value
  {
    EncodeClean(s);
    CleanHasNoSeparator(Encode(s).value);
  }

  /** Different organisation and repository pairs have different keys. */
  lemma BundleKeyInjective(org: Text, repository: Text, org': Text, repository': Text)
    requires BundleKey(org, repository).Some? && BundleKey(org, repository) == BundleKey(org', repository')
    ensures org == org' && repository == repository'
  {
    EncodedHasNoColon(org);
    EncodedHasNoColon(org');
    LayoutInjective(Encode(org).value, Encode(repository).value, Encode(org').value, Encode(repository').value);
    EncodeInjective(org, org');
    EncodeInjective(repository, repository');
  }

  /** The key exists exactly when neither part holds a lone surrogate. */
  lemma BundleKeyDefined(org: Text, repository: Text)
    ensures BundleKey(org, repository).Some? <==> WellFormed(org) && WellFormed(repository)
  {
    EncodeDefined(org);
    EncodeDefined(repository);
  }

  lemma HexUnreserved(hash: Digest)
    ensures Encode(HexDigest(hash)) == Some(HexDigest(hash))
    ensures ':' !in HexDigest(hash)
  {
    DenotedHexDigest(hash);
    UnreservedUnchanged(HexDigest(hash));
  }

  lemma RunTokenUnreserved()
    ensures Encode(RUN_TOKEN) == Some(RUN_TOKEN)
    ensures ':' !in RUN_TOKEN
  {
    UnreservedUnchanged(RUN_TOKEN);
  }

  /** A bundle lands on a claim exactly when the organisation is called `run-token` and the repository is the token's hash. */
  lemma BundleMeetsClaim(org: Text, repository: Text, hash: Digest)
    ensures BundleKey(org, repository) == Some(ClaimKey(hash)) <==> org == RUN_TOKEN && repository == HexDigest(hash)
  {
    RunTokenUnreserved();
    HexUnreserved(hash);
    if BundleKey(org, repository) == Some(ClaimKey(hash)) {
      BundleKeyInjective(org, repository, RUN_TOKEN, HexDigest(hash));
    }
  }

  /** A bundle never lands on an audit entry, not even for an organisation called `audit`. */
  lemma BundleMissesAudit(org: Text, repository: Text, org': Text, uuid: Text)
    ensures BundleKey(org, repository) != Some(AuditKey(org', uuid))
  {
    if BundleKey(org, repository).Some? {
      EncodedHasNoColon(org);
      EncodedHasNoColon(repository);
      LayoutInjective(Encode(org).value, Encode(repository).value, AUDIT, org' + ":" + uuid);
      assert (org' + ":" + uuid)[|org'|] == ':';
    }
  }

  lemma ClaimMissesAudit(hash: Digest, org: Text, uuid: Text)
    ensures ClaimKey(hash) != AuditKey(org, uuid)
  {
    LayoutInjective(RUN_TOKEN, HexDigest(hash), AUDIT, org + ":" + uuid);
    assert RUN_TOKEN[0] != AUDIT[0];
  }

  lemma ClaimKeyInjective(a: Digest, b: Digest)
    ensures ClaimKey(a) == ClaimKey(b) <==> a == b
  {
    LayoutInjective(RUN_TOKEN, HexDigest(a), RUN_TOKEN, HexDigest(b));
    DenotedHexDigest(a);
    DenotedHexDigest(b);
  }

  /** The identifier at the end has a fixed length, so even an organisation with colons in it is told apart. */
  lemma AuditKeyInjective(org: Text, uuid: Text, org': Text, uuid': Text)
    requires IsUuid(uuid) && IsUuid(uuid')
    ensures AuditKey(org, uuid) == AuditKey(org', uuid') <==> org == org' && uuid == uuid'
  {
    var x, y := org + ":" + uuid, org' + ":" + uuid';
    LayoutInjective(AUDIT, x, AUDIT, y);
    if x == y {
      assert |org| == |org'|;
      assert org == x[..|org|] == y[..|org'|] == org';
      assert uuid == x[|org| + 1..] == y[|org'| + 1..] == uuid';
    }
  }

  /** A key of another subsystem, such as `billing:`, which the assurance routes never touch. */
  predicate Foreign(key: Text) {
    !(NAMESPACE <= key)
  }

  /** None of the three kinds of key is another subsystem's. */
  lemma BundleKeyOwn(org: Text, repository: Text)
    ensures BundleKey(org, repository).Some? ==> !Foreign(BundleKey(org, repository).value)
  {}

  lemma AuditKeyOwn(org: Text, uuid: Text)
    ensures !Foreign(AuditKey(org, uuid))
  {}

  lemma ClaimKeyOwn(hash: Digest)
    ensures !Foreign(ClaimKey(hash))
  {}

  lemma ClaimKeySpelled(hash: Digest)
    ensures ClaimKey(hash) == "assurance:run-token:" + HexDigest(hash)
  {
    assert NAMESPACE + RUN_TOKEN + ":" == "assurance:run-token:";
  }

  /** The three kinds of key, spelled out. */
  lemma KeysSpelled(org: Text, repository: Text, hash: Digest, uuid: Text)
    ensures Encode(org).Some? && Encode(repository).Some? ==>
      BundleKey(org, repository) == Some("assurance:" + Encode(org).value + ":" + Encode(repository).value)
    ensures ClaimKey(hash) == "assurance:run-token:" + HexDigest(hash)
    ensures AuditKey(org, uuid) == "assurance:audit:" + org + ":" + uuid
  {
    ClaimKeySpelled(hash);
    hide Encode, HexDigest;
    assert NAMESPACE + AUDIT + ":" == "assurance:audit:";
  }
}
