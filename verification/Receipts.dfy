/** Validation of a hosted assurance bundle and of the receipts it carries. */
module Receipts {
  import opened Sequences
  import opened Unicode
  import opened Digests
  import opened Json
  import opened UntrustedSource

  const SCHEMA_ID: Text := "https://tinkerbot.dev/schemas/assurance/v1"

  const ARRAY_FIELDS: seq<Text> := [
    "receipts", "graphs", "lifecycleEvents", "agentReceipts", "changeSets", "releaseManifests",
    "releaseAssessments", "outcomes", "decisions", "bindings", "calibrationEvents", "unknowns"]

  const MAX_BUNDLE_LENGTH := 1_500_000

  datatype BundleError = NotAnObject | UnsupportedSchema | NotAnArray(field: Text) | Untrusted | TooLarge

  predicate SupportedSchema(v: Json) {
    Field(v, "schemaVersion") == Some(Num(1.0)) && Field(v, "schemaId") == Some(Str(SCHEMA_ID))
  }

  predicate ArrayField(v: Json, key: Text) {
    Field(v, key).Some? && Field(v, key).value.Arr?
  }

  /** The first of `keys` under which `v` holds no array. */
  function FirstNonArray(v: Json, keys: seq<Text>): Option<Text> {
    if keys == [] then None
    else if !ArrayField(v, keys[0]) then Some(keys[0])
    else FirstNonArray(v, keys[1..])
  }

  function ValidateHostedAssuranceBundle(js: Runtime, value: Option<Json>): Result<Json, BundleError> {
    if value.None? || !value.value.Obj? then Err(NotAnObject)
    else
      var bundle := value.value;
      if !SupportedSchema(bundle) then Err(UnsupportedSchema)
      else
        match FirstNonArray(bundle, ARRAY_FIELDS)
        case Some(field) => Err(NotAnArray(field))
        case None =>
          if ContainsUntrustedSource(bundle, 0) then Err(Untrusted)
          else if |js.stringify(bundle)| > MAX_BUNDLE_LENGTH then Err(TooLarge)
          else Ok(bundle)
  }

  lemma {:induction false} FirstNonArrayExact(v: Json, keys: seq<Text>)
    ensures FirstNonArray(v, keys).None? <==> forall k :: k in keys ==> ArrayField(v, k)
    ensures FirstNonArray(v, keys).Some? ==> FirstNonArray(v, keys).value in keys && !ArrayField(v, FirstNonArray(v, keys).value)
  {
    if keys != [] {
      FirstNonArrayExact(v, keys[1..]);
      assert forall k :: k in keys <==> k == keys[0] || k in keys[1..];
    }
  }

  predicate HoldsArray(v: Json, key: Text) {
    match Field(v, key) case Some(Arr(_)) => true case _ => false
  }

  /** What an accepted bundle is, said without reference to how it is checked. */
  ghost predicate AcceptableBundle(js: Runtime, bundle: Json) {
    && bundle.Obj?
    && Field(bundle, "schemaVersion") == Some(Num(1.0))
    && Field(bundle, "schemaId") == Some(Str(SCHEMA_ID))
    && HoldsArray(bundle, "receipts") && HoldsArray(bundle, "graphs") && HoldsArray(bundle, "lifecycleEvents")
    && HoldsArray(bundle, "agentReceipts") && HoldsArray(bundle, "changeSets") && HoldsArray(bundle, "releaseManifests")
    && HoldsArray(bundle, "releaseAssessments") && HoldsArray(bundle, "outcomes") && HoldsArray(bundle, "decisions")
    && HoldsArray(bundle, "bindings") && HoldsArray(bundle, "calibrationEvents") && HoldsArray(bundle, "unknowns")
    && Height(bundle) <= 12
    && !HasForbiddenKey(bundle)
    && |js.stringify(bundle)| <= 1_500_000
  }

  lemma ArraysListed(v: Json)
    ensures (forall k :: k in ARRAY_FIELDS ==> ArrayField(v, k)) <==>
      && HoldsArray(v, "receipts") && HoldsArray(v, "graphs") && HoldsArray(v, "lifecycleEvents")
      && HoldsArray(v, "agentReceipts") && HoldsArray(v, "changeSets") && HoldsArray(v, "releaseManifests")
      && HoldsArray(v, "releaseAssessments") && HoldsArray(v, "outcomes") && HoldsArray(v, "decisions")
      && HoldsArray(v, "bindings") && HoldsArray(v, "calibrationEvents") && HoldsArray(v, "unknowns")
  {
    assert forall k: Text :: ArrayField(v, k) <==> HoldsArray(v, k);
    hide ArrayField, HoldsArray;
    var keys := ARRAY_FIELDS;
    assert (forall k :: k in keys ==> ArrayField(v, k)) <==> forall i :: 0 <= i < |keys| ==> ArrayField(v, keys[i]);
    assert |keys| == 12;
    assert keys[0] == "receipts" && keys[1] == "graphs" && keys[2] == "lifecycleEvents" && keys[3] == "agentReceipts";
    assert keys[4] == "changeSets" && keys[5] == "releaseManifests" && keys[6] == "releaseAssessments" && keys[7] == "outcomes";
    assert keys[8] == "decisions" && keys[9] == "bindings" && keys[10] == "calibrationEvents" && keys[11] == "unknowns";
  }

  /** A bundle is accepted, unchanged, exactly when it is acceptable. */
  lemma BundleAcceptedExactly(js: Runtime, value: Option<Json>)
    ensures ValidateHostedAssuranceBundle(js, value).Ok? <==> value.Some? && AcceptableBundle(js, value.value)
    ensures ValidateHostedAssuranceBundle(js, value).Ok? ==> ValidateHostedAssuranceBundle(js, value).value == value.value
  {
    if value.Some? {
      FirstNonArrayExact(value.value, ARRAY_FIELDS);
      ScanExact(value.value, 0);
      ArraysListed(value.value);
      hide ARRAY_FIELDS, ArrayField, HoldsArray, Height, HasForbiddenKey;
    }
  }

  datatype ReceiptError = ReceiptNotAnObject | ReceiptSchema | ReceiptIntegrity | ReceiptMismatch | ReceiptRepository | ReceiptCommit

  /** The digest text a receipt claims, when its integrity block has the supported shape. */
  function ClaimedDigest(receipt: Json): (claim: Option<Text>)
    ensures claim.Some? ==> IsDigestText(claim.value)
  {
    match Field(receipt, "integrity")
    case Some(Obj(fields)) =>
      (match Lookup(fields, "digest")
       case Some(Str(d)) => if Lookup(fields, "algorithm") == Some(Str("sha256")) && IsDigestText(d) then Some(d) else None
       case _ => None)
    case _ => None
  }

  /** The digest text of everything in the receipt but its integrity block. */
  function ComputedDigest(js: Runtime, receipt: Json): Text
    requires receipt.Obj?
  {
    PREFIX + HexDigest(js.Fingerprint(Obj(Without(receipt.fields, "integrity"))))
  }

  /** `typeof value === "string"`, and equal to `expected` up to case. */
  predicate SameIgnoringCase(js: Runtime, value: Option<Json>, expected: Text) {
    value.Some? && value.value.Str? && js.lower(value.value.s) == js.lower(expected)
  }

  /** `expected.sha && receipt.headSha !== expected.sha`, negated: an empty commit asks for nothing. */
  predicate CommitMatches(receipt: Json, sha: Option<Text>) {
    sha.Some? && sha.value != [] ==> Field(receipt, "headSha") == Some(Str(sha.value))
  }

  method VerifyHostedReceipt(js: Runtime, value: Json, repository: Text, sha: Option<Text>)
    returns (r: Result<Json, ReceiptError>)
    ensures r.Ok? <==> GenuineReceipt(js, value, repository, sha)
    ensures r.Ok? ==> r.value == value
    ensures r == ReceiptVerdict(js, value, repository, sha)
  {
    VerdictExactly(js, value, repository, sha);
    hide GenuineReceipt, IsDigestText, Denoted;
    if !value.Obj? {
      return Err(ReceiptNotAnObject);
    }
    if !SupportedSchema(value) || Field(value, "kind") != Some(Str("verification-receipt")) {
      return Err(ReceiptSchema);
    }
    var claim := ClaimedDigest(value);
    if claim.None? {
      return Err(ReceiptIntegrity);
    }
    ClaimMatches(claim.value, js.Fingerprint(Obj(Without(value.fields, "integrity"))));
    var same := ConstantTimeTextEqual(claim.value, ComputedDigest(js, value));
    if !same {
      return Err(ReceiptMismatch);
    }
    if !SameIgnoringCase(js, Field(value, "repository"), repository) {
      return Err(ReceiptRepository);
    }
    if !CommitMatches(value, sha) {
      return Err(ReceiptCommit);
    }
    return Ok(value);
  }

  /**
   What a genuine receipt is, field by field: its digest denotes the hash of everything else in
   it, it names the expected repository up to case, and the commit if the token has one.
   */
  predicate GenuineReceipt(js: Runtime, value: Json, repository: Text, sha: Option<Text>) {
    && value.Obj?
    && Field(value, "schemaVersion") == Some(Num(1.0))
    && Field(value, "schemaId") == Some(Str(SCHEMA_ID))
    && Field(value, "kind") == Some(Str("verification-receipt"))
    && (match Field(value, "integrity")
        case Some(Obj(integrity)) =>
          && Lookup(integrity, "algorithm") == Some(Str("sha256"))
          && (match Lookup(integrity, "digest")
              case Some(Str(digest)) =>
                IsDigestText(digest) && Denoted(digest[7..]) == js.Fingerprint(Obj(Without(value.fields, "integrity")))
              case _ => false)
        case _ => false)
    && (match Field(value, "repository") case Some(Str(named)) => js.lower(named) == js.lower(repository) case _ => false)
    && (sha == None || sha == Some("") || Field(value, "headSha") == Some(Str(sha.value)))
  }

  /** Which check, in the order they are made, a receipt fails first. */
  function ReceiptVerdict(js: Runtime, value: Json, repository: Text, sha: Option<Text>): Result<Json, ReceiptError> {
    if !value.Obj? then Err(ReceiptNotAnObject)
    else if !SupportedSchema(value) || Field(value, "kind") != Some(Str("verification-receipt")) then Err(ReceiptSchema)
    else if ClaimedDigest(value).None? then Err(ReceiptIntegrity)
    else if Denoted(ClaimedDigest(value).value[7..]) != js.Fingerprint(Obj(Without(value.fields, "integrity"))) then Err(ReceiptMismatch)
    else if !SameIgnoringCase(js, Field(value, "repository"), repository) then Err(ReceiptRepository)
    else if !CommitMatches(value, sha) then Err(ReceiptCommit)
    else Ok(value)
  }

  /** The checks, one after the other, pass exactly the genuine receipts. */
  lemma VerdictExactly(js: Runtime, value: Json, repository: Text, sha: Option<Text>)
    ensures ReceiptVerdict(js, value, repository, sha).Ok? <==> GenuineReceipt(js, value, repository, sha)
    ensures ReceiptVerdict(js, value, repository, sha).Ok? ==> ReceiptVerdict(js, value, repository, sha).value == value
  {
    hide IsDigestText, Denoted;
  }

  /** The outcome of checking every submitted receipt: the first failure, or the last receipt. */
  function BoundReceipt(js: Runtime, receipts: seq<Json>, repository: Text, sha: Option<Text>): Result<Option<Json>, ReceiptError> {
    if receipts == [] then Ok(None)
    else
      var front := receipts[..|receipts| - 1];
      var last := ReceiptVerdict(js, receipts[|receipts| - 1], repository, sha);
      match BoundReceipt(js, front, repository, sha)
      case Err(e) => Err(e)
      case Ok(_) => (match last case Err(e) => Err(e) case Ok(receipt) => Ok(Some(receipt)))
  }

  /** Receipts bind exactly when every one of them is genuine, and then the last one is bound. */
  lemma {:induction false} BoundExactly(js: Runtime, receipts: seq<Json>, repository: Text, sha: Option<Text>)
    ensures BoundReceipt(js, receipts, repository, sha).Ok? <==>
      forall i :: 0 <= i < |receipts| ==> GenuineReceipt(js, receipts[i], repository, sha)
    ensures BoundReceipt(js, receipts, repository, sha).Ok? ==>
      BoundReceipt(js, receipts, repository, sha).value == if receipts == [] then None else Some(receipts[|receipts| - 1])
  {
    if receipts != [] {
      var n := |receipts| - 1;
      BoundExactly(js, receipts[..n], repository, sha);
      VerdictExactly(js, receipts[n], repository, sha);
      hide GenuineReceipt, ReceiptVerdict;
      assert forall i :: 0 <= i < n ==> receipts[..n][i] == receipts[i];
    }
  }

  /** A failure before the end settles the outcome. */
  lemma {:induction false} BoundFailsEarly(js: Runtime, receipts: seq<Json>, n: nat, repository: Text, sha: Option<Text>)
    requires n <= |receipts| && BoundReceipt(js, receipts[..n], repository, sha).Err?
    ensures BoundReceipt(js, receipts, repository, sha) == BoundReceipt(js, receipts[..n], repository, sha)
    decreases |receipts|
  {
    if n == |receipts| {
      assert receipts[..n] == receipts;
    } else {
      var m := |receipts| - 1;
      assert receipts[..m][..n] == receipts[..n];
      BoundFailsEarly(js, receipts[..m], n, repository, sha);
    }
  }

  /** The loop over the submitted receipts, which stops at the first that fails. */
  method BindReceipts(js: Runtime, receipts: seq<Json>, repository: Text, sha: Option<Text>)
    returns (r: Result<Option<Json>, ReceiptError>)
    ensures r == BoundReceipt(js, receipts, repository, sha)
    ensures r.Ok? && receipts != [] ==> r.value == Some(receipts[|receipts| - 1])
    ensures r.Ok? <==> forall i :: 0 <= i < |receipts| ==> GenuineReceipt(js, receipts[i], repository, sha)
  {
    BoundExactly(js, receipts, repository, sha);
    var bound: Option<Json> := None;
    for n := 0 to |receipts|
      invariant BoundReceipt(js, receipts[..n], repository, sha) == Ok(bound)
    {
      var verified := VerifyHostedReceipt(js, receipts[n], repository, sha);
      assert receipts[..n + 1][..n] == receipts[..n];
      if verified.Err? {
        BoundFailsEarly(js, receipts, n + 1, repository, sha);
        return Err(verified.error);
      }
      bound := Some(verified.value);
    }
    assert receipts[..|receipts|] == receipts;
    return Ok(bound);
  }
}
