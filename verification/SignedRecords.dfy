/** Signed records (`govengine/signing.py`): what a verified envelope says about the record. */
module SignedRecords {
  import opened Prelude
  import opened PyStrings
  import opened PyValues
  import opened CanonicalRecord
  import opened Readback
  import opened RecordText

  datatype Envelope = Envelope(mode: string, signerId: string, signature: string, bindsDigest: string) {
    predicate Signed() {
      mode != "" && mode != "not_signed_integrity_only" && mode != "integrity_only" && signature != ""
    }
  }

  datatype SignedArtifact = SignedArtifact(
    recordType: string, recordDigest: string, payloadRef: string, signature: Envelope, schemaVersion: string)

  datatype SigningError = Refused(reason: string) | Undigestible(error: RecordError)

  /** What a host verifier is given: record type, version, digest, payload reference and the signature. */
  type Verifier = (string, string, string, string, Envelope) -> bool

  datatype Verification = DigestMismatch | Judged(trusted: bool)

  /** `SignedArtifact.__post_init__`: normalises the record type, the payload reference and the version. */
  function MakeArtifact(recordType: string, digest: string, payloadRef: string, signature: Envelope, version: string)
    : Result<SignedArtifact, SigningError>
  {
    var resolved := Strip(recordType);
    :- Need(resolved != "", Refused("missing_govengine_record_type"));
    :- Need(HasPrefix(resolved, "govengine."), Refused("invalid_govengine_record_type"));
    :- Need(IsSha256(digest), Refused("invalid_signed_record_digest"));
    :- Need(Strip(payloadRef) != "", Refused("missing_signed_payload_ref"));
    :- Need(signature.Signed(), Refused("missing_signed_record_signature"));
    :- Need(signature.signerId != "", Refused("missing_signed_record_signer"));
    :- Need(IsSha256(signature.bindsDigest), Refused("invalid_signed_record_binding_digest"));
    :- Need(signature.bindsDigest == digest, Refused("signed_record_digest_mismatch"));
    Ok(SignedArtifact(resolved, digest, Strip(payloadRef), signature, Version(version)))
  }

  /** `signed_artifact_from_record`. */
  function ArtifactFor(h: Hash, record: Value, recordType: string, payloadRef: string, signature: Envelope,
                       version: string)
    : Result<SignedArtifact, SigningError>
  {
    match RecordDigest(h, recordType, version, record)
    case Err(e) => Err(Undigestible(e))
    case Ok(digest) => MakeArtifact(recordType, digest, payloadRef, signature, version)
  }

  /** `verify_signed_govengine_record`: the verifier is asked only when the recomputed digest matches. */
  function VerifyRecord(h: Hash, record: Value, a: SignedArtifact, verifier: Verifier): Result<Verification,
                        RecordError> {
    var digest :- RecordDigest(h, a.recordType, a.schemaVersion, record);
    Ok(if digest != a.recordDigest then DigestMismatch
       else Judged(verifier(a.recordType, a.schemaVersion, a.recordDigest, a.payloadRef, a.signature)))
  }

  /** Normalising the type and version does not change the text. */
  lemma NormalisedText(recordType: string, version: string, record: Value)
    ensures CanonicalText(Strip(recordType), Version(version), record) == CanonicalText(recordType, version, record)
  {
    hide Canonicalise, Print, HasPrefix, Strip;
    StripTrims(recordType);
    StripTrims(Strip(recordType));
  }

  /** The text a record's envelope covers. */
  function SignedText(a: SignedArtifact, record: Value): string {
    match CanonicalText(a.recordType, a.schemaVersion, record)
    case Ok(text) => text
    case Err(_) => ""
  }

  /** An envelope made for one record reaches the verifier with another exactly when the two records agree up to key
      order and tuple/list: nothing else can be passed off under the signature, and reordering is not refused. */
  lemma EnvelopeFitsExactly(h: Hash, signed: Value, recordType: string, payloadRef: string, signature: Envelope,
                            version: string, a: SignedArtifact, record: Value, verifier: Verifier)
    requires ArtifactFor(h, signed, recordType, payloadRef, signature, version) == Ok(a)
    requires WellFormed(signed) && WellFormed(record) && Unsplit(signed) && Unsplit(record)
    requires CanonicalText(recordType, version, record).Ok?
    requires NoCollision(h, {SignedText(a, signed), SignedText(a, record)})
    ensures VerifyRecord(h, record, a, verifier).Ok?
    ensures VerifyRecord(h, record, a, verifier).value.Judged? <==> Denote(record) == Denote(signed)
  {
    hide Canonicalise, Denote, WellFormed, Unsplit, CanonicalText, Strip, HasPrefix, IsSha256;
    NormalisedText(recordType, version, signed);
    NormalisedText(recordType, version, record);
    assert a.recordType == Strip(recordType) && a.schemaVersion == Version(version);
    SameTextIffSameRecord(a.recordType, a.schemaVersion, record, a.recordType, a.schemaVersion, signed);
    var x, y := SignedText(a, record), SignedText(a, signed);
    assert h(x) == ("sha256:" + h(x))[7..] && h(y) == ("sha256:" + h(y))[7..];
  }

  /** One envelope vouches for at most one record, whoever verifies it. */
  lemma OneRecordPerEnvelope(h: Hash, a: SignedArtifact, r: Value, q: Value, verifier: Verifier, verifier': Verifier)
    requires Unsplit(r) && Unsplit(q)
    requires VerifyRecord(h, r, a, verifier).Ok? && VerifyRecord(h, r, a, verifier).value.Judged?
    requires VerifyRecord(h, q, a, verifier').Ok? && VerifyRecord(h, q, a, verifier').value.Judged?
    requires NoCollision(h, {SignedText(a, r), SignedText(a, q)})
    ensures Denote(r) == Denote(q)
  {
    hide Canonicalise, Denote, Unsplit;
    DigestBinds(h, a.recordType, a.schemaVersion, r, a.recordType, a.schemaVersion, q);
  }
}
