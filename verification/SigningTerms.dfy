/** Signed records in plain terms: which envelopes can be made, and what the host's verifier is asked
    (`govengine/signing.py`). */
module SigningTerms {
  import opened Prelude
  import opened PyStrings
  import opened PyValues
  import opened CanonicalRecord
  import opened RecordText
  import opened SignedRecords

  /** A signature that claims more than integrity, names its signer, and binds this digest. */
  ghost predicate Signs(signature: Envelope, digest: string) {
    && signature.mode != "" && signature.mode != "not_signed_integrity_only" && signature.mode != "integrity_only"
    && signature.signature != "" && signature.signerId != "" && signature.bindsDigest == digest
  }

  /** An artifact is made exactly of an owned record type, a digest, a payload reference and a signature over that digest,
      and keeps type and reference stripped and the version, defaulted. */
  lemma MadeExactly(recordType: string, digest: string, payloadRef: string, signature: Envelope, version: string)
    ensures MakeArtifact(recordType, digest, payloadRef, signature, version).Ok? <==>
              && HasPrefix(Strip(recordType), "govengine.") && IsSha256(digest) && Strip(payloadRef) != ""
              && Signs(signature, digest)
    ensures MakeArtifact(recordType, digest, payloadRef, signature, version).Ok? ==>
              MakeArtifact(recordType, digest, payloadRef, signature, version).value
              == SignedArtifact(Strip(recordType), digest, Strip(payloadRef), signature,
                                if version == "" then "v1" else version)
  {
    hide Strip, IsSha256;
  }

  /** The verifier decides, on the artifact's own values, exactly about a record with the artifact's digest; a record with
      another digest never reaches it. */
  lemma VerifiedExactly(h: Hash, record: Value, a: SignedArtifact, verifier: Verifier, digest: string)
    requires RecordDigest(h, a.recordType, a.schemaVersion, record) == Ok(digest)
    ensures digest == a.recordDigest ==>
              VerifyRecord(h, record, a, verifier)
              == Ok(Judged(verifier(a.recordType, a.schemaVersion, a.recordDigest, a.payloadRef, a.signature)))
    ensures digest != a.recordDigest ==> VerifyRecord(h, record, a, verifier) == Ok(DigestMismatch)
  {
    hide RecordDigest;
  }
}
