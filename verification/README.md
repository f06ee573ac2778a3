# GovEngine: a verified model of the governance kernel

GovEngine is a deterministic governance kernel: it validates requests, evaluates policy, issues short-lived
authorizations, checks receipts, and records what happened in hash-chained ledgers and replay stores. Everything rests on
one idea: a record is printed as one canonical text, and the SHA-256 digest of that text stands for the record.

This project models that kernel and proves what it promises, part by part.

* **Canonical records** (`PyValues`, `CanonicalRecord`, `CanonicalTextForm`, `CanonicalParser`, `Readback`, `RecordText`,
  `CopiedRecords`, `SignedRecords`, `SigningTerms`).
  Python values as tagged data, the canonicaliser and the compact sorted printer. A parser for the printed subset (objects
  and strings of RFC 8259, sections 4 and 7) undoes the printer, so the text is unambiguous up to key order and
  tuple/list, except that a split surrogate pair prints like one astral character. Key order, escapes and numbers are
  spelled out on code points.
* **Audit ledger** (`AuditLedger`, `LedgerAdapter`, `LedgerAcceptance`, `LedgerTerms`). Append, paged read and chain
  verification. The head digest determines the ledger. Which appends are accepted is exact. `append` reads only the first
  100 entries, so a file verifies up to 101 entries and never after.
* **Input boundary** (`BoundedTraversal`, `BoundedCopy`, `TraversalAgreement`, `TextTuples`). The recursive copy with a
  shared node counter, the explicit-stack scan, the exact relation between the two, and the form of name lists.
* **Marker scanner** (`ArmorScan`, `ArmorTerms`). The segment-by-segment search with a bounded carry.
* **Replay stores** (`Replay`, `ReplayTerms`, `ReplayStores`, `ReplayProtocol`). Claim-once over a relation that is not
  transitive, three stores that agree on normalised records, and every interleaving of concurrent clients.
* **The governance transaction** (`GovernanceRecords`, `GovernanceRequests`, `ApprovalBinding`, `GovernanceDecisions`,
  `DecisionGuarantees`, `DraftDigests`, `RequestTerms`, `EvaluationTerms`, `EvaluationReturns`, `ReceiptConformance`,
  `ReceiptGuarantees`, `ReceiptTerms`, `LeaseFreedom`, `EndToEnd`, `RecordMembers`). From request to approval, decision,
  authorization and receipt, and back along the digests.
* **Typed execution** (`TypedExecution`, `TypedTerms`, `GovernedAdmission`, `GovernedCompletion`, `AdmissionTerms`). The
  control list, the two mutation prechecks, and how long a governed admission (v0.1 and v0.2) stays valid.
* **Run state machine** (`RunState`, `RunTerms`). Transitions and control decisions over whole runs.

`Prelude` and `PyStrings` hold shared types and Python string helpers, and `TextTerms` says what these mean. The modules named
`...Terms` state, on the members of the records and with every constant written out, exactly when each operation succeeds and
what it answers, without going through the checks they are about.

## What is assumed

* SHA-256 is a function `Hash` from texts to texts. `HexHash` says its values are 64 hexadecimal digits. No theorem
  assumes global injectivity: each one names, through `NoCollision`, the finite set of texts the hash must separate.
* The `repr` of a finite float is a text over number characters with a decimal point or an exponent, different for
  different floats.
* Timestamps print and parse back (`ClockOk`); instants are integers counting microseconds.
* Policy engine, policy compiler, scope and capability gates, host ports, and the checks on record members that no modelled
  code looks at are functions held in `Env`, `Engine` and `TypedEnv`. What a theorem needs of them is in `SoundEngine` and
  `SoundTyped`: digests in digest form, sorted allow-lists in projected controls, and reason codes in the identifier
  grammar that the policy compiler enforces on every rule (`govengine/policy/reasons.py:11-79`) and that the kernel's own
  codes follow.
* Text is a sequence of code points in canonical records (lone surrogates included) and a sequence of Unicode scalar values in
  the typed records above them; `Sound` and `Unsplit` say that free-form members contain no split surrogate pair.

## Where the code does something other than it says

* The development ledger is described as a hash chain that a host can verify; with the default read limit, the 102nd append
  is accepted, reuses sequence 100, and the file no longer verifies (`LedgerAcceptance.HundredAndSecondAppend`). The model
  keeps the limit.
* The key scan is said to mirror the JSON boundary limits; it does so exactly up to string lengths, leaf types, key types
  and sequence kinds, which it never looks at (`TraversalAgreement.CopyIsScanAndLeaves`).
* Requests accept any lease text while receipts demand digest form, so some allowed decisions can never be receipted
  (`LeaseFreedom.AllowedButUnreceiptable`).
* A request is valid with non-ASCII identifiers but cannot then be approved (`ApprovalBinding.ApprovableExactly`,
  `LeaseFreedom.UnapprovableRequest`), and comparing its receipt raises (`ReceiptGuarantees.ConformantExactly`).
* The file store answers a claim fresh again when padding separates a record from what is read back
  (`ReplayStores.SecondFileClaim`), and the read-then-write claim of the state store and the file protects nothing once
  two clients overlap (`ReplayProtocol.SplitSafeExactly`).

## Model

| member | source | states |
|---|---|---|
| TextTerms.StripExactly | govengine/_governance_validation.py:31-39 | stripping removes spacing at both ends, all of it (each code point listed), and nothing else |
| TextTerms.DigestForm | govengine/_governance_validation.py:134-142 | a digest is `sha256:` and 64 characters of 0123456789abcdef |
| TextTerms.DedupKeepsOrder | govengine/policy/enforcement.py:447 | removing repetitions keeps the order of first occurrences |
| CanonicalParser.ParserUndoesPrinter | govengine/signing.py:399-405 | for every printable value, parsing the printed text consumes all of it and returns the value's wire form |
| CanonicalParser.RoundTrip | govengine/signing.py:405 | the same with any following text that cannot continue a number, which is left unread |
| CanonicalParser.UnitsRoundTrip | govengine/signing.py:405 | any sequence of UTF-16 code units, escaped and quoted, reads back as itself |
| Readback.TextAmbiguity | govengine/signing.py:405 | two strings print alike exactly when joining their split surrogate pairs makes them equal; joining changes exactly the strings that contain such a pair |
| Readback.PrintInjective | govengine/signing.py:405 | readable values (no tuples, no split pairs) that print alike are equal |
| Readback.ReadIntBack | govengine/signing.py:405 | decimal text determines the integer, sign included |
| RecordText.CanonicalDenotes | govengine/signing.py:494-510 | an accepted value and its canonical form mean the same JSON value |
| RecordText.CanonicalOrderFree | govengine/signing.py:497-503 | values equal up to key order and tuple/list are accepted alike and have one canonical form |
| RecordText.SortKeysIsNoOp | govengine/signing.py:494-501 | the printer's own key sorting changes nothing, because the canonicaliser has sorted every dictionary |
| CanonicalTextForm.KeysAscend | govengine/signing.py:499-503 | of two keys of a canonical dictionary, the earlier one agrees with the later up to some place and there ends or has the smaller code point |
| CanonicalTextForm.PrintedKeysAscend | govengine/signing.py:395-405 | the same for every dictionary in what is printed: nested ones, the record itself and the four envelope names |
| CanonicalTextForm.CharacterPrints | govengine/signing.py:405 | one character is printed as itself, by a short escape, as four lower-case hexadecimal digits of its number, or as the two such escapes of its surrogate pair; each case by its code points |
| CanonicalTextForm.NumbersAccepted | govengine/signing.py:505-510 | exactly the integers from -9007199254740991 to 9007199254740991 and the finite floats are accepted |
| CanonicalTextForm.IntegerPrints | govengine/signing.py:405 | a minus sign exactly for negative integers, no leading zero, nothing but digits |
| CanonicalTextForm.EnvelopeText | govengine/signing.py:385-405 | the whole text: the printed record, the stripped type and the defaulted version in the envelope, spelled out |
| RecordText.TextBindsCanonicalForm | govengine/signing.py:385-405 | equal canonical texts come from equal types, versions and canonical records |
| RecordText.SameTextIffSameRecord | govengine/signing.py:385-405 | two accepted (type, version, record) triples print alike if and only if type and version agree and the records are equal up to key order and tuple/list |
| RecordText.DigestBinds | govengine/signing.py:408-420 | equal digests mean equal types, versions and records, unless the hash collides on the two texts |
| RecordText.FieldsBind | govengine/signing.py:494-510 | records with the same member names and one canonical form agree member by member |
| SignedRecords.EnvelopeFitsExactly | govengine/signing.py:423-441 | an envelope made for one record reaches the verifier with another record if and only if the two agree up to key order and tuple/list |
| SignedRecords.OneRecordPerEnvelope | govengine/signing.py:660-689 | one envelope vouches for at most one record, whoever verifies it |
| SignedRecords.NormalisedText | govengine/signing.py:327-350 | the type and version stored in the envelope give the text the digest was taken of |
| SigningTerms.MadeExactly | govengine/signing.py:327-350 | an artifact is made exactly of an owned type, a digest, a payload reference and a signature, not an integrity-only one, that names its signer and binds that digest |
| SigningTerms.VerifiedExactly | govengine/signing.py:660-689 | the verifier is asked, on the artifact's own values, exactly when the recomputed digest is the artifact's |
| AuditLedger.Verify | govengine/admission.py:624-656 | the loop that updates the previous digest returns the specified verification: first invalid entry, else first faulty link |
| AuditLedger.VerifiedIffIntact | govengine/admission.py:624-656 | the answer is "verified" exactly for a non-empty chain of valid entries, each numbered by its position, linked to its predecessor and carrying its own digest |
| LedgerTerms.EntryExactly | govengine/admission.py:830-861 | an entry is valid exactly when its number, version, links, kind and type (each listed), record digest and own digest are in order |
| LedgerTerms.VerifiedExactly | govengine/admission.py:624-656 | the answer carries the number of entries and the last name and digest, exactly for entries in form that are numbered, linked and digested one by one; "empty" exactly without entries |
| LedgerTerms.FailedExactly | govengine/admission.py:629-647 | the reason given is the first unmet condition of the first entry out of its chain: number, then link, then digest |
| AuditLedger.PrefixIntact | govengine/admission.py:624-656 | every non-empty prefix of a verified ledger verifies |
| AuditLedger.EntryFieldsBind | govengine/admission.py:909-933 | equal entry digests determine the two entries field by field, except their own digest member |
| AuditLedger.HeadDigestDeterminesLedger | govengine/admission.py:624-656 | two intact chains with one head digest have the same length and agree entry for entry |
| AuditLedger.SameHeadSameLedger | govengine/admission.py:624-656 | two ledgers that verify and report the same last entry digest are the same sequence, metadata up to key order |
| LedgerAdapter.JsonlAuditLedgerAdapter.Read | govengine/admission.py:599-622 | the line-by-line loop returns the specified page or error |
| LedgerAdapter.JsonlAuditLedgerAdapter.Append | govengine/admission.py:558-597 | the file is unchanged exactly when the call is not an acceptance; else it is one entry longer, and that entry is valid, has its own digest and is numbered and linked by what was read |
| LedgerAdapter.PageExact | govengine/admission.py:599-622 | a page of valid entries is the first `limit` entries behind the named one, or nothing if it is absent |
| LedgerTerms.ReadExactly | govengine/admission.py:599-622 | a read ends when its page is full; before that a line that is no JSON or no valid entry ends it with that error |
| LedgerTerms.BlankLinesAreIgnored | govengine/admission.py:607-610 | blank lines change no read |
| LedgerAdapter.PagesContinue | govengine/admission.py:599-622 | reading behind the last entry of a page continues exactly there: nothing skipped, nothing repeated |
| LedgerAdapter.AppendExact | govengine/admission.py:558-597 | anything but an acceptance leaves the file as it was; an acceptance adds one valid entry numbered and linked by the first 100 entries |
| LedgerTerms.StoredExactly | govengine/admission.py:576-597 | member by member what an accepted append stores: name and number, links, stripped digests, metadata, the record as read back |
| LedgerAdapter.AppendVerifiesIff | govengine/admission.py:558-622 | an accepted append on a verified ledger of n entries gives a verified ledger if and only if n <= 100 |
| LedgerAdapter.RunsVerifyUpToTheReadLimit | govengine/admission.py:558-656 | over any run of appends from an empty file, the whole file verifies exactly while it holds 1 to 101 entries |
| LedgerAdapter.TrueHeadRejected | govengine/admission.py:567-575 | from 101 entries on, on every verified ledger and every file built by appends, a caller that names the true head digest is rejected and nothing is written |
| LedgerAdapter.RunHeadRejected | govengine/admission.py:567-575 | the same over any run of appends from an empty file |
| LedgerAcceptance.AppendAcceptedExactly | govengine/admission.py:558-597 | an append is accepted if and only if the record is valid and unchanged by being read back, its digest is the supplied one, the event digest is absent or in form, the named head is absent or the one seen, and the adapter metadata is clean |
| LedgerAcceptance.RereadIsStable | govengine/admission.py:331-353 | a record that has been read back once is no longer changed by reading |
| LedgerAcceptance.RepeatedAppends | govengine/admission.py:558-597 | one acceptable request without a named head is accepted every time, n entries after n appends, for every n |
| LedgerAcceptance.HundredAndSecondAppend | govengine/admission.py:558-656 | on any host whose key check lets empty and adapter metadata through, 102 accepted appends of one record: the first 101 leave a ledger that verifies, the last one a ledger that does not |
| BoundedTraversal.FindBoundedKey | govengine/_governance_validation.py:210-248 | on any object graph, cyclic ones included, the stack loop answers as the recursive pre-order definition with one node counter, in at most `max_nodes` + 1 iterations |
| BoundedTraversal.FirstForbiddenKey | govengine/_governance_validation.py:238-241 | the key loop returns the first forbidden key in item order, or none |
| BoundedTraversal.StackStep | govengine/_governance_validation.py:227-247 | popping one object and pushing its children reversed preserves the answer of the whole stack |
| BoundedCopy.JsonCopier.Walk | govengine/_json_boundary.py:32-69 | the recursive walk returns the specified copy or breach and advances the shared counter accordingly |
| BoundedCopy.CopyFromExact | govengine/_json_boundary.py:32-69 | from any depth and count, success is exactly: all bounds hold below and the running count stays within the limit; the count then grows by the size |
| BoundedCopy.CopyExact | govengine/_json_boundary.py:22-71 | the copy succeeds exactly when node count, depth, collection and string lengths, key types and leaf types are in bounds; the result is the value with tuples as lists and means the same |
| BoundedCopy.CopyIsFixedPoint | govengine/_json_boundary.py:22-71 | copying an accepted copy, with or without tuples allowed, returns it unchanged |
| TraversalAgreement.ScanFromExact | govengine/_governance_validation.py:210-248 | within the shape limits, the scan clears a value exactly when no key in it is forbidden, and counts its nodes |
| TraversalAgreement.ScanListed | govengine/_governance_validation.py:210-248 | the scan answers and counts the same before and after copying |
| TraversalAgreement.ScanAgreesWithCopy | govengine/_governance_validation.py:210-248 | on any value the copy accepts, the scan never reports a limit, agrees before and after the copy, and is clear exactly when no key is forbidden |
| TraversalAgreement.CopyIsScanAndLeaves | govengine/_governance_validation.py:210-248 | on values without forbidden keys the copy accepts exactly what the scan clears and whose leaves, keys and sequence kinds fit: how far the scan mirrors the boundary |
| TraversalAgreement.PairsHook | govengine/_json_boundary.py:88-97 | a dictionary is built exactly from distinct names; otherwise the first repeated name is reported |
| TextTuples.TextTuple | govengine/_governance_validation.py:171-181 | the loop accepts exactly lists of non-blank strings that stay distinct once stripped, and returns them stripped, in order |
| TextTuples.DistinctCount | govengine/_governance_validation.py:179 | comparing the length with the size of the set detects exactly the repetitions |
| TextTuples.TextTupleIsStable | govengine/_governance_validation.py:171-181 | taking an accepted list again changes nothing |
| ArmorScan.ContainsArmor | govengine/_trust_references.py:85-105 | the loop with a bounded carry is true exactly when some marker occurs in the concatenated label letters between successive delimiters; it ends because the opening position grows |
| ArmorScan.CarrySuffices | govengine/_trust_references.py:15-18 | a carry of the longest marker length minus one loses no occurrence across a seam |
| ArmorScan.ArmouredIffLabelled | govengine/_trust_references.py:85-105 | that label text contains a marker exactly when the letters between the first and the last run of five dashes do |
| ArmorScan.LabelTextIsSpan | govengine/_trust_references.py:86-104 | the labels, concatenated, are the letters between the first and the last delimiter |
| ArmorTerms.FoundExactly | govengine/_trust_references.py:85-105 | a reference is armoured exactly when the letters between two runs of five dashes contain PRIVATEKEY, PUBLICKEY or CERTIFICATE |
| ArmorTerms.KeptLetters | govengine/_trust_references.py:97-101 | of any text exactly the letters A to Z are kept, character by character |
| ArmorTerms.HeadersAreFound | govengine/_trust_references.py:85-105 | a BEGIN header for a private key, a public key or a certificate between dash runs is found, whatever stands before, inside and behind |
| Replay.EvaluateExact | govengine/replay.py:397-459 | a claim is fresh exactly when no stored record is related; otherwise the decision comes from the earliest related one |
| ReplayTerms.FreshExactly | govengine/replay.py:412-458 | a claim is fresh exactly when no earlier record has its key together with its non-empty payload digest in the same ticket (or chain without tickets), or with its root tag and chain |
| ReplayTerms.RepeatedExactly | govengine/replay.py:422-457 | any other claim is answered by the earliest such record, blocked where freshness is required, under the blocker that says whether payload or root was repeated |
| ReplayTerms.OtherPayloadsAreFresh | govengine/replay.py:415-442 | another key, or both another root tag and another payload digest, is never a replay |
| ReplayTerms.SeenPayloadIsNotFresh | govengine/replay.py:405-410 | a payload guarded again under a new root tag is not fresh, nor is a seen root with another payload |
| ReplayTerms.OneMemberApart | govengine/replay.py:412-442 | which single and paired changes of a seen record make it fresh, and which blocker the others meet |
| Replay.RelatedNotTransitive | govengine/replay.py:412-430 | three records, neighbours related, the outer two not |
| Replay.InMemoryReplayClaimStore.ClaimOnce | govengine/replay.py:135-145 | fresh exactly when nothing stored is related, the record then added at the tail; otherwise nothing is stored, the earliest related record is reported and the claim is allowed exactly if freshness is not required |
| Replay.RunKeepsUnrelated | govengine/replay.py:135-145 | over any sequence of claims the stored records stay pairwise unrelated and grow at the tail by exactly the fresh answers |
| Replay.DecisionAt | govengine/replay.py:135-145 | the k-th decision is taken against the store left by the first k claims |
| Replay.ClaimOnceGuarantee | govengine/replay.py:135-145 | after a fresh answer, a related later claim is never fresh, is blocked when freshness is required, and reports the earliest related stored record |
| Replay.FreshIsStored | govengine/replay.py:135-145 | a record answered fresh is in the store from then on |
| ReplayStores.FromMappingNormalises | govengine/replay.py:41-64 | whatever is read back is stripped, with defaults filled in |
| ReplayStores.RecordRoundTripIff | govengine/replay.py:41-70 | writing a record and reading it back returns it exactly when it is normalised |
| ReplayTerms.RecordReadExactly | govengine/replay.py:42-54 | a stored record is read exactly when root tag, chain and key are not blank, else raises for the first that is |
| ReplayTerms.RecordReadMembers | govengine/replay.py:55-68 | what is read, member by member, with the defaults and the older profile name |
| ReplayStores.StoreRoundTrip | govengine/replay.py:357-394 | writing normalised records and loading them returns the same records, for both store formats |
| ReplayTerms.FileReadExactly | govengine/replay.py:376-394 | a file is let through exactly with the right type, version and a list of nothing but readable records, which it gives in order |
| ReplayTerms.StateReadExactly | govengine/replay.py:357-365 | a state store gives its readable records and passes over items that are none |
| ReplayTerms.WrittenExactly | govengine/replay.py:368-373 | what is written: type, version, and every member of every record under its name |
| ReplayStores.GovStateStore.RecordGuardReplay | govengine/replay.py:462-476 | raises exactly when the document cannot be read; fresh exactly when nothing read is related; the document then reads back as the old records and the new one, and is otherwise unchanged |
| ReplayStores.ReplayFile.RecordGuardReplay | govengine/replay.py:479-511 | an unreadable file blocks and stays as it was; on a readable one, fresh exactly when nothing read is related, the file then loading as the old records and the new one, and otherwise unchanged |
| ReplayStores.StoresAgree | govengine/replay.py:462-511 | on normalised records the in-memory, state-store and file versions give the same decisions on every sequence of claims |
| ReplayStores.CorruptFileBlocks | govengine/replay.py:486-500 | a corrupt file blocks every claim of every sequence and is never changed |
| ReplayTerms.UnreadableFileAnswers | govengine/replay.py:491-511 | what an unreadable file answers, by the way it cannot be read, and that a missing one is empty |
| ReplayStores.SecondFileClaim | govengine/replay.py:479-511 | on any readable file that answered a claim fresh, the same claim again is recognised exactly when the record can be reloaded and padding does not reach the compared members, answered fresh exactly when padding does, and blocked exactly when it cannot be reloaded |
| ReplayStores.PaddedRootTagForgotten | govengine/replay.py:41-70 | a concrete padded record whose second file claim is answered fresh again |
| ReplayProtocol.AtomicRunsAreSafe | govengine/replay.py:100-116 | with atomic claims, in every interleaving any two claims answered fresh are for unrelated records |
| ReplayProtocol.SplitSafeExactly | govengine/replay.py:471-476 | every interleaving of the read and write steps is safe if and only if no two of the claims are related |
| ReplayProtocol.OverlapAnswersBothFresh | govengine/replay.py:471-476 | two clients that both read before either writes are both answered fresh, whatever they claim |
| ReplayProtocol.UndisturbedRunsRefine | govengine/replay.py:471-476 | every run in which each write meets the store it read is an atomic run of the same claims |
| ReplayProtocol.UndisturbedRunsAreSafe | govengine/replay.py:471-476 | so two related fresh answers need a write over a store the writer had not read |
| ReplayProtocol.SerialRunsRefine | govengine/replay.py:471-476 | any serial schedule of the two-step protocol is the atomic protocol |
| GovernanceRecords.EqualDigestsSameFields | govengine/governance.py:329-345 | equal digests of records of one type: the same members with the same meaning |
| GovernanceRequests.ApprovalTrustHasNoGaps | govengine/approvals.py:327-348 | an approval valid at two instants is valid at every instant between them |
| RequestTerms.ValidRequestExactly | govengine/governance.py:348-453 | a request is valid exactly when each name and digest is given, inputs are bounded and clean, the six digests are recomputed, the nested records belong to it, and an approval is for it |
| EvaluationTerms.AttestationExactly | govengine/approvals.py:351-398 | an approval is in form exactly when all its names, digests, epoch, effect and the order of its three instants are |
| EvaluationTerms.ApprovesExactly | govengine/approvals.py:401-448 | it approves a request exactly when the recomputed subject and the ten values agree, each present and in ASCII |
| EvaluationTerms.ApprovalValidExactly | govengine/approvals.py:286-348 | it is valid exactly when in form, for this subject, under the digest stated, from a trusted role, domain and approver, signed where required, open at this instant and not revoked |
| ApprovalBinding.DigestsRecomputed | govengine/governance.py:403-437 | the six digests a valid request states are the digests of its own nested records |
| ApprovalBinding.SubjectFixesRequest | govengine/governance.py:403-525 | two valid requests with the same subject agree in policy pack, facts, scope, scope policy, requirements and inventory: in everything but the approval |
| ApprovalBinding.ApprovalBindsSubject | govengine/approvals.py:401-448 | an approval bound to two requests is bound to one subject |
| ApprovalBinding.ApprovalBindsRequest | govengine/approvals.py:286-448 | an approval valid for two requests, at whatever times and trust policies, approves one request |
| RecordMembers.ApprovalFixesMembers | govengine/governance.py:505-525 | one approval valid for two requests: every member but the approval is the same, member by member |
| RecordMembers.ApprovalDigestIsIdentity | govengine/approvals.py:271-283 | two approvals with one digest are one approval |
| ApprovalBinding.AttachKeepsSubject | govengine/governance.py:438-525 | attaching an approval leaves the subject and every check but the approval's own unchanged |
| ApprovalBinding.SubjectDigestible | govengine/governance.py:329-335 | a subject has a digest exactly when both epochs are exact in a double |
| ApprovalBinding.ApprovableExactly | govengine/approvals.py:442-448 | a valid request can be approved at all if and only if its operation, step and attempt ids are ASCII and its lease epoch is exact in a double |
| ApprovalBinding.PolicyEpochIsSafe | govengine/governance.py:423-542 | validation already demands a policy epoch that is exact in a double |
| LeaseFreedom.IdsAreFree | govengine/governance.py:357-365 | a valid request without an approval stays valid under any lease and any attempt id that is not blank |
| LeaseFreedom.UnapprovableRequest | govengine/approvals.py:442-448 | under any attempt id outside ASCII it is still valid and can no longer be approved |
| GovernanceDecisions.AdmitPolicyExecution | govengine/policy/enforcement.py:424-465 | the list-building plan computation returns the specified plan |
| GovernanceDecisions.PlanIsConsistent | govengine/policy/enforcement.py:438-465 | a plan is allowed exactly when nothing blocks it; only an allowing verdict gives one; its reason is never empty |
| GovernanceDecisions.DecisionOutcome | govengine/governance_decision.py:821-854 | allowed exactly when the verdict does not deny and every gate is open, `approval_required` exactly when only an approval is missing; blockers are empty exactly for allowed outcomes and otherwise exactly the distinct reasons of the plan and the closed gates |
| EvaluationTerms.OutcomeExactly | govengine/governance_decision.py:841-854 | which gate gives status and reason: plan, scope, capability, missing approval, and last the plan for a verdict that asks |
| DecisionGuarantees.FoundApproval | govengine/governance_decision.py:767-797 | the approval an evaluation uses is the attached one, valid at the evaluation time |
| EvaluationTerms.ActiveExactly | govengine/governance_decision.py:705-764 | the activation check passes exactly for an active binding of the request's policy, version, digest and epoch, for v1 packs from the same issuer and within the declared window, that is open at this instant, and gives its expiry |
| EvaluationTerms.EvaluatedInForce | govengine/governance_decision.py:510-550 | a decision exists only under such a binding and on facts that name the request's transaction and attempt |
| EvaluationTerms.EvaluatedApproval | govengine/governance_decision.py:767-797 | a decision on an approved request exists only if the approval is in form, for this subject, trusted at the time and signed |
| EvaluationTerms.ApprovalUsedExactly | govengine/governance_decision.py:767-797 | an attached approval is used exactly when the host's three ports are there and accept it |
| EvaluationTerms.ResolvedExactly | govengine/governance_decision.py:800-818 | only a required approval is resolved, into an allowance with no blockers that names the approval digest |
| EvaluationTerms.PlanBlockersExactly | govengine/policy/enforcement.py:429-450 | a plan's blockers are exactly the verdict's, a pack or version mismatch, the reason of a verdict that does not allow, or of a failing projection |
| EvaluationTerms.PlanAllowedExactly | govengine/policy/enforcement.py:424-465 | a plan is allowed exactly for an allowing verdict of this pack and version without blockers whose controls can be projected, and then carries these |
| EvaluationTerms.BlockedPlanExactly | govengine/policy/enforcement.py:429-464 | a plan that is not allowed: its reason is the verdict's or the failing projection's, its controls the projected ones or the default ones, each listed |
| EvaluationTerms.GrantedExactly | govengine/governance_decision.py:857-912 | an authorization is issued exactly for a nonce of 1 to 256 characters and an expiry at most 60 seconds ahead and within activation and approval |
| EvaluationTerms.DecisionMembers | govengine/governance_decision.py:573-622 | which verdict, plan, gate and trace each digest of a decision belongs to, and its names |
| DecisionGuarantees.PlanFollowsVerdict | govengine/governance_decision.py:800-818 | only an approval requirement is resolved by an approval; a denying verdict never yields an allowed plan |
| DecisionGuarantees.AllowedExactly | govengine/governance_decision.py:821-854 | a returned decision is allowed if and only if plan, scope and capability pass and any required approval is attached (a denying verdict is then impossible); likewise the exact condition for `approval_required` |
| DecisionGuarantees.ApprovalNeverRescues | govengine/governance_decision.py:534-590 | attaching an approval keeps denied denied and allowed allowed, and settles a pending decision by the plan for the resolved verdict, for any two evaluation times |
| DecisionGuarantees.AllowedMutationIsApproved | govengine/governance_decision.py:534-590 | every allowed mutation carries the digest of an approval valid at the evaluation time |
| DecisionGuarantees.AllowedMeansAuthorized | govengine/governance_decision.py:583-593 | exactly the allowed decisions carry an authorization |
| DecisionGuarantees.AuthorizationWindow | govengine/governance_decision.py:857-955 | issued < expires <= issued + 60 s, and expires is no later than the policy activation, a v1 pack's declared window and the approval |
| DecisionGuarantees.RefusalsAreExplained | govengine/governance_decision.py:832-854 | an outcome has blockers exactly when it is not `allowed`, and its reason is never empty |
| DecisionGuarantees.EvaluationReturnsExactly | govengine/governance_decision.py:595-690 | the closing validation rejects nothing: evaluation returns if and only if the request is valid, a decision can be drafted and the draft has a digest |
| DecisionGuarantees.ClosingValidationAccepts | govengine/governance_decision.py:619-623 | what evaluation returns is its draft with the draft digest filled in |
| DecisionGuarantees.OutcomeIsNamed | govengine/governance_decision.py:841-854 | whatever the outcome, its reason code starts with a letter, so it is never blank |
| DraftDigests.EvaluationReturnsWhen | govengine/governance_decision.py:510-623 | evaluation returns if and only if the request is valid, a decision can be drafted and the projected controls have a finite timeout and limits exact in a double |
| EvaluationReturns.FoundExactly | govengine/governance_decision.py:523-572 | evaluation finds what it needs exactly under an activation in force, on its own facts, with a verdict in form or settled by the approval, an approval in order and gates that answer |
| EvaluationReturns.ReturnsExactly | govengine/governance_decision.py:510-622 | evaluation returns exactly when, besides, the request has a digest, the verdict is in form, an authorization is properly asked for where the gates are open, and the controls are digestible |
| LeaseFreedom.EvaluationIgnoresLease | govengine/governance_decision.py:510-623 | without an approval, evaluation gives the same status, reason and blockers under every lease that is not blank, and an authorization that carries the lease |
| DecisionGuarantees.DraftIsBound | govengine/governance_decision.py:958-1014 | a built decision is bound to its request in digest and all fourteen authorization members |
| RequestTerms.GrantExactly | govengine/governance_decision.py:915-955 | an authorization is valid exactly with all its names and digests, for single use, over at most 60 seconds |
| RequestTerms.ValidDecisionExactly | govengine/governance_decision.py:633-690 | a decision is valid exactly with all its names and digests, an authorization and no blockers if allowed and the reverse if not, and its own digest |
| RequestTerms.DecisionForExactly | govengine/governance_decision.py:958-1014 | it is for a request exactly when it names its transaction and digest and its authorization repeats fourteen of its values |
| ReceiptConformance.BuiltReceiptIsValid | govengine/receipt_conformance.py:279-352 | building succeeds exactly when the shape is right and the record has a digest, and returns the receipt with its own digest, which validates |
| ReceiptConformance.BindingCheck | govengine/receipt_conformance.py:602-618 | one binding extends exactly one of the two lists, or raises on non-ASCII text |
| ReceiptConformance.CheckBindings | govengine/receipt_conformance.py:381-483 | the loop collects the agreeing names and the failing names, in order, and raises exactly when some pair cannot be compared |
| ReceiptConformance.EvaluateConformance | govengine/receipt_conformance.py:355-512 | the list-filling evaluation returns the specified result or error |
| ReceiptGuarantees.EachBindingReportedOnce | govengine/receipt_conformance.py:381-483 | each of the sixteen bindings is in `checks` under its own name exactly when it agrees and in `failures` under its own name exactly when it does not |
| ReceiptTerms.ValidReceiptExactly | govengine/receipt_conformance.py:343-352 | a receipt is valid exactly when its names, digests, counts, status and at most 16 distinct named outputs are in form and it carries its own digest |
| ReceiptTerms.BindingsToldExactly | govengine/receipt_conformance.py:380-472 | for each of the sixteen pairs of names, which two values it compares |
| ReceiptTerms.OutputsToldExactly | govengine/receipt_conformance.py:484-497 | the limit is reported exceeded exactly if 0 < limit < bytes and kept otherwise; required, optional and missing output digests and a refused decision are told under their names |
| ReceiptTerms.ResultExactly | govengine/receipt_conformance.py:499-512 | the result names decision, receipt and permit; its status and reason follow from its failures |
| ReceiptGuarantees.ConformantExactly | govengine/receipt_conformance.py:374-512 | evaluation raises exactly for non-ASCII identifiers; otherwise conformant means: allowed, all sixteen bindings agree, output obligations hold |
| ReceiptTerms.ConformsExactly | govengine/receipt_conformance.py:355-512 | a receipt conforms exactly for a valid allowed decision with all sixteen values, with outputs where they are required and with no more bytes than a positive limit |
| ReceiptGuarantees.ReceiptableExactly | govengine/receipt_conformance.py:543-557 | an allowed decision has some conformant receipt if and only if its lease id has digest form and its four identifiers are ASCII |
| LeaseFreedom.AllowedButUnreceiptable | govengine/receipt_conformance.py:543-557 | one allowed decision without an approval gives an allowed decision for every lease, and exactly those with a lease in digest form and ASCII identifiers can be receipted |
| EndToEnd.DecisionDigestIsIdentity | govengine/governance_decision.py:1017-1047 | two valid decisions with one digest are one decision |
| EndToEnd.OneDecisionPerReceipt | govengine/receipt_conformance.py:377-483 | a receipt conforms to only one decision and only one permit |
| EndToEnd.OneRequestPerDecision | govengine/governance_decision.py:958-965 | a decision validates against only one request |
| RecordMembers.RequestDigestIsIdentity | govengine/governance.py:338-345 | two requests with one digest are one request member by member, approval included |
| RecordMembers.DecisionFixesMembers | govengine/governance_decision.py:958-975 | a decision validates against one request only, in every member |
| RecordMembers.ReceiptDigestIsIdentity | govengine/receipt_conformance.py:330-340 | two valid receipts with one digest are one receipt, its outputs in whatever order |
| EndToEnd.ReceiptFixesTransaction | govengine/receipt_conformance.py:377-483 | a conformant receipt leads to one decision and one request, carries that request's fourteen values, and an approval valid for that request is valid for no request that differs in more than the approval |
| TypedExecution.PolicyControls | govengine/typed_execution_governance.py:1148-1366 | the control list, built by appending and renaming in place, is the specified one |
| TypedExecution.BlockersExactly | govengine/typed_execution_governance.py:799-913 | which blockers a request meets: approval and backend blockers follow from side effect and backend alone; any other blocker exactly when a plain control fails |
| TypedExecution.OneApprovalBlocker | govengine/typed_execution_governance.py:1121-1145 | the merged blockers of a mutation contain exactly one approval blocker |
| TypedExecution.AdmitTypedExactly | govengine/typed_execution_governance.py:961-1019 | typed admission admits exactly the non-mutations all of whose controls pass, never a mutation, and names the first blocker otherwise |
| TypedTerms.ReportedExactly | govengine/typed_execution_governance.py:799-900 | for each of the twenty-four blockers, the exact condition on the request's members under which it is reported, network and destination included |
| TypedTerms.AdmittedExactly | govengine/typed_execution_governance.py:961-1019 | admission in plain terms: no mutation, a built-in backend on the list, digests, receipt, posture, egress listed by the policy that outbound traffic needs, a declared destination the policy admits, secrets there and capabilities covered |
| TypedTerms.ReasonExactly | govengine/typed_execution_governance.py:967-974 | the reason is the first of missing digest, posture, receipt and approval that applies |
| TypedExecution.PrecheckExactly | govengine/typed_execution_governed_admission.py:726-765 | after the posture checks the v0.1 precheck succeeds exactly when every control but the approval one passes; its missing-approval-blocker error is unreachable |
| TypedTerms.PrecheckedExactly | govengine/typed_execution_governed_admission.py:726-766 | the v0.1 precheck in plain terms, its posture included, and the one blocker it discounts |
| TypedExecution.PluginPrecheckExactly | govengine/typed_execution_governed_admission.py:1645-1758 | after the posture checks the v0.2 precheck succeeds exactly when three digests are present, a receipt is required and the destination holds; the approval-count, backend and discount-count errors are unreachable |
| TypedTerms.PluginPrecheckedExactly | govengine/typed_execution_governed_admission.py:1645-1758 | the v0.2 precheck in plain terms: plugin posture, requirements and inventory included |
| TypedExecution.PluginPassesPlainControls | govengine/typed_execution_governed_admission.py:1661-1708 | for a governed plugin the network, secret and coverage controls pass by themselves |
| GovernedAdmission.DecisionBlockers | govengine/typed_execution_governed_admission.py:1761-1784 | the accumulated blocker list is the specified one, for both versions |
| GovernedAdmission.BlockersShowExpiry | govengine/typed_execution_governed_admission.py:1776-1784 | for an allowed decision the blocker lists of two instants are equal exactly when both lie on the same side of the expiry |
| GovernedAdmission.ValidityOverTime | govengine/typed_execution_governed_admission.py:485-717 | an admission that validates once validates at another instant exactly when that is not before the admission and, if there is an authorization, on the same side of its expiry |
| GovernedAdmission.AdmissionValidity | govengine/typed_execution_governed_admission.py:1282-1636 | a returned admission, of either version, passed or blocked, validates again at `now` exactly when now >= admission and (no authorization, or both on one side of the expiry) |
| AdmissionTerms.BindingExactly | govengine/typed_execution_governed_admission.py:774-824 | the facts' metadata names the typed request's digest and the mode, and five values agree; exactly then the two requests are bound |
| AdmissionTerms.EvaluatedExactly | govengine/typed_execution_governed_admission.py:342-399 | an evaluation returns exactly when the typed request has its shape, the mode is known, the times are in order, the precheck passes, the facts name both, and there is a governance decision, which it returns |
| AdmissionTerms.AdmissionMembers | govengine/typed_execution_governed_admission.py:399-482 | a returned admission member by member: mode, 27 repeated values, times, which blockers it carries and when it passed |
| AdmissionTerms.ShapeExactly | govengine/typed_execution_governed_admission.py:827-929 | the shape check: every name, digest, discounted blocker, plugin list, time and reason, condition by condition |
| AdmissionTerms.ValidatedExactly | govengine/typed_execution_governed_admission.py:485-717 | an admission validates exactly when it is tied to its records value by value, was made between issue and now, and carries the blockers of now |
| AdmissionTerms.ValidatedIsUnique | govengine/typed_execution_governed_admission.py:485-717 | validation leaves no choice: two admissions of one stated time that validate against the same records at one instant are equal |
| GovernedCompletion.EvaluationCompletes | govengine/typed_execution_governed_admission.py:342-482 | once its checks pass and the decision is made, a governed evaluation returns: the closing validation rejects neither a passed nor a blocked admission, in either version |
| GovernedCompletion.ProjectionIsInShape | govengine/typed_execution_governed_admission.py:827-929 | what evaluation builds passes the shape check of its version |
| RunState.RunsKeepInvariant | govengine/state_machine.py:181-200 | over any run, the record is a function of the legal transitions applied |
| RunState.LegalRunsAreAccepted | govengine/state_machine.py:166-200 | every legal sequence of transitions is accepted in full, so runs reach exactly the legal histories |
| RunTerms.AppliedExactly | govengine/state_machine.py:22-34 | the nineteen edges one by one, when a transition is applied, and every member of what it leaves |
| RunTerms.ControlledExactly | govengine/control.py:113-141 | a control decision is applied exactly when it is a step of the run that fits its action, or only records |
| RunState.CompletionIsEarned | govengine/state_machine.py:23-34 | a completed run has, since it was last blocked, been admitted, policy checked, trust checked, gated, dry run and receipted, in that order, ending gate, dry run, receipt, completion |
| RunState.DryRunsAreGated | govengine/state_machine.py:166-178 | every entry to the dry run comes straight from `gated` with a runner gate decision |
| RunState.RunRecordsExactly | govengine/state_machine.py:181-200 | event references and blockers are exactly what the transitions recorded; a run is flagged exactly when blocked now or once blocked with a reason other than `ok` |
| RunState.RunsOnlyExtend | govengine/control.py:113-141 | over any continuation event references extend, blockers never shrink, a flagged run with blockers stays flagged, a completed run never changes |

## Left out

- SHA-256 itself, signatures, key resolution, trust stores and `signature_transition_decision`: the hash and the verifier
  are functions, and the rest is single-branch policy.
- JSON reading by the host library, files and clocks: the ledger file is a sequence of lines, the replay file a decoded
  document or a load failure, time an integer. Key order of metadata after a reload is not modelled.
- `upper`, `casefold` and other Unicode tables: functions on texts. White space is Python's, written out.
- `validate_opaque_trust_reference` outside the marker scan (length, character categories, namespaces).
- `from_mapping` constructors of the governance and typed records: a model record is one that was constructed. Members of
  nested records that no check reads are one value, `rest`.
- The policy compiler, engine and `project_runtime_controls`, scope and capability evaluation, the governance trace, and
  `compose_runtime_admission_result`: functions of their inputs.
- Digests of verdicts, plans, traces, typed requests, their projections and admissions are abstract functions of the
  record; request, subject, approval, decision, receipt, ledger and nested request digests are computed.
- Typed-execution free-form mappings (metadata, network policy, destination) are given as they are read.
- The type tests of dataclass members (a bool where an int is due, a number where a text is due): the model is typed.
- CLI, projections for display, registries, profiles, OODA and supervisor tables.
- GovernedAdmission.AdmissionValidity: the thirty-odd member comparisons of a governed admission are one comparison of a record of those members, so which mismatch is named first is not modelled; outside the precheck, v0.2 checks that v0.1 also has raise under the v0.1 reason.
- GovernanceDecisions.EvaluateGovernance: the parts of evaluation that only feed the trace (plan admission record, trace) cannot fail in the model.
- LedgerAdapter.NewEntry: the stored record type, kind and version are not read back through the case-folding enumeration lookup, since only exact names pass validation before.
- GovernanceRequests.ValidateRequest: checks on members kept in `rest` run before the modelled checks of the same nested record, so the first reason can differ when both fail.
