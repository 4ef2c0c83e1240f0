# Guardrail evidence: a verified model

The library guards function calls and keeps a journal of signed, hash-chained
evidence about them. Writers (guarded calls, checkpoints, key rotations, in
several processes) append events under a file lock; readers (the verifier, the
auditor, the privacy inspection) judge the journal later, perhaps after someone
altered it. This project models both sides in Dafny and proves that they agree.

`dafny verify dfyconfig.toml` checks everything.

## How the model is laid out

- `Evidence`, `Json`, `Wrappers`: events, payloads, digests and signatures; JSON
  values. An event is a dictionary: its nested objects are in key order and its
  floats are number texts, so two events are the same dictionary exactly when
  they are equal.
- `JsonText`, `JsonTextLaws`, `Utf8`, `EventText`, `TextLaws`: a JSON printer with
  default and compact separators, a prefix decoder, UTF-8, the canonical text of an
  event, and what these texts are, character by character.
- `Verification`, `Chain`, `Tamper`: the verifier's loop as methods over lines,
  proved equal to a fold; which files it accepts; what an altered file that still
  verifies can hold.
- `IssueLaws`, `WitnessLaws`: what each issue of the verifier means, and which
  witnesses it takes, told from the events alone.
- `Audit`, `AuditLaws`, `ReportLaws`: the auditor's loops and tables, what each status
  and an empty issue list mean, and every field and issue told from the events alone.
- `Protocol`, `Safety`, `EndToEnd`, `LateLines`, `Guarantees`: the journal protocol
  as a step system. A worker moves through notification, canonicalization, identity
  files, approval, locked append (acquire, read, build and write, release), the
  target's execution and the outcome; any step of any worker may come next, a
  worker may be interrupted and a process may die between any two steps, every file
  operation may fail and leave a damaged key or witness file, an append may report
  failure after its line is stored, and a line may stay in the buffer of its file
  until that is closed, after the lock was released. The invariant, and what it
  means for readers and callers over every run; exactly which runs verify.
- `Records`, `Approvals`, `Notices`: over every run, what each event holds and each
  invocation says, which answer a recorded decision is, and what was told to whom.
- `TailReader`, `FileJournal`: the file as bytes. The backward reader with its
  doubling window, the forward scan it replaces, the line counter, the line
  format, and the journal object whose methods append in place.
- `Observer`, `Identity`, `IdentityLaws`, `Preparation`, `Engine`: the once-tracker,
  the evidence home and the guard as objects with mutable fields, and the way from
  host values to what is recorded. Each method of the guard is proved to be a run of
  the step system, so the results over all runs hold of it.
- `Canonical`, `CanonicalLaws`, `NodeLaws`, `Secrets`: redaction and canonicalization
  in one traversal of a heap of objects with identity, where sharing and cycles are
  real; the same results said of each kind of object.
- `Summary`, `NamesRead`: the bounded summary and the parser that reads one back.
- `Redaction`, `Scrub`, `ScrubLaws`: cutting texts, and scrubbing secrets out of
  error text.
- `Privacy`, `PrivacyLaws`, `InspectionLaws`, `Disclosure`: the retention list, the two
  classifiers, the inspection of a journal, and what its answer means for every run.
- `Consistency`: a witness that the assumptions hold together.

Loops of the source are loops here, proved equal to recursive functions; the
properties are proved about those functions. The modules named Laws say what the
functions give without calling them: on the events, the files, the host objects and
the texts themselves.

## Assumptions

Each is a named predicate that the lemmas using it require.
`Consistency.AssumptionsHoldTogether` shows that the first six can hold at once.

- `IdealDigest`: the digest is injective on events. `EventText.HashedTextIsIdeal`
  derives it from a hash without collisions on the UTF-8 bytes of the canonical text.
- `SoundSigning`: a signature verifies under the key that made it.
- `DistinctKeyIds`: different keys have different key ids, which are prefixes of
  fingerprints in the source.
- `FaithfulText`: the host's `str()` of a string is that string.
- `LineSafe`: what the journal needs of its line format.
  `FileJournal.CanonicalCodecIsLineSafe` derives it for the format of the library.
- `CanonicalCodec`: the line format is canonical JSON text in UTF-8, read back by
  the JSON parser.
- `OnlyWritersSigned`, about one altered journal: each of its events whose
  signature verifies under the trusted key it names has the digest of an event of
  one of the given honest journals. It says nothing about signatures the journal
  does not hold.
- `IdentifierLike`: an identifier is not empty and holds no equals sign.
- `Legible`, `LegibleCall`, `FloatsReadBack`: the text of a float is the one the
  host prints, so it reads back as the same float.
- Event ids are fresh: an append in the step system draws an id that no line has,
  in the journal or in a buffer.
- The folding of names, `isidentifier`, `int()` of strings and floats, and the
  comparison of an integer with a float are function parameters about which
  nothing is assumed.

## What the code does where one might expect otherwise

- The format document says that names are lowercased before matching
  (docs/EVIDENCE_FORMAT.md:43); the code folds them with a lookalike table as
  well. The model takes any folding.
- The verifier raises a type error, instead of reporting an issue, when the
  schema version or the event type of an event is a list or an object; the same
  holds for the state of a retention record. The model has a crash outcome there.
- The two tail readers differ on a last line of white space other than CR and LF;
  `ReadersAgreeExactly` gives the exact condition, `SpaceLineTellsThemApart` the example.
- An append releases the file lock before the file is closed (journal.py:134-147,
  166-180). When the flush fails, or an interrupt comes before it, the line is still
  in the buffer and reaches the file at its closing, without the lock: another
  process can read or write in between, and the journal then has a broken link.
  `LateLines.LateLinesAreReported` gives two such runs, `VerifiesExactly` the exact
  condition, `NoLateLineSettles` the runs it cannot happen in. The comment on
  `append_event` speaks only of failures before the write.
- Scrubbing is not certain for every secret: `ScrubbedExactlyAt` gives the exact
  condition at a length limit, `ScrubbedExactlyWhenSafe` at every limit.
- The scrubber is meant to replace any value the traversal redacted
  (redaction.py:79-82), but it is told only of strings that are themselves the value
  of a sensitive name and have at least four characters (canonical.py:200-204).
  Strings in a container under such a name are not among them:
  `Secrets.RememberedExactly` gives the exact condition, `NestedSecretSurvives` a
  password that an error text keeps.
- Key files and witnesses are overwritten in place. A registration whose write is
  torn is never repaired and makes loading the trusted keys fail for good
  (`TornRegistrationStays`): `BrokenExactlyWhenTorn` and `DefaultKeysLoadExactly`
  give the exact conditions over runs.
- Each invocation's status is needs-reconciliation also when a denied decision has
  an outcome or an allowed one has two.

## Model

| member | source | states |
|---|---|---|
| `EndToEnd.EveryRunVerifiesAndAudits` | src/guardrail_evidence/engine.py:91-144 | For every interleaving of guarded calls, checkpoints, rotations, failures, interrupts and process deaths, and every key list that includes the trusted set: the verifier reports one broken link for each line stored behind lines its writer had not read, and nothing else, so the journal verifies if and only if there is no such line; the events always audit without an issue |
| `EndToEnd.BreaksAre` | src/guardrail_evidence/verification.py:511-533 | The issues of that report are exactly the broken links of the lines that were not stored where their writer had read to |
| `LateLines.VerifiesExactly` | src/guardrail_evidence/journal.py:131-185 | In every run the journal verifies if and only if no step stored a line behind lines that its writer had not read, that is, if no other line was stored between the reading and the storing of any line |
| `LateLines.SettledExactly` | src/guardrail_evidence/journal.py:131-185 | Every line of a run lies where its writer had read to if and only if no step stored a line behind lines that its writer had not read |
| `LateLines.NoLateLineSettles` | src/guardrail_evidence/journal.py:134-147 | A run in which no line is written by the closing of its file, after the lock was released, has such a journal: then mutual exclusion is enough |
| `LateLines.LateLinesAreReported` | src/guardrail_evidence/journal.py:134-147 | Two runs of two processes that do not verify: the flush of one fails and the other reads before the file is closed; whichever line comes second is a broken link, even if nothing is stored between the release of the lock and the close |
| `LateLines.ThreadIsLinked` | src/guardrail_evidence/journal.py:136-145 | Whatever was stored late, each line of a run leads back over the lines its writers had read, every one linked to the one before, to a first one |
| `EndToEnd.StatusTellsWhatHappened` | src/guardrail_evidence/audit.py:163-187 | In every run the audited status of a recorded call tells what its target did: denied only if it never ran, succeeded exactly if its outcome is recorded and it returned, failed exactly if recorded and it threw, needs-reconciliation if it ran and no outcome is recorded |
| `EndToEnd.EveryInvocationHasItsWorker` | src/guardrail_evidence/audit.py:163-210 | In every run each audited invocation belongs to exactly one call of the run |
| `EndToEnd.NothingToReconcile` | src/guardrail_evidence/audit.py:62-67 | In every run the audit asks for no reconciliation if and only if every recorded allowed call returned and its outcome is recorded |
| `Records.CallsAreRecorded` | src/guardrail_evidence/engine.py:273-389 | In every run the decision event of each recorded call has exactly its fields and holds the call's input hash, summary, retention list, risk, approval mode, metadata and contract; its outcome event names that decision and holds the result type and output hash, or the exception type and error summary, of what the target did; both hold the id, time, key and link of their line |
| `Records.CallIsAudited` | src/guardrail_evidence/audit.py:188-208 | In every run each recorded call has exactly one invocation in the audit, and every field of it is spelled out: names, hashes, risk, mode, the id and time of the decision, and those of the outcome exactly when the outcome is recorded |
| `Approvals.DecisionIsTheAnswer` | src/guardrail_evidence/engine.py:301-323 | In every run the recorded decision of a call is the answer that was given, the only one; no target has run without an allowing one |
| `Notices.ToldExactly` | src/guardrail_evidence/observer.py:79-94 | In every run an observer was told about a contract if and only if some step told it so for a call of that process, observer and contract, and succeeded |
| `Notices.RememberedExactly` | src/guardrail_evidence/observer.py:79-94 | In every run a tracker remembers a notification if and only if some step marked it and its process has not died since |
| `EndToEnd.JournalIsChained` | src/guardrail_evidence/journal.py:131-152 | Under the invariant, and when every line was stored where its writer had read to, every event of the journal passes every check of the verifier at its place in the chain |
| `EndToEnd.JournalIsCoherent` | src/guardrail_evidence/audit.py:94-173 | Under the invariant the journal obeys all the audit rules: unique ids, each outcome answers an earlier allowed decision of the same contract, one outcome each, known values |
| `EndToEnd.RenderedEventOk` | src/guardrail_evidence/engine.py:334-356 | An event built and signed by a writer holds every field its type requires and passes the verifier's check when its key is trusted and it links to the previous hash |
| `Safety.ReachableIsSafe` | src/guardrail_evidence/journal.py:131-185 | Every reachable state satisfies the invariant: one lock holder, whose read is that of the lines it counted with only late lines after them; distinct ids, of lines in buffers too; each line linked to the lines its writer had read; positions of decisions and outcomes, checkpoint counts, trusted signers |
| `Safety.StepKeepsInv` | src/guardrail_evidence/journal.py:131-185 | Every step of every process keeps that invariant: the storing of a line under the lock, or by closing the file after the lock was released, interrupts and deaths included |
| `Guarantees.ReadStaysCurrent` | src/guardrail_evidence/journal.py:136-146 | While a writer is between reading and writing it alone holds the lock, the hash it read is that of the lines it counted, and whatever was stored since came from closed files; in a run without such lines it is the hash of the journal as it stands |
| `Guarantees.CheckpointsCommitToTheirPrefix` | src/guardrail_evidence/journal.py:154-185 | In every run each event links to the hash of the last line its writer had read, and a checkpoint commits to the number of those lines and to that hash; they are all the lines before it, unless it is a late line itself or late lines lie between |
| `Guarantees.RunGrows` | src/guardrail_evidence/journal.py:142-145 | Over every run the journal is only ever extended, and trust, notices and saved witnesses only grow |
| `Guarantees.CalledOnceAfterAllowedDecision` | src/guardrail_evidence/engine.py:118-144 | A step that calls a target finds the call's own allowed decision in the journal, its observer told about its contract, and no earlier call of it |
| `Guarantees.RememberedOnlyIfTold` | src/guardrail_evidence/observer.py:79-94 | A notification is remembered as done only if some observer call for it succeeded |
| `Guarantees.EndingsMeanWhatTheySay` | src/guardrail_evidence/engine.py:391-415 | Short of death or abortion, the evidence error ends a call exactly when its target returned or threw and its own outcome append failed; every other error of the guard means the target never ran; and what is in the journal for each ending |
| `Guarantees.RotationKeepsHistoryVerifiable` | src/guardrail_evidence/identity.py:208-238 | On the journal as it stood at any moment the report is the same under every key list that includes the trusted set of any later moment, across any number of rotations: no issue but the broken links of lines stored behind others |
| `Guarantees.LoadedIdentityStaysTrusted` | src/guardrail_evidence/identity.py:83-105 | The key of every identity ever loaded, created or returned by a rotation is registered from then on, whatever follows |
| `Guarantees.DefaultKeysVerify` | src/guardrail_evidence/identity.py:190-205 | In every run, whenever the default keys can be loaded, the report with them is that same one, and the events audit |
| `Guarantees.BrokenExactlyWhenTorn` | src/guardrail_evidence/identity.py:174-187 | In every run the file of a trusted key is unreadable if and only if some step tore the registration of that key, by a load, a creation or the registration of an outgoing key, while it was not yet registered |
| `Guarantees.DefaultKeysLoadExactly` | src/guardrail_evidence/identity.py:190-205 | In every run the default keys can be loaded if and only if no step tore a registration and, as long as nothing is registered, the public key file is not damaged |
| `Guarantees.TornRegistrationStays` | src/guardrail_evidence/identity.py:174-205 | Once a step of a run tore a registration, however the run goes on, the key counts as registered, its file stays unreadable and the default keys cannot be loaded |
| `Guarantees.AlteredFileRecordsRunPrefix` | src/guardrail_evidence/verification.py:196-262 | Whatever lines somebody without a trusted key puts in the file, taken from the journals of however many runs: what verifies has the payloads of what one line of one of these journals leads back to, which in a journal without late lines is everything up to that line |
| `Guarantees.RearrangedRunIsPrefix` | src/guardrail_evidence/verification.py:196-241 | In every run: events of the journal in any order and number are accepted if and only if they are what one line leads back to and the newest checkpoint among them counts no more; when every line lies where its writer had read to, if and only if they are a prefix of the journal |
| `Guarantees.DamagedRunIsReported` | src/guardrail_evidence/verification.py:223-236 | In every run: one damaged non-checkpoint event is reported on its own line, and on every other line the report is what it was before, verified events included |
| `Guarantees.SavedWitnessDecides` | src/guardrail_evidence/checkpoint.py:75-82 | A witness saved during a run decides every truncation of its journal exactly: the report on the first k events is the one without a witness, plus checkpoint_not_found if and only if the checkpoint is not among them, and checkpoint_truncation if and only if then fewer are left than it counts |
| `Guarantees.AnyWitnessIsOfTheRunOrRefused` | src/guardrail_evidence/verification.py:329-381 | In every run, whatever somebody without a trusted key puts in the witness file: either it has the payload of a checkpoint of the run and decides every truncation as that checkpoint does, or it is refused by one issue of its own, which is all it changes of the report; so no forged witness makes a whole journal look cut |
| `Engine.Guard.Execute` | src/guardrail_evidence/engine.py:91-144 | A guarded call performs its effects on file, home, tracker and target as a run of the step system: the target is called at most once, the decision precedes the call, the outcome follows it, and the ending says which of them are recorded; if every line lay where its writer had read to, every line still does |
| `Engine.Guard.Protect` | src/guardrail_evidence/engine.py:91-144 | The whole wrapper, from host values: what is recorded describes the arguments it was given and what the target did; arguments that cannot be canonicalized end the call before anything is recorded |
| `Preparation.DescribeCall` | src/guardrail_evidence/engine.py:254-281 | The recorded call holds the digest, the summary and the retention list of one traversal of the arguments, whose redacted strings are remembered; its error is the traversal's |
| `Preparation.DescribeOutcome` | src/guardrail_evidence/engine.py:367-389 | A returned value is recorded by its type and the digest of its canonical form, if it has one and is no redacted string; an exception by its type and its scrubbed text; an interrupt not at all |
| `Preparation.InputHashCommits` | src/guardrail_evidence/engine.py:254-256 | With a hash without collisions two calls record the same input hash if and only if the same is to be shown of their arguments, up to the order of keys |
| `Preparation.RecordIsOfShown` | src/guardrail_evidence/engine.py:254-281 | Digest, summary and retention list are made of what evidence may show of the arguments |
| `Preparation.RetentionExactly` | src/guardrail_evidence/engine.py:203-222 | The retention list has one record for each argument in the order of names, redacted for the marker, unsupported for a placeholder, retained otherwise |
| `Preparation.OutputHashExactly` | src/guardrail_evidence/engine.py:418-445 | A result is hashed if and only if it is no redacted argument string and has a canonical form, and then what may be shown of it is |
| `Preparation.OutputHashDisclosesNothing` | src/guardrail_evidence/engine.py:418-445 | A result that is a redacted argument string is never hashed, and two results that differ only under sensitive names have the same hash |
| `Engine.Guard.PrepareExecution` | src/guardrail_evidence/engine.py:225-298 | Observer, canonicalization, identity, approval and decision in this order; on every early exit the target has not run and the journal holds at most the decision |
| `Engine.Guard.EvaluateApproval` | src/guardrail_evidence/engine.py:301-323 | The mode never allows without asking; otherwise allowed and denied answers are taken over and anything else is an error before anything is recorded |
| `Engine.Guard.RecordDecision` | src/guardrail_evidence/engine.py:273-296 | The decision event is appended before the target may run; a denied or unrecorded decision ends the call |
| `Engine.Guard.RecordOutcome` | src/guardrail_evidence/engine.py:359-415 | The outcome event refers to the call's own decision; the evidence error comes exactly when its append reports a failure |
| `Engine.Guard.AppendEntry` | src/guardrail_evidence/engine.py:334-356 | One append of a guard event to the file, whether it is stored, fails, or stays in the buffer until the file is closed, is the four steps of an append of the run, built on the hash the file's tail holds |
| `Engine.Guard.Notify` | src/guardrail_evidence/observer.py:79-94 | The observer is called exactly when the call names one and no success is remembered for it and the contract; that is what the run's notification steps do, only a success is remembered, and a failure ends the call |
| `Engine.Guard.LoadIdentity` | src/guardrail_evidence/identity.py:83-105 | Loading or creating the key, file by file with a failure possible at each, is what the run's identity steps do |
| `Engine.Guard.CheckpointJournal` | src/guardrail_evidence/checkpoint.py:43-97 | A reported checkpoint is the last event and holds the number of events before it, and one that fails stores that event or nothing; the witness file afterwards for every way its overwriting can go, emptied and cut files included; success exactly when the file was written and synced |
| `Engine.Guard.WriteWitness` | src/guardrail_evidence/checkpoint.py:91-97 | The witness file is emptied when it is opened, and holds the event only when it was written completely |
| `Engine.Guard.Rotate` | src/guardrail_evidence/identity.py:208-238 | Rotation leaves the journal alone, overwrites the key files with every way that can go, keeps the readable outgoing keys registered, and returns the new key, as the run's rotation steps do |
| `Engine.Guard.FileVerifiesAndAudits` | src/guardrail_evidence/verification.py:155-262 | After any sequence of calls, checkpoints and rotations, whatever other processes did in between, the report on the bytes on disk under every key list that includes the trusted set is one broken link for each line stored behind lines its writer had not read and nothing else, and the events audit |
| `Engine.FileReadersSeeTheRun` | src/guardrail_evidence/journal.py:194-252 | On the file of any journal the tail reader finds the hash, the counter the number, and the verifier the events that the step system's readers see |
| `Observer.OnceTracker.NotifyOnce` | src/guardrail_evidence/observer.py:79-94 | The observer is called exactly when there is one and no success is remembered; only a success is remembered |
| `Identity.EvidenceHome.LoadOrCreate` | src/guardrail_evidence/identity.py:83-105 | The files after every failure, damaged ones included, and the key returned |
| `Identity.EvidenceHome.RotateKey` | src/guardrail_evidence/identity.py:208-238 | The files after every failure of a rotation, damaged ones included, readable outgoing keys registered first |
| `Identity.EvidenceHome.RegisterPublicKey` | src/guardrail_evidence/identity.py:174-187 | A key file that exists is never written again; a torn write leaves an unreadable one |
| `Identity.EvidenceHome.WritePrivateKey` | src/guardrail_evidence/identity.py:278-308 | The key file is truncated before it is written |
| `Identity.EvidenceHome.LoadTrustedPublicKeys` | src/guardrail_evidence/identity.py:190-205 | All registered keys, or the single public key when there are none, or an error when any file to be read is unreadable |
| `Identity.TrustNeverShrinks` | src/guardrail_evidence/identity.py:174-238 | Neither operation takes trust away; a returned key is registered and current; rotation keeps the outgoing keys it could read |
| `IdentityLaws.LoadExactly` | src/guardrail_evidence/identity.py:83-105 | A load succeeds with a key if and only if it is the readable private key, or a new one where no private key file exists, every file to be written is written, and the key is registered or its registration works; the files afterwards, and when a key file is left damaged |
| `IdentityLaws.RotationExactly` | src/guardrail_evidence/identity.py:208-238 | A rotation succeeds if and only if both files are written and the new key is registered; for every failure, which keys are trusted, which trusted key files are unreadable, and what the two key files hold |
| `IdentityLaws.RotatedKeysVerify` | src/guardrail_evidence/identity.py:190-238 | After a rotation that tore no key file the default keys are those trusted before, the outgoing ones that could be read, and the new one |
| `Identity.TornHomeStays` | src/guardrail_evidence/identity.py:83-105 | In any home with an unreadable trusted-key file, loading, creating and rotating, whatever fails, leave the key registered and its file unreadable, and a load of the signing key returns it as if nothing were wrong |
| `Verification.ReadAndVerify` | src/guardrail_evidence/verification.py:155-262 | The verifying loop returns exactly the report, events or crash that the fold over the lines defines, for every file and witness |
| `Verification.CheckpointCoverage` | src/guardrail_evidence/verification.py:384-437 | The coverage step with its candidates gives the defined issues, or crashes where counts cannot be compared or converted |
| `Verification.VerifyEvent` | src/guardrail_evidence/verification.py:440-554 | The issues of one event in order, for every event that does not crash the checks |
| `Verification.CleanEventIsOk` | src/guardrail_evidence/verification.py:440-554 | No issue is reported if and only if version, type, fields, link, key, hash and signature are all right |
| `IssueLaws.IssuesExactly` | src/guardrail_evidence/verification.py:440-554 | Each code is reported of an event, on its line, if and only if its own check fails: version, type, required fields, head, count, link, digest, known key, signature, each spelled out on the event's fields |
| `IssueLaws.IssuesInOrder` | src/guardrail_evidence/verification.py:440-554 | The issues of an event come in the order of the checks, each at most once |
| `IssueLaws.IssuesOfPass` | src/guardrail_evidence/verification.py:196-241 | Every issue of the pass is of one event, on its line, checked against the stored hash of the event before it; blank lines count as lines and as nothing else |
| `IssueLaws.PassTells` | src/guardrail_evidence/verification.py:196-241 | Whatever is wrong with the events, the pass counts and keeps all of them; the newest checkpoint is the last event of that type, the witness is met if and only if some event has its id, and the verified ones are those with nothing wrong |
| `IssueLaws.ReportExactly` | src/guardrail_evidence/verification.py:155-262 | The report of a file without bad lines: the issue of the witness file, those of the events and those of the coverage, in this order, and valid if and only if there are none; a journal that cannot be opened has one issue of its own |
| `IssueLaws.BadLineEndsPass` | src/guardrail_evidence/verification.py:202-221 | The first line that is no JSON, or no object, ends the pass with an issue of its own, whatever follows it |
| `IssueLaws.UnjudgedRaises` | src/guardrail_evidence/verification.py:440-470 | An event whose version, or type, is a list or an object makes the verifier raise, unless the pass ended before it |
| `IssueLaws.HostEqualExactly` | src/guardrail_evidence/verification.py:440-554 | Values are compared as the host compares them: truth values equal the integers 1 and 0 at any depth, everything else only itself |
| `IssueLaws.CoverageExactly` | src/guardrail_evidence/verification.py:384-437 | With integer counts: a witness that was not met is reported and bounds the journal by itself; otherwise the larger of its count and the newest checkpoint's does |
| `IssueLaws.OddCountExactly` | src/guardrail_evidence/verification.py:384-437 | A checkpoint count that is no integer: when it is converted, when compared with a witness that was met, and when the verifier raises |
| `WitnessLaws.WitnessLoadsExactly` | src/guardrail_evidence/verification.py:358-381 | A witness is taken if and only if it is a checkpoint with which nothing is wrong but, perhaps, its place: fields, head, count, digest, key and signature; with the hash it names it then passes as a line of a journal |
| `WitnessLaws.OtherWitnesses` | src/guardrail_evidence/verification.py:329-381 | Every other witness file is refused with its own code; only an object with an unhashable version makes the verifier raise |
| `WitnessLaws.RefusedWitnessOnlyAddsItsIssue` | src/guardrail_evidence/verification.py:155-193 | A refused witness makes the report invalid by its issue and changes nothing else of it |
| `WitnessLaws.TakenWitnessIsOfWriters` | src/guardrail_evidence/verification.py:358-381 | A witness that is taken has the payload of a checkpoint of one of the journals whose writers signed it, whoever made the file; a forged one is refused |
| `Verification.KeyringHoldsKeys` | src/guardrail_evidence/verification.py:105-110 | The keyring finds every listed key under its id when ids are distinct, and holds no other key |
| `Verification.KeyringTakesLast` | src/guardrail_evidence/verification.py:105-110 | Whatever the ids, the keyring finds under each id the last listed key that has it |
| `Chain.ScanObjects` | src/guardrail_evidence/verification.py:196-241 | What the loop knows after a chained journal: all verified, the chain value, the newest checkpoint, whether the witness was met |
| `Chain.AcceptsExactly` | src/guardrail_evidence/verification.py:196-262 | A journal of objects is accepted without a witness if and only if every event passes at its place and the newest checkpoint's count is at most the number of events |
| `Chain.AcceptedFileIsEvents` | src/guardrail_evidence/verification.py:196-262 | Any file that verifies, blank lines and all, verifies exactly as the list of its events |
| `Tamper.RearrangementAcceptedIffPrefix` | src/guardrail_evidence/verification.py:196-241 | A journal made of events of an honest one, in any order and number, is accepted without a witness if and only if it is a prefix of it |
| `Tamper.AcceptedJournalRecordsPrefix` | src/guardrail_evidence/verification.py:196-241 | Any accepted journal at all whose verifying signatures are those of the writers of some linked honest journals has the payloads of a prefix of one of them |
| `Tamper.AcceptedFileRecordsPrefix` | src/guardrail_evidence/verification.py:196-262 | The same for a file of arbitrary lines |
| `Tamper.LastHashCommitsToHistory` | src/guardrail_evidence/verification.py:511-533 | Two accepted journals with the same last event hash have identical payload sequences |
| `Tamper.SharedPayloadAnchors` | src/guardrail_evidence/verification.py:511-533 | A payload at position i of one linked journal and j of another means i equals j and identical payloads up to there |
| `Tamper.PrefixIsAccepted` | src/guardrail_evidence/verification.py:196-262 | Every prefix of an honest journal is accepted: cutting the tail leaves no trace without a witness |
| `Tamper.WitnessDecidesTruncation` | src/guardrail_evidence/verification.py:384-437 | Keeping k events against the witness of the checkpoint at c: valid exactly for k > c, otherwise checkpoint_not_found, and checkpoint_truncation exactly for k < c, whatever other checkpoints remain |
| `Tamper.DamageStaysLocal` | src/guardrail_evidence/verification.py:223-236 | Replacing one non-checkpoint payload while keeping its stored hash gives issues on that line only, at least one, and one verified event less than the total |
| `Audit.AuditVerifiedSnapshot` | src/guardrail_evidence/audit.py:80-210 | The auditing loops give exactly the defined issues and invocations in order, and refuse a journal that did not verify |
| `Audit.CollectTables` | src/guardrail_evidence/audit.py:89-106 | The first loop's tables: the first decision of each id, all outcomes of each reference, both in order of first appearance, and the duplicate ids |
| `Audit.CheckOutcomes` | src/guardrail_evidence/audit.py:108-161 | The second loop's issues for every reference, in order |
| `Audit.BuildInvocations` | src/guardrail_evidence/audit.py:163-208 | The third loop's invocations and invalid decisions, in order |
| `AuditLaws.AuditExact` | src/guardrail_evidence/audit.py:89-173 | The audit reports no issue if and only if ids are unique, every outcome answers an earlier allowed decision of the same contract with a known status, no decision has two, and decision values are known |
| `AuditLaws.InvocationPerDecision` | src/guardrail_evidence/audit.py:163-208 | Each decision event has exactly one invocation under its id, built from the first decision event with that id |
| `AuditLaws.InvocationsFollowDecisions` | src/guardrail_evidence/audit.py:163-208 | Invocations come in the order in which their decisions first appear |
| `AuditLaws.OutcomesAreConserved` | src/guardrail_evidence/audit.py:108-121 | The orphan issues and the outcomes linked to invocations add up to the outcome events: none is lost, none counted twice |
| `AuditLaws.EachOutcomeHasItsPlace` | src/guardrail_evidence/audit.py:108-121 | Each outcome event: without a decision under its reference it is reported as an orphan and no invocation has that reference, otherwise it is linked to exactly one invocation |
| `AuditLaws.StatusExact` | src/guardrail_evidence/audit.py:174-187 | In every journal, coherent or not: succeeded or failed exactly when the first decision under the id is allowed and exactly one outcome refers to it, with that status; denied exactly when denied and no outcome refers to it |
| `AuditLaws.CoherentStatus` | src/guardrail_evidence/audit.py:174-187 | In a coherent journal the status follows from the answering outcome, and reconciliation is asked for exactly when an allowed call has none |
| `ReportLaws.EveryInvocationTells` | src/guardrail_evidence/audit.py:163-208 | Every invocation of the report of any journal copies the fields of the first decision under its id, names the outcome and its time if and only if exactly one outcome refers to it, and has the status these give it |
| `ReportLaws.EveryDecisionIsTold` | src/guardrail_evidence/audit.py:163-208 | Every first decision under an id is told of by exactly one invocation |
| `ReportLaws.IssuesExactly` | src/guardrail_evidence/audit.py:94-173 | The audit of any journal reports each issue if and only if its own reason holds of the events, under the id of the event it is about |
| `TailReader.ReadTailLine` | src/guardrail_evidence/journal.py:194-228 | The doubling-window loop finds the last line of any file, for every first window of at least one byte, and terminates |
| `TailReader.ScanTailLine` | src/guardrail_evidence/journal.py:255-262 | The forward scan finds the last line that is not blank, stripped |
| `TailReader.CountEventLines` | src/guardrail_evidence/journal.py:245-252 | The counting loop counts the lines that are not blank |
| `TailReader.ReadersAgreeExactly` | src/guardrail_evidence/journal.py:194-262 | On every file the two readers hand the same line to the parser if and only if the fast reader's line is absent or begins and ends with a non-space byte |
| `TailReader.WellFormedReadersAgree` | src/guardrail_evidence/journal.py:194-262 | They agree on every file whose lines, without trailing CR and LF, are empty or begin and end with a non-space byte |
| `TailReader.TailLineExactly` | src/guardrail_evidence/journal.py:194-228 | In any file the tail is the last line: it begins behind a line feed or at the front, holds none, and nothing but line ends follows it |
| `TailReader.StripExactly` | src/guardrail_evidence/journal.py:245-262 | Stripping takes nothing but white space from a line and leaves none at its ends |
| `TailReader.SpaceLineTellsThemApart` | src/guardrail_evidence/journal.py:213-260 | A file whose last line holds only a space makes them differ, for every journal before it |
| `FileJournal.ReadLastEventHash` | src/guardrail_evidence/journal.py:194-242 | The hash, absence or corruption error of the file's tail line |
| `FileJournal.ReadLastEventHashScan` | src/guardrail_evidence/journal.py:255-275 | The same for the line the forward scan finds |
| `FileJournal.FastReaderRefinesScan` | src/guardrail_evidence/journal.py:194-275 | On well-formed files both readers return the same hash or the same error |
| `FileJournal.TailDecides` | src/guardrail_evidence/journal.py:230-242 | A file can be extended, with which hash, if and only if it holds nothing but line ends or its last line is an object with a string hash; every other tail is refused with its own error |
| `FileJournal.FileHoldsEvents` | src/guardrail_evidence/journal.py:142-143 | A file written line by line parses back to its events, and counts and lines number them |
| `FileJournal.HashOfLastEvent` | src/guardrail_evidence/journal.py:194-242 | On a written file the tail reader returns the stored hash of the last event, or none for an empty file |
| `FileJournal.CanonicalCodecIsLineSafe` | src/guardrail_evidence/journal.py:138-142 | The library's own line format, compact JSON with sorted keys in UTF-8, read back by the JSON parser, is one line per event and reads back every event whose floats are the host's |
| `EventText.TextDeterminesEvent` | src/guardrail_evidence/canonical.py:300-312 | Different events have different canonical texts |
| `EventText.HashedTextIsIdeal` | src/guardrail_evidence/journal.py:80-82 | If the hash of the canonical text has no collisions the digest is ideal |
| `TextLaws.PrintedExactly` | src/guardrail_evidence/canonical.py:300-312 | The text of each JSON value: literals, numbers, escaped strings, items and members between brackets, without a space behind separators in events and with one in summaries |
| `TextLaws.KeysOfText` | src/guardrail_evidence/canonical.py:300-312 | The text of an event lists its fields by name in order, each once, with their values |
| `TextLaws.NamedInText` | src/guardrail_evidence/journal.py:7-20 | The name each field of the format has in that text |
| `TextLaws.LessExactly` | src/guardrail_evidence/canonical.py:300-312 | Names are sorted by their first different character, a proper beginning of a name before it |
| `Utf8.EncodedDecodes` | src/guardrail_evidence/canonical.py:312-312 | Decoding the UTF-8 bytes of a text gives the text back |
| `FileJournal.Journal.AppendEvent` | src/guardrail_evidence/journal.py:125-152 | The builder gets the stored hash of the last event; what is stored and reported for every way the file can fail: when the flush fails, the line goes to the end of the file at its closing, behind what others have stored by then, or is lost, and the call reports the failure |
| `FileJournal.Journal.AppendCheckpoint` | src/guardrail_evidence/journal.py:154-185 | The same, with the number of events before it read under the same lock |
| `FileJournal.Journal.ExtendFile` | src/guardrail_evidence/journal.py:125-152 | The append to whatever bytes the file holds: a tail that cannot be read, or an event that cannot be built, leaves them as they are and is reported; otherwise the line goes behind them |
| `FileJournal.Journal.ExtendFileWithCheckpoint` | src/guardrail_evidence/journal.py:154-185 | The same for a checkpoint, which is built from the number of lines and the hash read under the same lock |
| `FileJournal.Journal.FileVerifiesAsEvents` | src/guardrail_evidence/verification.py:196-241 | Verifying the bytes of a journal file is verifying its events |
| `Evidence.FinalizeKeepsPayload` | src/guardrail_evidence/journal.py:75-95 | The verifier strips exactly what finalizing attached |
| `Canonical.Collector.WalkInto` | src/guardrail_evidence/canonical.py:207-270 | The traversal with its shared list returns the value or error of the defined walk and appends exactly the redacted strings, in order |
| `Canonical.Collector.Redact` | src/guardrail_evidence/canonical.py:200-204 | The fixed marker, and the string remembered when it is long enough to scrub |
| `CanonicalLaws.FailsExactlyOnBadPaths` | src/guardrail_evidence/canonical.py:207-270 | On any heap graph the traversal fails if and only if a path that enters no redacted field meets a non-finite float, re-enters a container on its own path, or exceeds depth 64 |
| `CanonicalLaws.SuccessDenotes` | src/guardrail_evidence/canonical.py:207-270 | A successful traversal gives the redacted tree unfolding of the value |
| `CanonicalLaws.UnfoldingIsUnique` | src/guardrail_evidence/canonical.py:207-270 | That unfolding is unique, so success has one possible result |
| `NodeLaws.WalkShowsObjects` | src/guardrail_evidence/canonical.py:207-270 | Said of the host objects: the one result of a successful traversal shows dictionaries with string keys, data classes and named tuples with string names by name and in order, with the marker under each sensitive name, lists and other named tuples by position, and other objects by their placeholder |
| `NodeLaws.ChildrenOfObjects` | src/guardrail_evidence/canonical.py:238-270 | The traversal enters exactly the items, and the fields whose name is not sensitive, of each kind of object |
| `CanonicalLaws.SharedAcyclicSucceeds` | src/guardrail_evidence/canonical.py:238-266 | When what can be reached has no cycle and keeps to the depth limit, the traversal never fails, however much is shared and whatever the rest of the heap holds |
| `CanonicalLaws.RedactionNoninterference` | src/guardrail_evidence/canonical.py:200-270 | Two values that differ only under sensitive names, at any depth, give the same canonical value or the same failure |
| `NodeLaws.SecretsOfObjectsDoNotShow` | src/guardrail_evidence/canonical.py:200-270 | The same said of host objects, dictionaries, named tuples, data classes and lists: two object graphs that differ only under sensitive names give the same canonical value or the same failure |
| `NodeLaws.NamedSecretIsRedacted` | src/guardrail_evidence/canonical.py:164-259 | A named tuple with a secret is shown by name under the marker, and the secret is remembered |
| `CanonicalLaws.SuccessIsNormal` | src/guardrail_evidence/canonical.py:241-259 | Every sensitive-named position of a result holds exactly the marker |
| `CanonicalLaws.CanonicalizationIsIdempotent` | src/guardrail_evidence/canonical.py:184-197 | Canonicalizing a result again changes nothing |
| `Secrets.CollectedExactly` | src/guardrail_evidence/canonical.py:200-204 | The remembered strings are exactly the scrubbable strings under sensitive names that a non-redacted path leads to |
| `NodeLaws.RememberedFromObjects` | src/guardrail_evidence/canonical.py:200-270 | Said of host objects: a string is remembered if and only if it is long enough and the value of a sensitive name of a dictionary, named tuple or data class that a non-redacted path leads to |
| `Disclosure.NoSecretInErrorSummary` | src/guardrail_evidence/engine.py:376-389 | In every run a string that is directly the value of a sensitive name in the arguments, and safe to scrub, occurs in no recorded error summary of that call, whatever text its target raised |
| `Secrets.RedactedSecretsReachNoErrorText` | src/guardrail_evidence/engine.py:388-389 | A string of at least four characters that is directly the value of a sensitive name, anywhere in the arguments, occurs in no scrubbed error text if it is safe to scrub at the length limit |
| `Secrets.RememberedExactly` | src/guardrail_evidence/canonical.py:200-204 | Of all strings that are redacted, those are remembered that are the value of a redacted field themselves, on a path that enters no other redacted field, and have at least four characters; a container under a sensitive name gives the scrubber nothing |
| `Secrets.ForgottenStringSurvives` | src/guardrail_evidence/redaction.py:76-90 | An error text that quotes a string in which no remembered one occurs keeps it |
| `Secrets.NestedSecretSurvives` | src/guardrail_evidence/canonical.py:241-259 | A password in a dictionary under a sensitive name is redacted with it, is long enough, is not remembered, and survives in the scrubbed text of an error that quotes it |
| `Scrub.Scrubbed` | src/guardrail_evidence/redaction.py:76-90 | The scrubbing loop replaces every non-empty value once, longest first, and cuts the result |
| `ScrubLaws.ReplacedLeftmost` | src/guardrail_evidence/redaction.py:85-89 | Replacing a value: its leftmost occurrence gives way to the marker and the rest of the text follows; a text without it stays |
| `ScrubLaws.LongestIsReplacedFirst` | src/guardrail_evidence/redaction.py:83-89 | Whatever the text, a longest value is replaced by the marker first, and the other values in what that gives |
| `ScrubLaws.LongestLeavesNoPiece` | src/guardrail_evidence/redaction.py:83-89 | Where a value longer than every other one stands, nothing but the marker takes its place, whatever pieces of it are values too |
| `ScrubLaws.SecretAloneGivesMarker` | src/guardrail_evidence/redaction.py:83-96 | A text that is nothing but such a value gives the marker, cut to the limit |
| `ScrubLaws.PieceDoesNotFragment` | src/guardrail_evidence/redaction.py:79-89 | The case the source warns of: a password and a beginning of it |
| `Scrub.SafeValueIsScrubbed` | src/guardrail_evidence/redaction.py:76-96 | A safe value occurs in no scrubbed text, for any text, other values, order among equals and length limit |
| `Scrub.PlainValueIsSafe` | src/guardrail_evidence/redaction.py:76-96 | A value without less-than, greater-than and dot that is not a piece of a marker is safe |
| `Scrub.ScrubbedExactlyWhenSafe` | src/guardrail_evidence/redaction.py:76-96 | A value disappears from every text in every company at every limit if and only if no occurrence of it can overlap an inserted marker or the truncation suffix |
| `Scrub.ScrubbedExactlyAt` | src/guardrail_evidence/redaction.py:76-96 | The same at one length limit and with companions of at least a given length, as the guard uses it: if and only if no occurrence has room to overlap a marker or the suffix |
| `Scrub.GuardScrubsExactly` | src/guardrail_evidence/engine.py:388-389 | At the limit of 300 and with values of at least four characters, as the guard calls it; longer than 314 is always removed |
| `Scrub.LongSecretsAreScrubbed` | src/guardrail_evidence/redaction.py:93-96 | A value longer than limit and suffix together is always removed |
| `Summary.Summarize` | src/guardrail_evidence/redaction.py:57-73 | The summary loop builds the defined summary |
| `Summary.ParseExactSummary` | src/guardrail_evidence/privacy.py:273-302 | The parsing loop returns the arguments, or the names read before it gave up, as the defined parser does |
| `NamesRead.NamesAreThoseRead` | src/guardrail_evidence/privacy.py:273-302 | Accepting or giving up, the parser reports a longest list of names that the text begins with, each an identifier with a readable value and none twice |
| `TextLaws.SummaryIsBounded` | src/guardrail_evidence/redaction.py:57-73 | Each value of a summary is cut at 120 characters and the whole at 2000, and is then marked |
| `Summary.SummaryRoundTrip` | src/guardrail_evidence/privacy.py:273-302 | For arguments whose texts need no cutting, a text parses to them if and only if it is their summary, with the names in sorted order |
| `Summary.AcceptedReprints` | src/guardrail_evidence/privacy.py:300-302 | Whatever the parser accepts prints as the text it was read from |
| `JsonTextLaws.DumpedDecodes` | src/guardrail_evidence/privacy.py:289-289 | Decoding the JSON text of a value gives the value back up to key order, and stops exactly where the text ends |
| `JsonTextLaws.PrintedDecodes` | src/guardrail_evidence/redaction.py:71-71 | The same for every value in key order, with either separators, whatever delimiter follows |
| `JsonTextLaws.PrintedIsOneLine` | src/guardrail_evidence/redaction.py:64-71 | The JSON text of a value has no line feed and no other control character |
| `JsonText.FromPairsInOrder` | src/guardrail_evidence/redaction.py:70-70 | A dictionary built from pairs is in key order and has exactly the assigned keys |
| `Privacy.RecordRetention` | src/guardrail_evidence/engine.py:203-222 | The retention loop builds the defined list in the order of sorted names |
| `Privacy.ClassifyRetentionList` | src/guardrail_evidence/privacy.py:175-225 | The loop over the retention list gives the defined verdict, for every JSON value |
| `Privacy.ClassifySummaryText` | src/guardrail_evidence/privacy.py:228-270 | The classifier of summaries gives the defined verdict, for every JSON value |
| `NamesRead.UnreadSummaryIsUnknown` | src/guardrail_evidence/privacy.py:228-246 | A summary that cannot be read is unknown, under the names read of it; a cut one, and what is no text, under none |
| `InspectionLaws.RetentionExactly` | src/guardrail_evidence/privacy.py:175-225 | Of any JSON value: empty, fully or partially redacted if and only if it lists each argument once with such states, and under which names |
| `InspectionLaws.UnknownRetention` | src/guardrail_evidence/privacy.py:175-209 | A list that cannot be read is unknown under the names before its first bad record, or raises on an unhashable state; an unsupported argument makes it unknown under all names, sorted |
| `Privacy.InspectVerifiedSnapshot` | src/guardrail_evidence/privacy.py:104-156 | The inspecting loop gives the defined counters and actions, and safe exactly when no action is partially redacted or unknown |
| `InspectionLaws.InspectionExactly` | src/guardrail_evidence/privacy.py:104-156 | In any journal each counter counts what it says, and the actions are those of the decision events in order, each with its name and verdict |
| `PrivacyLaws.RetentionIsClassified` | src/guardrail_evidence/privacy.py:175-225 | What each argument map's retention list is classified as, and which names it names |
| `PrivacyLaws.ClassifiersAgree` | src/guardrail_evidence/privacy.py:175-270 | Both classifiers give the same class and names, except that for an unsupported argument the list names all and the summary those not redacted |
| `PrivacyLaws.ReadableNames` | src/guardrail_evidence/privacy.py:248-253 | In that case the summary's names are exactly those of the arguments that are not redacted |
| `PrivacyLaws.SummaryNeverHides` | src/guardrail_evidence/privacy.py:228-270 | Even for cut summaries: a summary is classified as fully redacted only if every argument is, and as empty exactly if there is none |
| `PrivacyLaws.VerdictIsHonest` | src/guardrail_evidence/privacy.py:162-172 | A harmless verdict on a recorded call is never wrong, and a fully redacted call with a retention list or an uncut summary gets one |
| `PrivacyLaws.DecisionsAreConserved` | src/guardrail_evidence/privacy.py:114-137 | Each decision is listed once and counted in exactly one class, and the other counters stay within it |
| `PrivacyLaws.SafeMeansHarmless` | src/guardrail_evidence/privacy.py:127-138 | The counters call a journal safe exactly when every decision's verdict is harmless |
| `PrivacyLaws.SafeMeansRedacted` | src/guardrail_evidence/privacy.py:104-156 | Safe for upload means that no argument of any recorded call is readable, and is exactly that when every decision is telling |
| `PrivacyLaws.SecretsReachNoRecord` | src/guardrail_evidence/engine.py:254-256 | Two calls that differ only under sensitive names record the same input hash, summary and retention list |
| `PrivacyLaws.SensitiveArgumentsAreRedacted` | src/guardrail_evidence/engine.py:213-222 | Every argument with a sensitive name is recorded as redacted |
| `Disclosure.ArgumentsAreRecorded` | src/guardrail_evidence/engine.py:254-281 | In every run the decision event of a call reads back as the digest, summary and retention list of the arguments it describes |
| `Disclosure.SafeExactlyWhenRedacted` | src/guardrail_evidence/privacy.py:104-156 | Over every run: the journal can be inspected, and is safe for upload exactly when no argument of any recorded call is readable |
| `Consistency.AssumptionsHoldTogether` | src/guardrail_evidence/journal.py:75-95 | The assumptions about digest, signatures, key ids, texts and line format can all be met at once |

## Left out

- Command line, terminal prompt, package exports: user interface. The approval provider is an arbitrary choice of allowed, denied, invalid or failing.
- Ed25519, PEM files, permission bits, base64 and the inside of SHA-256: foreign calls behind the assumptions above.
- Building contracts, reading signatures of functions, decorators and `wrap_tools`: reflection and plumbing. A call that fails to bind its arguments has no effect at all.
- `execute_async` is the same code as `execute_sync` with an await; both are the same worker of the step system.
- Explicitly passed identities and journal stores other than the local ones.
- Guarantees.EndingsMeanWhatTheySay: a target exception whose own text cannot be produced counts among the interrupts, because no outcome append is attempted then.
- Engine.Guard.Execute: nothing else happens inside the call; other processes may act between the operations of a guard. Interleaving inside a call, interrupts and deaths are covered by the step system alone.
- The in-process lock around an append: workers of one process interleave in the step system as freely as those of several, so the results hold for more interleavings than there are.
- In the step system the effect of a target is an arbitrary choice; `Preparation` and `Engine.Guard.Protect` say which one host values give.
- Texts of issues and explanations; codes, line numbers and order of issues are modelled.
- The audit of a verified event that lacks a field it only copies: the model reads null where the code would raise a key error; the verifier requires those fields.
- Torn journal lines: a line is stored whole or not at all, also by the closing of its file. A read error in the middle of the file is not modelled.
- A process that dies inside a write of a key or witness file: it is a torn write followed by the death, and the worker counts as ended by the failed write.
- An observer is told apart by a number of its own; the host's `id()` may be reused once an observer is gone.
- Events with numbers that are not finite, for which the host raises when it computes the digest.
- Numeric equality of integers and floats, lone surrogates, the recursion limit and the digit limit of the host's JSON decoder.
- The text of the witness file, printed with non-ASCII characters escaped (checkpoint.py:81): the model's witness holds the event itself. The strings of a checkpoint are ASCII, so that text is the one of its journal line.
- Timestamps, the generation of ids beyond freshness, memory use, platforms without file locking, and Windows, whose unlocking moves the file position and so flushes first.
- Scrub.ScrubbedExactlyAt: the only-if half needs a character that does not occur in the secret, so a secret that uses every character there is stays undecided; the same holds of `Scrub.ScrubbedExactlyWhenSafe`.
- Unicode tables behind name folding and identifiers.
