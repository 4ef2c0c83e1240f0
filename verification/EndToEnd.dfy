// Writers and readers agree: what the verifier and the audit say about every
// journal the protocol can produce.
module EndToEnd {
  import opened Wrappers
  import opened Json
  import opened Evidence
  import opened Protocol
  import opened Safety
  import opened Verification
  import opened Chain
  import opened Audit
  import opened AuditLaws
  import opened Tamper

  function Events(p: Primitives, journal: seq<Entry>): (events: seq<Event>)
    ensures |events| == |journal|
    ensures forall i :: 0 <= i < |journal| ==> events[i] == Render(p, journal[i])
  {
    seq(|journal|, i requires 0 <= i < |journal| => Render(p, journal[i]))
  }

  // ----- one rendered event -----

  function TypeOf(body: Body): Json {
    match body
    case DecisionBody(_, _) => DECISION
    case OutcomeBody(_, _, _) => OUTCOME
    case CheckpointBody(_) => CHECKPOINT
  }

  const COMMON_FIELDS: set<Field> := {SchemaVersion, EventId, TimestampUtc, KeyId, PreviousEventHash}
  const CONTRACT_FIELDS: set<Field> := {ActionId, ActionName, ContractHash}
  const SEAL: set<Field> := {EventHash, Signature}

  function OwnFields(body: Body): set<Field> {
    match body
    case DecisionBody(_, _) => CONTRACT_FIELDS + DECISION_FIELDS
    case OutcomeBody(_, _, _) => CONTRACT_FIELDS + OUTCOME_FIELDS
    case CheckpointBody(_) => {CheckpointCount, HeadSha256}
  }

  lemma DecisionFieldsOf(call: Call, allowed: bool)
    ensures var fields := DecisionFields(call, allowed);
            && DECISION_FIELDS <= fields.Keys && fields.Keys !! SEAL && fields.Keys !! CONTRACT_FIELDS
            && EventType in fields && fields[EventType] == DECISION
            && fields[Decision] == (if allowed then ALLOWED else DENIED)
  {
  }

  lemma OutcomeFieldsOf(decisionId: string, effect: Effect)
    ensures var fields := OutcomeFields(decisionId, effect);
            && OUTCOME_FIELDS <= fields.Keys && fields.Keys !! SEAL && fields.Keys !! CONTRACT_FIELDS
            && EventType in fields && fields[EventType] == OUTCOME
            && fields[DecisionEventId] == JStr(decisionId)
            && fields[Status] == (if effect.Returned? then SUCCEEDED else FAILED)
  {
  }

  lemma BodyFieldsOf(body: Body, previous: Option<string>)
    ensures var fields := BodyFields(body, previous);
            && OwnFields(body) <= fields.Keys && fields.Keys !! SEAL
            && EventType in fields && fields[EventType] == TypeOf(body)
  {
    hide DecisionFields, OutcomeFields;
    match body
    case DecisionBody(call, allowed) => DecisionFieldsOf(call, allowed);
    case OutcomeBody(_, decisionId, effect) => OutcomeFieldsOf(decisionId, effect);
    case CheckpointBody(_) =>
  }

  lemma PayloadFieldsOf(p: Primitives, e: Entry)
    ensures var payload := PayloadOf(p, e);
            && OwnFields(e.body) + COMMON_FIELDS + {EventType} <= payload.Keys && payload.Keys !! SEAL
            && payload[EventType] == TypeOf(e.body)
            && payload[SchemaVersion] == SCHEMA_ONE && payload[EventId] == JStr(e.id)
            && payload[KeyId] == JStr(p.keyId(e.key)) && payload[PreviousEventHash] == HashJson(e.previous)
            && BodyFields(e.body, e.previous).Keys <= payload.Keys
            && forall f :: f in BodyFields(e.body, e.previous) && f !in COMMON_FIELDS ==>
                             payload[f] == BodyFields(e.body, e.previous)[f]
  {
    hide BodyFields, OwnFields, TypeOf;
    BodyFieldsOf(e.body, e.previous);
  }

  lemma RenderedFields(p: Primitives, e: Entry)
    ensures var event := Render(p, e);
            && OwnFields(e.body) + COMMON_FIELDS + SEAL + {EventType} <= event.Keys
            && Get(event, SchemaVersion) == SCHEMA_ONE
            && Get(event, EventType) == TypeOf(e.body)
            && Get(event, EventId) == JStr(e.id)
            && Get(event, KeyId) == JStr(p.keyId(e.key))
            && Get(event, PreviousEventHash) == HashJson(e.previous)
            && Get(event, EventHash) == JStr(HashOf(p, e))
            && Get(event, Signature) == JStr(p.sign(e.key, HashOf(p, e)))
            && UnsignedPayload(event) == PayloadOf(p, e)
            && StoredHash(event) == Some(HashOf(p, e))
  {
    hide PayloadOf, OwnFields, TypeOf, UnsignedPayload;
    PayloadFieldsOf(p, e);
    FinalizeKeepsPayload(p, PayloadOf(p, e), e.key);
  }

  // A field of the body reads the same in the rendered event.
  lemma RenderedBodyField(p: Primitives, e: Entry, f: Field)
    requires f in BodyFields(e.body, e.previous) && f !in COMMON_FIELDS
    ensures f in Render(p, e) && Get(Render(p, e), f) == BodyFields(e.body, e.previous)[f]
  {
    hide BodyFields, OwnFields, TypeOf, PayloadOf;
    PayloadFieldsOf(p, e);
    BodyFieldsOf(e.body, e.previous);
  }

  lemma RenderedCheckpoint(p: Primitives, e: Entry)
    requires e.body.CheckpointBody?
    ensures Get(Render(p, e), CheckpointCount) == JNum(e.body.count)
    ensures Get(Render(p, e), HeadSha256) == HashJson(e.previous)
    ensures {CheckpointCount, HeadSha256} <= Render(p, e).Keys
  {
    hide Render;
    RenderedBodyField(p, e, CheckpointCount);
    RenderedBodyField(p, e, HeadSha256);
  }

  lemma RequiredOfBody(body: Body)
    ensures RequiredFields(TypeOf(body)) <= OwnFields(body) + COMMON_FIELDS + SEAL + {EventType}
    ensures KnownType(TypeOf(body)) && (TypeOf(body) == CHECKPOINT <==> body.CheckpointBody?)
  {
  }

  // A rendered event raises no issue at its place in the chain.
  lemma {:induction false} RenderedEventOk(p: Primitives, e: Entry, trusted: Keyring)
    requires SoundSigning(p) && p.keyId(e.key) in trusted && trusted[p.keyId(e.key)] == e.key
    ensures EventOk(p, Render(p, e), e.previous, trusted)
  {
    hide Render, OwnFields, TypeOf, RequiredFields, KnownType, UnsignedPayload, PayloadOf;
    RenderedFields(p, e);
    RequiredOfBody(e.body);
    if e.body.CheckpointBody? {
      RenderedCheckpoint(p, e);
    }
    var event := Render(p, e);
    assert p.verifies(e.key, HashOf(p, e), p.sign(e.key, HashOf(p, e)));
    assert SchemaVersion in event && EventType in event && KeyId in event && Signature in event && EventHash in event;
    assert RequiredFields(event[EventType]) <= event.Keys;
    assert SignedBy(p, trusted[event[KeyId].s], p.digest(UnsignedPayload(event)), event[Signature]);
  }

  // ----- the whole journal verifies -----

  // The foreign calls behave as documented: signatures verify, key ids do not
  // collide, and str() of a string is the string.
  ghost predicate Documented(p: Primitives) {
    SoundSigning(p) && DistinctKeyIds(p) && FaithfulText(p)
  }

  lemma EntryInRing(p: Primitives, s: State, keys: seq<Key>, i: nat)
    requires DistinctKeyIds(p) && Inv(p, s) && i < |s.journal|
    requires forall key :: key in s.home.trusted ==> key in keys
    ensures var e, ring := s.journal[i], ToKeyring(p, keys);
            && p.keyId(e.key) in ring && ring[p.keyId(e.key)] == e.key
            && e.seen <= i && e.previous == HashBefore(p, s.journal, e.seen)
  {
    hide WorkerOk, SharedOk;
    assert EntryOk(p, s, i);
    KeyringHoldsKeys(p, keys);
  }

  lemma PreviousRendered(p: Primitives, journal: seq<Entry>, i: nat)
    requires i <= |journal|
    ensures PreviousOf(Events(p, journal), i) == HashBefore(p, journal, i)
  {
    hide Render, HashOf;
    if i > 0 {
      RenderedFields(p, journal[i - 1]);
    }
  }

  // Every line was stored where its writer had read to.
  predicate Settled(journal: seq<Entry>) {
    forall i :: 0 <= i < |journal| ==> journal[i].seen == i
  }

  lemma JournalIsChained(p: Primitives, s: State, keys: seq<Key>)
    requires Documented(p) && Inv(p, s) && Settled(s.journal)
    requires forall key :: key in s.home.trusted ==> key in keys
    ensures Chained(p, ToKeyring(p, keys), Events(p, s.journal))
  {
    hide Inv, Render, EventOk, HashBefore, ToKeyring, PreviousOf;
    var events := Events(p, s.journal);
    forall i | 0 <= i < |events|
      ensures EventOk(p, events[i], PreviousOf(events, i), ToKeyring(p, keys))
    {
      EntryInRing(p, s, keys, i);
      PreviousRendered(p, s.journal, i);
      RenderedEventOk(p, s.journal[i], ToKeyring(p, keys));
    }
  }

  lemma CountsRendered(p: Primitives, s: State)
    requires Inv(p, s) && Settled(s.journal)
    ensures CountsArePositions(Events(p, s.journal))
  {
    hide WorkerOk, SharedOk, Render;
    var events := Events(p, s.journal);
    forall i | 0 <= i < |events| && IsCheckpoint(events[i])
      ensures AsInt(Get(events[i], CheckpointCount)) == Some(i)
    {
      RenderedFields(p, s.journal[i]);
      RequiredOfBody(s.journal[i].body);
      RenderedCheckpoint(p, s.journal[i]);
      assert EntryOk(p, s, i);
    }
  }

  // ----- lines stored behind others -----

  // A broken link for each line that was not stored where its writer had read to.
  function Breaks(journal: seq<Entry>): (issues: seq<Issue>)
    ensures |issues| <= |journal|
  {
    if |journal| == 0 then []
    else
      var n := |journal| - 1;
      Breaks(journal[..n]) + When(journal[n].seen != n, n + 1, ChainBreak)
  }

  lemma {:induction false} BreaksAre(journal: seq<Entry>)
    ensures forall issue :: issue in Breaks(journal) <==>
                              exists i :: 0 <= i < |journal| && journal[i].seen != i && issue == Issue(i + 1, ChainBreak)
    ensures Breaks(journal) == [] <==> Settled(journal)
  {
    if |journal| > 0 {
      var n := |journal| - 1;
      BreaksAre(journal[..n]);
      if journal[n].seen != n {
        assert Issue(n + 1, ChainBreak) in Breaks(journal);
      }
    }
  }

  // The link of a line is that of its place exactly when it was stored where
  // its writer had read to.
  ghost predicate LinksTell(p: Primitives, journal: seq<Entry>) {
    forall i :: 0 <= i < |journal| ==> (journal[i].previous == HashBefore(p, journal, i) <==> journal[i].seen == i)
  }

  lemma IdealLinksTell(p: Primitives, s: State)
    requires Inv(p, s) && (IdealDigest(p) || Settled(s.journal))
    ensures LinksTell(p, s.journal)
  {
    hide Inv, EntryOk, HashBefore;
    forall i | 0 <= i < |s.journal|
      ensures s.journal[i].previous == HashBefore(p, s.journal, i) <==> s.journal[i].seen == i
    {
      EntryPart(p, s, i);
      ReadBefore(p, s, i);
      if IdealDigest(p) && s.journal[i].seen < i {
        PlacesHaveOwnHashes(p, s, s.journal[i].seen, i);
      }
    }
  }

  lemma ReadBefore(p: Primitives, s: State, i: nat)
    requires i < |s.journal| && EntryOk(p, s, i)
    ensures s.journal[i].seen <= i && s.journal[i].previous == HashBefore(p, s.journal, s.journal[i].seen)
  {
    hide HashBefore;
  }

  lemma PlacesHaveOwnHashes(p: Primitives, s: State, i: nat, j: nat)
    requires Inv(p, s) && IdealDigest(p) && i < j <= |s.journal|
    ensures HashBefore(p, s.journal, i) != HashBefore(p, s.journal, j)
  {
    hide Inv, HashOf, IdealDigest;
    if i > 0 && HashBefore(p, s.journal, i) == HashBefore(p, s.journal, j) {
      SameHashSameId(p, s.journal[i - 1], s.journal[j - 1]);
      SameIdSameEntry(p, s, i - 1, j - 1);
    }
  }

  lemma SameHashSameId(p: Primitives, a: Entry, b: Entry)
    requires IdealDigest(p) && HashOf(p, a) == HashOf(p, b)
    ensures a.id == b.id
  {
    hide PayloadOf, OwnFields;
    PayloadFieldsOf(p, a);
    PayloadFieldsOf(p, b);
  }

  // Against another expected hash an event that is in order only has a broken link.
  lemma OnlyTheLinkBreaks(p: Primitives, e: Event, expected: Option<string>, other: Option<string>, trusted: Keyring,
                          number: nat)
    requires EventOk(p, e, expected, trusted)
    ensures !Crashes(e)
    ensures EventIssues(p, e, number, other, trusted) == When(other != expected, number, ChainBreak)
  {
  }

  // The state of the pass after the first k lines of a journal.
  ghost predicate ScannedTo(p: Primitives, trusted: Keyring, journal: seq<Entry>, id: Option<string>, k: nat)
    requires k <= |journal|
  {
    var kept := journal[..k];
    var events := Events(p, kept);
    ScanLines(p, trusted, id, Objects(events))
    == Scan(Running, HashBefore(p, journal, k), Breaks(kept), k - |Breaks(kept)|, k,
            LastCheckpoint(events), id.Some? && Chain.Holds(events, id.value), events)
  }

  lemma {:induction false} ScanOfRun(p: Primitives, s: State, keys: seq<Key>, id: Option<string>, k: nat)
    requires Documented(p) && Inv(p, s) && (IdealDigest(p) || Settled(s.journal)) && k <= |s.journal|
    requires forall key :: key in s.home.trusted ==> key in keys
    ensures ScannedTo(p, ToKeyring(p, keys), s.journal, id, k)
  {
    hide Inv, ScannedTo, ToKeyring;
    if k == 0 {
      NothingScanned(p, ToKeyring(p, keys), s.journal, id);
    } else {
      ScanOfRun(p, s, keys, id, k - 1);
      OneMoreScanned(p, s, keys, id, k - 1);
    }
  }

  lemma NothingScanned(p: Primitives, trusted: Keyring, journal: seq<Entry>, id: Option<string>)
    ensures ScannedTo(p, trusted, journal, id, 0)
  {
    assert Events(p, journal[..0]) == [];
  }

  lemma OneMoreScanned(p: Primitives, s: State, keys: seq<Key>, id: Option<string>, k: nat)
    requires Documented(p) && Inv(p, s) && (IdealDigest(p) || Settled(s.journal)) && k < |s.journal|
    requires forall key :: key in s.home.trusted ==> key in keys
    requires ScannedTo(p, ToKeyring(p, keys), s.journal, id, k)
    ensures ScannedTo(p, ToKeyring(p, keys), s.journal, id, k + 1)
  {
    hide Inv, ScanLines, Render, EventIssues, EventOk, Crashes, Chain.Holds, ToKeyring, HashBefore;
    var e, ring := s.journal[k], ToKeyring(p, keys);
    var kept := s.journal[..k + 1];
    var events := Events(p, kept);
    assert kept[..k] == s.journal[..k] && events[..k] == Events(p, kept[..k]);
    ScanSnoc(p, ring, id, events);
    EntryInRing(p, s, keys, k);
    RenderedEventOk(p, e, ring);
    OnlyTheLinkBreaks(p, Render(p, e), e.previous, HashBefore(p, s.journal, k), ring, k + 1);
    IdealLinksTell(p, s);
    HashAfter(p, s.journal, k);
    if id.Some? {
      HoldsSnoc(events, id.value);
    }
  }

  lemma HashAfter(p: Primitives, journal: seq<Entry>, k: nat)
    requires k < |journal|
    ensures HashBefore(p, journal, k + 1) == StoredHash(Render(p, journal[k]))
  {
    hide Render, HashOf;
    RenderedFields(p, journal[k]);
  }

  // No checkpoint counts more lines than there are, wherever the journal is cut.
  lemma KeptIsCovered(p: Primitives, s: State, k: nat)
    requires Inv(p, s) && k <= |s.journal|
    ensures Covered(Events(p, s.journal[..k]))
  {
    hide Inv, Render, LastCheckpoint;
    var events := Events(p, s.journal[..k]);
    var i := LastCheckpointIs(events);
    if LastCheckpoint(events).Some? {
      CheckpointCounts(p, s, i);
    }
  }

  lemma CheckpointCounts(p: Primitives, s: State, i: nat)
    requires Inv(p, s) && i < |s.journal| && IsCheckpoint(Render(p, s.journal[i]))
    ensures s.journal[i].seen <= i
    ensures AsInt(Get(Render(p, s.journal[i]), CheckpointCount)) == Some(s.journal[i].seen)
  {
    hide WorkerOk, SharedOk, Render;
    RenderedFields(p, s.journal[i]);
    RequiredOfBody(s.journal[i].body);
    RenderedCheckpoint(p, s.journal[i]);
    assert EntryOk(p, s, i);
  }

  // ----- the whole journal audits -----

  lemma RenderedKind(p: Primitives, e: Entry)
    requires FaithfulText(p)
    ensures var event := Render(p, e);
            && (IsDecision(event) <==> e.body.DecisionBody?)
            && (IsOutcome(event) <==> e.body.OutcomeBody?)
            && Id(p, event) == e.id
  {
    hide Render, OwnFields;
    RenderedFields(p, e);
  }

  lemma RenderedDecision(p: Primitives, e: Entry)
    requires e.body.DecisionBody?
    ensures Get(Render(p, e), Decision) == if e.body.allowed then ALLOWED else DENIED
  {
    hide Render, ContractFields, DecisionFields;
    DecisionFieldsOf(e.body.call, e.body.allowed);
    RenderedBodyField(p, e, Decision);
  }

  lemma RenderedContract(p: Primitives, e: Entry)
    requires e.body.DecisionBody? || e.body.OutcomeBody?
    ensures var event := Render(p, e);
            && Get(event, ActionId) == JStr(e.body.call.contract.actionId)
            && Get(event, ActionName) == JStr(e.body.call.contract.actionName)
            && Get(event, ContractHash) == JStr(e.body.call.contract.contractHash)
  {
    hide Render, DecisionFields, OutcomeFields;
    ContractInBody(e.body, e.previous);
    RenderedBodyField(p, e, ActionId);
    RenderedBodyField(p, e, ActionName);
    RenderedBodyField(p, e, ContractHash);
  }

  lemma ContractInBody(body: Body, previous: Option<string>)
    requires body.DecisionBody? || body.OutcomeBody?
    ensures var fields := BodyFields(body, previous);
            && CONTRACT_FIELDS <= fields.Keys
            && fields[ActionId] == JStr(body.call.contract.actionId)
            && fields[ActionName] == JStr(body.call.contract.actionName)
            && fields[ContractHash] == JStr(body.call.contract.contractHash)
  {
    hide DecisionFields, OutcomeFields;
    if body.DecisionBody? {
      DecisionFieldsOf(body.call, body.allowed);
    } else {
      OutcomeFieldsOf(body.decisionId, body.effect);
    }
  }

  lemma RenderedOutcome(p: Primitives, e: Entry)
    requires FaithfulText(p) && e.body.OutcomeBody?
    ensures Ref(p, Render(p, e)) == e.body.decisionId
    ensures Get(Render(p, e), Status) == if e.body.effect.Returned? then SUCCEEDED else FAILED
  {
    hide Render, ContractFields, OutcomeFields;
    OutcomeFieldsOf(e.body.decisionId, e.body.effect);
    RenderedBodyField(p, e, DecisionEventId);
    RenderedBodyField(p, e, Status);
  }

  // The links from workers into the journal, seen from the journal's side.
  lemma OutcomeAuthor(p: Primitives, s: State, o: nat)
    requires Inv(p, s) && o < |s.journal| && s.journal[o].body.OutcomeBody?
    ensures var w := s.journal[o].author;
            && w < |s.workers| && s.workers[w].outcomeAt == Some(o) && s.workers[w].decisionAt.Some?
            && OutcomeLink(s, w, s.workers[w].decisionAt.value, o)
            && DecisionLink(s, w, s.workers[w].decisionAt.value)
            && Approved(s, s.workers[w])
  {
    hide SharedOk;
    assert EntryOk(p, s, o);
    assert WorkerOk(p, s, s.journal[o].author);
  }

  lemma DecisionAuthor(p: Primitives, s: State, d: nat)
    requires Inv(p, s) && d < |s.journal| && s.journal[d].body.DecisionBody?
    ensures var w := s.journal[d].author;
            w < |s.workers| && s.workers[w].decisionAt == Some(d) && DecisionLink(s, w, d)
  {
    hide SharedOk;
    assert EntryOk(p, s, d);
    assert WorkerOk(p, s, s.journal[d].author);
  }

  lemma SameIdSameEntry(p: Primitives, s: State, i: nat, j: nat)
    requires Inv(p, s) && i < |s.journal| && j < |s.journal| && s.journal[i].id == s.journal[j].id
    ensures i == j
  {
    hide WorkerOk, EntryOk;
  }

  // The outcome written by a worker answers the decision written by it, and no other.
  lemma OwnOutcomeAnswers(p: Primitives, s: State, o: nat)
    requires FaithfulText(p) && Inv(p, s) && o < |s.journal| && s.journal[o].body.OutcomeBody?
    ensures var w := s.journal[o].author;
            && w < |s.workers| && s.workers[w].decisionAt.Some? && s.workers[w].decisionAt.value < o
            && Answers(p, Events(p, s.journal), o, s.workers[w].decisionAt.value)
  {
    hide Inv, Render;
    OutcomeAuthor(p, s, o);
    var w := s.journal[o].author;
    var d := s.workers[w].decisionAt.value;
    RenderedKind(p, s.journal[o]);
    RenderedKind(p, s.journal[d]);
    RenderedOutcome(p, s.journal[o]);
    RenderedDecision(p, s.journal[d]);
    RenderedContract(p, s.journal[o]);
    RenderedContract(p, s.journal[d]);
  }

  lemma {:induction false} JournalIsCoherent(p: Primitives, s: State)
    requires FaithfulText(p) && Inv(p, s)
    ensures Coherent(p, Events(p, s.journal))
  {
    hide Inv, Render, Answers, Id, IsDecision, IsOutcome, KnownDecision, Ref;
    var events := Events(p, s.journal);
    forall i, j | 0 <= i < j < |events|
      ensures Id(p, events[i]) != Id(p, events[j])
    {
      RenderedKind(p, s.journal[i]);
      RenderedKind(p, s.journal[j]);
      if s.journal[i].id == s.journal[j].id {
        SameIdSameEntry(p, s, i, j);
      }
    }
    forall o | 0 <= o < |events| && IsOutcome(events[o])
      ensures exists d :: 0 <= d < o && Answers(p, events, o, d)
    {
      RenderedKind(p, s.journal[o]);
      OwnOutcomeAnswers(p, s, o);
    }
    forall i, j | 0 <= i < j < |events| && IsOutcome(events[i]) && IsOutcome(events[j])
      ensures Ref(p, events[i]) != Ref(p, events[j])
    {
      RefsDiffer(p, s, i, j);
    }
    forall d | 0 <= d < |events| && IsDecision(events[d])
      ensures KnownDecision(events[d])
    {
      RenderedKind(p, s.journal[d]);
      DecisionIsKnown(p, s.journal[d]);
    }
  }

  lemma DecisionIsKnown(p: Primitives, e: Entry)
    requires e.body.DecisionBody?
    ensures KnownDecision(Render(p, e))
  {
    hide Render;
    RenderedDecision(p, e);
  }

  lemma RefsDiffer(p: Primitives, s: State, i: nat, j: nat)
    requires FaithfulText(p) && Inv(p, s) && i < j < |s.journal|
    requires IsOutcome(Events(p, s.journal)[i]) && IsOutcome(Events(p, s.journal)[j])
    ensures Ref(p, Events(p, s.journal)[i]) != Ref(p, Events(p, s.journal)[j])
  {
    hide Inv, Render, IsOutcome, Ref;
    RenderedKind(p, s.journal[i]);
    RenderedKind(p, s.journal[j]);
    RenderedOutcome(p, s.journal[i]);
    RenderedOutcome(p, s.journal[j]);
    OutcomeAuthor(p, s, i);
    OutcomeAuthor(p, s, j);
    if s.journal[i].body.decisionId == s.journal[j].body.decisionId {
      SameIdSameEntry(p, s, s.workers[s.journal[i].author].decisionAt.value, s.workers[s.journal[j].author].decisionAt.value);
    }
  }

  // ----- main results, over every run -----

  // Whatever is interleaved with whatever, and with every key list that includes
  // the trusted set: the verifier reports a broken link for each line that was
  // stored behind lines its writer had not read, and nothing else, so the
  // journal verifies exactly when there is no such line. It always audits
  // without an issue.
  lemma EveryRunVerifiesAndAudits(p: Primitives, actions: seq<Action>, keys: seq<Key>)
    requires Documented(p) && (IdealDigest(p) || Settled(Run(p, actions).journal))
    requires forall key :: key in Run(p, actions).home.trusted ==> key in keys
    ensures var journal := Run(p, actions).journal;
            var events := Events(p, journal);
            && Verify(p, ToKeyring(p, keys), Readable(Objects(events)), None)
               == Finished(Report(Settled(journal), |events| - |Breaks(journal)|, Breaks(journal)), events)
            && AuditOf(p, events).StructurallyValid()
  {
    hide Inv, Covered, Coherent, AuditOf, Verify, Run, ScanLines, Breaks, LastCheckpoint, Render;
    var s := Run(p, actions);
    var events := Events(p, s.journal);
    ReachableIsSafe(p, actions);
    assert s.journal[..|s.journal|] == s.journal;
    ScanOfRun(p, s, keys, None, |s.journal|);
    KeptIsCovered(p, s, |s.journal|);
    CoveredReport(p, ToKeyring(p, keys), events);
    BreaksAre(s.journal);
    JournalIsCoherent(p, s);
    AuditExact(p, events);
  }

  predicate AllowedAt(s: State, d: nat) {
    d < |s.journal| && s.journal[d].body.DecisionBody? && s.journal[d].body.allowed
  }

  // The audited status of an invocation tells what its target did.
  lemma StatusTellsWhatHappened(p: Primitives, actions: seq<Action>, w: nat)
    requires FaithfulText(p) && w < |Run(p, actions).workers| && Run(p, actions).workers[w].decisionAt.Some?
    ensures var s := Run(p, actions);
            var worker, events := s.workers[w], Events(p, s.journal);
            && worker.decisionAt.value < |s.journal|
            && var id := s.journal[worker.decisionAt.value].id;
            && DecisionOf(p, events, id) == Some(worker.decisionAt.value)
            && var status := InvocationOf(p, events, id).status;
            && (status.Denied? ==> worker.runs == 0)
            && (status.Denied? <==> !AllowedAt(s, worker.decisionAt.value))
            && (status.Succeeded? <==> worker.outcomeAt.Some? && worker.effect.Some? && worker.effect.value.Returned?)
            && (status.Failed? <==> worker.outcomeAt.Some? && worker.effect.Some? && worker.effect.value.Threw?)
            && (worker.runs == 1 && worker.outcomeAt.None? ==> status.NeedsReconciliation?)
  {
    hide Inv, Run, Answers, AnsweredWith, Render, Coherent, DecisionOf, InvocationOf;
    ReachableIsSafe(p, actions);
    StatusInState(p, Run(p, actions), w);
  }

  lemma StatusInState(p: Primitives, s: State, w: nat)
    requires FaithfulText(p) && Inv(p, s) && w < |s.workers| && s.workers[w].decisionAt.Some?
    ensures var worker, events := s.workers[w], Events(p, s.journal);
            && worker.decisionAt.value < |s.journal|
            && var id := s.journal[worker.decisionAt.value].id;
            && DecisionOf(p, events, id) == Some(worker.decisionAt.value)
            && var status := InvocationOf(p, events, id).status;
            && (status.Denied? ==> worker.runs == 0)
            && (status.Denied? <==> !AllowedAt(s, worker.decisionAt.value))
            && (status.Succeeded? <==> worker.outcomeAt.Some? && worker.effect.Some? && worker.effect.value.Returned?)
            && (status.Failed? <==> worker.outcomeAt.Some? && worker.effect.Some? && worker.effect.value.Threw?)
            && (worker.runs == 1 && worker.outcomeAt.None? ==> status.NeedsReconciliation?)
  {
    hide Inv, Answers, AnsweredWith, Render, Coherent, DecisionOf, InvocationOf, Id, IsDecision;
    var worker, events := s.workers[w], Events(p, s.journal);
    WorkerLinks(p, s, w);
    var d := worker.decisionAt.value;
    RenderedKind(p, s.journal[d]);
    RenderedDecision(p, s.journal[d]);
    JournalIsCoherent(p, s);
    CoherentStatus(p, events, d);
    AnswersAreOwn(p, s, w);
  }

  lemma WorkerLinks(p: Primitives, s: State, w: nat)
    requires Inv(p, s) && w < |s.workers|
    ensures LinksOk(s, w) && s.workers[w].runs <= 1
    ensures s.workers[w].decisionAt.Some? ==> DecisionLink(s, w, s.workers[w].decisionAt.value)
    ensures s.workers[w].runs == 1 ==> Approved(s, s.workers[w])
    ensures s.workers[w].outcomeAt.Some? ==> s.workers[w].decisionAt.Some?
                                             && OutcomeLink(s, w, s.workers[w].decisionAt.value, s.workers[w].outcomeAt.value)
  {
    hide SharedOk, EntryOk;
    assert WorkerOk(p, s, w);
  }

  // A decision is answered by its own worker's outcome, if there is one, and by nothing else.
  lemma AnswersAreOwn(p: Primitives, s: State, w: nat)
    requires FaithfulText(p) && Inv(p, s) && w < |s.workers| && s.workers[w].decisionAt.Some?
    requires s.workers[w].decisionAt.value < |s.journal|
    ensures var events, worker := Events(p, s.journal), s.workers[w];
            var d := worker.decisionAt.value;
            && (forall o :: 0 <= o < |events| ==> (Answers(p, events, o, d) <==> worker.outcomeAt == Some(o)))
            && (AnsweredWith(p, events, d, SUCCEEDED) <==>
                  worker.outcomeAt.Some? && worker.effect.Some? && worker.effect.value.Returned?)
            && (AnsweredWith(p, events, d, FAILED) <==>
                  worker.outcomeAt.Some? && worker.effect.Some? && worker.effect.value.Threw?)
  {
    hide Inv, Answers, Render, LinksOk;
    var events, worker := Events(p, s.journal), s.workers[w];
    var d := worker.decisionAt.value;
    WorkerLinks(p, s, w);
    forall o | 0 <= o < |events|
      ensures Answers(p, events, o, d) <==> worker.outcomeAt == Some(o)
      ensures worker.outcomeAt == Some(o) ==>
                worker.effect.Some?
                && Get(events[o], Status) == if worker.effect.value.Returned? then SUCCEEDED else FAILED
    {
      AnswerIsOwn(p, s, w, o);
    }
    if worker.outcomeAt.Some? {
      var o := worker.outcomeAt.value;
      assert Answers(p, events, o, d);
    }
  }

  lemma AnswerIsOwn(p: Primitives, s: State, w: nat, o: nat)
    requires FaithfulText(p) && Inv(p, s) && w < |s.workers| && s.workers[w].decisionAt.Some?
    requires s.workers[w].decisionAt.value < |s.journal| && o < |s.journal|
    ensures var events, worker := Events(p, s.journal), s.workers[w];
            && (Answers(p, events, o, worker.decisionAt.value) <==> worker.outcomeAt == Some(o))
            && (worker.outcomeAt == Some(o) ==>
                  worker.effect.Some?
                  && Get(events[o], Status) == if worker.effect.value.Returned? then SUCCEEDED else FAILED)
  {
    hide Inv, Answers, Render, LinksOk, Id, Ref, IsOutcome, IsDecision;
    var events, worker := Events(p, s.journal), s.workers[w];
    var d := worker.decisionAt.value;
    WorkerLinks(p, s, w);
    RenderedKind(p, s.journal[o]);
    RenderedKind(p, s.journal[d]);
    if worker.outcomeAt == Some(o) {
      OwnOutcomeAnswers(p, s, o);
      RenderedOutcome(p, s.journal[o]);
    }
    if Answers(p, events, o, d) {
      AnswersAfter(p, events, o, d);
      OutcomeAuthor(p, s, o);
      RenderedOutcome(p, s.journal[o]);
      SameIdSameEntry(p, s, d, s.workers[s.journal[o].author].decisionAt.value);
    }
  }

  // The worker whose decision an audited invocation reports.
  ghost predicate Owns(p: Primitives, s: State, w: nat, invocation: Invocation) {
    && w < |s.workers| && s.workers[w].decisionAt.Some?
    && DecisionOf(p, Events(p, s.journal), invocation.decisionEventId) == s.workers[w].decisionAt
    && invocation == InvocationOf(p, Events(p, s.journal), invocation.decisionEventId)
  }

  // Every audited invocation belongs to one worker, and only one.
  lemma {:induction false} EveryInvocationHasItsWorker(p: Primitives, actions: seq<Action>, invocation: Invocation)
    requires FaithfulText(p)
    requires invocation in AuditOf(p, Events(p, Run(p, actions).journal)).invocations
    ensures var s := Run(p, actions);
            exists w :: 0 <= w < |s.workers| && Owns(p, s, w, invocation)
                        && forall v :: 0 <= v < |s.workers| && Owns(p, s, v, invocation) ==> v == w
  {
    hide Inv, Run, AuditOf, Owns;
    ReachableIsSafe(p, actions);
    InvocationHasItsWorker(p, Run(p, actions), invocation);
  }

  lemma InvocationHasItsWorker(p: Primitives, s: State, invocation: Invocation)
    requires FaithfulText(p) && Inv(p, s) && invocation in AuditOf(p, Events(p, s.journal)).invocations
    ensures exists w :: 0 <= w < |s.workers| && Owns(p, s, w, invocation)
                        && forall v :: 0 <= v < |s.workers| && Owns(p, s, v, invocation) ==> v == w
  {
    hide Inv, Render, DecisionOf, DecisionOrder, Id, IsDecision, InvocationOf;
    var events := Events(p, s.journal);
    var ids := DecisionOrder(p, events);
    OrderIsDecided(p, events);
    var i :| 0 <= i < |ids| && Invocations(p, events, ids)[i] == invocation;
    InvocationAt(p, events, ids, i);
    InvocationNamesItself(p, events, ids[i]);
    DecisionOfIsFirst(p, events, ids[i]);
    var d := DecisionOf(p, events, ids[i]).value;
    RenderedKind(p, s.journal[d]);
    DecisionAuthor(p, s, d);
    var w := s.journal[d].author;
    assert Owns(p, s, w, invocation);
    forall v | 0 <= v < |s.workers| && Owns(p, s, v, invocation)
      ensures v == w
    {
      WorkerLinks(p, s, v);
    }
  }

  lemma InvocationNamesItself(p: Primitives, events: seq<Event>, id: string)
    requires DecisionOf(p, events, id).Some?
    ensures InvocationOf(p, events, id).decisionEventId == id
  {
  }

  // Every recorded call that was allowed returned, and its outcome is recorded.
  predicate AllAccountedFor(s: State) {
    forall w :: 0 <= w < |s.workers| ==> Accounted(s, s.workers[w])
  }

  predicate Accounted(s: State, worker: Worker) {
    worker.decisionAt.Some? && AllowedAt(s, worker.decisionAt.value) ==>
      worker.outcomeAt.Some? && worker.effect.Some? && worker.effect.value.Returned?
  }

  // Over every run: the audit asks for no reconciliation exactly when every
  // recorded allowed call returned and its outcome is recorded.
  lemma NothingToReconcile(p: Primitives, actions: seq<Action>)
    requires FaithfulText(p)
    ensures var s := Run(p, actions);
            !AuditOf(p, Events(p, s.journal)).NeedsReconciling() <==> AllAccountedFor(s)
  {
    hide Run, AuditOf, Accounted, Owns, DecisionOf, InvocationOf;
    var s := Run(p, actions);
    var events := Events(p, s.journal);
    var invocations := AuditOf(p, events).invocations;
    ReachableIsSafe(p, actions);
    hide Inv;
    if AllAccountedFor(s) {
      forall i | 0 <= i < |invocations|
        ensures invocations[i].status !in {Failed, NeedsReconciliation}
      {
        assert invocations[i] in invocations;
        InvocationHasItsWorker(p, s, invocations[i]);
        var w :| 0 <= w < |s.workers| && Owns(p, s, w, invocations[i]);
        OwnedStatus(p, s, w, invocations[i]);
      }
    }
    if !AuditOf(p, events).NeedsReconciling() {
      forall w | 0 <= w < |s.workers|
        ensures Accounted(s, s.workers[w])
      {
        RecordedCallIsAccounted(p, s, w);
      }
    }
  }

  lemma OwnedStatus(p: Primitives, s: State, w: nat, invocation: Invocation)
    requires FaithfulText(p) && Inv(p, s) && w < |s.workers| && Owns(p, s, w, invocation)
    ensures invocation.status in {Failed, NeedsReconciliation} <==> !Accounted(s, s.workers[w])
  {
    hide Inv, DecisionOf, InvocationOf, AllowedAt;
    StatusInState(p, s, w);
    DecisionOfIsFirst(p, Events(p, s.journal), invocation.decisionEventId);
    RenderedKind(p, s.journal[s.workers[w].decisionAt.value]);
  }

  lemma RecordedCallIsAccounted(p: Primitives, s: State, w: nat)
    requires FaithfulText(p) && Inv(p, s) && w < |s.workers|
    requires !AuditOf(p, Events(p, s.journal)).NeedsReconciling()
    ensures Accounted(s, s.workers[w])
  {
    hide Inv, DecisionOf, InvocationOf, AllowedAt, AuditOf;
    if s.workers[w].decisionAt.Some? {
      StatusInState(p, s, w);
      var id := s.journal[s.workers[w].decisionAt.value].id;
      var i := PlaceOf(p, Events(p, s.journal), id);
      assert AuditOf(p, Events(p, s.journal)).invocations[i] == InvocationOf(p, Events(p, s.journal), id);
    }
  }
}
