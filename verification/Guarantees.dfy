// What the guard promises its caller over every run: order of effects, the
// meaning of each ending, key rotation, and checkpoint witnesses.
module Guarantees {
  import opened Wrappers
  import opened Json
  import opened Evidence
  import opened Protocol
  import opened Safety
  import opened Verification
  import opened Chain
  import opened Tamper
  import opened EndToEnd
  import opened LateLines
  import opened WitnessLaws
  import opened Identity
  import Audit

  // ----- nothing is taken back -----

  // The journal is append-only, and trust, notices and witnesses only grow.
  ghost predicate Grows(s: State, t: State) {
    && s.journal <= t.journal
    && s.home.trusted <= t.home.trusted && s.home.broken <= t.home.broken
    && s.told <= t.told
    && s.witnesses <= t.witnesses
    && |s.workers| <= |t.workers|
  }

  lemma StepGrows(p: Primitives, s: State, a: Action)
    ensures Grows(s, Step(p, s, a))
  {
    hide Fresh, BodyFor, HashOf;
    if a.Tick? && a.worker < |s.workers| {
      TickGrows(p, s, a.worker, a.choice);
    }
  }

  lemma TickGrows(p: Primitives, s: State, w: nat, choice: Choice)
    requires w < |s.workers|
    ensures Grows(s, StepTick(p, s, w, choice))
  {
    hide StepNotify, StepIdentity, StepApprove, StepAppend, StepCall, Grows;
    PreludeGrows(p, s, w, choice);
    AppendGrows(p, s, w, choice);
    NothingGrows(s);
  }

  lemma NothingGrows(s: State)
    ensures Grows(s, s)
  {
  }

  lemma PreludeGrows(p: Primitives, s: State, w: nat, choice: Choice)
    requires w < |s.workers|
    ensures Grows(s, StepNotify(s, w, choice)) && Grows(s, StepIdentity(s, w, choice))
    ensures Grows(s, StepApprove(s, w, choice)) && Grows(s, StepCall(s, w, choice))
  {
    hide NoticeOf, AfterIdentity, StepIdentity;
    IdentityGrows(s, w, choice);
  }

  lemma IdentityGrows(s: State, w: nat, choice: Choice)
    requires w < |s.workers|
    ensures Grows(s, StepIdentity(s, w, choice))
  {
    hide AfterIdentity, Register;
    RegisterGrows(s.home);
  }

  lemma RegisterGrows(home: Home)
    ensures forall key, torn :: home.trusted <= Register(home, key, torn).trusted
                                && home.broken <= Register(home, key, torn).broken
  {
  }

  lemma AppendGrows(p: Primitives, s: State, w: nat, choice: Choice)
    requires w < |s.workers|
    ensures Grows(s, StepAppend(p, s, w, choice))
  {
    hide Fresh, BodyFor, TailHash, AfterWrite;
  }

  lemma {:induction false} RunGrows(p: Primitives, actions: seq<Action>, n: nat)
    requires n <= |actions|
    ensures Grows(Run(p, actions[..n]), Run(p, actions))
  {
    hide Step;
    var m := |actions| - 1;
    if n == |actions| {
      assert actions[..n] == actions;
    } else {
      assert actions[..m][..n] == actions[..n];
      RunGrows(p, actions[..m], n);
      StepGrows(p, Run(p, actions[..m]), actions[m]);
    }
  }

  // ----- mutual exclusion -----

  // Between reading and writing a worker holds the lock alone. The hash it read
  // is that of the lines it counted, and what was stored since then can only be
  // late lines: with none of them, it is the hash of the journal as it stands.
  lemma {:induction false} ReadStaysCurrent(p: Primitives, actions: seq<Action>, w: nat)
    requires w < |Run(p, actions).workers| && Run(p, actions).workers[w].pc.Building?
    ensures var s := Run(p, actions);
            var pc := s.workers[w].pc;
            && s.lock == Some(w)
            && pc.count <= |s.journal| && pc.previous == TailHash(p, s.journal[..pc.count])
            && (forall k :: pc.count <= k < |s.journal| ==> s.journal[k].late)
            && (!StoresSomeLate(p, actions) ==> pc.previous == TailHash(p, s.journal) && pc.count == |s.journal|)
            && forall v :: 0 <= v < |s.workers| && v != w ==> !HoldsLock(s.workers[v].pc)
  {
    var s := Run(p, actions);
    ReachableIsSafe(p, actions);
    LateLinesAreStoredLate(p, actions);
    hide Run, Inv, WorkerOk, StoresSomeLate, TailHash, OnlyLate;
    Parts(p, s, w);
    ReadOfCounted(p, s, w);
    var count := s.workers[w].pc.count;
    AllLate(s.journal, count);
    LastOfLate(s.journal, count, |s.journal|);
    forall v | 0 <= v < |s.workers| && v != w
      ensures !HoldsLock(s.workers[v].pc)
    {
      Parts(p, s, v);
      HoldersLock(p, s, v);
    }
  }

  lemma ReadOfCounted(p: Primitives, s: State, w: nat)
    requires w < |s.workers| && WorkerOk(p, s, w) && s.workers[w].pc.Building?
    ensures var pc := s.workers[w].pc;
            && s.lock == Some(w) && pc.count <= |s.journal| && pc.previous == TailHash(p, s.journal[..pc.count])
            && OnlyLate(s.journal, pc.count)
  {
    hide LinksOk, PointOk, HashOf, OnlyLate;
  }

  lemma HoldersLock(p: Primitives, s: State, v: nat)
    requires v < |s.workers| && WorkerOk(p, s, v)
    ensures HoldsLock(s.workers[v].pc) ==> s.lock == Some(v)
  {
    hide LinksOk, PointOk, ReadOk;
  }

  lemma AllLate(journal: seq<Entry>, from: nat)
    requires OnlyLate(journal, from)
    ensures forall k :: from <= k < |journal| ==> journal[k].late
    ensures journal[..|journal|] == journal
  {
  }

  // Every event links to the lines its writer had read, and a checkpoint commits
  // to their number and to the hash of the last of them. What lies between them
  // and the event, if anything, are late lines, or the event is late itself; in
  // a settled journal they are all that lies before it.
  lemma CheckpointsCommitToTheirPrefix(p: Primitives, actions: seq<Action>, i: nat)
    requires i < |Run(p, actions).journal|
    ensures var journal := Run(p, actions).journal;
            var seen := journal[i].seen;
            && seen <= i && journal[i].previous == TailHash(p, journal[..seen])
            && (seen < i ==> journal[i].late || forall k :: seen <= k < i ==> journal[k].late)
            && (Settled(journal) ==> seen == i)
            && (journal[i].body.CheckpointBody? ==>
                  && journal[i].body.count == seen
                  && Get(Render(p, journal[i]), CheckpointCount) == JNum(seen)
                  && Get(Render(p, journal[i]), HeadSha256) == HashJson(TailHash(p, journal[..seen])))
  {
    var s := Run(p, actions);
    ReachableIsSafe(p, actions);
    hide Run, Inv, EntryOk, Render, TailHash;
    EntryPart(p, s, i);
    EntryOfRead(p, s, i);
    if s.journal[i].body.CheckpointBody? {
      RenderedCheckpoint(p, s.journal[i]);
    }
  }

  lemma EntryOfRead(p: Primitives, s: State, i: nat)
    requires i < |s.journal| && EntryOk(p, s, i)
    ensures var e := s.journal[i];
            && e.seen <= i && e.previous == TailHash(p, s.journal[..e.seen])
            && (e.seen < i ==> e.late || forall k :: e.seen <= k < i ==> s.journal[k].late)
            && (e.body.CheckpointBody? ==> e.body.count == e.seen)
  {
    hide HashOf;
    assert forall k :: 0 <= k < i ==> s.journal[..i][k] == s.journal[k];
  }

  // ----- the order of effects -----

  // A step that calls the target of a worker finds the worker's own allowed
  // decision already in the journal, its observer told, and no earlier call.
  lemma {:induction false} CalledOnceAfterAllowedDecision(p: Primitives, actions: seq<Action>, a: Action, w: nat)
    requires w < |Run(p, actions).workers|
    requires Step(p, Run(p, actions), a).workers[w].runs != Run(p, actions).workers[w].runs
    ensures var s := Run(p, actions);
            && s.workers[w].runs == 0 && Step(p, s, a).workers[w].runs == 1
            && Approved(s, s.workers[w]) && s.journal[s.workers[w].decisionAt.value].author == w
            && s.workers[w].task.Guarded?
            && var call := s.workers[w].task.call;
               call.observer.Some? ==>
                 Notice(s.workers[w].process, call.observer.value, call.contract.contractHash) in s.told
  {
    var s := Run(p, actions);
    ReachableIsSafe(p, actions);
    hide Inv, Run, LinksOk;
    Parts(p, s, w);
    RunsChangeAtCalls(p, s, a, w);
    WorkerLinks(p, s, w);
  }

  predicate SameRuns(s: State, t: State, w: nat) {
    w < |s.workers| && w < |t.workers| && t.workers[w].runs == s.workers[w].runs
  }

  lemma RunsChangeAtCalls(p: Primitives, s: State, a: Action, w: nat)
    requires w < |s.workers|
    ensures w < |Step(p, s, a).workers|
    ensures Step(p, s, a).workers[w].runs != s.workers[w].runs ==>
              s.workers[w].pc.Calling? && Step(p, s, a).workers[w].runs == s.workers[w].runs + 1
  {
    hide StepNotify, StepIdentity, StepApprove, StepAppend, StepCall;
    if a.Tick? && a.worker < |s.workers| {
      PreludeKeepsRuns(s, a.worker, a.choice, w);
      AppendKeepsRuns(p, s, a.worker, a.choice, w);
      CallRuns(s, a.worker, a.choice, w);
    }
  }

  lemma PreludeKeepsRuns(s: State, v: nat, choice: Choice, w: nat)
    requires v < |s.workers| && w < |s.workers|
    ensures SameRuns(s, StepNotify(s, v, choice), w) && SameRuns(s, StepIdentity(s, v, choice), w)
    ensures SameRuns(s, StepApprove(s, v, choice), w)
  {
    hide NoticeOf, AfterIdentity, StepIdentity;
    IdentityKeepsRuns(s, v, choice, w);
  }

  lemma IdentityKeepsRuns(s: State, v: nat, choice: Choice, w: nat)
    requires v < |s.workers| && w < |s.workers|
    ensures SameRuns(s, StepIdentity(s, v, choice), w)
  {
    hide AfterIdentity;
  }

  lemma AppendKeepsRuns(p: Primitives, s: State, v: nat, choice: Choice, w: nat)
    requires v < |s.workers| && w < |s.workers|
    ensures SameRuns(s, StepAppend(p, s, v, choice), w)
  {
    hide Fresh, BodyFor, HashOf, TailHash, AfterWrite;
  }

  lemma CallRuns(s: State, v: nat, choice: Choice, w: nat)
    requires v < |s.workers| && w < |s.workers|
    ensures var t := StepCall(s, v, choice);
            && w < |t.workers|
            && (t.workers[w].runs != s.workers[w].runs ==>
                  w == v && s.workers[w].pc.Calling? && t.workers[w].runs == s.workers[w].runs + 1)
  {
  }

  // A tracker remembers only what an observer was successfully told.
  lemma RememberedOnlyIfTold(p: Primitives, actions: seq<Action>, notice: Notice)
    requires notice in Run(p, actions).done
    ensures notice in Run(p, actions).told
  {
    ReachableIsSafe(p, actions);
    hide WorkerOk, EntryOk, Run;
  }

  // ----- the meaning of each ending -----

  // What an ended invocation tells its caller. The evidence error is raised
  // exactly when the target returned or threw and its own outcome append
  // failed; every other error of the guard means the target never ran.
  lemma EndingsMeanWhatTheySay(p: Primitives, actions: seq<Action>, w: nat)
    requires w < |Run(p, actions).workers| && Run(p, actions).workers[w].pc.Ended?
    ensures var s := Run(p, actions);
            var worker := s.workers[w];
            var ending := worker.pc.ending;
            && (ending.EvidenceIncomplete? <==> ending != Died && ending != Aborted && worker.effect.Some? && worker.lostOutcome)
            && (ending.EvidenceIncomplete? ==> worker.runs == 1 && worker.effect == Some(ending.effect))
            && (ending.Completed? ==>
                  worker.runs == 1 && worker.effect == Some(ending.effect) && !worker.lostOutcome
                  && worker.outcomeAt.Some? && worker.outcomeAt.value < |s.journal|
                  && s.journal[worker.outcomeAt.value].author == w)
            && (ending == Interrupted ==> worker.runs == 1 && worker.effect.None? && worker.outcomeAt.None?)
            && (ending == ActionDenied ==> worker.runs == 0 && DeniedEntry(s, worker))
            && (ending in {ObserverFailed, CanonicalizationFailed, IdentityFailed, ApprovalFailed} ==>
                  worker.runs == 0 && worker.decisionAt.None? && worker.outcomeAt.None?)
            && (ending == DecisionNotRecorded ==> worker.runs == 0)
  {
    var s := Run(p, actions);
    ReachableIsSafe(p, actions);
    hide Inv, Run;
    Parts(p, s, w);
  }

  // ----- key rotation -----

  // Rotation keeps history verifiable: whatever key list is used, if it includes
  // the trusted set of any later moment, the report on the journal as it stood at
  // an earlier one is the same, however many rotations lie between.
  lemma RotationKeepsHistoryVerifiable(p: Primitives, actions: seq<Action>, n: nat, keys: seq<Key>)
    requires Documented(p) && n <= |actions|
    requires IdealDigest(p) || Settled(Run(p, actions[..n]).journal)
    requires forall key :: key in Run(p, actions).home.trusted ==> key in keys
    ensures var journal := Run(p, actions[..n]).journal;
            var events := Events(p, journal);
            Verify(p, ToKeyring(p, keys), Readable(Objects(events)), None)
            == Finished(Report(Settled(journal), |events| - |Breaks(journal)|, Breaks(journal)), events)
  {
    hide Verify, Run, ToKeyring, Render, Breaks, Settled, Audit.AuditOf;
    RunGrows(p, actions, n);
    EveryRunVerifiesAndAudits(p, actions[..n], keys);
  }

  // The key of every identity ever loaded, created or rotated to stays trusted:
  // a worker has it from the registration on, or ends with it after a rotation.
  lemma LoadedIdentityStaysTrusted(p: Primitives, actions: seq<Action>, n: nat, w: nat)
    requires n <= |actions| && w < |Run(p, actions[..n]).workers|
    requires KeyInUse(Run(p, actions[..n]).workers[w].pc).Some?
    ensures KeyInUse(Run(p, actions[..n]).workers[w].pc).value in Run(p, actions).home.trusted
  {
    ReachableIsSafe(p, actions[..n]);
    RunGrows(p, actions, n);
    hide Inv, Run, LinksOk, PointOk;
    Parts(p, Run(p, actions[..n]), w);
  }

  // With the keys verification loads by default, whenever it can load them, the
  // report is the same.
  lemma DefaultKeysVerify(p: Primitives, actions: seq<Action>, keys: seq<Key>)
    requires Documented(p) && (IdealDigest(p) || Settled(Run(p, actions).journal))
    requires DefaultKeys(Run(p, actions).home).Some?
    requires forall key :: key in DefaultKeys(Run(p, actions).home).value ==> key in keys
    ensures var journal := Run(p, actions).journal;
            var events := Events(p, journal);
            && Verify(p, ToKeyring(p, keys), Readable(Objects(events)), None)
               == Finished(Report(Settled(journal), |events| - |Breaks(journal)|, Breaks(journal)), events)
            && Audit.AuditOf(p, events).StructurallyValid()
  {
    hide Run, Verify, ToKeyring, Render, Audit.AuditOf, Breaks, Settled;
    EveryRunVerifiesAndAudits(p, actions, keys);
  }

  // ----- torn registrations -----

  // The step writes the file of a key that is not registered yet, and the write
  // fails after the file was opened.
  predicate TearsRegistration(s: State, a: Action, key: Key) {
    && a.Tick? && a.choice.Tear? && a.worker < |s.workers| && key !in s.home.trusted
    && (match s.workers[a.worker].pc
        case Registering(k) => k == key
        case RegisteringOldPublic => s.home.publicKey == KeyFile.Holds(key)
        case RegisteringOldPrivate => s.home.privateKey == KeyFile.Holds(key)
        case _ => false)
  }

  ghost predicate TornInRun(p: Primitives, actions: seq<Action>, key: Key) {
    exists n :: 0 <= n < |actions| && TearsRegistration(Run(p, actions[..n]), actions[n], key)
  }

  lemma StepBreaks(p: Primitives, s: State, a: Action, key: Key)
    ensures key in Step(p, s, a).home.broken <==> key in s.home.broken || TearsRegistration(s, a, key)
  {
    hide StepNotify, StepIdentity, StepApprove, StepAppend, StepCall;
    if a.Tick? && a.worker < |s.workers| {
      OthersKeepHome(p, s, a.worker, a.choice);
      IdentityBreaks(s, a.worker, a.choice, key);
    }
  }

  lemma OthersKeepHome(p: Primitives, s: State, w: nat, choice: Choice)
    requires w < |s.workers|
    ensures StepNotify(s, w, choice).home == s.home && StepApprove(s, w, choice).home == s.home
    ensures StepAppend(p, s, w, choice).home == s.home && StepCall(s, w, choice).home == s.home
  {
    hide Fresh, NotPending, BodyFor, TailHash, AfterWrite, NoticeOf;
  }

  lemma IdentityBreaks(s: State, w: nat, choice: Choice, key: Key)
    requires w < |s.workers|
    ensures key in StepIdentity(s, w, choice).home.broken <==>
            key in s.home.broken || TearsRegistration(s, Tick(w, choice), key)
  {
    hide AfterIdentity;
  }

  // The file of a trusted key is unreadable exactly when some step of the run
  // tore the registration of that key.
  lemma {:induction false} BrokenExactlyWhenTorn(p: Primitives, actions: seq<Action>, key: Key)
    ensures key in Run(p, actions).home.broken <==> TornInRun(p, actions, key)
  {
    hide Step, TearsRegistration;
    if |actions| > 0 {
      var m := |actions| - 1;
      BrokenExactlyWhenTorn(p, actions[..m], key);
      StepBreaks(p, Run(p, actions[..m]), actions[m], key);
      TornSnoc(p, actions, key);
    }
  }

  lemma TornSnoc(p: Primitives, actions: seq<Action>, key: Key)
    requires |actions| > 0
    ensures var m := |actions| - 1;
            TornInRun(p, actions, key) <==>
            TornInRun(p, actions[..m], key) || TearsRegistration(Run(p, actions[..m]), actions[m], key)
  {
    hide Run, TearsRegistration;
    var m := |actions| - 1;
    var before := actions[..m];
    assert forall n :: 0 <= n < m ==> before[..n] == actions[..n] && before[n] == actions[n];
    if TornInRun(p, before, key) {
      var n :| 0 <= n < m && TearsRegistration(Run(p, before[..n]), before[n], key);
      assert TearsRegistration(Run(p, actions[..n]), actions[n], key);
    }
    if TornInRun(p, actions, key) {
      var n :| 0 <= n < |actions| && TearsRegistration(Run(p, actions[..n]), actions[n], key);
      assert n == m || TearsRegistration(Run(p, before[..n]), before[n], key);
    }
  }

  // Over every run: the default keys can be loaded exactly when no registration
  // was torn and, as long as nothing is registered, the public key file is not
  // damaged.
  lemma DefaultKeysLoadExactly(p: Primitives, actions: seq<Action>)
    ensures var home := Run(p, actions).home;
            DefaultKeys(home).Some? <==>
            (forall key :: !TornInRun(p, actions, key)) && (home.trusted == {} ==> !home.publicKey.Damaged?)
  {
    hide Run, TornInRun;
    var broken := Run(p, actions).home.broken;
    forall key
      ensures key in broken <==> TornInRun(p, actions, key)
    {
      BrokenExactlyWhenTorn(p, actions, key);
    }
    if broken != {} {
      var key :| key in broken;
      assert TornInRun(p, actions, key);
    }
  }

  // A registration that was torn at any moment is never repaired: however the
  // run goes on, the key counts as registered, its file stays unreadable, and
  // the default keys cannot be loaded.
  lemma TornRegistrationStays(p: Primitives, actions: seq<Action>, n: nat, key: Key)
    requires n < |actions| && TearsRegistration(Run(p, actions[..n]), actions[n], key)
    ensures var home := Run(p, actions).home;
            key in home.trusted && key in home.broken && DefaultKeys(home).None?
  {
    hide Run, Step;
    BrokenExactlyWhenTorn(p, actions, key);
    RunOneMore(p, actions[..n], actions[n]);
    assert actions[..n] + [actions[n]] == actions[..n + 1];
    TornIsTrusted(p, Run(p, actions[..n]), actions[n], key);
    RunGrows(p, actions, n + 1);
  }

  lemma TornIsTrusted(p: Primitives, s: State, a: Action, key: Key)
    requires TearsRegistration(s, a, key)
    ensures key in Step(p, s, a).home.trusted
  {
    hide StepNotify, StepApprove, StepAppend, StepCall, AfterIdentity;
  }

  // ----- altered journals -----

  function Journals(p: Primitives, runs: seq<seq<Action>>): (journals: seq<seq<Event>>)
    ensures |journals| == |runs|
    ensures forall r :: 0 <= r < |runs| ==> journals[r] == Events(p, Run(p, runs[r]).journal)
  {
    seq(|runs|, r requires 0 <= r < |runs| => Events(p, Run(p, runs[r]).journal))
  }

  // Whatever someone without a trusted key makes of the file, be it from the
  // journals of several runs: what verifies as is records what one line of one
  // of them leads back to, which in a settled journal is everything up to it.
  lemma AlteredFileRecordsRunPrefix(p: Primitives, runs: seq<seq<Action>>, trusted: Keyring, lines: seq<Line>)
    requires IdealDigest(p)
    requires var r := Verify(p, trusted, Readable(lines), None);
             r.Finished? && r.report.valid && OnlyWritersSigned(p, trusted, Journals(p, runs), r.events)
    ensures var events := Verify(p, trusted, Readable(lines), None).events;
            events == []
            || exists r, i :: 0 <= r < |runs| && 0 <= i < |Run(p, runs[r]).journal|
                              && RecordsThread(p, events, Run(p, runs[r]).journal, i)
  {
    hide Run, Verify, Render, Chained, OnlyWritersSigned, Accepts, EventOk, RecordsThread, Linked;
    var events := Verify(p, trusted, Readable(lines), None).events;
    AcceptedFileIsEvents(p, trusted, lines);
    AcceptsExactly(p, trusted, events);
    ChainedIsLinked(p, trusted, events);
    if events != [] {
      EventAt(p, trusted, events, |events| - 1);
      var r, i := SignedPayloadIsHonest(p, trusted, Journals(p, runs), events, |events| - 1);
      ReachableIsSafe(p, runs[r]);
      LastEventTells(p, Run(p, runs[r]), events, i);
    }
  }

  predicate RecordsThread(p: Primitives, events: seq<Event>, journal: seq<Entry>, i: nat)
    requires i < |journal|
  {
    && Payloads(events) == Payloads(Events(p, Thread(journal, i)))
    && (Settled(journal) ==> Payloads(events) == Payloads(Events(p, journal[..i + 1])))
  }

  lemma LastEventTells(p: Primitives, s: State, events: seq<Event>, i: nat)
    requires IdealDigest(p) && Inv(p, s) && Linked(p, events) && events != [] && i < |s.journal|
    requires UnsignedPayload(events[|events| - 1]) == UnsignedPayload(Render(p, s.journal[i]))
    ensures RecordsThread(p, events, s.journal, i)
  {
    hide Inv, Linked, Render, UnsignedPayload, Payloads;
    var thread := Events(p, Thread(s.journal, i));
    ThreadIsLinked(p, s, i);
    SharedPayloadAnchors(p, events, thread, |events| - 1, |thread| - 1);
    assert events[..|events|] == events && thread[..|thread|] == thread;
    if Settled(s.journal) {
      SettledThread(s.journal, i);
    }
  }

  // Events of a run in another order, fewer or repeated, are accepted exactly
  // when they are what one line of its journal leads back to and the newest
  // checkpoint among them counts no more; for a settled journal that is, exactly
  // when they are a prefix of it.
  lemma RearrangedRunIsPrefix(p: Primitives, actions: seq<Action>, keys: seq<Key>, altered: seq<Event>)
    requires Documented(p) && IdealDigest(p)
    requires forall key :: key in Run(p, actions).home.trusted ==> key in keys
    requires forall e :: e in altered ==> e in Events(p, Run(p, actions).journal)
    ensures var journal := Run(p, actions).journal;
            && (Accepts(p, ToKeyring(p, keys), altered) <==>
                  Covered(altered)
                  && (altered == [] || exists i :: 0 <= i < |journal| && altered == Events(p, Thread(journal, i))))
            && (Settled(journal) ==>
                  (Accepts(p, ToKeyring(p, keys), altered) <==> altered <= Events(p, journal)))
  {
    hide Run, Accepts, ToKeyring, Render, Inv, Chained, CountsArePositions, Covered, Thread, Linked, Settled;
    var s := Run(p, actions);
    ReachableIsSafe(p, actions);
    AcceptsExactly(p, ToKeyring(p, keys), altered);
    if altered != [] {
      if Chained(p, ToKeyring(p, keys), altered) {
        ChainedIsLinked(p, ToKeyring(p, keys), altered);
        var i := LinkedEventsAreThread(p, s, altered);
      }
      if i :| 0 <= i < |s.journal| && altered == Events(p, Thread(s.journal, i)) {
        ThreadIsChained(p, s, keys, i);
      }
    } else {
      NothingIsChained(p, ToKeyring(p, keys), altered);
    }
    if Settled(s.journal) {
      JournalIsChained(p, s, keys);
      CountsRendered(p, s);
      RearrangementAcceptedIffPrefix(p, ToKeyring(p, keys), Events(p, s.journal), altered);
    }
  }

  lemma NothingIsChained(p: Primitives, trusted: Keyring, events: seq<Event>)
    requires events == []
    ensures Chained(p, trusted, events)
  {
  }

  // The broken links behind line i + 1, in the first n lines.
  function BreaksBehind(journal: seq<Entry>, i: nat, n: nat): (issues: seq<Issue>)
    requires i < n <= |journal|
    ensures |issues| <= n - i - 1
  {
    if n == i + 1 then []
    else BreaksBehind(journal, i, n - 1) + When(journal[n - 1].seen != n - 1, n, ChainBreak)
  }

  // One event of a run damaged under its stored hash is reported on its line;
  // on every other line the report is what it was. (The verifier itself fails
  // when the new schema_version or event_type is a list or an object.)
  lemma DamagedRunIsReported(p: Primitives, actions: seq<Action>, keys: seq<Key>, i: nat, damaged: Event)
    requires Documented(p) && IdealDigest(p) && i < |Run(p, actions).journal|
    requires forall key :: key in Run(p, actions).home.trusted ==> key in keys
    requires Damages(p, Run(p, actions).journal[i], damaged)
    ensures DamageReported(p, ToKeyring(p, keys), Run(p, actions).journal, i, damaged)
  {
    hide Run, Inv, Damages, DamageReported, ToKeyring;
    ReachableIsSafe(p, actions);
    DamageIsReported(p, Run(p, actions), keys, i, damaged);
  }

  // Another payload under the stored hash; neither event is a checkpoint.
  predicate Damages(p: Primitives, e: Entry, damaged: Event) {
    && !IsCheckpoint(Render(p, e)) && !IsCheckpoint(damaged)
    && UnsignedPayload(damaged) != UnsignedPayload(Render(p, e))
    && Get(damaged, EventHash) == Get(Render(p, e), EventHash)
  }

  ghost predicate DamageReported(p: Primitives, trusted: Keyring, journal: seq<Entry>, i: nat, damaged: Event)
    requires i < |journal|
  {
    var outcome := Verify(p, trusted, Readable(Objects(Events(p, journal)[i := damaged])), None);
    var before, behind := Breaks(journal[..i]), BreaksBehind(journal, i, |journal|);
    if Crashes(damaged) then outcome == Verification.Crashed
    else
      && outcome.Finished? && !outcome.report.valid
      && outcome.report.verified == |journal| - 1 - |before| - |behind|
      && exists own :: own != [] && IssuesOnLine(own, i + 1) && outcome.report.issues == before + own + behind
  }

  function OwnIssues(p: Primitives, trusted: Keyring, journal: seq<Entry>, i: nat, damaged: Event): seq<Issue>
    requires i < |journal|
  {
    EventIssues(p, damaged, i + 1, HashBefore(p, journal, i), trusted)
  }

  // The state of the pass over the damaged journal after its first n > i lines.
  ghost predicate DamagedTo(p: Primitives, trusted: Keyring, journal: seq<Entry>, i: nat, damaged: Event, n: nat)
    requires i < n <= |journal|
  {
    var after := Events(p, journal)[i := damaged][..n];
    var s := ScanLines(p, trusted, None, Objects(after));
    var before, behind := Breaks(journal[..i]), BreaksBehind(journal, i, n);
    if Crashes(damaged) then s.status == Raised
    else
      && s.status == Running && s.total == n && s.events == after
      && s.previous == HashBefore(p, journal, n)
      && s.issues == before + OwnIssues(p, trusted, journal, i, damaged) + behind
      && s.verified == n - 1 - |before| - |behind|
      && s.newest == LastCheckpoint(after)
  }

  lemma DamageShows(p: Primitives, e: Entry, damaged: Event, number: nat, expected: Option<string>, trusted: Keyring)
    requires IdealDigest(p) && Damages(p, e, damaged)
    ensures StoredHash(damaged) == StoredHash(Render(p, e))
    ensures !Crashes(damaged) ==> EventIssues(p, damaged, number, expected, trusted) != []
  {
    hide EventIssues, Crashes, Render, UnsignedPayload, IsCheckpoint;
    RenderedFields(p, e);
    CleanEventIsOk(p, damaged, number, expected, trusted);
  }

  lemma DamagedArrives(p: Primitives, s: State, keys: seq<Key>, i: nat, damaged: Event)
    requires Documented(p) && IdealDigest(p) && Inv(p, s) && i < |s.journal|
    requires forall key :: key in s.home.trusted ==> key in keys
    requires Damages(p, s.journal[i], damaged)
    ensures DamagedTo(p, ToKeyring(p, keys), s.journal, i, damaged, i + 1)
  {
    hide Inv, Render, ScanLines, EventIssues, Crashes, ToKeyring, HashBefore, Breaks, Damages, StoredHash, Chain.Holds;
    var ring := ToKeyring(p, keys);
    var after := Events(p, s.journal)[i := damaged][..i + 1];
    ScanOfRun(p, s, keys, None, i);
    ScanSnoc(p, ring, None, after);
    assert after[..i] == Events(p, s.journal[..i]);
    DamageShows(p, s.journal[i], damaged, i + 1, HashBefore(p, s.journal, i), ring);
    NoCheckpointDamaged(p, s.journal[i], damaged);
    HashAfter(p, s.journal, i);
  }

  lemma NoCheckpointDamaged(p: Primitives, e: Entry, damaged: Event)
    requires Damages(p, e, damaged)
    ensures !IsCheckpoint(damaged) && !IsCheckpoint(Render(p, e))
  {
  }

  lemma DamagedPasses(p: Primitives, s: State, keys: seq<Key>, i: nat, damaged: Event, n: nat)
    requires Documented(p) && IdealDigest(p) && Inv(p, s) && i < n < |s.journal|
    requires forall key :: key in s.home.trusted ==> key in keys
    requires DamagedTo(p, ToKeyring(p, keys), s.journal, i, damaged, n)
    ensures DamagedTo(p, ToKeyring(p, keys), s.journal, i, damaged, n + 1)
  {
    hide Inv, Render, LinksTell, ToKeyring, DamagedTo, HashBefore;
    var e, ring := s.journal[n], ToKeyring(p, keys);
    EntryInRing(p, s, keys, n);
    RenderedEventOk(p, e, ring);
    OnlyTheLinkBreaks(p, Render(p, e), e.previous, HashBefore(p, s.journal, n), ring, n + 1);
    IdealLinksTell(p, s);
    LinkTells(p, s.journal, n);
    ScanPasses(p, ring, s.journal, i, damaged, n);
  }

  lemma LinkTells(p: Primitives, journal: seq<Entry>, i: nat)
    requires LinksTell(p, journal) && i < |journal|
    ensures journal[i].previous == HashBefore(p, journal, i) <==> journal[i].seen == i
  {
    hide HashBefore;
  }

  lemma ScanPasses(p: Primitives, trusted: Keyring, journal: seq<Entry>, i: nat, damaged: Event, n: nat)
    requires i < n < |journal| && DamagedTo(p, trusted, journal, i, damaged, n)
    requires var event := Render(p, journal[n]);
             !Crashes(event)
             && EventIssues(p, event, n + 1, HashBefore(p, journal, n), trusted) == When(journal[n].seen != n, n + 1, ChainBreak)
    ensures DamagedTo(p, trusted, journal, i, damaged, n + 1)
  {
    hide Render, ScanLines, EventIssues, Crashes, HashBefore, Breaks, StoredHash, OwnIssues, ScanEvent, LastCheckpoint;
    hide IsCheckpoint;
    DamagedSnoc(p, journal, i, damaged, n);
    var after := Events(p, journal)[i := damaged][..n + 1];
    ScanSnoc(p, trusted, None, after);
    if !Crashes(damaged) {
      hide ScanLine;
      HashAfter(p, journal, n);
      LastOfMore(after);
      SoundPasses(p, trusted, ScanLines(p, trusted, None, Objects(after[..n])), after[n], n, journal[n].seen != n);
    }
  }

  lemma LastOfMore(events: seq<Event>)
    requires |events| > 0
    ensures var e := events[|events| - 1];
            LastCheckpoint(events) == if IsCheckpoint(e) then Some(e) else LastCheckpoint(events[..|events| - 1])
  {
  }

  // The pass over an event whose one issue, if any, is its broken link.
  lemma SoundPasses(p: Primitives, trusted: Keyring, s: Scan, e: Event, n: nat, broken: bool)
    requires s.status == Running && s.total == n && !Crashes(e)
    requires EventIssues(p, e, n + 1, s.previous, trusted) == When(broken, n + 1, ChainBreak)
    ensures var next := ScanLine(p, trusted, None, s, Object(e), n + 1);
            && next.status == Running && next.total == n + 1 && next.events == s.events + [e]
            && next.previous == StoredHash(e)
            && next.issues == s.issues + When(broken, n + 1, ChainBreak)
            && next.verified == (if broken then s.verified else s.verified + 1)
            && next.newest == if IsCheckpoint(e) then Some(e) else s.newest
  {
    hide EventIssues, Crashes, StoredHash;
  }

  lemma DamagedSnoc(p: Primitives, journal: seq<Entry>, i: nat, damaged: Event, n: nat)
    requires i < n < |journal|
    ensures var altered := Events(p, journal)[i := damaged];
            altered[..n + 1] == altered[..n] + [Render(p, journal[n])]
            && altered[..n + 1][..n] == altered[..n]
  {
    hide Render;
  }

  lemma {:induction false} DamagedScan(p: Primitives, s: State, keys: seq<Key>, i: nat, damaged: Event, n: nat)
    requires Documented(p) && IdealDigest(p) && Inv(p, s) && i < n <= |s.journal|
    requires forall key :: key in s.home.trusted ==> key in keys
    requires Damages(p, s.journal[i], damaged)
    ensures DamagedTo(p, ToKeyring(p, keys), s.journal, i, damaged, n)
  {
    hide *;
    if n == i + 1 {
      DamagedArrives(p, s, keys, i, damaged);
    } else {
      DamagedScan(p, s, keys, i, damaged, n - 1);
      DamagedPasses(p, s, keys, i, damaged, n - 1);
    }
  }

  lemma DamageIsReported(p: Primitives, s: State, keys: seq<Key>, i: nat, damaged: Event)
    requires Documented(p) && IdealDigest(p) && Inv(p, s) && i < |s.journal|
    requires forall key :: key in s.home.trusted ==> key in keys
    requires Damages(p, s.journal[i], damaged)
    ensures DamageReported(p, ToKeyring(p, keys), s.journal, i, damaged)
  {
    hide Inv, DamagedTo, DamageReported, ToKeyring, Damages, Crashes;
    DamagedScan(p, s, keys, i, damaged, |s.journal|);
    if Crashes(damaged) {
      DamageCrashes(p, ToKeyring(p, keys), s.journal, i, damaged);
    } else {
      DamageStaysCovered(p, s, i, damaged);
      DamageJudged(p, ToKeyring(p, keys), s.journal, i, damaged);
    }
  }

  lemma DamageCrashes(p: Primitives, trusted: Keyring, journal: seq<Entry>, i: nat, damaged: Event)
    requires i < |journal| && Crashes(damaged) && DamagedTo(p, trusted, journal, i, damaged, |journal|)
    ensures DamageReported(p, trusted, journal, i, damaged)
  {
    hide Render, ScanLines, Crashes;
    var after := Events(p, journal)[i := damaged];
    assert after[..|journal|] == after && WitnessId(p, None) == None;
  }

  lemma DamageStaysCovered(p: Primitives, s: State, i: nat, damaged: Event)
    requires Inv(p, s) && i < |s.journal| && Damages(p, s.journal[i], damaged)
    ensures Covered(Events(p, s.journal)[i := damaged])
  {
    hide Inv, Render, Damages, LastCheckpoint, Covered;
    assert s.journal[..|s.journal|] == s.journal;
    NoCheckpointDamaged(p, s.journal[i], damaged);
    LastCheckpointIgnores(Events(p, s.journal), i, damaged);
    KeptIsCovered(p, s, |s.journal|);
    StillCovered(Events(p, s.journal), Events(p, s.journal)[i := damaged]);
  }

  lemma DamageJudged(p: Primitives, trusted: Keyring, journal: seq<Entry>, i: nat, damaged: Event)
    requires IdealDigest(p) && i < |journal| && Damages(p, journal[i], damaged)
    requires !Crashes(damaged) && DamagedTo(p, trusted, journal, i, damaged, |journal|)
    requires Covered(Events(p, journal)[i := damaged])
    ensures DamageReported(p, trusted, journal, i, damaged)
  {
    hide Render, ScanLines, EventIssues, Crashes, Breaks, Damages, LastCheckpoint, Covered, BreaksBehind, Verify;
    var own := OwnIssues(p, trusted, journal, i, damaged);
    var after := Events(p, journal)[i := damaged];
    assert after[..|journal|] == after;
    DamageShows(p, journal[i], damaged, i + 1, HashBefore(p, journal, i), trusted);
    EventIssuesNameTheLine(p, damaged, i + 1, HashBefore(p, journal, i), trusted);
    CoveredReport(p, trusted, after);
    assert |Breaks(journal[..i]) + own + BreaksBehind(journal, i, |journal|)| > 0;
  }

  // ----- checkpoint witnesses -----

  // A witness saved at any moment of the run decides every later truncation:
  // the report on the first k events is the one without a witness, and on top of
  // it says whether the checkpoint is among them and whether fewer are left than
  // it counts.
  lemma SavedWitnessDecides(p: Primitives, actions: seq<Action>, keys: seq<Key>, c: nat, k: nat)
    requires Documented(p) && (IdealDigest(p) || Settled(Run(p, actions).journal))
    requires c in Run(p, actions).witnesses && k <= |Run(p, actions).journal|
    requires forall key :: key in Run(p, actions).home.trusted ==> key in keys
    ensures c < |Run(p, actions).journal| && Run(p, actions).journal[c].seen <= c
    ensures var journal := Run(p, actions).journal;
            Verify(p, ToKeyring(p, keys), Readable(Objects(Events(p, journal[..k]))), Some(Stored(Render(p, journal[c]))))
            == AgainstCheckpoint(p, journal, c, k)
  {
    hide Run, ToKeyring, Render, Verify, Breaks, Settled, Inv, AgainstCheckpoint;
    ReachableIsSafe(p, actions);
    WitnessIsCheckpoint(p, Run(p, actions), c);
    CheckpointIsRendered(p, Run(p, actions), c);
    WitnessStands(p, Run(p, actions), keys, c);
    KeptAgainstWitness(p, Run(p, actions), keys, c, k, Render(p, Run(p, actions).journal[c]));
  }

  // The outcome for the first k lines and a witness of the checkpoint at c.
  function AgainstCheckpoint(p: Primitives, journal: seq<Entry>, c: nat, k: nat): Outcome
    requires c < |journal| && k <= |journal|
  {
    var kept := journal[..k];
    Finished(Report(k > c && Settled(kept), k - |Breaks(kept)|,
                    Breaks(kept) + if k > c then []
                                   else [Issue(0, CheckpointNotFound)]
                                        + When(k < journal[c].seen, 0, CheckpointTruncation)),
             Events(p, kept))
  }

  // Whatever somebody without a trusted key puts in the witness file: either it
  // records a checkpoint of the run, and decides as that checkpoint does, or it
  // is refused, and that is all it changes of the report. So no witness can make
  // a whole journal look cut.
  lemma AnyWitnessIsOfTheRunOrRefused(p: Primitives, actions: seq<Action>, keys: seq<Key>, file: WitnessFile, k: nat)
    requires Documented(p) && IdealDigest(p) && k <= |Run(p, actions).journal|
    requires forall key :: key in Run(p, actions).home.trusted ==> key in keys
    requires file.Stored? ==>
               OnlyWritersSigned(p, ToKeyring(p, keys), [Events(p, Run(p, actions).journal)], [file.event])
    ensures var journal := Run(p, actions).journal;
            var outcome := Verify(p, ToKeyring(p, keys), Readable(Objects(Events(p, journal[..k]))), Some(file));
            || (exists c :: 0 <= c < |journal| && WitnessOf(p, file, journal[c]) && outcome == AgainstCheckpoint(p, journal, c, k))
            || Refused(p, journal, k, WitnessInvalid, outcome)
            || (file.NoAccess? && Refused(p, journal, k, WitnessUnreadable, outcome))
            || (file.Stored? && !Hashable(Get(file.event, SchemaVersion)) && outcome == Verification.Crashed)
  {
    hide Run, ToKeyring, Verify, Breaks, Settled, Inv, AgainstCheckpoint, OnlyWritersSigned, LoadWitness, Refused;
    ReachableIsSafe(p, actions);
    WitnessIsOfTheRunOrRefused(p, Run(p, actions), keys, file, k);
  }

  // The file holds the payload of a recorded checkpoint.
  predicate WitnessOf(p: Primitives, file: WitnessFile, e: Entry) {
    file.Stored? && e.body.CheckpointBody? && UnsignedPayload(file.event) == UnsignedPayload(Render(p, e))
  }

  predicate Refused(p: Primitives, journal: seq<Entry>, k: nat, code: Code, outcome: Outcome)
    requires k <= |journal|
  {
    var kept := journal[..k];
    outcome == Finished(Report(false, k - |Breaks(kept)|, [Issue(0, code)] + Breaks(kept)), Events(p, kept))
  }

  lemma WitnessIsOfTheRunOrRefused(p: Primitives, s: State, keys: seq<Key>, file: WitnessFile, k: nat)
    requires Documented(p) && IdealDigest(p) && Inv(p, s) && k <= |s.journal|
    requires forall key :: key in s.home.trusted ==> key in keys
    requires file.Stored? ==> OnlyWritersSigned(p, ToKeyring(p, keys), [Events(p, s.journal)], [file.event])
    ensures var outcome := Verify(p, ToKeyring(p, keys), Readable(Objects(Events(p, s.journal[..k]))), Some(file));
            || (exists c :: 0 <= c < |s.journal| && WitnessOf(p, file, s.journal[c])
                            && outcome == AgainstCheckpoint(p, s.journal, c, k))
            || Refused(p, s.journal, k, WitnessInvalid, outcome)
            || (file.NoAccess? && Refused(p, s.journal, k, WitnessUnreadable, outcome))
            || (file.Stored? && !Hashable(Get(file.event, SchemaVersion)) && outcome == Verification.Crashed)
  {
    hide ToKeyring, Inv, AgainstCheckpoint, OnlyWritersSigned, LoadWitness, Refused, Render, UnsignedPayload, Verify, Hashable;
    var ring := ToKeyring(p, keys);
    var loaded := LoadWitness(p, file, ring);
    OtherWitnesses(p, file, ring);
    if loaded.Some? {
      if loaded.value.0.Some? {
        var _, c := TakenWitnessIsOfWriters(p, ring, [Events(p, s.journal)], file.event);
        TypeOfRendered(p, s.journal[c]);
        KeptAgainstWitness(p, s, keys, c, k, file.event);
      } else if loaded == Some((None, [Issue(0, WitnessInvalid)])) {
        RefusedOnKept(p, s, keys, file, k, WitnessInvalid);
      } else {
        RefusedOnKept(p, s, keys, file, k, WitnessUnreadable);
      }
    } else {
      UnhashableWitnessCrashes(p, ring, Readable(Objects(Events(p, s.journal[..k]))), file);
    }
  }

  lemma TypeOfRendered(p: Primitives, e: Entry)
    ensures IsCheckpoint(Render(p, e)) <==> e.body.CheckpointBody?
  {
    hide Render, OwnFields;
    RenderedFields(p, e);
    RequiredOfBody(e.body);
  }

  lemma RefusedOnKept(p: Primitives, s: State, keys: seq<Key>, file: WitnessFile, k: nat, code: Code)
    requires Documented(p) && IdealDigest(p) && Inv(p, s) && k <= |s.journal|
    requires forall key :: key in s.home.trusted ==> key in keys
    requires LoadWitness(p, file, ToKeyring(p, keys)) == Some((None, [Issue(0, code)]))
    ensures Refused(p, s.journal, k, code,
                    Verify(p, ToKeyring(p, keys), Readable(Objects(Events(p, s.journal[..k]))), Some(file)))
  {
    hide ToKeyring, Inv, LoadWitness, Verify, Breaks, Render, ScanLines, Covered, LastCheckpoint;
    var events := Events(p, s.journal[..k]);
    RefusedWitnessOnlyAddsItsIssue(p, ToKeyring(p, keys), Objects(events), file, code);
    ScanOfRun(p, s, keys, None, k);
    KeptIsCovered(p, s, k);
    CoveredReport(p, ToKeyring(p, keys), events);
  }

  lemma CheckpointIsRendered(p: Primitives, s: State, c: nat)
    requires Inv(p, s) && c < |s.journal| && s.journal[c].body.CheckpointBody?
    ensures var wit := Render(p, s.journal[c]);
            && s.journal[c].seen <= c && AsInt(Get(wit, CheckpointCount)) == Some(s.journal[c].seen)
            && Get(wit, EventId) == JStr(s.journal[c].id)
  {
    hide Inv, Render;
    RenderedFields(p, s.journal[c]);
    RequiredOfBody(s.journal[c].body);
    CheckpointCounts(p, s, c);
  }

  lemma KeptAgainstWitness(p: Primitives, s: State, keys: seq<Key>, c: nat, k: nat, wit: Event)
    requires Documented(p) && (IdealDigest(p) || Settled(s.journal)) && Inv(p, s)
    requires c < |s.journal| && s.journal[c].body.CheckpointBody? && k <= |s.journal|
    requires forall key :: key in s.home.trusted ==> key in keys
    requires LoadWitness(p, Stored(wit), ToKeyring(p, keys)) == Some((Some(wit), []))
    requires UnsignedPayload(wit) == UnsignedPayload(Render(p, s.journal[c]))
    ensures Verify(p, ToKeyring(p, keys), Readable(Objects(Events(p, s.journal[..k]))), Some(Stored(wit)))
            == AgainstCheckpoint(p, s.journal, c, k)
  {
    hide ToKeyring, Render, Inv, ScanLines, LoadWitness, Breaks, LastCheckpoint, Settled, CoverageIssues, Chain.Holds,
         UnsignedPayload;
    var kept := s.journal[..k];
    CheckpointIsRendered(p, s, c);
    SamePayloadSameField(wit, Render(p, s.journal[c]), EventId);
    SamePayloadSameField(wit, Render(p, s.journal[c]), CheckpointCount);
    ScanOfRun(p, s, keys, WitnessId(p, Some(wit)), k);
    KeptIsCovered(p, s, k);
    IdIsKept(p, s, c, k);
    BreaksAre(kept);
    WitnessCoverage(p, LastCheckpoint(Events(p, kept)), wit, k > c, k);
    assert [] + Breaks(kept) == Breaks(kept);
  }

  lemma SamePayloadSameField(a: Event, b: Event, f: Field)
    requires UnsignedPayload(a) == UnsignedPayload(b) && f != EventHash && f != Signature
    ensures Get(a, f) == Get(b, f)
  {
    assert Get(UnsignedPayload(a), f) == Get(a, f);
    assert Get(UnsignedPayload(b), f) == Get(b, f);
  }

  lemma WitnessStands(p: Primitives, s: State, keys: seq<Key>, c: nat)
    requires Documented(p) && Inv(p, s) && c < |s.journal| && s.journal[c].body.CheckpointBody?
    requires forall key :: key in s.home.trusted ==> key in keys
    ensures var wit := Render(p, s.journal[c]); LoadWitness(p, Stored(wit), ToKeyring(p, keys)) == Some((Some(wit), []))
  {
    hide Inv, Render, LoadWitness, EventOk, ToKeyring;
    EntryInRing(p, s, keys, c);
    RenderedEventOk(p, s.journal[c], ToKeyring(p, keys));
    RenderedFields(p, s.journal[c]);
    RequiredOfBody(s.journal[c].body);
    CheckpointEventIsWitness(p, ToKeyring(p, keys), Render(p, s.journal[c]), s.journal[c].previous);
  }

  lemma IdIsKept(p: Primitives, s: State, c: nat, k: nat)
    requires Inv(p, s) && c < |s.journal| && k <= |s.journal|
    ensures Chain.Holds(Events(p, s.journal[..k]), s.journal[c].id) <==> k > c
  {
    hide Inv, Render;
    var events := Events(p, s.journal[..k]);
    RenderedFields(p, s.journal[c]);
    if Chain.Holds(events, s.journal[c].id) {
      var i :| 0 <= i < |events| && Get(events[i], EventId) == JStr(s.journal[c].id);
      RenderedFields(p, s.journal[i]);
      SameIdSameEntry(p, s, i, c);
    }
    if k > c {
      assert events[c] == Render(p, s.journal[c]);
    }
  }

  // The coverage step against a witness, when no count exceeds the lines it
  // stands among.
  lemma WitnessCoverage(p: Primitives, newest: Option<Event>, wit: Event, found: bool, total: nat)
    requires AsInt(Get(wit, CheckpointCount)).Some?
    requires newest.Some? ==>
               var count := AsInt(Get(newest.value, CheckpointCount)); count.Some? && count.value <= total
    requires found ==> AsInt(Get(wit, CheckpointCount)).value <= total
    ensures CoverageIssues(p, newest, Some(wit), found, total)
            == Some(if found then []
                    else [Issue(0, CheckpointNotFound)]
                         + When(total < AsInt(Get(wit, CheckpointCount)).value, 0, CheckpointTruncation))
  {
    var missing := if found then [] else [Issue(0, CheckpointNotFound)]
                                         + When(total < AsInt(Get(wit, CheckpointCount)).value, 0, CheckpointTruncation);
    assert missing + [] == missing;
  }

  lemma WitnessIsCheckpoint(p: Primitives, s: State, c: nat)
    requires Inv(p, s) && c in s.witnesses
    ensures c < |s.journal| && s.journal[c].body.CheckpointBody?
  {
    hide WorkerOk, EntryOk;
  }
}
