// What every step of the protocol keeps, and so what holds in every reachable state.
module Safety {
  import opened Wrappers
  import opened Json
  import opened Evidence
  import opened Protocol

  function HashBefore(p: Primitives, journal: seq<Entry>, i: nat): Option<string>
    requires i <= |journal|
  {
    if i == 0 then None else Some(HashOf(p, journal[i - 1]))
  }

  predicate HoldsLock(pc: Pc) {
    pc.Reading? || pc.Building? || pc.Releasing?
  }

  // The signing key of a worker that has finished loading its identity.
  function KeyInUse(pc: Pc): Option<Key> {
    match pc
    case Approving(key) => Some(key)
    case Waiting(key, _) => Some(key)
    case Reading(key, _) => Some(key)
    case Building(key, _, _, _) => Some(key)
    case Releasing(key, _, _, _, _) => Some(key)
    case Closing(_, entry, _) => Some(entry.key)
    case Calling(key) => Some(key)
    case InCall(key) => Some(key)
    case Ended(ending) => if ending.Rotated? then Some(ending.key) else None
    case _ => None
  }

  predicate Idle(worker: Worker) {
    worker.runs == 0 && worker.effect.None? && worker.decisionAt.None? && worker.outcomeAt.None? && !worker.lostOutcome
  }

  predicate Decided(worker: Worker, runs: nat, effect: Option<Effect>) {
    worker.task.Guarded? && worker.decisionAt.Some? && worker.outcomeAt.None? && !worker.lostOutcome
    && worker.runs == runs && worker.effect == effect
  }

  predicate WriteOk(worker: Worker, write: Write) {
    match write
    case Decide(_) => worker.task.Guarded? && Idle(worker)
    case Conclude(effect) => Decided(worker, 1, Some(effect))
    case Commit => worker.task.Checkpointing? && Idle(worker)
  }

  // What is known at each program point, apart from the journal.
  predicate PointOk(worker: Worker) {
    match worker.pc
    case Calling(_) => Decided(worker, 0, None)
    case InCall(_) => Decided(worker, 1, None)
    case Waiting(_, write) => WriteOk(worker, write)
    case Reading(_, write) => WriteOk(worker, write)
    case Building(_, write, _, _) => WriteOk(worker, write)
    case Closing(write, _, _) =>
      (match write
       case Decide(_) => worker.task.Guarded? && Idle(worker)
       case Conclude(effect) =>
         worker.task.Guarded? && worker.runs == 1 && worker.effect == Some(effect) && worker.decisionAt.Some?
         && worker.outcomeAt.None? && worker.lostOutcome
       case Commit => worker.task.Checkpointing? && Idle(worker))
    case Releasing(_, write, stored, reported, _) =>
      && (reported ==> stored)
      && (match write
          case Decide(_) =>
            worker.task.Guarded? && worker.runs == 0 && worker.effect.None? && worker.outcomeAt.None?
            && !worker.lostOutcome && (stored <==> worker.decisionAt.Some?)
          case Conclude(effect) =>
            worker.task.Guarded? && worker.runs == 1 && worker.effect == Some(effect) && worker.decisionAt.Some?
            && (stored <==> worker.outcomeAt.Some?) && (worker.lostOutcome <==> !reported)
          case Commit => worker.task.Checkpointing? && Idle(worker))
    case SavingWitness(_) => worker.task.Checkpointing? && Idle(worker)
    case Ended(ending) => EndOk(worker, ending)
    case Approving(_) => worker.task.Guarded? && Idle(worker)
    case _ => Idle(worker)
  }

  // What an ending tells about the target and the evidence.
  predicate EndOk(worker: Worker, ending: Ending) {
    match ending
    case Completed(effect) =>
      worker.runs == 1 && worker.effect == Some(effect) && worker.outcomeAt.Some? && !worker.lostOutcome
    case EvidenceIncomplete(effect) => worker.runs == 1 && worker.effect == Some(effect) && worker.lostOutcome
    case Interrupted => Decided(worker, 1, None)
    case ActionDenied => worker.runs == 0 && worker.effect.None? && worker.decisionAt.Some? && !worker.lostOutcome
    case DecisionNotRecorded => worker.runs == 0 && worker.effect.None? && !worker.lostOutcome
    case Died => true
    case Aborted => true
    case _ => Idle(worker)
  }

  predicate Past(pc: Pc) {
    !pc.Begin? && !pc.Notifying? && !pc.Ended?
  }

  predicate ToldFor(s: State, worker: Worker) {
    NoticeOf(worker).None? || NoticeOf(worker).value in s.told
  }

  // The links from a worker into the journal, at every program point.
  predicate LinksOk(s: State, w: nat)
    requires w < |s.workers|
  {
    var worker := s.workers[w];
    && worker.runs <= 1
    && (worker.effect.Some? ==> worker.runs == 1)
    && (worker.lostOutcome ==> worker.effect.Some?)
    && (worker.runs == 1 ==> ToldFor(s, worker) && Approved(s, worker))
    && (worker.decisionAt.Some? ==> DecisionLink(s, w, worker.decisionAt.value))
    && (worker.outcomeAt.Some? ==> worker.decisionAt.Some? && OutcomeLink(s, w, worker.decisionAt.value, worker.outcomeAt.value))
  }

  predicate DecisionLink(s: State, w: nat, d: nat)
    requires w < |s.workers|
  {
    && d < |s.journal| && s.journal[d].author == w
    && s.workers[w].task.Guarded?
    && s.journal[d].body.DecisionBody? && s.journal[d].body.call == s.workers[w].task.call
  }

  predicate OutcomeLink(s: State, w: nat, d: nat, o: nat)
    requires w < |s.workers|
  {
    && d < o < |s.journal| && s.journal[o].author == w
    && s.workers[w].task.Guarded? && s.workers[w].runs == 1 && s.workers[w].effect.Some?
    && s.journal[o].body == OutcomeBody(s.workers[w].task.call, s.journal[d].id, s.workers[w].effect.value)
  }

  // The worker's own decision is in the journal and allowed the action.
  predicate Approved(s: State, worker: Worker) {
    && worker.decisionAt.Some? && worker.decisionAt.value < |s.journal|
    && s.journal[worker.decisionAt.value].body.DecisionBody?
    && s.journal[worker.decisionAt.value].body.allowed
  }

  predicate NeedsApproval(pc: Pc) {
    match pc
    case Calling(_) => true
    case Releasing(_, Decide(allowed), stored, _, _) => allowed && stored
    case _ => false
  }

  predicate DeniedEntry(s: State, worker: Worker) {
    && worker.decisionAt.Some? && worker.decisionAt.value < |s.journal|
    && s.journal[worker.decisionAt.value].body.DecisionBody?
    && !s.journal[worker.decisionAt.value].body.allowed
  }

  predicate MustBeDenied(pc: Pc) {
    match pc
    case Ended(ActionDenied) => true
    case Releasing(_, Decide(allowed), stored, _, _) => !allowed && stored
    case _ => false
  }

  predicate WitnessPoint(s: State, pc: Pc) {
    match pc
    case SavingWitness(index) => index < |s.journal| && s.journal[index].body.CheckpointBody?
    case Releasing(_, Commit, stored, _, index) =>
      stored ==> index < |s.journal| && s.journal[index].body.CheckpointBody?
    case _ => true
  }

  predicate OnlyLate(journal: seq<Entry>, from: nat) {
    forall k :: from <= k < |journal| ==> journal[k].late
  }

  // Mutual exclusion at work: the hash a writer read is that of the lines it
  // counted, and what was stored since then came from no writer with the lock.
  // A line in a buffer is such a writer's own.
  predicate ReadOk(p: Primitives, s: State, w: nat)
    requires w < |s.workers|
  {
    match s.workers[w].pc
    case Building(_, _, previous, count) =>
      count <= |s.journal| && previous == HashBefore(p, s.journal, count) && OnlyLate(s.journal, count)
    case Closing(write, entry, _) =>
      && entry.author == w && entry.late
      && entry.seen <= |s.journal| && entry.previous == HashBefore(p, s.journal, entry.seen)
      && BodyFor(s, w, write, entry.seen) == Some(entry.body)
    case _ => true
  }

  predicate WorkerOk(p: Primitives, s: State, w: nat)
    requires w < |s.workers|
  {
    var worker := s.workers[w];
    && PointOk(worker)
    && LinksOk(s, w)
    && (HoldsLock(worker.pc) ==> s.lock == Some(w))
    && (KeyInUse(worker.pc).Some? ==> KeyInUse(worker.pc).value in s.home.trusted)
    && (Past(worker.pc) ==> ToldFor(s, worker))
    && (NeedsApproval(worker.pc) ==> Approved(s, worker))
    && (MustBeDenied(worker.pc) ==> DeniedEntry(s, worker))
    && WitnessPoint(s, worker.pc)
    && ReadOk(p, s, w)
  }

  predicate EntryOk(p: Primitives, s: State, i: nat)
    requires i < |s.journal|
  {
    var e := s.journal[i];
    && e.seen <= i && e.previous == HashBefore(p, s.journal, e.seen)
    && (!e.late ==> OnlyLate(s.journal[..i], e.seen))
    && e.key in s.home.trusted
    && e.author < |s.workers|
    && (match e.body
        case DecisionBody(_, _) => s.workers[e.author].decisionAt == Some(i)
        case OutcomeBody(_, _, _) => s.workers[e.author].outcomeAt == Some(i)
        case CheckpointBody(count) => count == e.seen)
  }

  predicate LockOk(s: State) {
    s.lock.Some? ==> s.lock.value < |s.workers| && HoldsLock(s.workers[s.lock.value].pc)
  }

  ghost predicate DistinctEntryIds(journal: seq<Entry>) {
    forall i, j :: 0 <= i < j < |journal| ==> journal[i].id != journal[j].id
  }

  predicate WitnessesOk(witnesses: set<nat>, journal: seq<Entry>) {
    forall i :: i in witnesses ==> i < |journal| && journal[i].body.CheckpointBody?
  }

  // The id of a line in a buffer is that of no other line.
  ghost predicate PendingAlone(s: State, w: nat, id: string) {
    Fresh(s.journal, id) && forall v :: 0 <= v < |s.workers| && v != w ==> PendingId(s.workers[v]) != Some(id)
  }

  function PendingId(worker: Worker): Option<string> {
    if worker.pc.Closing? then Some(worker.pc.entry.id) else None
  }

  ghost predicate PendingDistinct(s: State) {
    forall w :: 0 <= w < |s.workers| && PendingId(s.workers[w]).Some? ==>
                  PendingAlone(s, w, PendingId(s.workers[w]).value)
  }

  ghost predicate SharedOk(s: State) {
    && LockOk(s)
    && PendingDistinct(s)
    && s.done <= s.told
    && DistinctEntryIds(s.journal)
    && WitnessesOk(s.witnesses, s.journal)
  }

  ghost predicate Inv(p: Primitives, s: State) {
    && SharedOk(s)
    && (forall w :: 0 <= w < |s.workers| ==> WorkerOk(p, s, w))
    && (forall i :: 0 <= i < |s.journal| ==> EntryOk(p, s, i))
  }

  // ----- steps that leave the journal alone -----

  // The worker changes only its program point and its own record; the shared
  // sets only grow; the lock changes hands only through this worker.
  ghost predicate LocalStep(s: State, t: State, w: nat) {
    && w < |s.workers| && |t.workers| == |s.workers| && t.journal == s.journal
    && t.workers == s.workers[w := t.workers[w]]
    && t.workers[w].task == s.workers[w].task && t.workers[w].process == s.workers[w].process
    && t.workers[w].decisionAt == s.workers[w].decisionAt && t.workers[w].outcomeAt == s.workers[w].outcomeAt
    && s.home.trusted <= t.home.trusted && s.told <= t.told && t.done <= t.told
    && (t.lock == s.lock || (s.lock.None? && t.lock == Some(w)) || (s.lock == Some(w) && t.lock.None?))
    && (HoldsLock(t.workers[w].pc) <==> t.lock == Some(w))
    && WitnessesOk(t.witnesses, t.journal)
    && (PendingId(t.workers[w]).Some? ==> PendingAlone(s, w, PendingId(t.workers[w]).value))
  }

  lemma OthersUnaffected(p: Primitives, s: State, t: State, w: nat, v: nat)
    requires LocalStep(s, t, w) && v < |s.workers| && v != w && WorkerOk(p, s, v)
    ensures WorkerOk(p, t, v)
  {
  }

  lemma EntriesUnaffected(p: Primitives, s: State, t: State, w: nat, i: nat)
    requires LocalStep(s, t, w) && i < |s.journal| && EntryOk(p, s, i)
    ensures EntryOk(p, t, i)
  {
  }

  lemma LocalStepKeepsInv(p: Primitives, s: State, t: State, w: nat)
    requires Inv(p, s) && LocalStep(s, t, w) && WorkerOk(p, t, w)
    ensures Inv(p, t)
  {
    hide WorkerOk, EntryOk;
    forall v | 0 <= v < |t.workers|
      ensures WorkerOk(p, t, v)
    {
      if v != w {
        OthersUnaffected(p, s, t, w, v);
      }
    }
    forall i | 0 <= i < |t.journal|
      ensures EntryOk(p, t, i)
    {
      EntriesUnaffected(p, s, t, w, i);
    }
    LockHolder(p, s, t, w);
  }

  lemma LockHolder(p: Primitives, s: State, t: State, w: nat)
    requires SharedOk(s) && LocalStep(s, t, w)
    ensures LockOk(t) && PendingDistinct(t)
  {
  }

  // A step that changes nothing of the worker but its program point.
  ghost predicate QuietStep(s: State, t: State, w: nat) {
    && LocalStep(s, t, w)
    && t.workers[w] == s.workers[w].(pc := t.workers[w].pc)
    && PointOk(t.workers[w])
    && (KeyInUse(t.workers[w].pc).Some? ==> KeyInUse(t.workers[w].pc).value in t.home.trusted)
    && (Past(t.workers[w].pc) ==> ToldFor(t, t.workers[w]))
    && !NeedsApproval(t.workers[w].pc) && !MustBeDenied(t.workers[w].pc)
    && !t.workers[w].pc.SavingWitness? && !HoldsLock(t.workers[w].pc) && !t.workers[w].pc.Closing?
  }

  lemma QuietWorkerOk(p: Primitives, s: State, t: State, w: nat)
    requires QuietStep(s, t, w) && WorkerOk(p, s, w)
    ensures WorkerOk(p, t, w)
  {
    hide PointOk;
    LinksCarry(s, t, w);
  }

  lemma LinksCarry(s: State, t: State, w: nat)
    requires LocalStep(s, t, w) && LinksOk(s, w)
    requires t.workers[w].runs == s.workers[w].runs && t.workers[w].effect == s.workers[w].effect
    requires t.workers[w].lostOutcome == s.workers[w].lostOutcome
    ensures LinksOk(t, w)
  {
  }

  // Moving to another program point, possibly with more trust or notices.
  lemma MoveIsQuiet(p: Primitives, s: State, t: State, w: nat, pc: Pc)
    requires w < |s.workers| && SharedOk(s) && WorkerOk(p, s, w) && !HoldsLock(s.workers[w].pc)
    requires t == Move(s, w, pc).(home := t.home, told := t.told, done := t.done)
    requires s.home.trusted <= t.home.trusted && s.told <= t.told && t.done <= t.told
    requires PointOk(s.workers[w].(pc := pc))
    requires KeyInUse(pc).Some? ==> KeyInUse(pc).value in t.home.trusted
    requires Past(pc) ==> ToldFor(t, s.workers[w])
    requires !NeedsApproval(pc) && !MustBeDenied(pc) && !pc.SavingWitness? && !HoldsLock(pc) && !pc.Closing?
    ensures QuietStep(s, t, w)
  {
    hide LinksOk, DistinctEntryIds, WitnessesOk, PointOk;
  }

  lemma NotifyIsQuiet(p: Primitives, s: State, w: nat, choice: Choice)
    requires SharedOk(s) && w < |s.workers| && WorkerOk(p, s, w)
    ensures var t := StepNotify(s, w, choice); t == s || QuietStep(s, t, w)
  {
    hide LinksOk, DistinctEntryIds, WitnessesOk, QuietStep, WitnessPoint, ReadOk;
    var t := StepNotify(s, w, choice);
    if t != s {
      MoveIsQuiet(p, s, t, w, t.workers[w].pc);
    }
  }

  // Where an identity step leads: on among the identity points, to the end, or
  // to the point after the identity, with its key trusted.
  predicate IdentityMove(s: State, t: State, w: nat)
    requires w < |s.workers| && w < |t.workers|
  {
    var pc := t.workers[w].pc;
    && t == Move(s, w, pc).(home := t.home)
    && s.home.trusted <= t.home.trusted
    && (match pc
        case RegisteringOldPrivate => true
        case Generating => true
        case WritingPrivate(_) => true
        case WritingPublic(_) => true
        case Registering(_) => true
        case Ended(ending) => ending == IdentityFailed || (ending.Rotated? && ending.key in t.home.trusted)
        case Approving(key) => s.workers[w].task.Guarded? && key in t.home.trusted
        case Waiting(key, write) => s.workers[w].task.Checkpointing? && write == Commit && key in t.home.trusted
        case _ => false)
  }

  predicate LoadingIdentity(pc: Pc) {
    pc.LoadingKey? || pc.WritingPrivate? || pc.WritingPublic? || pc.Registering?
    || pc.RegisteringOldPublic? || pc.RegisteringOldPrivate? || pc.Generating?
  }

  lemma RegisterAdds(home: Home, key: Key, torn: bool)
    ensures home.trusted <= Register(home, key, torn).trusted && key in Register(home, key, torn).trusted
  {
  }

  lemma IdentityMoves(s: State, w: nat, choice: Choice)
    requires w < |s.workers|
    ensures var t := StepIdentity(s, w, choice);
            t == s || (LoadingIdentity(s.workers[w].pc) && w < |t.workers| && IdentityMove(s, t, w))
  {
    hide StepIdentity, IdentityMove;
    var pc := s.workers[w].pc;
    if pc.Registering? {
      RegisteringMoves(s, w, choice);
    } else if pc.WritingPrivate? || pc.WritingPublic? || pc.LoadingKey? || pc.Generating? {
      FileMoves(s, w, choice);
    } else {
      OldKeyMoves(s, w, choice);
    }
  }

  lemma RegisteringMoves(s: State, w: nat, choice: Choice)
    requires w < |s.workers| && s.workers[w].pc.Registering?
    ensures var t := StepIdentity(s, w, choice); w < |t.workers| && IdentityMove(s, t, w)
  {
    hide Register;
    RegisterAdds(s.home, s.workers[w].pc.key, true);
    RegisterAdds(s.home, s.workers[w].pc.key, false);
  }

  lemma FileMoves(s: State, w: nat, choice: Choice)
    requires w < |s.workers|
    requires var pc := s.workers[w].pc; pc.WritingPrivate? || pc.WritingPublic? || pc.LoadingKey? || pc.Generating?
    ensures var t := StepIdentity(s, w, choice); t == s || (w < |t.workers| && IdentityMove(s, t, w))
  {
    hide AfterIdentity, Register, RegisterOld;
  }

  lemma OldKeyMoves(s: State, w: nat, choice: Choice)
    requires w < |s.workers|
    requires var pc := s.workers[w].pc;
             !pc.Registering? && !pc.WritingPrivate? && !pc.WritingPublic? && !pc.LoadingKey? && !pc.Generating?
    ensures var t := StepIdentity(s, w, choice);
            t == s || (LoadingIdentity(s.workers[w].pc) && w < |t.workers| && IdentityMove(s, t, w))
  {
    hide AfterIdentity, Register;
    if s.home.publicKey.Holds? {
      RegisterAdds(s.home, s.home.publicKey.key, choice.Tear?);
    }
    if s.home.privateKey.Holds? {
      RegisterAdds(s.home, s.home.privateKey.key, choice.Tear?);
    }
  }

  lemma IdentityIsQuiet(p: Primitives, s: State, w: nat, choice: Choice)
    requires SharedOk(s) && w < |s.workers| && WorkerOk(p, s, w)
    ensures var t := StepIdentity(s, w, choice); t == s || QuietStep(s, t, w)
  {
    hide LinksOk, DistinctEntryIds, WitnessesOk, QuietStep, WitnessPoint, ReadOk, StepIdentity;
    var t := StepIdentity(s, w, choice);
    IdentityMoves(s, w, choice);
    if t != s {
      MoveIsQuiet(p, s, t, w, t.workers[w].pc);
    }
  }

  lemma ApproveIsQuiet(p: Primitives, s: State, w: nat, choice: Choice)
    requires SharedOk(s) && w < |s.workers| && WorkerOk(p, s, w)
    ensures var t := StepApprove(s, w, choice); t == s || QuietStep(s, t, w)
  {
    hide LinksOk, DistinctEntryIds, WitnessesOk, QuietStep, WitnessPoint, ReadOk;
    var t := StepApprove(s, w, choice);
    if t != s {
      MoveIsQuiet(p, s, t, w, t.workers[w].pc);
    }
  }

  // Calling the target: the links into the journal are those of the decision.
  lemma CallIsLocal(p: Primitives, s: State, w: nat, choice: Choice)
    requires SharedOk(s) && w < |s.workers| && WorkerOk(p, s, w)
    ensures var t := StepCall(s, w, choice); t == s || (LocalStep(s, t, w) && WorkerOk(p, t, w))
  {
    hide DistinctEntryIds, HashBefore, LinksOk, WorkerOk, AfterCallOk, LocalStep, StepCall;
    var t := StepCall(s, w, choice);
    CallLinks(p, s, w, choice);
    CallPoint(p, s, w, choice);
    if t != s {
      Assemble(p, t, w);
    }
  }

  lemma CallLinks(p: Primitives, s: State, w: nat, choice: Choice)
    requires SharedOk(s) && w < |s.workers| && WorkerOk(p, s, w)
    ensures var t := StepCall(s, w, choice); t == s || (LocalStep(s, t, w) && LinksOk(t, w))
  {
    hide StepCall, LocalStep, LinksOk, WorkerOk, SharedOk;
    if s.workers[w].pc.SavingWitness? {
      SaveLinks(p, s, w, choice);
    } else {
      TargetLinks(p, s, w, choice);
    }
  }

  lemma SaveLinks(p: Primitives, s: State, w: nat, choice: Choice)
    requires SharedOk(s) && w < |s.workers| && WorkerOk(p, s, w) && s.workers[w].pc.SavingWitness?
    ensures var t := StepCall(s, w, choice); LocalStep(s, t, w) && LinksOk(t, w)
  {
    hide DistinctEntryIds, HashBefore, ReadOk, LinksOk, PointOk;
    LinksCarry(s, StepCall(s, w, choice), w);
  }

  lemma TargetLinks(p: Primitives, s: State, w: nat, choice: Choice)
    requires SharedOk(s) && w < |s.workers| && WorkerOk(p, s, w) && !s.workers[w].pc.SavingWitness?
    ensures var t := StepCall(s, w, choice); t == s || (LocalStep(s, t, w) && LinksOk(t, w))
  {
    hide DistinctEntryIds, HashBefore, ReadOk, WitnessesOk;
  }

  lemma CallPoint(p: Primitives, s: State, w: nat, choice: Choice)
    requires SharedOk(s) && w < |s.workers| && WorkerOk(p, s, w)
    ensures var t := StepCall(s, w, choice);
            t == s || AfterCallOk(t, w)
  {
    hide StepCall, AfterCallOk, WorkerOk, SharedOk;
    if s.workers[w].pc.SavingWitness? {
      SavePoint(p, s, w, choice);
    } else {
      TargetPoint(p, s, w, choice);
    }
  }

  lemma SavePoint(p: Primitives, s: State, w: nat, choice: Choice)
    requires w < |s.workers| && WorkerOk(p, s, w) && s.workers[w].pc.SavingWitness?
    ensures AfterCallOk(StepCall(s, w, choice), w)
  {
    hide HashBefore, ReadOk, LinksOk;
  }

  lemma TargetPoint(p: Primitives, s: State, w: nat, choice: Choice)
    requires SharedOk(s) && w < |s.workers| && WorkerOk(p, s, w) && !s.workers[w].pc.SavingWitness?
    ensures var t := StepCall(s, w, choice);
            t == s || AfterCallOk(t, w)
  {
    hide DistinctEntryIds, HashBefore, ReadOk, LinksOk;
  }

  predicate AfterCallOk(t: State, w: nat) {
    && w < |t.workers|
    && (t.workers[w].pc.InCall? || t.workers[w].pc.Waiting? || t.workers[w].pc.Ended?)
    && PointOk(t.workers[w]) && !MustBeDenied(t.workers[w].pc)
    && (KeyInUse(t.workers[w].pc).Some? ==> KeyInUse(t.workers[w].pc).value in t.home.trusted)
    && (Past(t.workers[w].pc) ==> ToldFor(t, t.workers[w]))
  }

  lemma Assemble(p: Primitives, t: State, w: nat)
    requires AfterCallOk(t, w) && LinksOk(t, w)
    ensures WorkerOk(p, t, w)
  {
    hide PointOk, LinksOk;
  }

  lemma PreludeKeepsInv(p: Primitives, s: State, w: nat, choice: Choice)
    requires Inv(p, s) && w < |s.workers|
    ensures Inv(p, StepNotify(s, w, choice)) && Inv(p, StepIdentity(s, w, choice))
    ensures Inv(p, StepApprove(s, w, choice)) && Inv(p, StepCall(s, w, choice))
  {
    hide *;
    assert SharedOk(s) && WorkerOk(p, s, w) by {
      Parts(p, s, w);
    }
    var a, b, c, d := StepNotify(s, w, choice), StepIdentity(s, w, choice), StepApprove(s, w, choice), StepCall(s, w, choice);
    NotifyIsQuiet(p, s, w, choice);
    if a != s {
      QuietKeepsInv(p, s, a, w);
    }
    IdentityIsQuiet(p, s, w, choice);
    if b != s {
      QuietKeepsInv(p, s, b, w);
    }
    ApproveIsQuiet(p, s, w, choice);
    if c != s {
      QuietKeepsInv(p, s, c, w);
    }
    CallIsLocal(p, s, w, choice);
    if d != s {
      LocalStepKeepsInv(p, s, d, w);
    }
  }

  lemma Parts(p: Primitives, s: State, w: nat)
    requires Inv(p, s) && w < |s.workers|
    ensures SharedOk(s) && WorkerOk(p, s, w)
  {
    hide SharedOk, WorkerOk, EntryOk;
  }

  lemma QuietKeepsInv(p: Primitives, s: State, t: State, w: nat)
    requires Inv(p, s) && QuietStep(s, t, w)
    ensures Inv(p, t)
  {
    hide SharedOk, WorkerOk, EntryOk, PointOk;
    QuietWorkerOk(p, s, t, w);
    LocalStepKeepsInv(p, s, t, w);
  }

  // ----- the locked append -----

  lemma LostLinks(s: State, t: State, w: nat)
    requires LocalStep(s, t, w) && LinksOk(s, w)
    requires t.workers[w].runs == s.workers[w].runs && t.workers[w].effect == s.workers[w].effect
    requires t.workers[w].lostOutcome ==> s.workers[w].effect.Some?
    ensures LinksOk(t, w)
  {
  }

  // Opening, acquiring, reading and releasing leave the journal alone.
  predicate KeepsJournal(s: State, w: nat, choice: Choice)
    requires w < |s.workers|
  {
    match s.workers[w].pc
    case Waiting(_, _) => true
    case Reading(_, _) => true
    case Releasing(_, _, _, _, _) => true
    case Building(_, _, _, _) => choice.Buffer? || (choice.Append? && !choice.stored)
    case Closing(_, _, _) => choice.Fail?
    case _ => false
  }

  lemma AppendShape(p: Primitives, s: State, w: nat, choice: Choice)
    requires SharedOk(s) && w < |s.workers| && WorkerOk(p, s, w) && KeepsJournal(s, w, choice)
    ensures var t := StepAppend(p, s, w, choice); t == s || (LocalStep(s, t, w) && LinksOk(t, w))
  {
    hide StepAppend, LocalStep, LinksOk, PointOk, SharedOk;
    AppendIsLocal(p, s, w, choice);
    AppendKeepsRecord(p, s, w, choice);
    var t := StepAppend(p, s, w, choice);
    if t != s {
      LostLinks(s, t, w);
    }
  }

  lemma AppendKeepsRecord(p: Primitives, s: State, w: nat, choice: Choice)
    requires w < |s.workers| && WorkerOk(p, s, w) && KeepsJournal(s, w, choice)
    ensures var t := StepAppend(p, s, w, choice);
            && w < |t.workers|
            && t.workers[w].runs == s.workers[w].runs && t.workers[w].effect == s.workers[w].effect
            && (t == s || (t.workers[w].lostOutcome ==> s.workers[w].effect.Some?))
  {
    hide LinksOk, HashBefore, HashOf, Fresh, BodyFor, WitnessPoint, ReadOk;
  }

  lemma AppendIsLocal(p: Primitives, s: State, w: nat, choice: Choice)
    requires SharedOk(s) && w < |s.workers| && WorkerOk(p, s, w) && KeepsJournal(s, w, choice)
    ensures var t := StepAppend(p, s, w, choice); t == s || LocalStep(s, t, w)
  {
    hide StepAppend, LocalStep, SharedOk, WorkerOk;
    if s.workers[w].pc.Building? {
      WriteIsLocal(p, s, w, choice);
    } else {
      QueueIsLocal(p, s, w, choice);
    }
  }

  lemma WriteIsLocal(p: Primitives, s: State, w: nat, choice: Choice)
    requires SharedOk(s) && w < |s.workers| && WorkerOk(p, s, w) && KeepsJournal(s, w, choice)
    requires s.workers[w].pc.Building?
    ensures var t := StepAppend(p, s, w, choice); t == s || LocalStep(s, t, w)
  {
    hide DistinctEntryIds, WitnessesOk, HashBefore, HashOf, LinksOk, Fresh, BodyFor, PointOk, StepClose, PendingDistinct;
  }

  lemma QueueIsLocal(p: Primitives, s: State, w: nat, choice: Choice)
    requires SharedOk(s) && w < |s.workers| && WorkerOk(p, s, w) && KeepsJournal(s, w, choice)
    requires !s.workers[w].pc.Building?
    ensures var t := StepAppend(p, s, w, choice); t == s || LocalStep(s, t, w)
  {
    hide DistinctEntryIds, WitnessesOk, HashBefore, HashOf, LinksOk, BodyFor, PointOk, StepWrite, ReadOk;
  }

  lemma AppendPoint(p: Primitives, s: State, w: nat, choice: Choice)
    requires SharedOk(s) && w < |s.workers| && WorkerOk(p, s, w) && KeepsJournal(s, w, choice)
    ensures var t := StepAppend(p, s, w, choice);
            t == s || (PointOk(t.workers[w]) && FlagsOk(p, t, w))
  {
    hide StepAppend, PointOk, FlagsOk, WorkerOk, SharedOk;
    if s.workers[w].pc.Building? {
      if choice.Buffer? {
        BufferPoint(p, s, w, choice);
      } else {
        WritePoint(p, s, w, choice);
      }
    } else {
      QueuePoint(p, s, w, choice);
    }
  }

  lemma WritePoint(p: Primitives, s: State, w: nat, choice: Choice)
    requires SharedOk(s) && w < |s.workers| && WorkerOk(p, s, w) && KeepsJournal(s, w, choice)
    requires s.workers[w].pc.Building? && !choice.Buffer?
    ensures var t := StepAppend(p, s, w, choice);
            t == s || (PointOk(t.workers[w]) && FlagsOk(p, t, w))
  {
    hide DistinctEntryIds, WitnessesOk, LinksOk, Fresh, BodyFor, HashOf, AfterWrite, TailHash, EndOk, PendingDistinct,
         StepClose, NotPending;
  }

  lemma BufferPoint(p: Primitives, s: State, w: nat, choice: Choice)
    requires SharedOk(s) && w < |s.workers| && WorkerOk(p, s, w) && choice.Buffer?
    requires s.workers[w].pc.Building?
    ensures var t := StepAppend(p, s, w, choice);
            t == s || (PointOk(t.workers[w]) && FlagsOk(p, t, w))
  {
    hide DistinctEntryIds, WitnessesOk, LinksOk, Fresh, HashOf, AfterWrite, TailHash, EndOk, PendingDistinct, StepClose,
         NotPending, OnlyLate, HashBefore;
  }

  lemma QueuePoint(p: Primitives, s: State, w: nat, choice: Choice)
    requires SharedOk(s) && w < |s.workers| && WorkerOk(p, s, w) && KeepsJournal(s, w, choice)
    requires !s.workers[w].pc.Building?
    ensures var t := StepAppend(p, s, w, choice);
            t == s || (PointOk(t.workers[w]) && FlagsOk(p, t, w))
  {
    hide StepAppend, PointOk, FlagsOk, WorkerOk, SharedOk;
    if s.workers[w].pc.Releasing? {
      ReleasePoint(p, s, w, choice);
    } else if s.workers[w].pc.Closing? {
      ClosePoint(p, s, w, choice);
    } else {
      WaitPoint(p, s, w, choice);
    }
  }

  lemma ReleasePoint(p: Primitives, s: State, w: nat, choice: Choice)
    requires SharedOk(s) && w < |s.workers| && WorkerOk(p, s, w) && s.workers[w].pc.Releasing?
    ensures var t := StepAppend(p, s, w, choice); PointOk(t.workers[w]) && FlagsOk(p, t, w)
  {
    hide DistinctEntryIds, WitnessesOk, LinksOk, StepWrite, HashOf, PendingDistinct, Fresh, StepClose;
  }

  lemma ClosePoint(p: Primitives, s: State, w: nat, choice: Choice)
    requires SharedOk(s) && w < |s.workers| && WorkerOk(p, s, w) && KeepsJournal(s, w, choice)
    requires s.workers[w].pc.Closing?
    ensures var t := StepAppend(p, s, w, choice); PointOk(t.workers[w]) && FlagsOk(p, t, w)
  {
    hide DistinctEntryIds, WitnessesOk, LinksOk, StepWrite, HashOf, PendingDistinct, Fresh;
  }

  lemma WaitPoint(p: Primitives, s: State, w: nat, choice: Choice)
    requires SharedOk(s) && w < |s.workers| && WorkerOk(p, s, w) && KeepsJournal(s, w, choice)
    requires !s.workers[w].pc.Building? && !s.workers[w].pc.Releasing? && !s.workers[w].pc.Closing?
    ensures var t := StepAppend(p, s, w, choice);
            t == s || (PointOk(t.workers[w]) && FlagsOk(p, t, w))
  {
    hide DistinctEntryIds, WitnessesOk, LinksOk, StepWrite, HashOf, PendingDistinct, Fresh, StepClose;
  }

  // WorkerOk without its first two parts.
  predicate FlagsOk(p: Primitives, s: State, w: nat)
    requires w < |s.workers|
  {
    var worker := s.workers[w];
    && (HoldsLock(worker.pc) ==> s.lock == Some(w))
    && (KeyInUse(worker.pc).Some? ==> KeyInUse(worker.pc).value in s.home.trusted)
    && (Past(worker.pc) ==> ToldFor(s, worker))
    && (NeedsApproval(worker.pc) ==> Approved(s, worker))
    && (MustBeDenied(worker.pc) ==> DeniedEntry(s, worker))
    && WitnessPoint(s, worker.pc)
    && ReadOk(p, s, w)
  }

  lemma FlagsComplete(p: Primitives, s: State, w: nat)
    requires w < |s.workers| && PointOk(s.workers[w]) && LinksOk(s, w) && FlagsOk(p, s, w)
    ensures WorkerOk(p, s, w)
  {
    hide PointOk, LinksOk;
  }

  // The step that stores a line, under the lock or late.
  ghost predicate StoreStep(p: Primitives, s: State, t: State, w: nat, e: Entry) {
    && w < |s.workers|
    && Storable(p, s, w, e)
    && t.journal == s.journal + [e]
    && |t.workers| == |s.workers| && t.workers == s.workers[w := t.workers[w]]
    && Stored(s.workers[w], t.workers[w], |s.journal|)
    && t.lock == s.lock && t.home == s.home && t.told == s.told && t.done == s.done && t.witnesses == s.witnesses
  }

  // What is known of the line.
  ghost predicate Storable(p: Primitives, s: State, w: nat, e: Entry)
    requires w < |s.workers|
  {
    var pc := s.workers[w].pc;
    && (pc.Building? || pc.Closing?)
    && e.author == w && e.key in s.home.trusted
    && e.seen <= |s.journal| && e.previous == HashBefore(p, s.journal, e.seen)
    && (!e.late ==> s.lock == Some(w) && OnlyLate(s.journal, e.seen))
    && BodyFor(s, w, pc.write, e.seen) == Some(e.body)
    && PendingAlone(s, w, e.id)
  }

  // What the writer becomes.
  predicate Stored(before: Worker, after: Worker, position: nat) {
    match before.pc
    case Building(key, write, _, _) =>
      && after.pc.Releasing? && after.pc == Releasing(key, write, true, after.pc.reported, position)
      && after == Record(before, write, position)
                  .(pc := after.pc, lostOutcome := before.lostOutcome || (write.Conclude? && !after.pc.reported))
    case Closing(write, entry, aborted) =>
      after == Record(before, write, position)
               .(pc := if aborted then Ended(Aborted) else AfterWrite(write, false, 0, entry.key))
    case _ => false
  }

  lemma WriteStores(p: Primitives, s: State, w: nat, choice: Choice)
    requires SharedOk(s) && w < |s.workers| && WorkerOk(p, s, w)
    requires (s.workers[w].pc.Building? || s.workers[w].pc.Closing?) && !KeepsJournal(s, w, choice)
    ensures var t := StepAppend(p, s, w, choice);
            t == s || (|t.journal| > |s.journal| && StoreStep(p, s, t, w, t.journal[|s.journal|]))
  {
    hide StoreStep, StepAppend, SharedOk, WorkerOk;
    if s.workers[w].pc.Building? {
      LockedStore(p, s, w, choice);
    } else {
      LateStore(p, s, w, choice);
    }
  }

  lemma LockedStore(p: Primitives, s: State, w: nat, choice: Choice)
    requires SharedOk(s) && w < |s.workers| && WorkerOk(p, s, w)
    requires s.workers[w].pc.Building? && !KeepsJournal(s, w, choice)
    ensures var t := StepAppend(p, s, w, choice);
            t == s || (|t.journal| > |s.journal| && StoreStep(p, s, t, w, t.journal[|s.journal|]))
  {
    hide BodyFor, HashBefore, HashOf, Fresh, LinksOk, PointOk, WitnessPoint, DistinctEntryIds, WitnessesOk,
         PendingDistinct, AfterWrite;
  }

  lemma LateStore(p: Primitives, s: State, w: nat, choice: Choice)
    requires SharedOk(s) && w < |s.workers| && WorkerOk(p, s, w)
    requires s.workers[w].pc.Closing? && !KeepsJournal(s, w, choice)
    ensures var t := StepAppend(p, s, w, choice); |t.journal| > |s.journal| && StoreStep(p, s, t, w, t.journal[|s.journal|])
  {
    hide BodyFor, HashBefore, HashOf, Fresh, LinksOk, PointOk, WitnessPoint, DistinctEntryIds, WitnessesOk,
         PendingAlone, AfterWrite, StepWrite;
    assert PendingId(s.workers[w]).Some?;
  }

  lemma StoreKeepsOthers(p: Primitives, s: State, t: State, w: nat, e: Entry, v: nat)
    requires StoreStep(p, s, t, w, e) && v < |s.workers| && v != w && WorkerOk(p, s, v)
    ensures WorkerOk(p, t, v)
  {
    hide Fresh, HashBefore, PointOk, LinksOk, PendingAlone, ReadOk, Stored;
    StoreKeepsLinks(p, s, t, w, e, v);
    StoreKeepsReads(p, s, t, w, e, v);
  }

  lemma StoreKeepsReads(p: Primitives, s: State, t: State, w: nat, e: Entry, v: nat)
    requires StoreStep(p, s, t, w, e) && v < |s.workers| && v != w && ReadOk(p, s, v)
    requires HoldsLock(s.workers[v].pc) ==> s.lock == Some(v)
    ensures ReadOk(p, t, v)
  {
    hide Fresh, HashOf, PendingAlone, Stored;
  }

  lemma StoreKeepsLinks(p: Primitives, s: State, t: State, w: nat, e: Entry, v: nat)
    requires StoreStep(p, s, t, w, e) && v < |s.workers| && v != w && LinksOk(s, v)
    ensures LinksOk(t, v)
  {
    hide Fresh, BodyFor, PendingAlone, Stored, HashBefore;
  }

  lemma StoreKeepsEntries(p: Primitives, s: State, t: State, w: nat, e: Entry, i: nat)
    requires StoreStep(p, s, t, w, e) && WorkerOk(p, s, w) && i < |s.journal| && EntryOk(p, s, i)
    ensures EntryOk(p, t, i)
  {
    hide Fresh, BodyFor, LinksOk, HashOf, PendingAlone, ReadOk, WitnessPoint;
    assert t.journal[..i] == s.journal[..i];
  }

  lemma StoredEntryOk(p: Primitives, s: State, t: State, w: nat, e: Entry)
    requires StoreStep(p, s, t, w, e) && WorkerOk(p, s, w)
    ensures EntryOk(p, t, |s.journal|)
  {
    hide Fresh, LinksOk, HashOf, PendingAlone, ReadOk, WitnessPoint, PointOk;
    assert t.journal[..|s.journal|] == s.journal;
  }

  lemma StoreFlags(p: Primitives, s: State, t: State, w: nat, e: Entry)
    requires StoreStep(p, s, t, w, e) && WorkerOk(p, s, w)
    ensures PointOk(t.workers[w]) && FlagsOk(p, t, w)
  {
    hide StoreStep, WorkerOk, PointOk, FlagsOk;
    StorePoint(p, s, t, w, e);
    if s.workers[w].pc.Building? {
      LockedFlags(p, s, t, w, e);
    } else {
      LateFlags(p, s, t, w, e);
    }
  }

  lemma StorePoint(p: Primitives, s: State, t: State, w: nat, e: Entry)
    requires StoreStep(p, s, t, w, e) && WorkerOk(p, s, w)
    ensures w < |s.workers| && w < |t.workers| && PointOk(t.workers[w])
  {
    hide Fresh, LinksOk, HashOf, PendingAlone, HashBefore, OnlyLate, BodyFor, ReadOk;
  }

  lemma LockedFlags(p: Primitives, s: State, t: State, w: nat, e: Entry)
    requires StoreStep(p, s, t, w, e) && WorkerOk(p, s, w) && s.workers[w].pc.Building?
    ensures FlagsOk(p, t, w)
  {
    hide Fresh, LinksOk, HashOf, PendingAlone, HashBefore, OnlyLate;
  }

  lemma LateFlags(p: Primitives, s: State, t: State, w: nat, e: Entry)
    requires StoreStep(p, s, t, w, e) && WorkerOk(p, s, w) && !s.workers[w].pc.Building?
    ensures FlagsOk(p, t, w)
  {
    hide Fresh, LinksOk, HashOf, PendingAlone, HashBefore, OnlyLate, BodyFor;
  }

  lemma StoreLinks(p: Primitives, s: State, t: State, w: nat, e: Entry)
    requires StoreStep(p, s, t, w, e) && WorkerOk(p, s, w)
    ensures LinksOk(t, w)
  {
    hide Fresh, HashOf, WitnessPoint, PendingAlone, HashBefore, OnlyLate, ReadOk;
  }

  lemma StoreShared(p: Primitives, s: State, t: State, w: nat, e: Entry)
    requires StoreStep(p, s, t, w, e) && SharedOk(s)
    ensures SharedOk(t)
  {
    hide BodyFor, HashBefore, OnlyLate;
    StoreLeavesAlone(p, s, t, w, e);
  }

  lemma StorerIsDone(p: Primitives, s: State, t: State, w: nat, e: Entry)
    requires StoreStep(p, s, t, w, e)
    ensures PendingId(t.workers[w]).None?
  {
    hide BodyFor, HashBefore, OnlyLate, PendingAlone;
  }

  lemma StoreLeavesAlone(p: Primitives, s: State, t: State, w: nat, e: Entry)
    requires StoreStep(p, s, t, w, e) && PendingDistinct(s)
    ensures PendingDistinct(t)
  {
    hide BodyFor, HashBefore, OnlyLate, AfterWrite, Record, Stored;
    forall v | 0 <= v < |t.workers| && PendingId(t.workers[v]).Some?
      ensures PendingAlone(t, v, PendingId(t.workers[v]).value)
    {
      StorerIsDone(p, s, t, w, e);
      assert t.workers[v] == s.workers[v];
      assert PendingAlone(s, v, PendingId(s.workers[v]).value);
    }
  }

  lemma StoreKeepsInv(p: Primitives, s: State, t: State, w: nat, e: Entry)
    requires Inv(p, s) && StoreStep(p, s, t, w, e)
    ensures Inv(p, t)
  {
    hide WorkerOk, EntryOk, SharedOk, StoreStep, LinksOk, FlagsOk, PointOk, Inv;
    StoreSizes(p, s, t, w, e);
    Parts(p, s, w);
    StoreKeepsWorkers(p, s, t, w, e);
    StoreKeepsAllEntries(p, s, t, w, e);
    StoreShared(p, s, t, w, e);
    Whole(p, t);
  }

  lemma Whole(p: Primitives, s: State)
    requires SharedOk(s)
    requires forall w :: 0 <= w < |s.workers| ==> WorkerOk(p, s, w)
    requires forall i :: 0 <= i < |s.journal| ==> EntryOk(p, s, i)
    ensures Inv(p, s)
  {
    hide SharedOk, WorkerOk, EntryOk;
  }

  lemma EntryPart(p: Primitives, s: State, i: nat)
    requires Inv(p, s) && i < |s.journal|
    ensures EntryOk(p, s, i)
  {
    hide SharedOk, WorkerOk, EntryOk;
  }

  lemma StoreKeepsWorkers(p: Primitives, s: State, t: State, w: nat, e: Entry)
    requires Inv(p, s) && StoreStep(p, s, t, w, e)
    ensures forall v :: 0 <= v < |t.workers| ==> WorkerOk(p, t, v)
  {
    hide WorkerOk, SharedOk, StoreStep, LinksOk, FlagsOk, PointOk, Inv;
    StoreSizes(p, s, t, w, e);
    forall v | 0 <= v < |t.workers|
      ensures WorkerOk(p, t, v)
    {
      Parts(p, s, v);
      if v == w {
        StoreFlags(p, s, t, w, e);
        StoreLinks(p, s, t, w, e);
        FlagsComplete(p, t, w);
      } else {
        StoreKeepsOthers(p, s, t, w, e, v);
      }
    }
  }

  lemma StoreKeepsAllEntries(p: Primitives, s: State, t: State, w: nat, e: Entry)
    requires Inv(p, s) && StoreStep(p, s, t, w, e)
    ensures forall i :: 0 <= i < |t.journal| ==> EntryOk(p, t, i)
  {
    hide WorkerOk, EntryOk, SharedOk, StoreStep, Inv;
    StoreSizes(p, s, t, w, e);
    Parts(p, s, w);
    forall i | 0 <= i < |t.journal|
      ensures EntryOk(p, t, i)
    {
      if i < |s.journal| {
        EntryPart(p, s, i);
        StoreKeepsEntries(p, s, t, w, e, i);
      } else {
        StoredEntryOk(p, s, t, w, e);
      }
    }
  }

  lemma StoreSizes(p: Primitives, s: State, t: State, w: nat, e: Entry)
    requires StoreStep(p, s, t, w, e)
    ensures w < |s.workers|
    ensures |t.workers| == |s.workers| && |t.journal| == |s.journal| + 1
  {
    hide Fresh, BodyFor;
  }

  predicate Appending(pc: Pc) {
    pc.Waiting? || pc.Reading? || pc.Building? || pc.Releasing? || pc.Closing?
  }

  lemma AppendKeepsInv(p: Primitives, s: State, w: nat, choice: Choice)
    requires Inv(p, s) && w < |s.workers|
    requires var pc := s.workers[w].pc; Appending(pc)
    ensures Inv(p, StepAppend(p, s, w, choice))
  {
    var t := StepAppend(p, s, w, choice);
    hide Inv, WorkerOk, SharedOk, StepAppend, LocalStep, LinksOk, FlagsOk, PointOk, StoreStep;
    Parts(p, s, w);
    if KeepsJournal(s, w, choice) {
      AppendShape(p, s, w, choice);
      AppendPoint(p, s, w, choice);
      if t != s {
        LocalStepSize(s, t, w);
        FlagsComplete(p, t, w);
        LocalStepKeepsInv(p, s, t, w);
      }
    } else {
      WriteStores(p, s, w, choice);
      if t != s {
        StoreKeepsInv(p, s, t, w, t.journal[|s.journal|]);
      }
    }
  }

  lemma LocalStepSize(s: State, t: State, w: nat)
    requires LocalStep(s, t, w)
    ensures w < |t.workers|
  {
  }

  // ----- starting and dying -----

  lemma SpawnKeepsInv(p: Primitives, s: State, process: nat, task: Task)
    requires Inv(p, s)
    ensures Inv(p, Step(p, s, Spawn(process, task)))
  {
    var t := Step(p, s, Spawn(process, task));
    if t != s {
      hide WorkerOk, EntryOk, SharedOk;
      forall v | 0 <= v < |t.workers|
        ensures WorkerOk(p, t, v)
      {
        SpawnWorker(p, s, process, task, v);
      }
      forall i | 0 <= i < |t.journal|
        ensures EntryOk(p, t, i)
      {
        SpawnEntry(p, s, process, task, i);
      }
      SpawnShared(p, s, process, task);
    }
  }

  lemma SpawnWorker(p: Primitives, s: State, process: nat, task: Task, v: nat)
    requires var t := Step(p, s, Spawn(process, task)); t != s && v < |t.workers|
    requires v < |s.workers| ==> WorkerOk(p, s, v)
    ensures WorkerOk(p, Step(p, s, Spawn(process, task)), v)
  {
    hide HashBefore;
  }

  lemma SpawnEntry(p: Primitives, s: State, process: nat, task: Task, i: nat)
    requires i < |s.journal| && EntryOk(p, s, i)
    ensures EntryOk(p, Step(p, s, Spawn(process, task)), i)
  {
    hide HashBefore;
  }

  lemma SpawnShared(p: Primitives, s: State, process: nat, task: Task)
    requires SharedOk(s)
    ensures SharedOk(Step(p, s, Spawn(process, task)))
  {
    hide DistinctEntryIds, WitnessesOk;
  }

  lemma DieKeepsInv(p: Primitives, s: State, process: nat)
    requires Inv(p, s)
    ensures Inv(p, StepDie(s, process))
  {
    var t := StepDie(s, process);
    assert |t.workers| == |s.workers| && t.journal == s.journal;
    hide WorkerOk, EntryOk, SharedOk, StepDie;
    forall v | 0 <= v < |t.workers|
      ensures WorkerOk(p, t, v)
    {
      DieWorker(p, s, process, v);
    }
    forall i | 0 <= i < |t.journal|
      ensures EntryOk(p, t, i)
    {
      DieEntry(p, s, process, i);
    }
    DieShared(s, process);
  }

  lemma DieWorker(p: Primitives, s: State, process: nat, v: nat)
    requires v < |s.workers| && WorkerOk(p, s, v)
    ensures WorkerOk(p, StepDie(s, process), v)
  {
    hide HashBefore;
  }

  lemma DieEntry(p: Primitives, s: State, process: nat, i: nat)
    requires i < |s.journal| && EntryOk(p, s, i)
    ensures EntryOk(p, StepDie(s, process), i)
  {
    hide HashBefore;
  }

  lemma DieShared(s: State, process: nat)
    requires SharedOk(s)
    ensures SharedOk(StepDie(s, process))
  {
    hide DistinctEntryIds, WitnessesOk;
  }

  lemma AbortKeepsInv(p: Primitives, s: State, w: nat)
    requires Inv(p, s) && w < |s.workers|
    ensures Inv(p, StepAbort(s, w))
  {
    hide Inv, SharedOk, WorkerOk, EntryOk, LocalStep, StepAbort;
    Parts(p, s, w);
    if !s.workers[w].pc.Ended? {
      AbortIsLocal(p, s, w);
      LocalStepKeepsInv(p, s, StepAbort(s, w), w);
    } else {
      NothingToAbort(s, w);
    }
  }

  lemma NothingToAbort(s: State, w: nat)
    requires w < |s.workers| && s.workers[w].pc.Ended?
    ensures StepAbort(s, w) == s
  {
  }

  lemma AbortIsLocal(p: Primitives, s: State, w: nat)
    requires SharedOk(s) && w < |s.workers| && WorkerOk(p, s, w) && !s.workers[w].pc.Ended?
    ensures var t := StepAbort(s, w); LocalStep(s, t, w) && WorkerOk(p, t, w)
  {
    hide SharedOk, WorkerOk, LocalStep, StepAbort;
    AbortChangesItself(p, s, w);
    AbortPoint(p, s, w);
  }

  lemma AbortChangesItself(p: Primitives, s: State, w: nat)
    requires SharedOk(s) && w < |s.workers| && WorkerOk(p, s, w) && !s.workers[w].pc.Ended?
    ensures LocalStep(s, StepAbort(s, w), w)
  {
    hide DistinctEntryIds, LinksOk, ReadOk, PointOk;
    if PendingId(s.workers[w]).Some? {
      assert PendingAlone(s, w, PendingId(s.workers[w]).value);
    }
  }

  lemma AbortPoint(p: Primitives, s: State, w: nat)
    requires w < |s.workers| && WorkerOk(p, s, w) && !s.workers[w].pc.Ended?
    ensures WorkerOk(p, StepAbort(s, w), w)
  {
    hide LinksOk, ReadOk;
    AbortKeepsLinks(p, s, w);
    AbortKeepsRead(p, s, w);
  }

  lemma AbortKeepsRead(p: Primitives, s: State, w: nat)
    requires w < |s.workers| && ReadOk(p, s, w)
    ensures ReadOk(p, StepAbort(s, w), w)
  {
    hide HashOf, OnlyLate;
  }

  lemma AbortKeepsLinks(p: Primitives, s: State, w: nat)
    requires w < |s.workers| && WorkerOk(p, s, w)
    ensures LinksOk(StepAbort(s, w), w)
  {
    hide HashBefore, HashOf, BodyFor, Fresh, OnlyLate, ReadOk;
  }

  // ----- every reachable state -----

  lemma StepKeepsInv(p: Primitives, s: State, a: Action)
    requires Inv(p, s)
    ensures Inv(p, Step(p, s, a))
  {
    hide Inv, StepNotify, StepIdentity, StepApprove, StepAppend, StepCall, StepDie, StepAbort;
    match a
    case Spawn(process, task) => SpawnKeepsInv(p, s, process, task);
    case Die(process) => DieKeepsInv(p, s, process);
    case Abort(w) =>
      if w < |s.workers| {
        AbortKeepsInv(p, s, w);
      }
    case Tick(w, choice) =>
      if w < |s.workers| {
        PreludeKeepsInv(p, s, w, choice);
        var pc := s.workers[w].pc;
        if Appending(pc) {
          AppendKeepsInv(p, s, w, choice);
        }
      }
  }

  lemma {:induction false} ReachableIsSafe(p: Primitives, actions: seq<Action>)
    ensures Inv(p, Run(p, actions))
  {
    hide Step;
    if |actions| > 0 {
      hide Inv;
      var n := |actions| - 1;
      ReachableIsSafe(p, actions[..n]);
      StepKeepsInv(p, Run(p, actions[..n]), actions[n]);
    }
  }
}
