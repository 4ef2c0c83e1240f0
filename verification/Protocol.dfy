// The journal protocol as a step system: guarded invocations, checkpoints and
// key rotations of several processes, interleaved at every step, with process
// death possible between any two of them.
module Protocol {
  import opened Wrappers
  import opened Json
  import opened Evidence

  // ----- what the writers record -----

  datatype Contract = Contract(
    actionId: string, actionName: string, contractHash: string, risk: string, approvalMode: string)

  // One guarded call: its contract, its observer if any, and the redacted
  // summary, retention list, input hash and metadata recorded with it.
  datatype Call = Call(
    contract: Contract, observer: Option<nat>,
    summary: string, retention: Value, inputHash: string, metadata: Option<Value>)

  // How the target ended, short of an interrupt.
  datatype Effect =
    | Returned(resultType: string, outputHash: Option<string>)
    | Threw(exceptionType: string, summary: string)

  datatype Body =
    | DecisionBody(call: Call, allowed: bool)
    | OutcomeBody(call: Call, decisionId: string, effect: Effect)
    | CheckpointBody(count: nat)

  // One journal event before rendering. author is the worker that wrote it,
  // seen the number of lines it had read, late whether its line reached the
  // file only when the file was closed, after the lock was released.
  datatype Entry = Entry(
    body: Body, key: Key, previous: Option<string>, id: string, time: string, author: nat, seen: nat, late: bool)

  // ----- the state -----

  datatype Write = Decide(allowed: bool) | Conclude(effect: Effect) | Commit

  datatype Ending =
    | ObserverFailed | CanonicalizationFailed | IdentityFailed | ApprovalFailed
    | DecisionNotRecorded | ActionDenied
    | Completed(effect: Effect) | EvidenceIncomplete(effect: Effect) | Interrupted
    | CheckpointFailed | Checkpointed | Rotated(key: Key)
    | Aborted | Died

  datatype Pc =
    | Begin | Notifying | Marking | Canonicalizing
    | LoadingKey | WritingPrivate(key: Key) | WritingPublic(key: Key) | Registering(key: Key)
    | RegisteringOldPublic | RegisteringOldPrivate | Generating
    | Approving(key: Key)
    | Waiting(key: Key, write: Write)
    | Reading(key: Key, write: Write)
    | Building(key: Key, write: Write, previous: Option<string>, count: nat)
    | Releasing(key: Key, write: Write, stored: bool, reported: bool, index: nat)
    | Closing(write: Write, entry: Entry, aborted: bool)
    | Calling(key: Key) | InCall(key: Key)
    | SavingWitness(index: nat)
    | Ended(ending: Ending)

  datatype Task = Guarded(call: Call) | Checkpointing | Rotating

  // runs counts calls of the target, effect is how it ended; decisionAt and
  // outcomeAt are the positions of this worker's events in the journal, and
  // lostOutcome records that its outcome append reported a failure.
  datatype Worker = Worker(
    process: nat, task: Task, pc: Pc,
    runs: nat, effect: Option<Effect>,
    decisionAt: Option<nat>, outcomeAt: Option<nat>, lostOutcome: bool)

  // A key file is written in place: a write that fails or dies in the middle
  // leaves a file that exists and cannot be read.
  datatype KeyFile = Absent | Damaged | Holds(key: Key)

  // trusted are the keys with a file in the trusted directory, which is named
  // after the key; broken are those of them whose file cannot be read.
  datatype Home = Home(privateKey: KeyFile, publicKey: KeyFile, trusted: set<Key>, broken: set<Key>)

  datatype Notice = Notice(process: nat, observer: nat, contractHash: string)

  // told holds every successful observer call, done what the trackers remember.
  datatype State = State(
    journal: seq<Entry>, lock: Option<nat>, workers: seq<Worker>, home: Home,
    told: set<Notice>, done: set<Notice>, witnesses: set<nat>, dead: set<nat>)

  const INITIAL: State := State([], None, [], Home(Absent, Absent, {}, {}), {}, {}, {}, {})

  // ----- rendering -----

  function DecisionFields(call: Call, allowed: bool): Event {
    var fields: Event := map[
      EventType := DECISION,
      Decision := if allowed then ALLOWED else DENIED,
      Risk := JStr(call.contract.risk),
      ApprovalMode := JStr(call.contract.approvalMode),
      RedactedInputSummary := JStr(call.summary),
      ParameterRetention := call.retention,
      InputHash := JStr(call.inputHash)];
    ExtraNames();
    if call.metadata.Some? then fields[Other(METADATA) := call.metadata.value] else fields
  }

  function OutcomeFields(decisionId: string, effect: Effect): Event {
    var fields: Event := map[EventType := OUTCOME, DecisionEventId := JStr(decisionId)];
    ExtraNames();
    match effect
    case Returned(resultType, outputHash) =>
      var returned: Event := fields[Status := SUCCEEDED][Other(RESULT_TYPE) := JStr(resultType)];
      if outputHash.Some? then returned[Other(OUTPUT_HASH) := JStr(outputHash.value)] else returned
    case Threw(exceptionType, summary) =>
      fields[Status := FAILED][Other(RESULT_TYPE) := JNull]
            [Other(EXCEPTION_TYPE) := JStr(exceptionType)][Other(ERROR_SUMMARY) := JStr(summary)]
  }

  function ContractFields(contract: Contract): Event {
    map[ActionId := JStr(contract.actionId), ActionName := JStr(contract.actionName),
        ContractHash := JStr(contract.contractHash)]
  }

  function BodyFields(body: Body, previous: Option<string>): Event {
    match body
    case DecisionBody(call, allowed) => ContractFields(call.contract) + DecisionFields(call, allowed)
    case OutcomeBody(call, decisionId, effect) => ContractFields(call.contract) + OutcomeFields(decisionId, effect)
    case CheckpointBody(count) =>
      map[EventType := CHECKPOINT, CheckpointCount := JNum(count), HeadSha256 := HashJson(previous)]
  }

  function PayloadOf(p: Primitives, e: Entry): Event {
    BodyFields(e.body, e.previous) + map[
      SchemaVersion := SCHEMA_ONE,
      EventId := JStr(e.id),
      TimestampUtc := JStr(e.time),
      KeyId := JStr(p.keyId(e.key)),
      PreviousEventHash := HashJson(e.previous)]
  }

  function Render(p: Primitives, e: Entry): Event {
    FinalizeEvent(p, PayloadOf(p, e), e.key)
  }

  function HashOf(p: Primitives, e: Entry): string {
    p.digest(PayloadOf(p, e))
  }

  // What reading the tail of the journal gives a writer.
  function TailHash(p: Primitives, journal: seq<Entry>): Option<string> {
    if |journal| == 0 then None else Some(HashOf(p, journal[|journal| - 1]))
  }

  // ----- the steps -----

  datatype Approval = Allow | Deny | Invalid | ProviderError

  // What the environment decides at one step. Tear is a file write that fails
  // after the file was opened; Unsynced one that fails after it was complete.
  // Buffer is an append whose line is still in the buffer of the file when the
  // lock is released: its flush failed, or an interrupt came before it.
  datatype Choice =
    | Go | Fail | Tear | Unsynced | PickKey(key: Key) | Verdict(approval: Approval)
    | Finish(effect: Effect) | Interrupt
    | Append(id: string, time: string, stored: bool, reported: bool)
    | Buffer(id: string, time: string)

  // Abort is an interrupt that ends one worker wherever it is, its process
  // living on.
  datatype Action =
    | Spawn(process: nat, task: Task) | Tick(worker: nat, choice: Choice)
    | Abort(worker: nat) | Die(process: nat)

  function Put(s: State, w: nat, worker: Worker): State
    requires w < |s.workers|
  {
    s.(workers := s.workers[w := worker])
  }

  function Move(s: State, w: nat, pc: Pc): State
    requires w < |s.workers|
  {
    Put(s, w, s.workers[w].(pc := pc))
  }

  function NoticeOf(worker: Worker): Option<Notice> {
    match worker.task
    case Guarded(call) =>
      if call.observer.Some? then Some(Notice(worker.process, call.observer.value, call.contract.contractHash)) else None
    case _ => None
  }

  // The observer is told about a contract at most until one call succeeded.
  function StepNotify(s: State, w: nat, choice: Choice): State
    requires w < |s.workers|
  {
    var worker := s.workers[w];
    var notice := NoticeOf(worker);
    match worker.pc
    case Begin =>
      if worker.task.Checkpointing? then Move(s, w, LoadingKey)
      else if worker.task.Rotating? then Move(s, w, RegisteringOldPublic)
      else if notice.None? || notice.value in s.done then Move(s, w, Canonicalizing)
      else Move(s, w, Notifying)
    case Notifying =>
      if choice.Fail? || notice.None? then Move(s, w, Ended(ObserverFailed))
      else Move(s, w, Marking).(told := s.told + {notice.value})
    case Marking =>
      if notice.None? then s else Move(s, w, Canonicalizing).(done := s.done + {notice.value})
    case Canonicalizing =>
      if choice.Fail? then Move(s, w, Ended(CanonicalizationFailed)) else Move(s, w, LoadingKey)
    case _ => s
  }

  function AfterIdentity(task: Task, key: Key): Pc {
    match task
    case Guarded(_) => Approving(key)
    case Checkpointing => Waiting(key, Commit)
    case Rotating => Ended(Rotated(key))
  }

  // register_public_key: a file that exists is left as it is, whatever it holds.
  function Register(home: Home, key: Key, torn: bool): Home {
    if key in home.trusted then home
    else home.(trusted := home.trusted + {key}, broken := if torn then home.broken + {key} else home.broken)
  }

  // Rotation registers the outgoing keys it can read and goes on if it cannot.
  function RegisterOld(home: Home, file: KeyFile, choice: Choice): Home {
    if file.Holds? && !choice.Fail? then Register(home, file.key, choice.Tear?) else home
  }

  // Loading, creating and rotating the signing key, file by file.
  function StepIdentity(s: State, w: nat, choice: Choice): State
    requires w < |s.workers|
  {
    var worker := s.workers[w];
    match worker.pc
    case RegisteringOldPublic =>
      Move(s, w, RegisteringOldPrivate).(home := RegisterOld(s.home, s.home.publicKey, choice))
    case RegisteringOldPrivate =>
      Move(s, w, Generating).(home := RegisterOld(s.home, s.home.privateKey, choice))
    case LoadingKey =>
      if choice.Fail? || s.home.privateKey.Damaged? then Move(s, w, Ended(IdentityFailed))
      else if s.home.privateKey.Holds? then
        var key := s.home.privateKey.key;
        Move(s, w, if s.home.publicKey.Absent? then WritingPublic(key) else Registering(key))
      else Move(s, w, Generating)
    case Generating =>
      if choice.PickKey? then Move(s, w, WritingPrivate(choice.key))
      else if choice.Fail? then Move(s, w, Ended(IdentityFailed)) else s
    case WritingPrivate(key) =>
      if choice.Fail? then Move(s, w, Ended(IdentityFailed))
      else if choice.Tear? then Move(s, w, Ended(IdentityFailed)).(home := s.home.(privateKey := Damaged))
      else Move(s, w, WritingPublic(key)).(home := s.home.(privateKey := Holds(key)))
    case WritingPublic(key) =>
      if choice.Fail? then Move(s, w, Ended(IdentityFailed))
      else if choice.Tear? then Move(s, w, Ended(IdentityFailed)).(home := s.home.(publicKey := Damaged))
      else Move(s, w, Registering(key)).(home := s.home.(publicKey := Holds(key)))
    case Registering(key) =>
      if choice.Fail? then Move(s, w, Ended(IdentityFailed))
      else if choice.Tear? && key !in s.home.trusted then
        Move(s, w, Ended(IdentityFailed)).(home := Register(s.home, key, true))
      else Move(s, w, AfterIdentity(worker.task, key)).(home := Register(s.home, key, false))
    case _ => s
  }

  // Approval: the mode "never" allows without asking; an invalid answer or a
  // failing provider ends the call before anything is recorded.
  function StepApprove(s: State, w: nat, choice: Choice): State
    requires w < |s.workers|
  {
    var worker := s.workers[w];
    match worker.pc
    case Approving(key) =>
      if worker.task.Guarded? && worker.task.call.contract.approvalMode == "never" then
        Move(s, w, Waiting(key, Decide(true)))
      else if !choice.Verdict? then s
      else if choice.approval.Allow? then Move(s, w, Waiting(key, Decide(true)))
      else if choice.approval.Deny? then Move(s, w, Waiting(key, Decide(false)))
      else Move(s, w, Ended(ApprovalFailed))
    case _ => s
  }

  // The event a locked append builds from the hash and the count it read.
  function BodyFor(s: State, w: nat, write: Write, count: nat): Option<Body>
    requires w < |s.workers|
  {
    var worker := s.workers[w];
    match write
    case Commit => Some(CheckpointBody(count))
    case Decide(allowed) => if worker.task.Guarded? then Some(DecisionBody(worker.task.call, allowed)) else None
    case Conclude(effect) =>
      if worker.task.Guarded? && worker.decisionAt.Some? && worker.decisionAt.value < |s.journal| then
        Some(OutcomeBody(worker.task.call, s.journal[worker.decisionAt.value].id, effect))
      else None
  }

  predicate Fresh(journal: seq<Entry>, id: string) {
    forall i :: 0 <= i < |journal| ==> journal[i].id != id
  }

  predicate NotPending(workers: seq<Worker>, id: string) {
    forall v :: 0 <= v < |workers| && workers[v].pc.Closing? ==> workers[v].pc.entry.id != id
  }

  // An id that no line has, stored or still in a buffer.
  predicate FreshId(s: State, id: string) {
    Fresh(s.journal, id) && NotPending(s.workers, id)
  }

  function Record(worker: Worker, write: Write, position: nat): Worker {
    match write
    case Commit => worker
    case Decide(_) => worker.(decisionAt := Some(position))
    case Conclude(_) => worker.(outcomeAt := Some(position))
  }

  // Build and write under the lock. The line is stored or not, or stays in the
  // buffer; the call reports success only for a stored line, and may report
  // failure for one.
  function StepWrite(p: Primitives, s: State, w: nat, choice: Choice): State
    requires w < |s.workers| && s.workers[w].pc.Building?
  {
    var worker := s.workers[w];
    var pc := worker.pc;
    var body := BodyFor(s, w, pc.write, pc.count);
    if body.None? then s
    else if choice.Append? then
      if (choice.reported && !choice.stored) || !FreshId(s, choice.id) then s
      else
        var lost := worker.lostOutcome || (pc.write.Conclude? && !choice.reported);
        var next := worker.(
          pc := Releasing(pc.key, pc.write, choice.stored, choice.reported, |s.journal|), lostOutcome := lost);
        if !choice.stored then Put(s, w, next)
        else
          var entry := Entry(body.value, pc.key, pc.previous, choice.id, choice.time, w, pc.count, false);
          Put(s, w, Record(next, pc.write, |s.journal|)).(journal := s.journal + [entry])
    else if choice.Buffer? && FreshId(s, choice.id) then
      var entry := Entry(body.value, pc.key, pc.previous, choice.id, choice.time, w, pc.count, true);
      Put(s, w, worker.(pc := Closing(pc.write, entry, false), lostOutcome := worker.lostOutcome || pc.write.Conclude?))
      .(lock := None)
    else s
  }

  // Closing the file writes what is left in its buffer, without the lock and
  // wherever the file ends by then, or fails and loses it. The append has
  // failed either way.
  function StepClose(s: State, w: nat, choice: Choice): State
    requires w < |s.workers| && s.workers[w].pc.Closing?
  {
    var worker := s.workers[w];
    var pc := worker.pc;
    var over := if pc.aborted then Ended(Aborted) else AfterWrite(pc.write, false, 0, pc.entry.key);
    if choice.Fail? then Move(s, w, over)
    else
      Put(s, w, Record(worker, pc.write, |s.journal|).(pc := over)).(journal := s.journal + [pc.entry])
  }

  function AfterWrite(write: Write, reported: bool, index: nat, key: Key): Pc {
    match write
    case Decide(allowed) =>
      if !reported then Ended(DecisionNotRecorded) else if allowed then Calling(key) else Ended(ActionDenied)
    case Conclude(effect) => Ended(if reported then Completed(effect) else EvidenceIncomplete(effect))
    case Commit => if reported then SavingWitness(index) else Ended(CheckpointFailed)
  }

  // The locked append: open and acquire, read tail and count, build and write,
  // release; and the close after a line stayed in the buffer.
  function StepAppend(p: Primitives, s: State, w: nat, choice: Choice): State
    requires w < |s.workers|
  {
    var worker := s.workers[w];
    match worker.pc
    case Waiting(key, write) =>
      if choice.Fail? then
        Put(s, w, worker.(pc := AfterWrite(write, false, 0, key), lostOutcome := worker.lostOutcome || write.Conclude?))
      else if s.lock.None? then Move(s, w, Reading(key, write)).(lock := Some(w))
      else s
    case Reading(key, write) =>
      if choice.Fail? then
        Put(s, w, worker.(pc := Releasing(key, write, false, false, 0),
                          lostOutcome := worker.lostOutcome || write.Conclude?))
      else Move(s, w, Building(key, write, TailHash(p, s.journal), |s.journal|))
    case Building(_, _, _, _) => StepWrite(p, s, w, choice)
    case Releasing(key, write, stored, reported, index) =>
      Move(s, w, AfterWrite(write, reported, index, key)).(lock := None)
    case Closing(_, _, _) => StepClose(s, w, choice)
    case _ => s
  }

  // The target is called once. An interrupt leaves no outcome event; so does a
  // failure to describe what the target did (an exception whose text fails).
  function StepCall(s: State, w: nat, choice: Choice): State
    requires w < |s.workers|
  {
    var worker := s.workers[w];
    match worker.pc
    case Calling(key) => Put(s, w, worker.(pc := InCall(key), runs := worker.runs + 1))
    case InCall(key) =>
      if choice.Finish? then
        Put(s, w, worker.(pc := Waiting(key, Conclude(choice.effect)), effect := Some(choice.effect)))
      else if choice.Interrupt? then Move(s, w, Ended(Interrupted))
      else s
    case SavingWitness(index) =>
      if choice.Fail? || choice.Tear? then Move(s, w, Ended(CheckpointFailed))
      else
        Move(s, w, Ended(if choice.Unsynced? then CheckpointFailed else Checkpointed))
        .(witnesses := s.witnesses + {index})
    case _ => s
  }

  function Bury(worker: Worker, process: nat): Worker {
    if worker.process == process && !worker.pc.Ended? then worker.(pc := Ended(Died)) else worker
  }

  // A dead process loses its workers, its trackers and its file lock.
  function StepDie(s: State, process: nat): State {
    s.(workers := seq(|s.workers|, i requires 0 <= i < |s.workers| => Bury(s.workers[i], process)),
       lock := if s.lock.Some? && s.lock.value < |s.workers| && s.workers[s.lock.value].process == process
               then None else s.lock,
       done := (set n | n in s.done && n.process != process),
       dead := s.dead + {process})
  }

  // An aborted worker gives up the file lock on its way out, and still closes
  // the file with what is in its buffer.
  function StepAbort(s: State, w: nat): State
    requires w < |s.workers|
  {
    var pc := s.workers[w].pc;
    if pc.Ended? then s
    else if pc.Closing? then Move(s, w, pc.(aborted := true))
    else Move(s, w, Ended(Aborted)).(lock := if s.lock == Some(w) then None else s.lock)
  }

  function StepTick(p: Primitives, s: State, w: nat, choice: Choice): State
    requires w < |s.workers|
  {
    match s.workers[w].pc
    case Begin => StepNotify(s, w, choice)
    case Notifying => StepNotify(s, w, choice)
    case Marking => StepNotify(s, w, choice)
    case Canonicalizing => StepNotify(s, w, choice)
    case Approving(_) => StepApprove(s, w, choice)
    case Waiting(_, _) => StepAppend(p, s, w, choice)
    case Reading(_, _) => StepAppend(p, s, w, choice)
    case Building(_, _, _, _) => StepAppend(p, s, w, choice)
    case Releasing(_, _, _, _, _) => StepAppend(p, s, w, choice)
    case Closing(_, _, _) => StepAppend(p, s, w, choice)
    case Calling(_) => StepCall(s, w, choice)
    case InCall(_) => StepCall(s, w, choice)
    case SavingWitness(_) => StepCall(s, w, choice)
    case Ended(_) => s
    case _ => StepIdentity(s, w, choice)
  }

  function Step(p: Primitives, s: State, a: Action): State {
    match a
    case Spawn(process, task) =>
      if process in s.dead then s
      else s.(workers := s.workers + [Worker(process, task, Begin, 0, None, None, None, false)])
    case Tick(w, choice) => if w < |s.workers| then StepTick(p, s, w, choice) else s
    case Abort(w) => if w < |s.workers| then StepAbort(s, w) else s
    case Die(process) => StepDie(s, process)
  }

  // The state after a whole run from the empty journal.
  function Run(p: Primitives, actions: seq<Action>): State {
    if |actions| == 0 then INITIAL
    else Step(p, Run(p, actions[..|actions| - 1]), actions[|actions| - 1])
  }

  lemma RunOneMore(p: Primitives, history: seq<Action>, a: Action)
    ensures Run(p, history + [a]) == Step(p, Run(p, history), a)
  {
    hide Step;
    assert (history + [a])[..|history|] == history;
  }
}
