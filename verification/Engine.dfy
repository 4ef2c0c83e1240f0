// The guard's own code, run in one process with nothing interleaved inside a
// call: each method performs its effects on the journal file, the evidence
// home, the tracker and the target, and is a run of the step system, so
// everything proved about runs holds of it.
module Engine {
  import opened Wrappers
  import opened Json
  import JsonText
  import JsonTextLaws
  import opened Evidence
  import opened EventText
  import opened FileJournal
  import opened Protocol
  import opened EndToEnd
  import V = Verification
  import Chain
  import TailReader
  import Audit
  import opened Observer
  import opened Identity
  import C = Canonical
  import PrivacyLaws
  import Preparation

  // The guarded callable: calls counts how often it was invoked.
  class Target {
    var calls: nat

    constructor ()
      ensures calls == 0
    {
      calls := 0;
    }

    method Invoke()
      modifies this
      ensures calls == old(calls) + 1
    {
      calls := calls + 1;
    }
  }

  // What one append meets: the event id and time drawn for it, whether signing
  // works, and what the file system does.
  datatype AppendIo = AppendIo(id: string, time: string, signs: bool, io: Io)

  // No other process stores a line before the file is closed.
  predicate Alone(a: AppendIo) {
    a.io.FlushFails? ==> a.io.others == []
  }

  // The line is still in the buffer when the lock is released.
  predicate Buffers(a: AppendIo) {
    a.signs && a.io.FlushFails?
  }

  predicate Stored(a: AppendIo) {
    a.signs && (a.io == SyncFails || a.io == Works || (a.io.FlushFails? && a.io.closes))
  }

  predicate Reported(a: AppendIo) {
    a.signs && a.io == Works
  }

  // Everything one guarded call meets on its way; effect is None for an interrupt.
  datatype Environment = Environment(
    observerFails: bool, canonicalizes: bool, identity: IdentityIo, approval: Approval,
    decision: AppendIo, effect: Option<Effect>, outcome: AppendIo)

  lemma EventsOneMore(p: Primitives, journal: seq<Entry>, entry: Entry)
    ensures Events(p, journal + [entry]) == Events(p, journal) + [Render(p, entry)]
  {
    hide Render;
  }

  // The floats of the call's retention list and metadata are the host's.
  ghost predicate LegibleCall(h: JsonText.Numbers, call: Call) {
    JsonTextLaws.FloatsReadBack(h, call.retention) && (call.metadata.Some? ==> JsonTextLaws.FloatsReadBack(h, call.metadata.value))
  }

  ghost predicate LegibleBody(h: JsonText.Numbers, body: Body) {
    body.DecisionBody? ==> LegibleCall(h, body.call)
  }

  lemma RenderedIsHoldable(p: Primitives, codec: Codec, entry: Entry)
    requires LegibleBody(codec.numbers, entry.body)
    ensures Holdable(codec, Render(p, entry))
  {
    hide PayloadOf;
    RenderedIsSealed(p, entry);
    PayloadIsLegible(p, codec.numbers, entry);
  }

  lemma PayloadIsLegible(p: Primitives, h: JsonText.Numbers, entry: Entry)
    requires LegibleBody(h, entry.body)
    ensures Legible(h, PayloadOf(p, entry))
  {
    hide BodyFields;
    BodyIsLegible(h, entry.body, entry.previous);
  }

  lemma BodyIsLegible(h: JsonText.Numbers, body: Body, previous: Option<string>)
    requires LegibleBody(h, body)
    ensures Legible(h, BodyFields(body, previous))
  {
    hide DecisionFields, OutcomeFields;
    match body
    case DecisionBody(call, allowed) => DecisionIsLegible(h, call, allowed);
    case OutcomeBody(call, decisionId, effect) => OutcomeIsLegible(h, decisionId, effect);
    case CheckpointBody(_) =>
  }

  lemma DecisionIsLegible(h: JsonText.Numbers, call: Call, allowed: bool)
    requires LegibleCall(h, call)
    ensures Legible(h, DecisionFields(call, allowed))
  {
  }

  lemma OutcomeIsLegible(h: JsonText.Numbers, decisionId: string, effect: Effect)
    ensures Legible(h, OutcomeFields(decisionId, effect))
  {
  }

  lemma RenderedIsSealed(p: Primitives, entry: Entry)
    ensures StoredHash(Render(p, entry)) == Some(HashOf(p, entry))
  {
    hide PayloadOf;
  }

  // Who wrote an event, and when its line was stored, is not part of it.
  lemma AuthorIsNotRendered(p: Primitives, entry: Entry, w: nat, seen: nat, late: bool)
    ensures Render(p, entry.(author := w, seen := seen, late := late)) == Render(p, entry)
  {
    hide BodyFields;
  }

  lemma PreviousIsTail(p: Primitives, journal: seq<Entry>)
    ensures PreviousOf(Events(p, journal), |journal|) == TailHash(p, journal)
  {
    hide Render, HashOf;
    if |journal| > 0 {
      RenderedIsSealed(p, journal[|journal| - 1]);
    }
  }

  // What the step system's readers see is what the readers of the file see:
  // the hash of the last event and the number of events.
  lemma FileReadersSeeTheRun(p: Primitives, codec: Codec, journal: seq<Entry>)
    requires LineSafe(codec)
    requires forall i :: 0 <= i < |journal| ==> LegibleBody(codec.numbers, journal[i].body)
    ensures var data := FileBytes(codec, Events(p, journal));
            && HashOfTail(codec, TailReader.TailLine(data)) == Ok(TailHash(p, journal))
            && TailReader.CountNonBlank(TailReader.Lines(data)) == |journal|
            && ParseLines(codec, TailReader.Lines(data)) == Chain.Objects(Events(p, journal))
  {
    hide LineSafe, TailReader.TailLine, TailReader.Lines, ParseLines, Render, HashOf, FileBytes, HashOfTail;
    var events := Events(p, journal);
    forall i | 0 <= i < |events|
      ensures Holdable(codec, events[i])
    {
      RenderedIsHoldable(p, codec, journal[i]);
    }
    SealedIsLegible(codec, events);
    FileHoldsEvents(codec, events);
    PreviousIsTail(p, journal);
    if |journal| > 0 {
      RenderedIsSealed(p, journal[|journal| - 1]);
    }
    HashOfLastEvent(codec, events);
  }

  // The event an append builds from what it read.
  function EntryOf(p: Primitives, s: State, w: nat, key: Key, body: Body, a: AppendIo): Entry {
    Entry(body, key, TailHash(p, s.journal), a.id, a.time, w, |s.journal|, Buffers(a))
  }

  // The state after the steps of a locked append that got the lock.
  function Appended(p: Primitives, s: State, w: nat, key: Key, write: Write, body: Body, a: AppendIo): State
    requires w < |s.workers|
  {
    var worker := s.workers[w];
    var recorded := if Stored(a) then Record(worker, write, |s.journal|) else worker;
    s.(journal := if Stored(a) then s.journal + [EntryOf(p, s, w, key, body, a)] else s.journal,
       workers := s.workers[w := recorded.(
         pc := AfterWrite(write, Reported(a), |s.journal|, key),
         lostOutcome := worker.lostOutcome || (write.Conclude? && !Reported(a)))])
  }

  lemma AcquireAndRead(p: Primitives, s: State, w: nat, key: Key, write: Write)
    requires w < |s.workers| && s.workers[w].pc == Waiting(key, write) && s.lock.None?
    ensures var s1 := StepTick(p, s, w, Go);
            && |s1.workers| == |s.workers|
            && StepTick(p, s1, w, Go) ==
                 s.(lock := Some(w), workers := s.workers[w := s.workers[w].(
                      pc := Building(key, write, TailHash(p, s.journal), |s.journal|))])
  {
    hide StepNotify, StepIdentity, StepApprove, StepCall, TailHash, StepWrite;
  }

  // What the environment decides at the last two steps of an append.
  function WriteChoice(a: AppendIo): Choice {
    if Buffers(a) then Buffer(a.id, a.time) else Append(a.id, a.time, Stored(a), Reported(a))
  }

  function CloseChoice(a: AppendIo): Choice {
    if Buffers(a) && !a.io.closes then Fail else Go
  }

  lemma WriteAndRelease(p: Primitives, s: State, w: nat, key: Key, write: Write, body: Body, a: AppendIo)
    requires w < |s.workers| && s.workers[w].pc == Building(key, write, TailHash(p, s.journal), |s.journal|)
    requires s.lock == Some(w) && BodyFor(s, w, write, |s.journal|) == Some(body) && FreshId(s, a.id)
    ensures var s1 := StepTick(p, s, w, WriteChoice(a));
            && |s1.workers| == |s.workers|
            && StepTick(p, s1, w, CloseChoice(a)) == Appended(p, s.(lock := None), w, key, write, body, a)
  {
    hide StepTick, TailHash, BodyFor, FreshId, AfterWrite, Appended;
    if Buffers(a) {
      BufferAndClose(p, s, w, key, write, body, a);
    } else {
      StoreAndRelease(p, s, w, key, write, body, a);
    }
  }

  lemma StoreAndRelease(p: Primitives, s: State, w: nat, key: Key, write: Write, body: Body, a: AppendIo)
    requires w < |s.workers| && s.workers[w].pc == Building(key, write, TailHash(p, s.journal), |s.journal|)
    requires s.lock == Some(w) && BodyFor(s, w, write, |s.journal|) == Some(body) && FreshId(s, a.id) && !Buffers(a)
    ensures var s1 := StepTick(p, s, w, Append(a.id, a.time, Stored(a), Reported(a)));
            && |s1.workers| == |s.workers|
            && StepTick(p, s1, w, Go) == Appended(p, s.(lock := None), w, key, write, body, a)
  {
    hide StepNotify, StepIdentity, StepApprove, StepCall, StepClose, TailHash, BodyFor, FreshId, AfterWrite;
  }

  lemma BufferAndClose(p: Primitives, s: State, w: nat, key: Key, write: Write, body: Body, a: AppendIo)
    requires w < |s.workers| && s.workers[w].pc == Building(key, write, TailHash(p, s.journal), |s.journal|)
    requires s.lock == Some(w) && BodyFor(s, w, write, |s.journal|) == Some(body) && FreshId(s, a.id) && Buffers(a)
    ensures var s1 := StepTick(p, s, w, Buffer(a.id, a.time));
            && |s1.workers| == |s.workers|
            && StepTick(p, s1, w, if a.io.closes then Go else Fail) == Appended(p, s.(lock := None), w, key, write, body, a)
  {
    hide StepNotify, StepIdentity, StepApprove, StepCall, TailHash, BodyFor, FreshId;
  }

  // A locked append that nothing interrupts is four steps.
  lemma AppendSteps(p: Primitives, s: State, w: nat, key: Key, write: Write, body: Body, a: AppendIo)
    requires w < |s.workers| && s.workers[w].pc == Waiting(key, write) && s.lock.None?
    requires BodyFor(s, w, write, |s.journal|) == Some(body) && FreshId(s, a.id)
    ensures var s1 := StepTick(p, s, w, Go);
            var s2 := StepTick(p, s1, w, Go);
            var s3 := StepTick(p, s2, w, WriteChoice(a));
            && |s1.workers| == |s2.workers| == |s3.workers| == |s.workers|
            && StepTick(p, s3, w, CloseChoice(a)) == Appended(p, s, w, key, write, body, a)
  {
    hide StepTick, TailHash, Fresh, AfterWrite, WriteChoice, CloseChoice, Stored, Reported, Buffers;
    AcquireAndRead(p, s, w, key, write);
    var s2 := StepTick(p, StepTick(p, s, w, Go), w, Go);
    StillNotPending(s, w, s2, a.id);
    WriteAndRelease(p, s2, w, key, write, body, a);
    assert s2.workers[w := s.workers[w]] == s.workers;
    assert Appended(p, s2.(lock := None), w, key, write, body, a) == Appended(p, s, w, key, write, body, a) by {
      assert s2.(lock := None).workers[w := Appended(p, s, w, key, write, body, a).workers[w]] ==
             s.workers[w := Appended(p, s, w, key, write, body, a).workers[w]];
    }
  }

  // An id stays fresh while nothing is stored and nothing comes into a buffer.
  lemma StillNotPending(s: State, w: nat, t: State, id: string)
    requires NotPending(s.workers, id) && w < |t.workers| && !t.workers[w].pc.Closing?
    requires forall v :: 0 <= v < |t.workers| && v != w ==> v < |s.workers| && t.workers[v] == s.workers[v]
    ensures NotPending(t.workers, id)
  {
  }

  class Guard {
    const p: Primitives
    const process: nat
    const tracker: OnceTracker
    const home: EvidenceHome
    const journal: Journal
    var savedWitness: V.WitnessFile
    ghost var history: seq<Action>
    ghost var state: State

    // The objects hold the state of a run in which no append is under way.
    ghost predicate Valid()
      reads this, tracker, home, journal
    {
      && journal.Valid()
      && state == Run(p, history) && state.lock.None? && process !in state.dead
      && journal.events == Events(p, state.journal)
      && home.Contents() == state.home
      && (forall o: nat, h :: (o, h) in tracker.done <==> Notice(process, o, h) in state.done)
    }

    constructor (p: Primitives, codec: Codec, process: nat)
      requires LineSafe(codec)
      ensures Valid() && fresh(tracker) && fresh(home) && fresh(journal)
      ensures journal.events == [] && this.p == p && Settled(state.journal)
    {
      this.p := p;
      this.process := process;
      tracker := new OnceTracker();
      home := new EvidenceHome();
      journal := new Journal(codec);
      savedWitness := V.NoAccess;
      history := [];
      state := INITIAL;
    }

    // One step of the run, taken beside the real effects.
    ghost method Advance(w: nat, choice: Choice)
      requires state == Run(p, history) && w < |state.workers|
      modifies this`history, this`state
      ensures state == Run(p, history) && history == old(history) + [Tick(w, choice)]
      ensures state == StepTick(p, old(state), w, choice)
    {
      hide StepTick, Run;
      RunOneMore(p, history, Tick(w, choice));
      history := history + [Tick(w, choice)];
      state := Step(p, state, Tick(w, choice));
    }

    ghost method Begin(task: Task) returns (w: nat)
      requires state == Run(p, history) && process !in state.dead
      modifies this`history, this`state
      ensures state == Run(p, history) && history == old(history) + [Spawn(process, task)]
      ensures w == |old(state).workers|
      ensures state == old(state).(workers := old(state).workers
                         + [Worker(process, task, Pc.Begin, 0, None, None, None, false)])
    {
      hide Run;
      RunOneMore(p, history, Spawn(process, task));
      w := |state.workers|;
      history := history + [Spawn(process, task)];
      state := Step(p, state, Spawn(process, task));
    }

    ghost method FollowAppend(w: nat, key: Key, write: Write, body: Body, a: AppendIo)
      requires state == Run(p, history) && w < |state.workers|
      requires state.workers[w].pc == Waiting(key, write) && state.lock.None?
      requires BodyFor(state, w, write, |state.journal|) == Some(body) && FreshId(state, a.id)
      modifies this`history, this`state
      ensures state == Run(p, history) && old(history) <= history
      ensures state == AfterAppend(p, old(state), w, key, write, body, a)
    {
      hide StepTick, Run, Fresh, BodyFor, AfterWrite, TailHash, Appended;
      if a.io == OpenFails {
        OpenStep(p, state, w, key, write);
        Advance(w, Fail);
      } else {
        AppendSteps(p, state, w, key, write, body, a);
        Advance(w, Go);
        Advance(w, Go);
        Advance(w, WriteChoice(a));
        Advance(w, CloseChoice(a));
      }
    }

    // The locked append of a decision or an outcome.
    method AppendEntry(ghost w: nat, key: Key, ghost write: Write, body: Body, a: AppendIo) returns (ok: bool)
      requires Valid() && w < |state.workers| && state.workers[w].pc == Waiting(key, write)
      requires BodyFor(state, w, write, |state.journal|) == Some(body)
      requires !body.CheckpointBody? && FreshId(state, a.id) && Alone(a) && LegibleBody(journal.codec.numbers, body)
      modifies this`history, this`state, journal
      ensures Valid() && old(history) <= history
      ensures state == AfterAppend(p, old(state), w, key, write, body, a)
      ensures ok <==> Reported(a)
    {
      hide StepTick, Run, Fresh, BodyFor, Render, HashOf, AfterWrite, PreviousOf, Holdable, LegibleBody;
      var build := (previous: Option<string>) =>
        if a.signs then Ok(Render(p, Entry(body, key, previous, a.id, a.time, 0, 0, false))) else Err(SigningFailed);
      forall previous | build(previous).Ok?
        ensures Holdable(journal.codec, build(previous).value)
      {
        RenderedIsHoldable(p, journal.codec, Entry(body, key, previous, a.id, a.time, 0, 0, false));
      }
      AuthorIsNotRendered(p, Entry(body, key, TailHash(p, state.journal), a.id, a.time, 0, 0, false), w,
                          |state.journal|, Buffers(a));
      PreviousIsTail(p, state.journal);
      EventsOneMore(p, state.journal, EntryOf(p, state, w, key, body, a));
      var r := journal.AppendEvent(build, a.io);
      ok := r.Ok?;
      FollowAppend(w, key, write, body, a);
    }

    // Step 2 of a guarded call: tell the observer, once.
    method Notify(ghost w: nat, call: Call, fails: bool) returns (ok: bool)
      requires Valid() && w < |state.workers| && state.workers[w].process == process
      requires state.workers[w].task == Guarded(call) && state.workers[w].pc == Pc.Begin
      modifies this`history, this`state, tracker
      ensures Valid() && old(history) <= history
      ensures state.journal == old(state).journal && state.home == old(state).home
      ensures state.workers == old(state).workers[w := old(state).workers[w].(
                                 pc := if ok then Canonicalizing else Ended(ObserverFailed))]
      ensures var asked := call.observer.Some? && (call.observer.value, call.contract.contractHash) !in old(tracker.done);
              && (ok <==> !(asked && fails))
              && tracker.done == old(tracker.done)
                                 + (if asked && ok then {(call.observer.value, call.contract.contractHash)} else {})
              && state.told == old(state).told
                               + (if asked && ok then {Notice(process, call.observer.value, call.contract.contractHash)} else {})
    {
      hide Run, StepTick;
      assert state.told + {} == state.told;
      var called: bool;
      called, ok := tracker.NotifyOnce(call.observer, call.contract.contractHash, fails);
      FollowNotice(w, call, fails);
    }

    ghost method FollowNotice(w: nat, call: Call, fails: bool)
      requires state == Run(p, history) && w < |state.workers|
      requires state.workers[w].task == Guarded(call) && state.workers[w].pc == Pc.Begin
      modifies this`history, this`state
      ensures state == Run(p, history) && old(history) <= history
      ensures state == Notified(old(state), w, call, fails)
    {
      hide Run, StepTick;
      NotifySteps(p, state, w, call);
      Advance(w, Go);
      if state.workers[w].pc == Notifying {
        if fails {
          Advance(w, Fail);
        } else {
          Advance(w, Go);
          Advance(w, Go);
        }
      }
    }

    // Step 4: load or create the signing identity.
    method LoadIdentity(ghost w: nat, io: IdentityIo) returns (key: Option<Key>)
      requires Valid() && w < |state.workers| && state.workers[w].pc == LoadingKey
      modifies this`history, this`state, home
      ensures Valid() && old(history) <= history
      ensures state == AfterIdentitySteps(old(state), w, AfterLoad(old(state).home, io))
      ensures key == AfterLoad(old(state).home, io).1
    {
      hide Run, StepTick, AfterIdentity;
      key := home.LoadOrCreate(io);
      FollowIdentity(w, io);
    }

    ghost method FollowIdentity(w: nat, io: IdentityIo)
      requires state == Run(p, history) && w < |state.workers| && state.workers[w].pc == LoadingKey
      modifies this`history, this`state
      ensures state == Run(p, history) && old(history) <= history
      ensures state == AfterIdentitySteps(old(state), w, AfterLoad(old(state).home, io))
    {
      hide Run, StepTick, AfterIdentity, Created, Published;
      LoadSteps(p, state, w);
      match state.home.privateKey
      case Absent =>
        Advance(w, Go);
        FollowCreation(w, io);
      case Damaged => Advance(w, Go);
      case Holds(key) =>
        if !io.loads {
          Advance(w, Fail);
        } else {
          var write := state.home.publicKey.Absent?;
          Advance(w, Go);
          FollowPublication(w, key, write, io);
        }
    }

    ghost method FollowCreation(w: nat, io: IdentityIo)
      requires state == Run(p, history) && w < |state.workers| && state.workers[w].pc == Generating
      modifies this`history, this`state
      ensures state == Run(p, history) && old(history) <= history
      ensures state == AfterIdentitySteps(old(state), w, Created(old(state).home, io))
    {
      hide Run, StepTick, AfterIdentity, Published;
      if !io.generates {
        GenerateSteps(p, state, w, io.newKey);
        Advance(w, Fail);
      } else {
        GenerateSteps(p, state, w, io.newKey);
        Advance(w, PickKey(io.newKey));
        WritePrivateSteps(p, state, w, io.newKey, io.privateFile);
        Advance(w, ChoiceOf(io.privateFile));
        if io.privateFile.Fine? {
          FollowPublication(w, io.newKey, true, io);
        }
      }
    }

    ghost method FollowPublication(w: nat, key: Key, write: bool, io: IdentityIo)
      requires state == Run(p, history) && w < |state.workers|
      requires state.workers[w].pc == if write then WritingPublic(key) else Registering(key)
      modifies this`history, this`state
      ensures state == Run(p, history) && old(history) <= history
      ensures state == AfterIdentitySteps(old(state), w, Published(old(state).home, key, write, io))
    {
      hide Run, StepTick, AfterIdentity, Registered;
      if write {
        WritePublicSteps(p, state, w, key, io.publicFile);
        Advance(w, ChoiceOf(io.publicFile));
      }
      if !write || io.publicFile.Fine? {
        RegisterSteps(p, state, w, key, io.registration);
        Advance(w, if key in state.home.trusted then Go else ChoiceOf(io.registration));
      }
    }

    // Step 5: the approval. The mode "never" allows without asking anyone; an
    // invalid answer or a failing provider is an error.
    method EvaluateApproval(ghost w: nat, key: Key, call: Call, approval: Approval) returns (allowed: Option<bool>)
      requires Valid() && w < |state.workers| && state.workers[w].pc == Approving(key)
      requires state.workers[w].task == Guarded(call)
      modifies this`history, this`state
      ensures Valid() && old(history) <= history
      ensures state == Move(old(state), w, AfterApproval(key, allowed))
      ensures allowed == if call.contract.approvalMode == "never" || approval.Allow? then Some(true)
                         else if approval.Deny? then Some(false) else None
    {
      hide Run, StepTick;
      ApprovalStep(p, state, w, key, call, approval);
      Advance(w, Verdict(approval));
      if call.contract.approvalMode == "never" {
        return Some(true);
      }
      match approval
      case Allow => return Some(true);
      case Deny => return Some(false);
      case Invalid => return None;
      case ProviderError => return None;
    }

    // Step 6: the decision event, before anything runs.
    method RecordDecision(ghost w: nat, key: Key, call: Call, allowed: bool, a: AppendIo) returns (r: Result<Key, Ending>)
      requires Valid() && w < |state.workers| && FreshId(state, a.id) && Alone(a)
      requires LegibleCall(journal.codec.numbers, call)
      requires state.workers[w] == Worker(process, Guarded(call), Waiting(key, Decide(allowed)), 0, None, None, None, false)
      modifies this`history, this`state, journal
      ensures Valid() && old(history) <= history
      ensures |state.workers| == |old(state).workers| && state.workers[..w] == old(state).workers[..w]
      ensures Prepared(old(state).journal, state, w, process, call, a.id, r)
    {
      hide Run, Fresh, Valid, Prepared, AfterAppend;
      DecisionIsRecorded(p, state, w, process, key, call, allowed, a);
      var recorded := AppendEntry(w, key, Decide(allowed), DecisionBody(call, allowed), a);
      if !recorded {
        return Err(DecisionNotRecorded);
      }
      if !allowed {
        return Err(ActionDenied);
      }
      return Ok(key);
    }

    // Everything before the target runs: observer, canonicalization, identity,
    // approval, and the decision event.
    method PrepareExecution(call: Call, env: Environment) returns (ghost w: nat, r: Result<Key, Ending>)
      requires Valid() && FreshId(state, env.decision.id) && Alone(env.decision)
      requires LegibleCall(journal.codec.numbers, call)
      modifies this`history, this`state, tracker, home, journal
      ensures Valid() && old(history) <= history && w == |old(state).workers|
      ensures |state.workers| == w + 1 && state.workers[..w] == old(state).workers
      ensures Prepared(old(state).journal, state, w, process, call, env.decision.id, r)
      ensures !env.canonicalizes ==> r in {Err(ObserverFailed), Err(CanonicalizationFailed)}
    {
      hide Run, StepTick, Fresh, AfterWrite, Valid, AfterLoad;
      w := BeginCall(Guarded(call));
      var told := Notify(w, call, env.observerFails);
      if !told {
        return w, Err(ObserverFailed);
      }
      Canonicalize(w, env.canonicalizes);
      if !env.canonicalizes {
        return w, Err(CanonicalizationFailed);
      }
      r := Authorize(w, call, env);
    }

    // Steps 4 to 6: the identity, the approval, and the decision event.
    method Authorize(ghost w: nat, call: Call, env: Environment) returns (r: Result<Key, Ending>)
      requires Valid() && w < |state.workers| && FreshId(state, env.decision.id) && Alone(env.decision)
      requires LegibleCall(journal.codec.numbers, call)
      requires state.workers[w] == Worker(process, Guarded(call), LoadingKey, 0, None, None, None, false)
      modifies this`history, this`state, home, journal
      ensures Valid() && old(history) <= history
      ensures |state.workers| == |old(state).workers| && state.workers[..w] == old(state).workers[..w]
      ensures Prepared(old(state).journal, state, w, process, call, env.decision.id, r)
    {
      hide Run, StepTick, Fresh, AfterWrite, Valid, AfterLoad;
      var key := LoadIdentity(w, env.identity);
      if key.None? {
        return Err(IdentityFailed);
      }
      var allowed := EvaluateApproval(w, key.value, call, env.approval);
      if allowed.None? {
        return Err(ApprovalFailed);
      }
      r := RecordDecision(w, key.value, call, allowed.value, env.decision);
    }

    // Call the target, once. An interrupt is no outcome.
    method Invoke(ghost w: nat, key: Key, target: Target, effect: Option<Effect>)
      requires Valid() && w < |state.workers| && state.workers[w].pc == Calling(key)
      modifies this`history, this`state, target
      ensures Valid() && old(history) <= history && target.calls == old(target.calls) + 1
      ensures state == Called(old(state), w, key, effect)
    {
      hide Run, StepTick;
      CallSteps(p, state, w, key, effect);
      Advance(w, Go);
      target.Invoke();
      Advance(w, if effect.Some? then Finish(effect.value) else Interrupt);
    }

    // The outcome event, or the error that says the evidence is incomplete.
    method RecordOutcome(ghost w: nat, key: Key, call: Call, decisionId: string, effect: Effect, a: AppendIo)
      returns (r: Ending)
      requires Valid() && w < |state.workers| && FreshId(state, a.id) && Alone(a)
      requires state.workers[w].pc == Waiting(key, Conclude(effect))
      requires BodyFor(state, w, Conclude(effect), |state.journal|) == Some(OutcomeBody(call, decisionId, effect))
      modifies this`history, this`state, journal
      ensures Valid() && old(history) <= history
      ensures state == AfterAppend(p, old(state), w, key, Conclude(effect), OutcomeBody(call, decisionId, effect), a)
      ensures r == if Reported(a) then Completed(effect) else EvidenceIncomplete(effect)
    {
      hide Run, Fresh, Valid, AfterAppend, BodyFor;
      var recorded := AppendEntry(w, key, Conclude(effect), OutcomeBody(call, decisionId, effect), a);
      r := if recorded then Completed(effect) else EvidenceIncomplete(effect);
    }

    // One guarded call from beginning to end. It is the last worker of a run,
    // and its ending says what was called and what was recorded.
    method Execute(call: Call, target: Target, env: Environment) returns (ghost w: nat, r: Ending)
      requires Valid() && FreshId(state, env.decision.id) && FreshId(state, env.outcome.id)
      requires env.decision.id != env.outcome.id && LegibleCall(journal.codec.numbers, call)
      requires Alone(env.decision) && Alone(env.outcome)
      modifies this`history, this`state, tracker, home, journal, target
      ensures Valid() && old(history) <= history && w == |old(state).workers|
      ensures |state.workers| == w + 1 && state.workers[..w] == old(state).workers
      ensures Executed(old(state).journal, state, w, process, call, env, r)
      ensures Settled(old(state).journal) ==> Settled(state.journal)
      ensures target.calls == old(target.calls) + state.workers[w].runs
      ensures !env.canonicalizes ==> r in {ObserverFailed, CanonicalizationFailed}
    {
      hide Run, Fresh, Valid, AfterAppend, BodyFor, Called, Executed;
      ghost var before := state.journal;
      var prepared: Result<Key, Ending>;
      w, prepared := PrepareExecution(call, env);
      if prepared.Err? {
        NothingExecuted(before, state, w, process, call, env, prepared.error);
        ExecutedStaysSettled(before, state, w, process, call, env, prepared.error);
        return w, prepared.error;
      }
      var key := prepared.value;
      ghost var ready := state;
      Invoke(w, key, target, env.effect);
      CallIsExecuted(p, before, ready, w, process, key, call, env);
      if env.effect.None? {
        ExecutedStaysSettled(before, state, w, process, call, env, Interrupted);
        return w, Interrupted;
      }
      r := RecordOutcome(w, key, call, env.decision.id, env.effect.value, env.outcome);
      ExecutedStaysSettled(before, state, w, process, call, env, r);
    }

    // The whole wrapper, from host values: the call that is recorded describes
    // the arguments, and the outcome what the target did. Arguments that cannot
    // be canonicalized end the call before anything is recorded.
    method Protect(contract: Contract, observer: Option<nat>, metadata: Option<Value>, policy: C.Policy, heap: C.Heap,
                   args: C.Value, hash: Preparation.Hash, target: Target, did: Preparation.HostOutcome, env: Environment)
      returns (ghost w: nat, r: Ending, call: Call, effect: Option<Effect>)
      requires Valid() && FreshId(state, env.decision.id) && FreshId(state, env.outcome.id)
      requires env.decision.id != env.outcome.id && Alone(env.decision) && Alone(env.outcome)
      requires metadata.Some? ==> JsonTextLaws.FloatsReadBack(journal.codec.numbers, metadata.value)
      modifies this`history, this`state, tracker, home, journal, target
      ensures Valid() && old(history) <= history && w == |old(state).workers|
      ensures |state.workers| == w + 1 && state.workers[..w] == old(state).workers
      ensures Settled(old(state).journal) ==> Settled(state.journal)
      ensures target.calls == old(target.calls) + state.workers[w].runs
      ensures if PrivacyLaws.RecordInput(policy, heap, args, hash).Refused? then
                r in {ObserverFailed, CanonicalizationFailed} && state.journal == old(state).journal
              else
                && call.contract == contract && call.observer == observer && call.metadata == metadata
                && Preparation.DescribesCall(policy, heap, args, hash, call)
                && Preparation.DescribesOutcome(policy, heap, C.Canonicalize(policy, heap, args).collected, hash, did, effect)
                && Executed(old(state).journal, state, w, process, call, env.(canonicalizes := true, effect := effect), r)
    {
      hide Run, Fresh, Valid, Executed, C.Canonicalize, Preparation.DescribesCall, Preparation.DescribesOutcome, Settled;
      var described, remembered := Preparation.DescribeCall(policy, heap, args, hash, contract, observer, metadata);
      if described.Err? {
        call, effect := Call(contract, observer, "", JArr([]), "", metadata), None;
        w, r := Execute(call, target, env.(canonicalizes := false));
        NothingWritten(old(state).journal, state, w, process, call, env.(canonicalizes := false), r);
        return;
      }
      call := described.value;
      effect := Preparation.DescribeOutcome(policy, heap, remembered, hash, did);
      Preparation.RetentionIsLegible(journal.codec.numbers, call);
      w, r := Execute(call, target, env.(canonicalizes := true, effect := effect));
    }

    // The locked append of a checkpoint: its count and head are read under the lock.
    method AppendCommit(ghost w: nat, key: Key, a: AppendIo) returns (r: Result<Event, JournalError>)
      requires Valid() && w < |state.workers| && state.workers[w].pc == Waiting(key, Commit)
      requires FreshId(state, a.id) && Alone(a)
      modifies this`history, this`state, journal
      ensures Valid() && old(history) <= history
      ensures state == AfterAppend(p, old(state), w, key, Commit, CheckpointBody(|old(state).journal|), a)
      ensures r.Ok? <==> Reported(a)
      ensures r.Ok? ==>
        r.value == Render(p, EntryOf(p, old(state), w, key, CheckpointBody(|old(state).journal|), a))
    {
      hide StepTick, Run, Fresh, Render, HashOf, AfterWrite, PreviousOf, Holdable;
      var build := (count: nat, previous: Option<string>) =>
        if a.signs then Ok(Render(p, Entry(CheckpointBody(count), key, previous, a.id, a.time, 0, 0, false)))
        else Err(SigningFailed);
      forall count, previous | build(count, previous).Ok?
        ensures Holdable(journal.codec, build(count, previous).value)
      {
        RenderedIsHoldable(p, journal.codec, Entry(CheckpointBody(count), key, previous, a.id, a.time, 0, 0, false));
      }
      ghost var body := CheckpointBody(|state.journal|);
      AuthorIsNotRendered(p, Entry(body, key, TailHash(p, state.journal), a.id, a.time, 0, 0, false), w,
                          |state.journal|, Buffers(a));
      PreviousIsTail(p, state.journal);
      EventsOneMore(p, state.journal, EntryOf(p, state, w, key, body, a));
      r := journal.AppendCheckpoint(build, a.io);
      FollowAppend(w, key, Commit, body, a);
    }

    // A checkpoint of the journal and its witness: the signed event commits to
    // everything before it, and a copy of it overwrites the witness file.
    method CheckpointJournal(identity: IdentityIo, a: AppendIo, io: WitnessIo) returns (ghost w: nat, r: Ending)
      requires Valid() && FreshId(state, a.id) && Alone(a)
      modifies this`history, this`state, this`savedWitness, home, journal
      ensures Valid() && old(history) <= history && w == |old(state).workers|
      ensures |state.workers| == w + 1 && state.workers[..w] == old(state).workers
      ensures Settled(old(state).journal) ==> Settled(state.journal)
      ensures if r == IdentityFailed then
                state.workers[w].pc == Ended(r) && state.journal == old(state).journal && savedWitness == old(savedWitness)
              else
                && Committed(old(state).journal, state, w, a, io, r)
                && |journal.events| >= |old(state).journal| + (if Reported(a) then 1 else 0)
                && savedWitness == if Reported(a) then WitnessAfter(old(savedWitness), journal.events[|old(state).journal|], io)
                                   else old(savedWitness)
    {
      hide Run, StepTick, Fresh, Valid, AfterLoad, AfterAppend, Committed;
      w := BeginTask(Checkpointing);
      var key := LoadIdentity(w, identity);
      if key.None? {
        return w, IdentityFailed;
      }
      r := CommitAndSave(w, key.value, a, io);
      CommittedStaysSettled(old(state).journal, state, w, a, io, r);
    }

    method CommitAndSave(ghost w: nat, key: Key, a: AppendIo, io: WitnessIo) returns (r: Ending)
      requires Valid() && w < |state.workers| && state.workers[w].pc == Waiting(key, Commit)
      requires FreshId(state, a.id) && Alone(a)
      modifies this`history, this`state, this`savedWitness, journal
      ensures Valid() && old(history) <= history && r != IdentityFailed
      ensures |state.workers| == |old(state).workers| && state.workers[..w] == old(state).workers[..w]
      ensures Committed(old(state).journal, state, w, a, io, r)
      ensures |journal.events| >= |old(state).journal| + if Reported(a) then 1 else 0
      ensures savedWitness == if Reported(a) then WitnessAfter(old(savedWitness), journal.events[|old(state).journal|], io)
                              else old(savedWitness)
    {
      hide Run, StepTick, Fresh, Valid, AfterAppend, OneMore, Render, WitnessAfter, TailHash;
      ghost var before := state.journal;
      CommitIsRecorded(p, state, w, key, a);
      var event := AppendCommit(w, key, a);
      if event.Err? {
        EventCount(before);
        return CheckpointFailed;
      }
      WriteWitness(w, |before|, event.value, io);
      LastEvent(before);
      r := if io == Saved then Checkpointed else CheckpointFailed;
    }

    lemma EventCount(before: seq<Entry>)
      requires Valid() && |state.journal| >= |before|
      ensures |journal.events| >= |before|
    {
      hide Run, Render;
    }

    // Overwrite the witness file with the checkpoint event. The file is emptied
    // when it is opened.
    method WriteWitness(ghost w: nat, ghost index: nat, event: Event, io: WitnessIo)
      requires Valid() && w < |state.workers| && state.workers[w].pc == SavingWitness(index)
      modifies this`history, this`state, this`savedWitness
      ensures Valid() && old(history) <= history
      ensures state == AfterWitness(old(state), w, index, io)
      ensures savedWitness == WitnessAfter(old(savedWitness), event, io)
    {
      hide Run, StepTick;
      WitnessStep(p, state, w, index, io);
      Advance(w, WitnessChoice(io));
      if io == NotOpened {
        return;
      }
      savedWitness := V.EmptyFile;
      if io == LeftEmpty {
        return;
      }
      savedWitness := if io == LeftCut then V.Garbage else V.Stored(event);
    }

    lemma LastEvent(before: seq<Entry>)
      requires Valid() && |state.journal| == |before| + 1
      ensures |journal.events| == |before| + 1
      ensures journal.events[|before|] == Render(p, state.journal[|before|])
    {
      hide Run, Render;
    }

    // Replace the signing key; what could be read of the outgoing key stays trusted.
    method Rotate(io: IdentityIo) returns (ghost w: nat, r: Ending)
      requires Valid()
      modifies this`history, this`state, home
      ensures Valid() && old(history) <= history && w == |old(state).workers|
      ensures |state.workers| == w + 1 && state.workers[..w] == old(state).workers && state.workers[w].pc == Ended(r)
      ensures state.journal == old(state).journal && state.home == AfterRotation(old(state).home, io).0
      ensures var key := AfterRotation(old(state).home, io).1;
              r == if key.Some? then Rotated(key.value) else IdentityFailed
    {
      hide Run, StepTick;
      w := BeginTask(Rotating);
      var key := home.RotateKey(io);
      FollowRotation(w, io);
      r := if key.Some? then Rotated(key.value) else IdentityFailed;
    }

    ghost method FollowRotation(w: nat, io: IdentityIo)
      requires state == Run(p, history) && w < |state.workers| && state.workers[w].pc == RegisteringOldPublic
      modifies this`history, this`state
      ensures state == Run(p, history) && old(history) <= history
      ensures state == AfterIdentitySteps(old(state), w, AfterRotation(old(state).home, io))
    {
      hide Run, StepTick, AfterIdentity, Created;
      RotateSteps(p, state, w, io);
      Advance(w, ChoiceOf(io.oldPublic));
      Advance(w, ChoiceOf(io.oldPrivate));
      FollowCreation(w, io);
    }

    // A checkpoint or a rotation begins.
    ghost method BeginTask(task: Task) returns (w: nat)
      requires Valid() && !task.Guarded?
      modifies this`history, this`state
      ensures Valid() && old(history) <= history && w == |old(state).workers|
      ensures state == old(state).(workers := old(state).workers
                         + [Worker(process, task, if task == Checkpointing then LoadingKey else RegisteringOldPublic,
                                   0, None, None, None, false)])
    {
      hide Run, StepTick;
      w := BeginCall(task);
      BeginStep(p, state, w);
      Advance(w, Go);
      assert state.workers[..w] == old(state).workers;
    }

    // Between the operations of this guard other processes may do anything a run
    // allows: append to the file, replace keys, start, fail and die. They leave
    // the lock free, and this process and its tracker alone.
    method OthersAct(ghost actions: seq<Action>, data: TailReader.Bytes, files: Home)
      requires Valid()
      requires var s := Run(p, history + actions);
               && s.lock.None? && process !in s.dead && files == s.home
               && (forall o: nat, h :: Notice(process, o, h) in s.done <==> Notice(process, o, h) in state.done)
               && Sealed(journal.codec, Events(p, s.journal)) && data == FileBytes(journal.codec, Events(p, s.journal))
      modifies this`history, this`state, home, journal
      ensures Valid() && history == old(history) + actions
      ensures journal.data == data && home.Contents() == files
    {
      hide Run, Render, LineSafe, FileBytes, Sealed;
      history := history + actions;
      state := Run(p, history);
      journal.data := data;
      journal.events := Events(p, state.journal);
      home.privateKey, home.publicKey := files.privateKey, files.publicKey;
      home.trusted, home.broken := files.trusted, files.broken;
    }

    // After any sequence of these operations, whatever others did in between,
    // the verifier reports on the file on disk, with every key list that includes
    // the trusted set, a broken link for each line stored behind lines that its
    // writer had not read, and nothing else; and the events audit cleanly.
    lemma FileVerifiesAndAudits(keys: seq<Key>)
      requires Valid() && Documented(p) && (IdealDigest(p) || Settled(state.journal))
      requires forall key :: key in home.trusted ==> key in keys
      ensures var lines := ParseLines(journal.codec, TailReader.Lines(journal.data));
              V.Verify(p, V.ToKeyring(p, keys), V.Readable(lines), None)
              == V.Finished(V.Report(Settled(state.journal), |state.journal| - |Breaks(state.journal)|,
                                     Breaks(state.journal)),
                            journal.events)
      ensures Audit.AuditOf(p, journal.events).StructurallyValid()
    {
      hide Run, V.Verify, ParseLines, TailReader.Lines, V.ToKeyring, Audit.AuditOf, Settled, Breaks, Render, FileBytes,
           LineSafe;
      journal.FileVerifiesAsEvents(p, V.ToKeyring(p, keys), None);
      EveryRunVerifiesAndAudits(p, history, keys);
    }

    ghost method BeginCall(task: Task) returns (w: nat)
      requires Valid()
      modifies this`history, this`state
      ensures Valid() && old(history) <= history && w == |old(state).workers|
      ensures state == old(state).(workers := old(state).workers
                         + [Worker(process, task, Pc.Begin, 0, None, None, None, false)])
    {
      w := Begin(task);
    }

    // Step 3, seen from the run: the traversal of the arguments works or fails.
    ghost method Canonicalize(w: nat, works: bool)
      requires Valid() && w < |state.workers| && state.workers[w].pc == Canonicalizing
      modifies this`history, this`state
      ensures Valid() && old(history) <= history
      ensures state == Move(old(state), w, if works then LoadingKey else Ended(CanonicalizationFailed))
    {
      hide Run, StepTick;
      CanonicalizeStep(p, state, w);
      Advance(w, if works then Go else Fail);
    }
  }

  // The state after the preparation of a call: the decision is recorded and
  // the target may run, or the call is over and the target never ran.
  ghost predicate Prepared(before: seq<Entry>, s: State, w: nat, process: nat, call: Call, id: string,
                           r: Result<Key, Ending>)
    requires w < |s.workers|
  {
    match r
    case Ok(key) =>
      && s.workers[w] == Worker(process, Guarded(call), Calling(key), 0, None, Some(|before|), None, false)
      && OneMore(before, s.journal, DecisionBody(call, true), id, w)
    case Err(ending) =>
      && s.workers[w].pc == Ended(ending) && s.workers[w].runs == 0
      && (match ending
          case ActionDenied => OneMore(before, s.journal, DecisionBody(call, false), id, w)
          case DecisionNotRecorded =>
            s.journal == before || exists allowed :: OneMore(before, s.journal, DecisionBody(call, allowed), id, w)
          case ObserverFailed => s.journal == before
          case CanonicalizationFailed => s.journal == before
          case IdentityFailed => s.journal == before
          case ApprovalFailed => s.journal == before
          case _ => false)
  }

  // The effect of an append on the state.
  function AfterAppend(p: Primitives, s: State, w: nat, key: Key, write: Write, body: Body, a: AppendIo): State
    requires w < |s.workers|
  {
    if a.io == OpenFails then
      Put(s, w, s.workers[w].(pc := AfterWrite(write, false, 0, key),
                              lostOutcome := s.workers[w].lostOutcome || write.Conclude?))
    else Appended(p, s, w, key, write, body, a)
  }

  // The effect of an identity operation on the state.
  function AfterIdentitySteps(s: State, w: nat, result: (Home, Option<Key>)): State
    requires w < |s.workers|
  {
    var pc := if result.1.Some? then AfterIdentity(s.workers[w].task, result.1.value) else Ended(IdentityFailed);
    s.(home := result.0, workers := s.workers[w := s.workers[w].(pc := pc)])
  }

  // The state after the target ended, or was interrupted.
  function Called(s: State, w: nat, key: Key, effect: Option<Effect>): State
    requires w < |s.workers|
  {
    var worker := s.workers[w];
    Put(s, w, worker.(runs := worker.runs + 1, effect := if effect.Some? then effect else worker.effect,
                      pc := if effect.Some? then Waiting(key, Conclude(effect.value)) else Ended(Interrupted)))
  }

  lemma CallSteps(p: Primitives, s: State, w: nat, key: Key, effect: Option<Effect>)
    requires w < |s.workers| && s.workers[w].pc == Calling(key)
    ensures var s1 := StepTick(p, s, w, Go);
            && |s1.workers| == |s.workers|
            && StepTick(p, s1, w, if effect.Some? then Finish(effect.value) else Interrupt) == Called(s, w, key, effect)
  {
    hide StepNotify, StepIdentity, StepApprove, StepAppend;
  }

  // What a whole call did: an unexecuted call recorded at most its decision; an
  // executed one recorded its decision before, and after it its outcome, which
  // is missing exactly when the evidence error says so.
  ghost predicate Executed(before: seq<Entry>, s: State, w: nat, process: nat, call: Call, env: Environment, r: Ending)
    requires w < |s.workers|
  {
    && s.workers[w].pc == Ended(r)
    && if s.workers[w].runs == 0 then Prepared(before, s, w, process, call, env.decision.id, Err(r))
       else
         && s.workers[w].runs == 1 && s.workers[w].effect == env.effect
         && exists decided :: AfterDecision(before, decided, s.journal, w, call, env, r)
  }

  ghost predicate AfterDecision(before: seq<Entry>, decided: seq<Entry>, after: seq<Entry>, w: nat, call: Call,
                                env: Environment, r: Ending)
  {
    && OneMore(before, decided, DecisionBody(call, true), env.decision.id, w)
    && match r
       case Interrupted => env.effect.None? && after == decided
       case Completed(effect) =>
         env.effect == Some(effect)
         && OneMore(decided, after, OutcomeBody(call, env.decision.id, effect), env.outcome.id, w)
       case EvidenceIncomplete(effect) =>
         env.effect == Some(effect) && !Reported(env.outcome)
         && (after == decided
             || OneMore(decided, after, OutcomeBody(call, env.decision.id, effect), env.outcome.id, w))
       case _ => false
  }

  lemma ExecutedStaysSettled(before: seq<Entry>, s: State, w: nat, process: nat, call: Call, env: Environment, r: Ending)
    requires w < |s.workers| && Executed(before, s, w, process, call, env, r)
    ensures Settled(before) ==> Settled(s.journal)
  {
    hide OneMore, Settled;
    if Settled(before) {
      if s.workers[w].runs == 0 {
        PreparedStaysSettled(before, s, w, process, call, env.decision.id, r);
      } else {
        var decided :| AfterDecision(before, decided, s.journal, w, call, env, r);
        OneMoreStaysSettled(before, decided, DecisionBody(call, true), env.decision.id, w);
        if s.journal != decided {
          OneMoreStaysSettled(decided, s.journal, OutcomeBody(call, env.decision.id, r.effect), env.outcome.id, w);
        }
      }
    }
  }

  lemma NothingWritten(before: seq<Entry>, s: State, w: nat, process: nat, call: Call, env: Environment, r: Ending)
    requires w < |s.workers| && Executed(before, s, w, process, call, env, r)
    requires r in {ObserverFailed, CanonicalizationFailed}
    ensures s.journal == before
  {
    hide OneMore;
  }

  lemma PreparedStaysSettled(before: seq<Entry>, s: State, w: nat, process: nat, call: Call, id: string, ending: Ending)
    requires w < |s.workers| && Prepared(before, s, w, process, call, id, Err(ending)) && Settled(before)
    ensures Settled(s.journal)
  {
    hide OneMore, Settled;
    if s.journal != before {
      var allowed :| OneMore(before, s.journal, DecisionBody(call, allowed), id, w);
      OneMoreStaysSettled(before, s.journal, DecisionBody(call, allowed), id, w);
    }
  }

  lemma NothingExecuted(before: seq<Entry>, s: State, w: nat, process: nat, call: Call, env: Environment, ending: Ending)
    requires w < |s.workers| && Prepared(before, s, w, process, call, env.decision.id, Err(ending))
    ensures Executed(before, s, w, process, call, env, ending) && s.workers[w].runs == 0
  {
    hide OneMore;
  }

  lemma CallIsExecuted(p: Primitives, before: seq<Entry>, s: State, w: nat, process: nat, key: Key, call: Call,
                       env: Environment)
    requires w < |s.workers| && Prepared(before, s, w, process, call, env.decision.id, Ok(key))
    requires Fresh(before, env.outcome.id) && env.decision.id != env.outcome.id
    ensures var t := Called(s, w, key, env.effect);
            && |t.workers| == |s.workers| && t.workers[..w] == s.workers[..w] && t.journal == s.journal
            && t.workers[w].runs == 1
            && (env.effect.None? ==> Executed(before, t, w, process, call, env, Interrupted))
            && (env.effect.Some? ==>
                  var effect := env.effect.value;
                  var body := OutcomeBody(call, env.decision.id, effect);
                  && t.workers[w].pc == Waiting(key, Conclude(effect))
                  && BodyFor(t, w, Conclude(effect), |t.journal|) == Some(body)
                  && Fresh(t.journal, env.outcome.id)
                  && var u := AfterAppend(p, t, w, key, Conclude(effect), body, env.outcome);
                     && |u.workers| == |s.workers| && u.workers[..w] == s.workers[..w] && u.workers[w].runs == 1
                     && Executed(before, u, w, process, call, env,
                                 if Reported(env.outcome) then Completed(effect) else EvidenceIncomplete(effect)))
  {
    hide TailHash;
    var t := Called(s, w, key, env.effect);
    if env.effect.None? {
      assert AfterDecision(before, s.journal, t.journal, w, call, env, Interrupted);
    } else {
      var effect := env.effect.value;
      var u := AfterAppend(p, t, w, key, Conclude(effect), OutcomeBody(call, env.decision.id, effect), env.outcome);
      var r := if Reported(env.outcome) then Completed(effect) else EvidenceIncomplete(effect);
      assert AfterDecision(before, s.journal, u.journal, w, call, env, r);
    }
  }

  lemma BeginStep(p: Primitives, s: State, w: nat)
    requires w < |s.workers| && s.workers[w].pc == Pc.Begin && !s.workers[w].task.Guarded?
    ensures StepTick(p, s, w, Go) ==
              Move(s, w, if s.workers[w].task == Checkpointing then LoadingKey else RegisteringOldPublic)
  {
    hide StepIdentity, StepApprove, StepCall, StepAppend;
  }

  // What happens to the witness file: it is not opened, is left empty or cut
  // short, holds everything but was not synced, or all is well.
  datatype WitnessIo = NotOpened | LeftEmpty | LeftCut | NotSynced | Saved

  // What a checkpoint left behind: on success and only then the witness was
  // saved; a reported checkpoint is the last event, and a complete witness of
  // it counts as saved even if the file was not synced.
  ghost predicate Committed(before: seq<Entry>, s: State, w: nat, a: AppendIo, io: WitnessIo, r: Ending)
    requires w < |s.workers|
  {
    && s.workers[w].pc == Ended(r) && r in {CheckpointFailed, Checkpointed}
    && (r == Checkpointed <==> Reported(a) && io == Saved)
    && (s.journal == before || OneMore(before, s.journal, CheckpointBody(|before|), a.id, w))
    && (Reported(a) ==>
          && OneMore(before, s.journal, CheckpointBody(|before|), a.id, w)
          && (io == Saved || io == NotSynced ==> |before| in s.witnesses))
  }

  lemma CommittedStaysSettled(before: seq<Entry>, s: State, w: nat, a: AppendIo, io: WitnessIo, r: Ending)
    requires w < |s.workers| && Committed(before, s, w, a, io, r)
    ensures Settled(before) ==> Settled(s.journal)
  {
    hide OneMore, Settled;
    if Settled(before) && s.journal != before {
      OneMoreStaysSettled(before, s.journal, CheckpointBody(|before|), a.id, w);
    }
  }

  function WitnessAfter(file: V.WitnessFile, event: Event, io: WitnessIo): V.WitnessFile {
    match io
    case NotOpened => file
    case LeftEmpty => V.EmptyFile
    case LeftCut => V.Garbage
    case NotSynced => V.Stored(event)
    case Saved => V.Stored(event)
  }

  function WitnessChoice(io: WitnessIo): Choice {
    match io
    case NotOpened => Fail
    case LeftEmpty => Tear
    case LeftCut => Tear
    case NotSynced => Unsynced
    case Saved => Go
  }

  function AfterWitness(s: State, w: nat, index: nat, io: WitnessIo): State
    requires w < |s.workers|
  {
    Move(s, w, Ended(if io == Saved then Checkpointed else CheckpointFailed))
    .(witnesses := if io == Saved || io == NotSynced then s.witnesses + {index} else s.witnesses)
  }

  lemma WitnessStep(p: Primitives, s: State, w: nat, index: nat, io: WitnessIo)
    requires w < |s.workers| && s.workers[w].pc == SavingWitness(index)
    ensures StepTick(p, s, w, WitnessChoice(io)) == AfterWitness(s, w, index, io)
  {
    hide StepNotify, StepIdentity, StepApprove, StepAppend;
  }

  // The two keys rotation registers before it generates a new one.
  lemma RotateSteps(p: Primitives, s: State, w: nat, io: IdentityIo)
    requires w < |s.workers| && s.workers[w].pc == RegisteringOldPublic
    ensures var s1 := StepTick(p, s, w, ChoiceOf(io.oldPublic));
            && |s1.workers| == |s.workers|
            && var s2 := StepTick(p, s1, w, ChoiceOf(io.oldPrivate));
               && |s2.workers| == |s.workers| && s2.workers[w].pc == Generating
               && AfterIdentitySteps(s2, w, Created(s2.home, io)) ==
                    AfterIdentitySteps(s, w, AfterRotation(s.home, io))
  {
    hide StepTick, AfterIdentity, Created, RegisterOld;
    var once := RegisterOld(s.home, s.home.publicKey, ChoiceOf(io.oldPublic));
    RegistersOld(s.home, s.home.publicKey, io.oldPublic);
    RegisterOldPublic(p, s, w, ChoiceOf(io.oldPublic));
    var s1 := Move(s, w, RegisteringOldPrivate).(home := once);
    RegisterOldPrivate(p, s1, w, ChoiceOf(io.oldPrivate));
    var s2 := Move(s, w, Generating).(home := RegisterOld(once, s.home.privateKey, ChoiceOf(io.oldPrivate)));
    assert StepTick(p, s1, w, ChoiceOf(io.oldPrivate)) == s2;
  }

  lemma RegisterOldPublic(p: Primitives, s: State, w: nat, choice: Choice)
    requires w < |s.workers| && s.workers[w].pc == RegisteringOldPublic
    ensures StepTick(p, s, w, choice) ==
              Move(s, w, RegisteringOldPrivate).(home := RegisterOld(s.home, s.home.publicKey, choice))
  {
    hide StepNotify, StepApprove, StepCall, StepAppend, RegisterOld;
  }

  lemma RegisterOldPrivate(p: Primitives, s: State, w: nat, choice: Choice)
    requires w < |s.workers| && s.workers[w].pc == RegisteringOldPrivate
    ensures StepTick(p, s, w, choice) ==
              Move(s, w, Generating).(home := RegisterOld(s.home, s.home.privateKey, choice))
  {
    hide StepNotify, StepApprove, StepCall, StepAppend, RegisterOld;
  }

  lemma CommitIsRecorded(p: Primitives, s: State, w: nat, key: Key, a: AppendIo)
    requires w < |s.workers| && s.workers[w].pc == Waiting(key, Commit)
    ensures var body := CheckpointBody(|s.journal|);
            var t := AfterAppend(p, s, w, key, Commit, body, a);
            && |t.workers| == |s.workers| && t.workers[..w] == s.workers[..w] && |t.journal| >= |s.journal|
            && (t.journal == s.journal || OneMore(s.journal, t.journal, body, a.id, w))
            && (Reported(a) ==>
                  && t.workers[w].pc == SavingWitness(|s.journal|) && |t.journal| == |s.journal| + 1
                  && OneMore(s.journal, t.journal, body, a.id, w)
                  && t.journal[|s.journal|] == EntryOf(p, s, w, key, body, a))
            && (!Reported(a) ==> t.workers[w].pc == Ended(CheckpointFailed))
  {
    hide TailHash;
  }

  function AfterApproval(key: Key, allowed: Option<bool>): Pc {
    if allowed.Some? then Waiting(key, Decide(allowed.value)) else Ended(ApprovalFailed)
  }

  lemma OneMoreStaysSettled(before: seq<Entry>, after: seq<Entry>, body: Body, id: string, w: nat)
    requires Settled(before) && OneMore(before, after, body, id, w)
    ensures Settled(after)
  {
    assert forall i :: 0 <= i < |before| ==> after[i] == after[..|before|][i];
  }

  // The journal grew by one event of this worker, which knew all before it.
  ghost predicate OneMore(before: seq<Entry>, after: seq<Entry>, body: Body, id: string, w: nat) {
    && |after| == |before| + 1 && after[..|before|] == before
    && after[|before|].body == body && after[|before|].id == id && after[|before|].author == w
    && after[|before|].seen == |before|
  }

  lemma DecisionIsRecorded(p: Primitives, s: State, w: nat, process: nat, key: Key, call: Call, allowed: bool, a: AppendIo)
    requires w < |s.workers|
    requires s.workers[w] == Worker(process, Guarded(call), Waiting(key, Decide(allowed)), 0, None, None, None, false)
    ensures BodyFor(s, w, Decide(allowed), |s.journal|) == Some(DecisionBody(call, allowed))
    ensures var t := AfterAppend(p, s, w, key, Decide(allowed), DecisionBody(call, allowed), a);
            && |t.workers| == |s.workers| && t.workers[..w] == s.workers[..w]
            && Prepared(s.journal, t, w, process, call, a.id,
                        if !Reported(a) then Err(DecisionNotRecorded) else if allowed then Ok(key) else Err(ActionDenied))
  {
    hide TailHash;
    var t := AfterAppend(p, s, w, key, Decide(allowed), DecisionBody(call, allowed), a);
    if a.io != OpenFails && Stored(a) {
      assert OneMore(s.journal, t.journal, DecisionBody(call, allowed), a.id, w);
    }
  }

  lemma CanonicalizeStep(p: Primitives, s: State, w: nat)
    requires w < |s.workers| && s.workers[w].pc == Canonicalizing
    ensures StepTick(p, s, w, Fail) == Move(s, w, Ended(CanonicalizationFailed))
    ensures StepTick(p, s, w, Go) == Move(s, w, LoadingKey)
  {
    hide StepIdentity, StepApprove, StepCall, StepAppend;
  }

  lemma ApprovalStep(p: Primitives, s: State, w: nat, key: Key, call: Call, approval: Approval)
    requires w < |s.workers| && s.workers[w].pc == Approving(key) && s.workers[w].task == Guarded(call)
    ensures StepTick(p, s, w, Verdict(approval)) ==
              Move(s, w, AfterApproval(key, if call.contract.approvalMode == "never" || approval.Allow? then Some(true)
                                            else if approval.Deny? then Some(false) else None))
  {
    hide StepNotify, StepIdentity, StepCall, StepAppend;
  }

  // The state after the observer was told, or did not have to be, or failed.
  function Notified(s: State, w: nat, call: Call, fails: bool): State
    requires w < |s.workers|
  {
    var notice := Notice(s.workers[w].process, if call.observer.Some? then call.observer.value else 0,
                         call.contract.contractHash);
    if call.observer.None? || notice in s.done then Move(s, w, Canonicalizing)
    else if fails then Move(s, w, Ended(ObserverFailed))
    else Move(s, w, Canonicalizing).(told := s.told + {notice}, done := s.done + {notice})
  }

  lemma NotifySteps(p: Primitives, s: State, w: nat, call: Call)
    requires w < |s.workers| && s.workers[w].task == Guarded(call) && s.workers[w].pc == Pc.Begin
    ensures var s1 := StepTick(p, s, w, Go);
            |s1.workers| == |s.workers| &&
            if s1.workers[w].pc != Notifying then s1 == Notified(s, w, call, false) == Notified(s, w, call, true)
            else
              && StepTick(p, s1, w, Fail) == Notified(s, w, call, true)
              && |StepTick(p, s1, w, Go).workers| == |s.workers|
              && StepTick(p, StepTick(p, s1, w, Go), w, Go) == Notified(s, w, call, false)
  {
    hide StepIdentity, StepApprove, StepCall, StepAppend;
  }

  lemma LoadSteps(p: Primitives, s: State, w: nat)
    requires w < |s.workers| && s.workers[w].pc == LoadingKey
    ensures StepTick(p, s, w, Fail) == Move(s, w, Ended(IdentityFailed))
    ensures StepTick(p, s, w, Go) ==
              Move(s, w, match s.home.privateKey
                         case Absent => Generating
                         case Damaged => Ended(IdentityFailed)
                         case Holds(key) => if s.home.publicKey.Absent? then WritingPublic(key) else Registering(key))
  {
    hide StepNotify, StepApprove, StepCall, StepAppend;
  }

  lemma GenerateSteps(p: Primitives, s: State, w: nat, key: Key)
    requires w < |s.workers| && s.workers[w].pc == Generating
    ensures StepTick(p, s, w, Fail) == Move(s, w, Ended(IdentityFailed))
    ensures StepTick(p, s, w, PickKey(key)) == Move(s, w, WritingPrivate(key))
  {
    hide StepNotify, StepApprove, StepCall, StepAppend;
  }

  lemma WritePrivateSteps(p: Primitives, s: State, w: nat, key: Key, io: FileIo)
    requires w < |s.workers| && s.workers[w].pc == WritingPrivate(key)
    ensures StepTick(p, s, w, ChoiceOf(io)) ==
              Move(s, w, if io.Fine? then WritingPublic(key) else Ended(IdentityFailed))
              .(home := s.home.(privateKey := Written(s.home.privateKey, key, io)))
  {
    hide StepNotify, StepApprove, StepCall, StepAppend;
  }

  lemma WritePublicSteps(p: Primitives, s: State, w: nat, key: Key, io: FileIo)
    requires w < |s.workers| && s.workers[w].pc == WritingPublic(key)
    ensures StepTick(p, s, w, ChoiceOf(io)) ==
              Move(s, w, if io.Fine? then Registering(key) else Ended(IdentityFailed))
              .(home := s.home.(publicKey := Written(s.home.publicKey, key, io)))
  {
    hide StepNotify, StepApprove, StepCall, StepAppend;
  }

  lemma RegisterSteps(p: Primitives, s: State, w: nat, key: Key, io: FileIo)
    requires w < |s.workers| && s.workers[w].pc == Registering(key)
    ensures StepTick(p, s, w, if key in s.home.trusted then Go else ChoiceOf(io)) ==
              AfterIdentitySteps(s, w, Registered(s.home, key, io))
  {
    hide StepNotify, StepApprove, StepCall, StepAppend, AfterIdentity;
  }

  lemma OpenStep(p: Primitives, s: State, w: nat, key: Key, write: Write)
    requires w < |s.workers| && s.workers[w].pc == Waiting(key, write)
    ensures StepTick(p, s, w, Fail) ==
              Put(s, w, s.workers[w].(pc := AfterWrite(write, false, 0, key),
                                      lostOutcome := s.workers[w].lostOutcome || write.Conclude?))
  {
    hide AfterWrite;
  }
}
