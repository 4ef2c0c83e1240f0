// Lines that reach the journal only when their file is closed, after the lock
// was released: what a run with such lines still guarantees, exactly when its
// journal verifies, and two runs in which it does not.
module LateLines {
  import opened Wrappers
  import opened Json
  import opened Evidence
  import opened Protocol
  import opened Safety
  import opened Verification
  import opened Chain
  import opened Tamper
  import opened EndToEnd
  import Audit

  // ----- the steps that matter -----

  // How many lines the writer had read of what it is about to store.
  function SeenBy(pc: Pc): nat {
    match pc
    case Building(_, _, _, count) => count
    case Closing(_, entry, _) => entry.seen
    case _ => 0
  }

  predicate StoresLine(p: Primitives, s: State, a: Action) {
    a.Tick? && a.worker < |s.workers| && |Step(p, s, a).journal| > |s.journal|
  }

  // The step stores a line behind lines that its writer has not read.
  predicate StoresBehind(p: Primitives, s: State, a: Action) {
    StoresLine(p, s, a) && SeenBy(s.workers[a.worker].pc) != |s.journal|
  }

  // The step stores what was left in the buffer of a file.
  predicate StoresLate(p: Primitives, s: State, a: Action) {
    StoresLine(p, s, a) && s.workers[a.worker].pc.Closing?
  }

  // One line at most is stored by a step, and it says how it came about.
  ghost predicate StoredAs(p: Primitives, s: State, a: Action) {
    var t := Step(p, s, a);
    if !StoresLine(p, s, a) then t.journal == s.journal
    else
      && |t.journal| == |s.journal| + 1 && t.journal[..|s.journal|] == s.journal
      && t.journal[|s.journal|].seen == SeenBy(s.workers[a.worker].pc)
      && (t.journal[|s.journal|].late <==> s.workers[a.worker].pc.Closing?)
  }

  lemma StepStores(p: Primitives, s: State, a: Action)
    requires Inv(p, s)
    ensures StoredAs(p, s, a)
  {
    hide Inv, StepNotify, StepIdentity, StepApprove, StepAppend, StepCall;
    if a.Tick? && a.worker < |s.workers| {
      Parts(p, s, a.worker);
      OnlyAppendsStore(s, a.worker, a.choice);
      AppendStores(p, s, a.worker, a.choice);
    }
  }

  lemma OnlyAppendsStore(s: State, w: nat, choice: Choice)
    requires w < |s.workers|
    ensures StepNotify(s, w, choice).journal == s.journal && StepIdentity(s, w, choice).journal == s.journal
    ensures StepApprove(s, w, choice).journal == s.journal && StepCall(s, w, choice).journal == s.journal
  {
    hide NoticeOf, AfterIdentity, Register, RegisterOld;
  }

  lemma AppendStores(p: Primitives, s: State, w: nat, choice: Choice)
    requires w < |s.workers| && WorkerOk(p, s, w)
    ensures var t := StepAppend(p, s, w, choice);
            t.journal == s.journal
            || exists e :: t.journal == s.journal + [e] && e.seen == SeenBy(s.workers[w].pc)
                           && (e.late <==> s.workers[w].pc.Closing?)
  {
    hide Fresh, NotPending, BodyFor, TailHash, AfterWrite, LinksOk, PointOk;
    var t := StepAppend(p, s, w, choice);
    if t.journal != s.journal {
      assert t.journal == s.journal + [t.journal[|s.journal|]];
    }
  }

  // ----- exactly when the journal verifies -----

  // Every line lies where its writer had read to exactly when no step of the
  // run stored a line behind lines its writer had not read.
  lemma {:induction false} SettledExactly(p: Primitives, actions: seq<Action>)
    ensures Settled(Run(p, actions).journal) <==>
            forall n :: 0 <= n < |actions| ==> !StoresBehind(p, Run(p, actions[..n]), actions[n])
  {
    hide Step, StoresBehind, Inv;
    if |actions| > 0 {
      var m := |actions| - 1;
      var before := actions[..m];
      SettledExactly(p, before);
      ReachableIsSafe(p, before);
      StepSettles(p, Run(p, before), actions[m]);
      assert forall n :: 0 <= n < m ==> before[..n] == actions[..n] && before[n] == actions[n];
    }
  }

  lemma StepSettles(p: Primitives, s: State, a: Action)
    requires Inv(p, s)
    ensures Settled(Step(p, s, a).journal) <==> Settled(s.journal) && !StoresBehind(p, s, a)
  {
    hide Step, Inv;
    StepStores(p, s, a);
    var journal := Step(p, s, a).journal;
    assert forall i :: 0 <= i < |s.journal| ==> s.journal[i] == journal[i];
  }

  // So the verifier accepts the journal of a run exactly when, between the
  // reading and the storing of any line, no other line was stored.
  lemma VerifiesExactly(p: Primitives, actions: seq<Action>, keys: seq<Key>)
    requires Documented(p) && IdealDigest(p)
    requires forall key :: key in Run(p, actions).home.trusted ==> key in keys
    ensures Accepts(p, ToKeyring(p, keys), Events(p, Run(p, actions).journal)) <==>
            forall n :: 0 <= n < |actions| ==> !StoresBehind(p, Run(p, actions[..n]), actions[n])
  {
    hide Run, Settled, StoresBehind, Verify, ToKeyring, Render, Breaks;
    SettledExactly(p, actions);
    EveryRunVerifiesAndAudits(p, actions, keys);
  }

  predicate HasLate(journal: seq<Entry>) {
    exists i :: 0 <= i < |journal| && journal[i].late
  }

  ghost predicate StoresSomeLate(p: Primitives, actions: seq<Action>) {
    exists n :: 0 <= n < |actions| && StoresLate(p, Run(p, actions[..n]), actions[n])
  }

  // Without late lines mutual exclusion does its work: the journal is settled.
  lemma NoLateLineSettles(p: Primitives, actions: seq<Action>)
    requires !StoresSomeLate(p, actions)
    ensures Settled(Run(p, actions).journal)
  {
    hide Run, StoresSomeLate, Inv, HashBefore, WorkerOk;
    var s := Run(p, actions);
    ReachableIsSafe(p, actions);
    LateLinesAreStoredLate(p, actions);
    forall i | 0 <= i < |s.journal|
      ensures s.journal[i].seen == i
    {
      EntryPart(p, s, i);
      LastOfLate(s.journal, s.journal[i].seen, i);
    }
  }

  lemma LastOfLate(journal: seq<Entry>, from: nat, to: nat)
    requires from <= to <= |journal| && OnlyLate(journal[..to], from)
    ensures from == to || HasLate(journal)
  {
    if from < to {
      assert journal[..to][from].late;
    }
  }

  // A line is marked late exactly because such a step stored it.
  lemma {:induction false} LateLinesAreStoredLate(p: Primitives, actions: seq<Action>)
    ensures HasLate(Run(p, actions).journal) <==> StoresSomeLate(p, actions)
  {
    hide Step, StoresLate, Inv;
    if |actions| > 0 {
      var before := actions[..|actions| - 1];
      LateLinesAreStoredLate(p, before);
      ReachableIsSafe(p, before);
      StepMarks(p, Run(p, before), actions[|actions| - 1]);
      LateStepSnoc(p, actions);
    }
  }

  lemma LateStepSnoc(p: Primitives, actions: seq<Action>)
    requires |actions| > 0
    ensures var m := |actions| - 1;
            StoresSomeLate(p, actions) <==>
            StoresSomeLate(p, actions[..m]) || StoresLate(p, Run(p, actions[..m]), actions[m])
  {
    hide Run, StoresLate;
    var m := |actions| - 1;
    var before := actions[..m];
    assert forall n :: 0 <= n < m ==> before[..n] == actions[..n] && before[n] == actions[n];
    if StoresSomeLate(p, before) {
      var n :| 0 <= n < m && StoresLate(p, Run(p, before[..n]), before[n]);
      assert StoresLate(p, Run(p, actions[..n]), actions[n]);
    }
    if StoresSomeLate(p, actions) {
      var n :| 0 <= n < |actions| && StoresLate(p, Run(p, actions[..n]), actions[n]);
      assert n == m || StoresLate(p, Run(p, before[..n]), before[n]);
    }
  }

  lemma StepMarks(p: Primitives, s: State, a: Action)
    requires Inv(p, s)
    ensures HasLate(Step(p, s, a).journal) <==> HasLate(s.journal) || StoresLate(p, s, a)
  {
    hide Step, Inv;
    StepStores(p, s, a);
    var journal := Step(p, s, a).journal;
    assert forall i :: 0 <= i < |s.journal| ==> s.journal[i] == journal[i];
  }

  // ----- what a line leads back to -----

  // A line with the line its writer found last, and so on to a first one.
  function Thread(journal: seq<Entry>, i: nat): (thread: seq<Entry>)
    requires i < |journal|
    ensures |thread| > 0 && thread[|thread| - 1] == journal[i]
    decreases i
  {
    var seen := journal[i].seen;
    if 0 < seen <= i then Thread(journal, seen - 1) + [journal[i]] else [journal[i]]
  }

  // In a settled journal that is everything up to the line.
  lemma {:induction false} SettledThread(journal: seq<Entry>, i: nat)
    requires Settled(journal) && i < |journal|
    ensures Thread(journal, i) == journal[..i + 1]
  {
    if i > 0 {
      SettledThread(journal, i - 1);
    }
  }

  // Whatever was stored late, each line's history is linked.
  lemma {:induction false} ThreadIsLinked(p: Primitives, s: State, i: nat)
    requires Inv(p, s) && i < |s.journal|
    ensures Linked(p, Events(p, Thread(s.journal, i)))
    decreases i
  {
    hide Inv, Linked, Render, HashBefore, LinkedAt;
    var e := s.journal[i];
    EntryPart(p, s, i);
    ReadBefore(p, s, i);
    if e.seen > 0 {
      ThreadIsLinked(p, s, e.seen - 1);
    }
    LinkFollows(p, s, i);
  }

  lemma LinkFollows(p: Primitives, s: State, i: nat)
    requires i < |s.journal|
    requires s.journal[i].seen <= i && s.journal[i].previous == HashBefore(p, s.journal, s.journal[i].seen)
    requires s.journal[i].seen > 0 ==> Linked(p, Events(p, Thread(s.journal, s.journal[i].seen - 1)))
    ensures Linked(p, Events(p, Thread(s.journal, i)))
  {
    hide Render, HashOf, LinkedAt, Linked;
    NothingIsLinked(p);
    var seen := s.journal[i].seen;
    LinkedOn(p, if seen == 0 then [] else Thread(s.journal, seen - 1), s.journal[i]);
    assert [] + [s.journal[i]] == [s.journal[i]];
  }

  lemma NothingIsLinked(p: Primitives)
    ensures Linked(p, Events(p, []))
  {
  }

  lemma LinkedOn(p: Primitives, before: seq<Entry>, e: Entry)
    requires Linked(p, Events(p, before))
    requires e.previous == if before == [] then None else Some(HashOf(p, before[|before| - 1]))
    ensures Linked(p, Events(p, before + [e]))
  {
    hide Render, HashOf, LinkedAt, Linked;
    var events := Events(p, before + [e]);
    assert events[..|events| - 1] == Events(p, before);
    LinksTo(p, before, e);
    LinkedSnoc(p, events);
  }

  lemma LinksTo(p: Primitives, before: seq<Entry>, e: Entry)
    requires e.previous == if before == [] then None else Some(HashOf(p, before[|before| - 1]))
    ensures LinkedAt(p, Events(p, before + [e]), |before|)
  {
    hide Render, PayloadOf, OwnFields, UnsignedPayload;
    RenderedFields(p, e);
    PayloadFieldsOf(p, e);
    if before != [] {
      RenderedFields(p, before[|before| - 1]);
    }
  }

  lemma LinkedSnoc(p: Primitives, events: seq<Event>)
    requires |events| > 0 && Linked(p, events[..|events| - 1]) && LinkedAt(p, events, |events| - 1)
    ensures Linked(p, events)
  {
    var before := events[..|events| - 1];
    forall i | 0 <= i < |before|
      ensures LinkedAt(p, events, i)
    {
      assert LinkedAt(p, before, i);
      assert PreviousOf(before, i) == PreviousOf(events, i) && before[i] == events[i];
    }
  }

  lemma {:induction false} ThreadIsOfJournal(journal: seq<Entry>, i: nat, k: nat) returns (j: nat)
    requires i < |journal| && k < |Thread(journal, i)|
    ensures j < |journal| && Thread(journal, i)[k] == journal[j]
    decreases i
  {
    var seen := journal[i].seen;
    if k == |Thread(journal, i)| - 1 {
      j := i;
    } else {
      j := ThreadIsOfJournal(journal, seen - 1, k);
    }
  }

  lemma ThreadIsChained(p: Primitives, s: State, keys: seq<Key>, i: nat)
    requires Documented(p) && Inv(p, s) && i < |s.journal|
    requires forall key :: key in s.home.trusted ==> key in keys
    ensures Chained(p, ToKeyring(p, keys), Events(p, Thread(s.journal, i)))
  {
    hide Inv, Linked, Render, EventOk, ToKeyring, Thread;
    var events := Events(p, Thread(s.journal, i));
    ThreadIsLinked(p, s, i);
    forall k | 0 <= k < |events|
      ensures EventOk(p, events[k], PreviousOf(events, k), ToKeyring(p, keys))
    {
      var j := ThreadIsOfJournal(s.journal, i, k);
      EntryInRing(p, s, keys, j);
      RenderedEventOk(p, s.journal[j], ToKeyring(p, keys));
      LinkNames(p, events, k, s.journal[j]);
    }
  }

  lemma LinkNames(p: Primitives, events: seq<Event>, k: nat, e: Entry)
    requires Linked(p, events) && k < |events| && events[k] == Render(p, e)
    ensures PreviousOf(events, k) == e.previous
  {
    hide Render, PayloadOf, UnsignedPayload;
    assert LinkedAt(p, events, k);
    RenderedFields(p, e);
    PayloadFieldsOf(p, e);
  }

  // Events of the journal in a linked order are what the last of them leads back to.
  lemma LinkedEventsAreThread(p: Primitives, s: State, events: seq<Event>) returns (i: nat)
    requires IdealDigest(p) && Inv(p, s) && Linked(p, events) && events != []
    requires forall e :: e in events ==> e in Events(p, s.journal)
    ensures i < |s.journal| && events == Events(p, Thread(s.journal, i))
  {
    hide Inv, Linked, Render, Thread;
    var n := |events| - 1;
    i := EntryOf(p, s.journal, events, n);
    var thread := Events(p, Thread(s.journal, i));
    ThreadIsLinked(p, s, i);
    SharedPayloadAnchors(p, events, thread, n, |thread| - 1);
    assert events[..n + 1] == events && thread[..n + 1] == thread;
    forall k | 0 <= k < |events|
      ensures events[k] == thread[k]
    {
      assert Payloads(events)[k] == Payloads(thread)[k];
      var a := EntryOf(p, s.journal, events, k);
      var b := ThreadIsOfJournal(s.journal, i, k);
      SamePayloadSameEntry(p, s, a, b);
    }
  }

  lemma EntryOf(p: Primitives, journal: seq<Entry>, events: seq<Event>, k: nat) returns (j: nat)
    requires k < |events| && forall e :: e in events ==> e in Events(p, journal)
    ensures j < |journal| && events[k] == Render(p, journal[j])
  {
    hide Render;
    assert events[k] in Events(p, journal);
    j :| 0 <= j < |journal| && Events(p, journal)[j] == events[k];
  }

  lemma SamePayloadSameEntry(p: Primitives, s: State, i: nat, j: nat)
    requires Inv(p, s) && i < |s.journal| && j < |s.journal|
    requires UnsignedPayload(Render(p, s.journal[i])) == UnsignedPayload(Render(p, s.journal[j]))
    ensures i == j
  {
    hide Inv, Render, PayloadOf, UnsignedPayload;
    RenderedFields(p, s.journal[i]);
    RenderedFields(p, s.journal[j]);
    PayloadFieldsOf(p, s.journal[i]);
    PayloadFieldsOf(p, s.journal[j]);
    SameIdSameEntry(p, s, i, j);
  }

  // ----- two runs that do not verify -----

  function Committer(process: nat, pc: Pc): Worker {
    Worker(process, Checkpointing, pc, 0, None, None, None, false)
  }

  // Two processes take checkpoints with the same key.
  function Two(key: Key, first: Pc, second: Pc, lock: Option<nat>, journal: seq<Entry>): State {
    State(journal, lock, [Committer(0, first), Committer(1, second)],
          Home(Holds(key), Holds(key), {key}, {}), {}, {}, {}, {})
  }

  function Buffered(key: Key): Entry {
    Entry(CheckpointBody(0), key, None, "a", "", 0, 0, true)
  }

  function Written(key: Key): Entry {
    Entry(CheckpointBody(0), key, None, "b", "", 1, 0, false)
  }

  lemma NothingRun(p: Primitives)
    ensures Run(p, []) == INITIAL
  {
  }

  lemma RunOn(p: Primitives, actions: seq<Action>, a: Action) returns (longer: seq<Action>)
    ensures longer == actions + [a] && Run(p, longer) == Step(p, Run(p, actions), a)
  {
    longer := actions + [a];
    RunOneMore(p, actions, a);
  }

  // The first process creates the key.
  lemma FirstLoads(p: Primitives, key: Key) returns (actions: seq<Action>)
    ensures Run(p, actions) == State([], None, [Committer(0, Waiting(key, Commit))],
                                     Home(Holds(key), Holds(key), {key}, {}), {}, {}, {}, {})
  {
    NothingRun(p);
    hide Run, StepAppend, StepCall, StepApprove;
    actions := RunOn(p, [], Spawn(0, Checkpointing));
    actions := RunOn(p, actions, Tick(0, Go));
    actions := RunOn(p, actions, Tick(0, Go));
    actions := RunOn(p, actions, Tick(0, PickKey(key)));
    assert Run(p, actions) ==
      State([], None, [Committer(0, WritingPrivate(key))], Home(Absent, Absent, {}, {}), {}, {}, {}, {});
    actions := RunOn(p, actions, Tick(0, Go));
    actions := RunOn(p, actions, Tick(0, Go));
    actions := RunOn(p, actions, Tick(0, Go));
  }

  lemma SecondLoads(p: Primitives, key: Key) returns (actions: seq<Action>)
    ensures Run(p, actions) == Two(key, Waiting(key, Commit), Waiting(key, Commit), None, [])
  {
    actions := FirstLoads(p, key);
    hide Run, StepAppend, StepCall, StepApprove;
    actions := RunOn(p, actions, Spawn(1, Checkpointing));
    actions := RunOn(p, actions, Tick(1, Go));
    actions := RunOn(p, actions, Tick(1, Go));
    actions := RunOn(p, actions, Tick(1, Go));
  }

  // The flush of the first fails; before its file is closed the second process
  // reads the journal.
  lemma BothHaveRead(p: Primitives, key: Key) returns (actions: seq<Action>)
    ensures Run(p, actions) ==
              Two(key, Closing(Commit, Buffered(key), false), Building(key, Commit, None, 0), Some(1), [])
  {
    actions := SecondLoads(p, key);
    hide Run, StepIdentity, StepNotify, StepCall, StepApprove;
    actions := RunOn(p, actions, Tick(0, Go));
    actions := RunOn(p, actions, Tick(0, Go));
    actions := RunOn(p, actions, Tick(0, Buffer("a", "")));
    assert Run(p, actions) == Two(key, Closing(Commit, Buffered(key), false), Waiting(key, Commit), None, []);
    actions := RunOn(p, actions, Tick(1, Go));
    actions := RunOn(p, actions, Tick(1, Go));
  }

  // The second process stores its line first, or the first closes its file
  // first: whichever comes second is stored behind a line its writer never read.
  lemma LateLinesBreakChains(p: Primitives, key: Key) returns (overtaken: seq<Action>, overtaking: seq<Action>)
    ensures Run(p, overtaken).journal == [Written(key), Buffered(key)]
    ensures Run(p, overtaking).journal == [Buffered(key), Written(key)]
    ensures Run(p, overtaken).home.trusted == Run(p, overtaking).home.trusted == {key}
  {
    var actions := BothHaveRead(p, key);
    hide Run, StepIdentity, StepNotify, StepCall, StepApprove;
    overtaken := RunOn(p, actions, Tick(1, Append("b", "", true, true)));
    assert Run(p, overtaken).journal == [Written(key)];
    assert Run(p, overtaken).workers[0].pc == Closing(Commit, Buffered(key), false);
    overtaken := RunOn(p, overtaken, Tick(0, Go));
    overtaking := RunOn(p, actions, Tick(0, Go));
    assert Run(p, overtaking) == Two(key, Ended(CheckpointFailed), Building(key, Commit, None, 0), Some(1), [Buffered(key)]);
    overtaking := RunOn(p, overtaking, Tick(1, Append("b", "", true, true)));
  }

  // Neither verifies: the second line is reported as a broken link.
  lemma LateLinesAreReported(p: Primitives, key: Key) returns (overtaken: seq<Action>, overtaking: seq<Action>)
    requires Documented(p) && IdealDigest(p)
    ensures Run(p, overtaken).journal == [Written(key), Buffered(key)]
    ensures Run(p, overtaking).journal == [Buffered(key), Written(key)]
    ensures forall actions :: actions in {overtaken, overtaking} ==>
              var events := Events(p, Run(p, actions).journal);
              Verify(p, ToKeyring(p, [key]), Readable(Objects(events)), None)
              == Finished(Report(false, 1, [Issue(2, ChainBreak)]), events)
  {
    overtaken, overtaking := LateLinesBreakChains(p, key);
    hide Run, Verify, ToKeyring, Render, Audit.AuditOf;
    EveryRunVerifiesAndAudits(p, overtaken, [key]);
    EveryRunVerifiesAndAudits(p, overtaking, [key]);
    SecondBreaks(Run(p, overtaken).journal);
    SecondBreaks(Run(p, overtaking).journal);
  }

  lemma SecondBreaks(journal: seq<Entry>)
    requires |journal| == 2 && journal[0].seen == journal[1].seen == 0
    ensures Breaks(journal) == [Issue(2, ChainBreak)] && !Settled(journal)
  {
    assert journal[..1][..0] == [];
    assert Breaks(journal[..1]) == [];
  }
}
