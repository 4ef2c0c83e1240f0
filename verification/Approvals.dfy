// Who lets a call through, over every run: the recorded decision is the answer
// that was given, each call is answered at most once, and no target runs without
// an allowing answer.
module Approvals {
  import opened Wrappers
  import opened Json
  import opened Evidence
  import opened Protocol
  import opened Safety
  import opened EndToEnd
  import Guarantees

  // The answer this step gives to the call of worker w: the mode "never" allows
  // without asking, otherwise the provider decides; an invalid answer and a
  // failing provider are none.
  function AnswerAt(s: State, a: Action, w: nat): Option<bool> {
    if !(a.Tick? && a.worker == w && w < |s.workers| && s.workers[w].pc.Approving?) then None
    else if s.workers[w].task.Guarded? && s.workers[w].task.call.contract.approvalMode == "never" then Some(true)
    else if a.choice == Verdict(Allow) then Some(true)
    else if a.choice == Verdict(Deny) then Some(false)
    else None
  }

  ghost predicate Answered(p: Primitives, actions: seq<Action>, w: nat, answer: bool) {
    exists n :: 0 <= n < |actions| && AnswerAt(Run(p, actions[..n]), actions[n], w) == Some(answer)
  }

  lemma AnsweredSnoc(p: Primitives, actions: seq<Action>, w: nat, answer: bool)
    requires |actions| > 0
    ensures var m := |actions| - 1;
            Answered(p, actions, w, answer) <==>
            Answered(p, actions[..m], w, answer) || AnswerAt(Run(p, actions[..m]), actions[m], w) == Some(answer)
  {
    hide Run, AnswerAt;
    var m := |actions| - 1;
    var before := actions[..m];
    assert forall n :: 0 <= n < m ==> before[..n] == actions[..n] && before[n] == actions[n];
    if Answered(p, before, w, answer) {
      var n :| 0 <= n < m && AnswerAt(Run(p, before[..n]), before[n], w) == Some(answer);
      assert AnswerAt(Run(p, actions[..n]), actions[n], w) == Some(answer);
    }
    if Answered(p, actions, w, answer) {
      var n :| 0 <= n < |actions| && AnswerAt(Run(p, actions[..n]), actions[n], w) == Some(answer);
      assert n == m || AnswerAt(Run(p, before[..n]), before[n], w) == Some(answer);
    }
  }

  // The points up to the approval.
  predicate Undecided(pc: Pc) {
    || pc.Begin? || pc.Notifying? || pc.Marking? || pc.Canonicalizing? || pc.Approving?
    || LoadingIdentity(pc)
  }

  // The decision a worker is about to record.
  function Intended(pc: Pc): Option<bool> {
    match pc
    case Waiting(_, Decide(allowed)) => Some(allowed)
    case Reading(_, Decide(allowed)) => Some(allowed)
    case Building(_, Decide(allowed), _, _) => Some(allowed)
    case Releasing(_, Decide(allowed), _, _, _) => Some(allowed)
    case Closing(Decide(allowed), _, _) => Some(allowed)
    case _ => None
  }

  // The decision of worker w is in the journal.
  predicate DecidedAs(s: State, w: nat, answer: bool)
    requires w < |s.workers|
  {
    && s.workers[w].decisionAt.Some? && s.workers[w].decisionAt.value < |s.journal|
    && s.journal[s.workers[w].decisionAt.value].body.DecisionBody?
    && s.journal[s.workers[w].decisionAt.value].body.allowed == answer
  }

  // What one step does: a worker leaves the points up to the approval for good,
  // for a decision only by an answer, and the decision it then records is it.
  ghost predicate Follows(s: State, t: State, a: Action, w: nat) {
    && w < |s.workers| && w < |t.workers|
    && (Undecided(t.workers[w].pc) ==> Undecided(s.workers[w].pc) && AnswerAt(s, a, w).None?)
    && (AnswerAt(s, a, w).Some? ==> Undecided(s.workers[w].pc))
    && (forall answer :: Intended(t.workers[w].pc) == Some(answer) ==>
          Intended(s.workers[w].pc) == Some(answer) || AnswerAt(s, a, w) == Some(answer))
    && (forall answer :: DecidedAs(t, w, answer) ==> DecidedAs(s, w, answer) || Intended(s.workers[w].pc) == Some(answer))
  }

  // The worker only goes on, or ends, and nothing of its own is recorded.
  predicate GoesOn(s: State, t: State, w: nat) {
    && w < |s.workers| && w < |t.workers| && s.journal <= t.journal
    && t.workers[w].decisionAt == s.workers[w].decisionAt
    && (s.workers[w].decisionAt.Some? ==> s.workers[w].decisionAt.value < |s.journal|)
    && (Undecided(t.workers[w].pc) ==> Undecided(s.workers[w].pc))
    && (Intended(t.workers[w].pc).Some? ==> Intended(t.workers[w].pc) == Intended(s.workers[w].pc))
  }

  lemma GoingOnFollows(s: State, t: State, a: Action, w: nat)
    requires GoesOn(s, t, w) && AnswerAt(s, a, w).None?
    ensures Follows(s, t, a, w)
  {
    hide Undecided, Intended;
  }

  lemma DecisionInJournal(p: Primitives, s: State, w: nat)
    requires w < |s.workers| && WorkerOk(p, s, w)
    ensures s.workers[w].decisionAt.Some? ==> s.workers[w].decisionAt.value < |s.journal|
  {
    hide PointOk, ReadOk;
  }

  // A step of another worker, the end of its process, or an abort.
  lemma OthersFollow(p: Primitives, s: State, a: Action, w: nat)
    requires w < |s.workers| && WorkerOk(p, s, w) && !(a.Tick? && a.worker == w)
    requires s.journal <= Step(p, s, a).journal
    ensures Follows(s, Step(p, s, a), a, w)
  {
    hide StepTick, WorkerOk, Follows;
    DecisionInJournal(p, s, w);
    if a.Tick? && a.worker < |s.workers| {
      TicksAreOwn(p, s, a.worker, a.choice, w);
    }
    GoingOnFollows(s, Step(p, s, a), a, w);
  }

  lemma TicksAreOwn(p: Primitives, s: State, v: nat, choice: Choice, w: nat)
    requires v < |s.workers| && w < |s.workers| && v != w
    ensures var t := StepTick(p, s, v, choice); w < |t.workers| && t.workers[w] == s.workers[w]
  {
    hide StepIdentity, Fresh, NotPending, BodyFor, TailHash, AfterWrite, NoticeOf;
    IdentityIsOwn(s, v, choice, w);
  }

  lemma IdentityIsOwn(s: State, v: nat, choice: Choice, w: nat)
    requires v < |s.workers| && w < |s.workers| && v != w
    ensures var t := StepIdentity(s, v, choice); w < |t.workers| && t.workers[w] == s.workers[w]
  {
    hide AfterIdentity, Register, RegisterOld;
  }

  lemma PreludeFollows(p: Primitives, s: State, w: nat, choice: Choice)
    requires w < |s.workers| && WorkerOk(p, s, w)
    requires var pc := s.workers[w].pc; Undecided(pc) && !pc.Approving?
    ensures Follows(s, StepTick(p, s, w, choice), Tick(w, choice), w)
  {
    hide StepTick, StepIdentity, StepNotify, WorkerOk, Follows;
    DecisionInJournal(p, s, w);
    if LoadingIdentity(s.workers[w].pc) {
      LoadingGoesOn(p, s, w, choice);
    } else {
      BeginningGoesOn(p, s, w, choice);
    }
    GoingOnFollows(s, StepTick(p, s, w, choice), Tick(w, choice), w);
  }

  lemma LoadingGoesOn(p: Primitives, s: State, w: nat, choice: Choice)
    requires w < |s.workers| && LoadingIdentity(s.workers[w].pc)
    requires s.workers[w].decisionAt.Some? ==> s.workers[w].decisionAt.value < |s.journal|
    ensures GoesOn(s, StepTick(p, s, w, choice), w)
  {
    hide StepApprove, StepAppend, StepCall, StepIdentity, StepNotify;
    IdentityMoves(s, w, choice);
  }

  lemma BeginningGoesOn(p: Primitives, s: State, w: nat, choice: Choice)
    requires w < |s.workers|
    requires var pc := s.workers[w].pc; pc.Begin? || pc.Notifying? || pc.Marking? || pc.Canonicalizing?
    requires s.workers[w].decisionAt.Some? ==> s.workers[w].decisionAt.value < |s.journal|
    ensures GoesOn(s, StepTick(p, s, w, choice), w)
  {
    hide StepApprove, StepAppend, StepCall, StepIdentity, NoticeOf;
  }

  lemma ApproveFollows(p: Primitives, s: State, w: nat, choice: Choice)
    requires w < |s.workers| && WorkerOk(p, s, w) && s.workers[w].pc.Approving?
    ensures Follows(s, StepTick(p, s, w, choice), Tick(w, choice), w)
  {
    hide StepNotify, StepIdentity, StepAppend, StepCall, PointOk, LinksOk;
  }

  lemma CallFollows(p: Primitives, s: State, w: nat, choice: Choice)
    requires w < |s.workers| && WorkerOk(p, s, w)
    requires var pc := s.workers[w].pc; pc.Calling? || pc.InCall? || pc.SavingWitness? || pc.Ended?
    ensures Follows(s, StepTick(p, s, w, choice), Tick(w, choice), w)
  {
    hide StepNotify, StepIdentity, StepAppend, StepApprove, WorkerOk, Follows;
    DecisionInJournal(p, s, w);
    GoingOnFollows(s, StepTick(p, s, w, choice), Tick(w, choice), w);
  }

  lemma QueueFollows(p: Primitives, s: State, w: nat, choice: Choice)
    requires w < |s.workers| && WorkerOk(p, s, w)
    requires var pc := s.workers[w].pc; pc.Waiting? || pc.Reading? || pc.Releasing?
    ensures Follows(s, StepTick(p, s, w, choice), Tick(w, choice), w)
  {
    hide StepNotify, StepIdentity, StepCall, StepApprove, PointOk, LinksOk, StepWrite, StepClose, TailHash;
  }

  lemma WriteFollows(p: Primitives, s: State, w: nat, choice: Choice)
    requires w < |s.workers| && WorkerOk(p, s, w) && s.workers[w].pc.Building?
    ensures Follows(s, StepTick(p, s, w, choice), Tick(w, choice), w)
  {
    hide StepNotify, StepIdentity, StepCall, StepApprove, PointOk, StepClose, TailHash, Fresh, NotPending, HashBefore, OnlyLate;
  }

  lemma CloseFollows(p: Primitives, s: State, w: nat, choice: Choice)
    requires w < |s.workers| && WorkerOk(p, s, w) && s.workers[w].pc.Closing?
    ensures Follows(s, StepTick(p, s, w, choice), Tick(w, choice), w)
  {
    hide StepNotify, StepIdentity, StepCall, StepApprove, PointOk, StepWrite, TailHash, HashBefore, OnlyLate;
  }

  lemma StepFollows(p: Primitives, s: State, a: Action, w: nat)
    requires Inv(p, s) && w < |s.workers|
    ensures Follows(s, Step(p, s, a), a, w)
  {
    hide Inv, Follows, StepTick, StepAbort, StepDie, WorkerOk;
    Parts(p, s, w);
    Guarantees.StepGrows(p, s, a);
    if a.Tick? && a.worker == w {
      var pc := s.workers[w].pc;
      if pc.Approving? {
        ApproveFollows(p, s, w, a.choice);
      } else if Undecided(pc) {
        PreludeFollows(p, s, w, a.choice);
      } else if pc.Building? {
        WriteFollows(p, s, w, a.choice);
      } else if pc.Closing? {
        CloseFollows(p, s, w, a.choice);
      } else if pc.Waiting? || pc.Reading? || pc.Releasing? {
        QueueFollows(p, s, w, a.choice);
      } else {
        CallFollows(p, s, w, a.choice);
      }
    } else {
      OthersFollow(p, s, a, w);
    }
  }

  // ----- over every run -----

  // The state of worker w's decision and the answers given to it so far agree.
  ghost predicate Agrees(p: Primitives, actions: seq<Action>, w: nat) {
    var s := Run(p, actions);
    && (w >= |s.workers| ==> forall answer :: !Answered(p, actions, w, answer))
    && (w < |s.workers| ==>
          && (Undecided(s.workers[w].pc) ==> forall answer :: !Answered(p, actions, w, answer))
          && (forall answer :: Intended(s.workers[w].pc) == Some(answer) ==> Answered(p, actions, w, answer))
          && (forall answer :: DecidedAs(s, w, answer) ==> Answered(p, actions, w, answer)))
    && !(Answered(p, actions, w, true) && Answered(p, actions, w, false))
  }

  lemma {:induction false} AnswersAgree(p: Primitives, actions: seq<Action>, w: nat)
    ensures Agrees(p, actions, w)
  {
    hide Step, Inv, Answered, AnswerAt, DecidedAs;
    if |actions| == 0 {
      NobodyAnswered(p, w);
    } else {
      var m := |actions| - 1;
      var before, a := actions[..m], actions[m];
      AnswersAgree(p, before, w);
      ReachableIsSafe(p, before);
      AnsweredSnoc(p, actions, w, true);
      AnsweredSnoc(p, actions, w, false);
      if w < |Run(p, before).workers| {
        StepFollows(p, Run(p, before), a, w);
      } else {
        NewWorker(p, Run(p, before), a, w);
      }
    }
  }

  lemma NobodyAnswered(p: Primitives, w: nat)
    ensures forall answer :: !Answered(p, [], w, answer)
  {
  }

  lemma NewWorker(p: Primitives, s: State, a: Action, w: nat)
    requires w >= |s.workers|
    ensures AnswerAt(s, a, w).None?
    ensures var t := Step(p, s, a);
            w < |t.workers| ==>
              Undecided(t.workers[w].pc) && Intended(t.workers[w].pc).None? && forall answer :: !DecidedAs(t, w, answer)
  {
    hide StepTick;
    if a.Tick? && a.worker < |s.workers| {
      SameWorkers(p, s, a.worker, a.choice);
    }
  }

  lemma SameWorkers(p: Primitives, s: State, v: nat, choice: Choice)
    requires v < |s.workers|
    ensures |StepTick(p, s, v, choice).workers| == |s.workers|
  {
    hide StepIdentity, Fresh, NotPending, BodyFor, TailHash, AfterWrite, NoticeOf;
    SameWorkersLoading(s, v, choice);
  }

  lemma SameWorkersLoading(s: State, v: nat, choice: Choice)
    requires v < |s.workers|
    ensures |StepIdentity(s, v, choice).workers| == |s.workers|
  {
    hide AfterIdentity, Register, RegisterOld;
  }

  // The decision in the journal is the answer that was given, the only one; and
  // no target has run without an allowing one.
  lemma DecisionIsTheAnswer(p: Primitives, actions: seq<Action>, w: nat)
    requires w < |Run(p, actions).workers|
    ensures var s := Run(p, actions);
            && (forall answer :: DecidedAs(s, w, answer) ==>
                  Answered(p, actions, w, answer) && !Answered(p, actions, w, !answer))
            && (s.workers[w].runs > 0 ==> Answered(p, actions, w, true) && !Answered(p, actions, w, false))
  {
    hide Run, Inv, Answered, Undecided;
    AnswersAgree(p, actions, w);
    ReachableIsSafe(p, actions);
    WorkerLinks(p, Run(p, actions), w);
  }
}
