// Over every run: which observers were told about which contracts, and what the
// trackers of the processes remember of it.
module Notices {
  import opened Wrappers
  import opened Evidence
  import opened Protocol
  import opened Safety

  // The step tells the observer of a call about its contract, and succeeds.
  predicate Tells(s: State, a: Action, process: nat, observer: nat, contractHash: string) {
    a.Tick? && a.worker < |s.workers| && !a.choice.Fail? && s.workers[a.worker].pc == Notifying
    && Asks(s.workers[a.worker], process, observer, contractHash)
  }

  // The call of a worker names the observer and carries the contract.
  predicate Asks(worker: Worker, process: nat, observer: nat, contractHash: string) {
    worker.process == process && worker.task.Guarded?
    && worker.task.call.observer == Some(observer) && worker.task.call.contract.contractHash == contractHash
  }

  // The step marks that as done.
  predicate Marks(s: State, a: Action, process: nat, observer: nat, contractHash: string) {
    a.Tick? && a.worker < |s.workers| && s.workers[a.worker].pc == Marking
    && Asks(s.workers[a.worker], process, observer, contractHash)
  }

  lemma StepTells(p: Primitives, s: State, a: Action, process: nat, observer: nat, contractHash: string)
    ensures var notice := Notice(process, observer, contractHash);
            notice in Step(p, s, a).told <==> notice in s.told || Tells(s, a, process, observer, contractHash)
  {
    hide StepNotify, StepIdentity, StepApprove, StepAppend, StepCall;
    if a.Tick? && a.worker < |s.workers| {
      OthersKeepNotices(p, s, a.worker, a.choice);
      NotifyTells(s, a.worker, a.choice, process, observer, contractHash);
    }
  }

  // A dead process remembers nothing.
  lemma StepMarks(p: Primitives, s: State, a: Action, process: nat, observer: nat, contractHash: string)
    ensures var notice := Notice(process, observer, contractHash);
            notice in Step(p, s, a).done <==>
            a != Die(process) && (notice in s.done || Marks(s, a, process, observer, contractHash))
  {
    hide StepNotify, StepIdentity, StepApprove, StepAppend, StepCall;
    if a.Tick? && a.worker < |s.workers| {
      OthersKeepNotices(p, s, a.worker, a.choice);
      NotifyTells(s, a.worker, a.choice, process, observer, contractHash);
    }
  }

  predicate SameNotices(s: State, t: State) {
    t.told == s.told && t.done == s.done
  }

  lemma OthersKeepNotices(p: Primitives, s: State, w: nat, choice: Choice)
    requires w < |s.workers|
    ensures SameNotices(s, StepIdentity(s, w, choice)) && SameNotices(s, StepApprove(s, w, choice))
    ensures SameNotices(s, StepAppend(p, s, w, choice)) && SameNotices(s, StepCall(s, w, choice))
  {
    hide Fresh, NotPending, BodyFor, TailHash, AfterWrite, NoticeOf, AfterIdentity;
    IdentityKeepsNotices(s, w, choice);
  }

  lemma IdentityKeepsNotices(s: State, w: nat, choice: Choice)
    requires w < |s.workers|
    ensures SameNotices(s, StepIdentity(s, w, choice))
  {
    hide AfterIdentity, Register, RegisterOld;
  }

  lemma NotifyTells(s: State, w: nat, choice: Choice, process: nat, observer: nat, contractHash: string)
    requires w < |s.workers|
    ensures var notice, t := Notice(process, observer, contractHash), StepNotify(s, w, choice);
            && (notice in t.told <==> notice in s.told || Tells(s, Tick(w, choice), process, observer, contractHash))
            && (notice in t.done <==> notice in s.done || Marks(s, Tick(w, choice), process, observer, contractHash))
  {
  }

  ghost predicate ToldInRun(p: Primitives, actions: seq<Action>, process: nat, observer: nat, contractHash: string) {
    exists n :: 0 <= n < |actions| && Tells(Run(p, actions[..n]), actions[n], process, observer, contractHash)
  }

  // Some step marked it, and the process has not died since.
  ghost predicate MarkedInRun(p: Primitives, actions: seq<Action>, process: nat, observer: nat, contractHash: string) {
    exists n :: 0 <= n < |actions| && Marks(Run(p, actions[..n]), actions[n], process, observer, contractHash)
                && Die(process) !in actions[n..]
  }

  lemma ToldSnoc(p: Primitives, actions: seq<Action>, process: nat, observer: nat, contractHash: string)
    requires |actions| > 0
    ensures var m := |actions| - 1;
            ToldInRun(p, actions, process, observer, contractHash) <==>
            || ToldInRun(p, actions[..m], process, observer, contractHash)
            || Tells(Run(p, actions[..m]), actions[m], process, observer, contractHash)
  {
    hide Run, Tells;
    var m := |actions| - 1;
    var before := actions[..m];
    assert forall n :: 0 <= n < m ==> before[..n] == actions[..n] && before[n] == actions[n];
    if ToldInRun(p, before, process, observer, contractHash) {
      var n :| 0 <= n < m && Tells(Run(p, before[..n]), before[n], process, observer, contractHash);
      assert Tells(Run(p, actions[..n]), actions[n], process, observer, contractHash);
    }
    if ToldInRun(p, actions, process, observer, contractHash) {
      var n :| 0 <= n < |actions| && Tells(Run(p, actions[..n]), actions[n], process, observer, contractHash);
      assert n == m || Tells(Run(p, before[..n]), before[n], process, observer, contractHash);
    }
  }

  lemma MarkedSnoc(p: Primitives, actions: seq<Action>, process: nat, observer: nat, contractHash: string)
    requires |actions| > 0
    ensures var m := |actions| - 1;
            MarkedInRun(p, actions, process, observer, contractHash) <==>
            actions[m] != Die(process)
            && (|| MarkedInRun(p, actions[..m], process, observer, contractHash)
                || Marks(Run(p, actions[..m]), actions[m], process, observer, contractHash))
  {
    hide Run, Marks;
    var m := |actions| - 1;
    var before := actions[..m];
    assert forall n :: 0 <= n < m ==> before[..n] == actions[..n] && before[n] == actions[n];
    assert forall n :: 0 <= n < m ==> actions[n..] == before[n..] + [actions[m]];
    assert actions[m..] == [actions[m]];
    if MarkedInRun(p, before, process, observer, contractHash) && actions[m] != Die(process) {
      var n :| 0 <= n < m && Marks(Run(p, before[..n]), before[n], process, observer, contractHash)
               && Die(process) !in before[n..];
      assert Marks(Run(p, actions[..n]), actions[n], process, observer, contractHash);
    }
    if MarkedInRun(p, actions, process, observer, contractHash) {
      var n :| 0 <= n < |actions| && Marks(Run(p, actions[..n]), actions[n], process, observer, contractHash)
               && Die(process) !in actions[n..];
      assert actions[n..][m - n] == actions[m];
      assert n == m || Marks(Run(p, before[..n]), before[n], process, observer, contractHash);
    }
  }

  // An observer was told about a contract exactly when some step of the run did
  // so for a call of that process, observer and contract.
  lemma {:induction false} ToldExactly(p: Primitives, actions: seq<Action>, process: nat, observer: nat, contractHash: string)
    ensures Notice(process, observer, contractHash) in Run(p, actions).told <==>
            ToldInRun(p, actions, process, observer, contractHash)
  {
    hide Step, Tells, ToldInRun;
    if |actions| > 0 {
      var m := |actions| - 1;
      ToldExactly(p, actions[..m], process, observer, contractHash);
      StepTells(p, Run(p, actions[..m]), actions[m], process, observer, contractHash);
      ToldSnoc(p, actions, process, observer, contractHash);
    } else {
      NothingInRun(p, process, observer, contractHash);
    }
  }

  lemma NothingInRun(p: Primitives, process: nat, observer: nat, contractHash: string)
    ensures !ToldInRun(p, [], process, observer, contractHash) && !MarkedInRun(p, [], process, observer, contractHash)
  {
  }

  // A tracker remembers a notification exactly when some step marked it and its
  // process has not died since.
  lemma {:induction false} RememberedExactly(p: Primitives, actions: seq<Action>, process: nat, observer: nat,
                                             contractHash: string)
    ensures Notice(process, observer, contractHash) in Run(p, actions).done <==>
            MarkedInRun(p, actions, process, observer, contractHash)
  {
    hide Step, Marks, MarkedInRun;
    if |actions| > 0 {
      var m := |actions| - 1;
      RememberedExactly(p, actions[..m], process, observer, contractHash);
      StepMarks(p, Run(p, actions[..m]), actions[m], process, observer, contractHash);
      MarkedSnoc(p, actions, process, observer, contractHash);
    } else {
      NothingInRun(p, process, observer, contractHash);
    }
  }

  // A call that begins goes to its observer exactly when it names one that the
  // tracker of its process does not remember for the contract.
  lemma AskedExactly(p: Primitives, s: State, w: nat, choice: Choice)
    requires w < |s.workers| && s.workers[w].pc == Pc.Begin && s.workers[w].task.Guarded?
    ensures var next := Step(p, s, Tick(w, choice));
            var call := s.workers[w].task.call;
            && |next.workers| == |s.workers|
            && next.workers[w].pc ==
               if call.observer.Some?
                  && Notice(s.workers[w].process, call.observer.value, call.contract.contractHash) !in s.done
               then Notifying else Canonicalizing
  {
  }
}
