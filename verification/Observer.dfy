// The observer notification: at most one successful call is remembered per
// observer and contract.
module Observer {
  import opened Wrappers

  class OnceTracker {
    var done: set<(nat, string)>

    constructor ()
      ensures done == {}
    {
      done := {};
    }

    method IsDone(observer: nat, contractHash: string) returns (r: bool)
      ensures r <==> (observer, contractHash) in done
    {
      r := (observer, contractHash) in done;
    }

    method MarkDone(observer: nat, contractHash: string)
      modifies this
      ensures done == old(done) + {(observer, contractHash)}
    {
      done := done + {(observer, contractHash)};
    }

    // Tells the observer about the contract unless that succeeded before.
    // fails says whether the observer raises when it is called; a failed call
    // leaves the tracker as it was, so the next invocation asks again.
    method NotifyOnce(observer: Option<nat>, contractHash: string, fails: bool) returns (called: bool, ok: bool)
      modifies this
      ensures called <==> observer.Some? && (observer.value, contractHash) !in old(done)
      ensures ok <==> !(called && fails)
      ensures done == old(done) + if called && ok then {(observer.value, contractHash)} else {}
    {
      called, ok := false, true;
      assert done + {} == done;
      if observer.None? {
        return;
      }
      var known := IsDone(observer.value, contractHash);
      if known {
        return;
      }
      called := true;
      if fails {
        ok := false;
        return;
      }
      MarkDone(observer.value, contractHash);
    }
  }
}
