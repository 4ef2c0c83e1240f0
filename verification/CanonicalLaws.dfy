// Properties of the traversal: when it fails, what it denotes, that secrets
// cannot influence it, and that it lands in a normal form.
module CanonicalLaws {
  import opened Wrappers
  import opened Json
  import opened Canonical

  // ----- the children of a node, one by one -----

  lemma {:induction false} FieldsWalkedEach(policy: Policy, heap: Heap, fields: seq<(string, Value)>, depth: nat,
                                            seen: set<nat>)
    ensures match WalkFields(policy, heap, fields, depth, seen)
            case DoneFields(done, _) =>
              && |done| == |fields|
              && (forall i :: 0 <= i < |fields| ==>
                    && done[i].0 == fields[i].0
                    && (if Sensitive(policy, fields[i].0) then done[i].1 == JStr(REDACTED)
                        else Walk(policy, heap, fields[i].1, depth, seen).Done?
                             && done[i].1 == Walk(policy, heap, fields[i].1, depth, seen).value))
            case FailFields(error) =>
              exists i :: 0 <= i < |fields| && !Sensitive(policy, fields[i].0)
                          && Walk(policy, heap, fields[i].1, depth, seen).Fail?
  {
    hide Walk, Sensitive;
    if |fields| > 0 {
      var n := |fields| - 1;
      FieldsWalkedEach(policy, heap, fields[..n], depth, seen);
      if WalkFields(policy, heap, fields[..n], depth, seen).FailFields? {
        var i :| 0 <= i < n && !Sensitive(policy, fields[..n][i].0)
                 && Walk(policy, heap, fields[..n][i].1, depth, seen).Fail?;
        assert fields[..n][i] == fields[i];
      } else {
        assert forall i :: 0 <= i < n ==> fields[..n][i] == fields[i];
      }
    }
  }

  lemma {:induction false} ItemsWalkedEach(policy: Policy, heap: Heap, items: seq<Value>, depth: nat, seen: set<nat>)
    ensures match WalkItems(policy, heap, items, depth, seen)
            case DoneItems(done, _) =>
              && |done| == |items|
              && (forall i :: 0 <= i < |items| ==>
                    Walk(policy, heap, items[i], depth, seen).Done?
                    && done[i] == Walk(policy, heap, items[i], depth, seen).value)
            case FailItems(error) =>
              exists i :: 0 <= i < |items| && Walk(policy, heap, items[i], depth, seen).Fail?
  {
    hide Walk;
    if |items| > 0 {
      var n := |items| - 1;
      ItemsWalkedEach(policy, heap, items[..n], depth, seen);
      if WalkItems(policy, heap, items[..n], depth, seen).FailItems? {
        var i :| 0 <= i < n && Walk(policy, heap, items[..n][i], depth, seen).Fail?;
        assert items[..n][i] == items[i];
      } else {
        assert forall i :: 0 <= i < n ==> items[..n][i] == items[i];
      }
    }
  }

  // ----- paths in the object graph -----

  // The i-th child the traversal descends into; redacted fields have none.
  function Kid(policy: Policy, heap: Heap, value: Value, i: nat): Option<Value> {
    if !value.VRef? then None
    else match Expand(heap(value.ref))
      case Named(fields) =>
        if i < |fields| && !Sensitive(policy, fields[i].0) then Some(fields[i].1) else None
      case Positional(items) => if i < |items| then Some(items[i]) else None
      case _ => None
  }

  // The value a path of child numbers leads to.
  function Visit(policy: Policy, heap: Heap, value: Value, path: seq<nat>): Option<Value>
    decreases |path|
  {
    if |path| == 0 then Some(value)
    else match Kid(policy, heap, value, path[0])
      case None => None
      case Some(kid) => Visit(policy, heap, kid, path[1..])
  }

  // The containers entered on the way, without the end of the path.
  function Trail(policy: Policy, heap: Heap, value: Value, path: seq<nat>): set<nat>
    decreases |path|
  {
    if |path| == 0 then {}
    else match Kid(policy, heap, value, path[0])
      case None => {}
      case Some(kid) => {value.ref} + Trail(policy, heap, kid, path[1..])
  }

  predicate IsContainer(heap: Heap, value: Value) {
    value.VRef? && !Expand(heap(value.ref)).Unsupported?
  }

  predicate IsNonFinite(value: Value) {
    value.VFloat? && !value.finite
  }

  // What makes the end of a path a reason to fail, for a traversal that
  // starts at the given depth inside the given containers.
  predicate BadEnd(policy: Policy, heap: Heap, value: Value, path: seq<nat>, depth: nat, seen: set<nat>) {
    var end := Visit(policy, heap, value, path);
    && end.Some?
    && (|| depth + |path| > MAX_DEPTH
        || IsNonFinite(end.value)
        || (IsContainer(heap, end.value) && end.value.ref in seen + Trail(policy, heap, value, path)))
  }

  lemma {:induction false} BadPathFails(policy: Policy, heap: Heap, value: Value, path: seq<nat>, depth: nat, seen: set<nat>)
    requires BadEnd(policy, heap, value, path, depth, seen)
    ensures Walk(policy, heap, value, depth, seen).Fail?
    decreases |path|
  {
    if |path| > 0 && depth <= MAX_DEPTH && value.ref !in seen {
      var i, rest := path[0], path[1..];
      var kid := Kid(policy, heap, value, i).value;
      var ref := value.ref;
      assert seen + Trail(policy, heap, value, path) == (seen + {ref}) + Trail(policy, heap, kid, rest);
      BadPathFails(policy, heap, kid, rest, depth + 1, seen + {ref});
      match Expand(heap(ref))
      case Named(fields) => FieldsWalkedEach(policy, heap, fields, depth + 1, seen + {ref});
      case Positional(items) => ItemsWalkedEach(policy, heap, items, depth + 1, seen + {ref});
    }
  }

  lemma {:induction false} FailureHasBadPath(policy: Policy, heap: Heap, value: Value, depth: nat, seen: set<nat>)
    returns (path: seq<nat>)
    requires Walk(policy, heap, value, depth, seen).Fail?
    ensures BadEnd(policy, heap, value, path, depth, seen)
    decreases Left(depth)
  {
    path := [];
    if depth > MAX_DEPTH || IsNonFinite(value) || value.ref in seen {
      return;
    }
    var i, kid := FailingKid(policy, heap, value, depth, seen);
    var rest := FailureHasBadPath(policy, heap, kid, depth + 1, seen + {value.ref});
    path := [i] + rest;
    assert path[1..] == rest;
    assert seen + Trail(policy, heap, value, path) == (seen + {value.ref}) + Trail(policy, heap, kid, rest);
  }

  lemma FailingKid(policy: Policy, heap: Heap, value: Value, depth: nat, seen: set<nat>) returns (i: nat, kid: Value)
    requires Walk(policy, heap, value, depth, seen).Fail?
    requires depth <= MAX_DEPTH && !IsNonFinite(value) && value.VRef? && value.ref !in seen
    ensures Kid(policy, heap, value, i) == Some(kid)
    ensures Walk(policy, heap, kid, depth + 1, seen + {value.ref}).Fail?
  {
    var inside := seen + {value.ref};
    match Expand(heap(value.ref))
    case Named(fields) =>
      FieldsWalkedEach(policy, heap, fields, depth + 1, inside);
      i :| 0 <= i < |fields| && !Sensitive(policy, fields[i].0)
           && Walk(policy, heap, fields[i].1, depth + 1, inside).Fail?;
      kid := fields[i].1;
    case Positional(items) =>
      ItemsWalkedEach(policy, heap, items, depth + 1, inside);
      i :| 0 <= i < |items| && Walk(policy, heap, items[i], depth + 1, inside).Fail?;
      kid := items[i];
  }

  // On any object graph, with sharing and cycles: the traversal fails if and
  // only if some path that enters no redacted field meets a non-finite float,
  // comes back to a container it is inside of, or goes deeper than the limit.
  lemma FailsExactlyOnBadPaths(policy: Policy, heap: Heap, value: Value)
    ensures Canonicalize(policy, heap, value).Fail? <==> exists path :: BadEnd(policy, heap, value, path, 0, {})
  {
    if Canonicalize(policy, heap, value).Fail? {
      var path := FailureHasBadPath(policy, heap, value, 0, {});
    }
    if path :| BadEnd(policy, heap, value, path, 0, {}) {
      BadPathFails(policy, heap, value, path, 0, {});
    }
  }

  // ----- what a successful traversal denotes -----

  // j is the redacted tree unfolding of the value.
  predicate Denotes(policy: Policy, heap: Heap, value: Value, j: Json)
    decreases j
  {
    match value
    case VNone => j == JNull
    case VBool(b) => j == JBool(b)
    case VInt(n) => j == JNum(n)
    case VStr(s) => j == JStr(s)
    case VFloat(finite, repr) => finite && j == JFloat(repr)
    case VRef(ref) =>
      match Expand(heap(ref))
      case Unsupported(typeName) => j == JStr(UNSUPPORTED_MARKER + typeName + ">")
      case BadKeys => j == JStr(BAD_KEYS_MARKER)
      case Named(fields) =>
        && j.JObj? && |j.fields| == |fields|
        && (forall i :: 0 <= i < |fields| ==>
              && j.fields[i].0 == fields[i].0
              && (if Sensitive(policy, fields[i].0) then j.fields[i].1 == JStr(REDACTED)
                  else Denotes(policy, heap, fields[i].1, j.fields[i].1)))
      case Positional(items) =>
        && j.JArr? && |j.items| == |items|
        && (forall i :: 0 <= i < |items| ==> Denotes(policy, heap, items[i], j.items[i]))
  }

  // The result is the unfolding, whatever containers the traversal is inside of.
  lemma {:induction false} SuccessDenotes(policy: Policy, heap: Heap, value: Value, depth: nat, seen: set<nat>)
    requires Walk(policy, heap, value, depth, seen).Done?
    ensures Denotes(policy, heap, value, Walk(policy, heap, value, depth, seen).value)
    decreases Left(depth)
  {
    if value.VRef? {
      var inside := seen + {value.ref};
      match Expand(heap(value.ref))
      case Named(fields) =>
        FieldsWalkedEach(policy, heap, fields, depth + 1, inside);
        forall i | 0 <= i < |fields| && !Sensitive(policy, fields[i].0)
          ensures Denotes(policy, heap, fields[i].1, Walk(policy, heap, fields[i].1, depth + 1, inside).value)
        {
          SuccessDenotes(policy, heap, fields[i].1, depth + 1, inside);
        }
      case Positional(items) =>
        ItemsWalkedEach(policy, heap, items, depth + 1, inside);
        forall i | 0 <= i < |items|
          ensures Denotes(policy, heap, items[i], Walk(policy, heap, items[i], depth + 1, inside).value)
        {
          SuccessDenotes(policy, heap, items[i], depth + 1, inside);
        }
      case _ =>
    }
  }

  // There is only one unfolding.
  lemma {:induction false} UnfoldingIsUnique(policy: Policy, heap: Heap, value: Value, a: Json, b: Json)
    requires Denotes(policy, heap, value, a) && Denotes(policy, heap, value, b)
    ensures a == b
    decreases a
  {
    if value.VRef? {
      match Expand(heap(value.ref))
      case Named(fields) =>
        forall i | 0 <= i < |fields|
          ensures a.fields[i] == b.fields[i]
        {
          if !Sensitive(policy, fields[i].0) {
            UnfoldingIsUnique(policy, heap, fields[i].1, a.fields[i].1, b.fields[i].1);
          }
        }
        assert a.fields == b.fields;
      case Positional(items) =>
        forall i | 0 <= i < |items|
          ensures a.items[i] == b.items[i]
        {
          UnfoldingIsUnique(policy, heap, items[i], a.items[i], b.items[i]);
        }
        assert a.items == b.items;
      case _ =>
    }
  }

  // The container a path leads to ranks above its children.
  predicate RankFalls(policy: Policy, heap: Heap, value: Value, rank: nat -> nat, path: seq<nat>, i: nat) {
    var end := Visit(policy, heap, value, path);
    end.Some? && end.value.VRef? ==>
      var kid := Kid(policy, heap, end.value, i);
      kid.Some? && kid.value.VRef? ==> rank(kid.value.ref) < rank(end.value.ref)
  }

  // What can be reached from the value has no cycle; other objects may.
  ghost predicate Acyclic(policy: Policy, heap: Heap, value: Value, rank: nat -> nat) {
    forall path, i :: RankFalls(policy, heap, value, rank, path, i)
  }

  // Sharing without cycles never fails: if the containers that can be reached
  // can be ranked so that every child ranks below its parent, and neither depth
  // nor floats are in the way, the traversal succeeds, however often objects
  // are shared.
  lemma SharedAcyclicSucceeds(policy: Policy, heap: Heap, value: Value, rank: nat -> nat)
    requires Acyclic(policy, heap, value, rank)
    requires forall path :: Visit(policy, heap, value, path).Some? ==>
                              |path| <= MAX_DEPTH && !IsNonFinite(Visit(policy, heap, value, path).value)
    ensures Canonicalize(policy, heap, value).Done?
  {
    if Canonicalize(policy, heap, value).Fail? {
      var path := FailureHasBadPath(policy, heap, value, 0, {});
      RankFallsAlongTrail(policy, heap, value, path, rank);
      assert false;
    }
  }

  lemma KidIsAcyclic(policy: Policy, heap: Heap, value: Value, rank: nat -> nat, i: nat)
    requires Acyclic(policy, heap, value, rank) && Kid(policy, heap, value, i).Some?
    ensures Acyclic(policy, heap, Kid(policy, heap, value, i).value, rank)
  {
    var kid := Kid(policy, heap, value, i).value;
    forall path, j: nat
      ensures RankFalls(policy, heap, kid, rank, path, j)
    {
      assert ([i] + path)[1..] == path;
      assert RankFalls(policy, heap, value, rank, [i] + path, j);
    }
  }

  lemma {:induction false} RankFallsAlongTrail(policy: Policy, heap: Heap, value: Value, path: seq<nat>, rank: nat -> nat)
    requires Acyclic(policy, heap, value, rank)
    requires Visit(policy, heap, value, path).Some? && Visit(policy, heap, value, path).value.VRef?
    ensures var end := Visit(policy, heap, value, path).value.ref;
            && (forall r :: r in Trail(policy, heap, value, path) ==> rank(end) < rank(r))
            && (value.VRef? ==> rank(end) <= rank(value.ref))
    decreases |path|
  {
    if |path| > 0 {
      var kid := Kid(policy, heap, value, path[0]).value;
      KidIsAcyclic(policy, heap, value, rank, path[0]);
      RankFallsAlongTrail(policy, heap, kid, path[1..], rank);
      assert Visit(policy, heap, value, []) == Some(value);
      assert RankFalls(policy, heap, value, rank, [], path[0]);
      if |path| > 1 {
        assert kid.VRef?;
      }
    }
  }

  // ----- noninterference -----

  // Two values look the same apart from what sits under sensitive names; f
  // pairs the objects of the first heap with those of the second.
  predicate SameValue(f: map<nat, nat>, a: Value, b: Value) {
    if a.VRef? && b.VRef? then a.ref in f && f[a.ref] == b.ref
    else a == b
  }

  predicate SameShape(policy: Policy, f: map<nat, nat>, a: Shape, b: Shape) {
    match a
    case Named(fields) =>
      && b.Named? && |fields| == |b.fields|
      && (forall i :: 0 <= i < |fields| ==>
            && fields[i].0 == b.fields[i].0
            && (!Sensitive(policy, fields[i].0) ==> SameValue(f, fields[i].1, b.fields[i].1)))
    case Positional(items) =>
      && b.Positional? && |items| == |b.items|
      && (forall i :: 0 <= i < |items| ==> SameValue(f, items[i], b.items[i]))
    case _ => a == b
  }

  ghost predicate LowEqual(policy: Policy, f: map<nat, nat>, a: Heap, b: Heap) {
    && (forall r :: r in f ==> SameShape(policy, f, Expand(a(r)), Expand(b(f[r]))))
    && (forall r, s :: r in f && s in f && f[r] == f[s] ==> r == s)
  }

  // Being inside paired containers.
  predicate SameSeen(f: map<nat, nat>, a: set<nat>, b: set<nat>) {
    forall r :: r in f ==> (r in a <==> f[r] in b)
  }

  // The same canonical value, or the same failure.
  predicate SameResult(a: Walked, b: Walked) {
    if a.Fail? then a == Fail(a.error) && b == Fail(a.error) else b.Done? && a.value == b.value
  }

  predicate SameFieldsResult(a: FieldsWalked, b: FieldsWalked) {
    if a.FailFields? then b == FailFields(a.error) else b.DoneFields? && a.fields == b.fields
  }

  predicate SameItemsResult(a: ItemsWalked, b: ItemsWalked) {
    if a.FailItems? then b == FailItems(a.error) else b.DoneItems? && a.items == b.items
  }

  lemma {:induction false} SecretsDoNotInterfere(policy: Policy, f: map<nat, nat>, h1: Heap, h2: Heap, v1: Value, v2: Value,
                                                 depth: nat, seen1: set<nat>, seen2: set<nat>)
    requires LowEqual(policy, f, h1, h2) && SameValue(f, v1, v2) && SameSeen(f, seen1, seen2)
    ensures SameResult(Walk(policy, h1, v1, depth, seen1), Walk(policy, h2, v2, depth, seen2))
    decreases Left(depth), 0
  {
    if depth <= MAX_DEPTH && v1.VRef? && v2.VRef? {
      hide LowEqual;
      var r := v1.ref;
      ShapesCorrespond(policy, f, h1, h2, r);
      var in1, in2 := seen1 + {r}, seen2 + {f[r]};
      if r !in seen1 {
        SeenGrows(policy, f, h1, h2, seen1, seen2, r);
        match Expand(h1(r))
        case Named(fields) =>
          FieldsDoNotInterfere(policy, f, h1, h2, fields, Expand(h2(f[r])).fields, depth + 1, in1, in2);
        case Positional(items) =>
          ItemsDoNotInterfere(policy, f, h1, h2, items, Expand(h2(f[r])).items, depth + 1, in1, in2);
        case _ =>
      }
    }
  }

  lemma ShapesCorrespond(policy: Policy, f: map<nat, nat>, h1: Heap, h2: Heap, r: nat)
    requires LowEqual(policy, f, h1, h2) && r in f
    ensures SameShape(policy, f, Expand(h1(r)), Expand(h2(f[r])))
  {
  }

  lemma SeenGrows(policy: Policy, f: map<nat, nat>, h1: Heap, h2: Heap, seen1: set<nat>, seen2: set<nat>, r: nat)
    requires LowEqual(policy, f, h1, h2) && SameSeen(f, seen1, seen2) && r in f
    ensures SameSeen(f, seen1 + {r}, seen2 + {f[r]})
  {
  }

  lemma {:induction false} FieldsDoNotInterfere(policy: Policy, f: map<nat, nat>, h1: Heap, h2: Heap,
                                                a: seq<(string, Value)>, b: seq<(string, Value)>,
                                                depth: nat, seen1: set<nat>, seen2: set<nat>)
    requires LowEqual(policy, f, h1, h2) && SameSeen(f, seen1, seen2)
    requires SameShape(policy, f, Named(a), Named(b))
    ensures SameFieldsResult(WalkFields(policy, h1, a, depth, seen1), WalkFields(policy, h2, b, depth, seen2))
    decreases Left(depth), |a| + 1
  {
    hide Walk, LowEqual, SameSeen;
    if |a| > 0 {
      var n := |a| - 1;
      assert SameShape(policy, f, Named(a[..n]), Named(b[..n]));
      FieldsDoNotInterfere(policy, f, h1, h2, a[..n], b[..n], depth, seen1, seen2);
      if !Sensitive(policy, a[n].0) {
        SecretsDoNotInterfere(policy, f, h1, h2, a[n].1, b[n].1, depth, seen1, seen2);
      }
    }
  }

  lemma {:induction false} ItemsDoNotInterfere(policy: Policy, f: map<nat, nat>, h1: Heap, h2: Heap,
                                               a: seq<Value>, b: seq<Value>, depth: nat, seen1: set<nat>, seen2: set<nat>)
    requires LowEqual(policy, f, h1, h2) && SameSeen(f, seen1, seen2)
    requires SameShape(policy, f, Positional(a), Positional(b))
    ensures SameItemsResult(WalkItems(policy, h1, a, depth, seen1), WalkItems(policy, h2, b, depth, seen2))
    decreases Left(depth), |a| + 1
  {
    hide Walk, LowEqual, SameSeen;
    if |a| > 0 {
      var n := |a| - 1;
      assert SameShape(policy, f, Positional(a[..n]), Positional(b[..n]));
      ItemsDoNotInterfere(policy, f, h1, h2, a[..n], b[..n], depth, seen1, seen2);
      SecretsDoNotInterfere(policy, f, h1, h2, a[n], b[n], depth, seen1, seen2);
    }
  }

  // Redaction noninterference: values that differ only under sensitive names
  // have the same canonical form or the same failure.
  lemma RedactionNoninterference(policy: Policy, f: map<nat, nat>, h1: Heap, h2: Heap, v1: Value, v2: Value)
    requires LowEqual(policy, f, h1, h2) && SameValue(f, v1, v2)
    ensures SameResult(Canonicalize(policy, h1, v1), Canonicalize(policy, h2, v2))
  {
    SecretsDoNotInterfere(policy, f, h1, h2, v1, v2, 0, {}, {});
  }

  // ----- normal form -----

  // Every position under a sensitive name holds exactly the marker, and the
  // positions the traversal descends into stay within the depth limit.
  predicate NormalForm(policy: Policy, j: Json, depth: nat)
    decreases j
  {
    && depth <= MAX_DEPTH
    && match j
       case JObj(fields) =>
         forall i :: 0 <= i < |fields| ==>
                       if Sensitive(policy, fields[i].0) then fields[i].1 == JStr(REDACTED)
                       else NormalForm(policy, fields[i].1, depth + 1)
       case JArr(items) => forall i :: 0 <= i < |items| ==> NormalForm(policy, items[i], depth + 1)
       case _ => true
  }

  lemma {:induction false} SuccessIsNormal(policy: Policy, heap: Heap, value: Value, depth: nat, seen: set<nat>)
    requires Walk(policy, heap, value, depth, seen).Done?
    ensures NormalForm(policy, Walk(policy, heap, value, depth, seen).value, depth)
    decreases Left(depth)
  {
    hide Sensitive, WalkFields, WalkItems;
    if value.VRef? {
      var inside := seen + {value.ref};
      match Expand(heap(value.ref))
      case Named(fields) =>
        FieldsWalkedEach(policy, heap, fields, depth + 1, inside);
        var done := WalkFields(policy, heap, fields, depth + 1, inside).fields;
        forall i | 0 <= i < |done| && !Sensitive(policy, done[i].0)
          ensures NormalForm(policy, done[i].1, depth + 1)
        {
          SuccessIsNormal(policy, heap, fields[i].1, depth + 1, inside);
        }
        assert Walk(policy, heap, value, depth, seen).value == JObj(done);
      case Positional(items) =>
        ItemsWalkedEach(policy, heap, items, depth + 1, inside);
        var done := WalkItems(policy, heap, items, depth + 1, inside).items;
        forall i | 0 <= i < |done|
          ensures NormalForm(policy, done[i], depth + 1)
        {
          SuccessIsNormal(policy, heap, items[i], depth + 1, inside);
        }
        assert Walk(policy, heap, value, depth, seen).value == JArr(done);
      case _ =>
    }
  }

  // The value holds the tree j as host dictionaries and lists.
  predicate Represents(heap: Heap, value: Value, j: Json)
    decreases j
  {
    match j
    case JNull => value == VNone
    case JBool(b) => value == VBool(b)
    case JNum(n) => value == VInt(n)
    case JStr(s) => value == VStr(s)
    case JFloat(repr) => value == VFloat(true, repr)
    case JObj(fields) =>
      && value.VRef? && heap(value.ref).Dict?
      && var entries := heap(value.ref).entries;
      && |entries| == |fields|
      && (forall i :: 0 <= i < |fields| ==>
            entries[i].0 == Text(fields[i].0) && Represents(heap, entries[i].1, fields[i].1))
    case JArr(items) =>
      && value.VRef? && heap(value.ref).Sequence?
      && var children := heap(value.ref).items;
      && |children| == |items|
      && (forall i :: 0 <= i < |items| ==> Represents(heap, children[i], items[i]))
  }

  lemma {:induction false} RepresentedTreeIsUnique(heap: Heap, value: Value, a: Json, b: Json)
    requires Represents(heap, value, a) && Represents(heap, value, b)
    ensures a == b
    decreases a
  {
    match a
    case JObj(fields) =>
      forall i | 0 <= i < |fields|
        ensures fields[i] == b.fields[i]
      {
        RepresentedTreeIsUnique(heap, heap(value.ref).entries[i].1, fields[i].1, b.fields[i].1);
      }
      assert fields == b.fields;
    case JArr(items) =>
      forall i | 0 <= i < |items|
        ensures items[i] == b.items[i]
      {
        RepresentedTreeIsUnique(heap, heap(value.ref).items[i], items[i], b.items[i]);
      }
      assert items == b.items;
    case _ =>
  }

  // The number of nodes of a tree.
  function Size(j: Json): nat
    decreases j, 1
  {
    match j
    case JObj(fields) => 1 + FieldsSize(j, |fields|)
    case JArr(items) => 1 + ItemsSize(j, |items|)
    case _ => 1
  }

  function FieldsSize(j: Json, n: nat): nat
    requires j.JObj? && n <= |j.fields|
    decreases j, 0, n
  {
    if n == 0 then 0 else FieldsSize(j, n - 1) + Size(j.fields[n - 1].1)
  }

  function ItemsSize(j: Json, n: nat): nat
    requires j.JArr? && n <= |j.items|
    decreases j, 0, n
  {
    if n == 0 then 0 else ItemsSize(j, n - 1) + Size(j.items[n - 1])
  }

  lemma {:induction false} FieldIsSmaller(j: Json, i: nat, n: nat)
    requires j.JObj? && i < n <= |j.fields|
    ensures Size(j.fields[i].1) <= FieldsSize(j, n)
  {
    if i < n - 1 {
      FieldIsSmaller(j, i, n - 1);
    }
  }

  lemma {:induction false} ItemIsSmaller(j: Json, i: nat, n: nat)
    requires j.JArr? && i < n <= |j.items|
    ensures Size(j.items[i]) <= ItemsSize(j, n)
  {
    if i < n - 1 {
      ItemIsSmaller(j, i, n - 1);
    }
  }

  // The containers the traversal is inside of represent larger trees.
  ghost predicate InsideLarger(heap: Heap, seen: set<nat>, size: nat) {
    forall r :: r in seen ==> exists j :: Represents(heap, VRef(r), j) && Size(j) > size
  }

  lemma NotInsideItself(heap: Heap, seen: set<nat>, value: Value, j: Json)
    requires value.VRef? && Represents(heap, value, j) && InsideLarger(heap, seen, Size(j))
    ensures value.ref !in seen
  {
    if value.ref in seen {
      var k :| Represents(heap, VRef(value.ref), k) && Size(k) > Size(j);
      RepresentedTreeIsUnique(heap, value, j, k);
    }
  }

  lemma InsideStaysLarger(heap: Heap, seen: set<nat>, value: Value, j: Json, size: nat)
    requires value.VRef? && Represents(heap, value, j) && InsideLarger(heap, seen, Size(j)) && size < Size(j)
    ensures InsideLarger(heap, seen + {value.ref}, size)
  {
    forall r | r in seen + {value.ref}
      ensures exists k :: Represents(heap, VRef(r), k) && Size(k) > size
    {
      if r == value.ref {
        assert Represents(heap, VRef(r), j);
      } else {
        var k :| Represents(heap, VRef(r), k) && Size(k) > Size(j);
      }
    }
  }

  lemma {:induction false} NormalFormIsFixed(policy: Policy, heap: Heap, value: Value, j: Json, depth: nat, seen: set<nat>)
    requires NormalForm(policy, j, depth) && Represents(heap, value, j) && InsideLarger(heap, seen, Size(j))
    ensures Walk(policy, heap, value, depth, seen).Done? && Walk(policy, heap, value, depth, seen).value == j
    decreases j
  {
    if value.VRef? {
      NotInsideItself(heap, seen, value, j);
      var inside := seen + {value.ref};
      match j
      case JObj(fields) =>
        var expanded := Expand(heap(value.ref));
        assert expanded.Named?;
        FieldsWalkedEach(policy, heap, expanded.fields, depth + 1, inside);
        forall i | 0 <= i < |fields| && !Sensitive(policy, fields[i].0)
          ensures Walk(policy, heap, expanded.fields[i].1, depth + 1, inside).Done?
          ensures Walk(policy, heap, expanded.fields[i].1, depth + 1, inside).value == fields[i].1
        {
          FieldIsSmaller(j, i, |fields|);
          InsideStaysLarger(heap, seen, value, j, Size(fields[i].1));
          NormalFormIsFixed(policy, heap, expanded.fields[i].1, fields[i].1, depth + 1, inside);
        }
        assert Walk(policy, heap, value, depth, seen).value.fields == fields;
      case JArr(items) =>
        var children := heap(value.ref).items;
        ItemsWalkedEach(policy, heap, children, depth + 1, inside);
        forall i | 0 <= i < |items|
          ensures Walk(policy, heap, children[i], depth + 1, inside).Done?
          ensures Walk(policy, heap, children[i], depth + 1, inside).value == items[i]
        {
          ItemIsSmaller(j, i, |items|);
          InsideStaysLarger(heap, seen, value, j, Size(items[i]));
          NormalFormIsFixed(policy, heap, children[i], items[i], depth + 1, inside);
        }
        assert Walk(policy, heap, value, depth, seen).value.items == items;
    }
  }

  // Canonicalization lands in a normal form and is idempotent: run again on
  // any host representation of its own output it changes nothing.
  lemma CanonicalizationIsIdempotent(policy: Policy, heap: Heap, value: Value, again: Heap, output: Value)
    requires Canonicalize(policy, heap, value).Done?
    requires Represents(again, output, Canonicalize(policy, heap, value).value)
    ensures NormalForm(policy, Canonicalize(policy, heap, value).value, 0)
    ensures Canonicalize(policy, again, output).Done?
    ensures Canonicalize(policy, again, output).value == Canonicalize(policy, heap, value).value
  {
    SuccessIsNormal(policy, heap, value, 0, {});
    NormalFormIsFixed(policy, again, output, Canonicalize(policy, heap, value).value, 0, {});
  }
}
