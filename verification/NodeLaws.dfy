// What the traversal makes of each kind of host object, said of the objects
// themselves: dictionaries, named tuples, data classes, lists, and the rest.
module NodeLaws {
  import opened Wrappers
  import opened Json
  import opened Canonical
  import opened CanonicalLaws
  import opened Secrets

  predicate SomeKeyIsNoText(entries: seq<(Key, Value)>) {
    exists i :: 0 <= i < |entries| && entries[i].0.NonText?
  }

  // j is what evidence may show of the value: dictionaries with string keys,
  // named tuples with string names and data classes by name, with the marker
  // under each sensitive one; lists, tuples and other named tuples by position.
  predicate Shows(policy: Policy, heap: Heap, value: Value, j: Json)
    decreases j, 1
  {
    match value
    case VNone => j == JNull
    case VBool(b) => j == JBool(b)
    case VInt(n) => j == JNum(n)
    case VStr(s) => j == JStr(s)
    case VFloat(finite, repr) => finite && j == JFloat(repr)
    case VRef(ref) =>
      match heap(ref)
      case Dict(entries) =>
        if SomeKeyIsNoText(entries) then j == JStr("<unsupported:mapping-with-non-string-keys>")
        else ShowsByName(policy, heap, entries, j)
      case NamedTuple(fields) =>
        if SomeKeyIsNoText(fields) then
          && j.JArr? && |j.items| == |fields|
          && (forall i :: 0 <= i < |fields| ==> Shows(policy, heap, fields[i].1, j.items[i]))
        else ShowsByName(policy, heap, fields, j)
      case DataClass(members) =>
        && j.JObj? && |j.fields| == |members|
        && (forall i :: 0 <= i < |members| ==>
              && j.fields[i].0 == members[i].0
              && (if policy.fold(members[i].0) in policy.sensitive then j.fields[i].1 == JStr("<REDACTED>")
                  else Shows(policy, heap, members[i].1, j.fields[i].1)))
      case Sequence(items) =>
        && j.JArr? && |j.items| == |items|
        && (forall i :: 0 <= i < |items| ==> Shows(policy, heap, items[i], j.items[i]))
      case Opaque(typeName) => j == JStr("<unsupported:" + typeName + ">")
  }

  // One field for each key, in order, under the same name.
  predicate ShowsByName(policy: Policy, heap: Heap, entries: seq<(Key, Value)>, j: Json)
    requires !SomeKeyIsNoText(entries)
    decreases j, 0
  {
    && j.JObj? && |j.fields| == |entries|
    && (forall i :: 0 <= i < |entries| ==>
          && entries[i].0.Text? && j.fields[i].0 == entries[i].0.name
          && (if policy.fold(entries[i].0.name) in policy.sensitive then j.fields[i].1 == JStr("<REDACTED>")
              else Shows(policy, heap, entries[i].1, j.fields[i].1)))
  }

  // The unfolding along shapes is that along objects.
  lemma {:induction false} DenotesIsShows(policy: Policy, heap: Heap, value: Value, j: Json)
    ensures Denotes(policy, heap, value, j) <==> Shows(policy, heap, value, j)
    decreases j
  {
    if value.VRef? {
      match heap(value.ref)
      case Dict(entries) => NamesShow(policy, heap, entries, j);
      case NamedTuple(fields) =>
        if SomeKeyIsNoText(fields) {
          if j.JArr? && |j.items| == |fields| {
            forall i | 0 <= i < |fields|
              ensures Denotes(policy, heap, fields[i].1, j.items[i]) <==> Shows(policy, heap, fields[i].1, j.items[i])
            {
              DenotesIsShows(policy, heap, fields[i].1, j.items[i]);
            }
          }
        } else {
          NamesShow(policy, heap, fields, j);
        }
      case DataClass(members) =>
        if j.JObj? && |j.fields| == |members| {
          forall i | 0 <= i < |members|
            ensures Denotes(policy, heap, members[i].1, j.fields[i].1) <==> Shows(policy, heap, members[i].1, j.fields[i].1)
          {
            DenotesIsShows(policy, heap, members[i].1, j.fields[i].1);
          }
        }
      case Sequence(items) =>
        if j.JArr? && |j.items| == |items| {
          forall i | 0 <= i < |items|
            ensures Denotes(policy, heap, items[i], j.items[i]) <==> Shows(policy, heap, items[i], j.items[i])
          {
            DenotesIsShows(policy, heap, items[i], j.items[i]);
          }
        }
      case Opaque(_) =>
    }
  }

  predicate DenotesByName(policy: Policy, heap: Heap, fields: seq<(string, Value)>, j: Json) {
    && j.JObj? && |j.fields| == |fields|
    && (forall i :: 0 <= i < |fields| ==>
          && j.fields[i].0 == fields[i].0
          && (if Sensitive(policy, fields[i].0) then j.fields[i].1 == JStr(REDACTED)
              else Denotes(policy, heap, fields[i].1, j.fields[i].1)))
  }

  lemma {:induction false} NamesShow(policy: Policy, heap: Heap, entries: seq<(Key, Value)>, j: Json)
    ensures SomeKeyIsNoText(entries) <==> !AllText(entries)
    ensures AllText(entries) ==>
              (DenotesByName(policy, heap, TextFields(entries), j) <==> ShowsByName(policy, heap, entries, j))
    decreases j, 0
  {
    hide Denotes, Shows;
    if AllText(entries) && j.JObj? && |j.fields| == |entries| {
      forall i | 0 <= i < |entries|
        ensures Denotes(policy, heap, entries[i].1, j.fields[i].1) <==> Shows(policy, heap, entries[i].1, j.fields[i].1)
      {
        DenotesIsShows(policy, heap, entries[i].1, j.fields[i].1);
      }
    }
  }

  // Whatever object graph is traversed: a successful result shows every object
  // in this way, and only one result does.
  lemma WalkShowsObjects(policy: Policy, heap: Heap, value: Value, j: Json)
    requires Canonicalize(policy, heap, value).Done?
    ensures Shows(policy, heap, value, j) <==> j == Canonicalize(policy, heap, value).value
  {
    hide Denotes, Shows;
    var result := Canonicalize(policy, heap, value).value;
    SuccessDenotes(policy, heap, value, 0, {});
    DenotesIsShows(policy, heap, value, result);
    DenotesIsShows(policy, heap, value, j);
    if Shows(policy, heap, value, j) {
      UnfoldingIsUnique(policy, heap, value, result, j);
    }
  }

  // ----- where the traversal goes, and what it remembers -----

  // The i-th field of an object that is traversed by name.
  predicate HasField(node: Node, i: nat, name: string, value: Value) {
    match node
    case Dict(entries) => !SomeKeyIsNoText(entries) && i < |entries| && entries[i] == (Text(name), value)
    case NamedTuple(fields) => !SomeKeyIsNoText(fields) && i < |fields| && fields[i] == (Text(name), value)
    case DataClass(members) => i < |members| && members[i] == (name, value)
    case _ => false
  }

  // The i-th item of an object that is traversed by position.
  predicate HasItem(node: Node, i: nat, value: Value) {
    match node
    case NamedTuple(fields) => SomeKeyIsNoText(fields) && i < |fields| && fields[i].1 == value
    case Sequence(items) => i < |items| && items[i] == value
    case _ => false
  }

  // The traversal enters exactly the items, and the fields whose name is not
  // sensitive; every object but one of an unsupported type can close a cycle.
  lemma ChildrenOfObjects(policy: Policy, heap: Heap, ref: nat, i: nat, kid: Value)
    ensures Kid(policy, heap, VRef(ref), i) == Some(kid) <==>
            || HasItem(heap(ref), i, kid)
            || exists name :: HasField(heap(ref), i, name, kid) && policy.fold(name) !in policy.sensitive
    ensures IsContainer(heap, VRef(ref)) <==> !heap(ref).Opaque?
  {
    match heap(ref)
    case Dict(entries) => FieldOfEntries(heap(ref), entries, i);
    case NamedTuple(fields) => FieldOfEntries(heap(ref), fields, i);
    case DataClass(members) =>
      if i < |members| {
        assert HasField(heap(ref), i, members[i].0, members[i].1);
      }
    case _ =>
  }

  lemma FieldOfEntries(node: Node, entries: seq<(Key, Value)>, i: nat)
    requires node == Dict(entries) || node == NamedTuple(entries)
    ensures SomeKeyIsNoText(entries) <==> !AllText(entries)
    ensures AllText(entries) && i < |entries| ==> HasField(node, i, entries[i].0.name, entries[i].1)
  {
  }

  // A string is remembered exactly if it is long enough and the value of a
  // field with a sensitive name, of a dictionary, a named tuple or a data class
  // to which a path leads that enters no other such field.
  lemma RememberedFromObjects(policy: Policy, heap: Heap, args: Value, secret: string)
    requires Canonicalize(policy, heap, args).Done?
    ensures secret in Canonicalize(policy, heap, args).collected <==>
            |secret| >= 4 && exists path, ref, i, name :: RedactedAt(policy, heap, args, path, ref, i, name, secret)
  {
    hide SecretAt, RedactedAt, Canonicalize;
    CollectedExactly(policy, heap, args, secret);
    if path, i :| SecretAt(policy, heap, args, path, i, secret) {
      var ref, name := RedactedField(policy, heap, args, path, i, secret);
      assert RedactedAt(policy, heap, args, path, ref, i, name, secret);
    }
    if path, ref, i, name :| RedactedAt(policy, heap, args, path, ref, i, name, secret) {
      FieldIsRedacted(policy, heap, args, path, ref, i, name, secret);
    }
  }

  predicate RedactedAt(policy: Policy, heap: Heap, args: Value, path: seq<nat>, ref: nat, i: nat, name: string,
                       secret: string) {
    && Visit(policy, heap, args, path) == Some(VRef(ref))
    && HasField(heap(ref), i, name, VStr(secret)) && policy.fold(name) in policy.sensitive
  }

  lemma RedactedField(policy: Policy, heap: Heap, args: Value, path: seq<nat>, i: nat, secret: string)
    returns (ref: nat, name: string)
    requires SecretAt(policy, heap, args, path, i, secret)
    ensures RedactedAt(policy, heap, args, path, ref, i, name, secret) && |secret| >= 4
  {
    hide Visit;
    ref := Visit(policy, heap, args, path).value.ref;
    name := Expand(heap(ref)).fields[i].0;
  }

  lemma FieldIsRedacted(policy: Policy, heap: Heap, args: Value, path: seq<nat>, ref: nat, i: nat, name: string,
                        secret: string)
    requires RedactedAt(policy, heap, args, path, ref, i, name, secret)
    ensures |secret| >= 4 ==> SecretAt(policy, heap, args, path, i, secret)
  {
    hide Visit;
  }

  // ----- noninterference, on objects -----

  // Two objects of one kind that look the same but for what sits under
  // sensitive names. f pairs the objects of the two heaps.
  predicate SameObject(policy: Policy, f: map<nat, nat>, a: Node, b: Node) {
    match a
    case Dict(entries) =>
      b.Dict? && SameKeys(entries, b.entries)
      && (!SomeKeyIsNoText(entries) ==> SameFields(policy, f, entries, b.entries))
    case NamedTuple(fields) =>
      b.NamedTuple? && SameKeys(fields, b.fields)
      && (if SomeKeyIsNoText(fields) then forall i :: 0 <= i < |fields| ==> SameValue(f, fields[i].1, b.fields[i].1)
          else SameFields(policy, f, fields, b.fields))
    case DataClass(members) =>
      && b.DataClass? && |members| == |b.members|
      && (forall i :: 0 <= i < |members| ==>
            && members[i].0 == b.members[i].0
            && (policy.fold(members[i].0) in policy.sensitive || SameValue(f, members[i].1, b.members[i].1)))
    case Sequence(items) =>
      && b.Sequence? && |items| == |b.items|
      && (forall i :: 0 <= i < |items| ==> SameValue(f, items[i], b.items[i]))
    case Opaque(typeName) => b == Opaque(typeName)
  }

  predicate SameKeys(a: seq<(Key, Value)>, b: seq<(Key, Value)>) {
    |a| == |b| && forall i :: 0 <= i < |a| ==> a[i].0 == b[i].0
  }

  predicate SameFields(policy: Policy, f: map<nat, nat>, a: seq<(Key, Value)>, b: seq<(Key, Value)>)
    requires SameKeys(a, b) && !SomeKeyIsNoText(a)
  {
    forall i :: 0 <= i < |a| ==>
      a[i].0.Text? && (policy.fold(a[i].0.name) in policy.sensitive || SameValue(f, a[i].1, b[i].1))
  }

  // Two heaps of such objects, paired one to one.
  ghost predicate SameObjects(policy: Policy, f: map<nat, nat>, a: Heap, b: Heap) {
    && (forall r :: r in f ==> SameObject(policy, f, a(r), b(f[r])))
    && (forall r, s :: r in f && s in f && f[r] == f[s] ==> r == s)
  }

  lemma SameObjectSameShape(policy: Policy, f: map<nat, nat>, a: Node, b: Node)
    requires SameObject(policy, f, a, b)
    ensures SameShape(policy, f, Expand(a), Expand(b))
  {
    match a
    case Dict(entries) => KeysDecide(entries, b.entries);
    case NamedTuple(fields) => KeysDecide(fields, b.fields);
    case _ =>
  }

  lemma KeysDecide(a: seq<(Key, Value)>, b: seq<(Key, Value)>)
    requires SameKeys(a, b)
    ensures AllText(a) <==> AllText(b)
    ensures AllText(a) <==> !SomeKeyIsNoText(a)
  {
    if AllText(b) {
      assert forall i :: 0 <= i < |a| ==> b[i].0.Text?;
    }
  }

  // Objects that differ only under sensitive names, of whatever kind they are,
  // give the same canonical value or the same failure.
  lemma SecretsOfObjectsDoNotShow(policy: Policy, f: map<nat, nat>, h1: Heap, h2: Heap, v1: Value, v2: Value)
    requires SameObjects(policy, f, h1, h2) && SameValue(f, v1, v2)
    ensures SameResult(Canonicalize(policy, h1, v1), Canonicalize(policy, h2, v2))
  {
    hide SameObject, SameShape, Expand, Canonicalize;
    forall r | r in f
      ensures SameShape(policy, f, Expand(h1(r)), Expand(h2(f[r])))
    {
      SameObjectSameShape(policy, f, h1(r), h2(f[r]));
    }
    RedactionNoninterference(policy, f, h1, h2, v1, v2);
  }

  // ----- one object of a kind -----

  const KEYS: Policy := Policy((name: string) => name, {"api_key"})

  // A named tuple with a secret: it is shown by name, under the marker, and remembered.
  lemma NamedSecretIsRedacted(heap: Heap)
    requires heap(0) == NamedTuple([(Text("api_key"), VStr("sk-live-1"))])
    ensures Canonicalize(KEYS, heap, VRef(0)) == Done(JObj([("api_key", JStr("<REDACTED>"))]), ["sk-live-1"])
  {
    var fields := [("api_key", VStr("sk-live-1"))];
    assert Expand(heap(0)) == Named(fields);
    assert fields[..0] == [];
    assert WalkFields(KEYS, heap, fields[..0], 1, {} + {0}) == DoneFields([], []);
    assert Sensitive(KEYS, "api_key");
    assert WalkFields(KEYS, heap, fields, 1, {} + {0}) == DoneFields([("api_key", JStr(REDACTED))], ["sk-live-1"]);
  }
}
