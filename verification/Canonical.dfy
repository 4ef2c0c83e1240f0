// Redaction and canonicalization in one traversal of a heap of host objects.
module Canonical {
  import opened Wrappers
  import opened Json

  // A host value: a scalar, or a reference to an object with identity.
  datatype Value =
    | VNone | VBool(b: bool) | VInt(n: int) | VStr(s: string)
    | VFloat(finite: bool, repr: string)
    | VRef(ref: nat)

  datatype Key = Text(name: string) | NonText(n: nat)

  // Objects. Named tuples carry field names like dataclasses do, but a named
  // tuple with a name that is not a string is treated as a plain tuple.
  datatype Node =
    | Dict(entries: seq<(Key, Value)>)
    | NamedTuple(fields: seq<(Key, Value)>)
    | DataClass(members: seq<(string, Value)>)
    | Sequence(items: seq<Value>)
    | Opaque(typeName: string)

  type Heap = nat -> Node

  // Which names are sensitive: the folded name is in the set. fold stands for
  // the Unicode folding, about which nothing is assumed.
  datatype Policy = Policy(fold: string -> string, sensitive: set<string>)

  predicate Sensitive(policy: Policy, name: string) {
    policy.fold(name) in policy.sensitive
  }

  const REDACTED: string := "<REDACTED>"
  const UNSUPPORTED_MARKER: string := "<unsupported:"
  const BAD_KEYS_MARKER: string := "<unsupported:mapping-with-non-string-keys>"
  const MAX_DEPTH: nat := 64
  const MIN_SCRUBBABLE_LENGTH: nat := 4

  datatype Error = TooDeep | NonFinite | Cyclic

  // How a node expands.
  datatype Shape =
    | Named(fields: seq<(string, Value)>)
    | Positional(items: seq<Value>)
    | BadKeys
    | Unsupported(typeName: string)

  predicate AllText(entries: seq<(Key, Value)>) {
    forall i :: 0 <= i < |entries| ==> entries[i].0.Text?
  }

  function TextFields(entries: seq<(Key, Value)>): (fields: seq<(string, Value)>)
    requires AllText(entries)
    ensures |fields| == |entries|
  {
    seq(|entries|, i requires 0 <= i < |entries| => (entries[i].0.name, entries[i].1))
  }

  function Expand(node: Node): Shape {
    match node
    case Dict(entries) => if AllText(entries) then Named(TextFields(entries)) else BadKeys
    case NamedTuple(fields) =>
      if AllText(fields) then Named(TextFields(fields))
      else Positional(seq(|fields|, i requires 0 <= i < |fields| => fields[i].1))
    case DataClass(members) => Named(members)
    case Sequence(items) => Positional(items)
    case Opaque(typeName) => Unsupported(typeName)
  }

  // ----- the traversal -----

  datatype Walked = Fail(error: Error) | Done(value: Json, collected: seq<string>)
  datatype FieldsWalked = FailFields(error: Error) | DoneFields(fields: seq<(string, Json)>, collected: seq<string>)
  datatype ItemsWalked = FailItems(error: Error) | DoneItems(items: seq<Json>, collected: seq<string>)

  // The raw string remembered when a value is redacted.
  function Remember(value: Value): seq<string> {
    if value.VStr? && |value.s| >= MIN_SCRUBBABLE_LENGTH then [value.s] else []
  }

  function Left(depth: nat): nat {
    if depth > MAX_DEPTH then 0 else MAX_DEPTH + 1 - depth
  }

  function Walk(policy: Policy, heap: Heap, value: Value, depth: nat, seen: set<nat>): Walked
    decreases Left(depth), 0
  {
    if depth > MAX_DEPTH then Fail(TooDeep)
    else match value
      case VNone => Done(JNull, [])
      case VBool(b) => Done(JBool(b), [])
      case VInt(n) => Done(JNum(n), [])
      case VStr(s) => Done(JStr(s), [])
      case VFloat(finite, repr) => if finite then Done(JFloat(repr), []) else Fail(NonFinite)
      case VRef(ref) =>
        match Expand(heap(ref))
        case Unsupported(typeName) => Done(JStr(UNSUPPORTED_MARKER + typeName + ">"), [])
        case BadKeys => if ref in seen then Fail(Cyclic) else Done(JStr(BAD_KEYS_MARKER), [])
        case Named(fields) =>
          if ref in seen then Fail(Cyclic)
          else
            (match WalkFields(policy, heap, fields, depth + 1, seen + {ref})
             case FailFields(error) => Fail(error)
             case DoneFields(done, collected) => Done(JObj(done), collected))
        case Positional(items) =>
          if ref in seen then Fail(Cyclic)
          else
            (match WalkItems(policy, heap, items, depth + 1, seen + {ref})
             case FailItems(error) => Fail(error)
             case DoneItems(done, collected) => Done(JArr(done), collected))
  }

  // Fields in order; the first failure wins.
  function WalkFields(policy: Policy, heap: Heap, fields: seq<(string, Value)>, depth: nat, seen: set<nat>): FieldsWalked
    decreases Left(depth), |fields| + 1
  {
    if |fields| == 0 then DoneFields([], [])
    else
      var n := |fields| - 1;
      match WalkFields(policy, heap, fields[..n], depth, seen)
      case FailFields(error) => FailFields(error)
      case DoneFields(done, collected) =>
        var (name, value) := fields[n];
        if Sensitive(policy, name) then
          DoneFields(done + [(name, JStr(REDACTED))], collected + Remember(value))
        else
          match Walk(policy, heap, value, depth, seen)
          case Fail(error) => FailFields(error)
          case Done(j, more) => DoneFields(done + [(name, j)], collected + more)
  }

  function WalkItems(policy: Policy, heap: Heap, items: seq<Value>, depth: nat, seen: set<nat>): ItemsWalked
    decreases Left(depth), |items| + 1
  {
    if |items| == 0 then DoneItems([], [])
    else
      var n := |items| - 1;
      match WalkItems(policy, heap, items[..n], depth, seen)
      case FailItems(error) => FailItems(error)
      case DoneItems(done, collected) =>
        match Walk(policy, heap, items[n], depth, seen)
        case Fail(error) => FailItems(error)
        case Done(j, more) => DoneItems(done + [j], collected + more)
  }

  function Canonicalize(policy: Policy, heap: Heap, value: Value): Walked {
    Walk(policy, heap, value, 0, {})
  }

  // The list the traversal appends redacted strings to.
  class Collector {
    var values: seq<string>

    constructor ()
      ensures values == []
    {
      values := [];
    }

    // Replace a sensitive value, remembering it for later scrubbing.
    method Redact(value: Value) returns (j: Json)
      modifies this
      ensures j == JStr(REDACTED) && values == old(values) + Remember(value)
    {
      if value.VStr? && |value.s| >= MIN_SCRUBBABLE_LENGTH {
        values := values + [value.s];
      } else {
        assert values + [] == values;
      }
      return JStr(REDACTED);
    }

    method WalkInto(policy: Policy, heap: Heap, value: Value, depth: nat, seen: set<nat>) returns (r: Result<Json, Error>)
      modifies this
      ensures match Walk(policy, heap, value, depth, seen)
              case Fail(error) => r == Err(error)
              case Done(j, collected) => r == Ok(j) && values == old(values) + collected
      decreases Left(depth), 0
    {
      assert values == values + [];
      if depth > MAX_DEPTH {
        return Err(TooDeep);
      }
      match value
      case VNone => return Ok(JNull);
      case VBool(b) => return Ok(JBool(b));
      case VInt(n) => return Ok(JNum(n));
      case VStr(s) => return Ok(JStr(s));
      case VFloat(finite, repr) =>
        if !finite {
          return Err(NonFinite);
        }
        return Ok(JFloat(repr));
      case VRef(ref) =>
        var shape := Expand(heap(ref));
        if shape.Unsupported? {
          return Ok(JStr(UNSUPPORTED_MARKER + shape.typeName + ">"));
        }
        if ref in seen {
          return Err(Cyclic);
        }
        if shape.BadKeys? {
          return Ok(JStr(BAD_KEYS_MARKER));
        }
        if shape.Named? {
          var fields := WalkFieldsInto(policy, heap, shape.fields, depth + 1, seen + {ref});
          return if fields.Ok? then Ok(JObj(fields.value)) else Err(fields.error);
        }
        var items := WalkItemsInto(policy, heap, shape.items, depth + 1, seen + {ref});
        return if items.Ok? then Ok(JArr(items.value)) else Err(items.error);
    }

    method WalkFieldsInto(policy: Policy, heap: Heap, fields: seq<(string, Value)>, depth: nat, seen: set<nat>)
      returns (r: Result<seq<(string, Json)>, Error>)
      modifies this
      ensures match WalkFields(policy, heap, fields, depth, seen)
              case FailFields(error) => r == Err(error)
              case DoneFields(done, collected) => r == Ok(done) && values == old(values) + collected
      decreases Left(depth), |fields| + 1
    {
      hide Walk;
      var done: seq<(string, Json)> := [];
      for i := 0 to |fields|
        invariant var w := WalkFields(policy, heap, fields[..i], depth, seen);
                  w.DoneFields? && done == w.fields && values == old(values) + w.collected
      {
        assert fields[..i + 1][..i] == fields[..i];
        FieldsPrefix(policy, heap, fields, depth, seen, i + 1);
        var j: Json;
        if Sensitive(policy, fields[i].0) {
          j := Redact(fields[i].1);
        } else {
          var walked := WalkInto(policy, heap, fields[i].1, depth, seen);
          if walked.Err? {
            return Err(walked.error);
          }
          j := walked.value;
        }
        done := done + [(fields[i].0, j)];
      }
      assert fields[..|fields|] == fields;
      return Ok(done);
    }

    method WalkItemsInto(policy: Policy, heap: Heap, items: seq<Value>, depth: nat, seen: set<nat>)
      returns (r: Result<seq<Json>, Error>)
      modifies this
      ensures match WalkItems(policy, heap, items, depth, seen)
              case FailItems(error) => r == Err(error)
              case DoneItems(done, collected) => r == Ok(done) && values == old(values) + collected
      decreases Left(depth), |items| + 1
    {
      hide Walk;
      var done: seq<Json> := [];
      for i := 0 to |items|
        invariant var w := WalkItems(policy, heap, items[..i], depth, seen);
                  w.DoneItems? && done == w.items && values == old(values) + w.collected
      {
        assert items[..i + 1][..i] == items[..i];
        ItemsPrefix(policy, heap, items, depth, seen, i + 1);
        var walked := WalkInto(policy, heap, items[i], depth, seen);
        if walked.Err? {
          return Err(walked.error);
        }
        done := done + [walked.value];
      }
      assert items[..|items|] == items;
      return Ok(done);
    }
  }

  // A failure among the first fields is the failure of all of them.
  lemma {:induction false} FieldsPrefix(policy: Policy, heap: Heap, fields: seq<(string, Value)>, depth: nat,
                                        seen: set<nat>, n: nat)
    requires n <= |fields|
    ensures WalkFields(policy, heap, fields[..n], depth, seen).FailFields? ==>
              WalkFields(policy, heap, fields, depth, seen) == WalkFields(policy, heap, fields[..n], depth, seen)
  {
    hide Walk;
    if n == |fields| {
      assert fields[..n] == fields;
    } else {
      var m := |fields| - 1;
      assert fields[..m][..n] == fields[..n];
      FieldsPrefix(policy, heap, fields[..m], depth, seen, n);
    }
  }

  lemma {:induction false} ItemsPrefix(policy: Policy, heap: Heap, items: seq<Value>, depth: nat, seen: set<nat>, n: nat)
    requires n <= |items|
    ensures WalkItems(policy, heap, items[..n], depth, seen).FailItems? ==>
              WalkItems(policy, heap, items, depth, seen) == WalkItems(policy, heap, items[..n], depth, seen)
  {
    hide Walk;
    if n == |items| {
      assert items[..n] == items;
    } else {
      var m := |items| - 1;
      assert items[..m][..n] == items[..n];
      ItemsPrefix(policy, heap, items[..m], depth, seen, n);
    }
  }
}
