// Which raw strings the traversal remembers and which it redacts and forgets,
// and which of them can reach an error text.
module Secrets {
  import opened Wrappers
  import opened Json
  import opened Canonical
  import opened CanonicalLaws
  import opened Redaction
  import opened Scrub

  // A string of scrubbable length under a sensitive name, where a path of
  // children leads without entering any redacted field.
  predicate SecretAt(policy: Policy, heap: Heap, value: Value, path: seq<nat>, i: nat, secret: string) {
    var end := Visit(policy, heap, value, path);
    && end.Some? && end.value.VRef?
    && match Expand(heap(end.value.ref))
       case Named(fields) => SecretField(policy, fields, i, secret)
       case _ => false
  }

  predicate SecretField(policy: Policy, fields: seq<(string, Value)>, i: nat, secret: string) {
    && i < |fields| && Sensitive(policy, fields[i].0)
    && fields[i].1 == VStr(secret) && |secret| >= MIN_SCRUBBABLE_LENGTH
  }

  // A string collected from a field's value.
  predicate FromField(policy: Policy, heap: Heap, fields: seq<(string, Value)>, i: nat, depth: nat, seen: set<nat>,
                      secret: string) {
    && i < |fields| && !Sensitive(policy, fields[i].0)
    && Walk(policy, heap, fields[i].1, depth, seen).Done?
    && secret in Walk(policy, heap, fields[i].1, depth, seen).collected
  }

  predicate FieldGives(policy: Policy, heap: Heap, fields: seq<(string, Value)>, i: nat, depth: nat, seen: set<nat>,
                       secret: string) {
    SecretField(policy, fields, i, secret) || FromField(policy, heap, fields, i, depth, seen, secret)
  }

  lemma {:induction false} FieldsCollect(policy: Policy, heap: Heap, fields: seq<(string, Value)>, depth: nat,
                                         seen: set<nat>, secret: string)
    requires WalkFields(policy, heap, fields, depth, seen).DoneFields?
    ensures secret in WalkFields(policy, heap, fields, depth, seen).collected <==>
              exists i: nat :: i < |fields| && FieldGives(policy, heap, fields, i, depth, seen, secret)
  {
    hide Walk, Sensitive;
    if |fields| > 0 {
      var n := |fields| - 1;
      var init := fields[..n];
      FieldsCollect(policy, heap, init, depth, seen, secret);
      assert forall i: nat :: i < n ==> init[i] == fields[i];
      assert forall i: nat :: i < n ==>
        (FieldGives(policy, heap, fields, i, depth, seen, secret)
         <==> FieldGives(policy, heap, init, i, depth, seen, secret));
      LastFieldCollects(policy, heap, fields, depth, seen, secret);
    }
  }

  lemma LastFieldCollects(policy: Policy, heap: Heap, fields: seq<(string, Value)>, depth: nat, seen: set<nat>,
                          secret: string)
    requires |fields| > 0 && WalkFields(policy, heap, fields, depth, seen).DoneFields?
    ensures var n := |fields| - 1;
            var before := WalkFields(policy, heap, fields[..n], depth, seen);
            && before.DoneFields?
            && (secret in WalkFields(policy, heap, fields, depth, seen).collected <==>
                  secret in before.collected || FieldGives(policy, heap, fields, n, depth, seen, secret))
  {
    hide Walk, Sensitive;
  }

  predicate FromItem(policy: Policy, heap: Heap, items: seq<Value>, i: nat, depth: nat, seen: set<nat>, secret: string) {
    && i < |items| && Walk(policy, heap, items[i], depth, seen).Done?
    && secret in Walk(policy, heap, items[i], depth, seen).collected
  }

  lemma {:induction false} ItemsCollect(policy: Policy, heap: Heap, items: seq<Value>, depth: nat, seen: set<nat>,
                                        secret: string)
    requires WalkItems(policy, heap, items, depth, seen).DoneItems?
    ensures secret in WalkItems(policy, heap, items, depth, seen).collected <==>
              exists i: nat :: i < |items| && FromItem(policy, heap, items, i, depth, seen, secret)
  {
    hide Walk;
    if |items| > 0 {
      var n := |items| - 1;
      var init := items[..n];
      ItemsCollect(policy, heap, init, depth, seen, secret);
      assert forall i: nat :: i < n ==>
        (FromItem(policy, heap, items, i, depth, seen, secret) <==> FromItem(policy, heap, init, i, depth, seen, secret));
      assert secret in WalkItems(policy, heap, items, depth, seen).collected <==>
             secret in WalkItems(policy, heap, init, depth, seen).collected
             || FromItem(policy, heap, items, n, depth, seen, secret);
    }
  }

  lemma {:induction false} SecretIsCollected(policy: Policy, heap: Heap, value: Value, depth: nat, seen: set<nat>,
                                             path: seq<nat>, i: nat, secret: string)
    requires Walk(policy, heap, value, depth, seen).Done? && SecretAt(policy, heap, value, path, i, secret)
    ensures secret in Walk(policy, heap, value, depth, seen).collected
    decreases |path|
  {
    hide Sensitive, WalkFields, WalkItems, SecretField;
    var inside := seen + {value.ref};
    if |path| == 0 {
      var fields := Expand(heap(value.ref)).fields;
      FieldInRange(policy, fields, i, secret);
      assert FieldGives(policy, heap, fields, i, depth + 1, inside, secret);
      FieldsCollect(policy, heap, fields, depth + 1, inside, secret);
    } else {
      var k, kid := path[0], Kid(policy, heap, value, path[0]).value;
      match Expand(heap(value.ref))
      case Named(fields) =>
        FieldsWalkedEach(policy, heap, fields, depth + 1, inside);
        SecretIsCollected(policy, heap, kid, depth + 1, inside, path[1..], i, secret);
        assert FieldGives(policy, heap, fields, k, depth + 1, inside, secret);
        FieldsCollect(policy, heap, fields, depth + 1, inside, secret);
      case Positional(items) =>
        ItemsWalkedEach(policy, heap, items, depth + 1, inside);
        SecretIsCollected(policy, heap, kid, depth + 1, inside, path[1..], i, secret);
        assert FromItem(policy, heap, items, k, depth + 1, inside, secret);
        ItemsCollect(policy, heap, items, depth + 1, inside, secret);
    }
  }

  lemma FieldInRange(policy: Policy, fields: seq<(string, Value)>, i: nat, secret: string)
    requires SecretField(policy, fields, i, secret)
    ensures i < |fields|
  {
  }

  lemma {:induction false} CollectedIsSecret(policy: Policy, heap: Heap, value: Value, depth: nat, seen: set<nat>,
                                             secret: string)
    returns (path: seq<nat>, i: nat)
    requires Walk(policy, heap, value, depth, seen).Done?
    requires secret in Walk(policy, heap, value, depth, seen).collected
    ensures SecretAt(policy, heap, value, path, i, secret)
    decreases Left(depth)
  {
    hide Sensitive, WalkFields, WalkItems;
    var inside := seen + {value.ref};
    match Expand(heap(value.ref))
    case Named(fields) =>
      FieldsCollect(policy, heap, fields, depth + 1, inside, secret);
      var k: nat :| k < |fields| && FieldGives(policy, heap, fields, k, depth + 1, inside, secret);
      if SecretField(policy, fields, k, secret) {
        path, i := [], k;
      } else {
        var rest, j := CollectedIsSecret(policy, heap, fields[k].1, depth + 1, inside, secret);
        path, i := [k] + rest, j;
        assert path[1..] == rest;
      }
    case Positional(items) =>
      ItemsCollect(policy, heap, items, depth + 1, inside, secret);
      var k: nat :| k < |items| && FromItem(policy, heap, items, k, depth + 1, inside, secret);
      var rest, j := CollectedIsSecret(policy, heap, items[k], depth + 1, inside, secret);
      path, i := [k] + rest, j;
      assert path[1..] == rest;
  }

  // The remembered strings are exactly the secrets the traversal redacted.
  lemma CollectedExactly(policy: Policy, heap: Heap, value: Value, secret: string)
    requires Canonicalize(policy, heap, value).Done?
    ensures secret in Canonicalize(policy, heap, value).collected <==>
              exists path, i :: SecretAt(policy, heap, value, path, i, secret)
  {
    if secret in Canonicalize(policy, heap, value).collected {
      var path, i := CollectedIsSecret(policy, heap, value, 0, {}, secret);
    }
    if path, i :| SecretAt(policy, heap, value, path, i, secret) {
      SecretIsCollected(policy, heap, value, 0, {}, path, i, secret);
    }
  }

  function Remembered(policy: Policy, heap: Heap, args: Value): set<string>
    requires Canonicalize(policy, heap, args).Done?
  {
    set v | v in Canonicalize(policy, heap, args).collected
  }

  // From argument to error text: a string of scrubbable length that is directly
  // the value of a redacted field, anywhere in the arguments, occurs in no
  // recorded error summary if it is safe to scrub at the length limit.
  lemma RedactedSecretsReachNoErrorText(policy: Policy, heap: Heap, args: Value, path: seq<nat>, i: nat, secret: string,
                                        text: string, order: seq<string>, limit: nat)
    requires Canonicalize(policy, heap, args).Done? && SecretAt(policy, heap, args, path, i, secret)
    requires LongestFirst(order, Remembered(policy, heap, args))
    requires SafeAt(secret, limit)
    ensures !Occurs(secret, ScrubText(text, order, limit))
  {
    hide SecretAt, SafeAt, Occurs;
    CollectedExactly(policy, heap, args, secret);
    SafeAtLimitIsScrubbed(secret, text, order, Remembered(policy, heap, args), limit);
  }

  // ----- what is redacted and forgotten -----

  // A string inside what the traversal redacts: a path that enters no redacted
  // field leads to a field with a sensitive name, and from its value an inner
  // path, whatever names it meets, to the string.
  predicate HiddenAt(policy: Policy, heap: Heap, value: Value, path: seq<nat>, i: nat, inner: seq<nat>, secret: string) {
    var end := Visit(policy, heap, value, path);
    && end.Some? && end.value.VRef?
    && match Expand(heap(end.value.ref))
       case Named(fields) =>
         && i < |fields| && Sensitive(policy, fields[i].0)
         && Visit(policy.(sensitive := {}), heap, fields[i].1, inner) == Some(VStr(secret))
       case _ => false
  }

  // Of all the strings that are redacted, exactly those are remembered that are
  // the value of a redacted field themselves and long enough. A container under
  // a sensitive name hides its strings from the record, and from the scrubber.
  lemma RememberedExactly(policy: Policy, heap: Heap, args: Value, secret: string)
    requires Canonicalize(policy, heap, args).Done?
    ensures secret in Remembered(policy, heap, args) <==>
            |secret| >= MIN_SCRUBBABLE_LENGTH && exists path, i :: HiddenAt(policy, heap, args, path, i, [], secret)
  {
    hide HiddenAt, SecretAt, Canonicalize;
    CollectedExactly(policy, heap, args, secret);
    if path, i :| SecretAt(policy, heap, args, path, i, secret) {
      DirectlyHidden(policy, heap, args, path, i, secret);
    }
    if path, i :| HiddenAt(policy, heap, args, path, i, [], secret) {
      DirectlyHidden(policy, heap, args, path, i, secret);
    }
  }

  lemma DirectlyHidden(policy: Policy, heap: Heap, value: Value, path: seq<nat>, i: nat, secret: string)
    ensures SecretAt(policy, heap, value, path, i, secret) <==>
            HiddenAt(policy, heap, value, path, i, [], secret) && |secret| >= MIN_SCRUBBABLE_LENGTH
  {
  }

  // An error text that quotes a string in which no remembered one occurs keeps it.
  lemma ForgottenStringSurvives(policy: Policy, heap: Heap, args: Value, secret: string, order: seq<string>, limit: nat)
    requires Canonicalize(policy, heap, args).Done? && LongestFirst(order, Remembered(policy, heap, args))
    requires forall v :: v in Remembered(policy, heap, args) ==> !Occurs(v, secret)
    requires |secret| <= limit
    ensures ScrubText(secret, order, limit) == secret
  {
    hide Canonicalize, Occurs;
    NothingReplaced(secret, order);
  }

  lemma {:induction false} NothingReplaced(text: string, order: seq<string>)
    requires "" !in order && forall v :: v in order ==> !Occurs(v, text)
    ensures ReplaceAll(text, order) == text
  {
    hide Occurs;
    if |order| > 0 {
      NothingReplaced(text, order[..|order| - 1]);
      ReplaceNothing(text, order[|order| - 1], REDACTED);
    }
  }

  const NAMES: Policy := Policy((name: string) => name, {"credentials", "password"})

  // {"credentials": {"password": "hunter22"}}
  function Credentials(ref: nat): Node {
    if ref == 0 then Dict([(Text("credentials"), VRef(1))]) else Dict([(Text("password"), VStr("hunter22"))])
  }

  // The password is redacted with the dictionary that holds it, is long enough
  // to be scrubbed, and is not remembered: an error text that quotes it keeps it.
  lemma NestedSecretSurvives(order: seq<string>)
    ensures Canonicalize(NAMES, Credentials, VRef(0)) == Done(JObj([("credentials", JStr(REDACTED))]), [])
    ensures HiddenAt(NAMES, Credentials, VRef(0), [], 0, [0], "hunter22") && |"hunter22"| >= MIN_SCRUBBABLE_LENGTH
    ensures LongestFirst(order, Remembered(NAMES, Credentials, VRef(0))) ==>
              Occurs("hunter22", ScrubText("no access with hunter22", order, 300))
  {
    ArgumentsRedacted();
    PasswordIsHidden();
    hide Canonicalize, HiddenAt, ReplaceAll;
    if LongestFirst(order, Remembered(NAMES, Credentials, VRef(0))) {
      assert Remembered(NAMES, Credentials, VRef(0)) == {};
      NothingReplaced("no access with hunter22", order);
      assert At("hunter22", "no access with hunter22", 15);
    }
  }

  lemma ArgumentsRedacted()
    ensures Canonicalize(NAMES, Credentials, VRef(0)) == Done(JObj([("credentials", JStr(REDACTED))]), [])
  {
    var fields := [("credentials", VRef(1))];
    assert Expand(Credentials(0)) == Named(fields);
    assert fields[..0] == [];
    assert WalkFields(NAMES, Credentials, fields[..0], 1, {} + {0}) == DoneFields([], []);
    assert Sensitive(NAMES, "credentials");
    assert WalkFields(NAMES, Credentials, fields, 1, {} + {0}) == DoneFields([("credentials", JStr(REDACTED))], []);
  }

  lemma PasswordIsHidden()
    ensures HiddenAt(NAMES, Credentials, VRef(0), [], 0, [0], "hunter22")
  {
    assert Expand(Credentials(0)) == Named([("credentials", VRef(1))]);
    assert Expand(Credentials(1)) == Named([("password", VStr("hunter22"))]);
  }

  // Every remembered string keeps to the lower bound on its length.
  lemma RememberedAreLongEnough(policy: Policy, heap: Heap, args: Value)
    requires Canonicalize(policy, heap, args).Done?
    ensures LongEnough(Remembered(policy, heap, args), MIN_SCRUBBABLE_LENGTH)
  {
    hide SecretAt;
    forall v | v in Remembered(policy, heap, args)
      ensures |v| >= MIN_SCRUBBABLE_LENGTH
    {
      CollectedExactly(policy, heap, args, v);
      var path, i :| SecretAt(policy, heap, args, path, i, v);
      SecretIsLong(policy, heap, args, path, i, v);
    }
  }

  lemma SecretIsLong(policy: Policy, heap: Heap, value: Value, path: seq<nat>, i: nat, secret: string)
    requires SecretAt(policy, heap, value, path, i, secret)
    ensures |secret| >= MIN_SCRUBBABLE_LENGTH
  {
  }
}
