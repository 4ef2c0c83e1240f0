// What loading, creating and rotating leave in an evidence home, told from the
// files before it and from what the file system did.
module IdentityLaws {
  import opened Wrappers
  import opened Evidence
  import opened Protocol
  import opened Identity

  // ----- loading and creating -----

  // A load takes the existing private key, and a new one only where there is none.
  predicate Loads(home: Home, io: IdentityIo, key: Key) {
    && (if home.privateKey.Absent? then io.generates && io.privateFile.Fine? && key == io.newKey
        else io.loads && home.privateKey == Holds(key))
    && (home.privateKey.Absent? || home.publicKey.Absent? ==> io.publicFile.Fine?)
  }

  lemma LoadExactly(home: Home, io: IdentityIo)
    ensures var (_, loaded) := AfterLoad(home, io);
            forall key :: loaded == Some(key) <==> Loads(home, io, key) && (key in home.trusted || io.registration.Fine?)
    ensures var (after, loaded) := AfterLoad(home, io);
            loaded.Some? ==>
              var published := home.privateKey.Absent? || home.publicKey.Absent?;
              after == Home(Holds(loaded.value), if published then Holds(loaded.value) else home.publicKey,
                            home.trusted + {loaded.value}, home.broken)
    ensures var (after, loaded) := AfterLoad(home, io);
            after.broken != home.broken ==>
              loaded.None? && exists key ::
                Loads(home, io, key) && key !in home.trusted && io.registration.Torn?
                && after.trusted == home.trusted + {key} && after.broken == home.broken + {key}
    ensures var (after, _) := AfterLoad(home, io);
            after.privateKey.Damaged? <==>
            home.privateKey.Damaged? || (home.privateKey.Absent? && io.generates && io.privateFile.Torn?)
  {
    var (after, _) := AfterLoad(home, io);
    var key := if home.privateKey.Holds? then home.privateKey.key else io.newKey;
    assert after.broken != home.broken ==> Loads(home, io, key);
    assert key in home.trusted ==> home.trusted + {key} == home.trusted;
  }

  // ----- rotation -----

  // The outgoing keys that rotation can read, and those whose file it tears.
  function Outgoing(home: Home, io: IdentityIo): set<Key> {
    (if home.publicKey.Holds? && !io.oldPublic.Untouched? then {home.publicKey.key} else {})
    + (if home.privateKey.Holds? && !io.oldPrivate.Untouched? then {home.privateKey.key} else {})
  }

  predicate TornOut(home: Home, io: IdentityIo, key: Key) {
    && key !in home.trusted
    && if home.publicKey == Holds(key) && !io.oldPublic.Untouched? then io.oldPublic.Torn?
       else home.privateKey == Holds(key) && io.oldPrivate.Torn?
  }

  // Rotation is complete exactly when both files are written and the new key is
  // registered. Whatever fails, the outgoing keys it could read are registered.
  lemma RotationExactly(home: Home, io: IdentityIo)
    ensures var (_, rotated) := AfterRotation(home, io);
            var written := io.generates && io.privateFile.Fine? && io.publicFile.Fine?;
            var known := home.trusted + Outgoing(home, io);
            rotated == if written && (io.newKey in known || io.registration.Fine?) then Some(io.newKey) else None
    ensures var (after, _) := AfterRotation(home, io);
            var written := io.generates && io.privateFile.Fine? && io.publicFile.Fine?;
            var known := home.trusted + Outgoing(home, io);
            && after.trusted == known + (if written && !io.registration.Untouched? then {io.newKey} else {})
            && (forall key :: key in after.broken <==>
                  key in home.broken || TornOut(home, io, key)
                  || (key == io.newKey && key !in known && written && io.registration.Torn?))
    ensures var (after, _) := AfterRotation(home, io);
            && after.privateKey == (if io.generates then Written(home.privateKey, io.newKey, io.privateFile)
                                    else home.privateKey)
            && after.publicKey == (if io.generates && io.privateFile.Fine?
                                   then Written(home.publicKey, io.newKey, io.publicFile) else home.publicKey)
  {
    hide Written, Created;
    OutgoingRegistered(home, io);
    var once := RegisterOld(home, home.publicKey, ChoiceOf(io.oldPublic));
    CreatedExactly(RegisterOld(once, home.privateKey, ChoiceOf(io.oldPrivate)), io);
  }

  lemma OutgoingRegistered(home: Home, io: IdentityIo)
    ensures var once := RegisterOld(home, home.publicKey, ChoiceOf(io.oldPublic));
            var twice := RegisterOld(once, home.privateKey, ChoiceOf(io.oldPrivate));
            && once.privateKey == twice.privateKey == home.privateKey && twice.publicKey == home.publicKey
            && twice.trusted == home.trusted + Outgoing(home, io)
            && forall key :: key in twice.broken <==> key in home.broken || TornOut(home, io, key)
  {
  }

  lemma CreatedExactly(home: Home, io: IdentityIo)
    ensures var (after, key) := Created(home, io);
            var written := io.generates && io.privateFile.Fine? && io.publicFile.Fine?;
            && key == (if written && (io.newKey in home.trusted || io.registration.Fine?) then Some(io.newKey) else None)
            && after.trusted == home.trusted + (if written && !io.registration.Untouched? then {io.newKey} else {})
            && (forall k :: k in after.broken <==>
                  k in home.broken || (k == io.newKey && k !in home.trusted && written && io.registration.Torn?))
            && after.privateKey == (if io.generates then Written(home.privateKey, io.newKey, io.privateFile)
                                    else home.privateKey)
            && after.publicKey == (if io.generates && io.privateFile.Fine?
                                   then Written(home.publicKey, io.newKey, io.publicFile) else home.publicKey)
  {
    assert io.newKey in home.trusted ==> home.trusted + {io.newKey} == home.trusted;
  }

  // After a rotation that tore no key file, verification trusts by default what
  // it trusted before, the outgoing keys and the new one.
  lemma RotatedKeysVerify(home: Home, io: IdentityIo)
    requires home.broken == {}
    requires forall key :: !TornOut(home, io, key)
    ensures var (after, rotated) := AfterRotation(home, io);
            rotated.Some? ==> DefaultKeys(after) == Some(home.trusted + Outgoing(home, io) + {rotated.value})
  {
    hide AfterRotation, Outgoing, TornOut;
    RotationExactly(home, io);
    var (after, rotated) := AfterRotation(home, io);
    if rotated.Some? {
      assert forall key :: key !in after.broken;
      assert after.broken == {};
      assert io.newKey in home.trusted + Outgoing(home, io) ==>
          home.trusted + Outgoing(home, io) + {io.newKey} == home.trusted + Outgoing(home, io);
      assert after.trusted == home.trusted + Outgoing(home, io) + {io.newKey};
      assert io.newKey in after.trusted;
    }
  }
}
