// The evidence home: the two key files of the signing identity and the
// directory of trusted public keys, changed one file at a time and in place.
module Identity {
  import opened Wrappers
  import opened Evidence
  import opened Protocol

  // What happens to one file that is written: all is well, nothing was
  // touched, or the file was opened and its content lost.
  datatype FileIo = Fine | Untouched | Torn

  // What the file system does to the steps of one identity operation.
  datatype IdentityIo = IdentityIo(
    oldPublic: FileIo, oldPrivate: FileIo, loads: bool, generates: bool, newKey: Key,
    privateFile: FileIo, publicFile: FileIo, registration: FileIo)

  // The same as a choice of the step system.
  function ChoiceOf(io: FileIo): Choice {
    match io
    case Fine => Go
    case Untouched => Fail
    case Torn => Tear
  }

  // A file after it was written with a key.
  function Written(file: KeyFile, key: Key, io: FileIo): KeyFile {
    match io
    case Fine => Holds(key)
    case Untouched => file
    case Torn => Damaged
  }

  // The files after load_or_create, and the key it returned.
  function AfterLoad(home: Home, io: IdentityIo): (Home, Option<Key>) {
    match home.privateKey
    case Absent => Created(home, io)
    case Damaged => (home, None)
    case Holds(key) => if io.loads then Published(home, key, home.publicKey.Absent?, io) else (home, None)
  }

  function Created(home: Home, io: IdentityIo): (Home, Option<Key>) {
    if !io.generates then (home, None)
    else
      var written := home.(privateKey := Written(home.privateKey, io.newKey, io.privateFile));
      if io.privateFile.Fine? then Published(written, io.newKey, true, io) else (written, None)
  }

  function Published(home: Home, key: Key, write: bool, io: IdentityIo): (Home, Option<Key>) {
    if !write then Registered(home, key, io.registration)
    else
      var written := home.(publicKey := Written(home.publicKey, key, io.publicFile));
      if io.publicFile.Fine? then Registered(written, key, io.registration) else (written, None)
  }

  // A registered key is never written again, whatever its file holds.
  function Registered(home: Home, key: Key, io: FileIo): (Home, Option<Key>) {
    if key in home.trusted then (home, Some(key))
    else if io.Untouched? then (home, None)
    else (Register(home, key, io.Torn?), if io.Torn? then None else Some(key))
  }

  // The outgoing keys that rotation can read are registered first.
  function AfterRotation(home: Home, io: IdentityIo): (Home, Option<Key>) {
    var once := RegisterOld(home, home.publicKey, ChoiceOf(io.oldPublic));
    Created(RegisterOld(once, home.privateKey, ChoiceOf(io.oldPrivate)), io)
  }

  // load_trusted_public_keys: every file in the directory must be readable; a
  // home without any falls back to its single public key. None is an error.
  function DefaultKeys(home: Home): Option<set<Key>> {
    if home.broken != {} then None
    else if home.trusted != {} then Some(home.trusted)
    else match home.publicKey
      case Absent => Some({})
      case Damaged => None
      case Holds(key) => Some({key})
  }

  class EvidenceHome {
    var privateKey: KeyFile
    var publicKey: KeyFile
    var trusted: set<Key>
    var broken: set<Key>

    constructor ()
      ensures Contents() == Home(Absent, Absent, {}, {})
    {
      privateKey, publicKey, trusted, broken := Absent, Absent, {}, {};
    }

    function Contents(): Home
      reads this
    {
      Home(privateKey, publicKey, trusted, broken)
    }

    // Idempotent: an existing file is taken for a registration.
    method RegisterPublicKey(key: Key, io: FileIo) returns (ok: bool)
      modifies this`trusted, this`broken
      ensures Contents() == Registered(old(Contents()), key, io).0
      ensures ok <==> Registered(old(Contents()), key, io).1.Some?
    {
      if key in trusted {
        return true;
      }
      if io.Untouched? {
        return false;
      }
      trusted := trusted + {key};
      if io.Torn? {
        broken := broken + {key};
      }
      ok := io.Fine?;
    }

    method WritePrivateKey(key: Key, io: FileIo) returns (ok: bool)
      modifies this`privateKey
      ensures ok == io.Fine?
      ensures privateKey == if io.Fine? then Holds(key) else if io.Torn? then Damaged else old(privateKey)
    {
      if !io.Untouched? {
        privateKey := Damaged;
      }
      if io.Fine? {
        privateKey := Holds(key);
      }
      ok := io.Fine?;
    }

    method WritePublicKey(key: Key, io: FileIo) returns (ok: bool)
      modifies this`publicKey
      ensures ok == io.Fine?
      ensures publicKey == if io.Fine? then Holds(key) else if io.Torn? then Damaged else old(publicKey)
    {
      if !io.Untouched? {
        publicKey := Damaged;
      }
      if io.Fine? {
        publicKey := Holds(key);
      }
      ok := io.Fine?;
    }

    method LoadOrCreate(io: IdentityIo) returns (key: Option<Key>)
      modifies this
      ensures (Contents(), key) == AfterLoad(old(Contents()), io)
    {
      var signing: Key;
      if !privateKey.Absent? {
        if privateKey.Damaged? || !io.loads {
          return None;
        }
        signing := privateKey.key;
      } else {
        if !io.generates {
          return None;
        }
        signing := io.newKey;
        var privately := WritePrivateKey(signing, io.privateFile);
        if !privately {
          return None;
        }
        var publicly := WritePublicKey(signing, io.publicFile);
        if !publicly {
          return None;
        }
      }
      if publicKey.Absent? {
        var publicly := WritePublicKey(signing, io.publicFile);
        if !publicly {
          return None;
        }
      }
      var ok := RegisterPublicKey(signing, io.registration);
      key := if ok then Some(signing) else None;
    }

    // A key file that cannot be read, or whose key cannot be registered, does not
    // block a rotation.
    method RegisterOutgoing(file: KeyFile, io: FileIo)
      modifies this`trusted, this`broken
      ensures Contents() == RegisterOld(old(Contents()), file, ChoiceOf(io))
    {
      if file.Holds? && !io.Untouched? {
        var _ := RegisterPublicKey(file.key, io);
      }
    }

    method RotateKey(io: IdentityIo) returns (key: Option<Key>)
      modifies this
      ensures (Contents(), key) == AfterRotation(old(Contents()), io)
    {
      RegisterOutgoing(publicKey, io.oldPublic);
      RegisterOutgoing(privateKey, io.oldPrivate);
      if !io.generates {
        return None;
      }
      var privately := WritePrivateKey(io.newKey, io.privateFile);
      if !privately {
        return None;
      }
      var publicly := WritePublicKey(io.newKey, io.publicFile);
      if !publicly {
        return None;
      }
      var ok := RegisterPublicKey(io.newKey, io.registration);
      key := if ok then Some(io.newKey) else None;
    }

    // The keys verification uses by default, or an error.
    method LoadTrustedPublicKeys() returns (keys: Option<set<Key>>)
      ensures keys == DefaultKeys(Contents())
      ensures keys.None? <==> broken != {} || (trusted == {} && publicKey == Damaged)
      ensures keys.Some? ==>
                forall key :: key in keys.value <==> key in trusted || (trusted == {} && publicKey == Holds(key))
    {
      if broken != {} {
        return None;
      }
      if trusted != {} {
        return Some(trusted);
      }
      match publicKey
      case Absent => return Some({});
      case Damaged => return None;
      case Holds(key) => return Some({key});
    }
  }

  // Neither operation takes trust away; a returned key is registered and is the
  // current one; rotation keeps what it could read of the outgoing key.
  lemma TrustNeverShrinks(home: Home, io: IdentityIo)
    ensures var (after, key) := AfterLoad(home, io);
            && home.trusted <= after.trusted && home.broken <= after.broken
            && (key.Some? ==> key.value in after.trusted && after.privateKey == Holds(key.value))
            && (home.privateKey.Holds? ==> after.privateKey == home.privateKey)
    ensures var (after, key) := AfterRotation(home, io);
            && home.trusted <= after.trusted && home.broken <= after.broken
            && (key.Some? ==> key.value in after.trusted && after.privateKey == after.publicKey == Holds(key.value))
            && (!io.oldPrivate.Untouched? && home.privateKey.Holds? ==> home.privateKey.key in after.trusted)
            && (!io.oldPublic.Untouched? && home.publicKey.Holds? ==> home.publicKey.key in after.trusted)
  {
    hide Created, Register;
    CreationKeepsTrust(home, io);
    var once := RegisterOld(home, home.publicKey, ChoiceOf(io.oldPublic));
    var twice := RegisterOld(once, home.privateKey, ChoiceOf(io.oldPrivate));
    RegistersOld(home, home.publicKey, io.oldPublic);
    RegistersOld(once, home.privateKey, io.oldPrivate);
    CreationKeepsTrust(twice, io);
  }

  lemma RegistersOld(home: Home, file: KeyFile, io: FileIo)
    ensures var after := RegisterOld(home, file, ChoiceOf(io));
            && home.trusted <= after.trusted && home.broken <= after.broken
            && after.privateKey == home.privateKey && after.publicKey == home.publicKey
            && (file.Holds? && !io.Untouched? ==> file.key in after.trusted)
  {
  }

  lemma CreationKeepsTrust(home: Home, io: IdentityIo)
    ensures var (after, key) := Created(home, io);
            && home.trusted <= after.trusted && home.broken <= after.broken
            && (key.Some? ==> key.value in after.trusted && after.privateKey == after.publicKey == Holds(key.value))
    ensures forall key, write :: Published(home, key, write, io).1.Some? ==>
              key in Published(home, key, write, io).0.trusted && Published(home, key, write, io).1 == Some(key)
    ensures forall key, write ::
              home.trusted <= Published(home, key, write, io).0.trusted
              && home.broken <= Published(home, key, write, io).0.broken
              && Published(home, key, write, io).0.privateKey == home.privateKey
  {
  }

  // ----- a torn registration -----

  // A torn registration is never repaired, in whatever home: no operation takes
  // the key off the list or makes its file readable again, a load of the signing
  // key returns it as if it were registered, and the default keys stay unreadable.
  lemma TornHomeStays(home: Home, key: Key, io: IdentityIo)
    requires key in home.trusted && key in home.broken
    ensures var (after, loaded) := AfterLoad(home, io);
            && key in after.trusted && key in after.broken && DefaultKeys(after).None?
            && (home.privateKey == Holds(key) && io.loads && (home.publicKey.Absent? ==> io.publicFile.Fine?) ==>
                  loaded == Some(key))
    ensures var (after, _) := AfterRotation(home, io);
            key in after.trusted && key in after.broken && DefaultKeys(after).None?
  {
    hide AfterRotation, Created;
    TrustNeverShrinks(home, io);
    CreationKeepsTrust(home, io);
  }
}
