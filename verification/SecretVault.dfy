/** The encrypted fallback vault of secrets/fallback.go.

    Argon2id (RFC 9106) is a free constructor on (password, salt).  AES-GCM (NIST
    SP 800-38D) and the JSON encoding are any functions obeying `Ideal`.  The file
    layout is concrete bytes. */
module SecretVault {
  type Bytes = seq<bv8>
  type Entries = map<string, Bytes>

  import opened Wrappers

  datatype Key = DerivedKey(password: Bytes, salt: Bytes)

  datatype Payload = Payload(schema: int, entries: Option<Entries>)

  datatype Crypto = Crypto(
    seal: (Key, Bytes, Bytes) -> Bytes,
    open: (Key, Bytes, Bytes) -> Option<Bytes>,
    marshal: Entries -> Bytes,
    unmarshal: Bytes -> Option<Payload>)

  const VERSION: bv8 := 0x01
  const SALT_SIZE := 16
  const NONCE_SIZE := 12
  const TAG_SIZE := 16
  const SCHEMA := 1
  const MIN_PASSWORD := 12

  /** Decryption inverts encryption and accepts nothing sealed under another key or nonce. */
  ghost predicate IdealAead(seal: (Key, Bytes, Bytes) -> Bytes, open: (Key, Bytes, Bytes) -> Option<Bytes>) {
    && (forall k, n, p :: open(k, n, seal(k, n, p)) == Some(p))
    && (forall k, n, p, k', n' :: open(k', n', seal(k, n, p)).Some? ==> k' == k && n' == n)
    && (forall k, n, p :: |seal(k, n, p)| >= TAG_SIZE)
  }

  ghost predicate Ideal(c: Crypto) {
    && IdealAead(c.seal, c.open)
    && (forall m :: c.unmarshal(c.marshal(m)) == Some(Payload(SCHEMA, Some(m))))
  }

  // ---------------------------------------------------------------- the file

  function Frame(salt: Bytes, nonce: Bytes, ciphertext: Bytes): Bytes {
    [VERSION] + salt + nonce + ciphertext
  }

  datatype LoadError = TooShort | UnknownVersion | AuthFailed | NotJson | WrongSchema

  datatype Loaded = Ok(key: Key, salt: Bytes, entries: Entries) | Failed(e: LoadError)

  /** loadFallback. */
  function Load(c: Crypto, password: Bytes, raw: Bytes): Loaded {
    if |raw| < 1 + SALT_SIZE + NONCE_SIZE + TAG_SIZE then Failed(TooShort)
    else if raw[0] != VERSION then Failed(UnknownVersion)
    else
      var salt := raw[1..1 + SALT_SIZE];
      var nonce := raw[1 + SALT_SIZE..1 + SALT_SIZE + NONCE_SIZE];
      var key := DerivedKey(password, salt);
      match c.open(key, nonce, raw[1 + SALT_SIZE + NONCE_SIZE..])
      case None => Failed(AuthFailed)
      case Some(plain) =>
        match c.unmarshal(plain)
        case None => Failed(NotJson)
        case Some(p) =>
          if p.schema != SCHEMA then Failed(WrongSchema)
          else Ok(key, salt, if p.entries.None? then map[] else p.entries.value)
  }

  /** The blob persistLocked writes. */
  function Blob(c: Crypto, key: Key, nonce: Bytes, entries: Entries): Bytes {
    Frame(key.salt, nonce, c.seal(key, nonce, c.marshal(entries)))
  }

  /** The frame parses back exactly, so a written vault opens to its entries with its own
      password and with no other. */
  lemma BlobLoads(c: Crypto, key: Key, nonce: Bytes, entries: Entries, password: Bytes)
    requires Ideal(c) && |key.salt| == SALT_SIZE && |nonce| == NONCE_SIZE
    ensures Load(c, password, Blob(c, key, nonce, entries))
            == if password == key.password then Ok(key, key.salt, entries) else Failed(AuthFailed)
  {
    var ct := c.seal(key, nonce, c.marshal(entries));
    FrameParses(key.salt, nonce, ct);
    if password != key.password {
      assert DerivedKey(password, key.salt) != key;
      assert c.open(DerivedKey(password, key.salt), nonce, ct).None?;
    }
  }

  lemma FrameParses(salt: Bytes, nonce: Bytes, ct: Bytes)
    requires |salt| == SALT_SIZE && |nonce| == NONCE_SIZE
    ensures var raw := Frame(salt, nonce, ct);
            && |raw| == 1 + SALT_SIZE + NONCE_SIZE + |ct| && raw[0] == VERSION
            && raw[1..1 + SALT_SIZE] == salt
            && raw[1 + SALT_SIZE..1 + SALT_SIZE + NONCE_SIZE] == nonce
            && raw[1 + SALT_SIZE + NONCE_SIZE..] == ct
  {
  }

  // --------------------------------------------------------------- operations

  /** key is None in a locked (closed) vault; disk is None before the first write. */
  datatype Vault = Vault(key: Option<Key>, salt: Bytes, entries: Entries, disk: Option<Bytes>)

  datatype Reply = Done | Locked | PasswordTooShort | WriteFailed

  function Persist(c: Crypto, v: Vault, nonce: Bytes, o: Outcome): Vault
    requires v.key.Some?
  {
    if o.FailedBefore? then v
    else v.(disk := Some(Frame(v.salt, nonce, c.seal(v.key.value, nonce, c.marshal(v.entries)))))
  }

  function ReplyOf(o: Outcome): Reply { if o.Durable? then Done else WriteFailed }

  function Set(c: Crypto, v: Vault, k: string, val: Bytes, nonce: Bytes, o: Outcome): (Vault, Reply) {
    if v.key.None? then (v, Locked)
    else (Persist(c, v.(entries := v.entries[k := val]), nonce, o), ReplyOf(o))
  }

  function Delete(c: Crypto, v: Vault, k: string, nonce: Bytes, o: Outcome): (Vault, Reply) {
    if v.key.None? then (v, Locked)
    else if k !in v.entries then (v, Done)
    else (Persist(c, v.(entries := v.entries - {k}), nonce, o), ReplyOf(o))
  }

  function Rotate(c: Crypto, v: Vault, password: Bytes, salt: Bytes, nonce: Bytes, o: Outcome): (Vault, Reply) {
    if |password| < MIN_PASSWORD then (v, PasswordTooShort)
    else if v.key.None? then (v, Locked)
    else
      var v' := Persist(c, v.(key := Some(DerivedKey(password, salt)), salt := salt), nonce, o);
      if o.Durable? then (v', Done)
      else (v'.(key := v.key, salt := v.salt), WriteFailed)
  }

  function Close(v: Vault): Vault { v.(key := None, entries := map[]) }

  /** NewFallback in a later process: the file, or a fresh vault when there is none. */
  function Reopen(c: Crypto, v: Vault, password: Bytes, salt: Bytes): Vault {
    if |password| < MIN_PASSWORD then Close(v)
    else match v.disk
      case None => Vault(Some(DerivedKey(password, salt)), salt, map[], None)
      case Some(raw) =>
        match Load(c, password, raw)
        case Ok(key, fileSalt, entries) => Vault(Some(key), fileSalt, entries, v.disk)
        case Failed(_) => Close(v)
  }

  datatype Answer = Found(value: Bytes) | NotFound | VaultLocked

  function Get(v: Vault, k: string): Answer {
    if v.key.None? then VaultLocked else if k in v.entries then Found(v.entries[k]) else NotFound
  }

  // ---------------------------------------------------------------- the object

  class FallbackBackend {
    const c: Crypto
    var key: Option<Key>
    var salt: Bytes
    var entries: Entries
    var disk: Option<Bytes>

    function View(): Vault
      reads this
    {
      Vault(key, salt, entries, disk)
    }

    /** NewFallback over the current contents of the vault path. */
    constructor (crypto: Crypto, file: Option<Bytes>, password: Bytes, freshSalt: Bytes)
      ensures c == crypto
      ensures View() == Reopen(crypto, Vault(None, freshSalt, map[], file), password, freshSalt)
    {
      c := crypto;
      key, salt, entries, disk := None, freshSalt, map[], file;
      if |password| >= MIN_PASSWORD {
        if file.None? {
          key := Some(DerivedKey(password, freshSalt));
        } else {
          var l := Load(crypto, password, file.value);
          if l.Ok? {
            key, salt, entries := Some(l.key), l.salt, l.entries;
          }
        }
      }
    }

    method PersistLocked(nonce: Bytes, o: Outcome) returns (ok: bool)
      requires key.Some?
      modifies this`disk
      ensures ok == o.Durable?
      ensures View() == Persist(c, old(View()), nonce, o)
    {
      var plaintext := c.marshal(entries);
      var ciphertext := c.seal(key.value, nonce, plaintext);
      var blob := [VERSION];
      blob := blob + salt;
      blob := blob + nonce;
      blob := blob + ciphertext;
      if !o.FailedBefore? { disk := Some(blob); }
      ok := o.Durable?;
    }

    method GetSecret(k: string) returns (r: Answer)
      ensures r == Get(View(), k)
    {
      if key.None? { return VaultLocked; }
      if k !in entries { return NotFound; }
      r := Found(entries[k]);
    }

    method SetSecret(k: string, val: Bytes, nonce: Bytes, o: Outcome) returns (r: Reply)
      modifies this
      ensures (View(), r) == Set(c, old(View()), k, val, nonce, o)
    {
      if key.None? { return Locked; }
      entries := entries[k := val];
      var ok := PersistLocked(nonce, o);
      r := if ok then Done else WriteFailed;
    }

    method DeleteSecret(k: string, nonce: Bytes, o: Outcome) returns (r: Reply)
      modifies this
      ensures (View(), r) == Delete(c, old(View()), k, nonce, o)
    {
      if key.None? { return Locked; }
      if k !in entries { return Done; }
      entries := entries - {k};
      var ok := PersistLocked(nonce, o);
      r := if ok then Done else WriteFailed;
    }

    method RotatePassword(password: Bytes, newSalt: Bytes, nonce: Bytes, o: Outcome) returns (r: Reply)
      modifies this
      ensures (View(), r) == Rotate(c, old(View()), password, newSalt, nonce, o)
    {
      if |password| < MIN_PASSWORD { return PasswordTooShort; }
      if key.None? { return Locked; }
      var oldKey, oldSalt := key, salt;
      key, salt := Some(DerivedKey(password, newSalt)), newSalt;
      var ok := PersistLocked(nonce, o);
      if !ok {
        key, salt := oldKey, oldSalt;
        return WriteFailed;
      }
      r := Done;
    }

    method Lock()
      modifies this
      ensures View() == Close(old(View()))
    {
      key, entries := None, map[];
    }
  }

  // ------------------------------------------------------------------- runs

  datatype Op =
    | SetOp(k: string, val: Bytes, nonce: Bytes, o: Outcome)
    | DeleteOp(k: string, nonce: Bytes, o: Outcome)
    | RotateOp(password: Bytes, salt: Bytes, nonce: Bytes, o: Outcome)
    | CloseOp
    | ReopenOp(password: Bytes, salt: Bytes)

  /** Random bytes come in the sizes the program asks for. */
  predicate Sized(op: Op) {
    match op
    case SetOp(_, _, nonce, _) => |nonce| == NONCE_SIZE
    case DeleteOp(_, nonce, _) => |nonce| == NONCE_SIZE
    case RotateOp(_, salt, nonce, _) => |salt| == SALT_SIZE && |nonce| == NONCE_SIZE
    case CloseOp => true
    case ReopenOp(_, salt) => |salt| == SALT_SIZE
  }

  function Apply(c: Crypto, v: Vault, op: Op): Vault {
    match op
    case SetOp(k, val, nonce, o) => Set(c, v, k, val, nonce, o).0
    case DeleteOp(k, nonce, o) => Delete(c, v, k, nonce, o).0
    case RotateOp(password, salt, nonce, o) => Rotate(c, v, password, salt, nonce, o).0
    case CloseOp => Close(v)
    case ReopenOp(password, salt) => Reopen(c, v, password, salt)
  }

  function Run(c: Crypto, v: Vault, ops: seq<Op>): Vault
    decreases |ops|
  {
    if ops == [] then v else Run(c, Apply(c, v, ops[0]), ops[1..])
  }

  /** What an operation does to a plain map. */
  function Plain(m: Entries, op: Op): Entries {
    match op
    case SetOp(k, val, _, _) => m[k := val]
    case DeleteOp(k, _, _) => m - {k}
    case _ => m
  }

  function PlainRun(m: Entries, ops: seq<Op>): Entries
    decreases |ops|
  {
    if ops == [] then m else PlainRun(Plain(m, ops[0]), ops[1..])
  }

  /** While the vault stays open its Get is lookup in a plain map, whatever the writes do. */
  lemma {:induction false} GetRefinesPlainMap(c: Crypto, v: Vault, ops: seq<Op>)
    requires v.key.Some?
    requires forall i :: 0 <= i < |ops| ==> !ops[i].CloseOp? && !ops[i].ReopenOp?
    ensures var v', m := Run(c, v, ops), PlainRun(v.entries, ops);
            v'.key.Some? && forall k :: Get(v', k) == if k in m then Found(m[k]) else NotFound
    decreases |ops|
  {
    if ops != [] {
      var v1 := Apply(c, v, ops[0]);
      assert ops[0].DeleteOp? && ops[0].k !in v.entries ==> v.entries - {ops[0].k} == v.entries;
      assert v1.key.Some? && v1.entries == Plain(v.entries, ops[0]);
      GetRefinesPlainMap(c, v1, ops[1..]);
    }
  }

  /** Bookkeeping beside a run: the successive in-memory views, the view of the last
      reported-durable write, and what the file really holds. */
  datatype Track = Track(views: seq<Entries>, durable: nat, onDisk: nat, diskKey: Option<Key>, diskNonce: Bytes)

  const FRESH := Track([map[]], 0, 0, None, [])

  predicate Writes(v: Vault, op: Op) {
    && v.key.Some?
    && match op
       case SetOp(_, _, _, o) => true
       case DeleteOp(k, _, o) => k in v.entries
       case RotateOp(password, _, _, o) => |password| >= MIN_PASSWORD
       case _ => false
  }

  function Follow(c: Crypto, v: Vault, t: Track, op: Op): Track {
    if !Writes(v, op) then
      var v' := Apply(c, v, op);
      if op.ReopenOp? && v'.key.Some? then t.(views := t.views + [v'.entries]) else t
    else
      var views := t.views + [Apply(c, v, op).entries];
      var key := if op.RotateOp? then DerivedKey(op.password, op.salt) else v.key.value;
      var last := |views| - 1;
      if op.o.FailedBefore? then t.(views := views)
      else Track(views, if op.o.Durable? then last else t.durable, last, Some(key), op.nonce)
  }

  ghost predicate Tracked(c: Crypto, v: Vault, t: Track) {
    && t.durable <= t.onDisk < |t.views|
    && (v.key.Some? ==> v.entries == t.views[|t.views| - 1] && v.key.value.salt == v.salt && |v.salt| == SALT_SIZE)
    && (v.disk.None? <==> t.diskKey.None?)
    && (v.disk.Some? ==>
          && |t.diskKey.value.salt| == SALT_SIZE && |t.diskNonce| == NONCE_SIZE
          && v.disk.value == Blob(c, t.diskKey.value, t.diskNonce, t.views[t.onDisk]))
  }

  lemma TrackedStep(c: Crypto, v: Vault, t: Track, op: Op)
    requires Ideal(c) && Tracked(c, v, t) && Sized(op)
    ensures Tracked(c, Apply(c, v, op), Follow(c, v, t, op))
  {
    if op.ReopenOp? && v.disk.Some? {
      BlobLoads(c, t.diskKey.value, t.diskNonce, t.views[t.onDisk], op.password);
    }
  }

  function FollowRun(c: Crypto, v: Vault, t: Track, ops: seq<Op>): Track
    decreases |ops|
  {
    if ops == [] then t else FollowRun(c, Apply(c, v, ops[0]), Follow(c, v, t, ops[0]), ops[1..])
  }

  lemma {:induction false} TrackedRun(c: Crypto, v: Vault, t: Track, ops: seq<Op>)
    requires Ideal(c) && Tracked(c, v, t) && forall i :: 0 <= i < |ops| ==> Sized(ops[i])
    ensures Tracked(c, Run(c, v, ops), FollowRun(c, v, t, ops))
    decreases |ops|
  {
    if ops != [] {
      TrackedStep(c, v, t, ops[0]);
      TrackedRun(c, Apply(c, v, ops[0]), Follow(c, v, t, ops[0]), ops[1..]);
    }
  }

  /** Over every run of sets, deletes, rotations, closes and reopens, with writes failing
      before or after their rename: the file always opens, with exactly one password, to a
      view the vault really had, no older than the last write reported durable. */
  lemma FileIsAlwaysReadable(c: Crypto, password: Bytes, salt: Bytes, ops: seq<Op>, guess: Bytes)
    requires Ideal(c) && |salt| == SALT_SIZE && forall i :: 0 <= i < |ops| ==> Sized(ops[i])
    ensures var v0 := Vault(Some(DerivedKey(password, salt)), salt, map[], None);
            var v, t := Run(c, v0, ops), FollowRun(c, v0, FRESH, ops);
            v.disk.Some? ==>
              && t.diskKey.Some? && t.durable <= t.onDisk < |t.views|
              && Load(c, guess, v.disk.value)
                 == if guess == t.diskKey.value.password
                    then Ok(t.diskKey.value, t.diskKey.value.salt, t.views[t.onDisk])
                    else Failed(AuthFailed)
  {
    var v0 := Vault(Some(DerivedKey(password, salt)), salt, map[], None);
    TrackedRun(c, v0, FRESH, ops);
    var v, t := Run(c, v0, ops), FollowRun(c, v0, FRESH, ops);
    if v.disk.Some? {
      BlobLoads(c, t.diskKey.value, t.diskNonce, t.views[t.onDisk], guess);
    }
  }

  /** A reopened vault answers from what the file holds, with the password the file is under; any
      other password, and a short one, leaves it locked.  The file itself is never touched. */
  lemma ReopenShowsTheFile(c: Crypto, v: Vault, t: Track, password: Bytes, salt: Bytes, k: string)
    requires Ideal(c) && Tracked(c, v, t) && v.disk.Some?
    ensures var v', m := Reopen(c, v, password, salt), t.views[t.onDisk];
            && v'.disk == v.disk
            && Get(v', k) == if |password| < 12 || password != t.diskKey.value.password then VaultLocked
                             else if k in m then Found(m[k]) else NotFound
  {
    BlobLoads(c, t.diskKey.value, t.diskNonce, t.views[t.onDisk], password);
  }

  /** What is rejected before any decryption, and how an opened payload is judged. */
  lemma LoadVerdicts(c: Crypto, password: Bytes, raw: Bytes)
    ensures Load(c, password, raw) == Failed(TooShort) <==> |raw| < 45
    ensures Load(c, password, raw) == Failed(UnknownVersion) <==> |raw| >= 45 && raw[0] != 1
    ensures |raw| >= 45 && raw[0] == 1 ==>
              var plain := c.open(DerivedKey(password, raw[1..17]), raw[17..29], raw[29..]);
              match Load(c, password, raw)
              case Ok(key, salt, m) =>
                && key == DerivedKey(password, salt) && salt == raw[1..17]
                && plain.Some? && c.unmarshal(plain.value).Some? && c.unmarshal(plain.value).value.schema == 1
                && m == (match c.unmarshal(plain.value).value.entries case None => map[] case Some(e) => e)
              case Failed(e) => e == AuthFailed <==> plain.None?
  {
  }

  /** What each operation reports. */
  lemma RepliesAreHonest(
    c: Crypto, v: Vault, k: string, val: Bytes, password: Bytes, salt: Bytes, nonce: Bytes, o: Outcome)
    ensures Set(c, v, k, val, nonce, o).1
            == if v.key.None? then Locked else if o.Durable? then Done else WriteFailed
    ensures Delete(c, v, k, nonce, o).1
            == if v.key.None? then Locked else if k !in v.entries || o.Durable? then Done else WriteFailed
    ensures Rotate(c, v, password, salt, nonce, o).1
            == if |password| < 12 then PasswordTooShort else if v.key.None? then Locked
               else if o.Durable? then Done else WriteFailed
    ensures Get(Close(v), k) == VaultLocked && Close(v).disk == v.disk
  {
  }

  // --------------------------------------------------- across closing and reopening

  /** What a user of the vault has to remember: the entries, whether it is open, the password in
      force, and whether anything was ever written. */
  datatype Book = Book(entries: Entries, isOpen: bool, password: Bytes, written: bool)

  function Recorded(b: Book, op: Op): Book {
    match op
    case SetOp(k, val, _, _) => if b.isOpen then b.(entries := b.entries[k := val], written := true) else b
    case DeleteOp(k, _, _) =>
      if b.isOpen && k in b.entries then b.(entries := b.entries - {k}, written := true) else b
    case RotateOp(password, _, _, _) =>
      if b.isOpen && |password| >= 12 then b.(password := password, written := true) else b
    case CloseOp => b.(isOpen := false)
    case ReopenOp(password, _) =>
      if |password| < 12 then b.(isOpen := false)
      else if b.written then b.(isOpen := password == b.password)
      else Book(map[], true, password, false)
  }

  function RecordedRun(b: Book, ops: seq<Op>): Book
    decreases |ops|
  {
    if ops == [] then b else RecordedRun(Recorded(b, ops[0]), ops[1..])
  }

  predicate DurableOp(op: Op) {
    match op
    case SetOp(_, _, _, o) => o.Durable?
    case DeleteOp(_, _, o) => o.Durable?
    case RotateOp(_, _, _, o) => o.Durable?
    case _ => true
  }

  ghost predicate Agrees(c: Crypto, v: Vault, b: Book) {
    && (v.key.Some? <==> b.isOpen)
    && (b.isOpen ==> && v.entries == b.entries && v.key.value == DerivedKey(b.password, v.salt)
                     && |v.salt| == SALT_SIZE)
    && (v.disk.Some? <==> b.written)
    && (!b.written ==> b.entries == map[])
    && (b.written ==> HeldIn(c, v.disk.value, b))
  }

  /** The file is these entries, sealed under this password. */
  ghost predicate HeldIn(c: Crypto, raw: Bytes, b: Book) {
    exists salt, nonce ::
      |salt| == SALT_SIZE && |nonce| == NONCE_SIZE && raw == Blob(c, DerivedKey(b.password, salt), nonce, b.entries)
  }

  lemma AgreesWrite(c: Crypto, v: Vault, v': Vault, b': Book, nonce: Bytes)
    requires v.key.Some? && v.key.value == DerivedKey(b'.password, v.salt)
    requires |nonce| == NONCE_SIZE && |v.salt| == SALT_SIZE
    requires v.entries == b'.entries && b'.isOpen && b'.written && v' == Persist(c, v, nonce, Durable)
    ensures Agrees(c, v', b')
  {
    assert v'.disk.value == Blob(c, DerivedKey(b'.password, v.salt), nonce, b'.entries);
  }

  lemma AgreesReopen(c: Crypto, v: Vault, b: Book, password: Bytes, salt: Bytes)
    requires Ideal(c) && Agrees(c, v, b) && |salt| == SALT_SIZE
    ensures Agrees(c, Reopen(c, v, password, salt), Recorded(b, ReopenOp(password, salt)))
  {
    if b.written {
      var fileSalt, nonce :| && |fileSalt| == SALT_SIZE && |nonce| == NONCE_SIZE
                             && v.disk.value == Blob(c, DerivedKey(b.password, fileSalt), nonce, b.entries);
      BlobLoads(c, DerivedKey(b.password, fileSalt), nonce, b.entries, password);
    }
  }

  lemma AgreesStep(c: Crypto, v: Vault, b: Book, op: Op)
    requires Ideal(c) && Agrees(c, v, b) && Sized(op) && DurableOp(op)
    ensures Agrees(c, Apply(c, v, op), Recorded(b, op))
  {
    match op
    case SetOp(k, val, nonce, o) =>
      if b.isOpen {
        AgreesWrite(c, v.(entries := v.entries[k := val]), Apply(c, v, op), Recorded(b, op), nonce);
      }
    case DeleteOp(k, nonce, o) =>
      if b.isOpen && k in b.entries {
        AgreesWrite(c, v.(entries := v.entries - {k}), Apply(c, v, op), Recorded(b, op), nonce);
      }
    case RotateOp(password, salt, nonce, o) =>
      if b.isOpen && |password| >= MIN_PASSWORD {
        var w := v.(key := Some(DerivedKey(password, salt)), salt := salt);
        AgreesWrite(c, w, Apply(c, v, op), Recorded(b, op), nonce);
      }
    case CloseOp =>
    case ReopenOp(password, salt) => AgreesReopen(c, v, b, password, salt);
  }

  lemma {:induction false} AgreesRun(c: Crypto, v: Vault, b: Book, ops: seq<Op>)
    requires Ideal(c) && Agrees(c, v, b) && forall i :: 0 <= i < |ops| ==> Sized(ops[i]) && DurableOp(ops[i])
    ensures Agrees(c, Run(c, v, ops), RecordedRun(b, ops))
    decreases |ops|
  {
    if ops != [] {
      AgreesStep(c, v, b, ops[0]);
      AgreesRun(c, Apply(c, v, ops[0]), Recorded(b, ops[0]), ops[1..]);
    }
  }

  /** Over every run of sets, deletes, rotations, closes and reopens whose writes are durable, Get is
      lookup in a plain map that survives closing: reopening with the password in force shows all of
      it, reopening with any other shows nothing. */
  lemma GetSurvivesReopening(c: Crypto, password: Bytes, salt: Bytes, ops: seq<Op>, k: string)
    requires Ideal(c) && |salt| == SALT_SIZE
    requires forall i :: 0 <= i < |ops| ==> Sized(ops[i]) && DurableOp(ops[i])
    ensures var v := Run(c, Vault(Some(DerivedKey(password, salt)), salt, map[], None), ops);
            var b := RecordedRun(Book(map[], true, password, false), ops);
            Get(v, k) == if !b.isOpen then VaultLocked else if k in b.entries then Found(b.entries[k]) else NotFound
  {
    AgreesRun(c, Vault(Some(DerivedKey(password, salt)), salt, map[], None), Book(map[], true, password, false), ops);
  }

  /** Rotation: on success the entries are kept, the new password opens the file and every
      other is rejected; on failure the old key and salt stay in memory, and the file is
      either untouched or already sealed under the new password alone. */
  lemma RotationTheorem(c: Crypto, v: Vault, t: Track, password: Bytes, salt: Bytes, nonce: Bytes, o: Outcome,
                        guess: Bytes)
    requires Ideal(c) && Tracked(c, v, t) && v.key.Some? && |password| >= MIN_PASSWORD
    requires |salt| == SALT_SIZE && |nonce| == NONCE_SIZE
    ensures var (v', r) := Rotate(c, v, password, salt, nonce, o);
            && v'.entries == v.entries
            && (r == Done <==> o == Durable)
            && (r == Done ==> v'.key == Some(DerivedKey(password, salt)) && v'.salt == salt)
            && (r != Done ==> v'.key == v.key && v'.salt == v.salt)
            && (if o == FailedBefore then v'.disk == v.disk
                else && v'.disk.Some?
                     && Load(c, guess, v'.disk.value)
                        == if guess == password then Ok(DerivedKey(password, salt), salt, v.entries)
                           else Failed(AuthFailed))
  {
    BlobLoads(c, DerivedKey(password, salt), nonce, v.entries, guess);
  }

  /** Whatever writes failed before: after a rotation that reports failure, the password still in
      memory opens the file exactly when the failure came before the rename and that password was
      the one the file was under. */
  lemma FailedRotationLocksOutIff(c: Crypto, v: Vault, t: Track, password: Bytes, salt: Bytes, nonce: Bytes, o: Outcome)
    requires Ideal(c) && Tracked(c, v, t) && v.key.Some? && v.disk.Some?
    requires |password| >= MIN_PASSWORD && |salt| == SALT_SIZE && |nonce| == NONCE_SIZE && o != Durable
    requires password != v.key.value.password
    ensures var v' := Rotate(c, v, password, salt, nonce, o).0;
            v'.disk.Some? && (Load(c, v'.key.value.password, v'.disk.value).Ok?
                              <==> o == FailedBefore && t.diskKey.value.password == v.key.value.password)
  {
    BlobLoads(c, t.diskKey.value, t.diskNonce, t.views[t.onDisk], v.key.value.password);
    BlobLoads(c, DerivedKey(password, salt), nonce, v.entries, v.key.value.password);
  }

  /** The failing run: a vault whose first write succeeded, then a rotation failing after its rename. */
  lemma FailedRotationCanLockOut(c: Crypto, first: Bytes, second: Bytes, salt: Bytes, nonce: Bytes)
    requires Ideal(c) && |first| >= MIN_PASSWORD && |second| >= MIN_PASSWORD && first != second
    requires |salt| == SALT_SIZE && |nonce| == NONCE_SIZE
    ensures var v0 := Vault(Some(DerivedKey(first, salt)), salt, map[], None);
            var v := Run(c, v0, [SetOp("k", [], nonce, Durable), RotateOp(second, salt, nonce, FailedAfter)]);
            v.key == v0.key && v.disk.Some? && Load(c, first, v.disk.value) == Failed(AuthFailed)
  {
    var v0 := Vault(Some(DerivedKey(first, salt)), salt, map[], None);
    var ops := [SetOp("k", [], nonce, Durable), RotateOp(second, salt, nonce, FailedAfter)];
    assert ops[1..] == [RotateOp(second, salt, nonce, FailedAfter)] && ops[1..][1..] == [];
    var v1 := Apply(c, v0, ops[0]);
    var v2 := Apply(c, v1, ops[1]);
    assert Run(c, v2, []) == v2;
    assert Run(c, v1, ops[1..]) == v2;
    BlobLoads(c, DerivedKey(second, salt), nonce, v1.entries, first);
  }

  // --------------------------------------------- the assumptions are consistent

  /** A self-delimiting encoding of byte strings. */
  function Enc(s: Bytes): Bytes { if s == [] then [0] else [1, s[0]] + Enc(s[1..]) }

  lemma {:induction false} EncIsPrefixFree(a: Bytes, x: Bytes, b: Bytes, y: Bytes)
    requires Enc(a) + x == Enc(b) + y
    ensures a == b && x == y
    decreases |a|
  {
    var l, r := Enc(a) + x, Enc(b) + y;
    assert l[0] == r[0];
    if a == [] {
      assert l[1..] == x && r[1..] == y;
    } else {
      assert l[1] == a[0] && r[1] == b[0];
      assert l[2..] == Enc(a[1..]) + x && r[2..] == Enc(b[1..]) + y;
      EncIsPrefixFree(a[1..], x, b[1..], y);
      assert a == [a[0]] + a[1..] && b == [b[0]] + b[1..];
    }
  }

  function Header(k: Key, n: Bytes): Bytes { seq(TAG_SIZE, i => 0 as bv8) + (Enc(k.password) + (Enc(k.salt) + Enc(n))) }

  lemma HeaderBody(k: Key, n: Bytes, x: Bytes)
    ensures (Header(k, n) + x)[TAG_SIZE..] == Enc(k.password) + (Enc(k.salt) + (Enc(n) + x))
  {
    var tag, body := seq(TAG_SIZE, i => 0 as bv8), Enc(k.password) + (Enc(k.salt) + Enc(n));
    assert (tag + body + x)[TAG_SIZE..] == body + x;
  }

  lemma HeaderIsPrefixFree(k: Key, n: Bytes, x: Bytes, k': Key, n': Bytes, y: Bytes)
    requires Header(k, n) + x == Header(k', n') + y
    ensures k == k' && n == n' && x == y
  {
    HeaderBody(k, n, x);
    HeaderBody(k', n', y);
    EncIsPrefixFree(k.password, Enc(k.salt) + (Enc(n) + x), k'.password, Enc(k'.salt) + (Enc(n') + y));
    EncIsPrefixFree(k.salt, Enc(n) + x, k'.salt, Enc(n') + y);
    EncIsPrefixFree(n, x, n', y);
  }

  function ToySeal(k: Key, n: Bytes, p: Bytes): Bytes { Header(k, n) + p }

  function ToyOpen(k: Key, n: Bytes, ct: Bytes): Option<Bytes> {
    var h := Header(k, n);
    if h <= ct then Some(ct[|h|..]) else None
  }

  /** Some seal and open satisfy the laws asked of AES-GCM. */
  lemma IdealAeadExists()
    ensures IdealAead(ToySeal, ToyOpen)
  {
    forall k, n, p, k', n' | ToyOpen(k', n', ToySeal(k, n, p)).Some? ensures k' == k && n' == n {
      var ct, h := ToySeal(k, n, p), Header(k', n');
      assert ct == h + ct[|h|..];
      HeaderIsPrefixFree(k, n, p, k', n', ct[|h|..]);
    }
  }

  function EncNat(n: nat): Bytes { if n == 0 then [0] else [1] + EncNat(n - 1) }

  lemma {:induction false} EncNatIsPrefixFree(a: nat, x: Bytes, b: nat, y: Bytes)
    requires EncNat(a) + x == EncNat(b) + y
    ensures a == b && x == y
    decreases a
  {
    var l, r := EncNat(a) + x, EncNat(b) + y;
    assert l[0] == r[0];
    if a == 0 {
      assert l[1..] == x && r[1..] == y;
    } else {
      assert l[1..] == EncNat(a - 1) + x && r[1..] == EncNat(b - 1) + y;
      EncNatIsPrefixFree(a - 1, x, b - 1, y);
    }
  }

  function EncText(s: string): Bytes { if s == "" then [0] else [1] + (EncNat(s[0] as int) + EncText(s[1..])) }

  lemma {:induction false} EncTextIsPrefixFree(a: string, x: Bytes, b: string, y: Bytes)
    requires EncText(a) + x == EncText(b) + y
    ensures a == b && x == y
    decreases |a|
  {
    var l, r := EncText(a) + x, EncText(b) + y;
    assert l[0] == r[0];
    if a == "" {
      assert l[1..] == x && r[1..] == y;
    } else {
      assert l[1..] == EncNat(a[0] as int) + (EncText(a[1..]) + x);
      assert r[1..] == EncNat(b[0] as int) + (EncText(b[1..]) + y);
      EncNatIsPrefixFree(a[0] as int, EncText(a[1..]) + x, b[0] as int, EncText(b[1..]) + y);
      EncTextIsPrefixFree(a[1..], x, b[1..], y);
      assert a == [a[0]] + a[1..] && b == [b[0]] + b[1..];
    }
  }

  ghost function SomeKey(m: Entries): (k: string)
    requires m != map[]
    ensures k in m && |m - {k}| < |m|
  {
    var k :| k in m;
    assert m.Keys - {k} == (m - {k}).Keys;
    k
  }

  type Pairs = seq<(string, Bytes)>

  ghost function Listing(m: Entries): Pairs
    decreases |m|
  {
    if m == map[] then [] else var k := SomeKey(m); [(k, m[k])] + Listing(m - {k})
  }

  function MapOf(l: Pairs): Entries { if l == [] then map[] else MapOf(l[1..])[l[0].0 := l[0].1] }

  lemma {:induction false} ListingReadsBack(m: Entries)
    ensures MapOf(Listing(m)) == m
    decreases |m|
  {
    if m != map[] {
      var k := SomeKey(m);
      ListingReadsBack(m - {k});
      assert Listing(m)[1..] == Listing(m - {k});
      assert m == (m - {k})[k := m[k]];
    }
  }

  function EncPairs(l: Pairs): Bytes {
    if l == [] then [0] else [1] + (EncText(l[0].0) + (Enc(l[0].1) + EncPairs(l[1..])))
  }

  lemma SplitEntry(k: string, v: Bytes, x: Bytes, j: string, u: Bytes, y: Bytes)
    requires [1] + (EncText(k) + (Enc(v) + x)) == [1] + (EncText(j) + (Enc(u) + y))
    ensures k == j && v == u && x == y
  {
    var l, r := [1] + (EncText(k) + (Enc(v) + x)), [1] + (EncText(j) + (Enc(u) + y));
    assert l[1..] == EncText(k) + (Enc(v) + x) && r[1..] == EncText(j) + (Enc(u) + y);
    EncTextIsPrefixFree(k, Enc(v) + x, j, Enc(u) + y);
    EncIsPrefixFree(v, x, u, y);
  }

  lemma {:induction false} EncPairsIsInjective(a: Pairs, b: Pairs)
    requires EncPairs(a) == EncPairs(b)
    ensures a == b
    decreases |a|
  {
    assert EncPairs(a)[0] == EncPairs(b)[0];
    if a != [] {
      SplitEntry(a[0].0, a[0].1, EncPairs(a[1..]), b[0].0, b[0].1, EncPairs(b[1..]));
      EncPairsIsInjective(a[1..], b[1..]);
      assert a == [a[0]] + a[1..] && b == [b[0]] + b[1..];
    }
  }

  ghost function ToyMarshal(m: Entries): Bytes { EncPairs(Listing(m)) }

  ghost function ToyUnmarshal(raw: Bytes): Option<Payload> {
    if exists l :: EncPairs(l) == raw then
      var l :| EncPairs(l) == raw;
      Some(Payload(SCHEMA, Some(MapOf(l))))
    else None
  }

  lemma ToyReadsBack(m: Entries)
    ensures ToyUnmarshal(ToyMarshal(m)) == Some(Payload(SCHEMA, Some(m)))
  {
    var raw := ToyMarshal(m);
    assert EncPairs(Listing(m)) == raw;
    var l :| EncPairs(l) == raw && ToyUnmarshal(raw) == Some(Payload(SCHEMA, Some(MapOf(l))));
    EncPairsIsInjective(l, Listing(m));
    ListingReadsBack(m);
  }

  /** All the laws assumed of the cryptography and of the encoding hold together of something. */
  lemma IdealExists()
    ensures Ideal(Crypto(ToySeal, ToyOpen, ToyMarshal, ToyUnmarshal))
  {
    IdealAeadExists();
    forall m ensures ToyUnmarshal(ToyMarshal(m)) == Some(Payload(SCHEMA, Some(m))) { ToyReadsBack(m); }
  }
}
