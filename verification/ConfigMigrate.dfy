/** The configuration file: migration chain (config/migrate.go, config/migrate_v0_to_v1.go),
    Save (config/save.go) and Load (config/load.go).

    JSON is a codec over an uninterpreted type of documents.  Profiles, projects and settings are
    type parameters, since nothing here looks inside them. */
module ConfigMigrate {
  import opened Wrappers

  /** The sentinel errors; an error is the set of sentinels errors.Is finds in its chain. */
  datatype Sentinel =
    | ErrInvalidJSON | ErrSchemaViolation | ErrSecretInConfig | ErrDanglingProfileAlias
    | ErrCorruptedConfig | ErrSchemaMismatch | ErrMigrationFailed | ErrNoMigrator | ErrContext | ErrConfigLocked

  type Error = set<Sentinel>

  datatype Result<+T> = Ok(value: T) | Err(err: Error)

  /** A Go slice that JSON can tell from an empty one when it is nil. */
  type Slice<T> = Option<seq<T>>

  datatype Config<P, J, S> = Config(
    schemaVersion: int, language: string, profiles: Slice<P>, projects: Slice<J>, settings: Option<S>)

  datatype Legacy<P, J, S> = Legacy(language: string, profile: P, projects: Slice<J>, settings: Option<S>)

  /** The JSON library and the schema validator, together with the binary's schema version. */
  datatype Codec<!Raw, !P, !J, !S> = Codec(
    current: int,
    header: Raw -> Option<Option<int>>,      // None: not JSON; Some(None): no schema_version
    legacy: Raw -> Option<Legacy<P, J, S>>,
    decode: Raw -> Option<Config<P, J, S>>,
    encode: Config<P, J, S> -> Option<Raw>,
    validate: Raw -> Option<Error>)          // None: valid
  {
    predicate Valid(raw: Raw) { validate(raw).None? }
  }

  type Migration<!Raw> = Raw -> Result<(Raw, int)>
  type Registry<!Raw> = map<int, Migration<Raw>>

  // ---------------------------------------------------------------- migration

  function VersionOf<Raw, P, J, S>(c: Codec<Raw, P, J, S>, raw: Raw): Result<int> {
    match c.header(raw)
    case None => Err({ErrInvalidJSON})
    case Some(None) => Ok(0)
    case Some(Some(v)) => Ok(v)
  }

  function Max0(n: int): nat { if n < 0 then 0 else n }

  /** The loop of Migrate from a document at a version. */
  function Chain<Raw, P, J, S>(c: Codec<Raw, P, J, S>, reg: Registry<Raw>, raw: Raw, version: int): Result<Raw>
    decreases Max0(c.current - version)
  {
    if version >= c.current then
      match c.validate(raw)
      case None => Ok(raw)
      case Some(e) => Err({ErrMigrationFailed} + e)
    else if version !in reg then Err({ErrMigrationFailed, ErrNoMigrator})
    else
      match reg[version](raw)
      case Err(e) => Err({ErrMigrationFailed} + e)
      case Ok((next, v)) =>
        if v <= version then Err({ErrMigrationFailed}) else Chain(c, reg, next, v)
  }

  function MigrateSpec<Raw, P, J, S>(c: Codec<Raw, P, J, S>, reg: Registry<Raw>, raw: Raw): Result<Raw> {
    match VersionOf(c, raw)
    case Err(e) => Err(e)
    case Ok(v) =>
      if v > c.current then Err({ErrSchemaMismatch})
      else if v == c.current then
        match c.validate(raw)
        case None => Ok(raw)
        case Some(e) => Err(e)
      else Chain(c, reg, raw, v)
  }

  /** Migrate: terminates for every registry, in at most current - version migrations. */
  method Migrate<Raw, P, J, S>(c: Codec<Raw, P, J, S>, reg: Registry<Raw>, data: Raw)
    returns (r: Result<Raw>, steps: nat)
    ensures r == MigrateSpec(c, reg, data)
    ensures VersionOf(c, data).Ok? ==> steps <= Max0(c.current - VersionOf(c, data).value)
  {
    steps := 0;
    var first := VersionOf(c, data);
    if first.Err? { return Err(first.err), 0; }
    var version := first.value;
    if version > c.current { return Err({ErrSchemaMismatch}), 0; }
    if version == c.current {
      match c.validate(data)
      case None => return Ok(data), 0;
      case Some(e) => return Err(e), 0;
    }
    var current := data;
    while version < c.current
      invariant Chain(c, reg, current, version) == Chain(c, reg, data, first.value)
      invariant first.value <= version
      invariant steps <= version - first.value
      invariant steps <= c.current - first.value
      decreases c.current - version
    {
      if version !in reg { return Err({ErrMigrationFailed, ErrNoMigrator}), steps; }
      match reg[version](current)
      case Err(e) => return Err({ErrMigrationFailed} + e), steps;
      case Ok((next, newVersion)) =>
        steps := steps + 1;
        if newVersion <= version { return Err({ErrMigrationFailed}), steps; }
        current, version := next, newVersion;
    }
    match c.validate(current)
    case None => r := Ok(current);
    case Some(e) => r := Err({ErrMigrationFailed} + e);
  }

  /** Independent reading: a path of documents, each the registered migration of the one before,
      claiming strictly growing versions, all but the last below the current one. */
  ghost predicate IsPath<Raw(!new), P, J, S>(c: Codec<Raw, P, J, S>, reg: Registry<Raw>, path: seq<(int, Raw)>)
  {
    && |path| > 0
    && path[|path| - 1].0 >= c.current
    && forall i {:trigger path[i]} :: 0 <= i < |path| - 1 ==>
         && path[i].0 < c.current && path[i].0 in reg
         && reg[path[i].0](path[i].1) == Ok((path[i + 1].1, path[i + 1].0))
         && path[i].0 < path[i + 1].0
  }

  lemma {:induction false} ChainFollowsAPath<Raw(!new), P, J, S>(
    c: Codec<Raw, P, J, S>, reg: Registry<Raw>, raw: Raw, version: int)
    returns (path: seq<(int, Raw)>)
    requires Chain(c, reg, raw, version).Ok?
    ensures IsPath(c, reg, path) && path[0] == (version, raw)
    ensures path[|path| - 1].1 == Chain(c, reg, raw, version).value
    ensures c.Valid(path[|path| - 1].1)
    decreases Max0(c.current - version)
  {
    if version >= c.current { return [(version, raw)]; }
    var (next, v) := reg[version](raw).value;
    var rest := ChainFollowsAPath(c, reg, next, v);
    path := [(version, raw)] + rest;
    forall i {:trigger path[i]} | 0 <= i < |path| - 1
      ensures path[i].0 < c.current && path[i].0 in reg
      ensures reg[path[i].0](path[i].1) == Ok((path[i + 1].1, path[i + 1].0))
      ensures path[i].0 < path[i + 1].0
    {
      if i > 0 { assert path[i] == rest[i - 1] && path[i + 1] == rest[i]; }
    }
  }

  lemma {:induction false} PathIsFollowed<Raw(!new), P, J, S>(
    c: Codec<Raw, P, J, S>, reg: Registry<Raw>, path: seq<(int, Raw)>)
    requires IsPath(c, reg, path) && c.Valid(path[|path| - 1].1)
    ensures Chain(c, reg, path[0].1, path[0].0) == Ok(path[|path| - 1].1)
    decreases |path|
  {
    if |path| > 1 {
      assert path[0].0 < c.current;
      PathIsFollowed(c, reg, path[1..]);
    }
  }

  /** For every registry, a stale document migrates to out exactly when a path of registered
      migrations leads to it and it is valid. */
  lemma MigrateOkIff<Raw(!new), P, J, S>(c: Codec<Raw, P, J, S>, reg: Registry<Raw>, data: Raw, out: Raw)
    requires VersionOf(c, data).Ok? && VersionOf(c, data).value < c.current
    ensures MigrateSpec(c, reg, data) == Ok(out) <==>
            c.Valid(out) && exists path: seq<(int, Raw)> ::
              && IsPath(c, reg, path) && path[0] == (VersionOf(c, data).value, data)
                                           && path[|path| - 1].1 == out
  {
    var v := VersionOf(c, data).value;
    if MigrateSpec(c, reg, data) == Ok(out) {
      var path := ChainFollowsAPath(c, reg, data, v);
      assert path[|path| - 1].1 == out;
    }
    if path: seq<(int, Raw)> :|
        c.Valid(out) && IsPath(c, reg, path) && path[0] == (v, data) && path[|path| - 1].1 == out
    {
      PathIsFollowed(c, reg, path);
    }
  }

  /** Every registered migration claims the version its output carries. */
  ghost predicate Honest<Raw(!new), P, J, S>(c: Codec<Raw, P, J, S>, reg: Registry<Raw>) {
    forall v, raw :: v in reg && reg[v](raw).Ok? ==> VersionOf(c, reg[v](raw).value.0) == Ok(reg[v](raw).value.1)
  }

  /** Migrate never checks the version it reaches against the current one.  With an honest registry,
      if the path of registered migrations from a document ends in a valid one, Migrate returns that,
      and migrating again changes nothing exactly when the path ends at the current version itself. */
  lemma IdempotentIff<Raw(!new), P, J, S>(c: Codec<Raw, P, J, S>, reg: Registry<Raw>, data: Raw, path: seq<(int, Raw)>)
    requires Honest(c, reg) && VersionOf(c, data).Ok? && VersionOf(c, data).value <= c.current
    requires IsPath(c, reg, path) && path[0] == (VersionOf(c, data).value, data) && c.Valid(path[|path| - 1].1)
    ensures var end := path[|path| - 1];
            && MigrateSpec(c, reg, data) == Ok(end.1)
            && (MigrateSpec(c, reg, end.1) == Ok(end.1) <==> end.0 == c.current)
  {
    PathIsFollowed(c, reg, path);
    var n := |path| - 1;
    if n > 0 { assert path[n - 1].0 in reg; }
  }

  /** A registry may overshoot: the first call succeeds and the second refuses its result. */
  lemma MigrateCanOvershoot()
    ensures exists c: Codec<int, (), (), ()>, reg: Registry<int> ::
              && Honest(c, reg) && MigrateSpec(c, reg, 0) == Ok(7)
              && MigrateSpec(c, reg, 7) == Err({ErrSchemaMismatch})
  {
    var c: Codec<int, (), (), ()> := Codec(1, r => Some(Some(r)), _ => None, _ => None, _ => None, _ => None);
    var reg: Registry<int> := map[0 := r => Ok((7, 7))];
    assert reg[0](0) == Ok((7, 7));
    assert Chain(c, reg, 0, 0) == Chain(c, reg, 7, 7) == Ok(7);
    assert Honest(c, reg);
    assert MigrateSpec(c, reg, 0) == Ok(7) && MigrateSpec(c, reg, 7) == Err({ErrSchemaMismatch});
  }

  // -------------------------------------------------------- the shipped chain

  const CURRENT := 1

  function FromLegacy<P, J, S>(current: int, l: Legacy<P, J, S>): Config<P, J, S> {
    Config(current, if l.language == "" then "en" else l.language, Some([l.profile]),
           if l.projects.None? then Some([]) else l.projects, l.settings)
  }

  function MigrateV0toV1<Raw, P, J, S>(c: Codec<Raw, P, J, S>, raw: Raw): Result<(Raw, int)> {
    match VersionOf(c, raw)
    case Err(e) => Err(e)
    case Ok(v) =>
      if v >= c.current then Ok((raw, v))
      else
        match c.legacy(raw)
        case None => Err({ErrInvalidJSON})
        case Some(l) =>
          match c.encode(FromLegacy(c.current, l))
          case None => Err({})
          case Some(out) => Ok((out, c.current))
  }

  function Shipped<Raw, P, J, S>(c: Codec<Raw, P, J, S>): Registry<Raw> {
    map[0 := raw => MigrateV0toV1(c, raw)]
  }

  /** What is written reads back, both as a header and as a whole. */
  ghost predicate Lawful<Raw(!new), P(!new), J(!new), S(!new)>(c: Codec<Raw, P, J, S>) {
    forall cfg :: c.encode(cfg).Some? ==>
      && c.header(c.encode(cfg).value) == Some(Some(cfg.schemaVersion))
      && c.decode(c.encode(cfg).value) == Some(cfg)
  }

  /** This release of the program. */
  ghost predicate Binary<Raw(!new), P(!new), J(!new), S(!new)>(c: Codec<Raw, P, J, S>) {
    c.current == CURRENT && Lawful(c)
  }

  lemma LawfulCodecExists<P(!new), J(!new), S(!new)>()
    ensures exists c: Codec<Config<P, J, S>, P, J, S> :: Binary(c)
  {
    var c: Codec<Config<P, J, S>, P, J, S> :=
      Codec(CURRENT, (r: Config<P, J, S>) => Some(Some(r.schemaVersion)), _ => None, r => Some(r), r => Some(r),
            _ => None);
    assert Binary(c);
  }

  lemma ShippedIsHonest<Raw(!new), P(!new), J(!new), S(!new)>(c: Codec<Raw, P, J, S>)
    requires Binary(c)
    ensures Honest(c, Shipped(c))
  {
  }

  /** The shipped chain on a stale document, unfolded. */
  lemma ShippedChain<Raw(!new), P(!new), J(!new), S(!new)>(c: Codec<Raw, P, J, S>, data: Raw)
    requires Binary(c) && VersionOf(c, data).Ok? && VersionOf(c, data).value < CURRENT
    ensures VersionOf(c, data).value < 0 ==>
              MigrateSpec(c, Shipped(c), data) == Err({ErrMigrationFailed, ErrNoMigrator})
    ensures VersionOf(c, data).value == 0 ==>
              MigrateSpec(c, Shipped(c), data) ==
              match MigrateV0toV1(c, data)
              case Err(e) => Err({ErrMigrationFailed} + e)
              case Ok(m) => if c.Valid(m.0) then Ok(m.0) else Err({ErrMigrationFailed} + c.validate(m.0).value)
  {
    var reg := Shipped(c);
    if VersionOf(c, data).value == 0 {
      assert reg[0](data) == MigrateV0toV1(c, data);
      match MigrateV0toV1(c, data) {
        case Err(e) =>
        case Ok((out, v)) => assert v == CURRENT; assert Chain(c, reg, data, 0) == Chain(c, reg, out, v);
      }
    }
  }

  /** With the shipped registry Migrate is idempotent on every document it accepts. */
  lemma ShippedIsIdempotent<Raw(!new), P(!new), J(!new), S(!new)>(c: Codec<Raw, P, J, S>, data: Raw)
    requires Binary(c) && MigrateSpec(c, Shipped(c), data).Ok?
    ensures var out := MigrateSpec(c, Shipped(c), data).value;
            VersionOf(c, out) == Ok(CURRENT) && MigrateSpec(c, Shipped(c), out) == Ok(out)
  {
    var v := VersionOf(c, data).value;
    if v < CURRENT {
      ShippedIsHonest(c);
      ShippedChain(c, data);
    }
  }

  /** What the shipped migration keeps, field by field, of the document it read. */
  predicate KeepsLegacy<P(==), J(==), S(==)>(l: Legacy<P, J, S>, cfg: Config<P, J, S>) {
    && cfg.schemaVersion == CURRENT
    && cfg.profiles == Some([l.profile])
    && (l.projects.Some? ==> cfg.projects == l.projects) && (l.projects.None? ==> cfg.projects == Some([]))
    && cfg.settings == l.settings
    && (l.language != "" ==> cfg.language == l.language) && (l.language == "" ==> cfg.language == "en")
  }

  /** A stale document is accepted only at version 0 (a missing version counts as 0), and then what
      comes out decodes to a current configuration with the legacy data kept. */
  lemma ShippedKeepsLegacy<Raw(!new), P(!new), J(!new), S(!new)>(c: Codec<Raw, P, J, S>, data: Raw)
    requires Binary(c) && VersionOf(c, data).Ok? && VersionOf(c, data).value < CURRENT
    ensures var r := MigrateSpec(c, Shipped(c), data);
            match r
            case Ok(out) =>
              && VersionOf(c, data) == Ok(0) && c.legacy(data).Some? && c.Valid(out)
              && c.decode(out).Some? && KeepsLegacy(c.legacy(data).value, c.decode(out).value)
            case Err(e) => ErrMigrationFailed in e && (VersionOf(c, data).value < 0 ==> ErrNoMigrator in e)
  {
    ShippedChain(c, data);
  }

  // ------------------------------------------------------------------- saving

  /** How the writes of Save go, given that the document encodes and is valid. */
  datatype SaveFate = Saved | FailsBeforeRename(e: Error) | FailsAfterRename(e: Error)

  predicate Refused(e: Error) {
    ErrSchemaViolation in e || ErrSecretInConfig in e || ErrDanglingProfileAlias in e
  }

  function Marshal<Raw, P, J, S>(c: Codec<Raw, P, J, S>, cfg: Config<P, J, S>): Result<Raw> {
    match c.encode(cfg)
    case None => Err({})
    case Some(raw) =>
      match c.validate(raw)
      case None => Ok(raw)
      case Some(e) => Err(if Refused(e) then {ErrSchemaMismatch} + e else e)
  }

  /** The configuration directory: the file and the backups beside it, named by version and time. */
  datatype Disk<Raw> = Disk(file: Option<Raw>, backups: map<(int, nat), Raw>)

  function SaveSpec<Raw, P, J, S>(c: Codec<Raw, P, J, S>, d: Disk<Raw>, cfg: Config<P, J, S>, fate: SaveFate)
    : (Disk<Raw>, Result<()>)
  {
    if fate.FailsBeforeRename? then (d, Err(fate.e))
    else
      match Marshal(c, cfg)
      case Err(e) => (d, Err(e))
      case Ok(raw) => (d.(file := Some(raw)), if fate.Saved? then Ok(()) else Err(fate.e))
  }

  // ------------------------------------------------------------------ loading

  /** How writing the backup goes: completed, file not created, or cut short leaving some bytes. */
  datatype BackupFate<+Raw> = BackedUp | NotCreated | CutShort(partial: Raw)

  /** What the surroundings do during one Load. */
  datatype Env<+Raw> = Env(
    contextError: bool, readError: bool, stamp: nat, backup: BackupFate<Raw>, save: SaveFate)

  function BackupSpec<Raw>(d: Disk<Raw>, version: int, raw: Raw, env: Env<Raw>): (Disk<Raw>, bool) {
    var name := (version, env.stamp);
    if name in d.backups || env.backup.NotCreated? then (d, false)
    else
      match env.backup
      case CutShort(p) => (d.(backups := d.backups[name := p]), false)
      case _ => (d.(backups := d.backups[name := raw]), true)
  }

  function DefaultConfig<P, J, S>(current: int): Config<P, J, S> {
    Config(current, "en", Some([]), Some([]), None)
  }

  /** Migrated and decoded, before anything is written. */
  function Upgraded<Raw, P, J, S>(c: Codec<Raw, P, J, S>, reg: Registry<Raw>, raw: Raw): Result<Config<P, J, S>> {
    match MigrateSpec(c, reg, raw)
    case Err(e) => Err({if ErrInvalidJSON in e then ErrCorruptedConfig else ErrMigrationFailed} + e)
    case Ok(out) => (match c.decode(out) case None => Err({ErrMigrationFailed}) case Some(cfg) => Ok(cfg))
  }

  /** A document that is already at the current version. */
  function ReadCurrent<Raw, P, J, S>(c: Codec<Raw, P, J, S>, raw: Raw): Result<Config<P, J, S>> {
    match c.validate(raw)
    case Some(e) => Err({if Refused(e) then ErrSchemaMismatch else ErrCorruptedConfig} + e)
    case None => (match c.decode(raw) case None => Err({ErrCorruptedConfig}) case Some(cfg) => Ok(cfg))
  }

  function LoadSpec<Raw, P, J, S>(c: Codec<Raw, P, J, S>, reg: Registry<Raw>, d: Disk<Raw>, env: Env<Raw>)
    : (Disk<Raw>, Result<Config<P, J, S>>)
  {
    if env.contextError then (d, Err({ErrContext}))
    else if env.readError then (d, Err({ErrCorruptedConfig}))
    else if d.file.None? then (d, Ok(DefaultConfig(c.current)))
    else
      var raw := d.file.value;
      match VersionOf(c, raw)
      case Err(e) => (d, Err({ErrCorruptedConfig} + e))
      case Ok(v) =>
        if v > c.current then (d, Err({ErrSchemaMismatch}))
        else if v < c.current then LoadStale(c, reg, d, raw, v, env)
        else (d, ReadCurrent(c, raw))
  }

  function LoadStale<Raw, P, J, S>(
    c: Codec<Raw, P, J, S>, reg: Registry<Raw>, d: Disk<Raw>, raw: Raw, v: int, env: Env<Raw>)
    : (Disk<Raw>, Result<Config<P, J, S>>)
  {
    if MigrateSpec(c, reg, raw).Err? then (d, Upgraded(c, reg, raw))
    else
      var (d1, backed) := BackupSpec(d, v, raw, env);
      if !backed then (d1, Err({ErrMigrationFailed}))
      else
        match Upgraded(c, reg, raw)
        case Err(e) => (d1, Err(e))
        case Ok(cfg) =>
          var (d2, saved) := SaveSpec(c, d1, cfg, env.save);
          (d2, if saved.Err? then Err({ErrMigrationFailed} + saved.err) else Ok(cfg))
  }

  /** The configuration directory as Load, Save and backupOriginal change it. */
  class ConfigDir<Raw> {
    var file: Option<Raw>
    var backups: map<(int, nat), Raw>

    ghost function State(): Disk<Raw> reads this { Disk(file, backups) }

    constructor (d: Disk<Raw>)
      ensures State() == d
    {
      file, backups := d.file, d.backups;
    }

    method BackupOriginal(version: int, raw: Raw, env: Env<Raw>) returns (ok: bool)
      modifies this
      ensures (State(), ok) == BackupSpec(old(State()), version, raw, env)
    {
      var name := (version, env.stamp);
      if name in backups { return false; }
      match env.backup
      case NotCreated => ok := false;
      case CutShort(partial) => backups := backups[name := partial]; ok := false;
      case BackedUp => backups := backups[name := raw]; ok := true;
    }

    method Save<P, J, S>(c: Codec<Raw, P, J, S>, cfg: Config<P, J, S>, fate: SaveFate) returns (r: Result<()>)
      modifies this
      ensures (State(), r) == SaveSpec(c, old(State()), cfg, fate)
    {
      if fate.FailsBeforeRename? { return Err(fate.e); }
      var m := Marshal(c, cfg);
      if m.Err? { return Err(m.err); }
      file := Some(m.value);
      r := if fate.Saved? then Ok(()) else Err(fate.e);
    }

    method Load<P, J, S>(c: Codec<Raw, P, J, S>, reg: Registry<Raw>, env: Env<Raw>) returns (r: Result<Config<P, J, S>>)
      modifies this
      ensures (State(), r) == LoadSpec(c, reg, old(State()), env)
    {
      if env.contextError { return Err({ErrContext}); }
      if env.readError { return Err({ErrCorruptedConfig}); }
      if file.None? { return Ok(DefaultConfig(c.current)); }
      var raw := file.value;
      var version := VersionOf(c, raw);
      if version.Err? { return Err({ErrCorruptedConfig} + version.err); }
      var v := version.value;
      if v > c.current { return Err({ErrSchemaMismatch}); }
      if v < c.current {
        var m, _ := Migrate(c, reg, raw);
        if m.Err? {
          return Err({if ErrInvalidJSON in m.err then ErrCorruptedConfig else ErrMigrationFailed} + m.err);
        }
        var backed := BackupOriginal(v, raw, env);
        if !backed { return Err({ErrMigrationFailed}); }
        var decoded := c.decode(m.value);
        if decoded.None? { return Err({ErrMigrationFailed}); }
        var saved := Save(c, decoded.value, env.save);
        if saved.Err? { return Err({ErrMigrationFailed} + saved.err); }
        return Ok(decoded.value);
      }
      match c.validate(raw)
      case Some(e) => return Err({if Refused(e) then ErrSchemaMismatch else ErrCorruptedConfig} + e);
      case None =>
        var decoded := c.decode(raw);
        r := if decoded.None? then Err({ErrCorruptedConfig}) else Ok(decoded.value);
    }
  }

  // ----------------------------------------------------------------- theorems

  /** What a file means to this binary, with no failure around: a function of its bytes alone. */
  function Meaning<Raw, P, J, S>(c: Codec<Raw, P, J, S>, file: Option<Raw>): Option<Config<P, J, S>> {
    if file.None? then Some(DefaultConfig(c.current))
    else
      match VersionOf(c, file.value)
      case Err(_) => None
      case Ok(v) =>
        var cfg := if v < c.current then Upgraded(c, Shipped(c), file.value) else ReadCurrent(c, file.value);
        if v > c.current || cfg.Err? || (v < c.current && Marshal(c, cfg.value).Err?) then None else Some(cfg.value)
  }

  /** The surroundings do not get in the way of a Load of this disk. */
  predicate Smooth<Raw>(d: Disk<Raw>, env: Env<Raw>) {
    && !env.contextError && !env.readError && env.backup.BackedUp? && env.save.Saved?
    && forall name :: name in d.backups ==> name.1 != env.stamp
  }

  /** With nothing in the way, Load succeeds exactly on the files that mean something. */
  lemma SmoothLoad<Raw(!new), P(!new), J(!new), S(!new)>(c: Codec<Raw, P, J, S>, d: Disk<Raw>, env: Env<Raw>)
    requires Smooth(d, env)
    ensures var r := LoadSpec(c, Shipped(c), d, env).1;
            match Meaning(c, d.file) case Some(cfg) => r == Ok(cfg) case None => r.Err?
  {
  }

  /** An upgraded configuration is at the current version. */
  lemma UpgradedIsCurrent<Raw(!new), P(!new), J(!new), S(!new)>(c: Codec<Raw, P, J, S>, raw: Raw)
    requires Binary(c) && VersionOf(c, raw).Ok? && VersionOf(c, raw).value < CURRENT
    requires Upgraded(c, Shipped(c), raw).Ok?
    ensures Upgraded(c, Shipped(c), raw).value.schemaVersion == CURRENT
  {
    ShippedKeepsLegacy(c, raw);
  }

  /** A written configuration means itself exactly when it is at the current version. */
  lemma SavedMeansItselfIff<Raw(!new), P(!new), J(!new), S(!new)>(c: Codec<Raw, P, J, S>, cfg: Config<P, J, S>)
    requires Binary(c) && Marshal(c, cfg).Ok?
    ensures Meaning(c, Some(Marshal(c, cfg).value)) == Some(cfg) <==> cfg.schemaVersion == CURRENT
  {
    var raw := Marshal(c, cfg).value;
    if cfg.schemaVersion < CURRENT && Upgraded(c, Shipped(c), raw).Ok? {
      UpgradedIsCurrent(c, raw);
    }
  }

  /** Whatever goes wrong in a Load, what the file means is kept; a Load that succeeds returns it;
      a file that is replaced is first kept whole in a backup under a new name; and no backup is
      ever changed. */
  lemma LoadKeepsTheMeaning<Raw(!new), P(!new), J(!new), S(!new)>(
    c: Codec<Raw, P, J, S>, d: Disk<Raw>, env: Env<Raw>)
    requires Binary(c)
    ensures var (d', r) := LoadSpec(c, Shipped(c), d, env);
            && Meaning(c, d'.file) == Meaning(c, d.file)
            && (r.Ok? ==> Meaning(c, d.file) == Some(r.value))
            && (d'.file != d.file ==> d.file.Some? && d'.file.Some? && d.file.value in d'.backups.Values)
            && (forall name :: name in d.backups ==> name in d'.backups && d'.backups[name] == d.backups[name])
  {
    var (d', r) := LoadSpec(c, Shipped(c), d, env);
    if d'.file != d.file {
      var raw, v := d.file.value, VersionOf(c, d.file.value).value;
      var cfg := Upgraded(c, Shipped(c), raw).value;
      UpgradedIsCurrent(c, raw);
      SavedMeansItselfIff(c, cfg);
      assert d'.backups[(v, env.stamp)] == raw;
    }
  }

  /** No file yet: the defaults of this release, and nothing is written. */
  lemma MissingFileLoadsDefaults<Raw(!new), P(!new), J(!new), S(!new)>(
    c: Codec<Raw, P, J, S>, d: Disk<Raw>, env: Env<Raw>)
    requires Binary(c) && d.file.None? && !env.contextError && !env.readError
    ensures LoadSpec(c, Shipped(c), d, env) == (d, Ok(Config(1, "en", Some([]), Some([]), None)))
  {
  }

  /** The validator blames the content: the schema, a secret, or a project of an unknown profile. */
  predicate Blames(why: Error) {
    why * {ErrSchemaViolation, ErrSecretInConfig, ErrDanglingProfileAlias} != {}
  }

  lemma BlamesIff(why: Error)
    ensures Blames(why) <==> Refused(why)
  {
    var bad := {ErrSchemaViolation, ErrSecretInConfig, ErrDanglingProfileAlias};
    assert forall x :: x in why * bad <==> x in why && x in bad;
    assert Refused(why) ==> exists x :: x in why * bad;
  }

  /** A configuration the validator refuses is never written, and blamed on its content the error says
      so. */
  lemma SaveErrors<Raw(!new), P(!new), J(!new), S(!new)>(
    c: Codec<Raw, P, J, S>, d: Disk<Raw>, cfg: Config<P, J, S>, raw: Raw, why: Error, fate: SaveFate)
    requires c.encode(cfg) == Some(raw) && c.validate(raw) == Some(why) && !fate.FailsBeforeRename?
    ensures SaveSpec(c, d, cfg, fate) == (d, Err(if Blames(why) then why + {ErrSchemaMismatch} else why))
  {
    BlamesIff(why);
    assert {ErrSchemaMismatch} + why == why + {ErrSchemaMismatch};
  }

  /** What Migrate refuses before it tries anything, with any registry. */
  lemma MigrateRefuses<Raw, P, J, S>(c: Codec<Raw, P, J, S>, reg: Registry<Raw>, raw: Raw)
    ensures c.header(raw).None? ==>
              MigrateSpec(c, reg, raw) == Err({ErrInvalidJSON}) && MigrateV0toV1(c, raw) == Err({ErrInvalidJSON})
    ensures VersionOf(c, raw).Ok? && VersionOf(c, raw).value > c.current ==>
              MigrateSpec(c, reg, raw) == Err({ErrSchemaMismatch})
    ensures VersionOf(c, raw) == Ok(c.current) ==>
              MigrateSpec(c, reg, raw) == match c.validate(raw) case None => Ok(raw) case Some(e) => Err(e)
  {
  }

  /** With any registry, a stale file that cannot be loaded is a failed migration, or corrupted JSON. */
  lemma StaleErrors<Raw, P, J, S>(
    c: Codec<Raw, P, J, S>, reg: Registry<Raw>, d: Disk<Raw>, raw: Raw, v: int, env: Env<Raw>)
    requires LoadStale(c, reg, d, raw, v, env).1.Err?
    ensures var e := LoadStale(c, reg, d, raw, v, env).1.err;
            ErrMigrationFailed in e || (ErrCorruptedConfig in e && ErrInvalidJSON in e)
  {
  }

  /** Documents that are not older are handed on as they are. */
  lemma NewerIsLeftAlone<Raw(!new), P(!new), J(!new), S(!new)>(c: Codec<Raw, P, J, S>, raw: Raw, v: int)
    requires VersionOf(c, raw) == Ok(v) && v >= c.current
    ensures MigrateV0toV1(c, raw) == Ok((raw, v))
  {
  }

  /** Which error each failing Load reports. */
  lemma LoadErrors<Raw(!new), P(!new), J(!new), S(!new)>(c: Codec<Raw, P, J, S>, d: Disk<Raw>, env: Env<Raw>)
    requires Binary(c) && LoadSpec(c, Shipped(c), d, env).1.Err?
    ensures var e := LoadSpec(c, Shipped(c), d, env).1.err;
            if env.contextError then e == {ErrContext}
            else if env.readError then e == {ErrCorruptedConfig}
            else
              && d.file.Some?
              && var raw := d.file.value;
                 match c.header(raw)
                 case None => ErrCorruptedConfig in e && ErrInvalidJSON in e
                 case Some(v) =>
                   var version := if v.None? then 0 else v.value;
                   if version > 1 then e == {ErrSchemaMismatch}
                   else if version == 1 then
                     match c.validate(raw)
                     case None => e == {ErrCorruptedConfig}
                     case Some(why) => e == why + {if Blames(why) then ErrSchemaMismatch else ErrCorruptedConfig}
                   else if version == 0 && c.legacy(raw).None? then ErrCorruptedConfig in e && ErrInvalidJSON in e
                   else if version < 0 then ErrMigrationFailed in e && ErrNoMigrator in e
                   else ErrMigrationFailed in e || ErrCorruptedConfig in e
  {
    if !env.contextError && !env.readError && d.file.Some? {
      var v := VersionOf(c, d.file.value);
      if v.Ok? && v.value < CURRENT { ShippedChain(c, d.file.value); }
      if c.validate(d.file.value).Some? { BlamesIff(c.validate(d.file.value).value); }
    }
  }

  /** A Load that succeeds leaves a directory a later Load returns the same configuration from,
      without touching it again. */
  lemma SecondLoadIsANoOp<Raw(!new), P(!new), J(!new), S(!new)>(
    c: Codec<Raw, P, J, S>, d: Disk<Raw>, env: Env<Raw>, later: Env<Raw>)
    requires Binary(c) && LoadSpec(c, Shipped(c), d, env).1.Ok?
    requires !later.contextError && !later.readError
    ensures var (d', r) := LoadSpec(c, Shipped(c), d, env); LoadSpec(c, Shipped(c), d', later) == (d', r)
  {
    if !d.file.None? && VersionOf(c, d.file.value).value < CURRENT {
      UpgradedIsCurrent(c, d.file.value);
    }
  }

  function RunLoads<Raw, P, J, S>(c: Codec<Raw, P, J, S>, d: Disk<Raw>, envs: seq<Env<Raw>>): Disk<Raw>
    decreases |envs|
  {
    if envs == [] then d else RunLoads(c, LoadSpec(c, Shipped(c), d, envs[0]).0, envs[1..])
  }

  /** Over any number of Loads, failing in any way, the meaning of the file never changes, and the
      bytes the run began with are still the file or one of the backups. */
  lemma {:induction false} NothingIsLost<Raw(!new), P(!new), J(!new), S(!new)>(
    c: Codec<Raw, P, J, S>, d: Disk<Raw>, envs: seq<Env<Raw>>)
    requires Binary(c)
    ensures var d' := RunLoads(c, d, envs);
            && Meaning(c, d'.file) == Meaning(c, d.file)
            && (d.file.Some? ==> d'.file == d.file || d.file.value in d'.backups.Values)
            && (forall name :: name in d.backups ==> name in d'.backups && d'.backups[name] == d.backups[name])
    decreases |envs|
  {
    if envs != [] {
      LoadKeepsTheMeaning(c, d, envs[0]);
      var d1 := LoadSpec(c, Shipped(c), d, envs[0]).0;
      NothingIsLost(c, d1, envs[1..]);
      if d1.file != d.file {
        var name :| name in d1.backups && d1.backups[name] == d.file.value;
        assert RunLoads(c, d1, envs[1..]).backups[name] == d.file.value;
      }
    }
  }
}
