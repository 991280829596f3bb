/**
 Storage profiles under configuration imports and database migrations: one
 current profile, at most one staged target, and how a staged target gets lost.
 */
module StorageSlots {
  import opened Common

  type Fingerprint = int
  type Payload = int

  datatype Slot = Current | Migration | Historical

  datatype Status = Active | MigrationTarget | MigrationFailed | Superseded

  /** Row ids are hashes of these; the hash is taken to be injective. */
  datatype ProfileId = CurrentId | MigrationId(fingerprint: Fingerprint) | HistoricalId(of: ProfileId, at: Time)

  datatype Profile = Profile(
    slot: Slot, status: Status, fingerprint: Fingerprint, payload: Payload, migratedFrom: Option<ProfileId>)

  type Profiles = map<ProfileId, Profile>

  /** A configuration: the profile it describes, and the local one it falls back on. */
  datatype Config = Config(
    fingerprint: Fingerprint, payload: Payload, external: bool, localFingerprint: Fingerprint, localPayload: Payload)

  /** The profile table and what the storage keys of the configuration table describe. */
  datatype Db = Db(profiles: Profiles, entries: Option<Payload>)

  predicate IsCurrent(p: Profile) { p.slot == Current && p.status == Active }

  predicate IsTarget(p: Profile) { p.slot == Migration && p.status == MigrationTarget }

  // --------------------------------------------------------------- statements

  /** INSERT ... ON CONFLICT (id) DO UPDATE; the update leaves the slot as it is. */
  function Upserted(t: Profiles, id: ProfileId, slot: Slot, status: Status, fingerprint: Fingerprint, payload: Payload): Profiles {
    t[id := Profile(if id in t then t[id].slot else slot, status, fingerprint, payload, None)]
  }

  function Retired(t: Profiles): Profiles {
    map id | id in t :: if t[id].slot == Migration then t[id].(slot := Historical, status := Superseded) else t[id]
  }

  function MarkedFailed(t: Profiles, id: ProfileId): Profiles {
    if id in t then t[id := t[id].(status := MigrationFailed)] else t
  }

  function Promoted(t: Profiles, current: ProfileId, target: ProfileId): Profiles
    requires current in t && target in t
  {
    var u := t[current := t[current].(slot := Historical, status := Superseded)];
    u[target := u[target].(slot := Current, status := Active, migratedFrom := Some(current))]
  }

  // --------------------------------------------------------------- invariant

  ghost predicate SlotsOk(t: Profiles) {
    && (t != map[] ==> exists id :: id in t && IsCurrent(t[id]))
    && (forall i, k :: i in t && k in t && t[i].slot == Current && t[k].slot == Current ==> i == k)
    && (forall i, k :: i in t && k in t && t[i].slot == Migration && t[k].slot == Migration ==> i == k)
    && (forall i :: i in t && t[i].slot == Current ==> t[i].status == Active)
    && (forall i :: i in t && t[i].slot == Migration ==> t[i].status == MigrationTarget || t[i].status == MigrationFailed)
    && (forall i :: i in t && i.MigrationId? ==> t[i].fingerprint == i.fingerprint)
    && (forall i :: i in t && t[i].slot == Migration ==> i.MigrationId?)
  }

  ghost predicate CurrentIs(t: Profiles, f: Fingerprint) {
    exists id :: id in t && IsCurrent(t[id]) && t[id].fingerprint == f
  }

  ghost predicate TargetIs(t: Profiles, f: Fingerprint) {
    exists id :: id in t && IsTarget(t[id]) && t[id].fingerprint == f
  }

  // -------------------------------------------------------------- operations

  /** What a migration meets: each step can fail, and so can recording the failure. */
  datatype Target = Target(configOk: bool, openOk: bool, migrateOk: bool, fingerprint: Fingerprint, copyOk: bool, promoteOk: bool, markOk: bool)

  datatype Outcome = NoCurrent | NoTarget | Failed | Succeeded(previous: ProfileId, current: ProfileId)

  class ConfigStore {
    var profiles: Profiles
    var entries: Option<Payload>

    ghost predicate Valid()
      reads this
    {
      SlotsOk(profiles)
    }

    constructor ()
      ensures Valid() && profiles == map[] && entries == None
    {
      profiles, entries := map[], None;
    }

    method StorageProfile(slot: Slot, status: Status) returns (id: Option<ProfileId>)
      ensures id.Some? ==> id.value in profiles && profiles[id.value].slot == slot && profiles[id.value].status == status
      ensures id.None? ==> forall i :: i in profiles ==> !(profiles[i].slot == slot && profiles[i].status == status)
    {
      if i :| i in profiles && profiles[i].slot == slot && profiles[i].status == status { return Some(i); }
      return None;
    }

    method RetireMigrationProfiles()
      modifies this`profiles
      ensures profiles == Retired(old(profiles))
    {
      profiles := map id | id in profiles ::
        if profiles[id].slot == Migration then profiles[id].(slot := Historical, status := Superseded) else profiles[id];
    }

    method UpsertStorageProfile(id: ProfileId, slot: Slot, status: Status, fingerprint: Fingerprint, payload: Payload)
      modifies this`profiles
      ensures profiles == Upserted(old(profiles), id, slot, status, fingerprint, payload)
    {
      if id in profiles {
        profiles := profiles[id := profiles[id].(status := status, fingerprint := fingerprint, payload := payload, migratedFrom := None)];
      } else {
        profiles := profiles[id := Profile(slot, status, fingerprint, payload, None)];
      }
    }

    /**
     Imports a configuration in one transaction. A configuration that describes
     another database than the current one never touches the current profile: it
     is staged, and staged in vain exactly when its row id was already taken.
     */
    method Import(cfg: Config, commits: bool)
      requires Valid()
      modifies this
      ensures Valid()
      ensures !commits ==> profiles == old(profiles) && entries == old(entries)
      ensures commits ==> Db(profiles, entries) == Imported(Db(old(profiles), old(entries)), cfg)
      ensures commits ==> ImportsAs(Db(old(profiles), old(entries)), Db(profiles, entries), cfg)
    {
      ImportKeepsSlots(Db(profiles, entries), cfg);
      ImportMeans(Db(profiles, entries), cfg);
      if !commits { return; }
      var current := StorageProfile(Current, Active);
      CurrentFound(profiles);
      var bootstrap := current.None? && cfg.external;
      var changed := bootstrap || (current.Some? && profiles[current.value].fingerprint != cfg.fingerprint);
      if changed {
        if bootstrap {
          entries := Some(cfg.localPayload);
          UpsertStorageProfile(CurrentId, Current, Active, cfg.localFingerprint, cfg.localPayload);
        } else {
          entries := Some(profiles[current.value].payload);
        }
        RetireMigrationProfiles();
        UpsertStorageProfile(MigrationId(cfg.fingerprint), Migration, MigrationTarget, cfg.fingerprint, cfg.payload);
      } else {
        entries := Some(cfg.payload);
        UpsertStorageProfile(if current.Some? then current.value else CurrentId, Current, Active, cfg.fingerprint, cfg.payload);
      }
    }

    method MarkMigrationFailed(id: ProfileId, ok: bool)
      modifies this`profiles
      ensures profiles == if ok then MarkedFailed(old(profiles), id) else old(profiles)
    {
      if ok && id in profiles { profiles := profiles[id := profiles[id].(status := MigrationFailed)]; }
    }

    method PromoteMigrationProfile(current: ProfileId, target: ProfileId, ok: bool)
      requires current in profiles && target in profiles
      modifies this`profiles
      ensures profiles == if ok then Promoted(old(profiles), current, target) else old(profiles)
    {
      if !ok { return; }
      profiles := profiles[current := profiles[current].(slot := Historical, status := Superseded)];
      profiles := profiles[target := profiles[target].(slot := Current, status := Active, migratedFrom := Some(current))];
    }

    /** Moves to the staged target if every step succeeds; `copy` is what it leaves in the target database. */
    method MigrateDB(t: Target, now: Time) returns (res: Outcome, copy: Db)
      requires Valid()
      modifies this`profiles
      ensures Valid()
      ensures profiles == Migrated(old(profiles), t)
      ensures res.Succeeded? <==> Works(t) && exists id :: id in old(profiles) && IsTarget(old(profiles)[id]) && old(profiles)[id].fingerprint == t.fingerprint
      ensures res.Succeeded? ==> CurrentIs(profiles, t.fingerprint) && SlotsOk(copy.profiles) && CurrentIs(copy.profiles, t.fingerprint)
      ensures res.Succeeded? ==> Told(copy)
      ensures res.NoCurrent? <==> forall i :: i in old(profiles) ==> !IsCurrent(old(profiles)[i])
      ensures res.NoTarget? ==> forall i :: i in old(profiles) ==> !IsTarget(old(profiles)[i])
      ensures MovesAs(old(profiles), profiles, t, res)
    {
      MigrationKeepsSlots(profiles, t);
      CurrentFound(profiles);
      copy := Db(map[], None);
      var current := StorageProfile(Current, Active);
      if current.None? { return NoCurrent, copy; }
      var target := StorageProfile(Migration, MigrationTarget);
      if target.None? { return NoTarget, copy; }
      TargetFound(profiles, target.value);
      if !t.configOk || !t.openOk || !t.migrateOk || t.fingerprint != profiles[target.value].fingerprint || !t.copyOk {
        MarkMigrationFailed(target.value, t.markOk);
        return Failed, copy;
      }
      copy := CopyMigratedData(current.value, target.value, now);
      PromoteMigrationProfile(current.value, target.value, t.promoteOk);
      if !t.promoteOk { return Failed, copy; }
      assert IsCurrent(profiles[target.value]);
      return Succeeded(current.value, target.value), copy;
    }

    /** What is written to the target database, after its tables are cleared. */
    method CopyMigratedData(current: ProfileId, target: ProfileId, now: Time) returns (copy: Db)
      requires Valid() && current in profiles && target in profiles && IsCurrent(profiles[current]) && IsTarget(profiles[target])
      ensures SlotsOk(copy.profiles) && CurrentIs(copy.profiles, profiles[target].fingerprint) && Told(copy)
      ensures copy.profiles.Keys == {HistoricalId(current, now), target}
      ensures copy.profiles[target] == Profile(Current, Active, profiles[target].fingerprint, profiles[target].payload, Some(current))
      ensures copy.profiles[HistoricalId(current, now)] == Profile(Historical, Superseded, profiles[current].fingerprint, profiles[current].payload, None)
    {
      var rows := map[];
      rows := rows[HistoricalId(current, now) := Profile(Historical, Superseded, profiles[current].fingerprint, profiles[current].payload, None)];
      rows := rows[target := Profile(Current, Active, profiles[target].fingerprint, profiles[target].payload, Some(current))];
      assert IsCurrent(rows[target]);
      copy := Db(rows, Some(profiles[target].payload));
    }
  }

  // ------------------------------------------- the operations in terms of columns

  /** The profile is the current one. */
  ghost predicate Holds(t: Profiles, id: ProfileId) { id in t && t[id].slot == Current && t[id].status == Active }

  /** The storage keys describe the current profile. */
  ghost predicate Told(db: Db) {
    exists c :: Holds(db.profiles, c) && db.entries == Some(db.profiles[c].payload)
  }

  /** Staging: the row of the configuration is written, the rows that were in the migration slot become historical, all others stay. */
  ghost predicate Stages(t: Profiles, u: Profiles, cfg: Config) {
    var m := MigrationId(cfg.fingerprint);
    && u.Keys == t.Keys + {m}
    && (forall id :: id in t && id != m ==> u[id] == if t[id].slot == Migration then t[id].(slot := Historical, status := Superseded) else t[id])
    && u[m] == Profile(if m !in t then Migration else if t[m].slot == Migration then Historical else t[m].slot, MigrationTarget, cfg.fingerprint, cfg.payload, None)
  }

  /** What a committed import leaves, by whether there is a current profile and whether it is the database of the configuration. */
  ghost predicate ImportsAs(db: Db, db': Db, cfg: Config) {
    var t, u := db.profiles, db'.profiles;
    if t == map[] && !cfg.external then u == map[CurrentId := Profile(Current, Active, cfg.fingerprint, cfg.payload, None)] && db'.entries == Some(cfg.payload)
    else if t == map[] then
      Stages(map[CurrentId := Profile(Current, Active, cfg.localFingerprint, cfg.localPayload, None)], u, cfg) && db'.entries == Some(cfg.localPayload)
    else
      exists c :: Holds(t, c) &&
        if t[c].fingerprint == cfg.fingerprint then
          u == t[c := Profile(Current, Active, cfg.fingerprint, cfg.payload, None)] && db'.entries == Some(cfg.payload)
        else Stages(t, u, cfg) && db'.entries == Some(t[c].payload)
  }

  /** What a migration leaves, by its outcome. */
  ghost predicate MovesAs(t: Profiles, u: Profiles, target: Target, res: Outcome) {
    match res
    case NoCurrent => u == t
    case NoTarget => u == t
    case Failed =>
      exists m :: m in t && t[m].slot == Migration && t[m].status == MigrationTarget &&
        var refused := !target.configOk || !target.openOk || !target.migrateOk || target.fingerprint != t[m].fingerprint || !target.copyOk;
        (refused || !target.promoteOk) && u == if refused && target.markOk then t[m := t[m].(status := MigrationFailed)] else t
    case Succeeded(c, m) =>
      && Holds(t, c) && m in t && t[m].slot == Migration && t[m].status == MigrationTarget && t[m].fingerprint == target.fingerprint
      && u == t[c := t[c].(slot := Historical, status := Superseded)][m := t[m].(slot := Current, status := Active, migratedFrom := Some(c))]
  }

  lemma UpsertStages(t: Profiles, cfg: Config)
    ensures Stages(t, Upserted(Retired(t), MigrationId(cfg.fingerprint), Migration, MigrationTarget, cfg.fingerprint, cfg.payload), cfg)
  {
  }

  lemma ImportMeans(db: Db, cfg: Config)
    requires SlotsOk(db.profiles)
    ensures ImportsAs(db, Imported(db, cfg), cfg)
  {
    var t := db.profiles;
    if t != map[] {
      var c := CurrentOf(t);
      assert Holds(t, c);
      UpsertStages(t, cfg);
    } else {
      assert forall id :: id !in t;
      var u := map[CurrentId := Profile(Current, Active, cfg.localFingerprint, cfg.localPayload, None)];
      assert Upserted(t, CurrentId, Current, Active, cfg.localFingerprint, cfg.localPayload) == u;
      UpsertStages(u, cfg);
      assert Upserted(t, CurrentId, Current, Active, cfg.fingerprint, cfg.payload) == map[CurrentId := Profile(Current, Active, cfg.fingerprint, cfg.payload, None)];
    }
  }

  // ------------------------------------------------------- operations as functions

  ghost function CurrentOf(t: Profiles): ProfileId
    requires exists id :: id in t && IsCurrent(t[id])
  {
    var id :| id in t && IsCurrent(t[id]);
    id
  }

  ghost function Imported(db: Db, cfg: Config): Db {
    var t := db.profiles;
    if exists id :: id in t && IsCurrent(t[id]) then
      var c := CurrentOf(t);
      if t[c].fingerprint == cfg.fingerprint then
        Db(Upserted(t, c, Current, Active, cfg.fingerprint, cfg.payload), Some(cfg.payload))
      else
        Db(Upserted(Retired(t), MigrationId(cfg.fingerprint), Migration, MigrationTarget, cfg.fingerprint, cfg.payload), Some(t[c].payload))
    else if cfg.external then
      var u := Upserted(t, CurrentId, Current, Active, cfg.localFingerprint, cfg.localPayload);
      Db(Upserted(Retired(u), MigrationId(cfg.fingerprint), Migration, MigrationTarget, cfg.fingerprint, cfg.payload), Some(cfg.localPayload))
    else
      Db(Upserted(t, CurrentId, Current, Active, cfg.fingerprint, cfg.payload), Some(cfg.payload))
  }

  /** Every step up to the promotion succeeds. */
  predicate Works(t: Target) { t.configOk && t.openOk && t.migrateOk && t.copyOk && t.promoteOk }

  ghost function Migrated(p: Profiles, t: Target): Profiles {
    if (exists id :: id in p && IsCurrent(p[id])) && exists id :: id in p && IsTarget(p[id]) then
      var c := CurrentOf(p);
      var m :| m in p && IsTarget(p[m]);
      if !t.configOk || !t.openOk || !t.migrateOk || t.fingerprint != p[m].fingerprint || !t.copyOk then
        if t.markOk then MarkedFailed(p, m) else p
      else if t.promoteOk then Promoted(p, c, m)
      else p
    else p
  }

  lemma CurrentFound(t: Profiles)
    requires SlotsOk(t)
    ensures forall id :: id in t && IsCurrent(t[id]) ==> (exists i :: i in t && IsCurrent(t[i])) && id == CurrentOf(t)
  {
  }

  lemma TargetFound(t: Profiles, m: ProfileId)
    requires SlotsOk(t) && m in t && IsTarget(t[m])
    ensures forall i :: i in t && IsTarget(t[i]) ==> i == m
  {
  }

  lemma ImportKeepsSlots(db: Db, cfg: Config)
    requires SlotsOk(db.profiles)
    ensures SlotsOk(Imported(db, cfg).profiles)
  {
    var t := db.profiles;
    if exists id :: id in t && IsCurrent(t[id]) {
      var c := CurrentOf(t);
      if t[c].fingerprint == cfg.fingerprint {
        assert IsCurrent(Imported(db, cfg).profiles[c]);
      } else {
        StagingKeepsSlots(t, c, cfg);
      }
    } else {
      assert t == map[];
      var u := Upserted(t, CurrentId, Current, Active, cfg.localFingerprint, cfg.localPayload);
      if cfg.external { assert IsCurrent(u[CurrentId]); StagingKeepsSlots(u, CurrentId, cfg); }
      else { assert IsCurrent(Imported(db, cfg).profiles[CurrentId]); }
    }
  }

  lemma RetiringKeepsSlots(t: Profiles, c: ProfileId)
    requires SlotsOk(t) && c in t && IsCurrent(t[c])
    ensures SlotsOk(Retired(t)) && Retired(t)[c] == t[c]
    ensures forall i :: i in Retired(t) ==> Retired(t)[i].slot != Migration
  {
    assert IsCurrent(Retired(t)[c]);
  }

  lemma UpsertKeepsSlots(t: Profiles, c: ProfileId, f: Fingerprint, payload: Payload)
    requires SlotsOk(t) && c in t && IsCurrent(t[c]) && c != MigrationId(f)
    requires forall i :: i in t ==> t[i].slot != Migration
    ensures SlotsOk(Upserted(t, MigrationId(f), Migration, MigrationTarget, f, payload))
  {
    var u := Upserted(t, MigrationId(f), Migration, MigrationTarget, f, payload);
    assert u[c] == t[c];
    if MigrationId(f) in t { assert t[MigrationId(f)].slot != Current; }
  }

  lemma StagingKeepsSlots(t: Profiles, c: ProfileId, cfg: Config)
    requires SlotsOk(t) && c in t && IsCurrent(t[c]) && (t[c].fingerprint != cfg.fingerprint || c == CurrentId)
    ensures SlotsOk(Upserted(Retired(t), MigrationId(cfg.fingerprint), Migration, MigrationTarget, cfg.fingerprint, cfg.payload))
  {
    RetiringKeepsSlots(t, c);
    UpsertKeepsSlots(Retired(t), c, cfg.fingerprint, cfg.payload);
  }

  lemma PromotionKeepsSlots(p: Profiles, c: ProfileId, m: ProfileId)
    requires SlotsOk(p) && c in p && IsCurrent(p[c]) && m in p && IsTarget(p[m])
    ensures SlotsOk(Promoted(p, c, m))
  {
    var q := Promoted(p, c, m);
    assert IsCurrent(q[m]);
    forall i | i in q && i != m ensures q[i].slot != Current && q[i].slot != Migration {}
  }

  lemma FailureKeepsSlots(p: Profiles, c: ProfileId, m: ProfileId)
    requires SlotsOk(p) && c in p && IsCurrent(p[c]) && m in p && IsTarget(p[m])
    ensures SlotsOk(MarkedFailed(p, m))
  {
    var q := MarkedFailed(p, m);
    assert q[c] == p[c];
    forall i | i in q ensures q[i].slot == p[i].slot && q[i].fingerprint == p[i].fingerprint {}
  }

  lemma MigrationKeepsSlots(p: Profiles, t: Target)
    requires SlotsOk(p)
    ensures SlotsOk(Migrated(p, t))
  {
    if (exists id :: id in p && IsCurrent(p[id])) && exists id :: id in p && IsTarget(p[id]) {
      var c := CurrentOf(p);
      var m :| m in p && IsTarget(p[m]);
      TargetFound(p, m);
      PromotionKeepsSlots(p, c, m);
      FailureKeepsSlots(p, c, m);
    }
  }

  // ------------------------------------------------------------- whole histories

  datatype Operation = Import(cfg: Config, commits: bool) | Migrate(target: Target)

  ghost function After(db: Db, op: Operation): Db {
    match op
    case Import(cfg, commits) => if commits then Imported(db, cfg) else db
    case Migrate(t) => db.(profiles := Migrated(db.profiles, t))
  }

  ghost function History(db: Db, ops: seq<Operation>): Db
    decreases |ops|
  {
    if ops == [] then db else History(After(db, ops[0]), ops[1..])
  }

  ghost predicate Started(ops: seq<Operation>) { exists i :: 0 <= i < |ops| && ops[i].Import? && ops[i].commits }

  lemma {:induction false} SlotsAlways(db: Db, ops: seq<Operation>)
    requires SlotsOk(db.profiles)
    ensures SlotsOk(History(db, ops).profiles)
    ensures db.profiles != map[] || Started(ops) ==> History(db, ops).profiles != map[]
    decreases |ops|
  {
    if ops != [] {
      var next := After(db, ops[0]);
      if ops[0].Import? { ImportKeepsSlots(db, ops[0].cfg); } else { MigrationKeepsSlots(db.profiles, ops[0].target); }
      RowsStay(db, ops[0]);
      if Started(ops) && !(ops[0].Import? && ops[0].commits) {
        var i :| 0 <= i < |ops| && ops[i].Import? && ops[i].commits;
        assert ops[1..][i - 1] == ops[i];
      }
      if ops[0].Import? && ops[0].commits { ImportLeavesRows(db, ops[0].cfg); }
      SlotsAlways(next, ops[1..]);
    }
  }

  lemma ImportLeavesRows(db: Db, cfg: Config)
    ensures Imported(db, cfg).profiles != map[]
  {
    var t := Imported(db, cfg).profiles;
    if exists id :: id in db.profiles && IsCurrent(db.profiles[id]) {
      assert CurrentOf(db.profiles) in t;
    } else {
      assert CurrentId in t;
    }
  }

  /**
   After the first import that commits, whatever fails afterwards, exactly one
   profile is current and active and at most one is in the migration slot.
   */
  lemma OneCurrentProfile(ops: seq<Operation>) returns (c: ProfileId)
    requires Started(ops)
    ensures var t := History(Db(map[], None), ops).profiles;
            && c in t && IsCurrent(t[c]) && (forall i :: i in t && t[i].slot == Current ==> i == c)
            && forall i, k :: i in t && k in t && t[i].slot == Migration && t[k].slot == Migration ==> i == k
  {
    SlotsAlways(Db(map[], None), ops);
    var t := History(Db(map[], None), ops).profiles;
    c :| c in t && IsCurrent(t[c]);
  }

  /** Only a migration that works changes the current fingerprint, and to the one that was staged. */
  lemma OnlyMigrationMoves(db: Db, op: Operation, f: Fingerprint, g: Fingerprint)
    requires SlotsOk(db.profiles) && CurrentIs(db.profiles, f) && CurrentIs(After(db, op).profiles, g) && f != g
    ensures op.Migrate? && Works(op.target) && op.target.fingerprint == g && TargetIs(db.profiles, g)
  {
    var t, u := db.profiles, After(db, op).profiles;
    var c :| c in t && IsCurrent(t[c]) && t[c].fingerprint == f;
    CurrentFound(t);
    var d :| d in u && IsCurrent(u[d]) && u[d].fingerprint == g;
    if op.Import? && op.commits {
      ImportKeepsSlots(db, op.cfg);
      CurrentAfterImport(db, op.cfg, c);
      CurrentFound(u);
    } else if op.Migrate? {
      MigrationKeepsSlots(t, op.target);
      CurrentFound(u);
      MovedTo(t, op.target, c, d);
    }
  }

  lemma MovedTo(t: Profiles, target: Target, c: ProfileId, d: ProfileId)
    requires SlotsOk(t) && c in t && IsCurrent(t[c])
    requires d in Migrated(t, target) && IsCurrent(Migrated(t, target)[d]) && Migrated(t, target)[d].fingerprint != t[c].fingerprint
    ensures d in t && IsTarget(t[d]) && t[d].fingerprint == Migrated(t, target)[d].fingerprint == target.fingerprint && Works(target)
  {
    CurrentFound(t);
    assert IsTarget(t[d]);
  }

  lemma CurrentAfterImport(db: Db, cfg: Config, c: ProfileId)
    requires SlotsOk(db.profiles) && c in db.profiles && IsCurrent(db.profiles[c])
    ensures var u := Imported(db, cfg).profiles; c in u && IsCurrent(u[c]) && u[c].fingerprint == db.profiles[c].fingerprint
  {
    CurrentFound(db.profiles);
  }

  // ------------------------------------------------------- what the storage keys say

  /** The migration moves: every step succeeds, and the database it opens is the one that is staged. */
  ghost predicate Moves(t: Profiles, target: Target) {
    && target.configOk && target.openOk && target.migrateOk && target.copyOk && target.promoteOk
    && exists m :: m in t && t[m].slot == Migration && t[m].status == MigrationTarget && t[m].fingerprint == target.fingerprint
  }

  /** No import commits. */
  ghost predicate NoImport(ops: seq<Operation>) { forall i :: 0 <= i < |ops| ==> ops[i].Import? ==> !ops[i].commits }

  /** No migration of the history moves. */
  ghost predicate NoMove(db: Db, ops: seq<Operation>)
    decreases |ops|
  {
    ops == [] || ((ops[0].Migrate? ==> !Moves(db.profiles, ops[0].target)) && NoMove(After(db, ops[0]), ops[1..]))
  }

  /** A committed import leaves storage keys that describe the profile that is then current. */
  lemma ImportTells(db: Db, cfg: Config)
    requires SlotsOk(db.profiles)
    ensures Told(Imported(db, cfg))
  {
    var t, u := db.profiles, Imported(db, cfg).profiles;
    ImportMeans(db, cfg);
    if t == map[] {
      assert Holds(u, CurrentId);
    } else {
      var c := CurrentOf(t);
      CurrentFound(t);
      CurrentAfterImport(db, cfg, c);
      assert Holds(u, c);
    }
  }

  /** A step without a committed import leaves the storage keys, and the current profile unless it is a migration that moves. */
  lemma StepTells(db: Db, op: Operation, c: ProfileId)
    requires SlotsOk(db.profiles) && Holds(db.profiles, c) && (op.Import? ==> !op.commits)
    ensures var next := After(db, op);
            && next.entries == db.entries && c in next.profiles && next.profiles[c].payload == db.profiles[c].payload
            && if op.Migrate? && Moves(db.profiles, op.target) then next.profiles[c].slot == Historical else Holds(next.profiles, c)
  {
    var t := db.profiles;
    CurrentFound(t);
    if op.Migrate? && exists m :: m in t && IsTarget(t[m]) {
      var m :| m in t && IsTarget(t[m]);
      TargetFound(t, m);
      assert IsCurrent(t[c]);
    }
  }

  /** A row that is historical stays so. */
  lemma {:induction false} HistoricalStays(db: Db, ops: seq<Operation>, c: ProfileId)
    requires SlotsOk(db.profiles) && c in db.profiles && db.profiles[c].slot == Historical && NoImport(ops)
    ensures var later := History(db, ops);
            later.entries == db.entries && c in later.profiles && later.profiles[c].slot == Historical
    decreases |ops|
  {
    if ops != [] {
      if ops[0].Migrate? { MigrationKeepsSlots(db.profiles, ops[0].target); TargetsOnly(db.profiles, ops[0].target, c); }
      HistoricalStays(After(db, ops[0]), ops[1..], c);
    }
  }

  lemma TargetsOnly(t: Profiles, target: Target, c: ProfileId)
    requires SlotsOk(t) && c in t && t[c].slot == Historical
    ensures c in Migrated(t, target) && Migrated(t, target)[c] == t[c]
  {
    CurrentFound(t);
  }

  /**
   What the storage keys say, over every history without a committed import: what they
   said, which is the current profile until a migration moves, and from then on the
   one that was current before it.
   */
  lemma {:induction false} KeysStay(db: Db, ops: seq<Operation>, c: ProfileId)
    requires SlotsOk(db.profiles) && Holds(db.profiles, c) && NoImport(ops)
    ensures var later := History(db, ops);
            && later.entries == db.entries
            && (NoMove(db, ops) <==> Holds(later.profiles, c))
            && (NoMove(db, ops) ==> later.profiles[c].payload == db.profiles[c].payload)
    decreases |ops|
  {
    if ops != [] {
      var next := After(db, ops[0]);
      StepTells(db, ops[0], c);
      if ops[0].Migrate? { MigrationKeepsSlots(db.profiles, ops[0].target); }
      if Holds(next.profiles, c) { KeysStay(next, ops[1..], c); } else { HistoricalStays(next, ops[1..], c); }
    }
  }

  lemma {:induction false} HistoryTwice(db: Db, first: seq<Operation>, second: seq<Operation>)
    ensures History(db, first + second) == History(History(db, first), second)
    decreases |first|
  {
    if first == [] {
      assert first + second == second;
    } else {
      assert (first + second)[1..] == first[1..] + second;
      HistoryTwice(After(db, first[0]), first[1..], second);
    }
  }

  /**
   Over every history that ends with a committed import and later operations, with any
   failures: the storage keys are the payload of the profile c that was current after
   the import, and that profile is still current, with that payload, exactly until
   a migration moves.
   */
  lemma KeysTell(before: seq<Operation>, cfg: Config, later: seq<Operation>) returns (c: ProfileId)
    requires NoImport(later)
    ensures var base := History(Db(map[], None), before + [Import(cfg, true)]);
            var now := History(Db(map[], None), before + [Import(cfg, true)] + later);
            && Holds(base.profiles, c) && now.entries == Some(base.profiles[c].payload)
            && (Holds(now.profiles, c) <==> NoMove(base, later))
            && (NoMove(base, later) ==> now.entries == Some(now.profiles[c].payload))
  {
    var start := Db(map[], None);
    SlotsAlways(start, before);
    HistoryTwice(start, before, [Import(cfg, true)]);
    HistoryTwice(start, before + [Import(cfg, true)], later);
    var db := History(start, before);
    var base := Imported(db, cfg);
    assert [Import(cfg, true)][1..] == [];
    assert History(db, [Import(cfg, true)]) == base;
    ImportKeepsSlots(db, cfg);
    ImportTells(db, cfg);
    c :| Holds(base.profiles, c) && base.entries == Some(base.profiles[c].payload);
    KeysStay(base, later, c);
  }

  /** Staging another database works exactly when its fingerprint was never staged before; the target then carries the payload of the import. */
  lemma StagedIffNew(db: Db, cfg: Config)
    requires SlotsOk(db.profiles) && db.profiles != map[] && !CurrentIs(db.profiles, cfg.fingerprint)
    ensures TargetIs(Imported(db, cfg).profiles, cfg.fingerprint) <==> MigrationId(cfg.fingerprint) !in db.profiles
    ensures var u := Imported(db, cfg).profiles;
            forall id :: id in u && IsTarget(u[id]) ==> u[id].fingerprint == cfg.fingerprint && u[id].payload == cfg.payload
  {
    var t := db.profiles;
    var c :| c in t && IsCurrent(t[c]);
    CurrentFound(t);
    assert CurrentIs(t, t[c].fingerprint);
    var u, m := Imported(db, cfg).profiles, MigrationId(cfg.fingerprint);
    assert u == Upserted(Retired(t), m, Migration, MigrationTarget, cfg.fingerprint, cfg.payload);
    if m !in t { assert IsTarget(u[m]); }
    forall id | id in u && IsTarget(u[id]) ensures id == m { }
  }

  /** Rows are never removed, so a fingerprint is staged at most once in a history. */
  lemma RowsStay(db: Db, op: Operation)
    ensures db.profiles.Keys <= After(db, op).profiles.Keys
  {
  }

  lemma {:induction false} RowsStayForever(db: Db, ops: seq<Operation>)
    ensures db.profiles.Keys <= History(db, ops).profiles.Keys
    decreases |ops|
  {
    if ops != [] {
      RowsStay(db, ops[0]);
      RowsStayForever(After(db, ops[0]), ops[1..]);
    }
  }

  /** The second time a database is imported while it is not the current one, no target is staged. */
  lemma SecondImportStagesNothing(db: Db, first: Config, between: seq<Operation>, again: Config)
    requires SlotsOk(db.profiles) && db.profiles != map[] && first.fingerprint == again.fingerprint
    requires !CurrentIs(db.profiles, first.fingerprint)
    requires !CurrentIs(History(Imported(db, first), between).profiles, again.fingerprint)
    ensures !TargetIs(Imported(History(Imported(db, first), between), again).profiles, again.fingerprint)
  {
    var staged := Imported(db, first);
    ImportKeepsSlots(db, first);
    var c :| c in db.profiles && IsCurrent(db.profiles[c]);
    CurrentFound(db.profiles);
    assert CurrentIs(db.profiles, db.profiles[c].fingerprint);
    assert MigrationId(first.fingerprint) in staged.profiles;
    RowsStayForever(staged, between);
    SlotsAlways(staged, between);
    var later := History(staged, between);
    assert later.profiles != map[];
    StagedIffNew(later, again);
  }
}
