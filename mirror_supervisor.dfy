/**
 * The tenant supervisor of commands/owner/mirror.js: the registry file, the
 * map of running tenant processes (a set of ids here), the wizard sessions,
 * the per-tenant data directories and the generated config files, and the
 * operations the owner's buttons and the timers run on them. Whether a
 * process starts or a kill succeeds is a parameter.
 */
module MirrorSupervisor {
  import opened Wrappers
  import opened OrderedMap
  import opened Strings
  import opened DataFiles
  import opened Tenants
  import opened MirrorWizard

  /** `mirror_<id>_config.js`; the data directory path is fixed by the id. */
  datatype MirrorConfig = MirrorConfig(botToken: string, ownerId: int, originalOwner: int)

  function ConfigOf(t: Tenant): MirrorConfig {
    MirrorConfig(t.botToken, t.ownerId, t.createdBy)
  }

  /** `mirror.botName || "Mirror Bot"` */
  function StartName(t: Tenant): string {
    if t.botName == [] then "Mirror Bot" else t.botName
  }

  /** The data directory of `id` after `setupMirrorData(id, ownerId, botName)`:
      created if absent, then every missing file gets its default. */
  function SetupDir(dirs: map<string, DataDir>, id: string, ownerId: int, botName: string): DataDir {
    FillFiles(if id in dirs then dirs[id] else map[], MirrorDefaults(ownerId, botName), MirrorFileOrder)
  }

  /** Setting up a directory completes it, keeps every file it already had,
      seeds a missing owners file with the owner alone, and a second setup,
      with any owner and name, changes nothing. */
  lemma SetupDirSpec(dirs: map<string, DataDir>, id: string, ownerId: int, botName: string, ownerId': int, botName': string)
    ensures Complete(SetupDir(dirs, id, ownerId, botName))
    ensures id in dirs ==> forall f :: f in dirs[id] ==> SetupDir(dirs, id, ownerId, botName)[f] == dirs[id][f]
    ensures id !in dirs || Owners !in dirs[id] ==> IdsOf(SetupDir(dirs, id, ownerId, botName), Owners) == [ownerId]
    ensures var once := dirs[id := SetupDir(dirs, id, ownerId, botName)];
      SetupDir(once, id, ownerId', botName') == once[id]
  {
    var d := if id in dirs then dirs[id] else map[];
    var defaults := MirrorDefaults(ownerId, botName);
    FillFilesSpec(d, defaults, MirrorFileOrder);
    var r := SetupDir(dirs, id, ownerId, botName);
    CompleteIfAllFour(r);
    var once := dirs[id := r];
    FillFilesSpec(r, MirrorDefaults(ownerId', botName'), MirrorFileOrder);
  }

  /** A directory set up from nothing holds exactly the defaults. */
  lemma SetupFromNothing(dirs: map<string, DataDir>, id: string, ownerId: int, botName: string)
    requires id !in dirs
    ensures SetupDir(dirs, id, ownerId, botName) == MirrorDefaults(ownerId, botName)
  {
    var defaults := MirrorDefaults(ownerId, botName);
    FillFilesSpec(map[], defaults, MirrorFileOrder);
    var r := SetupDir(dirs, id, ownerId, botName);
    CompleteIfAllFour(r);
    assert forall f :: f in r ==> r[f] == defaults[f];
  }

  /** Deleting a directory and setting it up again gives exactly the
      defaults, and the setup the restart repeats changes nothing. */
  lemma ResetDirs(dirs: map<string, DataDir>, id: string, ownerId: int, botName: string, botName': string)
    ensures var cleared := dirs - {id};
      var once := cleared[id := SetupDir(cleared, id, ownerId, botName)];
      once == dirs[id := MirrorDefaults(ownerId, botName)]
      && once[id := SetupDir(once, id, ownerId, botName')] == once
  {
    var cleared := dirs - {id};
    SetupFromNothing(cleared, id, ownerId, botName);
    SetupDirSpec(cleared, id, ownerId, botName, ownerId, botName');
    var once := cleared[id := SetupDir(cleared, id, ownerId, botName)];
    assert once == dirs[id := MirrorDefaults(ownerId, botName)];
  }

  /** The registry entries whose id is not running, in registry order. */
  function Pending(ps: Registry, running: set<string>): (r: Registry)
    ensures |r| <= |ps|
  {
    if ps == [] then []
    else
      var pre := ps[..|ps| - 1];
      var last := ps[|ps| - 1];
      if last.0 in running then Pending(pre, running) else Pending(pre, running) + [last]
  }

  /** Exactly the entries whose id is not running are pending. */
  lemma {:induction false} PendingMembers(ps: Registry, running: set<string>)
    ensures forall p :: p in Pending(ps, running) <==> p in ps && p.0 !in running
  {
    if ps != [] {
      var pre := ps[..|ps| - 1];
      assert ps == pre + [ps[|ps| - 1]];
      PendingMembers(pre, running);
    }
  }

  /** How many entries of `ps` start. */
  function CountOk(ps: Registry, ok: string -> bool): (n: nat)
    ensures n <= |ps|
  {
    if ps == [] then 0
    else CountOk(ps[..|ps| - 1], ok) + (if ok(ps[|ps| - 1].0) then 1 else 0)
  }

  /** The ids of `ps` that start. */
  function StartedIds(ps: Registry, ok: string -> bool): set<string> {
    set p | p in ps && ok(p.0) :: p.0
  }

  /** The data directories after a start attempt for every entry of `ps`. */
  function SetupAll(dirs: map<string, DataDir>, ps: Registry): map<string, DataDir> {
    if ps == [] then dirs
    else
      var d := SetupAll(dirs, ps[..|ps| - 1]);
      var p := ps[|ps| - 1];
      d[p.0 := SetupDir(d, p.0, p.1.ownerId, StartName(p.1))]
  }

  /** The config files after a start attempt for every entry of `ps`. */
  function ConfigAll(configs: map<string, MirrorConfig>, ps: Registry): map<string, MirrorConfig> {
    if ps == [] then configs
    else ConfigAll(configs, ps[..|ps| - 1])[ps[|ps| - 1].0 := ConfigOf(ps[|ps| - 1].1)]
  }

  /** Every directory of a tenant not attempted is kept. */
  lemma {:induction false} SetupAllKeeps(dirs: map<string, DataDir>, ps: Registry, id: string)
    requires forall p :: p in ps ==> p.0 != id
    ensures id in SetupAll(dirs, ps) <==> id in dirs
    ensures id in dirs ==> SetupAll(dirs, ps)[id] == dirs[id]
  {
    if ps != [] {
      var pre := ps[..|ps| - 1];
      assert ps[|ps| - 1] in ps;
      forall p | p in pre
        ensures p.0 != id
      {
        assert p in ps;
      }
      SetupAllKeeps(dirs, pre, id);
    }
  }

  /** Every tenant attempted gets its own directory set up from what it had
      before. */
  lemma {:induction false} SetupAllSpec(dirs: map<string, DataDir>, ps: Registry)
    requires UniqueKeys(ps)
    ensures forall p :: p in ps ==>
      p.0 in SetupAll(dirs, ps) && SetupAll(dirs, ps)[p.0] == SetupDir(dirs, p.0, p.1.ownerId, StartName(p.1))
  {
    if ps != [] {
      var pre := ps[..|ps| - 1];
      var last := ps[|ps| - 1];
      assert ps == pre + [last];
      assert UniqueKeys(pre) by {
        forall i, j | 0 <= i < j < |pre|
          ensures pre[i].0 != pre[j].0
        {
          assert pre[i] == ps[i] && pre[j] == ps[j];
        }
      }
      SetupAllSpec(dirs, pre);
      forall p | p in pre
        ensures p.0 != last.0
      {
        var j :| 0 <= j < |pre| && pre[j] == p;
        assert ps[j] == p;
      }
      SetupAllKeeps(dirs, pre, last.0);
      var before := SetupAll(dirs, pre);
      assert SetupDir(before, last.0, last.1.ownerId, StartName(last.1)) == SetupDir(dirs, last.0, last.1.ownerId, StartName(last.1));
    }
  }

  /** Every tenant attempted gets its own config; every other config is kept. */
  lemma {:induction false} ConfigAllSpec(configs: map<string, MirrorConfig>, ps: Registry)
    requires UniqueKeys(ps)
    ensures forall p :: p in ps ==> p.0 in ConfigAll(configs, ps) && ConfigAll(configs, ps)[p.0] == ConfigOf(p.1)
    ensures forall id :: (forall p :: p in ps ==> p.0 != id) ==>
      (id in ConfigAll(configs, ps) <==> id in configs) && (id in configs ==> ConfigAll(configs, ps)[id] == configs[id])
  {
    if ps != [] {
      var pre := ps[..|ps| - 1];
      var last := ps[|ps| - 1];
      assert ps == pre + [last];
      ConfigAllSpec(configs, pre);
      forall p | p in pre
        ensures p.0 != last.0
      {
        var j :| 0 <= j < |pre| && pre[j] == p;
      }
    }
  }

  /** Appending one attempted entry to the folds. */
  lemma AppendEffects(dirs: map<string, DataDir>, configs: map<string, MirrorConfig>, ps: Registry, p: (string, Tenant), ok: string -> bool)
    ensures SetupAll(dirs, ps + [p]) == SetupAll(dirs, ps)[p.0 := SetupDir(SetupAll(dirs, ps), p.0, p.1.ownerId, StartName(p.1))]
    ensures ConfigAll(configs, ps + [p]) == ConfigAll(configs, ps)[p.0 := ConfigOf(p.1)]
    ensures StartedIds(ps + [p], ok) == StartedIds(ps, ok) + (if ok(p.0) then {p.0} else {})
    ensures CountOk(ps + [p], ok) == CountOk(ps, ok) + (if ok(p.0) then 1 else 0)
  {
    assert (ps + [p])[..|ps|] == ps;
  }

  /** A start attempt for one more pending entry, applied to the state the
      earlier attempts left, is the state of attempting them all. */
  lemma AttemptOneMore(pending: Registry, p: (string, Tenant), ok: string -> bool, running0: set<string>,
                       dirs0: map<string, DataDir>, configs0: map<string, MirrorConfig>,
                       running: set<string>, dirs: map<string, DataDir>, configs: map<string, MirrorConfig>)
    requires running == running0 + StartedIds(pending, ok)
    requires dirs == SetupAll(dirs0, pending) && configs == ConfigAll(configs0, pending)
    ensures running + (if ok(p.0) then {p.0} else {}) == running0 + StartedIds(pending + [p], ok)
    ensures dirs[p.0 := SetupDir(dirs, p.0, p.1.ownerId, StartName(p.1))] == SetupAll(dirs0, pending + [p])
    ensures configs[p.0 := ConfigOf(p.1)] == ConfigAll(configs0, pending + [p])
    ensures CountOk(pending + [p], ok) == CountOk(pending, ok) + (if ok(p.0) then 1 else 0)
  {
    AppendEffects(dirs0, configs0, pending, p, ok);
  }

  /** The reply of a toggle. */
  datatype ToggleOutcome = ToggleNotFound | Stopped | StartAttempted(started: bool)

  /** What the wizard's text handler does with a message. */
  datatype WizardOutcome = PassedOn | Rejected(at: Step) | Accepted(next: Step) | Created(mirrorId: string, started: bool)

  class Supervisor {
    /** `data/mirrors.json` */
    var registry: Registry
    /** The ids in `runningMirrors`. */
    var running: set<string>
    /** `mirrorSessions`, keyed by the random session id. */
    var sessions: OMap<string, WizardSession>
    /** `mirror_data/<id>/` */
    var dataDirs: map<string, DataDir>
    /** `mirror_<id>_config.js` */
    var configs: map<string, MirrorConfig>

    /** Keys are unique, every running id is registered, and every session
        holds the inputs of the steps it has passed. */
    ghost predicate Valid()
      reads this
    {
      UniqueKeys(registry) && UniqueKeys(sessions)
      && (forall id :: id in running ==> HasKey(registry, id))
      && (forall i :: 0 <= i < |sessions| ==> WellFormed(sessions[i].1))
    }

    constructor (registry: Registry, dataDirs: map<string, DataDir>, configs: map<string, MirrorConfig>)
      requires UniqueKeys(registry)
      ensures Valid()
      ensures this.registry == registry && running == {} && sessions == []
      ensures this.dataDirs == dataDirs && this.configs == configs
    {
      this.registry := registry;
      running := {};
      sessions := [];
      this.dataDirs := dataDirs;
      this.configs := configs;
    }

    /** `setupMirrorData`: create the directory if needed, then the missing files. */
    method SetupMirrorData(id: string, ownerId: int, botName: string)
      modifies this
      ensures dataDirs == old(dataDirs)[id := SetupDir(old(dataDirs), id, ownerId, botName)]
      ensures registry == old(registry) && running == old(running) && sessions == old(sessions) && configs == old(configs)
    {
      var dir: DataDir := map[];
      if id in dataDirs {
        dir := dataDirs[id];
      }
      var filled, written := CreateMissing(dir, MirrorDefaults(ownerId, botName), MirrorFileOrder);
      dataDirs := dataDirs[id := filled];
    }

    /** `startMirrorBot`: a running id is left alone and reports false;
        otherwise the data and config are written and the process is
        spawned, which succeeds when `spawnOk`. */
    method StartMirror(id: string, t: Tenant, spawnOk: bool) returns (ok: bool)
      requires Valid() && HasKey(registry, id)
      modifies this
      ensures Valid()
      ensures registry == old(registry) && sessions == old(sessions)
      ensures old(id in running) ==>
        !ok && running == old(running) && dataDirs == old(dataDirs) && configs == old(configs)
      ensures old(id !in running) ==>
        ok == spawnOk
        && running == old(running) + (if spawnOk then {id} else {})
        && dataDirs == old(dataDirs)[id := SetupDir(old(dataDirs), id, t.ownerId, StartName(t))]
        && configs == old(configs)[id := ConfigOf(t)]
    {
      if id in running {
        return false;
      }
      SetupMirrorData(id, t.ownerId, StartName(t));
      configs := configs[id := ConfigOf(t)];
      if spawnOk {
        running := running + {id};
        ok := true;
      } else {
        ok := false;
      }
    }

    /** The exit listener of a tenant process. */
    method ProcessExited(id: string)
      requires Valid()
      modifies this
      ensures Valid()
      ensures running == old(running) - {id}
      ensures registry == old(registry) && sessions == old(sessions) && dataDirs == old(dataDirs) && configs == old(configs)
    {
      running := running - {id};
    }

    /** The first session of `user`: the loop over `mirrorSessions`. */
    method FindSession(user: int) returns (r: Option<nat>)
      ensures r == FirstSessionOf(sessions, user)
    {
      var i := 0;
      while i < |sessions|
        invariant 0 <= i <= |sessions|
        invariant forall j :: 0 <= j < i ==> sessions[j].1.userId != user
      {
        if sessions[i].1.userId == user {
          FirstSessionIs(sessions, user, i);
          return Some(i);
        }
        i := i + 1;
      }
      r := None;
    }

    /** `mirror_create`: open a session under a fresh session id. */
    method CreateSession(sessionId: string, user: int, now: int)
      requires Valid()
      modifies this
      ensures Valid()
      ensures sessions == Set(old(sessions), sessionId, NewSession(user, now))
      ensures registry == old(registry) && running == old(running) && dataDirs == old(dataDirs) && configs == old(configs)
    {
      SetSpec(sessions, sessionId, NewSession(user, now));
      SetWellFormed(sessions, sessionId, NewSession(user, now));
      sessions := Set(sessions, sessionId, NewSession(user, now));
    }

    /** `mirror_cancel`: drop the first session of the user, if any. */
    method Cancel(user: int)
      requires Valid()
      modifies this
      ensures Valid()
      ensures match FirstSessionOf(old(sessions), user)
        case None => sessions == old(sessions)
        case Some(i) => sessions == Delete(old(sessions), old(sessions)[i].0)
      ensures registry == old(registry) && running == old(running) && dataDirs == old(dataDirs) && configs == old(configs)
    {
      var found := FindSession(user);
      if found.Some? {
        DeleteSpec(sessions, sessions[found.value].0);
        DeleteWellFormed(sessions, sessions[found.value].0);
        sessions := Delete(sessions, sessions[found.value].0);
      }
    }

    /** The wizard's text handler: find the user's session, apply the step to
        the trimmed text, and on the last step write the registry entry under
        the id `idClock`, drop the session and start the tenant. */
    method WizardText(user: int, text: string, idClock: nat, createdClock: int, spawnOk: bool) returns (outcome: WizardOutcome)
      requires Valid()
      modifies this
      ensures Valid()
      ensures FirstSessionOf(old(sessions), user).None? ==>
        outcome == PassedOn && registry == old(registry) && sessions == old(sessions)
        && running == old(running) && dataDirs == old(dataDirs) && configs == old(configs)
      ensures FirstSessionOf(old(sessions), user).Some? ==>
        var entry := old(sessions)[FirstSessionOf(old(sessions), user).value];
        WellFormed(entry.1)
        && match Advance(entry.1, Trim(text))
           case Invalid =>
             outcome == Rejected(entry.1.step) && registry == old(registry) && sessions == old(sessions)
             && running == old(running) && dataDirs == old(dataDirs) && configs == old(configs)
           case Advanced(n) =>
             outcome == Accepted(n.step) && sessions == Set(old(sessions), entry.0, n) && registry == old(registry)
             && running == old(running) && dataDirs == old(dataDirs) && configs == old(configs)
           case Completed(token, owner, name) =>
             var id := IntToString(idClock);
             var t := NewTenant(token, owner, name, user, createdClock);
             outcome == Created(id, id !in old(running) && spawnOk)
             && registry == Set(old(registry), id, t)
             && sessions == Delete(old(sessions), entry.0)
             && running == old(running) + (if outcome.started then {id} else {})
             && (id in old(running) ==> dataDirs == old(dataDirs) && configs == old(configs))
             && (id !in old(running) ==>
                   dataDirs == old(dataDirs)[id := SetupDir(old(dataDirs), id, owner, StartName(t))]
                   && configs == old(configs)[id := ConfigOf(t)])
    {
      var found := FindSession(user);
      if found.None? {
        return PassedOn;
      }
      var sessionId := sessions[found.value].0;
      var session := sessions[found.value].1;
      var t := Trim(text);
      match session.step
      case AwaitToken =>
        if !CheckToken(t) {
          return Rejected(AwaitToken);
        }
        StoreSession(sessionId, session.(botToken := Some(t), step := AwaitOwner));
        outcome := Accepted(AwaitOwner);
      case AwaitOwner =>
        var ownerId := ParseInt(t);
        if ownerId.None? {
          return Rejected(AwaitOwner);
        }
        StoreSession(sessionId, session.(ownerId := ownerId, step := AwaitBotName));
        outcome := Accepted(AwaitBotName);
      case AwaitBotName =>
        if |t| < 3 {
          return Rejected(AwaitBotName);
        }
        var mirrorId := IntToString(idClock);
        var tenant := NewTenant(session.botToken.value, session.ownerId.value, t, user, createdClock);
        var started := CreateMirror(sessionId, mirrorId, tenant, spawnOk);
        outcome := Created(mirrorId, started);
    }

    /** `mirrorSessions.set(sessionId, next)` */
    method StoreSession(sessionId: string, next: WizardSession)
      requires Valid() && WellFormed(next)
      modifies this
      ensures Valid()
      ensures sessions == Set(old(sessions), sessionId, next) && registry == old(registry)
      ensures running == old(running) && dataDirs == old(dataDirs) && configs == old(configs)
    {
      SetSpec(sessions, sessionId, next);
      SetWellFormed(sessions, sessionId, next);
      sessions := Set(sessions, sessionId, next);
    }

    /** The last wizard step: write the registry entry, drop the session and
        start the new tenant. */
    method CreateMirror(sessionId: string, mirrorId: string, tenant: Tenant, spawnOk: bool) returns (started: bool)
      requires Valid()
      modifies this
      ensures Valid()
      ensures registry == Set(old(registry), mirrorId, tenant) && sessions == Delete(old(sessions), sessionId)
      ensures started == (mirrorId !in old(running) && spawnOk)
      ensures running == old(running) + (if started then {mirrorId} else {})
      ensures mirrorId in old(running) ==> dataDirs == old(dataDirs) && configs == old(configs)
      ensures mirrorId !in old(running) ==>
        dataDirs == old(dataDirs)[mirrorId := SetupDir(old(dataDirs), mirrorId, tenant.ownerId, StartName(tenant))]
        && configs == old(configs)[mirrorId := ConfigOf(tenant)]
    {
      RecordMirror(sessionId, mirrorId, tenant);
      started := StartMirror(mirrorId, tenant, spawnOk);
    }

    /** `saveMirrors` with the new entry, then `mirrorSessions.delete`. */
    method RecordMirror(sessionId: string, mirrorId: string, tenant: Tenant)
      requires Valid()
      modifies this
      ensures Valid() && HasKey(registry, mirrorId)
      ensures registry == Set(old(registry), mirrorId, tenant) && sessions == Delete(old(sessions), sessionId)
      ensures running == old(running) && dataDirs == old(dataDirs) && configs == old(configs)
    {
      SetSpec(registry, mirrorId, tenant);
      forall x | x in running
        ensures HasKey(Set(registry, mirrorId, tenant), x)
      {
        if x != mirrorId {
          assert Get(Set(registry, mirrorId, tenant), x) == Get(registry, x);
        }
      }
      registry := Set(registry, mirrorId, tenant);
      DeleteSpec(sessions, sessionId);
      DeleteWellFormed(sessions, sessionId);
      sessions := Delete(sessions, sessionId);
    }

    /** `mirror_toggle_<id>`: stop a running tenant, otherwise try to start it. */
    method Toggle(id: string, spawnOk: bool) returns (outcome: ToggleOutcome)
      requires Valid()
      modifies this
      ensures Valid()
      ensures registry == old(registry) && sessions == old(sessions)
      ensures !HasKey(old(registry), id) ==>
        outcome == ToggleNotFound && running == old(running) && dataDirs == old(dataDirs) && configs == old(configs)
      ensures HasKey(old(registry), id) && id in old(running) ==>
        outcome == Stopped && running == old(running) - {id} && dataDirs == old(dataDirs) && configs == old(configs)
      ensures HasKey(old(registry), id) && id !in old(running) ==>
        var t := Get(old(registry), id).value;
        outcome == StartAttempted(spawnOk)
        && running == old(running) + (if spawnOk then {id} else {})
        && dataDirs == old(dataDirs)[id := SetupDir(old(dataDirs), id, t.ownerId, StartName(t))]
        && configs == old(configs)[id := ConfigOf(t)]
    {
      var mirror := Get(registry, id);
      if mirror.None? {
        return ToggleNotFound;
      }
      if id in running {
        running := running - {id};
        outcome := Stopped;
      } else {
        var ok := StartMirror(id, mirror.value, spawnOk);
        outcome := StartAttempted(ok);
      }
    }

    /** `mirror_reset_<id>`: stop the tenant, delete and recreate its data
        directory with its defaults, zero its statistics, and start it again. */
    method Reset(id: string, spawnOk: bool) returns (found: bool)
      requires Valid()
      modifies this
      ensures Valid()
      ensures sessions == old(sessions)
      ensures found == HasKey(old(registry), id)
      ensures !found ==>
        registry == old(registry) && running == old(running) && dataDirs == old(dataDirs) && configs == old(configs)
      ensures found ==>
        var t := Get(old(registry), id).value.(stats := ZeroStats);
        registry == Set(old(registry), id, t)
        && running == old(running) - {id} + (if spawnOk then {id} else {})
        && dataDirs == old(dataDirs)[id := MirrorDefaults(t.ownerId, t.botName)]
        && configs == old(configs)[id := ConfigOf(t)]
    {
      var mirror := Get(registry, id);
      if mirror.None? {
        return false;
      }
      var t := mirror.value.(stats := ZeroStats);
      ResetDirs(dataDirs, id, t.ownerId, t.botName, StartName(t));
      ghost var once := (dataDirs - {id})[id := SetupDir(dataDirs - {id}, id, t.ownerId, t.botName)];
      running := running - {id};
      dataDirs := dataDirs - {id};
      SetupMirrorData(id, mirror.value.ownerId, mirror.value.botName);
      assert dataDirs == once;
      SetSpec(registry, id, t);
      forall x | x in running
        ensures HasKey(Set(registry, id, t), x)
      {
        assert Get(Set(registry, id, t), x) == Get(registry, x);
      }
      registry := Set(registry, id, t);
      var started := StartMirror(id, t, spawnOk);
      found := true;
    }

    /** `mirror_delete_<id>`: stop the tenant and remove its directory, its
        config and its registry entry; an unknown id is not an error. */
    method Remove(id: string)
      requires Valid()
      modifies this
      ensures Valid()
      ensures registry == Delete(old(registry), id) && !HasKey(registry, id)
      ensures running == old(running) - {id}
      ensures dataDirs == old(dataDirs) - {id} && configs == old(configs) - {id}
      ensures sessions == old(sessions)
    {
      running := running - {id};
      dataDirs := dataDirs - {id};
      configs := configs - {id};
      DeleteSpec(registry, id);
      forall x | x in running
        ensures HasKey(Delete(registry, id), x)
      {
        assert Get(Delete(registry, id), x) == Get(registry, x);
      }
      registry := Delete(registry, id);
    }

    /** The state after a start attempt for every entry of `pending`, from
        the running set, directories and configs the loop started with. */
    ghost predicate Attempted(pending: Registry, ok: string -> bool, running0: set<string>,
                              dirs0: map<string, DataDir>, configs0: map<string, MirrorConfig>)
      reads this
    {
      running == running0 + StartedIds(pending, ok)
      && dataDirs == SetupAll(dirs0, pending) && configs == ConfigAll(configs0, pending)
    }

    /** The state both start loops keep after visiting `mirrors[..i]`. */
    ghost predicate Visited(mirrors: Registry, i: nat, pending: Registry, ok: string -> bool, running0: set<string>,
                            dirs0: map<string, DataDir>, configs0: map<string, MirrorConfig>)
      reads this
    {
      Valid() && mirrors == registry && i <= |mirrors|
      && pending == Pending(mirrors[..i], running0) && UniqueKeys(pending)
      && Attempted(pending, ok, running0, dirs0, configs0)
    }

    /** The body of the `mirror_startall` loop: an id that is not running is
        started and counted as started or failed; a running one is skipped. */
    method StartAllStep(mirrors: Registry, i: nat, spawnOk: string -> bool, started: nat, failed: nat,
                        ghost pending: Registry, ghost running0: set<string>,
                        ghost dirs0: map<string, DataDir>, ghost configs0: map<string, MirrorConfig>)
      returns (started': nat, failed': nat, ghost pending': Registry)
      requires i < |mirrors| && Visited(mirrors, i, pending, spawnOk, running0, dirs0, configs0)
      requires started == CountOk(pending, spawnOk) && started + failed == |pending|
      modifies this
      ensures Visited(mirrors, i + 1, pending', spawnOk, running0, dirs0, configs0) && sessions == old(sessions)
      ensures started' == CountOk(pending', spawnOk) && started' + failed' == |pending'|
    {
      var id := mirrors[i].0;
      PendingStep(mirrors, running0, i);
      FreshAt(mirrors, running0, spawnOk, i);
      assert (id in running) == (id in running0);
      assert mirrors[..i + 1][..i] == mirrors[..i];
      if id !in running {
        assert HasKey(registry, id) by {
          assert registry[i].0 == id;
        }
        AttemptOneMore(pending, mirrors[i], spawnOk, running0, dirs0, configs0, running, dataDirs, configs);
        var ok := StartMirror(id, mirrors[i].1, spawnOk(id));
        pending' := pending + [mirrors[i]];
        if ok {
          started', failed' := started + 1, failed;
        } else {
          started', failed' := started, failed + 1;
        }
      } else {
        started', failed', pending' := started, failed, pending;
      }
    }

    /** The body of the start-up loop: every id is passed to `StartMirror`,
        which refuses a running one. */
    method AutoStartStep(mirrors: Registry, i: nat, spawnOk: string -> bool, autoStarted: nat, ghost pending: Registry,
                         ghost running0: set<string>, ghost dirs0: map<string, DataDir>, ghost configs0: map<string, MirrorConfig>)
      returns (autoStarted': nat, ghost pending': Registry)
      requires i < |mirrors| && Visited(mirrors, i, pending, spawnOk, running0, dirs0, configs0)
      requires autoStarted == CountOk(pending, spawnOk)
      modifies this
      ensures Visited(mirrors, i + 1, pending', spawnOk, running0, dirs0, configs0) && sessions == old(sessions)
      ensures autoStarted' == CountOk(pending', spawnOk)
    {
      var id := mirrors[i].0;
      PendingStep(mirrors, running0, i);
      FreshAt(mirrors, running0, spawnOk, i);
      assert (id in running) == (id in running0);
      assert mirrors[..i + 1][..i] == mirrors[..i];
      assert HasKey(registry, id) by {
        assert registry[i].0 == id;
      }
      if id in running {
        var ok := StartMirror(id, mirrors[i].1, spawnOk(id));
        // a running id is refused, so nothing is counted
        assert !ok;
        autoStarted', pending' := autoStarted, pending;
      } else {
        AttemptOneMore(pending, mirrors[i], spawnOk, running0, dirs0, configs0, running, dataDirs, configs);
        var ok := StartMirror(id, mirrors[i].1, spawnOk(id));
        autoStarted' := if ok then autoStarted + 1 else autoStarted;
        pending' := pending + [mirrors[i]];
      }
    }

    /** `mirror_startall`: try every registered id that is not running, in
        registry order, counting successes and failures. */
    method StartAll(spawnOk: string -> bool) returns (started: nat, failed: nat)
      requires Valid()
      modifies this
      ensures Valid()
      ensures registry == old(registry) && sessions == old(sessions)
      ensures started == CountOk(Pending(old(registry), old(running)), spawnOk)
      ensures started + failed == |Pending(old(registry), old(running))|
      ensures running == old(running) + StartedIds(Pending(old(registry), old(running)), spawnOk)
      ensures dataDirs == SetupAll(old(dataDirs), Pending(old(registry), old(running)))
      ensures configs == ConfigAll(old(configs), Pending(old(registry), old(running)))
    {
      var mirrors := registry;
      ghost var running0, dirs0, configs0 := running, dataDirs, configs;
      ghost var pending: Registry := [];
      started, failed := 0, 0;
      for i := 0 to |mirrors|
        invariant Visited(mirrors, i, pending, spawnOk, running0, dirs0, configs0)
        invariant sessions == old(sessions)
        invariant started == CountOk(pending, spawnOk) && started + failed == |pending|
      {
        started, failed, pending := StartAllStep(mirrors, i, spawnOk, started, failed, pending, running0, dirs0, configs0);
      }
      assert mirrors[..|mirrors|] == mirrors;
    }

    /** The start-up timer: try every registered id in registry order. The
        effect is that of `StartAll`. */
    method AutoStart(spawnOk: string -> bool) returns (autoStarted: nat)
      requires Valid()
      modifies this
      ensures Valid()
      ensures registry == old(registry) && sessions == old(sessions)
      ensures autoStarted == CountOk(Pending(old(registry), old(running)), spawnOk)
      ensures running == old(running) + StartedIds(Pending(old(registry), old(running)), spawnOk)
      ensures dataDirs == SetupAll(old(dataDirs), Pending(old(registry), old(running)))
      ensures configs == ConfigAll(old(configs), Pending(old(registry), old(running)))
    {
      var mirrors := registry;
      ghost var running0, dirs0, configs0 := running, dataDirs, configs;
      ghost var pending: Registry := [];
      autoStarted := 0;
      for i := 0 to |mirrors|
        invariant Visited(mirrors, i, pending, spawnOk, running0, dirs0, configs0)
        invariant sessions == old(sessions)
        invariant autoStarted == CountOk(pending, spawnOk)
      {
        autoStarted, pending := AutoStartStep(mirrors, i, spawnOk, autoStarted, pending, running0, dirs0, configs0);
      }
      assert mirrors[..|mirrors|] == mirrors;
    }

    /** `mirror_stopall`: kill every running process, counting the kills that
        succeed, then forget them all. */
    method StopAll(killOk: string -> bool) returns (stopped: nat)
      requires Valid()
      modifies this
      ensures Valid()
      ensures stopped == |Killed(old(running), killOk)|
      ensures running == {}
      ensures registry == old(registry) && sessions == old(sessions) && dataDirs == old(dataDirs) && configs == old(configs)
    {
      stopped := CountKills(running, killOk);
      running := {};
    }
    /** The half-hourly sweep: delete every session older than thirty
        minutes, keeping the rest in order. */
    method Sweep(now: int)
      requires Valid()
      modifies this
      ensures Valid()
      ensures sessions == Unexpired(old(sessions), now)
      ensures registry == old(registry) && running == old(running) && dataDirs == old(dataDirs) && configs == old(configs)
    {
      var kept := SweepSessions(sessions, now);
      UnexpiredWellFormed(sessions, now);
      UnexpiredUnique(sessions, now);
      sessions := kept;
    }
  }

  /** The ids whose kill succeeds. */
  function Killed(ids: set<string>, killOk: string -> bool): set<string> {
    set id | id in ids && killOk(id)
  }

  /** The `for … of runningMirrors` loop of `mirror_stopall`: one kill per
      running id, counting those that succeed. */
  method CountKills(ids: set<string>, killOk: string -> bool) returns (stopped: nat)
    ensures stopped == |Killed(ids, killOk)|
  {
    var rest := ids;
    stopped := 0;
    while rest != {}
      invariant rest <= ids
      invariant stopped == |Killed(ids - rest, killOk)|
      decreases |rest|
    {
      var id :| id in rest;
      KillStep(ids, rest, id, killOk);
      if killOk(id) {
        stopped := stopped + 1;
      }
      rest := rest - {id};
    }
    assert ids - rest == ids;
  }

  /** Visiting one more id adds one to the count when its kill succeeds. */
  lemma KillStep(ids: set<string>, rest: set<string>, id: string, killOk: string -> bool)
    requires rest <= ids && id in rest
    ensures |Killed(ids - (rest - {id}), killOk)| == |Killed(ids - rest, killOk)| + (if killOk(id) then 1 else 0)
  {
    var done := ids - rest;
    assert ids - (rest - {id}) == done + {id};
    if killOk(id) {
      assert Killed(done + {id}, killOk) == Killed(done, killOk) + {id};
    } else {
      assert Killed(done + {id}, killOk) == Killed(done, killOk);
    }
  }

  /** The sweep's loop over a snapshot of the sessions: every expired
      session is deleted by its id. */
  method SweepSessions(sessions: OMap<string, WizardSession>, now: int) returns (kept: OMap<string, WizardSession>)
    requires UniqueKeys(sessions)
    ensures kept == Unexpired(sessions, now)
  {
    kept := sessions;
    var i := 0;
    while i < |sessions|
      invariant 0 <= i <= |sessions|
      invariant kept == Unexpired(sessions[..i], now) + sessions[i..]
    {
      SweepStep(sessions, i, now);
      if Expired(sessions[i].1, now) {
        kept := Delete(kept, sessions[i].0);
      }
      i := i + 1;
    }
    assert sessions[..i] == sessions;
  }

  /** The loop's first match is `FirstSessionOf`. */
  lemma {:induction false} FirstSessionIs(ss: OMap<string, WizardSession>, user: int, i: nat)
    requires i < |ss| && ss[i].1.userId == user
    requires forall j :: 0 <= j < i ==> ss[j].1.userId != user
    ensures FirstSessionOf(ss, user) == Some(i)
    decreases i
  {
    if i > 0 {
      FirstSessionIs(ss[1..], user, i - 1);
    }
  }

  lemma SetWellFormed(ss: OMap<string, WizardSession>, k: string, s: WizardSession)
    requires forall i :: 0 <= i < |ss| ==> WellFormed(ss[i].1)
    requires WellFormed(s)
    ensures forall i :: 0 <= i < |Set(ss, k, s)| ==> WellFormed(Set(ss, k, s)[i].1)
  {
  }

  lemma DeleteWellFormed(ss: OMap<string, WizardSession>, k: string)
    requires forall i :: 0 <= i < |ss| ==> WellFormed(ss[i].1)
    ensures forall i :: 0 <= i < |Delete(ss, k)| ==> WellFormed(Delete(ss, k)[i].1)
  {
    var n := IndexOf(ss, k);
    if n < |ss| {
      var r := Delete(ss, k);
      assert r == ss[..n] + ss[n + 1..];
      forall i | 0 <= i < |r|
        ensures WellFormed(r[i].1)
      {
        if i < n {
          assert r[i] == ss[i];
        } else {
          assert r[i] == ss[i + 1];
        }
      }
    }
  }

  /** One step of the sweep: an expired session is deleted from the
      unvisited part, a live one moves to the kept part. */
  lemma SweepStep(snapshot: OMap<string, WizardSession>, i: nat, now: int)
    requires i < |snapshot| && UniqueKeys(snapshot)
    ensures Expired(snapshot[i].1, now) ==>
      Delete(Unexpired(snapshot[..i], now) + snapshot[i..], snapshot[i].0) == Unexpired(snapshot[..i + 1], now) + snapshot[i + 1..]
    ensures !Expired(snapshot[i].1, now) ==>
      Unexpired(snapshot[..i], now) + snapshot[i..] == Unexpired(snapshot[..i + 1], now) + snapshot[i + 1..]
  {
    assert snapshot[..i + 1][..i] == snapshot[..i];
    assert snapshot[..i + 1] == snapshot[..i] + [snapshot[i]];
    if Expired(snapshot[i].1, now) {
      UnexpiredMembers(snapshot[..i], now);
      DeleteAt(Unexpired(snapshot[..i], now), snapshot, i);
    } else {
      assert snapshot[i..] == [snapshot[i]] + snapshot[i + 1..];
    }
  }

  lemma UnexpiredWellFormed(ss: OMap<string, WizardSession>, now: int)
    requires forall i :: 0 <= i < |ss| ==> WellFormed(ss[i].1)
    ensures forall i :: 0 <= i < |Unexpired(ss, now)| ==> WellFormed(Unexpired(ss, now)[i].1)
  {
    var r := Unexpired(ss, now);
    UnexpiredMembers(ss, now);
    forall i | 0 <= i < |r|
      ensures WellFormed(r[i].1)
    {
      assert r[i] in ss;
    }
  }

  /** Deleting the key at the head of the unvisited part removes exactly it. */
  lemma DeleteAt(kept: OMap<string, WizardSession>, snapshot: OMap<string, WizardSession>, i: nat)
    requires i < |snapshot| && UniqueKeys(snapshot)
    requires forall p :: p in kept ==> p in snapshot[..i]
    ensures Delete(kept + snapshot[i..], snapshot[i].0) == kept + snapshot[i + 1..]
  {
    var m := kept + snapshot[i..];
    var k := snapshot[i].0;
    forall j | 0 <= j < |kept|
      ensures m[j].0 != k
    {
      assert kept[j] in snapshot[..i];
      var j' :| 0 <= j' < i && snapshot[j'] == kept[j];
    }
    IndexOfIs(m, k, |kept|);
    assert m[..|kept|] == kept;
    assert m[|kept| + 1..] == snapshot[i + 1..];
  }

  /** One step of the start-all loops over `Pending`. */
  lemma PendingStep(ps: Registry, running: set<string>, i: nat)
    requires i < |ps|
    ensures Pending(ps[..i + 1], running) ==
      if ps[i].0 in running then Pending(ps[..i], running) else Pending(ps[..i], running) + [ps[i]]
  {
    assert ps[..i + 1][..i] == ps[..i];
  }

  /** The id at position `i` is not among the earlier pending ids. */
  lemma FreshAt(ps: Registry, running: set<string>, ok: string -> bool, i: nat)
    requires i < |ps| && UniqueKeys(ps)
    ensures ps[i].0 !in StartedIds(Pending(ps[..i], running), ok)
    ensures UniqueKeys(Pending(ps[..i + 1], running))
  {
    var pre := Pending(ps[..i], running);
    PendingMembers(ps[..i], running);
    forall p | p in pre
      ensures p.0 != ps[i].0
    {
      var j :| 0 <= j < i && ps[j] == p;
    }
    PendingUnique(ps[..i + 1], running);
  }

  lemma PendingUnique(ps: Registry, running: set<string>)
    requires UniqueKeys(ps)
    ensures UniqueKeys(Pending(ps, running))
  {
    if ps != [] {
      var pre := ps[..|ps| - 1];
      PendingUnique(pre, running);
      PendingMembers(pre, running);
      forall p | p in Pending(pre, running)
        ensures p.0 != ps[|ps| - 1].0
      {
        var j :| 0 <= j < |pre| && pre[j] == p;
      }
    }
  }
}
