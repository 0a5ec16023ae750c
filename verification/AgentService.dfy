/**
 The agent's service as the program performs it: a container whose calls may
 fail, the host lock, and the two transactions with their early rollbacks.
 Every method is tied to the steps of the transaction machine.
 */
module AgentService {
  import opened Wrappers
  import opened Text
  import opened Netip
  import opened AwgConfig
  import opened AwgRules
  import opened AwgAllocation
  import opened AwgRuntime
  import opened AwgOps
  import opened AgentMachine
  import opened AgentRuns
  import T = ClientsTable

  method AnyOutcome() returns (o: Outcome) {
    if * { o := Done; } else if * { o := Failed; } else { o := FailedLate; }
  }

  // ----- The container -----

  /** The container as one process sees it. */
  class Container {
    const lib: Library
    const me: nat
    var files: map<Path, string>
    var runtime: seq<Peer>
    var lock: Option<nat>
    var clock: nat

    constructor (lib: Library, me: nat, files: map<Path, string>, runtime: seq<Peer>)
      ensures this.lib == lib && this.me == me && W() == World(files, runtime, None)
    {
      this.lib, this.me, this.files, this.runtime, this.lock, this.clock := lib, me, files, runtime, None, 0;
    }

    ghost function W(): World
      reads this
    {
      World(files, runtime, lock)
    }

    method ReadFile(path: Path) returns (text: Option<string>, ghost o: Outcome)
      ensures text == Read(W(), path, o)
    {
      var c := AnyOutcome();
      o := c;
      text := if c.Done? && path in files then Some(files[path]) else None;
    }

    method ReadFileOrEmptyArray(path: Path) returns (text: Option<string>, ghost o: Outcome)
      ensures text == if o.Done? then Some(if path in files then files[path] else "[]\n") else None
    {
      var c := AnyOutcome();
      o := c;
      text := if !c.Done? then None else if path in files then Some(files[path]) else Some("[]\n");
    }

    method FileExists(path: Path) returns (exists_: Option<bool>, ghost o: Outcome)
      ensures exists_ == if o.Done? then Some(path in files) else None
    {
      var c := AnyOutcome();
      o := c;
      exists_ := if c.Done? then Some(path in files) else None;
    }

    /** A tool's output, which may be any text. */
    method Output() returns (text: Option<string>, ghost ev: Event)
      ensures text == if ev.outcome.Done? then Some(ev.text) else None
    {
      var c := AnyOutcome();
      var s: string := *;
      ev := Event(c, s, false);
      text := if c.Done? then Some(s) else None;
    }

    /** The key tool prints a key on one line. */
    method PublicKey() returns (key: Option<string>, ghost ev: Event)
      ensures '\n' !in TrimSpace(ev.text)
      ensures key == if ev.outcome.Done? then Some(TrimSpace(ev.text)) else None
    {
      var c := AnyOutcome();
      var s: string := *;
      if '\n' in TrimSpace(s) { s := ""; }
      ev := Event(c, s, false);
      key := if c.Done? then Some(TrimSpace(s)) else None;
    }

    method WriteFileAtomic(path: Path, data: string) returns (ok: bool, ghost o: Outcome)
      modifies this
      ensures (W(), ok) == WriteFile(old(W()), path, data, o)
      ensures lock == old(lock)
    {
      var c := AnyOutcome();
      o := c;
      if !c.Failed? { files := files[path := data]; }
      ok := c.Done?;
    }

    method Backup(path: Path, backup: Path, required: bool) returns (ok: bool, ghost o: Outcome)
      modifies this
      ensures (W(), ok) == BackupFile(old(W()), path, backup, required, o)
      ensures lock == old(lock)
    {
      o := Done;
      if path in files {
        ok, o := WriteFileAtomic(backup, files[path]);
      } else if required {
        ok := false;
      } else {
        ok, o := WriteFileAtomic(backup, "[]\n");
      }
    }

    method Restore(backup: Path, path: Path) returns (ok: bool, ghost o: Outcome)
      modifies this
      ensures (W(), ok) == RestoreFile(old(W()), backup, path, o)
      ensures lock == old(lock)
    {
      o := Done;
      if backup in files {
        ok, o := WriteFileAtomic(path, files[backup]);
      } else {
        ok := false;
      }
    }

    method Remove(path: Path) returns (ok: bool, ghost o: Outcome)
      modifies this
      ensures (W(), ok) == RemoveFile(old(W()), path, o)
      ensures lock == old(lock)
    {
      var c := AnyOutcome();
      o := c;
      if !c.Failed? { files := files - {path}; }
      ok := c.Done?;
    }

    method Sync() returns (ok: bool, ghost o: Outcome)
      modifies this
      ensures (W(), ok) == SyncConf(old(W()), o)
      ensures lock == old(lock)
    {
      var c := AnyOutcome();
      o := c;
      ok := false;
      if ConfigFile in files {
        var parsed := ParseConfig(files[ConfigFile]);
        if parsed.Ok? {
          if !c.Failed? { runtime := parsed.value.peers; }
          ok := c.Done?;
        }
      }
    }

    /** One attempt to lock without waiting: None when somebody else holds it,
        Some(false) on any other error. */
    method TryFlock() returns (r: Option<bool>)
      modifies this`lock
      ensures r == Some(true) ==> old(lock).None? && lock == Some(me)
      ensures r != Some(true) ==> lock == old(lock)
    {
      var c := AnyOutcome();
      if !c.Done? { return Some(false); }
      if lock.Some? { return None; }
      lock := Some(me);
      return Some(true);
    }

    /** Time passes and other processes take their steps. All that is known of
        them is what every run keeps: the file stays valid, and nobody locks on
        behalf of this process. */
    method Sleep(ms: nat)
      modifies this
      ensures clock >= old(clock) + ms
      ensures old(FileGood(lib, W())) ==> FileGood(lib, W())
      ensures old(PskOk(W())) ==> PskOk(W())
      ensures old(lock) != Some(me) ==> lock != Some(me)
    {
      clock := clock + ms;
      if lock != Some(me) {
        if * { lock := None; }
      }
    }
  }

  // ----- The host lock -----

  class FileLock {
    const docker: Container
    var file: bool

    ghost predicate Valid()
      reads this, docker
    {
      file ==> docker.lock == Some(docker.me)
    }

    constructor Acquired(docker: Container)
      requires docker.lock == Some(docker.me)
      ensures Valid() && this.docker == docker && file
    {
      this.docker, file := docker, true;
    }

    /** Releasing twice is the same as releasing once. */
    method Release()
      requires Valid()
      modifies this, docker`lock
      ensures Valid() && !file
      ensures docker.lock == if old(file) then None else old(docker.lock)
    {
      if !file { return; }
      docker.lock := None;
      file := false;
    }
  }

  datatype LockError = LockFailed | StillHeld

  /** Tries to lock until it works, fails for another reason, or the deadline
      has passed. */
  method AcquireLock(docker: Container, timeout: nat, interval: nat) returns (r: Result<FileLock, LockError>)
    requires interval > 0 && docker.lock != Some(docker.me)
    modifies docker
    ensures r.Ok? <==> docker.lock == Some(docker.me)
    ensures r.Ok? ==> fresh(r.value) && r.value.docker == docker && r.value.file
    ensures r == Err(StillHeld) ==> docker.clock > old(docker.clock) + timeout
    ensures old(FileGood(docker.lib, docker.W())) ==> FileGood(docker.lib, docker.W())
    ensures old(PskOk(docker.W())) ==> PskOk(docker.W())
  {
    hide Good, TrimSpace;
    if * { return Err(LockFailed); }
    var deadline := docker.clock + timeout;
    while true
      invariant docker.lock != Some(docker.me)
      invariant old(FileGood(docker.lib, docker.W())) ==> FileGood(docker.lib, docker.W())
      invariant old(PskOk(docker.W())) ==> PskOk(docker.W())
      decreases deadline + interval - docker.clock
    {
      var locked := docker.TryFlock();
      if locked == Some(true) {
        var held := new FileLock.Acquired(docker);
        return Ok(held);
      }
      if locked.Some? { return Err(LockFailed); }
      if docker.clock > deadline { return Err(StillHeld); }
      docker.Sleep(interval);
    }
  }

  // ----- The service -----

  datatype ReadState = ReadState(cfg: Config, table: T.Records, runtime: Status)

  class Service {
    const docker: Container
    const lockTimeout: nat
    const lockInterval: nat

    constructor (docker: Container, lockTimeout: nat, lockInterval: nat)
      ensures this.docker == docker && this.lockTimeout == lockTimeout && this.lockInterval == lockInterval
    {
      this.docker, this.lockTimeout, this.lockInterval := docker, lockTimeout, lockInterval;
    }

    /** The events lead this process from a world and point to the present. */
    ghost predicate Went(op: Op, w: World, pc: Pc, evs: seq<Event>, pc': Pc)
      reads docker
    {
      Goes(docker.lib, docker.me, op, w, pc, evs, docker.W(), pc')
    }

    /** Reads the configuration, the clients table and the running interface. */
    method Read(ghost op: Op) returns (r: Option<ReadState>, ghost evs: seq<Event>)
      ensures r.None? ==> Went(op, docker.W(), ReadingConfig, evs, Releasing(Refused))
      ensures r.Some? ==> r.value.cfg.Valid() && fresh(r.value.cfg) && fresh(r.value.cfg.peers)
      ensures r.Some? ==> r.value.table.Valid() && fresh(r.value.table) && fresh(r.value.table.rows)
      ensures r.Some? ==> Went(op, docker.W(), ReadingConfig, evs,
                            AfterRead(docker.lib, op, r.value.cfg.Data(), r.value.table.View(), r.value.runtime.peers))
    {
      hide Parse, ParseShow, AfterRead, Goes;
      ghost var lib, me, w := docker.lib, docker.me, docker.W();
      var text, o := docker.ReadFile(ConfigFile);
      evs := [Event(o, "", false)];
      GoesOne(lib, me, op, w, ReadingConfig, evs[0]);
      if text.None? { return None, evs; }
      var parsed := ParseConfig(text.value);
      if parsed.Err? { return None, evs; }
      var tableText, o2 := docker.ReadFileOrEmptyArray(TableFile);
      GoesNext(lib, me, op, w, ReadingConfig, evs, w, ReadingTable(parsed.value), Event(o2, "", false));
      evs := evs + [Event(o2, "", false)];
      if tableText.None? { return None, evs; }
      var table := docker.lib.parseTable(tableText.value);
      if table.None? { return None, evs; }
      var shown, ev := docker.Output();
      GoesNext(lib, me, op, w, ReadingConfig, evs, w, ReadingRuntime(parsed.value, table.value), ev);
      evs := evs + [ev];
      if shown.None? { return None, evs; }
      var status := ParseAWGShow(shown.value);
      var cfg := new Config(parsed.value);
      var rows := new T.Records(table.value);
      r := Some(ReadState(cfg, rows, status));
    }

    /** Generates the client's key and picks its address. */
    method NewClient(ghost op: Op, cfg: Config, ghost table: T.Table, runtime: Status)
      returns (r: Option<(string, nat)>, ghost evs: seq<Event>)
      requires cfg.Valid()
      ensures var pc := GeneratingKey(cfg.Data(), table, runtime.peers);
              match r
              case None => Went(op, docker.W(), pc, evs, Releasing(Refused))
              case Some((key, ip)) => ip < 4294967296 && Went(op, docker.W(), pc, evs, ReadingServerKey(cfg.Data(), table, runtime.peers, key, ip))
    {
      hide Allocate, HasKey, Goes, RuntimeUsed, TrimSpace;
      ghost var lib, me, w := docker.lib, docker.me, docker.W();
      ghost var pc := GeneratingKey(cfg.Data(), table, runtime.peers);
      var secret, ev := docker.Output();
      evs := [ev];
      GoesOne(lib, me, op, w, pc, ev);
      if secret.None? { return None, evs; }
      var key, ev2 := docker.PublicKey();
      GoesNext(lib, me, op, w, pc, evs, w, DerivingKey(pc.cfg, table, pc.shown), ev2);
      evs := evs + [ev2];
      if key.None? { return None, evs; }
      var present := cfg.FindPeer(key.value);
      if present.Some? { return None, evs; }
      var used := UsedByRuntime(runtime.peers);
      var ip := cfg.AllocateFreeIPv4(docker.lib.v6, used);
      if ip.Err? { return None, evs; }
      return Some((key.value, ip.value)), evs;
    }

    /** Reads the server's keys, adds the peer and checks the result. */
    method AddClient(ghost op: Op, name: string, cfg: Config, table: T.Records, runtime: Status, key: string, ip: nat)
      returns (issued: Option<Report>, ghost evs: seq<Event>)
      requires op.Issue? && op.name == name && cfg.Valid() && table.Valid() && ip < 4294967296
      modifies cfg, cfg.peers, table, table.rows
      ensures cfg.Valid() && table.Valid()
      ensures cfg.peers == old(cfg.peers) || fresh(cfg.peers)
      ensures table.rows == old(table.rows) || fresh(table.rows)
      ensures issued.Some? ==> issued.value.Issued? && ValidConfig(docker.lib.v6, cfg.Data())
      ensures Went(op, docker.W(), ReadingServerKey(old(cfg.Data()), old(table.View()), runtime.peers, key, ip), evs,
                   if issued.Some? then Stating(Plan(cfg.Data(), table.View(), issued.value)) else Releasing(Refused))
    {
      hide ValidConfig, Goes, TrimSpace, FormatIPv4, T.AddOrUpdate;
      ghost var lib, me, w := docker.lib, docker.me, docker.W();
      ghost var data, rows := cfg.Data(), table.View();
      ghost var pc := ReadingServerKey(data, rows, runtime.peers, key, ip);
      issued := None;
      var serverKey, o := docker.ReadFile(ServerKeyFile);
      evs := [Event(o, "", false)];
      GoesOne(lib, me, op, w, pc, evs[0]);
      if serverKey.None? || TrimSpace(serverKey.value) == "" { return; }
      var psk, o2 := docker.ReadFile(PskFile);
      var created: string, rendered: bool := *, *;
      ghost var ev := Event(o2, created, rendered);
      GoesNext(lib, me, op, w, pc, evs, w, ReadingPsk(data, rows, runtime.peers, key, ip), ev);
      evs := evs + [ev];
      if psk.None? || TrimSpace(psk.value) == "" { return; }
      var peer := HostPeer(key, TrimSpace(psk.value), ip);
      cfg.AddPeer(peer);
      var e := cfg.Validate(docker.lib.v6);
      if e.Some? { return; }
      table.AddOrUpdateRecord(key, name, FormatIPv4(ip) + "/32", created);
      if !rendered { return; }
      issued := Some(Issued(peer, ip, runtime.peers));
    }

    /** Copies both files aside. */
    method MakeBackups(ghost op: Op, ghost plan: Plan) returns (bk: Option<Backups>, ghost evs: seq<Event>)
      modifies docker
      ensures docker.lock == old(docker.lock)
      ensures bk.None? ==> Went(op, old(docker.W()), Stating(plan), evs, Releasing(Refused))
      ensures bk.Some? ==> Went(op, old(docker.W()), Stating(plan), evs,
                             if ValidConfig(docker.lib.v6, plan.next) then WritingConfig(plan, bk.value) else RestoringConfig(bk.value))
    {
      hide ValidConfig, Goes, BackupFile;
      ghost var lib, me, w := docker.lib, docker.me, docker.W();
      var stamp: string := *;
      var existed, o := docker.FileExists(TableFile);
      evs := [Event(o, stamp, false)];
      GoesOne(lib, me, op, w, Stating(plan), evs[0]);
      if existed.None? { return None, evs; }
      var b := Backups(stamp, existed.value);
      var ok, o2 := docker.Backup(ConfigFile, ConfigBackup(stamp), true);
      GoesNext(lib, me, op, w, Stating(plan), evs, w, BackingConfig(plan, b), Event(o2, "", false));
      evs := evs + [Event(o2, "", false)];
      if !ok { return None, evs; }
      ghost var w2 := docker.W();
      ok, o2 := docker.Backup(TableFile, TableBackup(stamp), false);
      GoesNext(lib, me, op, w, Stating(plan), evs, w2, BackingTable(plan, b), Event(o2, "", false));
      evs := evs + [Event(o2, "", false)];
      bk := if ok then Some(b) else None;
    }

    method WriteState(ghost op: Op, ghost plan: Plan, ghost bk: Backups, cfg: Config, table: T.Records)
      returns (ok: bool, ghost evs: seq<Event>)
      requires cfg.Valid() && table.Valid() && plan.next == cfg.Data() && plan.table == table.View()
      modifies docker
      ensures docker.lock == old(docker.lock)
      ensures Went(op, old(docker.W()), WritingConfig(plan, bk), evs, if ok then Syncing(plan, bk) else RestoringConfig(bk))
    {
      hide Render, Goes;
      ghost var lib, me, w := docker.lib, docker.me, docker.W();
      var text := RenderConfig(ConfigData(cfg.iface, cfg.peers[..cfg.count]));
      ghost var o: Outcome;
      ok, o := docker.WriteFileAtomic(ConfigFile, text);
      evs := [Event(o, "", false)];
      GoesOne(lib, me, op, w, WritingConfig(plan, bk), evs[0]);
      if !ok { return; }
      ghost var w2 := docker.W();
      var data := docker.lib.renderTable(table.rows[..table.count]);
      o := Done;
      if data.None? {
        ok := false;
      } else {
        ok, o := docker.WriteFileAtomic(TableFile, data.value);
      }
      GoesNext(lib, me, op, w, WritingConfig(plan, bk), evs, w2, WritingTable(plan, bk), Event(o, "", false));
      evs := evs + [Event(o, "", false)];
    }

    /** Loads the new configuration and looks for the key in the running
        interface, where it must be present or absent. */
    method SyncAndCheck(ghost op: Op, ghost plan: Plan, ghost bk: Backups, key: string, wanted: bool)
      returns (ok: bool, ghost evs: seq<Event>)
      requires PlanKey(plan) == key && wanted == plan.result.Issued?
      modifies docker
      ensures docker.lock == old(docker.lock)
      ensures Went(op, old(docker.W()), Syncing(plan, bk), evs, if ok then Releasing(plan.result) else RestoringConfig(bk))
    {
      hide Goes, Parse, ParseShow, SyncConf;
      ghost var lib, me, w := docker.lib, docker.me, docker.W();
      ghost var o: Outcome;
      ok, o := docker.Sync();
      evs := [Event(o, "", false)];
      GoesOne(lib, me, op, w, Syncing(plan, bk), evs[0]);
      if !ok { return; }
      var shown, ev := docker.Output();
      GoesNext(lib, me, op, w, Syncing(plan, bk), evs, docker.W(), Verifying(plan, bk), ev);
      evs := evs + [ev];
      ok := false;
      if shown.None? { return; }
      var status := ParseAWGShow(shown.value);
      var found := FindRuntimePeer(status, key);
      ok := found == wanted;
    }

    /** Restores both files, or the absence of the table, and reloads. */
    method Rollback(ghost op: Op, bk: Backups) returns (r: Report, ghost evs: seq<Event>)
      modifies docker
      ensures docker.lock == old(docker.lock)
      ensures Went(op, old(docker.W()), RestoringConfig(bk), evs, Releasing(r))
    {
      hide Goes, Parse, RestoreFile, RemoveFile, SyncConf;
      ghost var lib, me, w := docker.lib, docker.me, docker.W();
      ghost var o: Outcome;
      var configOk, tableOk, syncOk;
      configOk, o := docker.Restore(ConfigBackup(bk.stamp), ConfigFile);
      evs := [Event(o, "", false)];
      GoesOne(lib, me, op, w, RestoringConfig(bk), evs[0]);
      ghost var w2 := docker.W();
      if bk.tableExisted {
        tableOk, o := docker.Restore(TableBackup(bk.stamp), TableFile);
      } else {
        tableOk, o := docker.Remove(TableFile);
      }
      GoesNext(lib, me, op, w, RestoringConfig(bk), evs, w2, RestoringTable(bk, !configOk), Event(o, "", false));
      evs := evs + [Event(o, "", false)];
      ghost var w3 := docker.W();
      syncOk, o := docker.Sync();
      GoesNext(lib, me, op, w, RestoringConfig(bk), evs, w3, Resyncing(!configOk || !tableOk), Event(o, "", false));
      evs := evs + [Event(o, "", false)];
      r := if configOk && tableOk && syncOk then RolledBack else RollbackFailed;
    }

    /** Writes, reloads and checks the new state, or rolls back. */
    method Commit(ghost op: Op, ghost plan: Plan, bk: Backups, cfg: Config, table: T.Records, result: Report)
      returns (r: Report, ghost evs: seq<Event>)
      requires cfg.Valid() && table.Valid() && plan == Plan(cfg.Data(), table.View(), result)
      requires result.Issued? || result.Revoked?
      modifies docker
      ensures docker.lock == old(docker.lock)
      ensures Went(op, old(docker.W()), WritingConfig(plan, bk), evs, Releasing(r))
    {
      hide Goes;
      ghost var lib, me, w := docker.lib, docker.me, docker.W();
      ghost var start := WritingConfig(plan, bk);
      var ok;
      ok, evs := WriteState(op, plan, bk, cfg, table);
      ghost var w1, more := docker.W(), [];
      if ok {
        var key := if result.Issued? then result.peer.publicKey else result.key;
        ok, more := SyncAndCheck(op, plan, bk, key, result.Issued?);
        ghost var at := if ok then Releasing(result) else RestoringConfig(bk);
        GoesChain(lib, me, op, w, start, evs, w1, Syncing(plan, bk), more, docker.W(), at);
        evs := evs + more;
        if ok { return result, evs; }
      }
      ghost var w2 := docker.W();
      r, more := Rollback(op, bk);
      GoesChain(lib, me, op, w, start, evs, w2, RestoringConfig(bk), more, docker.W(), Releasing(r));
      evs := evs + more;
    }

    /** Everything an issue does while it holds the lock. */
    method IssueLocked(name: string, endpointHost: string) returns (r: Report, ghost evs: seq<Event>)
      modifies docker
      ensures docker.lock == old(docker.lock)
      ensures Went(Issue(name, endpointHost), old(docker.W()), ReadingConfig, evs, Releasing(r))
    {
      hide Goes, ValidConfig;
      ghost var lib, me, w := docker.lib, docker.me, docker.W();
      ghost var op := Op.Issue(name, endpointHost);
      var state;
      state, evs := Read(op);
      if state.None? { return Refused, evs; }
      var cfg, table := state.value.cfg, state.value.table;
      ghost var data, rows := cfg.Data(), table.View();
      var e := cfg.Validate(docker.lib.v6);
      if e.Some? { return Refused, evs; }
      ghost var more;
      ghost var shown := state.value.runtime.peers;
      var client;
      client, more := NewClient(op, cfg, rows, state.value.runtime);
      if client.None? {
        GoesChain(lib, me, op, w, ReadingConfig, evs, w, GeneratingKey(data, rows, shown), more, w, Releasing(Refused));
        return Refused, evs + more;
      }
      var (key, ip) := client.value;
      GoesChain(lib, me, op, w, ReadingConfig, evs, w, GeneratingKey(data, rows, shown), more, w, ReadingServerKey(data, rows, shown, key, ip));
      evs := evs + more;
      var issued;
      issued, more := AddClient(op, name, cfg, table, state.value.runtime, key, ip);
      ghost var at := if issued.Some? then Stating(Plan(cfg.Data(), table.View(), issued.value)) else Releasing(Refused);
      GoesChain(lib, me, op, w, ReadingConfig, evs, w, ReadingServerKey(data, rows, shown, key, ip), more, w, at);
      evs := evs + more;
      if issued.None? { return Refused, evs; }
      r, more := WriteBehind(op, cfg, table, issued.value);
      GoesChain(lib, me, op, w, ReadingConfig, evs, w, at, more, docker.W(), Releasing(r));
      evs := evs + more;
    }

    /** Backs up, then commits a state that is known to be valid. */
    method WriteBehind(ghost op: Op, cfg: Config, table: T.Records, result: Report)
      returns (r: Report, ghost evs: seq<Event>)
      requires cfg.Valid() && table.Valid() && ValidConfig(docker.lib.v6, cfg.Data())
      requires result.Issued? || result.Revoked?
      modifies docker
      ensures docker.lock == old(docker.lock)
      ensures Went(op, old(docker.W()), Stating(Plan(cfg.Data(), table.View(), result)), evs, Releasing(r))
    {
      hide Goes, ValidConfig;
      ghost var lib, me, w, plan := docker.lib, docker.me, docker.W(), Plan(cfg.Data(), table.View(), result);
      var bk;
      bk, evs := MakeBackups(op, plan);
      if bk.None? { return Refused, evs; }
      ghost var w1, more := docker.W(), [];
      r, more := Commit(op, plan, bk.value, cfg, table, result);
      GoesChain(lib, me, op, w, Stating(plan), evs, w1, WritingConfig(plan, bk.value), more, docker.W(), Releasing(r));
      evs := evs + more;
    }

    /** Everything a revoke does while it holds the lock. */
    method RevokeLocked(publicKey: string) returns (r: Report, ghost evs: seq<Event>)
      modifies docker
      ensures docker.lock == old(docker.lock)
      ensures Went(Revoke(publicKey), old(docker.W()), ReadingConfig, evs, Releasing(r))
    {
      hide Goes, ValidConfig, TrimSpace, HasKey, AwgRules.Without, T.Without;
      ghost var lib, me, w := docker.lib, docker.me, docker.W();
      ghost var op := Op.Revoke(publicKey);
      var key := TrimSpace(publicKey);
      var state;
      state, evs := Read(op);
      if state.None? { return Refused, evs; }
      var cfg, table := state.value.cfg, state.value.table;
      ghost var data, rows := cfg.Data(), table.View();
      var found := cfg.FindPeer(key);
      if found.None? { return Refused, evs; }
      var e := cfg.Validate(docker.lib.v6);
      if e.Some? { return Refused, evs; }
      ghost var plan := Plan(data.(peers := AwgRules.Without(data.peers, key)), T.Without(rows, key), Revoked(key));
      var bk;
      ghost var more;
      bk, more := MakeBackups(op, plan);
      ghost var at := if bk.None? then Releasing(Refused)
                      else if ValidConfig(lib.v6, plan.next) then WritingConfig(plan, bk.value) else RestoringConfig(bk.value);
      GoesChain(lib, me, op, w, ReadingConfig, evs, w, Stating(plan), more, docker.W(), at);
      evs := evs + more;
      if bk.None? { return Refused, evs; }
      var _ := cfg.RemovePeer(key);
      var _ := table.Remove(key);
      ghost var w1 := docker.W();
      e := cfg.Validate(docker.lib.v6);
      if e.Some? {
        r, more := Rollback(op, bk.value);
      } else {
        r, more := Commit(op, plan, bk.value, cfg, table, Revoked(key));
      }
      GoesChain(lib, me, op, w, ReadingConfig, evs, w1, at, more, docker.W(), Releasing(r));
      evs := evs + more;
    }

    /** Adds a client under the lock. What the report says of the files holds
        between the moment the lock was taken and its release. */
    method IssueClient(name: string, endpointHost: string) returns (r: Report, ghost start: World)
      requires docker.lock != Some(docker.me) && lockInterval > 0
      modifies docker
      ensures docker.lock != Some(docker.me)
      ensures TrimSpace(name) == "" || TrimSpace(endpointHost) == "" ==> r == Refused && docker.W() == old(docker.W())
      ensures start.lock == Some(docker.me) ==> exists evs ::
                Goes(docker.lib, docker.me, Issue(name, endpointHost), start, ReadingConfig, evs,
                     docker.W().(lock := start.lock), Releasing(r))
      ensures start.lock != Some(docker.me) ==> r == Refused && docker.W() == start
      ensures old(FileGood(docker.lib, docker.W()) && PskOk(docker.W())) ==>
                FileGood(docker.lib, docker.W()) && PskOk(docker.W())
                && EndOk(docker.lib, Issue(name, endpointHost), r, Snap(start), Snap(docker.W()))
    {
      hide Good, Goes, EndOk, PskOk;
      start := docker.W();
      if TrimSpace(name) == "" || TrimSpace(endpointHost) == "" {
        NoChange(docker.lib, Issue(name, endpointHost), start);
        return Refused, start;
      }
      var lock := AcquireLock(docker, lockTimeout, lockInterval);
      start := docker.W();
      if lock.Err? {
        NoChange(docker.lib, Issue(name, endpointHost), start);
        return Refused, start;
      }
      ghost var evs;
      r, evs := IssueLocked(name, endpointHost);
      ghost var end := docker.W();
      if FileGood(docker.lib, start) && PskOk(start) {
        SoloEnd(docker.lib, docker.me, Issue(name, endpointHost), start, evs, end, r);
      }
      lock.value.Release();
      Unlocked(docker.lib, end, docker.W());
    }

    /** Removes a client under the lock. */
    method RevokeClient(publicKey: string) returns (r: Report, ghost start: World)
      requires docker.lock != Some(docker.me) && lockInterval > 0
      modifies docker
      ensures docker.lock != Some(docker.me)
      ensures TrimSpace(publicKey) == "" ==> r == Refused && docker.W() == old(docker.W())
      ensures start.lock == Some(docker.me) ==> exists evs ::
                Goes(docker.lib, docker.me, Revoke(publicKey), start, ReadingConfig, evs,
                     docker.W().(lock := start.lock), Releasing(r))
      ensures start.lock != Some(docker.me) ==> r == Refused && docker.W() == start
      ensures old(FileGood(docker.lib, docker.W()) && PskOk(docker.W())) ==>
                FileGood(docker.lib, docker.W()) && PskOk(docker.W())
                && EndOk(docker.lib, Revoke(publicKey), r, Snap(start), Snap(docker.W()))
    {
      hide Good, Goes, EndOk, PskOk;
      start := docker.W();
      if TrimSpace(publicKey) == "" {
        NoChange(docker.lib, Revoke(publicKey), start);
        return Refused, start;
      }
      var lock := AcquireLock(docker, lockTimeout, lockInterval);
      start := docker.W();
      if lock.Err? {
        NoChange(docker.lib, Revoke(publicKey), start);
        return Refused, start;
      }
      ghost var evs;
      r, evs := RevokeLocked(publicKey);
      ghost var end := docker.W();
      if FileGood(docker.lib, start) && PskOk(start) {
        SoloEnd(docker.lib, docker.me, Revoke(publicKey), start, evs, end, r);
      }
      lock.value.Release();
      Unlocked(docker.lib, end, docker.W());
    }
  }

  lemma NoChange(lib: Library, op: Op, w: World)
    ensures FileGood(lib, w) ==> EndOk(lib, op, Refused, Snap(w), Snap(w))
  {
    hide Good;
  }

  lemma Unlocked(lib: Library, w: World, w': World)
    requires w'.files == w.files && w'.runtime == w.runtime
    ensures Snap(w') == Snap(w) && (FileGood(lib, w) <==> FileGood(lib, w')) && (PskOk(w) <==> PskOk(w'))
  {
    hide Good, TrimSpace;
  }

  /** The allowed addresses of all runtime peers. */
  method UsedByRuntime(ps: seq<RuntimePeer>) returns (used: seq<string>)
    ensures used == RuntimeUsed(ps)
    ensures forall x :: x in used <==> exists i, k :: 0 <= i < |ps| && 0 <= k < |ps[i].allowedIPs| && ps[i].allowedIPs[k] == x
  {
    used := [];
    assert ps[0..] == ps && [] + RuntimeUsed(ps) == RuntimeUsed(ps);
    for i := 0 to |ps|
      invariant used + RuntimeUsed(ps[i..]) == RuntimeUsed(ps)
    {
      assert ps[i..][1..] == ps[i + 1..] && ps[i..][0] == ps[i];
      ConcatAssoc(used, ps[i].allowedIPs, RuntimeUsed(ps[i + 1..]));
      used := used + ps[i].allowedIPs;
    }
    assert used + [] == used;
    forall x { RuntimeUsedMembers(ps, x); }
  }
}
