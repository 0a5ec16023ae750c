/**
 The agent's Issue and Revoke transactions as steps around the host lock, one
 container call per step. Any call may fail, with or without having taken
 effect, and any number of processes take their steps in any order.
 */
module AgentMachine {
  import opened Wrappers
  import opened Text
  import opened Netip
  import opened AwgConfig
  import opened AwgRules
  import opened AwgAllocation
  import opened AwgRuntime
  import opened AgentAddress
  import T = ClientsTable

  // ----- The container -----

  datatype Path =
    | ConfigFile
    | TableFile
    | ServerKeyFile
    | PskFile
    | ConfigBackup(stamp: string)
    | TableBackup(stamp: string)

  /** Files of the container, peers of the running interface, holder of the lock. */
  datatype World = World(files: map<Path, string>, runtime: seq<Peer>, lock: Option<nat>)

  /** What the model takes from libraries: the reader of IPv6 text and the JSON
      codec of the clients table. */
  datatype Library = Library(v6: V6Reader, parseTable: string -> Option<T.Table>, renderTable: T.Table -> Option<string>)

  /** A call works, fails without effect, or takes effect but reports an error. */
  datatype Outcome = Done | Failed | FailedLate

  /** What the environment contributes to a step: the outcome of its call, the
      text it returns or the time it reads, and whether the client's texts could
      be rendered. */
  datatype Event = Event(outcome: Outcome, text: string, rendered: bool)

  function WriteFile(w: World, path: Path, data: string, o: Outcome): (World, bool) {
    (if o.Failed? then w else w.(files := w.files[path := data]), o.Done?)
  }

  function BackupFile(w: World, path: Path, backup: Path, required: bool, o: Outcome): (World, bool) {
    if path in w.files then WriteFile(w, backup, w.files[path], o)
    else if required then (w, false)
    else WriteFile(w, backup, "[]\n", o)
  }

  function RestoreFile(w: World, backup: Path, path: Path, o: Outcome): (World, bool) {
    if backup in w.files then WriteFile(w, path, w.files[backup], o) else (w, false)
  }

  function RemoveFile(w: World, path: Path, o: Outcome): (World, bool) {
    (if o.Failed? then w else w.(files := w.files - {path}), o.Done?)
  }

  /** Makes the running peers those of the configuration file. */
  function SyncConf(w: World, o: Outcome): (World, bool) {
    if ConfigFile !in w.files || Parse(w.files[ConfigFile]).Err? then (w, false)
    else (if o.Failed? then w else w.(runtime := Parse(w.files[ConfigFile]).value.peers), o.Done?)
  }

  function Read(w: World, path: Path, o: Outcome): Option<string> {
    if o.Done? && path in w.files then Some(w.files[path]) else None
  }

  function ReadTrimmed(w: World, path: Path, o: Outcome): Option<string> {
    match Read(w, path, o)
    case None => None
    case Some(text) => if TrimSpace(text) == "" then None else Some(TrimSpace(text))
  }

  function TableText(w: World): string {
    if TableFile in w.files then w.files[TableFile] else "[]\n"
  }

  // ----- Transactions -----

  datatype Op = Issue(name: string, endpointHost: string) | Revoke(publicKey: string)

  /** How a transaction ended. An issue also records the peers that the interface
      showed when it read them, which the caller is not told. */
  datatype Report =
    | Issued(peer: Peer, ip: nat, shown: seq<RuntimePeer>)
    | Revoked(key: string)
    | Refused
    | RolledBack
    | RollbackFailed
    | Died

  /** The new state that a transaction is about to write. */
  datatype Plan = Plan(next: ConfigData, table: T.Table, result: Report)

  datatype Backups = Backups(stamp: string, tableExisted: bool)

  /** Where a transaction is: the call it makes next and what it holds. */
  datatype Pc =
    | Starting
    | Locking
    | ReadingConfig
    | ReadingTable(cfg: ConfigData)
    | ReadingRuntime(cfg: ConfigData, table: T.Table)
    | GeneratingKey(cfg: ConfigData, table: T.Table, shown: seq<RuntimePeer>)
    | DerivingKey(cfg: ConfigData, table: T.Table, shown: seq<RuntimePeer>)
    | ReadingServerKey(cfg: ConfigData, table: T.Table, shown: seq<RuntimePeer>, key: string, ip: nat)
    | ReadingPsk(cfg: ConfigData, table: T.Table, shown: seq<RuntimePeer>, key: string, ip: nat)
    | Stating(plan: Plan)
    | BackingConfig(plan: Plan, bk: Backups)
    | BackingTable(plan: Plan, bk: Backups)
    | WritingConfig(plan: Plan, bk: Backups)
    | WritingTable(plan: Plan, bk: Backups)
    | Syncing(plan: Plan, bk: Backups)
    | Verifying(plan: Plan, bk: Backups)
    | RestoringConfig(bk: Backups)
    | RestoringTable(bk: Backups, bad: bool)
    | Resyncing(bad: bool)
    | Releasing(result: Report)
    | Finished(result: Report)

  function PlanKey(plan: Plan): string {
    match plan.result
    case Issued(peer, _, _) => peer.publicKey
    case Revoked(key) => key
    case _ => ""
  }

  /** After the state was read: validate, and plan a removal or go on to keys. */
  ghost function AfterRead(lib: Library, op: Op, cfg: ConfigData, table: T.Table, shown: seq<RuntimePeer>): Pc {
    match op
    case Issue(_, _) =>
      if ValidConfig(lib.v6, cfg) then GeneratingKey(cfg, table, shown) else Releasing(Refused)
    case Revoke(k) =>
      var key := TrimSpace(k);
      if HasKey(cfg.peers, key) && ValidConfig(lib.v6, cfg)
      then Stating(Plan(cfg.(peers := Without(cfg.peers, key)), T.Without(table, key), Revoked(key)))
      else Releasing(Refused)
  }

  function AfterKey(lib: Library, cfg: ConfigData, table: T.Table, shown: seq<RuntimePeer>, key: string): Pc {
    if HasKey(cfg.peers, key) then Releasing(Refused)
    else match Allocate(lib.v6, cfg, RuntimeUsed(shown))
         case Err(_) => Releasing(Refused)
         case Ok(ip) => ReadingServerKey(cfg, table, shown, key, ip)
  }

  /** All keys are known: add the peer, validate again, render the client's texts. */
  ghost function AfterPsk(lib: Library, op: Op, cfg: ConfigData, table: T.Table, shown: seq<RuntimePeer>, key: string, ip: nat, psk: string, ev: Event): Pc {
    if ip >= 4294967296 || op.Revoke? then Releasing(Refused)
    else
      var peer := HostPeer(key, psk, ip);
      var next := cfg.(peers := cfg.peers + [peer]);
      if ValidConfig(lib.v6, next) && ev.rendered
      then Stating(Plan(next, T.AddOrUpdate(table, key, op.name, FormatIPv4(ip) + "/32", ev.text), Issued(peer, ip, shown)))
      else Releasing(Refused)
  }

  function Verified(plan: Plan, text: string): bool {
    HasPeer(ParseShow(text), PlanKey(plan)) == plan.result.Issued?
  }

  /** One step of one process. */
  ghost function Next(lib: Library, me: nat, op: Op, w: World, pc: Pc, ev: Event): (World, Pc) {
    var o := ev.outcome;
    match pc
    case Starting =>
      var blank := match op
                   case Issue(name, endpoint) => TrimSpace(name) == "" || TrimSpace(endpoint) == ""
                   case Revoke(key) => TrimSpace(key) == "";
      (w, if blank then Finished(Refused) else Locking)
    case Locking =>
      if o.Failed? then (w, Finished(Refused))
      else if o.Done? && w.lock.None? then (w.(lock := Some(me)), ReadingConfig)
      else (w, Locking)
    case ReadingConfig =>
      (match Read(w, ConfigFile, o)
       case None => (w, Releasing(Refused))
       case Some(text) => (w, if Parse(text).Ok? then ReadingTable(Parse(text).value) else Releasing(Refused)))
    case ReadingTable(cfg) =>
      (w, if o.Done? && lib.parseTable(TableText(w)).Some? then ReadingRuntime(cfg, lib.parseTable(TableText(w)).value)
          else Releasing(Refused))
    case ReadingRuntime(cfg, table) =>
      (w, if o.Done? then AfterRead(lib, op, cfg, table, ParseShow(ev.text).peers) else Releasing(Refused))
    case GeneratingKey(cfg, table, shown) =>
      (w, if o.Done? then DerivingKey(cfg, table, shown) else Releasing(Refused))
    case DerivingKey(cfg, table, shown) =>
      (w, if o.Done? then AfterKey(lib, cfg, table, shown, TrimSpace(ev.text)) else Releasing(Refused))
    case ReadingServerKey(cfg, table, shown, key, ip) =>
      (w, if ReadTrimmed(w, ServerKeyFile, o).Some? then ReadingPsk(cfg, table, shown, key, ip) else Releasing(Refused))
    case ReadingPsk(cfg, table, shown, key, ip) =>
      (match ReadTrimmed(w, PskFile, o)
       case None => (w, Releasing(Refused))
       case Some(psk) => (w, AfterPsk(lib, op, cfg, table, shown, key, ip, psk, ev)))
    case Stating(plan) =>
      (w, if o.Done? then BackingConfig(plan, Backups(ev.text, TableFile in w.files)) else Releasing(Refused))
    case BackingConfig(plan, bk) =>
      var (w', ok) := BackupFile(w, ConfigFile, ConfigBackup(bk.stamp), true, o);
      (w', if ok then BackingTable(plan, bk) else Releasing(Refused))
    case BackingTable(plan, bk) =>
      var (w', ok) := BackupFile(w, TableFile, TableBackup(bk.stamp), false, o);
      (w', if !ok then Releasing(Refused)
           else if ValidConfig(lib.v6, plan.next) then WritingConfig(plan, bk)
           else RestoringConfig(bk))
    case WritingConfig(plan, bk) =>
      var (w', ok) := WriteFile(w, ConfigFile, Render(plan.next), o);
      (w', if ok then WritingTable(plan, bk) else RestoringConfig(bk))
    case WritingTable(plan, bk) =>
      (match lib.renderTable(plan.table)
       case None => (w, RestoringConfig(bk))
       case Some(text) =>
         var (w', ok) := WriteFile(w, TableFile, text, o);
         (w', if ok then Syncing(plan, bk) else RestoringConfig(bk)))
    case Syncing(plan, bk) =>
      var (w', ok) := SyncConf(w, o);
      (w', if ok then Verifying(plan, bk) else RestoringConfig(bk))
    case Verifying(plan, bk) =>
      (w, if o.Done? && Verified(plan, ev.text) then Releasing(plan.result) else RestoringConfig(bk))
    case RestoringConfig(bk) =>
      var (w', ok) := RestoreFile(w, ConfigBackup(bk.stamp), ConfigFile, o);
      (w', RestoringTable(bk, !ok))
    case RestoringTable(bk, bad) =>
      var (w', ok) := if bk.tableExisted then RestoreFile(w, TableBackup(bk.stamp), TableFile, o)
                      else RemoveFile(w, TableFile, o);
      (w', Resyncing(bad || !ok))
    case Resyncing(bad) =>
      var (w', ok) := SyncConf(w, o);
      (w', Releasing(if bad || !ok then RollbackFailed else RolledBack))
    case Releasing(result) => (w.(lock := None), Finished(result))
    case Finished(result) => (w, pc)
  }

  // ----- Systems of processes -----

  datatype Proc = Proc(op: Op, pc: Pc)

  /** The mutable state a transaction must preserve or replace. */
  datatype Snapshot = Snapshot(config: Option<string>, table: Option<string>, runtime: seq<Peer>)

  /** A finished transaction with the state at its lock and at its release. */
  datatype Entry = Entry(proc: nat, op: Op, result: Report, before: Snapshot, after: Snapshot)

  datatype Sys = Sys(w: World, procs: map<nat, Proc>, atLock: Snapshot, history: seq<Entry>)

  function Get(files: map<Path, string>, p: Path): Option<string> {
    if p in files then Some(files[p]) else None
  }

  function Snap(w: World): Snapshot {
    Snapshot(Get(w.files, ConfigFile), Get(w.files, TableFile), w.runtime)
  }

  ghost function Fire(lib: Library, s: Sys, p: nat, ev: Event): Sys
    requires p in s.procs
  {
    var Proc(op, pc) := s.procs[p];
    var (w', pc') := Next(lib, p, op, s.w, pc, ev);
    Sys(w', s.procs[p := Proc(op, pc')],
        if pc.Locking? && pc'.ReadingConfig? then Snap(w') else s.atLock,
        if pc.Releasing? then s.history + [Entry(p, op, pc.result, s.atLock, Snap(s.w))] else s.history)
  }

  /** The key tool prints a key on one line. */
  predicate EventOk(pc: Pc, ev: Event) {
    pc.DerivingKey? ==> '\n' !in TrimSpace(ev.text)
  }

  /** A process dies inside its transaction: it makes no further call and
      reports nothing, and the kernel takes back its lock. */
  function Die(s: Sys, p: nat): Sys
    requires p in s.procs
  {
    var op := s.procs[p].op;
    Sys(s.w.(lock := None), s.procs[p := Proc(op, Finished(Died))], s.atLock,
        s.history + [Entry(p, op, Died, s.atLock, Snap(s.w))])
  }

  ghost predicate SysNext(lib: Library, s: Sys, s': Sys) {
    || (exists p: nat, op :: p !in s.procs && s' == s.(procs := s.procs[p := Proc(op, Starting)]))
    || (exists p: nat, ev :: p in s.procs && EventOk(s.procs[p].pc, ev) && s' == Fire(lib, s, p, ev))
    || (exists p: nat :: p in s.procs && InCritical(s.procs[p].pc) && s' == Die(s, p))
  }

  predicate InCritical(pc: Pc) {
    !pc.Starting? && !pc.Locking? && !pc.Finished?
  }

  // ----- What every step keeps -----

  ghost predicate Good(lib: Library, text: string) {
    Parse(text).Ok? && ValidConfig(lib.v6, Parse(text).value)
  }

  ghost predicate FileGood(lib: Library, w: World) {
    ConfigFile in w.files && Good(lib, w.files[ConfigFile])
  }

  predicate PskOk(w: World) {
    PskFile in w.files ==> '\n' !in TrimSpace(w.files[PskFile])
  }

  /** The configuration that a snapshot's file holds. */
  function Base(o: Snapshot): ConfigData {
    if o.config.Some? && Parse(o.config.value).Ok? then Parse(o.config.value).value else ConfigData([], [])
  }

  function TableOf(o: Snapshot): string {
    if o.table.Some? then o.table.value else "[]\n"
  }

  ghost predicate SnapGood(lib: Library, o: Snapshot) {
    o.config.Some? && Good(lib, o.config.value)
  }

  /** What an operation may turn a snapshot into. */
  ghost predicate PlanOk(lib: Library, o: Snapshot, op: Op, plan: Plan) {
    var base := Base(o);
    && Printable(plan.next) && ValidConfig(lib.v6, plan.next) && plan.next.iface == base.iface
    && lib.parseTable(TableOf(o)).Some?
    && var t0 := lib.parseTable(TableOf(o)).value;
       match op
       case Issue(name, _) =>
         && plan.result.Issued?
         && !HasKey(base.peers, plan.result.peer.publicKey)
         && plan.next.peers == base.peers + [plan.result.peer]
         && plan.result.ip < 4294967296
         && plan.result.peer == HostPeer(plan.result.peer.publicKey, plan.result.peer.presharedKey, plan.result.ip)
         && NextAddress(lib.v6, base, plan.result.shown, plan.result.ip)
         && (exists created :: plan.table ==
               T.AddOrUpdate(t0, plan.result.peer.publicKey, name, FormatIPv4(plan.result.ip) + "/32", created))
       case Revoke(k) =>
         && plan.result == Revoked(TrimSpace(k)) && HasKey(base.peers, TrimSpace(k))
         && plan.next.peers == Without(base.peers, TrimSpace(k))
         && plan.table == T.Without(t0, TrimSpace(k))
  }

  /** The snapshot after a committed plan. */
  ghost predicate Committed(lib: Library, plan: Plan, s: Snapshot) {
    s == Snapshot(Some(Render(plan.next)), lib.renderTable(plan.table), plan.next.peers) && s.table.Some?
  }

  /** Each file is the old one or the complete one of the plan, and the interface
      runs the old peers, those of the plan, or those of the old file if that is
      the one in place. */
  ghost predicate Mixed(lib: Library, o: Snapshot, plan: Plan, now: Snapshot) {
    && (now.config == o.config || now.config == Some(Render(plan.next)))
    && (now.table == o.table || (now.table.Some? && now.table == lib.renderTable(plan.table)))
    && (now.runtime == o.runtime || now.runtime == plan.next.peers || (now.config == o.config && now.runtime == Base(o).peers))
  }

  /** What a transaction that did not complete its rollback can leave. */
  ghost predicate HalfDone(lib: Library, o: Snapshot, op: Op, now: Snapshot) {
    exists plan :: PlanOk(lib, o, op, plan) && Mixed(lib, o, plan, now)
  }

  /** What a process that dies inside its transaction can leave. */
  ghost predicate LeftOver(lib: Library, o: Snapshot, op: Op, now: Snapshot) {
    now == o || now == o.(runtime := Base(o).peers) || HalfDone(lib, o, op, now)
  }

  /** What a transaction with this result did to the snapshot of its lock. */
  ghost predicate EndOk(lib: Library, op: Op, result: Report, before: Snapshot, after: Snapshot) {
    && SnapGood(lib, before)
    && match result
       case Refused => after == before
       case RolledBack => after == before.(runtime := Base(before).peers)
       case RollbackFailed => HalfDone(lib, before, op, after)
       case Died => LeftOver(lib, before, op, after)
       case _ => exists plan :: PlanOk(lib, before, op, plan) && plan.result == result && Committed(lib, plan, after)
  }

  predicate Backed(w: World, o: Snapshot, bk: Backups) {
    && Get(w.files, ConfigBackup(bk.stamp)) == o.config
    && (o.table.Some? ==> Get(w.files, TableBackup(bk.stamp)) == o.table)
    && bk.tableExisted == o.table.Some?
  }

  ghost predicate ReadOk(lib: Library, o: Snapshot, cfg: ConfigData, table: T.Table) {
    cfg == Base(o) && lib.parseTable(TableOf(o)) == Some(table)
  }

  /** The state of the container at each point of a transaction, relative to
      the snapshot taken when the lock was acquired. */
  ghost predicate Stage(lib: Library, w: World, o: Snapshot, op: Op, pc: Pc) {
    var now := Snap(w);
    match pc
    case Starting => true
    case Locking => true
    case Finished(_) => true
    case ReadingConfig => now == o
    case ReadingTable(cfg) => now == o && cfg == Base(o)
    case ReadingRuntime(cfg, table) => now == o && ReadOk(lib, o, cfg, table)
    case GeneratingKey(cfg, table, shown) => now == o && ReadOk(lib, o, cfg, table) && op.Issue?
    case DerivingKey(cfg, table, shown) => now == o && ReadOk(lib, o, cfg, table) && op.Issue?
    case ReadingServerKey(cfg, table, shown, key, ip) =>
      now == o && ReadOk(lib, o, cfg, table) && op.Issue? && KeyOk(lib, cfg, shown, key, ip)
    case ReadingPsk(cfg, table, shown, key, ip) =>
      now == o && ReadOk(lib, o, cfg, table) && op.Issue? && KeyOk(lib, cfg, shown, key, ip)
    case Stating(plan) => now == o && PlanOk(lib, o, op, plan)
    case BackingConfig(plan, bk) => now == o && PlanOk(lib, o, op, plan) && bk.tableExisted == o.table.Some?
    case BackingTable(plan, bk) =>
      now == o && PlanOk(lib, o, op, plan) && bk.tableExisted == o.table.Some? && Get(w.files, ConfigBackup(bk.stamp)) == o.config
    case WritingConfig(plan, bk) => now == o && PlanOk(lib, o, op, plan) && Backed(w, o, bk)
    case WritingTable(plan, bk) =>
      now == o.(config := Some(Render(plan.next))) && PlanOk(lib, o, op, plan) && Backed(w, o, bk)
    case Syncing(plan, bk) =>
      && now == Snapshot(Some(Render(plan.next)), lib.renderTable(plan.table), o.runtime) && now.table.Some?
      && PlanOk(lib, o, op, plan) && Backed(w, o, bk)
    case Verifying(plan, bk) => Committed(lib, plan, now) && PlanOk(lib, o, op, plan) && Backed(w, o, bk)
    case RestoringConfig(bk) => Backed(w, o, bk) && HalfDone(lib, o, op, now)
    case RestoringTable(bk, bad) => Backed(w, o, bk) && HalfDone(lib, o, op, now) && (!bad ==> now.config == o.config)
    case Resyncing(bad) => HalfDone(lib, o, op, now) && (!bad ==> now.config == o.config && now.table == o.table)
    case Releasing(result) => EndOk(lib, op, result, o, now)
  }

  ghost predicate KeyOk(lib: Library, cfg: ConfigData, shown: seq<RuntimePeer>, key: string, ip: nat) {
    Token(key) && !HasKey(cfg.peers, key) && NextAddress(lib.v6, cfg, shown, ip)
  }

  ghost predicate Ready(lib: Library, w: World, o: Snapshot) {
    SnapGood(lib, o) && FileGood(lib, w) && PskOk(w)
  }

  /** The step of the lock holder keeps the file good and reaches the next stage. */
  ghost predicate StageKept(lib: Library, w: World, o: Snapshot, op: Op, next: (World, Pc)) {
    Ready(lib, next.0, o) && next.0.lock == w.lock && InCritical(next.1) && Stage(lib, next.0, o, op, next.1)
  }

  lemma PlannedHalf(lib: Library, o: Snapshot, op: Op, plan: Plan, now: Snapshot)
    requires PlanOk(lib, o, op, plan) && Mixed(lib, o, plan, now)
    ensures HalfDone(lib, o, op, now)
  {
    hide PlanOk, Mixed;
  }

  /** Restoring a file, or making the running peers those of the file, leaves
      what was half done half done. */
  lemma HalfKept(lib: Library, o: Snapshot, op: Op, now: Snapshot, now': Snapshot)
    requires HalfDone(lib, o, op, now)
    requires now'.config == now.config || now'.config == o.config
    requires now'.table == now.table || now'.table == o.table
    requires now'.runtime == now.runtime || (now' == now.(runtime := now'.runtime) && now'.runtime == Base(now).peers)
    ensures HalfDone(lib, o, op, now')
  {
    hide PlanOk, Parse, Render;
    var plan :| PlanOk(lib, o, op, plan) && Mixed(lib, o, plan, now);
    PlanValid(lib, o, op, plan);
    PlannedHalf(lib, o, op, plan, now');
  }

  lemma RefusedStage(lib: Library, w: World, o: Snapshot, op: Op)
    requires Ready(lib, w, o) && Snap(w) == o
    ensures Stage(lib, w, o, op, Releasing(Refused))
  {
    hide Good, Parse;
  }

  lemma BasePrintable(lib: Library, o: Snapshot)
    requires SnapGood(lib, o)
    ensures Printable(Base(o))
  {
    ParsePrintable(o.config.value);
    hide Parse, Printable;
  }

  lemma KeptReadingConfig(lib: Library, me: nat, w: World, o: Snapshot, op: Op, ev: Event)
    requires Ready(lib, w, o) && Stage(lib, w, o, op, ReadingConfig)
    ensures StageKept(lib, w, o, op, Next(lib, me, op, w, ReadingConfig, ev))
  {
    hide Parse, ValidConfig, PlanOk;
  }

  lemma KeptReadingTable(lib: Library, me: nat, w: World, o: Snapshot, op: Op, cfg: ConfigData, ev: Event)
    requires Ready(lib, w, o) && Stage(lib, w, o, op, ReadingTable(cfg))
    ensures StageKept(lib, w, o, op, Next(lib, me, op, w, ReadingTable(cfg), ev))
  {
    hide Parse, ValidConfig, PlanOk, Base;
  }

  lemma KeptReadingRuntime(lib: Library, me: nat, w: World, o: Snapshot, op: Op, cfg: ConfigData, table: T.Table, ev: Event)
    requires Ready(lib, w, o) && Stage(lib, w, o, op, ReadingRuntime(cfg, table))
    ensures StageKept(lib, w, o, op, Next(lib, me, op, w, ReadingRuntime(cfg, table), ev))
  {
    hide Good, ValidConfig, PlanOk, Base, ParseShow, RuntimeUsed, TrimSpace, HasKey, Parse;
    if op.Revoke? {
      var key := TrimSpace(op.publicKey);
      if HasKey(cfg.peers, key) && ValidConfig(lib.v6, cfg) { RevokePlanOk(lib, o, op, cfg, table); }
    }
  }

  lemma RevokePlanOk(lib: Library, o: Snapshot, op: Op, cfg: ConfigData, table: T.Table)
    requires SnapGood(lib, o) && op.Revoke? && ReadOk(lib, o, cfg, table)
    requires HasKey(cfg.peers, TrimSpace(op.publicKey)) && ValidConfig(lib.v6, cfg)
    ensures var key := TrimSpace(op.publicKey);
            PlanOk(lib, o, op, Plan(cfg.(peers := Without(cfg.peers, key)), T.Without(table, key), Revoked(key)))
  {
    var key := TrimSpace(op.publicKey);
    BasePrintable(lib, o);
    hide Parse, TrimSpace, Base, SnapGood;
    WithoutKeepsOk(lib.v6, cfg.peers, key);
    WithoutPrintable(cfg.peers, key);
    hide Without, PeersOk, PrintablePeers, PrintableLines, HasKey;
    var next := cfg.(peers := Without(cfg.peers, key));
    assert InterfaceAddress(next) == InterfaceAddress(cfg) && ListenPort(next) == ListenPort(cfg);
  }

  lemma KeptGeneratingKey(lib: Library, me: nat, w: World, o: Snapshot, op: Op, cfg: ConfigData, table: T.Table, shown: seq<RuntimePeer>, ev: Event)
    requires Ready(lib, w, o) && Stage(lib, w, o, op, GeneratingKey(cfg, table, shown))
    ensures StageKept(lib, w, o, op, Next(lib, me, op, w, GeneratingKey(cfg, table, shown), ev))
  {
    hide Parse, ValidConfig, PlanOk, Base;
  }

  lemma KeptDerivingKey(lib: Library, me: nat, w: World, o: Snapshot, op: Op, cfg: ConfigData, table: T.Table, shown: seq<RuntimePeer>, ev: Event)
    requires Ready(lib, w, o) && Stage(lib, w, o, op, DerivingKey(cfg, table, shown))
    requires EventOk(DerivingKey(cfg, table, shown), ev)
    ensures StageKept(lib, w, o, op, Next(lib, me, op, w, DerivingKey(cfg, table, shown), ev))
  {
    TrimSpaceFacts(ev.text);
    forall ip { AllocatesFree(lib.v6, cfg, shown, ip); }
    hide Good, ValidConfig, PlanOk, Base, TrimSpace, HasKey, Trimmed, Allocate, Parse, NextAddress, RuntimeUsed;
  }

  lemma KeptReadingServerKey(lib: Library, me: nat, w: World, o: Snapshot, op: Op, cfg: ConfigData, table: T.Table, shown: seq<RuntimePeer>, key: string, ip: nat, ev: Event)
    requires Ready(lib, w, o) && Stage(lib, w, o, op, ReadingServerKey(cfg, table, shown, key, ip))
    ensures StageKept(lib, w, o, op, Next(lib, me, op, w, ReadingServerKey(cfg, table, shown, key, ip), ev))
  {
    hide Good, ValidConfig, PlanOk, Base, TrimSpace, KeyOk, Parse;
  }

  lemma KeptReadingPsk(lib: Library, me: nat, w: World, o: Snapshot, op: Op, cfg: ConfigData, table: T.Table, shown: seq<RuntimePeer>, key: string, ip: nat, ev: Event)
    requires Ready(lib, w, o) && Stage(lib, w, o, op, ReadingPsk(cfg, table, shown, key, ip))
    ensures StageKept(lib, w, o, op, Next(lib, me, op, w, ReadingPsk(cfg, table, shown, key, ip), ev))
  {
    hide Good, ValidConfig, PlanOk, Base, TrimSpace, KeyOk, AfterPsk, Trimmed, Parse;
    RefusedStage(lib, w, o, op);
    var psk := ReadTrimmed(w, PskFile, ev.outcome);
    if psk.Some? {
      TrimSpaceFacts(w.files[PskFile]);
      IssuePlanOk(lib, o, op, cfg, table, shown, key, ip, psk.value, ev);
    }
  }

  lemma IssuePlanOk(lib: Library, o: Snapshot, op: Op, cfg: ConfigData, table: T.Table, shown: seq<RuntimePeer>, key: string, ip: nat, psk: string, ev: Event)
    requires SnapGood(lib, o) && op.Issue? && ReadOk(lib, o, cfg, table) && KeyOk(lib, cfg, shown, key, ip) && Token(psk)
    ensures var pc := AfterPsk(lib, op, cfg, table, shown, key, ip, psk, ev);
            pc == Releasing(Refused) || (pc.Stating? && PlanOk(lib, o, op, pc.plan))
  {
    BasePrintable(lib, o);
    hide Parse, NextAddress, ValidConfig, T.AddOrUpdate, FormatIPv4, Good, Base, Token;
    if ip < 4294967296 {
      HostPeerPrintable(key, psk, ip);
      var peer := HostPeer(key, psk, ip);
      assert peer.publicKey == key && peer.presharedKey == psk;
      hide PrintablePeer, PrintableLine, HostPeer;
      var next := cfg.(peers := cfg.peers + [peer]);
      assert forall i :: 0 <= i < |next.peers| ==> next.peers[i] == if i < |cfg.peers| then cfg.peers[i] else peer;
      assert Printable(next);
    }
  }

  lemma KeptStating(lib: Library, me: nat, w: World, o: Snapshot, op: Op, plan: Plan, ev: Event)
    requires Ready(lib, w, o) && Stage(lib, w, o, op, Stating(plan))
    ensures StageKept(lib, w, o, op, Next(lib, me, op, w, Stating(plan), ev))
  {
    hide Good, ValidConfig, PlanOk, Base, TrimSpace, Parse;
  }

  /** A backup touches nothing but its own file, and copies what is there. */
  lemma BackupKeeps(lib: Library, w: World, path: Path, backup: Path, required: bool, o: Outcome)
    requires backup.ConfigBackup? || backup.TableBackup?
    ensures var (w', ok) := BackupFile(w, path, backup, required, o);
            && Snap(w') == Snap(w) && w'.lock == w.lock
            && (FileGood(lib, w) ==> FileGood(lib, w')) && (PskOk(w) ==> PskOk(w'))
            && (ok && path in w.files ==> Get(w'.files, backup) == Get(w.files, path))
            && (forall p :: p != backup ==> Get(w'.files, p) == Get(w.files, p))
  {
    hide Good, TrimSpace;
  }

  lemma KeptBackingConfig(lib: Library, me: nat, w: World, o: Snapshot, op: Op, plan: Plan, bk: Backups, ev: Event)
    requires Ready(lib, w, o) && Stage(lib, w, o, op, BackingConfig(plan, bk))
    ensures StageKept(lib, w, o, op, Next(lib, me, op, w, BackingConfig(plan, bk), ev))
  {
    hide Good, ValidConfig, PlanOk, Base, TrimSpace, Parse, BackupFile, PskOk, FileGood;
    BackupKeeps(lib, w, ConfigFile, ConfigBackup(bk.stamp), true, ev.outcome);
  }

  lemma KeptBackingTable(lib: Library, me: nat, w: World, o: Snapshot, op: Op, plan: Plan, bk: Backups, ev: Event)
    requires Ready(lib, w, o) && Stage(lib, w, o, op, BackingTable(plan, bk))
    ensures StageKept(lib, w, o, op, Next(lib, me, op, w, BackingTable(plan, bk), ev))
  {
    hide Good, ValidConfig, PlanOk, Base, TrimSpace, Parse, HalfDone, BackupFile, PskOk, FileGood, EndOk;
    BackupKeeps(lib, w, TableFile, TableBackup(bk.stamp), false, ev.outcome);
    PlanValid(lib, o, op, plan);
    var (w', ok) := BackupFile(w, TableFile, TableBackup(bk.stamp), false, ev.outcome);
    if ok {
      assert Next(lib, me, op, w, BackingTable(plan, bk), ev) == (w', WritingConfig(plan, bk));
      TableBacked(w, w', o, bk);
    } else {
      RefusedStage(lib, w', o, op);
    }
  }

  lemma TableBacked(w: World, w': World, o: Snapshot, bk: Backups)
    requires Snap(w) == o && Get(w.files, ConfigBackup(bk.stamp)) == o.config && bk.tableExisted == o.table.Some?
    requires TableFile in w.files ==> Get(w'.files, TableBackup(bk.stamp)) == Get(w.files, TableFile)
    requires forall p :: p != TableBackup(bk.stamp) ==> Get(w'.files, p) == Get(w.files, p)
    ensures Backed(w', o, bk)
  {}

  lemma PlanValid(lib: Library, o: Snapshot, op: Op, plan: Plan)
    requires PlanOk(lib, o, op, plan)
    ensures ValidConfig(lib.v6, plan.next)
    ensures Parse(Render(plan.next)) == Ok(Normal(plan.next)) && Good(lib, Render(plan.next))
    ensures Normal(plan.next).peers == plan.next.peers
    ensures plan.result.Issued? || plan.result.Revoked?
  {
    hide Parse, ValidConfig, TrimSpace, HostPeer, NextAddress, Render, HasKey, PrintableLine, Base, Normal;
    NormalPeers(plan.next);
    ParseOfRender(plan.next);
    NormalValid(lib.v6, plan.next);
  }

  lemma KeptWritingConfig(lib: Library, me: nat, w: World, o: Snapshot, op: Op, plan: Plan, bk: Backups, ev: Event)
    requires Ready(lib, w, o) && Stage(lib, w, o, op, WritingConfig(plan, bk))
    ensures StageKept(lib, w, o, op, Next(lib, me, op, w, WritingConfig(plan, bk), ev))
  {
    hide Good, ValidConfig, PlanOk, Base, TrimSpace, Parse, Render, Normal, HalfDone;
    PlanValid(lib, o, op, plan);
    var (w', pc') := Next(lib, me, op, w, WritingConfig(plan, bk), ev);
    assert Mixed(lib, o, plan, Snap(w'));
    PlannedHalf(lib, o, op, plan, Snap(w'));
  }

  lemma KeptWritingTable(lib: Library, me: nat, w: World, o: Snapshot, op: Op, plan: Plan, bk: Backups, ev: Event)
    requires Ready(lib, w, o) && Stage(lib, w, o, op, WritingTable(plan, bk))
    ensures StageKept(lib, w, o, op, Next(lib, me, op, w, WritingTable(plan, bk), ev))
  {
    hide Good, ValidConfig, PlanOk, Base, TrimSpace, Parse, Render, Normal, HalfDone;
    PlanValid(lib, o, op, plan);
    var (w', pc') := Next(lib, me, op, w, WritingTable(plan, bk), ev);
    assert Mixed(lib, o, plan, Snap(w'));
    PlannedHalf(lib, o, op, plan, Snap(w'));
  }

  lemma KeptSyncing(lib: Library, me: nat, w: World, o: Snapshot, op: Op, plan: Plan, bk: Backups, ev: Event)
    requires Ready(lib, w, o) && Stage(lib, w, o, op, Syncing(plan, bk))
    ensures StageKept(lib, w, o, op, Next(lib, me, op, w, Syncing(plan, bk), ev))
  {
    hide Good, ValidConfig, PlanOk, Base, TrimSpace, Parse, Render, Normal, HalfDone;
    PlanValid(lib, o, op, plan);
    var (w', pc') := Next(lib, me, op, w, Syncing(plan, bk), ev);
    assert Mixed(lib, o, plan, Snap(w'));
    PlannedHalf(lib, o, op, plan, Snap(w'));
  }

  lemma KeptVerifying(lib: Library, me: nat, w: World, o: Snapshot, op: Op, plan: Plan, bk: Backups, ev: Event)
    requires Ready(lib, w, o) && Stage(lib, w, o, op, Verifying(plan, bk))
    ensures StageKept(lib, w, o, op, Next(lib, me, op, w, Verifying(plan, bk), ev))
  {
    hide Good, ValidConfig, PlanOk, Base, TrimSpace, Parse, Render, Normal, ParseShow, Verified, HalfDone;
    PlanValid(lib, o, op, plan);
    var (w', pc') := Next(lib, me, op, w, Verifying(plan, bk), ev);
    assert Mixed(lib, o, plan, Snap(w'));
    PlannedHalf(lib, o, op, plan, Snap(w'));
  }

  lemma KeptRestoringConfig(lib: Library, me: nat, w: World, o: Snapshot, op: Op, bk: Backups, ev: Event)
    requires Ready(lib, w, o) && Stage(lib, w, o, op, RestoringConfig(bk))
    ensures StageKept(lib, w, o, op, Next(lib, me, op, w, RestoringConfig(bk), ev))
  {
    hide Good, ValidConfig, Base, TrimSpace, Parse, HalfDone;
    var (w', pc') := Next(lib, me, op, w, RestoringConfig(bk), ev);
    HalfKept(lib, o, op, Snap(w), Snap(w'));
  }

  lemma KeptRestoringTable(lib: Library, me: nat, w: World, o: Snapshot, op: Op, bk: Backups, bad: bool, ev: Event)
    requires Ready(lib, w, o) && Stage(lib, w, o, op, RestoringTable(bk, bad))
    ensures StageKept(lib, w, o, op, Next(lib, me, op, w, RestoringTable(bk, bad), ev))
  {
    hide Good, ValidConfig, Base, TrimSpace, Parse, HalfDone;
    var (w', pc') := Next(lib, me, op, w, RestoringTable(bk, bad), ev);
    HalfKept(lib, o, op, Snap(w), Snap(w'));
  }

  lemma KeptResyncing(lib: Library, me: nat, w: World, o: Snapshot, op: Op, bad: bool, ev: Event)
    requires Ready(lib, w, o) && Stage(lib, w, o, op, Resyncing(bad))
    ensures StageKept(lib, w, o, op, Next(lib, me, op, w, Resyncing(bad), ev))
  {
    hide Good, ValidConfig, TrimSpace, Parse, HalfDone;
    var (w', pc') := Next(lib, me, op, w, Resyncing(bad), ev);
    HalfKept(lib, o, op, Snap(w), Snap(w'));
  }

  lemma StageStep(lib: Library, me: nat, w: World, o: Snapshot, op: Op, pc: Pc, ev: Event)
    requires Ready(lib, w, o) && Stage(lib, w, o, op, pc) && EventOk(pc, ev) && InCritical(pc) && !pc.Releasing?
    ensures StageKept(lib, w, o, op, Next(lib, me, op, w, pc, ev))
  {
    hide Next, StageKept, Stage, Ready, EventOk;
    match pc {
      case ReadingConfig => KeptReadingConfig(lib, me, w, o, op, ev);
      case ReadingTable(cfg) => KeptReadingTable(lib, me, w, o, op, cfg, ev);
      case ReadingRuntime(cfg, table) => KeptReadingRuntime(lib, me, w, o, op, cfg, table, ev);
      case GeneratingKey(cfg, table, shown) => KeptGeneratingKey(lib, me, w, o, op, cfg, table, shown, ev);
      case DerivingKey(cfg, table, shown) => KeptDerivingKey(lib, me, w, o, op, cfg, table, shown, ev);
      case ReadingServerKey(cfg, table, shown, key, ip) => KeptReadingServerKey(lib, me, w, o, op, cfg, table, shown, key, ip, ev);
      case ReadingPsk(cfg, table, shown, key, ip) => KeptReadingPsk(lib, me, w, o, op, cfg, table, shown, key, ip, ev);
      case Stating(plan) => KeptStating(lib, me, w, o, op, plan, ev);
      case BackingConfig(plan, bk) => KeptBackingConfig(lib, me, w, o, op, plan, bk, ev);
      case BackingTable(plan, bk) => KeptBackingTable(lib, me, w, o, op, plan, bk, ev);
      case WritingConfig(plan, bk) => KeptWritingConfig(lib, me, w, o, op, plan, bk, ev);
      case WritingTable(plan, bk) => KeptWritingTable(lib, me, w, o, op, plan, bk, ev);
      case Syncing(plan, bk) => KeptSyncing(lib, me, w, o, op, plan, bk, ev);
      case Verifying(plan, bk) => KeptVerifying(lib, me, w, o, op, plan, bk, ev);
      case RestoringConfig(bk) => KeptRestoringConfig(lib, me, w, o, op, bk, ev);
      case RestoringTable(bk, bad) => KeptRestoringTable(lib, me, w, o, op, bk, bad, ev);
      case Resyncing(bad) => KeptResyncing(lib, me, w, o, op, bad, ev);
      case _ =>
    }
  }

  /** At any point of a transaction, what is there is what a death may leave. */
  lemma StageLeftOver(lib: Library, w: World, o: Snapshot, op: Op, pc: Pc)
    requires Stage(lib, w, o, op, pc) && InCritical(pc)
    ensures LeftOver(lib, o, op, Snap(w))
  {
    hide PlanOk, Base, Parse, Render, SnapGood, ReadOk, KeyOk, Backed, HalfDone;
    match pc
    case Stating(plan) =>
    case BackingConfig(plan, bk) =>
    case BackingTable(plan, bk) =>
    case WritingConfig(plan, bk) =>
    case WritingTable(plan, bk) => PlannedHalf(lib, o, op, plan, Snap(w));
    case Syncing(plan, bk) => PlannedHalf(lib, o, op, plan, Snap(w));
    case Verifying(plan, bk) => PlannedHalf(lib, o, op, plan, Snap(w));
    case Releasing(result) =>
      if result.Issued? || result.Revoked? {
        var plan :| PlanOk(lib, o, op, plan) && plan.result == result && Committed(lib, plan, Snap(w));
        PlannedHalf(lib, o, op, plan, Snap(w));
      }
    case _ =>
  }
}
