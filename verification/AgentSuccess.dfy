/**
 When a transaction succeeds: if every container call works and what is asked
 for is possible, an issue is granted and a revoke is carried out.
 */
module AgentSuccess {
  import opened Wrappers
  import opened Text
  import opened Netip
  import opened AwgConfig
  import opened AwgRules
  import opened AwgAllocation
  import opened AwgRuntime
  import opened AgentMachine
  import opened AgentAddress
  import opened AgentRuns
  import T = ClientsTable

  /** What the tools and the clock answer in the course of a transaction. */
  datatype Answers = Answers(shownBefore: string, secret: string, key: string, created: string, stamp: string, shownAfter: string)

  function Works(text: string): Event {
    Event(Done, text, true)
  }

  function CfgOf(w: World): ConfigData {
    Base(Snap(w))
  }

  function TableIn(lib: Library, w: World): Option<T.Table> {
    lib.parseTable(TableText(w))
  }

  /** The peers that the interface showed before the transaction. */
  function ShownBefore(a: Answers): seq<RuntimePeer> {
    ParseShow(a.shownBefore).peers
  }

  function KeyOf(w: World, path: Path): string {
    if path in w.files then TrimSpace(w.files[path]) else ""
  }

  lemma ReadWorks(lib: Library, me: nat, op: Op, w: World, a: Answers) returns (evs: seq<Event>)
    requires FileGood(lib, w) && TableIn(lib, w).Some?
    ensures Goes(lib, me, op, w, ReadingConfig, evs, w, AfterRead(lib, op, CfgOf(w), TableIn(lib, w).value, ShownBefore(a)))
  {
    hide Parse, ParseShow, AfterRead, Goes, ValidConfig;
    var cfg, table := CfgOf(w), TableIn(lib, w).value;
    evs := [Works("")];
    GoesOne(lib, me, op, w, ReadingConfig, Works(""));
    GoesNext(lib, me, op, w, ReadingConfig, evs, w, ReadingTable(cfg), Works(""));
    evs := evs + [Works("")];
    GoesNext(lib, me, op, w, ReadingConfig, evs, w, ReadingRuntime(cfg, table), Works(a.shownBefore));
    evs := evs + [Works(a.shownBefore)];
  }

  /** The key is new, the next free address is not covered by anybody, and the
      server's own keys are there. */
  ghost predicate Possible(lib: Library, cfg: ConfigData, shown: seq<RuntimePeer>, w: World, key: string, ip: nat) {
    && key != "" && !HasKey(cfg.peers, key) && NextAddress(lib.v6, cfg, shown, ip)
    && (forall i :: 0 <= i < |cfg.peers| ==> !PeerCovers(lib.v6, cfg.peers[i], Addr(V4, ip)))
    && KeyOf(w, ServerKeyFile) != "" && KeyOf(w, PskFile) != ""
  }

  lemma NextInRange(lib: Library, cfg: ConfigData, shown: seq<RuntimePeer>, ip: nat)
    requires NextAddress(lib.v6, cfg, shown, ip)
    ensures ip < 4294967296 && Allocate(lib.v6, cfg, RuntimeUsed(shown)) == Ok(ip)
  {
    AllocatesFree(lib.v6, cfg, shown, ip);
    hide Allocate, NextAddress;
    AllocateInRange(lib.v6, cfg, RuntimeUsed(shown));
  }

  lemma KeyWorks(lib: Library, cfg: ConfigData, table: T.Table, shown: seq<RuntimePeer>, w: World, key: string, ip: nat)
    requires Possible(lib, cfg, shown, w, key, ip)
    ensures AfterKey(lib, cfg, table, shown, key) == ReadingServerKey(cfg, table, shown, key, ip)
    ensures KeyOf(w, ServerKeyFile) != "" && KeyOf(w, PskFile) != ""
  {
    NextInRange(lib, cfg, shown, ip);
    hide Allocate, HasKey, PeerCovers, NextAddress, RuntimeUsed, KeyOf;
  }

  lemma KeysWork(lib: Library, me: nat, op: Op, w: World, cfg: ConfigData, table: T.Table, a: Answers, ip: nat)
    returns (evs: seq<Event>)
    requires op.Issue? && '\n' !in TrimSpace(a.key) && Possible(lib, cfg, ShownBefore(a), w, TrimSpace(a.key), ip)
    ensures var key, shown := TrimSpace(a.key), ShownBefore(a);
            Goes(lib, me, op, w, GeneratingKey(cfg, table, shown), evs, w,
                 AfterPsk(lib, op, cfg, table, shown, key, ip, KeyOf(w, PskFile), Works(a.created)))
  {
    var key, shown := TrimSpace(a.key), ShownBefore(a);
    KeyWorks(lib, cfg, table, shown, w, key, ip);
    hide Goes, TrimSpace, AfterKey, AfterPsk, Possible, ShownBefore, KeyOf;
    var start, mid := GeneratingKey(cfg, table, shown), ReadingServerKey(cfg, table, shown, key, ip);
    var made := KeyMade(lib, me, op, w, cfg, table, shown, a);
    var read := ServerKeysRead(lib, me, op, w, cfg, table, shown, key, ip, a);
    GoesChain(lib, me, op, w, start, made, w, mid, read, w,
              AfterPsk(lib, op, cfg, table, shown, key, ip, KeyOf(w, PskFile), Works(a.created)));
    evs := made + read;
  }

  lemma KeyMade(lib: Library, me: nat, op: Op, w: World, cfg: ConfigData, table: T.Table, shown: seq<RuntimePeer>, a: Answers)
    returns (evs: seq<Event>)
    requires '\n' !in TrimSpace(a.key)
    ensures Goes(lib, me, op, w, GeneratingKey(cfg, table, shown), evs, w, AfterKey(lib, cfg, table, shown, TrimSpace(a.key)))
  {
    hide Goes, TrimSpace, AfterKey;
    var start := GeneratingKey(cfg, table, shown);
    evs := [Works(a.secret)];
    GoesOne(lib, me, op, w, start, Works(a.secret));
    GoesNext(lib, me, op, w, start, evs, w, DerivingKey(cfg, table, shown), Works(a.key));
    evs := evs + [Works(a.key)];
  }

  lemma ServerKeysRead(lib: Library, me: nat, op: Op, w: World, cfg: ConfigData, table: T.Table, shown: seq<RuntimePeer>,
                       key: string, ip: nat, a: Answers) returns (evs: seq<Event>)
    requires KeyOf(w, ServerKeyFile) != "" && KeyOf(w, PskFile) != ""
    ensures Goes(lib, me, op, w, ReadingServerKey(cfg, table, shown, key, ip), evs, w,
                 AfterPsk(lib, op, cfg, table, shown, key, ip, KeyOf(w, PskFile), Works(a.created)))
  {
    hide Goes, TrimSpace, AfterPsk;
    var start := ReadingServerKey(cfg, table, shown, key, ip);
    evs := [Works("")];
    GoesOne(lib, me, op, w, start, Works(""));
    GoesNext(lib, me, op, w, start, evs, w, ReadingPsk(cfg, table, shown, key, ip), Works(a.created));
    evs := evs + [Works(a.created)];
  }

  /** Both files are backed up, written and loaded, and the check finds what it
      looks for. */
  lemma CommitWorks(lib: Library, me: nat, op: Op, w: World, plan: Plan, a: Answers) returns (evs: seq<Event>, w': World)
    requires ConfigFile in w.files && ValidConfig(lib.v6, plan.next) && Parse(Render(plan.next)).Ok?
    requires lib.renderTable(plan.table).Some? && Verified(plan, a.shownAfter)
    ensures Goes(lib, me, op, w, Stating(plan), evs, w', Releasing(plan.result)) && w'.lock == w.lock
    ensures Snap(w') == Snapshot(Some(Render(plan.next)), lib.renderTable(plan.table), Parse(Render(plan.next)).value.peers)
  {
    hide Render, Parse, Verified, ValidConfig;
    var bk, w1;
    evs, w1, bk := BackupWorks(lib, me, op, w, plan, a);
    var more;
    more, w' := WriteWorks(lib, me, op, w1, plan, bk, a);
    hide Goes;
    GoesChain(lib, me, op, w, Stating(plan), evs, w1, WritingConfig(plan, bk), more, w', Releasing(plan.result));
    evs := evs + more;
  }

  lemma BackupWorks(lib: Library, me: nat, op: Op, w: World, plan: Plan, a: Answers) returns (evs: seq<Event>, w': World, bk: Backups)
    requires ConfigFile in w.files && ValidConfig(lib.v6, plan.next)
    ensures Goes(lib, me, op, w, Stating(plan), evs, w', WritingConfig(plan, bk)) && ConfigFile in w'.files && w'.lock == w.lock
  {
    hide ValidConfig, Goes;
    bk := Backups(a.stamp, TableFile in w.files);
    evs := [Works(a.stamp)];
    GoesOne(lib, me, op, w, Stating(plan), Works(a.stamp));
    var w1 := BackupFile(w, ConfigFile, ConfigBackup(bk.stamp), true, Done).0;
    GoesNext(lib, me, op, w, Stating(plan), evs, w, BackingConfig(plan, bk), Works(""));
    evs := evs + [Works("")];
    w' := BackupFile(w1, TableFile, TableBackup(bk.stamp), false, Done).0;
    GoesNext(lib, me, op, w, Stating(plan), evs, w1, BackingTable(plan, bk), Works(""));
    evs := evs + [Works("")];
  }

  lemma WriteWorks(lib: Library, me: nat, op: Op, w: World, plan: Plan, bk: Backups, a: Answers) returns (evs: seq<Event>, w': World)
    requires Parse(Render(plan.next)).Ok? && lib.renderTable(plan.table).Some? && Verified(plan, a.shownAfter)
    ensures Goes(lib, me, op, w, WritingConfig(plan, bk), evs, w', Releasing(plan.result)) && w'.lock == w.lock
    ensures Snap(w') == Snapshot(Some(Render(plan.next)), lib.renderTable(plan.table), Parse(Render(plan.next)).value.peers)
  {
    hide Goes, Parse, Render, Verified;
    var start := WritingConfig(plan, bk);
    var w1 := w.(files := w.files[ConfigFile := Render(plan.next)]);
    var w2 := w1.(files := w1.files[TableFile := lib.renderTable(plan.table).value]);
    w' := w2.(runtime := Parse(Render(plan.next)).value.peers);
    evs := [Works("")];
    GoesOne(lib, me, op, w, start, Works(""));
    GoesNext(lib, me, op, w, start, evs, w1, WritingTable(plan, bk), Works(""));
    evs := evs + [Works("")];
    assert w2.files[ConfigFile] == Render(plan.next);
    GoesNext(lib, me, op, w, start, evs, w2, Syncing(plan, bk), Works(""));
    evs := evs + [Works("")];
    GoesNext(lib, me, op, w, start, evs, w', Verifying(plan, bk), Works(a.shownAfter));
    evs := evs + [Works(a.shownAfter)];
  }

  /** The new state that an issue plans. */
  function IssuePlan(lib: Library, w: World, name: string, a: Answers, ip: nat): Plan
    requires ip < 4294967296 && TableIn(lib, w).Some?
  {
    var key, cfg := TrimSpace(a.key), CfgOf(w);
    var peer := HostPeer(key, KeyOf(w, PskFile), ip);
    Plan(cfg.(peers := cfg.peers + [peer]),
         T.AddOrUpdate(TableIn(lib, w).value, key, name, FormatIPv4(ip) + "/32", a.created), Issued(peer, ip, ShownBefore(a)))
  }

  lemma IssueIsPlanned(lib: Library, name: string, host: string, w: World, a: Answers, ip: nat)
    requires FileGood(lib, w) && PskOk(w) && TableIn(lib, w).Some? && '\n' !in TrimSpace(a.key)
    requires Possible(lib, CfgOf(w), ShownBefore(a), w, TrimSpace(a.key), ip)
    ensures ip < 4294967296
    ensures AfterPsk(lib, Issue(name, host), CfgOf(w), TableIn(lib, w).value, ShownBefore(a), TrimSpace(a.key), ip, KeyOf(w, PskFile), Works(a.created))
            == Stating(IssuePlan(lib, w, name, a, ip))
    ensures PlanOk(lib, Snap(w), Issue(name, host), IssuePlan(lib, w, name, a, ip))
  {
    NextInRange(lib, CfgOf(w), ShownBefore(a), ip);
    SnapValid(lib, w);
    KeyTokens(w, a);
    hide Parse, Allocate, ValidConfig, HostPeer, FormatIPv4, T.AddOrUpdate, Base, Good, TrimSpace, PlanOk, Trimmed, HasKey, PeerCovers, ParseShow, NextAddress, RuntimeUsed;
    HostPeerValid(lib.v6, CfgOf(w), TrimSpace(a.key), KeyOf(w, PskFile), ip);
    IssuePlanOk(lib, Snap(w), Issue(name, host), CfgOf(w), TableIn(lib, w).value, ShownBefore(a), TrimSpace(a.key), ip, KeyOf(w, PskFile), Works(a.created));
  }

  lemma SnapValid(lib: Library, w: World)
    requires FileGood(lib, w)
    ensures SnapGood(lib, Snap(w)) && ValidConfig(lib.v6, CfgOf(w)) && ConfigFile in w.files && TableOf(Snap(w)) == TableText(w)
  {
    hide Parse, ValidConfig;
  }

  lemma KeyTokens(w: World, a: Answers)
    requires PskOk(w) && '\n' !in TrimSpace(a.key)
    ensures Token(TrimSpace(a.key)) && Token(KeyOf(w, PskFile))
  {
    TrimSpaceFacts(a.key);
    if PskFile in w.files { TrimSpaceFacts(w.files[PskFile]); }
    hide TrimSpace;
  }

  /** The world as the holder of the lock has it. */
  function Held(w: World, me: nat): World {
    w.(lock := Some(me))
  }

  /** Taking a free lock for a request that names everything it must name. */
  lemma LockWorks(lib: Library, me: nat, op: Op, w: World) returns (evs: seq<Event>)
    requires w.lock.None?
    requires match op case Issue(name, host) => TrimSpace(name) != "" && TrimSpace(host) != "" case Revoke(k) => TrimSpace(k) != ""
    ensures Goes(lib, me, op, w, Starting, evs, Held(w, me), ReadingConfig)
  {
    hide Goes, TrimSpace;
    evs := [Works("")];
    GoesOne(lib, me, op, w, Starting, Works(""));
    GoesNext(lib, me, op, w, Starting, evs, w, Locking, Works(""));
    evs := evs + [Works("")];
  }

  /** A request that leaves something unnamed is refused before the lock. */
  lemma BlankRefused(lib: Library, me: nat, op: Op, w: World, ev: Event)
    requires match op case Issue(name, host) => TrimSpace(name) == "" || TrimSpace(host) == "" case Revoke(k) => TrimSpace(k) == ""
    ensures Next(lib, me, op, w, Starting, ev) == (w, Finished(Refused))
  {}

  /** From the free lock to its release, around what is done under it. */
  lemma AroundLock(lib: Library, me: nat, op: Op, w: World, evs: seq<Event>, w1: World, r: Report) returns (all: seq<Event>)
    requires w.lock.None?
    requires match op case Issue(name, host) => TrimSpace(name) != "" && TrimSpace(host) != "" case Revoke(k) => TrimSpace(k) != ""
    requires Goes(lib, me, op, Held(w, me), ReadingConfig, evs, w1, Releasing(r))
    ensures Goes(lib, me, op, w, Starting, all, w1.(lock := None), Finished(r))
  {
    hide Goes, TrimSpace;
    var first := LockWorks(lib, me, op, w);
    GoesChain(lib, me, op, w, Starting, first, Held(w, me), ReadingConfig, evs, w1, Releasing(r));
    GoesNext(lib, me, op, w, Starting, first + evs, w1, Releasing(r), Works(""));
    all := first + evs + [Works("")];
  }

  /** An issue is granted if the request names a client and an endpoint, the lock
      is free, every call works, the key is new, the next address that neither
      the configuration nor the shown interface takes is not covered by anybody,
      the server's keys are there, the table can be written and the interface
      then shows the key. The files and the interface are then the planned ones. */
  lemma IssueGranted(lib: Library, me: nat, name: string, host: string, w: World, a: Answers, ip: nat) returns (evs: seq<Event>, w': World)
    requires TrimSpace(name) != "" && TrimSpace(host) != "" && w.lock.None?
    requires FileGood(lib, w) && PskOk(w) && TableIn(lib, w).Some? && '\n' !in TrimSpace(a.key)
    requires Possible(lib, CfgOf(w), ShownBefore(a), w, TrimSpace(a.key), ip)
    requires ip < 4294967296 ==> lib.renderTable(IssuePlan(lib, w, name, a, ip).table).Some?
    requires AwgRuntime.HasPeer(ParseShow(a.shownAfter), TrimSpace(a.key))
    ensures ip < 4294967296
    ensures Goes(lib, me, Issue(name, host), w, Starting, evs, w',
                 Finished(Issued(HostPeer(TrimSpace(a.key), KeyOf(w, PskFile), ip), ip, ShownBefore(a))))
    ensures w'.lock.None? && Committed(lib, IssuePlan(lib, w, name, a, ip), Snap(w'))
  {
    var held := Held(w, me);
    HeldSame(lib, w, me);
    var under, w1;
    hide Goes, Parse, ParseShow, FileGood, PskOk, Possible, Render, TrimSpace, HostPeer, FormatIPv4, T.AddOrUpdate, Base;
    under, w1 := IssueUnderLock(lib, me, name, host, held, a, ip);
    w' := w1.(lock := None);
    evs := AroundLock(lib, me, Issue(name, host), w, under, w1, IssuePlan(lib, held, name, a, ip).result);
  }

  lemma HeldSame(lib: Library, w: World, me: nat)
    ensures var held := Held(w, me);
            && CfgOf(held) == CfgOf(w) && TableIn(lib, held) == TableIn(lib, w) && Snap(held) == Snap(w)
            && (FileGood(lib, w) ==> FileGood(lib, held)) && (PskOk(w) ==> PskOk(held))
            && (forall p :: KeyOf(held, p) == KeyOf(w, p))
            && (forall cfg, shown, key, ip :: Possible(lib, cfg, shown, w, key, ip) ==> Possible(lib, cfg, shown, held, key, ip))
  {
    hide Parse, Good, TrimSpace, NextAddress, PeerCovers, HasKey;
  }

  lemma IssueUnderLock(lib: Library, me: nat, name: string, host: string, w: World, a: Answers, ip: nat) returns (evs: seq<Event>, w': World)
    requires FileGood(lib, w) && PskOk(w) && TableIn(lib, w).Some? && '\n' !in TrimSpace(a.key)
    requires Possible(lib, CfgOf(w), ShownBefore(a), w, TrimSpace(a.key), ip)
    requires ip < 4294967296 ==> lib.renderTable(IssuePlan(lib, w, name, a, ip).table).Some?
    requires AwgRuntime.HasPeer(ParseShow(a.shownAfter), TrimSpace(a.key))
    ensures ip < 4294967296
    ensures Goes(lib, me, Issue(name, host), w, ReadingConfig, evs, w', Releasing(IssuePlan(lib, w, name, a, ip).result))
    ensures Committed(lib, IssuePlan(lib, w, name, a, ip), Snap(w'))
  {
    var op, cfg, table, shown := Op.Issue(name, host), CfgOf(w), TableIn(lib, w).value, ShownBefore(a);
    SnapValid(lib, w);
    IssueIsPlanned(lib, name, host, w, a, ip);
    hide Parse, ValidConfig, HostPeer, FormatIPv4, T.AddOrUpdate, Base, TrimSpace, PlanOk, ParseShow, Goes, Possible, AfterPsk, KeyOf, FileGood, PskOk, Render, Normal;
    var plan := IssuePlan(lib, w, name, a, ip);
    PlanValid(lib, Snap(w), op, plan);
    var first := ReadWorks(lib, me, op, w, a);
    var second := KeysWork(lib, me, op, w, cfg, table, a, ip);
    var third;
    third, w' := CommitWorks(lib, me, op, w, plan, a);
    GoesChain(lib, me, op, w, ReadingConfig, first, w, GeneratingKey(cfg, table, shown), second, w, Stating(plan));
    GoesChain(lib, me, op, w, ReadingConfig, first + second, w, Stating(plan), third, w', Releasing(plan.result));
    evs := first + second + third;
  }

  /** The new state that a revoke plans. */
  function RevokePlan(lib: Library, w: World, key: string): Plan
    requires TableIn(lib, w).Some?
  {
    Plan(CfgOf(w).(peers := AwgRules.Without(CfgOf(w).peers, key)), T.Without(TableIn(lib, w).value, key), Revoked(key))
  }

  /** A revoke is carried out if the request names a key, the lock is free, every
      call works, the key is there, the table can be written and the interface
      then does not show the key. */
  lemma RevokeDone(lib: Library, me: nat, k: string, w: World, a: Answers) returns (evs: seq<Event>, w': World)
    requires TrimSpace(k) != "" && w.lock.None?
    requires FileGood(lib, w) && TableIn(lib, w).Some? && AwgRules.HasKey(CfgOf(w).peers, TrimSpace(k))
    requires lib.renderTable(T.Without(TableIn(lib, w).value, TrimSpace(k))).Some?
    requires !AwgRuntime.HasPeer(ParseShow(a.shownAfter), TrimSpace(k))
    ensures Goes(lib, me, Revoke(k), w, Starting, evs, w', Finished(Revoked(TrimSpace(k))))
    ensures w'.lock.None? && Committed(lib, RevokePlan(lib, w, TrimSpace(k)), Snap(w'))
  {
    var held := Held(w, me);
    HeldSame(lib, w, me);
    var under, w1;
    hide Goes, Parse, ParseShow, FileGood, Render, TrimSpace, Base, AwgRules.Without, T.Without;
    under, w1 := RevokeUnderLock(lib, me, k, held, a);
    w' := w1.(lock := None);
    evs := AroundLock(lib, me, Revoke(k), w, under, w1, Revoked(TrimSpace(k)));
  }

  lemma RevokeUnderLock(lib: Library, me: nat, k: string, w: World, a: Answers) returns (evs: seq<Event>, w': World)
    requires FileGood(lib, w) && TableIn(lib, w).Some? && AwgRules.HasKey(CfgOf(w).peers, TrimSpace(k))
    requires lib.renderTable(T.Without(TableIn(lib, w).value, TrimSpace(k))).Some?
    requires !AwgRuntime.HasPeer(ParseShow(a.shownAfter), TrimSpace(k))
    ensures Goes(lib, me, Revoke(k), w, ReadingConfig, evs, w', Releasing(Revoked(TrimSpace(k))))
    ensures Committed(lib, RevokePlan(lib, w, TrimSpace(k)), Snap(w'))
  {
    var op, cfg, table, key := Op.Revoke(k), CfgOf(w), TableIn(lib, w).value, TrimSpace(k);
    SnapValid(lib, w);
    hide Parse, ValidConfig, Base, TrimSpace, PlanOk, ParseShow, Goes, FileGood, AwgRules.Without, T.Without, Good, Render, Normal;
    RevokePlanOk(lib, Snap(w), op, cfg, table);
    var plan := RevokePlan(lib, w, key);
    PlanValid(lib, Snap(w), op, plan);
    var first := ReadWorks(lib, me, op, w, a);
    var second;
    second, w' := CommitWorks(lib, me, op, w, plan, a);
    GoesChain(lib, me, op, w, ReadingConfig, first, w, Stating(plan), second, w', Releasing(plan.result));
    evs := first + second;
  }
}
