/**
 The sliding-window login limiter: failure times by key, pruned whenever they
 are counted. What is stored is compared with everything that was recorded, for
 any run of attempts and any clock, and the limit follows where nothing is lost.
 */
module RateLimiter {
  import opened Wrappers

  /** The times from t on, in order. */
  function Since(times: seq<int>, t: int): seq<int> {
    if times == [] then []
    else Since(times[..|times| - 1], t) + if times[|times| - 1] >= t then [times[|times| - 1]] else []
  }

  function TimesOf(m: map<string, seq<int>>, key: string): seq<int> {
    if key in m then m[key] else []
  }

  /** Length of the window, and the number of failures it may hold. */
  datatype Settings = Settings(window: nat, attempts: nat)

  /** What happens to a key: its failures older than c are dropped, or a failure
      is recorded. */
  datatype KeyOp = Cutoff(c: int) | Recorded(at: int)

  type Log = seq<KeyOp>

  /** The stored failures, and for comparison all that happened to each key
      since it was last cleared. */
  datatype State = State(failures: map<string, seq<int>>, log: map<string, Log>)

  datatype Outcome = RateLimited | LoginFailed | LoginOk

  function LoginKey(login: string): string {
    "login:" + login
  }

  function IpKey(ip: string): string {
    "ip:" + ip
  }

  function LogOf(log: map<string, Log>, key: string): Log {
    if key in log then log[key] else []
  }

  function Logged(log: map<string, Log>, key: string, op: KeyOp): map<string, Log> {
    log[key := LogOf(log, key) + [op]]
  }

  // ----- The storage -----

  function Record(m: map<string, seq<int>>, key: string, at: int): map<string, seq<int>> {
    m[key := TimesOf(m, key) + [at]]
  }

  /** Counting keeps only what it counts. */
  function Prune(m: map<string, seq<int>>, key: string, since: int): map<string, seq<int>> {
    m[key := Since(TimesOf(m, key), since)]
  }

  // ----- One attempt -----

  /** The failures after the check of the limit, and whether it was reached. */
  function Check(m: map<string, seq<int>>, cfg: Settings, login: string, ip: string, now: int): (map<string, seq<int>>, bool) {
    var since := now - cfg.window;
    var m1 := Prune(m, LoginKey(login), since);
    var n := |m1[LoginKey(login)]|;
    if ip == "" then (m1, n >= cfg.attempts)
    else
      var m2 := Prune(m1, IpKey(ip), since);
      var k := |m2[IpKey(ip)]|;
      (m2, (if k > n then k else n) >= cfg.attempts)
  }

  function RecordFailure(m: map<string, seq<int>>, login: string, ip: string, now: int): map<string, seq<int>> {
    var m1 := Record(m, LoginKey(login), now);
    if ip == "" then m1 else Record(m1, IpKey(ip), now)
  }

  /** The same thing happens to the keys of the login and of the address. */
  function BothLogged(log: map<string, Log>, login: string, ip: string, op: KeyOp): map<string, Log> {
    var l1 := Logged(log, LoginKey(login), op);
    if ip == "" then l1 else Logged(l1, IpKey(ip), op)
  }

  /** One attempt with the right password or not; ip is empty if unknown. */
  function Attempt(s: State, cfg: Settings, login: string, ip: string, now: int, good: bool): (State, Outcome) {
    var (m, limited) := Check(s.failures, cfg, login, ip, now);
    var l := BothLogged(s.log, login, ip, Cutoff(now - cfg.window));
    if limited then (State(m, l), RateLimited)
    else if !good then
      (State(RecordFailure(m, login, ip, now), BothLogged(l, login, ip, Recorded(now))), LoginFailed)
    else (State(m - {LoginKey(login)}, l - {LoginKey(login)}), LoginOk)
  }

  // ----- What is kept of a key -----

  /** All recorded times. */
  function Full(ops: Log): seq<int> {
    if ops == [] then []
    else Full(ops[..|ops| - 1]) + if ops[|ops| - 1].Recorded? then [ops[|ops| - 1].at] else []
  }

  /** What the storage holds after these operations. */
  function Kept(ops: Log): seq<int> {
    if ops == [] then []
    else match ops[|ops| - 1]
         case Cutoff(c) => Since(Kept(ops[..|ops| - 1]), c)
         case Recorded(at) => Kept(ops[..|ops| - 1]) + [at]
  }

  /** A recorded time that no later cutoff exceeds. */
  predicate Survives(ops: Log, i: nat) {
    && i < |ops| && ops[i].Recorded?
    && forall j :: i < j < |ops| && ops[j].Cutoff? ==> ops[j].c <= ops[i].at
  }

  /** The first n operations' times that survive all of them. */
  function Survivors(ops: Log, n: nat): seq<int>
    requires n <= |ops|
  {
    if n == 0 then [] else Survivors(ops, n - 1) + if Survives(ops, n - 1) then [ops[n - 1].at] else []
  }

  lemma SinceSnoc(times: seq<int>, at: int, t: int)
    ensures Since(times + [at], t) == Since(times, t) + if at >= t then [at] else []
  {
    assert (times + [at])[..|times|] == times;
  }

  lemma KeptSnoc(ops: Log, op: KeyOp)
    ensures Kept(ops + [op]) == if op.Cutoff? then Since(Kept(ops), op.c) else Kept(ops) + [op.at]
    ensures Full(ops + [op]) == Full(ops) + if op.Recorded? then [op.at] else []
  {
    assert (ops + [op])[..|ops|] == ops;
  }

  lemma SurvivesSnoc(ops: Log, op: KeyOp, i: nat)
    requires i < |ops|
    ensures Survives(ops + [op], i) <==> Survives(ops, i) && (op.Cutoff? ==> op.c <= ops[i].at)
  {
    var all := ops + [op];
    assert forall j :: 0 <= j < |ops| ==> all[j] == ops[j];
    if Survives(all, i) { assert all[|ops|] == op; }
  }

  lemma {:induction false} SurvivorsSnoc(ops: Log, op: KeyOp, n: nat)
    requires n <= |ops|
    ensures Survivors(ops + [op], n) == if op.Cutoff? then Since(Survivors(ops, n), op.c) else Survivors(ops, n)
  {
    if n > 0 {
      SurvivorsSnoc(ops, op, n - 1);
      SurvivesSnoc(ops, op, n - 1);
      assert (ops + [op])[n - 1] == ops[n - 1];
      SurvivorsStep(ops, n);
      SurvivorsStep(ops + [op], n);
      if op.Cutoff? { SinceSnoc(Survivors(ops, n - 1), TimeAt(ops, n - 1), op.c); }
      assert forall xs: seq<int> :: xs + [] == xs;
      hide Survives, Survivors, Since;
    } else {
      hide Survives;
    }
  }

  function TimeAt(ops: Log, i: nat): int {
    if i < |ops| && ops[i].Recorded? then ops[i].at else 0
  }

  lemma SurvivorsStep(ops: Log, n: nat)
    requires 0 < n <= |ops|
    ensures Survivors(ops, n) == if Survives(ops, n - 1) then Survivors(ops, n - 1) + [TimeAt(ops, n - 1)] else Survivors(ops, n - 1)
    ensures Survives(ops, n - 1) ==> ops[n - 1].Recorded?
  {
    assert Survivors(ops, n - 1) + [] == Survivors(ops, n - 1);
  }

  /** A recorded failure is still stored exactly if it is not older than any
      cutoff applied to its key since. */
  lemma {:induction false} KeptIsSurvivors(ops: Log)
    ensures Kept(ops) == Survivors(ops, |ops|)
  {
    if ops != [] {
      var init, op := ops[..|ops| - 1], ops[|ops| - 1];
      assert init + [op] == ops;
      KeptIsSurvivors(init);
      SurvivorsSnoc(init, op, |init|);
      assert Survives(ops, |init|) <==> op.Recorded?;
      assert forall xs: seq<int> :: xs + [] == xs;
    }
  }

  /** A failure from t on that was recorded, and is no longer stored. */
  predicate Lost(ops: Log, t: int, i: nat) {
    i < |ops| && ops[i].Recorded? && ops[i].at >= t && !Survives(ops, i)
  }

  predicate NoneLost(ops: Log, t: int) {
    forall i: nat :: i < |ops| ==> !Lost(ops, t, i)
  }

  function LostCount(ops: Log, t: int, n: nat): nat
    requires n <= |ops|
  {
    if n == 0 then 0 else LostCount(ops, t, n - 1) + if Lost(ops, t, n - 1) then 1 else 0
  }

  lemma {:induction false} CountsDiffer(ops: Log, t: int, n: nat)
    requires n <= |ops|
    ensures |Since(Full(ops[..n]), t)| == |Since(Survivors(ops, n), t)| + LostCount(ops, t, n)
  {
    if n > 0 {
      var at := TimeAt(ops, n - 1);
      CountsDiffer(ops, t, n - 1);
      assert ops[..n] == ops[..n - 1] + [ops[n - 1]];
      KeptSnoc(ops[..n - 1], ops[n - 1]);
      SurvivorsStep(ops, n);
      SinceSnoc(Full(ops[..n - 1]), at, t);
      SinceSnoc(Survivors(ops, n - 1), at, t);
      assert Full(ops[..n - 1]) + [] == Full(ops[..n - 1]);
      hide Survives, Survivors, Since, Full;
    } else {
      assert ops[..0] == [];
    }
  }

  lemma {:induction false} NoLostCount(ops: Log, t: int, n: nat)
    requires n <= |ops|
    ensures LostCount(ops, t, n) == 0 <==> forall i: nat :: i < n ==> !Lost(ops, t, i)
  {
    hide Lost;
    if n > 0 { NoLostCount(ops, t, n - 1); }
  }

  /** Counting what is stored from t on counts all that was recorded from t on
      exactly if none of it was lost. */
  lemma CountExact(ops: Log, t: int)
    ensures |Since(Kept(ops), t)| <= |Since(Full(ops), t)|
    ensures |Since(Kept(ops), t)| == |Since(Full(ops), t)| <==> NoneLost(ops, t)
  {
    KeptIsSurvivors(ops);
    CountsDiffer(ops, t, |ops|);
    NoLostCount(ops, t, |ops|);
    assert ops[..|ops|] == ops;
    hide Lost, Kept, Full, Since, Survivors;
  }

  // ----- The bound -----

  /** The times within an interval, ends included. */
  function Within(f: seq<int>, lo: int, hi: int): seq<int> {
    if f == [] then []
    else Within(f[..|f| - 1], lo, hi) + if lo <= f[|f| - 1] <= hi then [f[|f| - 1]] else []
  }

  lemma {:induction false} WithinSince(f: seq<int>, lo: int, hi: int, s: int)
    requires s <= lo
    ensures |Within(f, lo, hi)| <= |Since(f, s)|
  {
    if f != [] { WithinSince(f[..|f| - 1], lo, hi, s); }
  }

  lemma WithinSnoc(f: seq<int>, at: int, lo: int, hi: int)
    ensures Within(f + [at], lo, hi) == Within(f, lo, hi) + if lo <= at <= hi then [at] else []
  {
    assert (f + [at])[..|f|] == f;
  }

  /** Each failure was recorded while what was stored of its window had room. */
  ghost predicate HadRoom(ops: Log, cfg: Settings) {
    forall i :: 0 <= i < |ops| && ops[i].Recorded? ==> RoomAt(ops, i, cfg)
  }

  predicate RoomAt(ops: Log, i: nat, cfg: Settings)
    requires i < |ops| && ops[i].Recorded?
  {
    |Since(Kept(ops[..i]), ops[i].at - cfg.window)| < cfg.attempts
  }

  /** When a failure was recorded, nothing of its window had been lost. */
  ghost predicate NeverLost(ops: Log, cfg: Settings) {
    forall i :: 0 <= i < |ops| && ops[i].Recorded? ==> NoneLost(ops[..i], ops[i].at - cfg.window)
  }

  /** Then no interval of the window's length ever holds more failures than
      allowed, in whatever order their times come. */
  lemma {:induction false} WindowBound(ops: Log, cfg: Settings, lo: int)
    requires HadRoom(ops, cfg) && NeverLost(ops, cfg)
    ensures |Within(Full(ops), lo, lo + cfg.window)| <= cfg.attempts
  {
    hide Within, Full, Kept, Since, NoneLost;
    if ops == [] {
      NothingWithin(lo, lo + cfg.window);
    } else {
      var n := |ops| - 1;
      var init, op := ops[..n], ops[n];
      assert init + [op] == ops;
      KeptSnoc(init, op);
      if op.Recorded? && lo <= op.at <= lo + cfg.window {
        assert RoomAt(ops, n, cfg) && NoneLost(ops[..n], op.at - cfg.window);
        WindowHere(init, op.at, cfg, lo);
      } else {
        PrefixOk(ops, cfg);
        WindowBound(init, cfg, lo);
        if op.Recorded? { WithinSnoc(Full(init), op.at, lo, lo + cfg.window); }
        assert forall xs: seq<int> :: xs + [] == xs;
      }
    }
  }

  lemma NothingWithin(lo: int, hi: int)
    ensures Within(Full([]), lo, hi) == []
  {}

  lemma WindowHere(ops: Log, at: int, cfg: Settings, lo: int)
    requires |Since(Kept(ops), at - cfg.window)| < cfg.attempts && NoneLost(ops, at - cfg.window) && lo <= at <= lo + cfg.window
    ensures |Within(Full(ops) + [at], lo, lo + cfg.window)| <= cfg.attempts
  {
    hide NoneLost, Kept, Since, Full;
    CountExact(ops, at - cfg.window);
    WithinSince(Full(ops), lo, lo + cfg.window, at - cfg.window);
    WithinSnoc(Full(ops), at, lo, lo + cfg.window);
  }

  lemma PrefixOk(ops: Log, cfg: Settings)
    requires HadRoom(ops, cfg) && NeverLost(ops, cfg) && ops != []
    ensures HadRoom(ops[..|ops| - 1], cfg) && NeverLost(ops[..|ops| - 1], cfg)
  {
    hide NoneLost;
    var init := ops[..|ops| - 1];
    forall i | 0 <= i < |init| && init[i].Recorded? ensures RoomAt(init, i, cfg) && NoneLost(init[..i], init[i].at - cfg.window) {
      assert init[..i] == ops[..i] && RoomAt(ops, i, cfg);
    }
  }

  lemma RoomSame(ops: Log, op: KeyOp, i: nat, cfg: Settings)
    requires i < |ops| && ops[i].Recorded?
    ensures RoomAt(ops + [op], i, cfg) <==> RoomAt(ops, i, cfg)
  {
    hide Kept, Since;
    assert (ops + [op])[..i] == ops[..i];
  }

  lemma RoomSnoc(ops: Log, op: KeyOp, cfg: Settings)
    requires HadRoom(ops, cfg)
    requires op.Recorded? ==> |Since(Kept(ops), op.at - cfg.window)| < cfg.attempts
    ensures HadRoom(ops + [op], cfg)
  {
    hide Kept, Since;
    var all := ops + [op];
    forall i: nat | i < |ops| && ops[i].Recorded? ensures RoomAt(all, i, cfg) { RoomSame(ops, op, i, cfg); }
    assert all[..|ops|] == ops;
  }

  /** Keys of logins and of addresses never coincide. */
  lemma KeysDiffer(login: string, ip: string)
    ensures LoginKey(login) != IpKey(ip)
  {
    assert LoginKey(login)[0] == 'l' && IpKey(ip)[0] == 'i';
  }

  // ----- Attempts, whatever the clock says -----

  /** The storage holds what is kept of each key, and each failure had room. */
  ghost predicate Inv(s: State, cfg: Settings) {
    && (forall key :: TimesOf(s.failures, key) == Kept(LogOf(s.log, key)))
    && (forall key :: HadRoom(LogOf(s.log, key), cfg))
  }

  lemma PruneInv(s: State, cfg: Settings, key: string, since: int)
    requires Inv(s, cfg)
    ensures Inv(State(Prune(s.failures, key, since), Logged(s.log, key, Cutoff(since))), cfg)
    ensures Prune(s.failures, key, since)[key] == Since(Kept(LogOf(s.log, key)), since)
  {
    hide HadRoom, Since, Kept;
    KeptSnoc(LogOf(s.log, key), Cutoff(since));
    RoomSnoc(LogOf(s.log, key), Cutoff(since), cfg);
    var s' := State(Prune(s.failures, key, since), Logged(s.log, key, Cutoff(since)));
    assert forall k :: k != key ==> TimesOf(s'.failures, k) == TimesOf(s.failures, k) && LogOf(s'.log, k) == LogOf(s.log, k);
  }

  lemma RecordInv(s: State, cfg: Settings, key: string, at: int)
    requires Inv(s, cfg) && |Since(Kept(LogOf(s.log, key)), at - cfg.window)| < cfg.attempts
    ensures Inv(State(Record(s.failures, key, at), Logged(s.log, key, Recorded(at))), cfg)
  {
    hide HadRoom, Since, Kept;
    KeptSnoc(LogOf(s.log, key), Recorded(at));
    RoomSnoc(LogOf(s.log, key), Recorded(at), cfg);
    var s' := State(Record(s.failures, key, at), Logged(s.log, key, Recorded(at)));
    assert forall k :: k != key ==> TimesOf(s'.failures, k) == TimesOf(s.failures, k) && LogOf(s'.log, k) == LogOf(s.log, k);
  }

  lemma ClearInv(s: State, cfg: Settings, key: string)
    requires Inv(s, cfg)
    ensures Inv(State(s.failures - {key}, s.log - {key}), cfg)
  {
    assert Kept([]) == [] && HadRoom([], cfg);
    hide HadRoom, Kept;
    var s' := State(s.failures - {key}, s.log - {key});
    assert forall k :: k != key ==> TimesOf(s'.failures, k) == TimesOf(s.failures, k) && LogOf(s'.log, k) == LogOf(s.log, k);
  }

  lemma {:induction false} SinceSince(times: seq<int>, t: int)
    ensures Since(Since(times, t), t) == Since(times, t)
  {
    if times != [] {
      var init, last := times[..|times| - 1], times[|times| - 1];
      SinceSince(init, t);
      if last >= t { SinceSnoc(Since(init, t), last, t); } else { assert Since(init, t) + [] == Since(init, t); }
    }
  }

  /** What the check sees of a key. */
  function Seen(s: State, key: string, since: int): nat {
    |Since(Kept(LogOf(s.log, key)), since)|
  }

  function Recent(s: State, key: string, since: int): nat {
    |Since(Full(LogOf(s.log, key)), since)|
  }

  lemma LoggedOther(log: map<string, Log>, key: string, op: KeyOp, other: string)
    ensures LogOf(Logged(log, key, op), other) == if other == key then LogOf(log, other) + [op] else LogOf(log, other)
  {}

  lemma SeenExact(s: State)
    ensures forall key, since :: Seen(s, key, since) == Recent(s, key, since) <==> NoneLost(LogOf(s.log, key), since)
  {
    hide LogOf, Since, Kept, Full, NoneLost;
    forall key, since ensures Seen(s, key, since) == Recent(s, key, since) <==> NoneLost(LogOf(s.log, key), since) {
      CountExact(LogOf(s.log, key), since);
    }
  }

  /** For any history of attempts and clocks, what the limit is checked against
      is what was recorded in the window exactly if none of it was lost. */
  lemma CheckExact(s: State, cfg: Settings, login: string, ip: string, now: int)
    requires Inv(s, cfg)
    ensures var (m, limited) := Check(s.failures, cfg, login, ip, now); var since := now - cfg.window;
            && Inv(State(m, BothLogged(s.log, login, ip, Cutoff(since))), cfg)
            && (limited <==> Seen(s, LoginKey(login), since) >= cfg.attempts || (ip != "" && Seen(s, IpKey(ip), since) >= cfg.attempts))
    ensures forall key, since :: Seen(s, key, since) == Recent(s, key, since) <==> NoneLost(LogOf(s.log, key), since)
  {
    SeenExact(s);
    var since := now - cfg.window;
    hide Inv, Since, Prune, Kept, NoneLost, Full, Recent, Logged, LogOf;
    PruneInv(s, cfg, LoginKey(login), since);
    if ip != "" {
      KeysDiffer(login, ip);
      LoggedOther(s.log, LoginKey(login), Cutoff(since), IpKey(ip));
      PruneInv(State(Prune(s.failures, LoginKey(login), since), Logged(s.log, LoginKey(login), Cutoff(since))), cfg, IpKey(ip), since);
    }
  }

  /** After a check that leaves room, a failure can be recorded. */
  lemma RecordBoth(s: State, cfg: Settings, login: string, ip: string, now: int)
    requires Inv(s, cfg) && Seen(s, LoginKey(login), now - cfg.window) < cfg.attempts
    requires ip != "" ==> Seen(s, IpKey(ip), now - cfg.window) < cfg.attempts
    ensures Inv(State(RecordFailure(s.failures, login, ip, now), BothLogged(s.log, login, ip, Recorded(now))), cfg)
  {
    hide Inv, Since, Kept, Record;
    RecordInv(s, cfg, LoginKey(login), now);
    if ip != "" {
      KeysDiffer(login, ip);
      LoggedOther(s.log, LoginKey(login), Recorded(now), IpKey(ip));
      RecordInv(State(Record(s.failures, LoginKey(login), now), Logged(s.log, LoginKey(login), Recorded(now))), cfg, IpKey(ip), now);
    }
  }

  lemma SeenAfter(s: State, login: string, ip: string, since: int)
    ensures var l := BothLogged(s.log, login, ip, Cutoff(since)); var s1 := State(s.failures, l);
            && Seen(s1, LoginKey(login), since) == Seen(s, LoginKey(login), since)
            && (ip != "" ==> Seen(s1, IpKey(ip), since) == Seen(s, IpKey(ip), since))
  {
    hide Since, Kept;
    KeysDiffer(login, ip);
    forall key { LoggedOther(s.log, LoginKey(login), Cutoff(since), key); }
    forall key { LoggedOther(Logged(s.log, LoginKey(login), Cutoff(since)), IpKey(ip), Cutoff(since), key); }
    KeptSnoc(LogOf(s.log, LoginKey(login)), Cutoff(since));
    KeptSnoc(LogOf(s.log, IpKey(ip)), Cutoff(since));
    SinceSince(Kept(LogOf(s.log, LoginKey(login))), since);
    SinceSince(Kept(LogOf(s.log, IpKey(ip))), since);
  }

  lemma AttemptInv(s: State, cfg: Settings, login: string, ip: string, now: int, good: bool)
    requires Inv(s, cfg)
    ensures Inv(Attempt(s, cfg, login, ip, now, good).0, cfg)
  {
    hide Inv, Since, Check, Kept, Seen, RecordFailure, BothLogged, NoneLost, Recent;
    CheckExact(s, cfg, login, ip, now);
    var (m, limited) := Check(s.failures, cfg, login, ip, now);
    var s1 := State(m, BothLogged(s.log, login, ip, Cutoff(now - cfg.window)));
    SeenAfter(s, login, ip, now - cfg.window);
    SeenSame(s.failures, m, s1.log);
    if !limited && good {
      ClearInv(s1, cfg, LoginKey(login));
    } else if !limited {
      RecordBoth(s1, cfg, login, ip, now);
    }
  }

  /** What is seen is a matter of the log. */
  lemma SeenSame(m: map<string, seq<int>>, m': map<string, seq<int>>, log: map<string, Log>)
    ensures forall key, since :: Seen(State(m, log), key, since) == Seen(State(m', log), key, since)
  {}

  // ----- Runs -----

  datatype Try = Try(login: string, ip: string, now: int, good: bool)

  function After(s: State, cfg: Settings, tries: seq<Try>): State {
    if tries == [] then s
    else
      var t := tries[|tries| - 1];
      Attempt(After(s, cfg, tries[..|tries| - 1]), cfg, t.login, t.ip, t.now, t.good).0
  }

  const NoFailures := State(map[], map[])

  lemma {:induction false} AfterInv(cfg: Settings, tries: seq<Try>)
    ensures Inv(After(NoFailures, cfg, tries), cfg)
  {
    if tries == [] {
      assert Kept([]) == [] && HadRoom([], cfg);
    } else {
      hide Inv, Attempt;
      var t := tries[|tries| - 1];
      AfterInv(cfg, tries[..|tries| - 1]);
      AttemptInv(After(NoFailures, cfg, tries[..|tries| - 1]), cfg, t.login, t.ip, t.now, t.good);
    }
  }

  /** After any tries, with any clock: what is stored of a key are its surviving
      failures, an attempt is refused exactly when these fill the window, they
      are all failures of the window exactly if none of it was lost, and while
      nothing of its window was lost whenever a failure was recorded, no window
      holds more failures than allowed. */
  lemma LimiterExact(cfg: Settings, tries: seq<Try>, t: Try, key: string, lo: int)
    ensures var s := After(NoFailures, cfg, tries); var ops, since := LogOf(s.log, key), t.now - cfg.window;
            && TimesOf(s.failures, key) == Survivors(ops, |ops|)
            && (Attempt(s, cfg, t.login, t.ip, t.now, t.good).1.RateLimited? <==>
                  Seen(s, LoginKey(t.login), since) >= cfg.attempts || (t.ip != "" && Seen(s, IpKey(t.ip), since) >= cfg.attempts))
            && (Seen(s, key, since) == Recent(s, key, since) <==> NoneLost(ops, since))
            && (NeverLost(ops, cfg) ==> |Within(Full(ops), lo, lo + cfg.window)| <= cfg.attempts)
  {
    AfterInv(cfg, tries);
    var s := After(NoFailures, cfg, tries);
    CheckExact(s, cfg, t.login, t.ip, t.now);
    KeptIsSurvivors(LogOf(s.log, key));
    if NeverLost(LogOf(s.log, key), cfg) { WindowBound(LogOf(s.log, key), cfg, lo); }
    hide After, Since, Within, Check, HadRoom, NoneLost, Kept, Full, Survivors, NeverLost, Seen, Recent;
  }

  // ----- A clock that does not go back -----

  predicate Ordered(tries: seq<Try>) {
    forall i, k :: 0 <= i < k < |tries| ==> tries[i].now <= tries[k].now
  }

  /** Every cutoff is a window before some time up to now. */
  predicate CutBy(ops: Log, since: int) {
    forall i :: 0 <= i < |ops| && ops[i].Cutoff? ==> ops[i].c <= since
  }

  lemma CutNoneLost(ops: Log, since: int)
    requires CutBy(ops, since)
    ensures NoneLost(ops, since)
  {}

  ghost predicate InOrder(log: map<string, Log>, cfg: Settings, since: int) {
    forall key :: CutBy(LogOf(log, key), since) && NeverLost(LogOf(log, key), cfg)
  }

  lemma OrderSnoc(ops: Log, op: KeyOp, cfg: Settings, since: int)
    requires CutBy(ops, since) && NeverLost(ops, cfg)
    requires op == Cutoff(since) || op == Recorded(since + cfg.window)
    ensures CutBy(ops + [op], since) && NeverLost(ops + [op], cfg)
  {
    CutNoneLost(ops, since);
    hide NoneLost;
    var all := ops + [op];
    forall i | 0 <= i < |all| && all[i].Recorded? ensures NoneLost(all[..i], all[i].at - cfg.window) {
      if i < |ops| { assert all[..i] == ops[..i]; } else { assert all[..i] == ops; }
    }
  }

  lemma BothInOrder(log: map<string, Log>, cfg: Settings, login: string, ip: string, op: KeyOp, since: int)
    requires InOrder(log, cfg, since) && (op == Cutoff(since) || op == Recorded(since + cfg.window))
    ensures InOrder(BothLogged(log, login, ip, op), cfg, since)
  {
    hide CutBy, NeverLost;
    KeysDiffer(login, ip);
    var l1 := Logged(log, LoginKey(login), op);
    forall key ensures CutBy(LogOf(BothLogged(log, login, ip, op), key), since) && NeverLost(LogOf(BothLogged(log, login, ip, op), key), cfg) {
      LoggedOther(log, LoginKey(login), op, key);
      LoggedOther(l1, IpKey(ip), op, key);
      OrderSnoc(LogOf(log, key), op, cfg, since);
    }
  }

  lemma LaterInOrder(log: map<string, Log>, cfg: Settings, since: int, later: int)
    requires InOrder(log, cfg, since) && since <= later
    ensures InOrder(log, cfg, later)
  {
    hide NeverLost;
    forall key ensures CutBy(LogOf(log, key), later) { assert CutBy(LogOf(log, key), since); }
  }

  lemma ClearInOrder(log: map<string, Log>, cfg: Settings, since: int, key: string)
    requires InOrder(log, cfg, since)
    ensures InOrder(log - {key}, cfg, since)
  {
    assert CutBy([], since) && NeverLost([], cfg);
    hide CutBy, NeverLost;
    assert forall k :: k != key ==> LogOf(log - {key}, k) == LogOf(log, k);
    assert LogOf(log - {key}, key) == [];
  }

  /** What an attempt adds to the logs. */
  lemma AttemptLog(s: State, cfg: Settings, t: Try)
    ensures var l1 := BothLogged(s.log, t.login, t.ip, Cutoff(t.now - cfg.window));
            var l := Attempt(s, cfg, t.login, t.ip, t.now, t.good).0.log;
            l == l1 || l == BothLogged(l1, t.login, t.ip, Recorded(t.now)) || l == l1 - {LoginKey(t.login)}
  {
    hide Check, BothLogged, RecordFailure;
  }

  lemma AttemptInOrder(s: State, cfg: Settings, t: Try, since: int)
    requires InOrder(s.log, cfg, since) && since <= t.now - cfg.window
    ensures InOrder(Attempt(s, cfg, t.login, t.ip, t.now, t.good).0.log, cfg, t.now - cfg.window)
  {
    hide InOrder, Attempt, BothLogged, LoginKey;
    var now := t.now - cfg.window;
    LaterInOrder(s.log, cfg, since, now);
    BothInOrder(s.log, cfg, t.login, t.ip, Cutoff(now), now);
    var l1 := BothLogged(s.log, t.login, t.ip, Cutoff(now));
    BothInOrder(l1, cfg, t.login, t.ip, Recorded(t.now), now);
    ClearInOrder(l1, cfg, now, LoginKey(t.login));
    AttemptLog(s, cfg, t);
  }

  lemma {:induction false} AfterInOrder(cfg: Settings, tries: seq<Try>, since: int)
    requires Ordered(tries) && (tries != [] ==> tries[|tries| - 1].now - cfg.window <= since)
    ensures InOrder(After(NoFailures, cfg, tries).log, cfg, since)
  {
    if tries == [] {
      assert CutBy([], since) && NeverLost([], cfg);
    } else {
      hide InOrder, Attempt;
      var init, t := tries[..|tries| - 1], tries[|tries| - 1];
      AfterInOrder(cfg, init, t.now - cfg.window);
      AttemptInOrder(After(NoFailures, cfg, init), cfg, t, t.now - cfg.window);
      LaterInOrder(After(NoFailures, cfg, tries).log, cfg, t.now - cfg.window, since);
    }
  }

  /** In any run whose clock does not go back, an attempt is refused exactly when
      the full history since the last clear already fills the window, and in any
      interval of the window's length at most the allowed number of failures is
      recorded, for every address ever and for every login since its last success. */
  lemma LimiterSound(cfg: Settings, tries: seq<Try>, t: Try, key: string, lo: int)
    requires Ordered(tries + [t])
    ensures var s := After(NoFailures, cfg, tries); var since := t.now - cfg.window;
            Attempt(s, cfg, t.login, t.ip, t.now, t.good).1.RateLimited? <==>
              |Since(Full(LogOf(s.log, LoginKey(t.login))), since)| >= cfg.attempts
              || (t.ip != "" && |Since(Full(LogOf(s.log, IpKey(t.ip))), since)| >= cfg.attempts)
    ensures |Within(Full(LogOf(After(NoFailures, cfg, tries).log, key)), lo, lo + cfg.window)| <= cfg.attempts
  {
    var s, since := After(NoFailures, cfg, tries), t.now - cfg.window;
    assert forall i :: 0 <= i < |tries| ==> (tries + [t])[i] == tries[i] && (tries + [t])[|tries|] == t;
    AfterInOrder(cfg, tries, since);
    LimiterExact(cfg, tries, t, key, lo);
    LimiterExact(cfg, tries, t, LoginKey(t.login), lo);
    LimiterExact(cfg, tries, t, IpKey(t.ip), lo);
    hide After, Since, Within, Check, NeverLost, Full, Kept, Survivors, Attempt, NoneLost, CutBy;
    CutNoneLost(LogOf(s.log, LoginKey(t.login)), since);
    CutNoneLost(LogOf(s.log, IpKey(t.ip)), since);
  }

  /** An address is never cleared: its full history is every failure from it. */
  lemma IpNeverCleared(s: State, cfg: Settings, login: string, ip: string, now: int, good: bool, other: string)
    ensures var s' := Attempt(s, cfg, login, ip, now, good).0; var r := Attempt(s, cfg, login, ip, now, good).1;
            Full(LogOf(s'.log, IpKey(other))) ==
              Full(LogOf(s.log, IpKey(other))) + if r.LoginFailed? && ip != "" && ip == other then [now] else []
  {
    var op1, op2 := Cutoff(now - cfg.window), Recorded(now);
    var l1 := BothLogged(s.log, login, ip, op1);
    BothFull(s.log, login, ip, op1, other);
    BothFull(l1, login, ip, op2, other);
    ClearedOther(s, cfg, login, ip, now, other);
    hide Check, BothLogged, Full, LogOf, IpKey, LoginKey, RecordFailure;
    assert forall xs: seq<int> :: xs + [] == xs;
  }

  lemma BothFull(log: map<string, Log>, login: string, ip: string, op: KeyOp, other: string)
    ensures Full(LogOf(BothLogged(log, login, ip, op), IpKey(other))) ==
              Full(LogOf(log, IpKey(other))) + if op.Recorded? && ip != "" && ip == other then [op.at] else []
  {
    BothOther(log, login, ip, op, other);
    KeptSnoc(LogOf(log, IpKey(other)), op);
    hide BothLogged, Full, LogOf, IpKey, Kept;
    assert forall xs: seq<int> :: xs + [] == xs;
  }

  lemma ClearedOther(s: State, cfg: Settings, login: string, ip: string, now: int, other: string)
    ensures forall log: map<string, Log> :: LogOf(log - {LoginKey(login)}, IpKey(other)) == LogOf(log, IpKey(other))
  {
    KeysDiffer(login, other);
    hide LoginKey, IpKey;
  }

  lemma BothOther(log: map<string, Log>, login: string, ip: string, op: KeyOp, other: string)
    ensures LogOf(BothLogged(log, login, ip, op), IpKey(other)) == if ip != "" && ip == other then LogOf(log, IpKey(other)) + [op] else LogOf(log, IpKey(other))
  {
    KeysDiffer(login, other);
    IpKeysDiffer(ip, other);
    LoggedOther(log, LoginKey(login), op, IpKey(other));
    LoggedOther(Logged(log, LoginKey(login), op), IpKey(ip), op, IpKey(other));
    hide Logged, LogOf;
  }

  lemma IpKeysDiffer(a: string, b: string)
    ensures IpKey(a) == IpKey(b) <==> a == b
  {
    assert IpKey(a)[3..] == a && IpKey(b)[3..] == b;
  }

  // ----- A clock that goes back -----

  /** What an attempt with room logs for its address, and that it touches no
      other login. */
  lemma AttemptLogs(s: State, cfg: Settings, login: string, ip: string, now: int, good: bool, other: string)
    requires Inv(s, cfg) && ip != "" && login != other
    requires Seen(s, LoginKey(login), now - cfg.window) < cfg.attempts && Seen(s, IpKey(ip), now - cfg.window) < cfg.attempts
    ensures var s' := Attempt(s, cfg, login, ip, now, good).0; var cut := LogOf(s.log, IpKey(ip)) + [Cutoff(now - cfg.window)];
            && LogOf(s'.log, IpKey(ip)) == (if good then cut else cut + [Recorded(now)])
            && LogOf(s'.log, LoginKey(other)) == LogOf(s.log, LoginKey(other))
  {
    var l1 := BothLogged(s.log, login, ip, Cutoff(now - cfg.window));
    BothOther(s.log, login, ip, Cutoff(now - cfg.window), ip);
    BothOther(l1, login, ip, Recorded(now), ip);
    OtherLogin(s.log, login, ip, Cutoff(now - cfg.window), other);
    OtherLogin(l1, login, ip, Recorded(now), other);
    ClearedOther(s, cfg, login, ip, now, ip);
    CheckExact(s, cfg, login, ip, now);
    hide Check, Inv, BothLogged, LogOf, IpKey, LoginKey, RecordFailure, Seen, Recent, NoneLost;
  }

  lemma OtherLogin(log: map<string, Log>, login: string, ip: string, op: KeyOp, other: string)
    requires login != other
    ensures LogOf(BothLogged(log, login, ip, op), LoginKey(other)) == LogOf(log, LoginKey(other))
    ensures forall l: map<string, Log> :: LogOf(l - {LoginKey(login)}, LoginKey(other)) == LogOf(l, LoginKey(other))
  {
    KeysDiffer(other, ip);
    assert LoginKey(login)[6..] == login && LoginKey(other)[6..] == other;
    hide IpKey, LoginKey;
  }

  /** Why the clock must not go back. With one failure allowed in ten time units,
      one is recorded at 100, the check at 120 drops it, the check at 105 would
      still count it: at that point it is lost, and a second one is let in. */
  lemma ClockBackForgets()
    ensures var cfg, key := Settings(10, 1), IpKey("i");
            var before := [Try("a", "i", 100, false), Try("b", "i", 120, true)];
            var s, s' := After(NoFailures, cfg, before), After(NoFailures, cfg, before + [Try("c", "i", 105, false)]);
            && Lost(LogOf(s.log, key), 105 - cfg.window, 1)
            && Seen(s, key, 105 - cfg.window) == 0 && Recent(s, key, 105 - cfg.window) == 1
            && |Within(Full(LogOf(s'.log, key)), 95, 95 + cfg.window)| == 2
  {
    var cfg := Settings(10, 1);
    var a, b, c := Try("a", "i", 100, false), Try("b", "i", 120, true), Try("c", "i", 105, false);
    var s := After(NoFailures, cfg, [a, b]);
    BackOne(cfg);
    AfterInv(cfg, [a, b]);
    AfterThree(cfg, a, b, c);
    hide Attempt, IpKey, LoginKey, Within, Since, Inv, Kept, Full, After, LogOf, Seen, Recent, Lost;
    BackSeen(s);
    AttemptLogs(s, cfg, "c", "i", 105, false, "d");
    BackLogged();
  }

  lemma BackSeen(s: State)
    requires LogOf(s.log, IpKey("i")) == [Cutoff(90), Recorded(100), Cutoff(110)] && LogOf(s.log, LoginKey("c")) == []
    ensures Lost(LogOf(s.log, IpKey("i")), 95, 1) && Seen(s, IpKey("i"), 95) == 0 && Recent(s, IpKey("i"), 95) == 1
    ensures Seen(s, LoginKey("c"), 95) == 0
  {
    LogsShown();
    var ops := LogOf(s.log, IpKey("i"));
    assert ops[2] == Cutoff(110) && ops[1] == Recorded(100);
    hide IpKey, LoginKey, Within, Since, Kept, Full, LogOf;
  }

  lemma BackLogged()
    ensures |Within(Full([Cutoff(90), Recorded(100), Cutoff(110)] + [Cutoff(95)] + [Recorded(105)]), 95, 105)| == 2
  {
    var ops: Log := [Cutoff(90), Recorded(100), Cutoff(110)];
    LogsShown();
    KeptSnoc(ops, Cutoff(95));
    KeptSnoc(ops + [Cutoff(95)], Recorded(105));
    hide Within, Since, Kept, Full;
    assert [100] + [] == [100] && [] + [100] == [100];
    WithinNone();
    WithinSnoc([], 100, 95, 105);
    WithinSnoc([100], 105, 95, 105);
  }

  lemma WithinNone()
    ensures Within([], 95, 105) == []
  {}

  lemma BackOne(cfg: Settings)
    requires cfg == Settings(10, 1)
    ensures var s := After(NoFailures, cfg, [Try("a", "i", 100, false), Try("b", "i", 120, true)]);
            LogOf(s.log, IpKey("i")) == [Cutoff(90), Recorded(100), Cutoff(110)] && LogOf(s.log, LoginKey("c")) == []
  {
    var a, b := Try("a", "i", 100, false), Try("b", "i", 120, true);
    AfterInv(cfg, [a]);
    AfterThree(cfg, a, b, a);
    LogsShown();
    NoLogs();
    hide Attempt, IpKey, LoginKey, Within, Since, Inv, Kept, Full, After, LogOf;
    var s1 := After(NoFailures, cfg, [a]);
    AttemptLogs(NoFailures, cfg, "a", "i", 100, false, "b");
    AttemptLogs(NoFailures, cfg, "a", "i", 100, false, "c");
    assert [] + [Cutoff(90)] + [Recorded(100)] == [Cutoff(90), Recorded(100)];
    AttemptLogs(s1, cfg, "b", "i", 120, true, "c");
    assert [Cutoff(90), Recorded(100)] + [Cutoff(110)] == [Cutoff(90), Recorded(100), Cutoff(110)];
  }

  lemma NoLogs()
    ensures forall key :: LogOf(NoFailures.log, key) == []
  {}

  lemma AfterThree(cfg: Settings, a: Try, b: Try, c: Try)
    ensures After(NoFailures, cfg, [a]) == Attempt(NoFailures, cfg, a.login, a.ip, a.now, a.good).0
    ensures After(NoFailures, cfg, [a, b]) == Attempt(After(NoFailures, cfg, [a]), cfg, b.login, b.ip, b.now, b.good).0
    ensures After(NoFailures, cfg, [a, b] + [c]) == Attempt(After(NoFailures, cfg, [a, b]), cfg, c.login, c.ip, c.now, c.good).0
    ensures Inv(NoFailures, cfg)
  {
    AfterInv(cfg, []);
    hide Attempt, Inv;
    assert [a][..0] == [] && [a, b][..1] == [a] && ([a, b] + [c])[..2] == [a, b];
  }

  lemma LogsShown()
    ensures forall t :: Since(Kept([]), t) == [] && Since([], t) == []
    ensures forall t :: Since(Kept([Cutoff(90), Recorded(100)]), t) == if 100 >= t then [100] else []
    ensures Kept([Cutoff(90), Recorded(100), Cutoff(110)]) == [] && Full([Cutoff(90), Recorded(100), Cutoff(110)]) == [100]
    ensures Since([100], 95) == [100]
  {
    KeptSnoc([], Cutoff(90));
    KeptSnoc([Cutoff(90)], Recorded(100));
    KeptSnoc([Cutoff(90), Recorded(100)], Cutoff(110));
    assert [] + [Cutoff(90)] == [Cutoff(90)] && [Cutoff(90)] + [Recorded(100)] == [Cutoff(90), Recorded(100)];
    assert [Cutoff(90), Recorded(100)] + [Cutoff(110)] == [Cutoff(90), Recorded(100), Cutoff(110)];
    assert forall xs: seq<int> :: xs + [] == xs && [] + xs == xs;
    forall t { SinceSnoc([], 100, t); }
  }

  // ----- Histories by the attempts themselves -----

  /** How the attempt at position i ended. */
  function Ended(cfg: Settings, tries: seq<Try>, i: nat): Outcome
    requires i < |tries|
  {
    var t := tries[i];
    Attempt(After(NoFailures, cfg, tries[..i]), cfg, t.login, t.ip, t.now, t.good).1
  }

  /** Attempt i failed for this login, which has not succeeded since. */
  predicate FailedSince(cfg: Settings, tries: seq<Try>, login: string, i: nat) {
    && i < |tries| && tries[i].login == login && Ended(cfg, tries, i).LoginFailed?
    && forall j: nat :: i < j < |tries| && tries[j].login == login ==> !Ended(cfg, tries, j).LoginOk?
  }

  /** Attempt i failed, from this address. */
  predicate FailedFrom(cfg: Settings, tries: seq<Try>, ip: string, i: nat) {
    i < |tries| && tries[i].ip == ip && Ended(cfg, tries, i).LoginFailed?
  }

  /** The times of those among the first n attempts that failed for the login
      after its last success. */
  function LoginFailures(cfg: Settings, tries: seq<Try>, login: string, n: nat): seq<int>
    requires n <= |tries|
  {
    if n == 0 then []
    else LoginFailures(cfg, tries, login, n - 1) + if FailedSince(cfg, tries, login, n - 1) then [tries[n - 1].now] else []
  }

  /** The times of those among the first n attempts that failed from the address. */
  function IpFailures(cfg: Settings, tries: seq<Try>, ip: string, n: nat): seq<int>
    requires n <= |tries|
  {
    if n == 0 then []
    else IpFailures(cfg, tries, ip, n - 1) + if FailedFrom(cfg, tries, ip, n - 1) then [tries[n - 1].now] else []
  }

  lemma EndedPrefix(cfg: Settings, tries: seq<Try>, t: Try, i: nat)
    requires i < |tries|
    ensures Ended(cfg, tries + [t], i) == Ended(cfg, tries, i)
  {
    hide Attempt;
    assert (tries + [t])[..i] == tries[..i];
  }

  lemma EndedLast(cfg: Settings, tries: seq<Try>, t: Try)
    ensures Ended(cfg, tries + [t], |tries|) == Attempt(After(NoFailures, cfg, tries), cfg, t.login, t.ip, t.now, t.good).1
  {
    hide Attempt;
    assert (tries + [t])[..|tries|] == tries;
  }

  lemma FailedSinceSnoc(cfg: Settings, tries: seq<Try>, t: Try, login: string, i: nat)
    requires i < |tries|
    ensures FailedSince(cfg, tries + [t], login, i) <==>
              FailedSince(cfg, tries, login, i) && !(t.login == login && Ended(cfg, tries + [t], |tries|).LoginOk?)
  {
    hide Ended;
    var all := tries + [t];
    forall j: nat | j < |tries| ensures Ended(cfg, all, j) == Ended(cfg, tries, j) && all[j] == tries[j] { EndedPrefix(cfg, tries, t, j); }
    assert all[|tries|] == t;
  }

  lemma {:induction false} LoginFailuresSnoc(cfg: Settings, tries: seq<Try>, t: Try, login: string, n: nat)
    requires n <= |tries|
    ensures LoginFailures(cfg, tries + [t], login, n) ==
              if t.login == login && Ended(cfg, tries + [t], |tries|).LoginOk? then [] else LoginFailures(cfg, tries, login, n)
  {
    hide Ended, FailedSince;
    if n > 0 {
      LoginFailuresSnoc(cfg, tries, t, login, n - 1);
      FailedSinceSnoc(cfg, tries, t, login, n - 1);
      assert (tries + [t])[n - 1] == tries[n - 1];
    }
  }

  lemma {:induction false} IpFailuresSnoc(cfg: Settings, tries: seq<Try>, t: Try, ip: string, n: nat)
    requires n <= |tries|
    ensures IpFailures(cfg, tries + [t], ip, n) == IpFailures(cfg, tries, ip, n)
  {
    hide Ended;
    if n > 0 {
      IpFailuresSnoc(cfg, tries, t, ip, n - 1);
      EndedPrefix(cfg, tries, t, n - 1);
      assert (tries + [t])[n - 1] == tries[n - 1];
    }
  }

  /** What an attempt does to the full history of a login. */
  lemma AttemptLogin(s: State, cfg: Settings, t: Try, login: string)
    ensures var (s', r) := Attempt(s, cfg, t.login, t.ip, t.now, t.good); var f := Full(LogOf(s.log, LoginKey(login)));
            Full(LogOf(s'.log, LoginKey(login))) ==
              if t.login != login then f else if r.LoginOk? then [] else if r.LoginFailed? then f + [t.now] else f
  {
    var op1, op2 := Cutoff(t.now - cfg.window), Recorded(t.now);
    var l1 := BothLogged(s.log, t.login, t.ip, op1);
    LoginBoth(s.log, t.login, t.ip, op1, login);
    LoginBoth(l1, t.login, t.ip, op2, login);
    LoginCleared(login, t.login);
    hide Check, BothLogged, Full, LogOf, IpKey, LoginKey, RecordFailure;
    assert forall xs: seq<int> :: xs + [] == xs;
  }

  lemma LoginBoth(log: map<string, Log>, login: string, ip: string, op: KeyOp, other: string)
    ensures Full(LogOf(BothLogged(log, login, ip, op), LoginKey(other))) ==
              Full(LogOf(log, LoginKey(other))) + if op.Recorded? && login == other then [op.at] else []
  {
    KeysDiffer(other, ip);
    LoginKeysDiffer(login, other);
    LoggedOther(log, LoginKey(login), op, LoginKey(other));
    LoggedOther(Logged(log, LoginKey(login), op), IpKey(ip), op, LoginKey(other));
    KeptSnoc(LogOf(log, LoginKey(other)), op);
    hide Logged, LogOf, Full, LoginKey, IpKey, Kept;
    assert forall xs: seq<int> :: xs + [] == xs;
  }

  lemma LoginKeysDiffer(a: string, b: string)
    ensures LoginKey(a) == LoginKey(b) <==> a == b
  {
    assert LoginKey(a)[6..] == a && LoginKey(b)[6..] == b;
  }

  lemma LoginCleared(login: string, cleared: string)
    ensures forall log: map<string, Log> ::
              Full(LogOf(log - {LoginKey(cleared)}, LoginKey(login))) == if cleared == login then [] else Full(LogOf(log, LoginKey(login)))
  {
    LoginKeysDiffer(login, cleared);
    hide LoginKey;
    assert Full([]) == [];
  }

  /** The full history of a login is the times of its failed attempts after its
      last success, whatever the tries and the clock. */
  lemma {:induction false} LoginHistory(cfg: Settings, tries: seq<Try>, login: string)
    ensures Full(LogOf(After(NoFailures, cfg, tries).log, LoginKey(login))) == LoginFailures(cfg, tries, login, |tries|)
  {
    if tries == [] {
      NoLogs();
    } else {
      hide Full, LogOf, Attempt, Ended, FailedSince, After, LoginFailures, LoginKey;
      var init, t := tries[..|tries| - 1], tries[|tries| - 1];
      assert init + [t] == tries;
      LoginHistory(cfg, init, login);
      LoginHistoryMore(cfg, init, t, login);
    }
  }

  lemma AfterMore(cfg: Settings, tries: seq<Try>, t: Try)
    ensures After(NoFailures, cfg, tries + [t]) == Attempt(After(NoFailures, cfg, tries), cfg, t.login, t.ip, t.now, t.good).0
  {
    hide Attempt;
    assert (tries + [t])[..|tries|] == tries;
  }

  /** The failures of a login after one more attempt. */
  lemma LoginFailuresMore(cfg: Settings, tries: seq<Try>, t: Try, login: string)
    ensures var f, r := LoginFailures(cfg, tries, login, |tries|), Ended(cfg, tries + [t], |tries|);
            LoginFailures(cfg, tries + [t], login, |tries| + 1) ==
              if t.login != login then f else if r.LoginOk? then [] else if r.LoginFailed? then f + [t.now] else f
  {
    LoginFailuresSnoc(cfg, tries, t, login, |tries|);
    LastFailed(cfg, tries, t, login);
    hide Ended, FailedSince;
    assert (tries + [t])[|tries|] == t;
    var f := LoginFailures(cfg, tries + [t], login, |tries|);
    assert f + [] == f;
  }

  lemma LoginHistoryMore(cfg: Settings, tries: seq<Try>, t: Try, login: string)
    requires Full(LogOf(After(NoFailures, cfg, tries).log, LoginKey(login))) == LoginFailures(cfg, tries, login, |tries|)
    ensures Full(LogOf(After(NoFailures, cfg, tries + [t]).log, LoginKey(login))) == LoginFailures(cfg, tries + [t], login, |tries + [t]|)
  {
    hide Full, LogOf, Attempt, Ended, After, LoginFailures, LoginKey;
    LoginFailuresMore(cfg, tries, t, login);
    AfterMore(cfg, tries, t);
    AttemptLogin(After(NoFailures, cfg, tries), cfg, t, login);
    EndedLast(cfg, tries, t);
  }

  lemma LastFailed(cfg: Settings, tries: seq<Try>, t: Try, login: string)
    ensures FailedSince(cfg, tries + [t], login, |tries|) <==> t.login == login && Ended(cfg, tries + [t], |tries|).LoginFailed?
  {
    hide Ended;
  }

  /** The full history of an address is the times of all failed attempts from it. */
  lemma {:induction false} IpHistory(cfg: Settings, tries: seq<Try>, ip: string)
    requires ip != ""
    ensures Full(LogOf(After(NoFailures, cfg, tries).log, IpKey(ip))) == IpFailures(cfg, tries, ip, |tries|)
  {
    if tries == [] {
      NoLogs();
    } else {
      hide Full, LogOf, Attempt, Ended, After, IpFailures, IpKey;
      var init, t := tries[..|tries| - 1], tries[|tries| - 1];
      assert init + [t] == tries;
      IpHistory(cfg, init, ip);
      IpHistoryMore(cfg, init, t, ip);
    }
  }

  lemma IpFailuresMore(cfg: Settings, tries: seq<Try>, t: Try, ip: string)
    ensures IpFailures(cfg, tries + [t], ip, |tries| + 1) ==
              IpFailures(cfg, tries, ip, |tries|) + if t.ip == ip && Ended(cfg, tries + [t], |tries|).LoginFailed? then [t.now] else []
  {
    IpFailuresSnoc(cfg, tries, t, ip, |tries|);
    hide Ended;
    assert (tries + [t])[|tries|] == t;
  }

  lemma IpHistoryMore(cfg: Settings, tries: seq<Try>, t: Try, ip: string)
    requires ip != "" && Full(LogOf(After(NoFailures, cfg, tries).log, IpKey(ip))) == IpFailures(cfg, tries, ip, |tries|)
    ensures Full(LogOf(After(NoFailures, cfg, tries + [t]).log, IpKey(ip))) == IpFailures(cfg, tries + [t], ip, |tries + [t]|)
  {
    hide Full, LogOf, Attempt, Ended, After, IpKey, IpFailures;
    IpFailuresMore(cfg, tries, t, ip);
    AfterMore(cfg, tries, t);
    IpNeverCleared(After(NoFailures, cfg, tries), cfg, t.login, t.ip, t.now, t.good, ip);
    EndedLast(cfg, tries, t);
  }

  /** An attempt that is not refused succeeds exactly if the credentials are good. */
  lemma OutcomeIsMerited(cfg: Settings, tries: seq<Try>, i: nat)
    requires i < |tries|
    ensures !Ended(cfg, tries, i).RateLimited? ==> (Ended(cfg, tries, i).LoginOk? <==> tries[i].good)
  {
    hide Check, After, RecordFailure, BothLogged;
  }

  /** With a clock that does not go back: an attempt is refused exactly if the
      window already holds as many failures as are allowed, of the login since
      its last success or of the address; and a login since its last success,
      like an address ever, never has more in any window. */
  lemma LimitIsKept(cfg: Settings, tries: seq<Try>, t: Try, lo: int)
    requires Ordered(tries + [t])
    ensures Ended(cfg, tries + [t], |tries|).RateLimited? <==>
              || |Since(LoginFailures(cfg, tries, t.login, |tries|), t.now - cfg.window)| >= cfg.attempts
              || (t.ip != "" && |Since(IpFailures(cfg, tries, t.ip, |tries|), t.now - cfg.window)| >= cfg.attempts)
    ensures |Within(LoginFailures(cfg, tries, t.login, |tries|), lo, lo + cfg.window)| <= cfg.attempts
    ensures t.ip != "" ==> |Within(IpFailures(cfg, tries, t.ip, |tries|), lo, lo + cfg.window)| <= cfg.attempts
  {
    hide Since, Within, Full, LogOf, Attempt, LoginFailures, IpFailures, After, LoginKey, IpKey;
    EndedLast(cfg, tries, t);
    LoginHistory(cfg, tries, t.login);
    LimiterSound(cfg, tries, t, LoginKey(t.login), lo);
    if t.ip != "" {
      IpHistory(cfg, tries, t.ip);
      LimiterSound(cfg, tries, t, IpKey(t.ip), lo);
    }
  }

  // ----- Operations -----

  class LoginStore {
    var failures: map<string, seq<int>>

    constructor ()
      ensures failures == map[]
    {
      failures := map[];
    }

    method RecordLoginFailure(key: string, at: int)
      modifies this
      ensures failures == Record(old(failures), key, at)
    {
      if key !in failures { failures := failures[key := []]; }
      failures := failures[key := failures[key] + [at]];
    }

    /** Counts the times from `since` on, and keeps only those. */
    method CountLoginFailures(key: string, since: int) returns (n: nat)
      modifies this
      ensures failures == Prune(old(failures), key, since) && n == |failures[key]|
    {
      var attempts := if key in failures then failures[key] else [];
      var recent: seq<int> := [];
      for i := 0 to |attempts|
        invariant recent == Since(attempts[..i], since)
      {
        assert attempts[..i + 1][..i] == attempts[..i];
        if attempts[i] >= since { recent := recent + [attempts[i]]; }
      }
      assert attempts[..|attempts|] == attempts;
      failures := failures[key := recent];
      n := |recent|;
    }

    method ClearLoginFailures(key: string)
      modifies this
      ensures failures == old(failures) - {key}
    {
      failures := failures - {key};
    }
  }

  class Auth {
    const store: LoginStore
    const cfg: Settings

    constructor (store: LoginStore, cfg: Settings)
      ensures this.store == store && this.cfg == cfg
    {
      this.store, this.cfg := store, cfg;
    }

    method EnforceRateLimit(login: string, ip: string, now: int) returns (limited: bool)
      modifies store
      ensures (store.failures, limited) == Check(old(store.failures), cfg, login, ip, now)
    {
      hide Prune;
      var attempts := store.CountLoginFailures(LoginKey(login), now - cfg.window);
      if ip != "" {
        var more := store.CountLoginFailures(IpKey(ip), now - cfg.window);
        if more > attempts { attempts := more; }
      }
      limited := attempts >= cfg.attempts;
    }

    /** `good` tells whether the password is right and the user is active. */
    method Login(login: string, ip: string, now: int, good: bool) returns (r: Outcome)
      modifies store
      ensures forall log ::
                var (s, o) := Attempt(State(old(store.failures), log), cfg, login, ip, now, good);
                r == o && store.failures == s.failures
    {
      hide Check;
      var limited := EnforceRateLimit(login, ip, now);
      if limited { return RateLimited; }
      if !good {
        store.RecordLoginFailure(LoginKey(login), now);
        if ip != "" { store.RecordLoginFailure(IpKey(ip), now); }
        return LoginFailed;
      }
      store.ClearLoginFailures(LoginKey(login));
      return LoginOk;
    }
  }
}
