/**
 What a revoke undoes in the history of a run: the peers, the configuration
 file and the client records are those of the same history without the issue.
 */
module AgentHistory {
  import opened Wrappers
  import opened Netip
  import opened AwgConfig
  import opened AwgRules
  import opened AwgAllocation
  import opened AgentMachine
  import opened AgentAddress
  import opened AwgRuntime
  import opened AgentRuns
  import opened AgentTheorems
  import T = ClientsTable

  // ----- Peers -----

  /** None of the reports issues or revokes this key. */
  predicate Untouched(h: seq<Entry>, key: string) {
    forall i :: 0 <= i < |h| ==>
      && (h[i].result.Issued? ==> h[i].result.peer.publicKey != key)
      && (h[i].result.Revoked? ==> h[i].result.key != key)
  }

  lemma {:induction false} WithoutTwice(ps: seq<Peer>, a: string, b: string)
    ensures Without(Without(ps, a), b) == Without(Without(ps, b), a)
  {
    if ps != [] {
      WithoutTwice(ps[1..], a, b);
      var head := [ps[0]];
      var ra, rb := Without(ps[1..], a), Without(ps[1..], b);
      assert (head + ra)[1..] == ra && (head + rb)[1..] == rb;
      assert [] + ra == ra && [] + rb == rb;
    }
  }

  lemma ApplyThenWithout(ps: seq<Peer>, r: Report, key: string)
    requires r.Issued? ==> r.peer.publicKey != key
    ensures Without(Apply(ps, r), key) == Apply(Without(ps, key), r)
  {
    match r
    case Issued(peer, _, _) =>
      WithoutAppend(ps, [peer], key);
      assert [peer][1..] == [];
    case Revoked(k) => WithoutTwice(ps, k, key);
    case _ =>
  }

  lemma {:induction false} ReplayWithout(ps: seq<Peer>, h: seq<Entry>, key: string)
    requires Untouched(h, key)
    ensures Without(Replay(ps, h), key) == Replay(Without(ps, key), h)
  {
    if h != [] {
      hide Apply, Without;
      var init := h[..|h| - 1];
      assert forall i :: 0 <= i < |init| ==> init[i] == h[i];
      ReplayWithout(ps, init, key);
      ApplyThenWithout(Replay(ps, init), h[|h| - 1].result, key);
    }
  }

  lemma ReplayUndone(ps: seq<Peer>, issue: Entry, between: seq<Entry>, revoke: Entry)
    requires issue.result.Issued? && revoke.result == Revoked(issue.result.peer.publicKey)
    requires !HasKey(ps, issue.result.peer.publicKey) && Untouched(between, issue.result.peer.publicKey)
    ensures Replay(ps, [issue] + between + [revoke]) == Replay(ps, between)
  {
    hide Untouched;
    var peer, key := issue.result.peer, issue.result.peer.publicKey;
    var h := [issue] + between + [revoke];
    assert h[..|h| - 1] == [issue] + between;
    ReplayFrom(ps, [issue], between);
    assert Replay(ps, [issue]) == ps + [peer] by { assert [issue][..0] == []; }
    ReplayWithout(ps + [peer], between, key);
    WithoutAdded(ps, peer);
  }

  lemma {:induction false} ReplayFrom(ps: seq<Peer>, a: seq<Entry>, b: seq<Entry>)
    ensures Replay(ps, a + b) == Replay(Replay(ps, a), b)
  {
    hide Apply;
    if b == [] {
      assert a + b == a;
    } else {
      assert (a + b)[..|a + b| - 1] == a + b[..|b| - 1];
      ReplayFrom(ps, a, b[..|b| - 1]);
    }
  }

  // ----- Client records -----

  /** What a transaction does to the client records. */
  ghost predicate TableStep(t: T.Table, e: Entry, t': T.Table) {
    match e.result
    case Issued(peer, ip, _) =>
      e.op.Issue? && ip < 4294967296 &&
      exists created :: t' == T.AddOrUpdate(t, peer.publicKey, e.op.name, FormatIPv4(ip) + "/32", created)
    case Revoked(key) => t' == T.Without(t, key)
    case _ => t' == t
  }

  /** The client records before, between and after these transactions. */
  ghost predicate Tables(ts: seq<T.Table>, h: seq<Entry>) {
    |ts| == |h| + 1 && forall k :: 0 <= k < |h| ==> TableStep(ts[k], h[k], ts[k + 1])
  }

  function Records(lib: Library, o: Snapshot): Option<T.Table> {
    lib.parseTable(TableOf(o))
  }

  lemma EndTable(lib: Library, e: Entry)
    requires EndOk(lib, e.op, e.result, e.before, e.after) && !e.result.RollbackFailed? && !e.result.Died? && CodecFaithful(lib)
    requires Records(lib, e.before).Some?
    ensures Records(lib, e.after).Some? && TableStep(Records(lib, e.before).value, e, Records(lib, e.after).value)
  {
    if e.result.Issued? || e.result.Revoked? {
      var plan := CommittedPlan(lib, e.op, e.result, e.before, e.after);
      hide EndOk, Base, FormatIPv4, HostPeer, NextAddress, Printable, ValidConfig, T.AddOrUpdate, T.Without, HasKey, Without, Text.TrimSpace;
      assert lib.parseTable(lib.renderTable(plan.table).value) == Some(plan.table);
      assert Records(lib, e.after) == Some(plan.table);
    }
  }

  lemma {:induction false} WithoutTwiceRecords(t: T.Table, a: string, b: string)
    ensures T.Without(T.Without(t, a), b) == T.Without(T.Without(t, b), a)
  {
    if t != [] {
      WithoutTwiceRecords(t[1..], a, b);
      var head := [t[0]];
      var ra, rb := T.Without(t[1..], a), T.Without(t[1..], b);
      assert (head + ra)[1..] == ra && (head + rb)[1..] == rb;
      assert [] + ra == ra && [] + rb == rb;
    }
  }

  lemma {:induction false} AddWithout(t: T.Table, key: string, name: string, ip: string, created: string, other: string)
    requires key != other
    ensures T.Without(T.AddOrUpdate(t, key, name, ip, created), other) == T.AddOrUpdate(T.Without(t, other), key, name, ip, created)
  {
    assert forall r: T.Record :: T.Refreshed(r, name, ip, created).clientId == r.clientId;
    hide T.Refreshed;
    if t == [] {
      assert T.AddOrUpdate(t, key, name, ip, created)[1..] == [];
    } else if t[0].clientId == key {
      var head := [T.Refreshed(t[0], name, ip, created)];
      assert (head + t[1..])[1..] == t[1..];
      assert ([t[0]] + T.Without(t[1..], other))[1..] == T.Without(t[1..], other);
    } else {
      AddWithout(t[1..], key, name, ip, created, other);
      var rest := T.AddOrUpdate(t[1..], key, name, ip, created);
      assert ([t[0]] + rest)[1..] == rest;
      assert ([t[0]] + T.Without(t[1..], other))[1..] == T.Without(t[1..], other);
      assert [] + T.Without(rest, other) == T.Without(rest, other);
      assert [] + T.Without(t[1..], other) == T.Without(t[1..], other);
    }
  }

  /** A transaction on another key does the same to the other records. */
  lemma StepWithout(t: T.Table, e: Entry, t': T.Table, key: string)
    requires TableStep(t, e, t') && Untouched([e], key)
    ensures TableStep(T.Without(t, key), e, T.Without(t', key))
  {
    hide T.AddOrUpdate, T.Without, FormatIPv4;
    assert [e][0] == e;
    match e.result
    case Issued(peer, ip, _) =>
      var created :| t' == T.AddOrUpdate(t, peer.publicKey, e.op.name, FormatIPv4(ip) + "/32", created);
      AddWithout(t, peer.publicKey, e.op.name, FormatIPv4(ip) + "/32", created, key);
    case Revoked(k) => WithoutTwiceRecords(t, k, key);
    case _ =>
  }

  // ----- The history from an issue on -----

  predicate NotRevoked(h: seq<Entry>, key: string) {
    forall k :: 0 <= k < |h| ==> h[k].result != Revoked(key)
  }

  /** The entries follow one another, each with the effect it reports. */
  ghost predicate Follows(lib: Library, h: seq<Entry>) {
    && (forall k :: 0 < k < |h| ==> h[k].before == h[k - 1].after)
    && (forall k :: 0 <= k < |h| ==> EndOk(lib, h[k].op, h[k].result, h[k].before, h[k].after))
  }

  lemma LinkedFollows(lib: Library, s0: Snapshot, h: seq<Entry>, i: nat, j: nat)
    requires Linked(lib, s0, h) && i <= j <= |h|
    ensures Follows(lib, h[i..j])
  {
    hide EndOk;
    forall k | 0 < k < j - i ensures h[i..j][k].before == h[i..j][k - 1].after {
      assert h[i + k].before == Last(s0, h[..i + k]);
    }
  }

  lemma ApplyKeepsKey(ps: seq<Peer>, r: Report, key: string)
    requires HasKey(ps, key) && r != Revoked(key)
    ensures HasKey(Apply(ps, r), key)
  {
    match r
    case Issued(peer, _, _) =>
      var i :| 0 <= i < |ps| && ps[i].publicKey == key;
      assert (ps + [peer])[i].publicKey == key;
    case Revoked(k) => WithoutKeepsKey(ps, k, key);
    case _ =>
  }

  lemma {:induction false} WithoutKeepsKey(ps: seq<Peer>, k: string, key: string)
    requires HasKey(ps, key) && k != key
    ensures HasKey(Without(ps, k), key)
  {
    var rest := Without(ps[1..], k);
    if ps[0].publicKey == key {
      assert ([ps[0]] + rest)[0].publicKey == key;
    } else {
      var i :| 0 <= i < |ps| && ps[i].publicKey == key;
      assert ps[1..][i - 1].publicKey == key;
      WithoutKeepsKey(ps[1..], k, key);
      var j :| 0 <= j < |rest| && rest[j].publicKey == key;
      assert ([ps[0]] + rest)[j + 1].publicKey == key && ([] + rest)[j].publicKey == key;
    }
  }

  /** An issued key stays in the file until it is revoked. */
  lemma {:induction false} KeyStays(lib: Library, h: seq<Entry>, k: nat)
    requires h != [] && Follows(lib, h) && Orderly(h) && h[0].result.Issued? && k < |h|
    requires NotRevoked(h, h[0].result.peer.publicKey)
    ensures HasKey(Base(h[k].after).peers, h[0].result.peer.publicKey)
  {
    hide EndOk, Base, HasKey;
    var key := h[0].result.peer.publicKey;
    EndPeers(lib, h[k].op, h[k].result, h[k].before, h[k].after);
    if k == 0 {
      LastHasKey(Base(h[0].before).peers, h[0].result.peer);
    } else {
      KeyStays(lib, h, k - 1);
      ApplyKeepsKey(Base(h[k].before).peers, h[k].result, key);
    }
  }

  lemma LastHasKey(ps: seq<Peer>, p: Peer)
    ensures HasKey(ps + [p], p.publicKey)
  {
    assert (ps + [p])[|ps|] == p;
  }

  /** So nothing but a revoke can name the key again. */
  lemma OnlyOthers(lib: Library, h: seq<Entry>)
    requires h != [] && Follows(lib, h) && Orderly(h) && h[0].result.Issued?
    requires NotRevoked(h, h[0].result.peer.publicKey)
    ensures Untouched(h[1..], h[0].result.peer.publicKey)
  {
    hide EndOk, Base, HasKey;
    var key := h[0].result.peer.publicKey;
    forall k | 0 < k < |h| ensures h[k].result.Issued? ==> h[k].result.peer.publicKey != key {
      KeyStays(lib, h, k - 1);
      if h[k].result.Issued? { IssuedPlan(lib, h[k].op, h[k].result, h[k].before, h[k].after); }
    }
  }

  lemma {:induction false} PeersFollow(lib: Library, h: seq<Entry>)
    requires h != [] && Follows(lib, h) && Orderly(h)
    ensures Base(h[|h| - 1].after).peers == Replay(Base(h[0].before).peers, h)
    ensures TrimTrailing(Base(h[|h| - 1].after).iface) == TrimTrailing(Base(h[0].before).iface)
  {
    hide EndOk, Base, Apply, TrimTrailing;
    var e := h[|h| - 1];
    EndPeers(lib, e.op, e.result, e.before, e.after);
    var init := h[..|h| - 1];
    if init != [] {
      assert forall k :: 0 <= k < |init| ==> init[k] == h[k];
      PeersFollow(lib, init);
    }
  }

  lemma {:induction false} RecordsFollow(lib: Library, h: seq<Entry>, k: nat)
    requires Follows(lib, h) && Orderly(h) && CodecFaithful(lib) && k < |h| && Records(lib, h[0].before).Some?
    ensures Records(lib, h[k].before).Some? && Records(lib, h[k].after).Some?
    ensures TableStep(Records(lib, h[k].before).value, h[k], Records(lib, h[k].after).value)
  {
    hide EndOk, TableStep, Records, CodecFaithful;
    if k > 0 { RecordsFollow(lib, h, k - 1); }
    EndTable(lib, h[k]);
  }

  /** The other records as the transactions went on, without this key's. */
  lemma OtherRecords(lib: Library, h: seq<Entry>, key: string) returns (ts: seq<T.Table>)
    requires h != [] && Follows(lib, h) && Orderly(h) && CodecFaithful(lib) && Records(lib, h[0].before).Some? && Untouched(h, key)
    ensures Records(lib, h[|h| - 1].after).Some?
    ensures Tables(ts, h) && ts[0] == T.Without(Records(lib, h[0].before).value, key)
    ensures ts[|h|] == T.Without(Records(lib, h[|h| - 1].after).value, key)
  {
    TableEnds(lib, h);
    hide EndOk, TableStep, Records, CodecFaithful, T.Without, Untouched, Orderly, Follows, TableAt, Tables;
    ts := seq(|h| + 1, k => T.Without(TableAt(lib, h, k), key));
    OtherTables(lib, h, key, ts);
    RecordsFollow(lib, h, |h| - 1);
  }

  lemma OtherTables(lib: Library, h: seq<Entry>, key: string, ts: seq<T.Table>)
    requires h != [] && Follows(lib, h) && Orderly(h) && CodecFaithful(lib) && Records(lib, h[0].before).Some? && Untouched(h, key)
    requires |ts| == |h| + 1 && forall k :: 0 <= k <= |h| ==> ts[k] == T.Without(TableAt(lib, h, k), key)
    ensures Tables(ts, h)
  {
    hide EndOk, TableStep, Records, CodecFaithful, T.Without, Untouched, Orderly, Follows, TableAt;
    forall k | 0 <= k < |h| ensures TableStep(ts[k], h[k], ts[k + 1]) { OtherStep(lib, h, k, key); }
  }

  lemma TableEnds(lib: Library, h: seq<Entry>)
    requires h != []
    ensures Records(lib, h[0].before).Some? ==> TableAt(lib, h, 0) == Records(lib, h[0].before).value
    ensures Records(lib, h[|h| - 1].after).Some? ==> TableAt(lib, h, |h|) == Records(lib, h[|h| - 1].after).value
  {
    hide Records;
  }

  /** The client records after the first k transactions. */
  function TableAt(lib: Library, h: seq<Entry>, k: int): T.Table
    requires h != []
  {
    var r := Records(lib, if 0 < k <= |h| then h[k - 1].after else h[0].before);
    if r.Some? then r.value else []
  }

  lemma OtherStep(lib: Library, h: seq<Entry>, k: nat, key: string)
    requires Follows(lib, h) && Orderly(h) && CodecFaithful(lib) && k < |h| && Records(lib, h[0].before).Some? && Untouched(h, key)
    ensures TableStep(T.Without(TableAt(lib, h, k), key), h[k], T.Without(TableAt(lib, h, k + 1), key))
  {
    hide EndOk, TableStep, Records, CodecFaithful, T.Without;
    RecordsFollow(lib, h, k);
    assert k > 0 ==> h[k].before == h[k - 1].after;
    StepWithout(TableAt(lib, h, k), h[k], TableAt(lib, h, k + 1), key);
  }

  /** A history that issues a key, and revokes it for the first time at its end. */
  ghost predicate IssuedToRevoked(lib: Library, h: seq<Entry>) {
    && |h| >= 2 && Follows(lib, h) && Orderly(h[..|h| - 1])
    && h[0].result.Issued? && h[|h| - 1].result == Revoked(h[0].result.peer.publicKey)
    && NotRevoked(h[..|h| - 1], h[0].result.peer.publicKey)
  }

  lemma InitOthers(lib: Library, h: seq<Entry>)
    requires IssuedToRevoked(lib, h)
    ensures Follows(lib, h[..|h| - 1]) && Orderly(h) && Untouched(h[1..|h| - 1], h[0].result.peer.publicKey)
    ensures !HasKey(Base(h[0].before).peers, h[0].result.peer.publicKey) && Records(lib, h[0].before).Some?
    ensures h == [h[0]] + h[1..|h| - 1] + [h[|h| - 1]]
  {
    hide EndOk, Base, HasKey;
    var init := h[..|h| - 1];
    assert forall k :: 0 <= k < |init| ==> h[k] == init[k];
    OnlyOthers(lib, init);
    assert init[1..] == h[1..|h| - 1];
    IssuedPlan(lib, h[0].op, h[0].result, h[0].before, h[0].after);
  }

  lemma UndonePeers(lib: Library, h: seq<Entry>)
    requires IssuedToRevoked(lib, h)
    ensures var ps := Replay(Base(h[0].before).peers, h[1..|h| - 1]);
            && Base(h[|h| - 1].after).peers == ps
            && h[|h| - 1].after.config == Some(Render(ConfigData(Base(h[0].before).iface, ps)))
  {
    hide EndOk, Base, HasKey, Replay, TrimTrailing, Render, Printable, Untouched, NotRevoked, Orderly, Without, T.Without;
    var e, key := h[|h| - 1], h[0].result.peer.publicKey;
    InitOthers(lib, h);
    PeersFollow(lib, h);
    PeersFollow(lib, h[..|h| - 1]);
    ReplayUndone(Base(h[0].before).peers, h[0], h[1..|h| - 1], e);
    EndPeers(lib, e.op, e.result, e.before, e.after);
    RevokedPlan(lib, e.op, e.result, e.before, e.after);
    var next :| e.after.config == Some(Render(next)) && Printable(next) && next.iface == Base(e.before).iface
                && next.peers == Without(Base(e.before).peers, e.result.key);
    assert e.before == h[|h| - 2].after;
    RenderTrimmed(next, ConfigData(Base(h[0].before).iface, Base(e.after).peers));
  }

  /** The client records as the transactions in between would have left them
      without the issue. */
  ghost predicate RecordsUndone(lib: Library, before: Snapshot, between: seq<Entry>, after: Snapshot, key: string) {
    && Records(lib, before).Some? && Records(lib, after).Some?
    && exists ts :: Tables(ts, between) && ts[|between|] == Records(lib, after).value
         && ts[0] == if T.HasClient(Records(lib, before).value, key) then T.Without(Records(lib, before).value, key)
                     else Records(lib, before).value
  }

  lemma UndoneRecords(lib: Library, h: seq<Entry>)
    requires IssuedToRevoked(lib, h) && CodecFaithful(lib)
    ensures RecordsUndone(lib, h[0].before, h[1..|h| - 1], h[|h| - 1].after, h[0].result.peer.publicKey)
  {
    hide EndOk, Records, CodecFaithful, Orderly, NotRevoked, Untouched, T.Without, T.AddOrUpdate, T.HasClient, HasKey, Base, FormatIPv4;
    var key, between := h[0].result.peer.publicKey, h[1..|h| - 1];
    InitOthers(lib, h);
    var t0 := Records(lib, h[0].before).value;
    RecordsFollow(lib, h, 0);
    RecordsFollow(lib, h, |h| - 1);
    var t1 := Records(lib, h[0].after).value;
    IssueStep(t0, h[0], t1);
    assert h[1].before == h[0].after;
    if |h| == 2 {
      var ts := [T.Without(t1, key)];
      assert Tables(ts, between) && ts[|between|] == Records(lib, h[1].after).value;
    } else {
      assert Follows(lib, between) by { assert forall k :: 0 <= k < |between| ==> between[k] == h[k + 1]; }
      assert Orderly(between) by { SubOrderly(h); }
      var ts := OtherRecords(lib, between, key);
      assert h[|h| - 1].before == h[|h| - 2].after;
      assert ts[|between|] == Records(lib, h[|h| - 1].after).value;
    }
  }

  lemma SubOrderly(h: seq<Entry>)
    requires Orderly(h) && |h| >= 2
    ensures Orderly(h[1..|h| - 1])
  {}

  lemma IssueStep(t: T.Table, e: Entry, t': T.Table)
    requires TableStep(t, e, t') && e.result.Issued?
    ensures T.Without(t', e.result.peer.publicKey) ==
              if T.HasClient(t, e.result.peer.publicKey) then T.Without(t, e.result.peer.publicKey) else t
  {
    hide T.AddOrUpdate, T.Without, T.HasClient, FormatIPv4;
    var key := e.result.peer.publicKey;
    var created :| t' == T.AddOrUpdate(t, key, e.op.name, FormatIPv4(e.result.ip) + "/32", created);
    T.AddThenRemove(t, key, e.op.name, FormatIPv4(e.result.ip) + "/32", created);
  }

  /** In every run, and whatever other transactions hold the lock in between,
      revoking an issued key leaves what the same history would have left had
      the key never been issued: the peers, the bytes of the configuration file
      and the client records. That nobody else can have issued the key before or
      in between follows from the grants themselves. */
  lemma RevokeUndoesIssue(lib: Library, ss: seq<Sys>, n: nat, i: nat, j: nat)
    requires Run(lib, ss) && n < |ss| && i < j < |ss[n].history| && CodecFaithful(lib)
    requires ss[n].history[i].result.Issued?
    requires ss[n].history[j].result == Revoked(ss[n].history[i].result.peer.publicKey)
    requires NotRevoked(ss[n].history[i..j], ss[n].history[i].result.peer.publicKey) && Orderly(ss[n].history[i..j])
    ensures var h := ss[n].history; var before, after := h[i].before, h[j].after;
            var between, key := h[i + 1..j], h[i].result.peer.publicKey;
            && Base(after).peers == Replay(Base(before).peers, between) && after.runtime == Base(after).peers
            && after.config == Some(Render(ConfigData(Base(before).iface, Replay(Base(before).peers, between))))
            && RecordsUndone(lib, before, between, after, key)
  {
    RunInv(lib, ss, n);
    HistoryLinked(lib, Snap(ss[0].w), ss[n]);
    RollbackExact(lib, ss, n, j);
    hide Run, EndOk, Base, Orderly, NotRevoked, Linked, HalfDone, LeftOver, CodecFaithful, RecordsUndone, Snap, Replay, Render, Records;
    UndoneIn(lib, Snap(ss[0].w), ss[n].history, i, j);
  }

  lemma UndoneIn(lib: Library, s0: Snapshot, h: seq<Entry>, i: nat, j: nat)
    requires Linked(lib, s0, h) && i < j < |h| && CodecFaithful(lib)
    requires h[i].result.Issued? && h[j].result == Revoked(h[i].result.peer.publicKey)
    requires NotRevoked(h[i..j], h[i].result.peer.publicKey) && Orderly(h[i..j])
    ensures var ps := Replay(Base(h[i].before).peers, h[i + 1..j]);
            Base(h[j].after).peers == ps && h[j].after.config == Some(Render(ConfigData(Base(h[i].before).iface, ps)))
    ensures RecordsUndone(lib, h[i].before, h[i + 1..j], h[j].after, h[i].result.peer.publicKey)
  {
    hide EndOk, Base, Orderly, NotRevoked, Linked, CodecFaithful, RecordsUndone, Replay, Render, Follows;
    LinkedFollows(lib, s0, h, i, j + 1);
    var part := h[i..j + 1];
    assert part[..|part| - 1] == h[i..j] && part[1..|part| - 1] == h[i + 1..j];
    assert part[0] == h[i] && part[|part| - 1] == h[j];
    UndonePeers(lib, part);
    UndoneRecords(lib, part);
  }

  lemma HistoryLinked(lib: Library, s0: Snapshot, s: Sys)
    requires Inv(lib, s0, s)
    ensures Linked(lib, s0, s.history)
  {
    hide Linked, FileGood, Exclusive, Reported, Progress, PskOk, SnapGood;
  }

  // ----- Addresses that the interface showed -----

  /** In an earlier step this process read the running interface, and this is
      what it showed. */
  ghost predicate ReadBy(lib: Library, ss: seq<Sys>, n: nat, p: nat, shown: seq<RuntimePeer>) {
    exists m: nat, ev :: m < n && n < |ss| && ReadAt(lib, ss, m, p, ev, shown)
  }

  ghost predicate ReadAt(lib: Library, ss: seq<Sys>, m: nat, p: nat, ev: Event, shown: seq<RuntimePeer>) {
    m + 1 < |ss| && p in ss[m].procs && ReadStep(lib, ss[m], p, ev, ss[m + 1], shown)
  }

  ghost predicate ReadStep(lib: Library, s: Sys, p: nat, ev: Event, s': Sys, shown: seq<RuntimePeer>)
    requires p in s.procs
  {
    s.procs[p].pc.ReadingRuntime? && ev.outcome.Done? && s' == Fire(lib, s, p, ev) && shown == ParseShow(ev.text).peers
  }

  lemma ReadLater(lib: Library, ss: seq<Sys>, n: nat, p: nat, shown: seq<RuntimePeer>)
    requires n + 1 < |ss| && ReadBy(lib, ss, n, p, shown)
    ensures ReadBy(lib, ss, n + 1, p, shown)
  {
    hide ReadAt;
  }

  lemma FireShown(lib: Library, s: Sys, q: nat, ev: Event, p: nat)
    requires q in s.procs && p in Fire(lib, s, q, ev).procs && ShownIn(Fire(lib, s, q, ev).procs[p].pc).Some?
    ensures p in s.procs
    ensures var shown := ShownIn(Fire(lib, s, q, ev).procs[p].pc);
            ShownIn(s.procs[p].pc) == shown || (p == q && ReadStep(lib, s, p, ev, Fire(lib, s, q, ev), shown.value))
  {
    NextShown(lib, q, s.procs[q].op, s.w, s.procs[q].pc, ev);
    hide Next, ShownIn, ParseShow;
  }

  lemma ShownStep(lib: Library, ss: seq<Sys>, n: nat, p: nat)
    requires n + 1 < |ss| && SysNext(lib, ss[n], ss[n + 1]) && p in ss[n + 1].procs && ShownIn(ss[n + 1].procs[p].pc).Some?
    ensures var shown := ShownIn(ss[n + 1].procs[p].pc);
            (p in ss[n].procs && ShownIn(ss[n].procs[p].pc) == shown) || ReadBy(lib, ss, n + 1, p, shown.value)
  {
    hide Fire, ReadStep, ParseShow;
    if q: nat, op :| q !in ss[n].procs && ss[n + 1] == ss[n].(procs := ss[n].procs[q := Proc(op, Starting)]) {
    } else if q: nat, ev :| q in ss[n].procs && EventOk(ss[n].procs[q].pc, ev) && ss[n + 1] == Fire(lib, ss[n], q, ev) {
      FireShown(lib, ss[n], q, ev, p);
      assert p == q && ShownIn(ss[n].procs[p].pc) != ShownIn(ss[n + 1].procs[p].pc) ==>
          ReadAt(lib, ss, n, p, ev, ShownIn(ss[n + 1].procs[p].pc).value);
    } else {
      var q: nat :| q in ss[n].procs && InCritical(ss[n].procs[q].pc) && ss[n + 1] == Die(ss[n], q);
    }
  }

  lemma {:induction false} ShownWasRead(lib: Library, ss: seq<Sys>, n: nat, p: nat)
    requires Run(lib, ss) && n < |ss| && p in ss[n].procs && ShownIn(ss[n].procs[p].pc).Some?
    ensures ReadBy(lib, ss, n, p, ShownIn(ss[n].procs[p].pc).value)
  {
    hide ShownIn, SysNext, ReadBy;
    if n > 0 {
      var i := n - 1;
      assert SysNext(lib, ss[i], ss[i + 1]);
      ShownStep(lib, ss, i, p);
      if p in ss[i].procs && ShownIn(ss[i].procs[p].pc) == ShownIn(ss[n].procs[p].pc) {
        ShownWasRead(lib, ss, i, p);
        ReadLater(lib, ss, i, p, ShownIn(ss[n].procs[p].pc).value);
      }
    }
  }

  lemma IssueNext(lib: Library, e: Entry)
    requires EndOk(lib, e.op, e.result, e.before, e.after) && e.result.Issued?
    ensures NextAddress(lib.v6, Base(e.before), e.result.shown, e.result.ip)
  {
    var plan := CommittedPlan(lib, e.op, e.result, e.before, e.after);
    hide EndOk, Base, HostPeer, NextAddress, Printable, ValidConfig, HasKey, T.AddOrUpdate, T.Without, FormatIPv4, Text.TrimSpace;
    assert e.op.Issue?;
  }

  lemma SparesShown(lib: Library, c: ConfigData, shown: seq<RuntimePeer>, ip: nat)
    requires NextAddress(lib.v6, c, shown, ip)
    ensures forall i, k :: 0 <= i < |shown| && 0 <= k < |shown[i].allowedIPs| ==> AllowedIPv4(lib.v6, shown[i].allowedIPs[k]) != Some(ip)
  {
    hide AllowedIPv4, Subnet, Network, Size;
  }

  /** In every run, an issued address is the next one that neither the server,
      nor the configuration at the lock, nor any peer that the interface showed
      when this transaction read it has written in an entry. */
  lemma IssueSparesShown(lib: Library, ss: seq<Sys>, n: nat, p: nat)
    requires Run(lib, ss) && n < |ss| && p in ss[n].procs && ss[n].procs[p].pc.Finished? && ss[n].procs[p].pc.result.Issued?
    ensures var r := ss[n].procs[p].pc.result;
            && ReadBy(lib, ss, n, p, r.shown)
            && (forall i, k :: 0 <= i < |r.shown| && 0 <= k < |r.shown[i].allowedIPs| ==>
                  AllowedIPv4(lib.v6, r.shown[i].allowedIPs[k]) != Some(r.ip))
            && exists i :: 0 <= i < |ss[n].history| && ss[n].history[i].proc == p && ss[n].history[i].result == r
                           && NextAddress(lib.v6, Base(ss[n].history[i].before), r.shown, r.ip)
  {
    ShownWasRead(lib, ss, n, p);
    ReportsAreHistory(lib, ss, n, p);
    RunInv(lib, ss, n);
    HistoryLinked(lib, Snap(ss[0].w), ss[n]);
    hide Run, Inv, EndOk, NextAddress, ReadBy, AllowedIPv4, Base;
    var h, r := ss[n].history, ss[n].procs[p].pc.result;
    var i :| 0 <= i < |h| && h[i].proc == p && h[i].result == r;
    IssueNext(lib, h[i]);
    SparesShown(lib, Base(h[i].before), r.shown, r.ip);
  }
}
