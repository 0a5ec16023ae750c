/**
 Consecutive steps of one transaction, and what they add up to when no other
 process touches the files, as is the case under the lock.
 */
module AgentRuns {
  import opened Wrappers
  import opened AwgConfig
  import opened AwgRuntime
  import opened AgentMachine

  /** The world and the point reached after these events. */
  ghost function Steps(lib: Library, me: nat, op: Op, w: World, pc: Pc, evs: seq<Event>): (World, Pc) {
    if evs == [] then (w, pc)
    else
      var (w1, pc1) := Steps(lib, me, op, w, pc, evs[..|evs| - 1]);
      Next(lib, me, op, w1, pc1, evs[|evs| - 1])
  }

  ghost predicate EventsOk(lib: Library, me: nat, op: Op, w: World, pc: Pc, evs: seq<Event>) {
    forall i :: 0 <= i < |evs| ==> EventOk(Steps(lib, me, op, w, pc, evs[..i]).1, evs[i])
  }

  /** The events take the transaction from one world and point to another. */
  ghost predicate Goes(lib: Library, me: nat, op: Op, w: World, pc: Pc, evs: seq<Event>, w': World, pc': Pc) {
    EventsOk(lib, me, op, w, pc, evs) && Steps(lib, me, op, w, pc, evs) == (w', pc')
  }

  lemma GoesOne(lib: Library, me: nat, op: Op, w: World, pc: Pc, ev: Event)
    requires EventOk(pc, ev)
    ensures var (w', pc') := Next(lib, me, op, w, pc, ev); Goes(lib, me, op, w, pc, [ev], w', pc')
  {
    hide Next, EventOk;
    assert [ev][..0] == [];
    assert Steps(lib, me, op, w, pc, []) == (w, pc);
  }

  lemma {:induction false} StepsAppend(lib: Library, me: nat, op: Op, w: World, pc: Pc, a: seq<Event>, b: seq<Event>)
    ensures var (w1, pc1) := Steps(lib, me, op, w, pc, a);
            Steps(lib, me, op, w, pc, a + b) == Steps(lib, me, op, w1, pc1, b)
  {
    hide Next;
    if b == [] {
      assert a + b == a;
    } else {
      assert (a + b)[..|a + b| - 1] == a + b[..|b| - 1];
      StepsAppend(lib, me, op, w, pc, a, b[..|b| - 1]);
    }
  }

  lemma GoesChain(lib: Library, me: nat, op: Op, w: World, pc: Pc, a: seq<Event>, w1: World, pc1: Pc, b: seq<Event>, w2: World, pc2: Pc)
    requires Goes(lib, me, op, w, pc, a, w1, pc1) && Goes(lib, me, op, w1, pc1, b, w2, pc2)
    ensures Goes(lib, me, op, w, pc, a + b, w2, pc2)
  {
    hide Steps, EventOk;
    StepsAppend(lib, me, op, w, pc, a, b);
    forall i | 0 <= i < |a + b| ensures EventOk(Steps(lib, me, op, w, pc, (a + b)[..i]).1, (a + b)[i]) {
      if i < |a| {
        assert (a + b)[..i] == a[..i];
      } else {
        assert (a + b)[..i] == a + b[..i - |a|];
        StepsAppend(lib, me, op, w, pc, a, b[..i - |a|]);
      }
    }
  }

  lemma GoesNext(lib: Library, me: nat, op: Op, w: World, pc: Pc, evs: seq<Event>, w1: World, pc1: Pc, ev: Event)
    requires Goes(lib, me, op, w, pc, evs, w1, pc1) && EventOk(pc1, ev)
    ensures var (w2, pc2) := Next(lib, me, op, w1, pc1, ev); Goes(lib, me, op, w, pc, evs + [ev], w2, pc2)
  {
    GoesOne(lib, me, op, w1, pc1, ev);
    hide Next, EventOk, Goes;
    var (w2, pc2) := Next(lib, me, op, w1, pc1, ev);
    GoesChain(lib, me, op, w, pc, evs, w1, pc1, [ev], w2, pc2);
  }

  /** While it holds the lock, a transaction is at one of its stages or over. */
  ghost predicate AtStage(lib: Library, w: World, op: Op, at: (World, Pc)) {
    at.1.Finished? || (InCritical(at.1) && Ready(lib, at.0, Snap(w)) && Stage(lib, at.0, Snap(w), op, at.1))
  }

  lemma OverSteps(lib: Library, me: nat, op: Op, w: World, pc: Pc, ev: Event)
    requires pc.Finished? || pc.Releasing?
    ensures Next(lib, me, op, w, pc, ev).1.Finished?
  {}

  lemma AtStageStep(lib: Library, me: nat, w: World, op: Op, at: (World, Pc), ev: Event)
    requires AtStage(lib, w, op, at) && EventOk(at.1, ev)
    ensures AtStage(lib, w, op, Next(lib, me, op, at.0, at.1, ev))
  {
    hide Next, Stage, Ready, EventOk;
    if at.1.Finished? || at.1.Releasing? {
      OverSteps(lib, me, op, at.0, at.1, ev);
    } else {
      StageStep(lib, me, at.0, Snap(w), op, at.1, ev);
      KeptFacts(lib, at.0, Snap(w), op, Next(lib, me, op, at.0, at.1, ev));
    }
  }

  lemma {:induction false} StepsStage(lib: Library, me: nat, op: Op, w: World, evs: seq<Event>)
    requires FileGood(lib, w) && PskOk(w) && EventsOk(lib, me, op, w, ReadingConfig, evs)
    ensures AtStage(lib, w, op, Steps(lib, me, op, w, ReadingConfig, evs))
  {
    hide FileGood, PskOk, Ready, Stage, Next, EventOk;
    if evs == [] {
      StartStage(lib, w, op);
    } else {
      hide AtStage;
      var init := evs[..|evs| - 1];
      assert forall i :: 0 <= i < |init| ==> init[i] == evs[i] && init[..i] == evs[..i];
      StepsStage(lib, me, op, w, init);
      assert EventOk(Steps(lib, me, op, w, ReadingConfig, evs[..|evs| - 1]).1, evs[|evs| - 1]);
      AtStageStep(lib, me, w, op, Steps(lib, me, op, w, ReadingConfig, init), evs[|evs| - 1]);
    }
  }

  lemma KeptFacts(lib: Library, w: World, o: Snapshot, op: Op, next: (World, Pc))
    requires StageKept(lib, w, o, op, next)
    ensures InCritical(next.1) && Ready(lib, next.0, o) && Stage(lib, next.0, o, op, next.1)
  {
    hide Ready, Stage;
  }

  lemma StartStage(lib: Library, w: World, op: Op)
    requires FileGood(lib, w) && PskOk(w)
    ensures Ready(lib, w, Snap(w)) && Stage(lib, w, Snap(w), op, ReadingConfig)
  {
    hide Good;
  }

  /** A transaction under the lock does what its report says. */
  lemma SoloEnd(lib: Library, me: nat, op: Op, w: World, evs: seq<Event>, w': World, r: Report)
    requires FileGood(lib, w) && PskOk(w) && Goes(lib, me, op, w, ReadingConfig, evs, w', Releasing(r))
    ensures EndOk(lib, op, r, Snap(w), Snap(w')) && FileGood(lib, w') && PskOk(w')
  {
    hide Next, Steps, FileGood, PskOk, EndOk;
    StepsStage(lib, me, op, w, evs);
  }

  // ----- What the interface showed -----

  /** The runtime peers that a transaction has read and works with. */
  function ShownIn(pc: Pc): Option<seq<RuntimePeer>> {
    match pc
    case GeneratingKey(_, _, shown) => Some(shown)
    case DerivingKey(_, _, shown) => Some(shown)
    case ReadingServerKey(_, _, shown, _, _) => Some(shown)
    case ReadingPsk(_, _, shown, _, _) => Some(shown)
    case Stating(plan) => ShownBy(plan.result)
    case BackingConfig(plan, _) => ShownBy(plan.result)
    case BackingTable(plan, _) => ShownBy(plan.result)
    case WritingConfig(plan, _) => ShownBy(plan.result)
    case WritingTable(plan, _) => ShownBy(plan.result)
    case Syncing(plan, _) => ShownBy(plan.result)
    case Verifying(plan, _) => ShownBy(plan.result)
    case Releasing(result) => ShownBy(result)
    case Finished(result) => ShownBy(result)
    case _ => None
  }

  function ShownBy(r: Report): Option<seq<RuntimePeer>> {
    if r.Issued? then Some(r.shown) else None
  }

  /** They are what the status printed when it was read, to the end. */
  lemma NextShown(lib: Library, me: nat, op: Op, w: World, pc: Pc, ev: Event)
    ensures var pc' := Next(lib, me, op, w, pc, ev).1;
            ShownIn(pc').Some? ==>
              || ShownIn(pc') == ShownIn(pc)
              || (pc.ReadingRuntime? && ev.outcome.Done? && ShownIn(pc').value == ParseShow(ev.text).peers)
  {
    hide Parse, ParseShow, ReadTrimmed, Verified;
  }
}
