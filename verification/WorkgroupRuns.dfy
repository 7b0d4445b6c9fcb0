/** Runs of the whole machine that show its limits, each in every configuration with the lanes it needs:
    a racing access that is suppressed because it came after the release, or because epochs have ten bits,
    a synchronised one that is reported, and a racing one hidden by a read. */
module WorkgroupRuns {
  import opened Arith
  import opened ShadowWords
  import opened ShadowHistory
  import opened Workgroup
  import opened WorkgroupTheorems
  import P = ReleaseTable
  import PI = ReleaseTableInvariant
  import PT = ReleaseTableTheorems
  import PX = ReleaseTableExact
  import R = WorkgroupReleases
  import D = DetectorMachine
  import H = Handoff

  ghost function Start(cfg: Config): State {
    State(PX.Start(cfg.protocol),
          D.State(cfg.detector.initial, H.DeviceMatrix(PX.Start(cfg.protocol), cfg.detector.subgroups),
                  seq(cfg.detector.subgroups, g => 0), seq(|cfg.detector.group|, l => D.Ready), D.Running, 0, [], []),
          [], [])
  }

  lemma StartInit(cfg: Config)
    requires ValidConfig(cfg)
    ensures Init(cfg, Start(cfg))
  {
  }

  /** `t` can be reached, in a run that need not be disciplined. */
  ghost predicate Arrives(cfg: Config, s: State, t: State) {
    Inv(cfg, false, t) && exists n: nat :: Reaches(cfg, false, s, t, n)
  }

  lemma ArrivesAtStart(cfg: Config)
    requires ValidConfig(cfg)
    ensures Arrives(cfg, Start(cfg), Start(cfg))
  {
    StartInit(cfg);
    InitInv(cfg, false, Start(cfg));
    assert Reaches(cfg, false, Start(cfg), Start(cfg), 0);
  }

  lemma Further(cfg: Config, s: State, m: State, ev: Event)
    requires Arrives(cfg, s, m) && Enabled(cfg, m, ev)
    ensures Arrives(cfg, s, Step(cfg, m, ev))
  {
    hide Inv, Step, Enabled, Disciplined;
    var n: nat :| Reaches(cfg, false, s, m, n);
    StepKeeps(cfg, false, m, ev);
    assert Shape(cfg, m) by { InvShape(cfg, m); }
    assert Leads(cfg, false, m, ev, Step(cfg, m, ev));
    assert Reaches(cfg, false, s, Step(cfg, m, ev), n + 1);
  }

  lemma InvShape(cfg: Config, s: State)
    requires Inv(cfg, false, s)
    ensures Shape(cfg, s) && Checked(cfg, s) && Linked(cfg, s)
  {
  }

  /** No access in flight and no barrier under way. */
  ghost predicate Quiescent(s: State) {
    s.detector.phase == D.Running && forall l :: 0 <= l < |s.detector.lanes| ==> s.detector.lanes[l].Ready?
  }

  /** What only accesses change. */
  ghost predicate SameChecks(x: State, y: State) {
    && y.detector.history == x.detector.history && y.detector.verdicts == x.detector.verdicts
    && |y.detector.shadow| == |x.detector.shadow| && y.stamps == x.stamps && y.seen == x.seen
  }

  /** A barrier: every stored epoch advances on both sides. */
  lemma LiftBarrier(cfg: Config, s: State, x: State) returns (y: State)
    requires Arrives(cfg, s, x) && Quiescent(x) && P.Enabled(x.protocol, P.Barrier)
    ensures Arrives(cfg, s, y) && Quiescent(y) && SameChecks(x, y) && P.Shape(cfg.protocol, x.protocol)
    ensures y.protocol == P.Step(cfg.protocol, x.protocol, P.Barrier)
    ensures y.detector.barriers == x.detector.barriers + 1
  {
    hide Arrives;
    InvOf(cfg, s, x);
    Further(cfg, s, x, Close);
    y := Step(cfg, x, Close);
    while y.detector.phase.next < cfg.detector.stored
      invariant Arrives(cfg, s, y) && SameChecks(x, y) && y.protocol == x.protocol && Shape(cfg, y)
      invariant y.detector.phase.Closing? && y.detector.lanes == x.detector.lanes
      invariant y.detector.barriers == x.detector.barriers
      decreases cfg.detector.stored - y.detector.phase.next
    {
      Further(cfg, s, y, Advance);
      y := Step(cfg, y, Advance);
      InvOf(cfg, s, y);
    }
    Further(cfg, s, y, Advance);
    y := Step(cfg, y, Advance);
  }

  lemma InvOf(cfg: Config, s: State, x: State)
    requires Arrives(cfg, s, x)
    ensures Inv(cfg, false, x) && Shape(cfg, x) && Checked(cfg, x) && Linked(cfg, x)
  {
    InvShape(cfg, x);
  }

  /** While no access is in flight the protocol runs as it would alone. */
  lemma LiftStep(cfg: Config, s: State, x: State, ev: P.Event) returns (y: State)
    requires Arrives(cfg, s, x) && Quiescent(x) && P.Enabled(x.protocol, ev)
    ensures Arrives(cfg, s, y) && Quiescent(y) && SameChecks(x, y) && P.Shape(cfg.protocol, x.protocol)
    ensures y.protocol == P.Step(cfg.protocol, x.protocol, ev)
  {
    hide Arrives, P.Step;
    InvOf(cfg, s, x);
    if ev.Barrier? {
      y := LiftBarrier(cfg, s, x);
    } else {
      ThreadsFit(cfg, x, ev);
      Further(cfg, s, x, Atomic(ev));
      y := Step(cfg, x, Atomic(ev));
    }
  }

  lemma ThreadsFit(cfg: Config, x: State, ev: P.Event)
    requires Shape(cfg, x) && Quiescent(x) && P.Enabled(x.protocol, ev) && !ev.Barrier?
    ensures Enabled(cfg, x, Atomic(ev))
  {
  }

  lemma {:induction false} LiftRun(cfg: Config, s: State, x: State, evs: seq<P.Event>) returns (y: State)
    requires Arrives(cfg, s, x) && Quiescent(x) && P.Shape(cfg.protocol, x.protocol)
    requires PT.Runnable(cfg.protocol, x.protocol, evs)
    ensures Arrives(cfg, s, y) && Quiescent(y) && SameChecks(x, y)
    ensures y.protocol == PT.Run(cfg.protocol, x.protocol, evs)
    decreases |evs|
  {
    hide Arrives, Quiescent;
    y := x;
    if evs != [] {
      P.StepShape(cfg.protocol, x.protocol, evs[0]);
      y := LiftStep(cfg, s, x, evs[0]);
      y := LiftRun(cfg, s, y, evs[1..]);
    }
  }

  /** A 4-byte access of the first cell. */
  function Word(store: bool): Access { Access(0, 4, store, 0) }

  /** Lane l, otherwise idle, accesses the first cell: one touch, checked with the tokens of the moment. */
  lemma OneAccess(cfg: Config, s: State, x: State, l: nat, store: bool) returns (y: State)
    requires Arrives(cfg, s, x) && Quiescent(x) && 0 < |x.detector.shadow| && l < |cfg.detector.group|
    requires |x.protocol.threads| == |cfg.detector.group| && x.protocol.threads[l].Idle?
    ensures Arrives(cfg, s, y) && Quiescent(y) && y.protocol == x.protocol && y.detector.barriers == x.detector.barriers
    ensures |y.detector.shadow| == |x.detector.shadow|
    ensures y.detector.history == x.detector.history
        + [Touch(cfg.detector.group[l], x.detector.barriers, Word(store), 0)]
    ensures y.stamps == x.stamps + [|x.protocol.log|] && y.seen == x.seen + [|x.protocol.log|]
    ensures |y.detector.verdicts| == |x.detector.verdicts| + 1 && x.detector.verdicts <= y.detector.verdicts
    ensures y.detector.verdicts[|x.detector.verdicts|].touch == |x.detector.history|
    ensures y.detector.verdicts[|x.detector.verdicts|].tokens == H.DeviceMatrix(x.protocol, cfg.detector.subgroups)
  {
    hide Arrives;
    InvOf(cfg, s, x);
    var a := Word(store);
    Further(cfg, s, x, Begin(l, a));
    y := Step(cfg, x, Begin(l, a));
    InvOf(cfg, s, y);
    assert D.LaneInv(cfg.detector, y.detector, l);
    Further(cfg, s, y, Tick(l));
    y := Step(cfg, y, Tick(l));
    InvOf(cfg, s, y);
    Further(cfg, s, y, Tick(l));
    y := Step(cfg, y, Tick(l));
  }

  // ---------------------------------------------------------------- the verdict on two accesses

  /** Lanes of two subgroups, and a cell for them to meet in. */
  ghost predicate Pair(cfg: Config, a: nat, c: nat) {
    && ValidConfig(cfg) && 0 < |cfg.detector.initial| && a < |cfg.detector.group| && c < |cfg.detector.group|
    && cfg.detector.group[a] != cfg.detector.group[c]
  }

  /** The runs below are about something: a workgroup of three lanes has all the lanes they need. */
  lemma ThreeLanes() returns (cfg: Config)
    ensures ValidConfig(cfg) && 0 < |cfg.detector.initial|
    ensures PX.Cast(cfg.protocol, 0, 1, 2) && Pair(cfg, 0, 2)
  {
    cfg := Config(P.Config(1, 2, 2, [0, 0, 1], (k: P.Key) => 0), D.Config(1, 2, 2, [0, 0, 1], [0]));
  }

  lemma GroupsFit(cfg: Config, l: nat)
    requires ValidConfig(cfg) && l < |cfg.detector.group|
    ensures cfg.detector.group[l] < cfg.detector.subgroups <= OWNERS
  {
  }

  /** Two stores of one epoch by the two lanes: the second is reported unless the token covers the first. */
  lemma SecondStore(cfg: Config, t: State, a: nat, c: nat, token: nat, e: nat)
    requires Pair(cfg, a, c) && Checked(cfg, t) && |t.detector.history| == 2 && 2 == |t.detector.verdicts|
    requires t.detector.history[0] == Touch(cfg.detector.group[a], e, Word(true), 0)
    requires t.detector.history[1] == Touch(cfg.detector.group[c], e, Word(true), 0)
    requires t.detector.verdicts[1].touch == 1
    requires InMatrix(cfg.detector.subgroups, cfg.detector.group[c], cfg.detector.group[a])
    requires |t.detector.verdicts[1].tokens| == cfg.detector.subgroups * cfg.detector.subgroups
    requires t.detector.verdicts[1].tokens[cfg.detector.group[c] * cfg.detector.subgroups + cfg.detector.group[a]]
        == token
    ensures t.detector.verdicts[1].emitted <==> token < e % EPOCHS + 1
    ensures Races(t.detector.history[0], t.detector.history[1]) && Judges(t, 1, 0)
  {
    var history, v := t.detector.history, t.detector.verdicts[1];
    GroupsFit(cfg, a);
    GroupsFit(cfg, c);
    SmallOwner(cfg.detector.group[a]);
    SmallOwner(cfg.detector.group[c]);
    assert D.VerdictOk(cfg.detector, t.detector, v) && SeenOk(cfg, t, 1);
    assert Neighbours(history, 0, 1);
    NeighbourIsLastTouch(history, 0, 1);
  }

  /** Lane a has stored, and nobody else; lane c stores in the same epoch. */
  lemma StoreAfterStore(cfg: Config, s: State, x: State, a: nat, c: nat) returns (t: State)
    requires Pair(cfg, a, c) && Arrives(cfg, s, x) && Quiescent(x) && PX.AllIdle(x.protocol)
    requires x.detector.history == [Touch(cfg.detector.group[a], x.detector.barriers, Word(true), 0)]
    requires |x.detector.verdicts| == 1
    ensures Arrives(cfg, s, t) && Quiescent(t) && t.protocol == x.protocol && t.detector.barriers == x.detector.barriers
    ensures t.detector.history == x.detector.history
        + [Touch(cfg.detector.group[c], x.detector.barriers, Word(true), 0)]
    ensures t.stamps == x.stamps + [|x.protocol.log|] && t.seen == x.seen + [|x.protocol.log|] && |x.seen| == 1
    ensures |t.detector.verdicts| == 2 && t.detector.verdicts[1].touch == 1
    ensures Judges(t, 1, 0) && Races(t.detector.history[0], t.detector.history[1])
    ensures t.detector.verdicts[1].emitted
       <==> P.Token(x.protocol, cfg.detector.group[c], cfg.detector.group[a]) < x.detector.barriers % EPOCHS + 1
  {
    hide Arrives, Quiescent, Noted, D.Inv, P.Token;
    InvOf(cfg, s, x);
    t := OneAccess(cfg, s, x, c, true);
    InvOf(cfg, s, t);
    GroupsFit(cfg, a);
    GroupsFit(cfg, c);
    MatrixAt(x.protocol, cfg.detector.subgroups, cfg.detector.group[c], cfg.detector.group[a]);
    SecondStore(cfg, t, a, c, P.Token(x.protocol, cfg.detector.group[c], cfg.detector.group[a]), x.detector.barriers);
  }

  /** Two stores in a row from a quiescent state without history. */
  lemma TwoStores(cfg: Config, s: State, x: State, a: nat, c: nat) returns (t: State)
    requires Pair(cfg, a, c) && Arrives(cfg, s, x) && Quiescent(x) && PX.AllIdle(x.protocol)
    requires SameChecks(Start(cfg), x)
    ensures Arrives(cfg, s, t) && t.protocol == x.protocol
    ensures |t.detector.history| == 2 == |t.detector.verdicts|
    ensures t.detector.history[0].epoch == t.detector.history[1].epoch == x.detector.barriers
    ensures Judges(t, 1, 0) && Races(t.detector.history[0], t.detector.history[1])
    ensures t.detector.verdicts[1].emitted
       <==> P.Token(x.protocol, cfg.detector.group[c], cfg.detector.group[a]) < x.detector.barriers % EPOCHS + 1
  {
    hide Arrives, Quiescent, Noted, D.Inv, P.Token;
    InvOf(cfg, s, x);
    var y := OneAccess(cfg, s, x, a, true);
    t := StoreAfterStore(cfg, s, y, a, c);
  }

  /** Lane a releases, alone, in epoch 0. */
  lemma Released(cfg: Config, a: nat, c: nat) returns (x: State, evs: seq<P.Event>)
    requires Pair(cfg, a, c)
    ensures Arrives(cfg, Start(cfg), x) && Quiescent(x) && SameChecks(Start(cfg), x) && PX.AllIdle(x.protocol)
    ensures var k := PX.TheKey(cfg.protocol, a);
            && PX.Reaches(cfg.protocol, PX.Start(cfg.protocol), evs, x.protocol)
            && PX.OnlyKey(cfg.protocol, k, x.protocol)
            && x.protocol.log == [P.Recorded(k, 0), P.Published(k, 0)] && x.protocol.tokens == map[]
    ensures x.detector.barriers == 0
  {
    hide Arrives;
    ArrivesAtStart(cfg);
    StartInit(cfg);
    var p: P.State;
    evs, p := PX.ReleaseAlone(cfg.protocol, a);
    x := LiftRun(cfg, Start(cfg), Start(cfg), evs);
    InvOf(cfg, Start(cfg), x);
    assert x.protocol.epochs == PX.Start(cfg.protocol).epochs;
    GroupHasEpoch(cfg, x, a);
  }

  lemma GroupHasEpoch(cfg: Config, x: State, a: nat)
    requires Shape(cfg, x) && Linked(cfg, x) && a < |cfg.detector.group|
    ensures cfg.detector.group[a] < |x.protocol.epochs|
    ensures x.protocol.epochs[cfg.detector.group[a]] == x.detector.barriers
  {
  }

  /** Lane c acquires what lane a released, whatever accesses have been made meanwhile. */
  lemma Acquired(cfg: Config, a: nat, c: nat, x: State) returns (z: State)
    requires Pair(cfg, a, c) && Arrives(cfg, Start(cfg), x) && Quiescent(x) && PX.AllIdle(x.protocol)
    requires var k := PX.TheKey(cfg.protocol, a);
             && PX.OnlyKey(cfg.protocol, k, x.protocol) && x.protocol.tokens == map[]
             && x.protocol.log == [P.Recorded(k, 0), P.Published(k, 0)]
    ensures Arrives(cfg, Start(cfg), z) && Quiescent(z) && SameChecks(x, z) && PX.AllIdle(z.protocol)
    ensures z.protocol.epochs == x.protocol.epochs && z.detector.barriers == x.detector.barriers
    ensures P.Token(z.protocol, cfg.detector.group[c], cfg.detector.group[a]) == 1
    ensures x.protocol.log <= z.protocol.log && z.protocol.slots == x.protocol.slots
    ensures forall j :: 2 <= j < |z.protocol.log| ==> !z.protocol.log[j].Recorded?
  {
    hide Arrives, Quiescent, Noted, D.Inv;
    var k := PX.TheKey(cfg.protocol, a);
    InvOf(cfg, Start(cfg), x);
    assert PX.Reaches(cfg.protocol, x.protocol, [], x.protocol);
    var evs, p := PX.AcquireAlone(cfg.protocol, x.protocol, [], x.protocol, k, c);
    z := LiftRun(cfg, Start(cfg), x, evs);
    InvOf(cfg, Start(cfg), z);
    GroupHasEpoch(cfg, x, a);
    GroupHasEpoch(cfg, z, a);
    assert z.protocol.log[1] == x.protocol.log[1];
    AcquireServes(cfg, z, 1, |z.protocol.log| - 1);
  }

  lemma AcquireServes(cfg: Config, z: State, i: nat, j: nat)
    requires Inv(cfg, false, z) && i < |z.protocol.log| && j < |z.protocol.log| && Handoff(z.protocol.log, i, j)
    ensures 1 <= P.Token(z.protocol, z.protocol.log[j].consumer, z.protocol.log[i].key.producer)
  {
    assert PI.EntryOk(cfg.protocol, false, z.protocol, j);
    PT.RunPublishedInRange(cfg.protocol, false, z.protocol, i);
    assert PI.Served(false, z.protocol, z.protocol.log[j].consumer, z.protocol.log[i].key, z.protocol.log[j].begin);
  }

  /** Lane a releases and lane c acquires. */
  lemma ReleasedAndAcquired(cfg: Config, a: nat, c: nat) returns (z: State)
    requires Pair(cfg, a, c)
    ensures Arrives(cfg, Start(cfg), z) && Quiescent(z) && SameChecks(Start(cfg), z) && PX.AllIdle(z.protocol)
    ensures P.Token(z.protocol, cfg.detector.group[c], cfg.detector.group[a]) == 1 && z.detector.barriers == 0
  {
    hide Arrives, Quiescent;
    var x, evs := Released(cfg, a, c);
    z := Acquired(cfg, a, c, x);
  }

  // ---------------------------------------------------------------- suppressed, though unordered

  /** The touch of a store of the first cell by lane l in epoch 0. */
  ghost function StoreBy(cfg: Config, l: nat): Touch
    requires l < |cfg.detector.group|
  {
    Touch(cfg.detector.group[l], 0, Word(true), 0)
  }

  /** Lane a releases, then stores; lane c acquires, then stores. */
  lemma StoredAfterRelease(cfg: Config, a: nat, c: nat) returns (t: State)
    requires Pair(cfg, a, c)
    ensures Arrives(cfg, Start(cfg), t) && Quiescent(t) && PX.AllIdle(t.protocol) && t.detector.barriers == 0
    ensures Judges(t, 1, 0) && Races(t.detector.history[0], t.detector.history[1]) && t.detector.verdicts[1].touch == 1
    ensures t.detector.history == [StoreBy(cfg, a), StoreBy(cfg, c)]
    ensures var k, log := PX.TheKey(cfg.protocol, a), t.protocol.log;
            && PX.OnlyKey(cfg.protocol, k, t.protocol) && 2 <= |log|
            && log[0] == P.Recorded(k, 0) && log[1] == P.Published(k, 0)
            && (forall j :: 2 <= j < |log| ==> !log[j].Recorded?)
            && |t.stamps| == 2 && t.stamps[0] == 2 && t.seen[1] <= |log|
    ensures !t.detector.verdicts[1].emitted
  {
    hide Arrives, Quiescent, Judges, Races, Noted, D.Inv, P.Token;
    var x, evs := Released(cfg, a, c);
    InvOf(cfg, Start(cfg), x);
    var y := OneAccess(cfg, Start(cfg), x, a, true);
    var z := Acquired(cfg, a, c, y);
    assert z.protocol.log[0] == x.protocol.log[0] && z.protocol.log[1] == x.protocol.log[1];
    t := StoreAfterStore(cfg, Start(cfg), z, a, c);
  }

  /** A token covers a whole epoch of its producer: a store made after the release, and followed by none, is
      suppressed against a racing store of the acquiring subgroup. */
  lemma StoreAfterReleaseIsSuppressed(cfg: Config, a: nat, c: nat) returns (t: State)
    requires Pair(cfg, a, c)
    ensures Arrives(cfg, Start(cfg), t)
    ensures Judges(t, 1, 0) && Races(t.detector.history[0], t.detector.history[1]) && t.detector.verdicts[1].touch == 1
    ensures t.detector.history[0].epoch == t.detector.history[1].epoch
    ensures forall j :: 0 <= j < |t.protocol.log| && t.protocol.log[j].Recorded? ==> j < t.stamps[0]
    ensures !t.detector.verdicts[1].emitted
  {
    hide Arrives, Quiescent, Judges, Races, PX.OnlyKey;
    t := StoredAfterRelease(cfg, a, c);
  }

  /** If the subgroup has released the epoch of touch j, it has done so again after the touch. */
  ghost predicate ReleasedAfter(s: State, j: nat)
    requires j < |s.stamps| && j < |s.detector.history|
  {
    var log, t := s.protocol.log, s.detector.history[j];
    (exists r :: 0 <= r < |log| && R.ReleasesEpoch(log[r], t)) ==>
      exists r :: s.stamps[j] <= r < |log| && R.ReleasesEpoch(log[r], t)
  }

  /** Releasing again afterwards does not help: every touch may be followed by a release of its epoch, and yet
      a racing store is suppressed that no import justifies. What must not happen is a touch after any
      release of its epoch. */
  lemma ReleasingAgainJustifiesNothing(cfg: Config, a: nat, c: nat) returns (t: State)
    requires Pair(cfg, a, c)
    ensures Arrives(cfg, Start(cfg), t)
    ensures |t.detector.history| == 2 == |t.stamps| && ReleasedAfter(t, 0) && ReleasedAfter(t, 1)
    ensures Judges(t, 1, 0) && Races(t.detector.history[0], t.detector.history[1]) && !t.detector.verdicts[1].emitted
    ensures !R.Justified(t, 1, 0)
  {
    hide Arrives, Quiescent, Races, Noted, D.Inv, P.Token, PX.OnlyKey;
    var x := StoredAfterRelease(cfg, a, c);
    InvOf(cfg, Start(cfg), x);
    GroupHasEpoch(cfg, x, a);
    assert PX.Reaches(cfg.protocol, x.protocol, [], x.protocol);
    var evs, p := PX.ReleaseAgain(cfg.protocol, x.protocol, [], x.protocol, a);
    t := LiftRun(cfg, Start(cfg), x, evs);
    ReleasedTwice(cfg, a, c, x, t);
  }

  lemma ReleasedTwice(cfg: Config, a: nat, c: nat, x: State, t: State)
    requires Pair(cfg, a, c) && Judges(x, 1, 0) && SameChecks(x, t) && |x.stamps| == 2 && x.stamps[0] == 2
    requires x.detector.history == [StoreBy(cfg, a), StoreBy(cfg, c)]
    requires x.seen[1] <= |x.protocol.log| && cfg.protocol.group == cfg.detector.group
    requires var k, log := PX.TheKey(cfg.protocol, a), x.protocol.log;
             && 2 <= |log| && log[0] == P.Recorded(k, 0) && log[1] == P.Published(k, 0)
             && (forall j :: 2 <= j < |log| ==> !log[j].Recorded?)
             && t.protocol.log == log + [P.Recorded(k, 0), P.Published(k, 0)]
    ensures Judges(t, 1, 0) && ReleasedAfter(t, 0) && ReleasedAfter(t, 1) && !R.Justified(t, 1, 0)
  {
    var log, k := t.protocol.log, PX.TheKey(cfg.protocol, a);
    assert log[|x.protocol.log|] == P.Recorded(k, 0);
    forall r | 0 <= r < |log| && log[r].Recorded?
      ensures log[r] == P.Recorded(k, 0) && (r == 0 || |x.protocol.log| <= r)
    {
      if r < |x.protocol.log| { assert log[r] == x.protocol.log[r]; }
    }
    assert R.ReleasesEpoch(log[|x.protocol.log|], t.detector.history[0]);
  }

  lemma ManyBarriers(cfg: Config, s: State, x: State, n: nat) returns (y: State)
    requires Arrives(cfg, s, x) && Quiescent(x) && PX.AllIdle(x.protocol)
    ensures Arrives(cfg, s, y) && Quiescent(y) && SameChecks(x, y) && PX.AllIdle(y.protocol)
    ensures y.detector.barriers == x.detector.barriers + n
    ensures y.protocol.tokens == x.protocol.tokens && y.protocol.log == x.protocol.log
  {
    hide Arrives, Quiescent;
    y := x;
    var k := 0;
    while k < n
      invariant k <= n && Arrives(cfg, s, y) && Quiescent(y) && SameChecks(x, y) && PX.AllIdle(y.protocol)
      invariant y.detector.barriers == x.detector.barriers + k
      invariant y.protocol.tokens == x.protocol.tokens && y.protocol.log == x.protocol.log
    {
      y := LiftBarrier(cfg, s, y);
      k := k + 1;
    }
  }

  /** Ten bits of epoch: after an acquire of epoch 0, racing stores in epoch 1024 are suppressed, although
      nothing of that epoch, or of any after 0, was ever imported. */
  lemma WrappedEpochIsSuppressed(cfg: Config, a: nat, c: nat) returns (t: State)
    requires Pair(cfg, a, c)
    ensures Arrives(cfg, Start(cfg), t)
    ensures Judges(t, 1, 0) && Races(t.detector.history[0], t.detector.history[1])
    ensures t.detector.history[0].epoch == t.detector.history[1].epoch == 1024
    ensures !PT.ImportedAtLeast(t.protocol.log, cfg.detector.group[c], cfg.detector.group[a], 1)
    ensures !t.detector.verdicts[1].emitted
  {
    hide Arrives, Quiescent, Judges, Races, Noted, D.Inv, PI.TokenInv, PT.ImportsHeld, PT.ImportedAtLeast, Linked;
    var x := ReleasedAndAcquired(cfg, a, c);
    x := ManyBarriers(cfg, Start(cfg), x, 1024);
    t := TwoStores(cfg, Start(cfg), x, a, c);
    InvOf(cfg, Start(cfg), t);
    PT.TokenOfImports(t.protocol, cfg.detector.group[c], cfg.detector.group[a], 1);
  }

  // ---------------------------------------------------------------- reported, though ordered

  lemma StartIsQuiescent(cfg: Config)
    requires ValidConfig(cfg)
    ensures Quiescent(Start(cfg))
  {
  }

  /** Lane a armed a fence before a barrier and is filling in the older record. */
  lemma OlderClaimedHere(cfg: Config, a: nat, b: nat, c: nat) returns (x: State)
    requires ValidConfig(cfg) && PX.Cast(cfg.protocol, a, b, c)
    ensures Arrives(cfg, Start(cfg), x) && Quiescent(x) && SameChecks(Start(cfg), x)
    ensures PX.OlderClaimed(cfg.protocol, a, x.protocol) && x.detector.barriers == 1
  {
    hide Arrives, Quiescent;
    ArrivesAtStart(cfg);
    StartInit(cfg);
    InvOf(cfg, Start(cfg), Start(cfg));
    StartIsQuiescent(cfg);
    var evs, p := PX.OlderClaims(cfg.protocol, a, b, c);
    x := LiftRun(cfg, Start(cfg), Start(cfg), evs);
    InvOf(cfg, Start(cfg), x);
    GroupHasEpoch(cfg, x, a);
  }

  /** Lane b stores, then its release is lost on lane c. */
  lemma StoredThenLost(cfg: Config, a: nat, b: nat, c: nat) returns (z: State)
    requires ValidConfig(cfg) && 0 < |cfg.detector.initial| && PX.Cast(cfg.protocol, a, b, c)
    ensures Arrives(cfg, Start(cfg), z) && Quiescent(z) && PX.AllIdle(z.protocol) && z.detector.barriers == 1
    ensures z.detector.history == [Touch(cfg.detector.group[b], 1, Word(true), 0)] && z.stamps == [0]
    ensures |z.detector.verdicts| == 1
    ensures var log := z.protocol.log;
            && 4 < |log| && log[1] == P.Published(PX.TheKey(cfg.protocol, b), 1)
            && log[|log| - 1] == P.Acquired(cfg.detector.group[c], 100, 4)
    ensures P.Token(z.protocol, cfg.detector.group[c], cfg.detector.group[b]) <= 1
  {
    hide Arrives, Quiescent, Judges, Noted, D.Inv, P.Token;
    var x := OlderClaimedHere(cfg, a, b, c);
    InvOf(cfg, Start(cfg), x);
    var y := OneAccess(cfg, Start(cfg), x, b, true);
    assert PX.Reaches(cfg.protocol, x.protocol, [], x.protocol);
    var evs, p := PX.LatestIsLost(cfg.protocol, a, b, c, x.protocol, [], x.protocol);
    z := LiftRun(cfg, Start(cfg), y, evs);
    InvOf(cfg, Start(cfg), z);
    GroupHasEpoch(cfg, z, a);
  }

  /** In every configuration with two lanes in one subgroup, a lane in another and two slots, a synchronised
      access can be reported: lane b stores and then releases, lane c acquires after that release was
      published and then stores, but a fence that lane a had armed before the barrier has put an older
      record first. */
  lemma SynchronisedAccessIsReported(cfg: Config, a: nat, b: nat, c: nat) returns (t: State)
    requires ValidConfig(cfg) && 0 < |cfg.detector.initial| && PX.Cast(cfg.protocol, a, b, c)
    ensures Arrives(cfg, Start(cfg), t)
    ensures 0 < |t.protocol.log| && HandedOver(t, 1, 0, 1, |t.protocol.log| - 1)
    ensures 0 < |t.stamps| && t.stamps[0] == 0
    ensures t.detector.verdicts[1].emitted
  {
    hide Arrives, Quiescent, Judges, Noted, D.Inv, P.Token;
    var z := StoredThenLost(cfg, a, b, c);
    t := StoreAfterStore(cfg, Start(cfg), z, b, c);
  }

  // ---------------------------------------------------------------- hidden by a read

  /** Lane a stores and loads a cell and lane c loads it, in one epoch: store and last load race, and none of
      the three is reported. */
  lemma ReadHidesStore(cfg: Config, a: nat, c: nat) returns (t: State)
    requires Pair(cfg, a, c)
    ensures Arrives(cfg, Start(cfg), t)
    ensures |t.detector.history| == 3 == |t.detector.verdicts|
    ensures Races(t.detector.history[0], t.detector.history[2])
    ensures t.detector.history[0].cell == t.detector.history[2].cell
    ensures forall v :: v in t.detector.verdicts ==> !v.emitted
  {
    hide Arrives, Quiescent;
    ArrivesAtStart(cfg);
    StartIsQuiescent(cfg);
    InvOf(cfg, Start(cfg), Start(cfg));
    var x := OneAccess(cfg, Start(cfg), Start(cfg), a, true);
    var y := OneAccess(cfg, Start(cfg), x, a, false);
    t := OneAccess(cfg, Start(cfg), y, c, false);
    InvOf(cfg, Start(cfg), t);
    GroupsFit(cfg, a);
    GroupsFit(cfg, c);
    SmallOwner(cfg.detector.group[a]);
    SmallOwner(cfg.detector.group[c]);
    forall v | v in t.detector.verdicts ensures !v.emitted {
      HiddenVerdict(cfg, t, a, c, v);
    }
  }

  lemma HiddenVerdict(cfg: Config, t: State, a: nat, c: nat, v: D.Verdict)
    requires Pair(cfg, a, c) && Checked(cfg, t) && v in t.detector.verdicts
    requires cfg.detector.group[a] % OWNERS != cfg.detector.group[c] % OWNERS
    requires t.detector.history == [Touch(cfg.detector.group[a], 0, Word(true), 0),
                                    Touch(cfg.detector.group[a], 0, Word(false), 0),
                                    Touch(cfg.detector.group[c], 0, Word(false), 0)]
    ensures !v.emitted
  {
    var x :| 0 <= x < |t.detector.verdicts| && t.detector.verdicts[x] == v;
    assert D.VerdictOk(cfg.detector, t.detector, t.detector.verdicts[x]);
    ReadHidesWrite(cfg.detector.group[a], cfg.detector.group[c], 0, Word(true), Word(false), Word(false), 0, v.tokens,
                   cfg.detector.subgroups);
  }
}
