/** Programs with program order: each lane performs the accesses of an interval in a given order, each once,
    and comes to the barrier after the last. Lanes interleave arbitrarily. */
module ProgramOrder {
  import opened ShadowWords
  import opened ShadowHistory
  import D = DetectorMachine

  /** lane, interval -> the lane's accesses of the interval, in order */
  type Listing = (nat, nat) -> seq<Access>

  /** `counters[l]` is the number of accesses that lane l has begun in this interval. `origins[k]`
      (auxiliary) names the lane that made touch k, and the access by its index. */
  datatype Origin = Origin(lane: nat, index: nat)
  datatype State = State(d: D.State, counters: seq<nat>, origins: seq<Origin>)

  ghost predicate Shape(cfg: D.Config, x: State) {
    && D.Shape(cfg, x.d) && |x.counters| == |cfg.group| && |x.origins| == |x.d.history|
  }

  ghost predicate Enabled(cfg: D.Config, q: Listing, x: State, ev: D.Event)
    requires Shape(cfg, x)
  {
    && D.Enabled(x.d, ev)
    && match ev
       case Begin(l, a) => x.counters[l] < |q(l, x.d.barriers)| && a == q(l, x.d.barriers)[x.counters[l]]
       case Close => forall l :: 0 <= l < |x.counters| ==> x.counters[l] == |q(l, x.d.barriers)|
       case _ => true
  }

  ghost predicate Reopens(cfg: D.Config, x: State, ev: D.Event) {
    ev.Advance? && x.d.phase.Closing? && cfg.stored <= x.d.phase.next
  }

  /** The index of the access that a lane has begun last. */
  function Current(counter: nat): nat { if counter == 0 then 0 else counter - 1 }

  ghost function Step(cfg: D.Config, q: Listing, x: State, ev: D.Event): State
    requires Shape(cfg, x) && Enabled(cfg, q, x, ev)
  {
    var d := D.Step(cfg, x.d, ev);
    match ev
    case Begin(l, _) => x.(d := d, counters := x.counters[l := x.counters[l] + 1])
    case Tick(l) =>
      if x.d.lanes[l].Exchanging? then x.(d := d, origins := x.origins + [Origin(l, Current(x.counters[l]))])
      else x.(d := d)
    case Advance => if Reopens(cfg, x, ev) then x.(d := d, counters := seq(|cfg.group|, l => 0)) else x.(d := d)
    case _ => x.(d := d)
  }

  ghost function Start(cfg: D.Config, s: D.State): State { State(s, seq(|cfg.group|, l => 0), []) }

  /** `y` is reached from `x` in n steps. */
  ghost predicate Reaches(cfg: D.Config, q: Listing, x: State, y: State, n: nat)
    decreases n
  {
    if n == 0 then x == y
    else exists m, ev :: Reaches(cfg, q, x, m, n - 1) && Leads(cfg, q, m, ev, y)
  }

  ghost predicate Leads(cfg: D.Config, q: Listing, m: State, ev: D.Event, y: State) {
    Shape(cfg, m) && Enabled(cfg, q, m, ev) && y == Step(cfg, q, m, ev)
  }

  // ---------------------------------------------------------------- invariant

  /** Access i of the lane's interval covers the cell. */
  ghost predicate At(q: Listing, l: nat, e: nat, i: nat, c: nat) { i < |q(l, e)| && Covers(q(l, e)[i], c) }

  ghost predicate Made(x: State, l: nat, e: nat, i: nat, c: nat) {
    exists k :: 0 <= k < |x.origins| && k < |x.d.history| && MadeBy(x, k, l, e, i, c)
  }

  ghost predicate MadeBy(x: State, k: nat, l: nat, e: nat, i: nat, c: nat)
    requires k < |x.origins| && k < |x.d.history|
  {
    x.origins[k] == Origin(l, i) && x.d.history[k].epoch == e && x.d.history[k].cell == c
  }

  /** Lane l is on its way to a cell. */
  ghost predicate Ahead(x: State, l: nat, c: nat)
    requires l < |x.d.lanes|
  {
    match x.d.lanes[l]
    case Ready => false
    case Exchanging(_, _, cell) => cell <= c
    case Checking(_, _, cell, _, _) => cell < c
  }

  ghost predicate CounterOk(cfg: D.Config, q: Listing, x: State, l: nat)
    requires Shape(cfg, x) && l < |cfg.group|
  {
    && x.counters[l] <= |q(l, x.d.barriers)|
    && (!x.d.lanes[l].Ready? ==>
          0 < x.counters[l] && x.d.lanes[l].access == q(l, x.d.barriers)[x.counters[l] - 1]
          && x.d.lanes[l].epoch == x.d.barriers)
    && (x.d.phase.Closing? ==> x.counters[l] == |q(l, x.d.barriers)|)
  }

  ghost predicate OriginOk(cfg: D.Config, q: Listing, x: State, k: nat)
    requires Shape(cfg, x) && k < |x.origins|
  {
    var t, l, i := x.d.history[k], x.origins[k].lane, x.origins[k].index;
    && l < |cfg.group| && At(q, l, t.epoch, i, t.cell)
    && t.subgroup == cfg.group[l] && t.access == q(l, t.epoch)[i]
    && t.epoch <= x.d.barriers && (t.epoch == x.d.barriers ==> i < x.counters[l])
  }

  /** A lane's touches of one interval come in program order. */
  ghost predicate InOrder(x: State) {
    forall k1, k2 :: 0 <= k1 < k2 < |x.origins| && k2 < |x.d.history| ==>
      (x.origins[k1].lane == x.origins[k2].lane && x.d.history[k1].epoch == x.d.history[k2].epoch ==>
         x.origins[k1].index <= x.origins[k2].index)
  }

  /** What has been begun has touched its cells, up to where the lane is. */
  ghost predicate DoneOk(cfg: D.Config, q: Listing, x: State, l: nat, e: nat, i: nat, c: nat)
    requires Shape(cfg, x) && l < |cfg.group|
  {
    At(q, l, e, i, c) && (e < x.d.barriers || (e == x.d.barriers && i < x.counters[l])) ==>
      Made(x, l, e, i, c) || (e == x.d.barriers && i + 1 == x.counters[l] && Ahead(x, l, c))
  }

  ghost predicate Inv(cfg: D.Config, q: Listing, x: State) {
    && Shape(cfg, x) && D.Inv(cfg, x.d)
    && (forall l :: 0 <= l < |cfg.group| ==> CounterOk(cfg, q, x, l))
    && (forall k :: 0 <= k < |x.origins| ==> OriginOk(cfg, q, x, k))
    && InOrder(x)
    && (forall l: nat, e: nat, i: nat, c: nat :: l < |cfg.group| ==> DoneOk(cfg, q, x, l, e, i, c))
  }

  lemma MadeKept(x: State, y: State, l: nat, e: nat, i: nat, c: nat)
    requires Made(x, l, e, i, c) && x.origins <= y.origins && x.d.history <= y.d.history
    requires |x.origins| == |x.d.history|
    ensures Made(y, l, e, i, c)
  {
    var k :| 0 <= k < |x.origins| && k < |x.d.history| && MadeBy(x, k, l, e, i, c);
    assert MadeBy(y, k, l, e, i, c);
  }

  lemma BeginKeeps(cfg: D.Config, q: Listing, x: State, ev: D.Event)
    requires Inv(cfg, q, x) && Enabled(cfg, q, x, ev) && ev.Begin?
    ensures Inv(cfg, q, Step(cfg, q, x, ev))
  {
    hide D.Inv, Made;
    var y := Step(cfg, q, x, ev);
    D.StepKeeps(cfg, x.d, ev);
    BeginEpoch(cfg, x.d, ev);
    forall k | 0 <= k < |y.origins| ensures OriginOk(cfg, q, y, k) { assert OriginOk(cfg, q, x, k); }
    forall l | 0 <= l < |cfg.group| ensures CounterOk(cfg, q, y, l) { assert CounterOk(cfg, q, x, l); }
    forall l: nat, e: nat, i: nat, c: nat | l < |cfg.group| ensures DoneOk(cfg, q, y, l, e, i, c) {
      assert DoneOk(cfg, q, x, l, e, i, c);
      if Made(x, l, e, i, c) { MadeKept(x, y, l, e, i, c); }
    }
  }

  lemma BeginEpoch(cfg: D.Config, s: D.State, ev: D.Event)
    requires D.Inv(cfg, s) && D.Enabled(s, ev) && ev.Begin?
    ensures ev.l < |cfg.group| && D.Step(cfg, s, ev)
         == s.(lanes := s.lanes[ev.l := D.Exchanging(ev.access, s.barriers, FirstCell(ev.access))])
  {
  }

  lemma ExchangeKeeps(cfg: D.Config, q: Listing, x: State, l: nat)
    requires Inv(cfg, q, x) && l < |x.d.lanes| && x.d.lanes[l].Exchanging?
    ensures Inv(cfg, q, Step(cfg, q, x, D.Tick(l)))
  {
    hide D.Inv, Made;
    var y, k := Step(cfg, q, x, D.Tick(l)), |x.origins|;
    var e, cell := x.d.lanes[l].epoch, x.d.lanes[l].cell;
    D.StepKeeps(cfg, x.d, D.Tick(l));
    assert CounterOk(cfg, q, x, l);
    forall m | 0 <= m < |cfg.group| ensures CounterOk(cfg, q, y, m) { assert CounterOk(cfg, q, x, m); }
    forall j | 0 <= j < |y.origins| ensures OriginOk(cfg, q, y, j) {
      if j < k { assert OriginOk(cfg, q, x, j); }
    }
    forall j | 0 <= j < k && y.origins[j].lane == l && y.d.history[j].epoch == e
      ensures y.origins[j].index <= y.origins[k].index
    {
      assert OriginOk(cfg, q, x, j);
    }
    forall m: nat, d: nat, i: nat, c: nat | m < |cfg.group| ensures DoneOk(cfg, q, y, m, d, i, c) {
      assert DoneOk(cfg, q, x, m, d, i, c);
      if Made(x, m, d, i, c) {
        MadeKept(x, y, m, d, i, c);
      } else if m == l && c == cell && d == e && i + 1 == x.counters[l] {
        assert MadeBy(y, k, m, d, i, c);
        NewlyMade(y, k, m, d, i, c);
      }
    }
  }

  lemma NewlyMade(x: State, k: nat, l: nat, e: nat, i: nat, c: nat)
    requires k < |x.origins| && k < |x.d.history| && MadeBy(x, k, l, e, i, c)
    ensures Made(x, l, e, i, c)
  {
  }

  lemma CheckKeeps(cfg: D.Config, q: Listing, x: State, l: nat)
    requires Inv(cfg, q, x) && l < |x.d.lanes| && x.d.lanes[l].Checking?
    ensures Inv(cfg, q, Step(cfg, q, x, D.Tick(l)))
  {
    hide D.Inv, Made;
    var y := Step(cfg, q, x, D.Tick(l));
    D.StepKeeps(cfg, x.d, D.Tick(l));
    assert CounterOk(cfg, q, x, l);
    forall m | 0 <= m < |cfg.group| ensures CounterOk(cfg, q, y, m) { assert CounterOk(cfg, q, x, m); }
    forall k | 0 <= k < |y.origins| ensures OriginOk(cfg, q, y, k) { assert OriginOk(cfg, q, x, k); }
    forall m: nat, e: nat, i: nat, c: nat | m < |cfg.group| ensures DoneOk(cfg, q, y, m, e, i, c) {
      assert DoneOk(cfg, q, x, m, e, i, c);
      if Made(x, m, e, i, c) { MadeKept(x, y, m, e, i, c); }
    }
  }

  lemma OtherKeeps(cfg: D.Config, q: Listing, x: State, ev: D.Event)
    requires Inv(cfg, q, x) && Enabled(cfg, q, x, ev) && !ev.Begin? && !ev.Tick?
    ensures Inv(cfg, q, Step(cfg, q, x, ev))
  {
    hide Made;
    var y := Step(cfg, q, x, ev);
    D.StepKeeps(cfg, x.d, ev);
    forall l | 0 <= l < |cfg.group| ensures CounterOk(cfg, q, y, l) { assert CounterOk(cfg, q, x, l); }
    forall k | 0 <= k < |y.origins| ensures OriginOk(cfg, q, y, k) { assert OriginOk(cfg, q, x, k); }
    forall l: nat, e: nat, i: nat, c: nat | l < |cfg.group| ensures DoneOk(cfg, q, y, l, e, i, c) {
      assert DoneOk(cfg, q, x, l, e, i, c) && CounterOk(cfg, q, x, l);
      if Made(x, l, e, i, c) { MadeKept(x, y, l, e, i, c); }
    }
  }

  lemma StepKeeps(cfg: D.Config, q: Listing, x: State, ev: D.Event)
    requires Inv(cfg, q, x) && Enabled(cfg, q, x, ev)
    ensures Inv(cfg, q, Step(cfg, q, x, ev))
  {
    hide Inv, Step;
    match ev
    case Begin(_, _) => BeginKeeps(cfg, q, x, ev);
    case Tick(l) => if x.d.lanes[l].Exchanging? { ExchangeKeeps(cfg, q, x, l); } else { CheckKeeps(cfg, q, x, l); }
    case _ => OtherKeeps(cfg, q, x, ev);
  }

  lemma StartInv(cfg: D.Config, q: Listing, s: D.State)
    requires D.Init(cfg, s)
    ensures Inv(cfg, q, Start(cfg, s))
  {
  }

  lemma {:induction false} ReachesKeeps(cfg: D.Config, q: Listing, x: State, y: State, n: nat)
    requires Inv(cfg, q, x) && Reaches(cfg, q, x, y, n)
    ensures Inv(cfg, q, y)
    decreases n
  {
    hide Inv, Step, Enabled, Shape;
    if 0 < n {
      var m, ev :| Reaches(cfg, q, x, m, n - 1) && Leads(cfg, q, m, ev, y);
      ReachesKeeps(cfg, q, x, m, n - 1);
      StepKeeps(cfg, q, m, ev);
    }
  }

  // ---------------------------------------------------------------- clean programs are silent

  ghost predicate LastAt(q: Listing, l: nat, e: nat, i: nat, c: nat) {
    At(q, l, e, i, c) && forall k :: i < k < |q(l, e)| ==> !Covers(q(l, e)[k], c)
  }

  ghost predicate FirstAt(q: Listing, l: nat, e: nat, i: nat, c: nat) {
    At(q, l, e, i, c) && forall k :: 0 <= k < i ==> !Covers(q(l, e)[k], c)
  }

  ghost predicate TouchedBetween(group: seq<nat>, q: Listing, c: nat, e1: nat, e2: nat) {
    exists n: nat, e: nat, i: nat :: n < |group| && e1 < e < e2 && At(q, n, e, i, c)
  }

  ghost predicate OtherSubgroups(group: seq<nat>, l: nat, m: nat) {
    l < |group| && m < |group| && group[l] != group[m]
  }

  /** Access i of lane l in interval e1, access j of lane m in interval e2, and a cell. */
  datatype Clash = Clash(l: nat, m: nat, e1: nat, e2: nat, i: nat, j: nat, c: nat)

  /** In one interval: lane l stores what lane m of another subgroup accesses. */
  ghost predicate RacesWithin(group: seq<nat>, q: Listing, z: Clash) {
    && OtherSubgroups(group, z.l, z.m) && z.e1 == z.e2
    && At(q, z.l, z.e1, z.i, z.c) && At(q, z.m, z.e2, z.j, z.c) && q(z.l, z.e1)[z.i].store
  }

  /** A multiple of 1024 intervals apart, with no touch in between: the last access of the cell by lane l and
      the first one by lane m of another subgroup conflict. */
  ghost predicate RacesAcross(group: seq<nat>, q: Listing, z: Clash) {
    && OtherSubgroups(group, z.l, z.m) && z.e1 < z.e2 && (z.e2 - z.e1) % EPOCHS == 0
    && LastAt(q, z.l, z.e1, z.i, z.c) && FirstAt(q, z.m, z.e2, z.j, z.c)
    && (q(z.l, z.e1)[z.i].store || q(z.m, z.e2)[z.j].store)
    && !TouchedBetween(group, q, z.c, z.e1, z.e2)
  }

  ghost predicate IsRace(group: seq<nat>, q: Listing, z: Clash) { RacesWithin(group, q, z) || RacesAcross(group, q, z) }

  ghost predicate Clean(group: seq<nat>, q: Listing) { forall z: Clash :: !IsRace(group, q, z) }

  /** What comes earlier in program order has come earlier in the run. */
  lemma MadeBefore(cfg: D.Config, q: Listing, x: State, k: nat, i: nat)
    requires Inv(cfg, q, x) && k < |x.origins| && i < x.origins[k].index
    requires At(q, x.origins[k].lane, x.d.history[k].epoch, i, x.d.history[k].cell)
    ensures exists j :: 0 <= j < k && x.d.history[j].cell == x.d.history[k].cell
                     && x.d.history[j].epoch == x.d.history[k].epoch
  {
    hide D.Inv;
    var t, l := x.d.history[k], x.origins[k].lane;
    assert OriginOk(cfg, q, x, k) && DoneOk(cfg, q, x, l, t.epoch, i, t.cell);
    var j :| 0 <= j < |x.origins| && MadeBy(x, j, l, t.epoch, i, t.cell);
    assert j < k;
  }

  /** What comes later in an interval that is over has come later in the run. */
  lemma MadeAfter(cfg: D.Config, q: Listing, x: State, k: nat, i: nat)
    requires Inv(cfg, q, x) && k < |x.origins| && x.origins[k].index < i && x.d.history[k].epoch < x.d.barriers
    requires At(q, x.origins[k].lane, x.d.history[k].epoch, i, x.d.history[k].cell)
    ensures exists j :: k < j < |x.d.history| && x.d.history[j].cell == x.d.history[k].cell
                     && x.d.history[j].epoch == x.d.history[k].epoch
  {
    hide D.Inv;
    var t, l := x.d.history[k], x.origins[k].lane;
    assert OriginOk(cfg, q, x, k) && DoneOk(cfg, q, x, l, t.epoch, i, t.cell);
    var j :| 0 <= j < |x.origins| && MadeBy(x, j, l, t.epoch, i, t.cell);
    assert k < j;
  }

  lemma EpochsRise(cfg: D.Config, q: Listing, x: State, i: nat, j: nat)
    requires Inv(cfg, q, x) && i < |x.d.history| && j < |x.d.history|
    ensures x.d.history[i].epoch < x.d.history[j].epoch ==> i < j
    ensures x.d.history[i].epoch <= x.d.barriers
  {
  }

  /** Neighbouring touches in different intervals: the first is the last of its lane, the second the first of
      its lane, and nothing in between touches the cell. */
  lemma NeighboursAcross(cfg: D.Config, q: Listing, x: State, i: nat, j: nat)
    requires Inv(cfg, q, x) && Neighbours(x.d.history, i, j) && x.d.history[i].epoch < x.d.history[j].epoch
    ensures var s, t := x.d.history[i], x.d.history[j];
            && LastAt(q, x.origins[i].lane, s.epoch, x.origins[i].index, s.cell)
            && FirstAt(q, x.origins[j].lane, t.epoch, x.origins[j].index, t.cell)
            && !TouchedBetween(cfg.group, q, s.cell, s.epoch, t.epoch)
  {
    hide D.Inv;
    var s, t := x.d.history[i], x.d.history[j];
    assert OriginOk(cfg, q, x, i) && OriginOk(cfg, q, x, j);
    EpochsRise(cfg, q, x, i, j);
    EpochsRise(cfg, q, x, j, i);
    forall k | x.origins[i].index < k < |q(x.origins[i].lane, s.epoch)|
      ensures !Covers(q(x.origins[i].lane, s.epoch)[k], s.cell)
    {
      if Covers(q(x.origins[i].lane, s.epoch)[k], s.cell) {
        MadeAfter(cfg, q, x, i, k);
        var n :| i < n < |x.d.history| && x.d.history[n].cell == s.cell && x.d.history[n].epoch == s.epoch;
        EpochsRise(cfg, q, x, n, j);
      }
    }
    forall k | 0 <= k < x.origins[j].index ensures !Covers(q(x.origins[j].lane, t.epoch)[k], t.cell) {
      if Covers(q(x.origins[j].lane, t.epoch)[k], t.cell) {
        MadeBefore(cfg, q, x, j, k);
        var n :| 0 <= n < j && x.d.history[n].cell == t.cell && x.d.history[n].epoch == t.epoch;
        EpochsRise(cfg, q, x, i, n);
      }
    }
    if TouchedBetween(cfg.group, q, s.cell, s.epoch, t.epoch) {
      var n: nat, e: nat, k: nat :| n < |cfg.group| && s.epoch < e < t.epoch && At(q, n, e, k, s.cell);
      assert DoneOk(cfg, q, x, n, e, k, s.cell);
      var o :| 0 <= o < |x.origins| && MadeBy(x, o, n, e, k, s.cell);
      EpochsRise(cfg, q, x, i, o);
      EpochsRise(cfg, q, x, o, j);
    }
  }

  /** A clean program is never reported, in any interleaving and with any tokens. */
  lemma CleanIsSilent(cfg: D.Config, q: Listing, x: State)
    requires Inv(cfg, q, x) && Clean(cfg.group, q)
    ensures forall v :: v in x.d.verdicts ==> !v.emitted
  {
    hide D.Inv;
    forall v | v in x.d.verdicts && v.emitted ensures false {
      var a :| 0 <= a < |x.d.verdicts| && x.d.verdicts[a] == v;
      var i, j := D.EmittedPair(cfg, x.d, a);
      EmittedRaces(cfg, q, x, i, j, v.tokens);
    }
  }

  lemma EmittedRaces(cfg: D.Config, q: Listing, x: State, i: nat, j: nat, tokens: seq<nat>)
    requires Inv(cfg, q, x) && D.Conflict(cfg, x.d, i, j, tokens) && x.d.history[i].epoch <= x.d.history[j].epoch
    ensures !Clean(cfg.group, q)
  {
    hide D.Inv, Clean;
    var s, t, l, m := x.d.history[i], x.d.history[j], x.origins[i].lane, x.origins[j].lane;
    assert OriginOk(cfg, q, x, i) && OriginOk(cfg, q, x, j);
    if s.epoch < t.epoch {
      NeighboursAcross(cfg, q, x, i, j);
      Unclean(cfg.group, q, Clash(l, m, s.epoch, t.epoch, x.origins[i].index, x.origins[j].index, s.cell));
    } else if s.access.store {
      Unclean(cfg.group, q, Clash(l, m, s.epoch, s.epoch, x.origins[i].index, x.origins[j].index, s.cell));
    } else {
      Unclean(cfg.group, q, Clash(m, l, s.epoch, s.epoch, x.origins[j].index, x.origins[i].index, s.cell));
    }
  }

  lemma Unclean(group: seq<nat>, q: Listing, z: Clash)
    requires IsRace(group, q, z)
    ensures !Clean(group, q)
  {
  }
}
