/** Runs of a program in program order, built interval by interval, and what they prove: exactly which
    programs the detector never reports. */
module ProgramRuns {
  import opened ShadowWords
  import opened ShadowHistory
  import opened ProgramOrder
  import D = DetectorMachine

  ghost predicate AllReady(x: State) {
    x.d.phase.Running? && forall l :: 0 <= l < |x.d.lanes| ==> x.d.lanes[l].Ready?
  }

  /** `x` is reached by a run of the program that has raised no token. */
  ghost predicate Arrived(cfg: D.Config, q: Listing, s: D.State, x: State) {
    Inv(cfg, q, x) && x.d.tokens == s.tokens && exists n: nat :: Reaches(cfg, q, Start(cfg, s), x, n)
  }

  lemma ArrivedAtStart(cfg: D.Config, q: Listing, s: D.State)
    requires D.Init(cfg, s)
    ensures Arrived(cfg, q, s, Start(cfg, s)) && AllReady(Start(cfg, s)) && Opened(Start(cfg, s))
  {
    StartInv(cfg, q, s);
    assert Reaches(cfg, q, Start(cfg, s), Start(cfg, s), 0);
  }

  lemma InvOf(cfg: D.Config, q: Listing, s: D.State, x: State)
    requires Arrived(cfg, q, s, x)
    ensures Inv(cfg, q, x) && Shape(cfg, x) && D.Inv(cfg, x.d) && x.d.tokens == s.tokens
  {
  }

  lemma Further(cfg: D.Config, q: Listing, s: D.State, x: State, ev: D.Event)
    requires Arrived(cfg, q, s, x) && Enabled(cfg, q, x, ev) && !ev.Raise?
    ensures Arrived(cfg, q, s, Step(cfg, q, x, ev))
  {
    hide Inv, D.Step;
    InvOf(cfg, q, s, x);
    StepKeeps(cfg, q, x, ev);
    TokensKept(cfg, x.d, ev);
    var n: nat :| Reaches(cfg, q, Start(cfg, s), x, n);
    assert Leads(cfg, q, x, ev, Step(cfg, q, x, ev));
    assert Reaches(cfg, q, Start(cfg, s), Step(cfg, q, x, ev), n + 1);
  }

  lemma TokensKept(cfg: D.Config, s: D.State, ev: D.Event)
    requires D.Shape(cfg, s) && D.Enabled(s, ev) && !ev.Raise?
    ensures D.Step(cfg, s, ev).tokens == s.tokens
  {
  }

  // ---------------------------------------------------------------- one access

  /** The touches from `x` on have each been checked, in order, with the tokens of the moment. */
  ghost predicate CheckedFrom(x: D.State, y: D.State) {
    && x.history <= y.history && x.verdicts <= y.verdicts
    && |y.verdicts| - |x.verdicts| == |y.history| - |x.history|
    && forall k :: |x.verdicts| <= k < |y.verdicts| ==>
         y.verdicts[k].touch == |x.history| + k - |x.verdicts| && y.verdicts[k].tokens == x.tokens
  }

  lemma CheckedOn(x: D.State, y: D.State, z: D.State)
    requires CheckedFrom(x, y) && CheckedFrom(y, z) && y.tokens == x.tokens
    ensures CheckedFrom(x, z)
  {
    forall k | |x.verdicts| <= k < |z.verdicts|
      ensures z.verdicts[k].touch == |x.history| + k - |x.verdicts| && z.verdicts[k].tokens == x.tokens
    {
      if k < |y.verdicts| { assert z.verdicts[k] == y.verdicts[k]; }
    }
  }

  /** All touches from `x` on are those of one access. */
  ghost predicate AddsOf(x: State, y: State, l: nat, i: nat) {
    && x.origins <= y.origins
    && forall k :: |x.origins| <= k < |y.origins| ==> y.origins[k] == Origin(l, i)
  }

  /** Exchange and check of the cell that lane l has come to. */
  lemma OneCell(cfg: D.Config, q: Listing, s: D.State, x: State, l: nat) returns (y: State)
    requires Arrived(cfg, q, s, x) && l < |x.d.lanes| && x.d.lanes[l].Exchanging?
    ensures Arrived(cfg, q, s, y) && CheckedFrom(x.d, y.d) && y.counters == x.counters && |x.counters| == |x.d.lanes|
    ensures y.d.barriers == x.d.barriers && y.d.phase == x.d.phase && y.d.tokens == x.d.tokens
    ensures y.origins == x.origins + [Origin(l, Current(x.counters[l]))] && l < |cfg.group|
    ensures var a, e, c := x.d.lanes[l].access, x.d.lanes[l].epoch, x.d.lanes[l].cell;
            && Covers(a, c) && e == x.d.barriers && y.d.history == x.d.history + [Touch(cfg.group[l], e, a, c)]
            && y.d.lanes == x.d.lanes[l := if c < LastCell(a) then D.Exchanging(a, e, c + 1) else D.Ready]
  {
    hide Arrived;
    InvOf(cfg, q, s, x);
    assert D.LaneInv(cfg, x.d, l);
    Further(cfg, q, s, x, D.Tick(l));
    y := Step(cfg, q, x, D.Tick(l));
    InvOf(cfg, q, s, y);
    Further(cfg, q, s, y, D.Tick(l));
    y := Step(cfg, q, y, D.Tick(l));
    InvOf(cfg, q, s, y);
  }

  /** No access is empty or leaves the shadowed memory. */
  ghost predicate Fits(cfg: D.Config, q: Listing) {
    forall l: nat, e: nat, i: nat :: l < |cfg.group| && i < |q(l, e)| ==>
      0 < q(l, e)[i].bytes && LastCell(q(l, e)[i]) < |cfg.initial|
  }

  lemma BeginAccess(cfg: D.Config, q: Listing, s: D.State, x: State, l: nat) returns (y: State)
    requires Arrived(cfg, q, s, x) && AllReady(x) && Fits(cfg, q) && l < |cfg.group| == |x.counters|
    requires x.counters[l] < |q(l, x.d.barriers)|
    ensures Arrived(cfg, q, s, y) && |x.d.lanes| == |cfg.group|
    ensures var a := q(l, x.d.barriers)[x.counters[l]];
            && 0 < a.bytes
            && y == State(x.d.(lanes := x.d.lanes[l := D.Exchanging(a, x.d.barriers, FirstCell(a))]),
                          x.counters[l := x.counters[l] + 1], x.origins)
  {
    hide Arrived;
    InvOf(cfg, q, s, x);
    var ev := D.Begin(l, q(l, x.d.barriers)[x.counters[l]]);
    BeginEpoch(cfg, x.d, ev);
    Further(cfg, q, s, x, ev);
    y := Step(cfg, q, x, ev);
  }

  /** Lane l performs its next access from the first cell to the last. */
  lemma OneAccess(cfg: D.Config, q: Listing, s: D.State, x: State, l: nat) returns (y: State)
    requires Arrived(cfg, q, s, x) && AllReady(x) && Fits(cfg, q) && l < |cfg.group| == |x.counters|
    requires x.counters[l] < |q(l, x.d.barriers)|
    ensures Arrived(cfg, q, s, y) && AllReady(y) && CheckedFrom(x.d, y.d) && y.d.barriers == x.d.barriers
    ensures y.counters == x.counters[l := x.counters[l] + 1] && AddsOf(x, y, l, x.counters[l])
    ensures var a := q(l, x.d.barriers)[x.counters[l]];
            && 0 < a.bytes
            && y.d.history == x.d.history + TouchesOf(a, cfg.group[l], x.d.barriers, FirstCell(a), LastCell(a) + 1)
  {
    hide Arrived, Fits;
    var a := q(l, x.d.barriers)[x.counters[l]];
    y := BeginAccess(cfg, q, s, x, l);
    var c := FirstCell(a);
    while c <= LastCell(a)
      invariant FirstCell(a) <= c <= LastCell(a) + 1 && Arrived(cfg, q, s, y) && CheckedFrom(x.d, y.d)
      invariant y.d.barriers == x.d.barriers && y.d.phase == x.d.phase && y.d.tokens == x.d.tokens
      invariant y.counters == x.counters[l := x.counters[l] + 1] && AddsOf(x, y, l, x.counters[l])
      invariant y.d.lanes == x.d.lanes[l := if c <= LastCell(a) then D.Exchanging(a, x.d.barriers, c) else D.Ready]
      invariant y.d.history == x.d.history + TouchesOf(a, cfg.group[l], x.d.barriers, FirstCell(a), c)
    {
      var z := y;
      y := OneCell(cfg, q, s, z, l);
      CheckedOn(x.d, z.d, y.d);
      assert TouchesOf(a, cfg.group[l], x.d.barriers, FirstCell(a), c + 1)
          == TouchesOf(a, cfg.group[l], x.d.barriers, FirstCell(a), c) + [Touch(cfg.group[l], x.d.barriers, a, c)];
      c := c + 1;
    }
  }

  // ---------------------------------------------------------------- lanes and intervals

  /** More touches, all of this interval. */
  ghost predicate SameInterval(x: State, y: State) {
    && AllReady(y) && y.d.barriers == x.d.barriers && |y.counters| == |x.counters|
    && x.d.history <= y.d.history && x.origins <= y.origins
    && |y.origins| == |y.d.history| && |x.origins| == |x.d.history|
    && forall k :: |x.d.history| <= k < |y.d.history| ==> y.d.history[k].epoch == x.d.barriers
  }

  lemma OneInterval(x: State, y: State, a: Access, g: nat)
    requires AllReady(y) && y.d.barriers == x.d.barriers && |y.counters| == |x.counters| && x.origins <= y.origins
    requires |x.origins| == |x.d.history| && |y.origins| == |y.d.history| && 0 < a.bytes
    requires y.d.history == x.d.history + TouchesOf(a, g, x.d.barriers, FirstCell(a), LastCell(a) + 1)
    ensures SameInterval(x, y)
  {
  }

  lemma SameOn(x: State, y: State, z: State)
    requires SameInterval(x, y) && SameInterval(y, z)
    ensures SameInterval(x, z)
  {
    forall k | |x.d.history| <= k < |z.d.history| ensures z.d.history[k].epoch == x.d.barriers {
      if k < |y.d.history| { assert z.d.history[k] == y.d.history[k]; }
    }
  }

  /** Lane l has come to access `to`, and no other lane has moved. */
  ghost predicate RanLane(x: State, y: State, l: nat, to: nat) {
    && SameInterval(x, y) && l < |x.counters| && y.counters == x.counters[l := to]
    && forall k :: |x.origins| <= k < |y.origins| ==> y.origins[k].lane == l && y.origins[k].index < to
  }

  lemma RunLane(cfg: D.Config, q: Listing, s: D.State, x: State, l: nat, to: nat) returns (y: State)
    requires Arrived(cfg, q, s, x) && AllReady(x) && Fits(cfg, q) && l < |cfg.group| == |x.counters|
    requires x.counters[l] <= to <= |q(l, x.d.barriers)|
    ensures Arrived(cfg, q, s, y) && RanLane(x, y, l, to)
  {
    hide Arrived, Fits;
    InvOf(cfg, q, s, x);
    y := x;
    var n := x.counters[l];
    assert x.counters == x.counters[l := n];
    while n < to
      invariant n <= to && Arrived(cfg, q, s, y) && RanLane(x, y, l, n)
    {
      var z := y;
      y := OneAccess(cfg, q, s, z, l);
      InvOf(cfg, q, s, y);
      OneInterval(z, y, q(l, z.d.barriers)[n], cfg.group[l]);
      RanFurther(x, z, y, l);
      n := n + 1;
    }
  }

  lemma RanFurther(x: State, y: State, z: State, l: nat)
    requires l < |x.counters| && l < |y.counters| && RanLane(x, y, l, y.counters[l])
    requires SameInterval(y, z) && z.counters == y.counters[l := y.counters[l] + 1] && AddsOf(y, z, l, y.counters[l])
    ensures RanLane(x, z, l, z.counters[l])
  {
    SameOn(x, y, z);
    forall k | |x.origins| <= k < |z.origins| ensures z.origins[k].lane == l && z.origins[k].index < z.counters[l] {
      if k < |y.origins| { assert z.origins[k] == y.origins[k]; }
    }
  }

  ghost predicate Full(q: Listing, x: State, l: nat)
    requires l < |x.counters|
  {
    x.counters[l] == |q(l, x.d.barriers)|
  }

  /** Every lane but `except` comes to the end of its list. */
  lemma RunAllBut(cfg: D.Config, q: Listing, s: D.State, x: State, except: nat) returns (y: State)
    requires Arrived(cfg, q, s, x) && AllReady(x) && Fits(cfg, q)
    ensures Arrived(cfg, q, s, y) && SameInterval(x, y) && |y.counters| == |cfg.group|
    ensures forall l :: 0 <= l < |cfg.group| && l != except ==> Full(q, y, l)
    ensures except < |cfg.group| ==> y.counters[except] == x.counters[except]
  {
    hide Arrived, Fits;
    InvOf(cfg, q, s, x);
    y := x;
    var l := 0;
    while l < |cfg.group|
      invariant l <= |cfg.group| == |y.counters| && Arrived(cfg, q, s, y) && SameInterval(x, y)
      invariant forall m :: 0 <= m < l && m != except ==> Full(q, y, m)
      invariant except < |cfg.group| ==> y.counters[except] == x.counters[except]
    {
      if l != except {
        InvOf(cfg, q, s, y);
        assert CounterOk(cfg, q, y, l);
        var z := y;
        y := RunLane(cfg, q, s, z, l, |q(l, z.d.barriers)|);
        SameOn(x, z, y);
        forall m | 0 <= m < l + 1 && m != except ensures Full(q, y, m) {
          assert m != l ==> Full(q, z, m);
        }
      }
      l := l + 1;
    }
  }

  /** An interval has just begun. */
  ghost predicate Opened(x: State) { forall l :: 0 <= l < |x.counters| ==> x.counters[l] == 0 }

  /** A barrier after every lane has come to the end of its list. */
  lemma OneBarrier(cfg: D.Config, q: Listing, s: D.State, x: State) returns (y: State)
    requires Arrived(cfg, q, s, x) && AllReady(x) && |x.counters| == |cfg.group|
    requires forall l :: 0 <= l < |cfg.group| ==> Full(q, x, l)
    ensures Arrived(cfg, q, s, y) && AllReady(y) && Opened(y) && y.d.barriers == x.d.barriers + 1
    ensures y.d.history == x.d.history && y.d.verdicts == x.d.verdicts && y.origins == x.origins
  {
    hide Arrived, Inv, D.Inv;
    InvOf(cfg, q, s, x);
    forall l | 0 <= l < |x.counters| ensures x.counters[l] == |q(l, x.d.barriers)| { assert Full(q, x, l); }
    Further(cfg, q, s, x, D.Close);
    y := Step(cfg, q, x, D.Close);
    while y.d.phase.next < cfg.stored
      invariant Arrived(cfg, q, s, y) && Shape(cfg, y) && y.d.phase.Closing? && y.d.barriers == x.d.barriers
      invariant y.d.lanes == x.d.lanes && y.d.history == x.d.history && y.d.verdicts == x.d.verdicts
      invariant y.origins == x.origins
      decreases cfg.stored - y.d.phase.next
    {
      Further(cfg, q, s, y, D.Advance);
      y := Step(cfg, q, y, D.Advance);
      InvOf(cfg, q, s, y);
    }
    Further(cfg, q, s, y, D.Advance);
    y := Step(cfg, q, y, D.Advance);
  }

  /** From the beginning of an interval on to that of interval e. */
  lemma ToInterval(cfg: D.Config, q: Listing, s: D.State, x: State, e: nat) returns (y: State)
    requires Arrived(cfg, q, s, x) && AllReady(x) && Opened(x) && Fits(cfg, q) && x.d.barriers <= e
    ensures Arrived(cfg, q, s, y) && AllReady(y) && Opened(y) && y.d.barriers == e
    ensures x.d.history <= y.d.history && x.origins <= y.origins
    ensures forall k :: |x.d.history| <= k < |y.d.history| ==> x.d.barriers <= y.d.history[k].epoch < e
  {
    hide Arrived, Fits;
    y := x;
    while y.d.barriers < e
      invariant Arrived(cfg, q, s, y) && AllReady(y) && Opened(y) && x.d.barriers <= y.d.barriers <= e
      invariant x.d.history <= y.d.history && x.origins <= y.origins
      invariant forall k :: |x.d.history| <= k < |y.d.history| ==> x.d.barriers <= y.d.history[k].epoch < y.d.barriers
      decreases e - y.d.barriers
    {
      var z := y;
      y := RunAllBut(cfg, q, s, z, |cfg.group|);
      y := OneBarrier(cfg, q, s, y);
      assert forall k :: |x.d.history| <= k < |z.d.history| ==> y.d.history[k] == z.d.history[k];
    }
  }

  // ---------------------------------------------------------------- who touched a cell last

  ghost predicate TouchedLast(x: State, l: nat, e: nat, i: nat, c: nat) {
    var k := LastTouch(x.d.history, c);
    0 <= k < |x.origins| && MadeBy(x, k, l, e, i, c)
  }

  /** What lane l has yet to begin is not among the touches made so far. */
  lemma NotYet(cfg: D.Config, q: Listing, x: State, y: State, l: nat, i: nat)
    requires Inv(cfg, q, x) && l < |cfg.group| && x.counters[l] <= i
    requires x.d.history <= y.d.history && x.origins <= y.origins
    ensures forall k :: 0 <= k < |x.origins| ==> !(y.origins[k] == Origin(l, i) && y.d.history[k].epoch == x.d.barriers)
  {
    forall k | 0 <= k < |x.origins| ensures !(y.origins[k] == Origin(l, i) && y.d.history[k].epoch == x.d.barriers) {
      assert OriginOk(cfg, q, x, k) && y.origins[k] == x.origins[k] && y.d.history[k] == x.d.history[k];
    }
  }

  /** If lane l has just run past its access i and none of the later ones covers c, it has touched c last. */
  lemma RanLast(cfg: D.Config, q: Listing, x: State, y: State, l: nat, to: nat, i: nat, c: nat)
    requires Inv(cfg, q, x) && Inv(cfg, q, y) && RanLane(x, y, l, to) && l < |cfg.group| && x.counters[l] <= i < to
    requires At(q, l, x.d.barriers, i, c)
    requires forall k :: i < k < to && k < |q(l, x.d.barriers)| ==> !Covers(q(l, x.d.barriers)[k], c)
    ensures TouchedLast(y, l, x.d.barriers, i, c)
  {
    hide D.Inv;
    var e, k := x.d.barriers, LastTouch(y.d.history, c);
    assert DoneOk(cfg, q, y, l, e, i, c);
    var k0 :| 0 <= k0 < |y.origins| && MadeBy(y, k0, l, e, i, c);
    NotYet(cfg, q, x, y, l, i);
    assert |x.origins| <= k0 <= k;
    assert OriginOk(cfg, q, y, k);
  }

  /** Touches of other cells leave the last touch of a cell the last. */
  lemma StillLast(x: State, y: State, l: nat, e: nat, i: nat, c: nat)
    requires TouchedLast(x, l, e, i, c) && x.d.history <= y.d.history && x.origins <= y.origins
    requires forall k :: |x.d.history| <= k < |y.d.history| ==> y.d.history[k].cell != c
    ensures TouchedLast(y, l, e, i, c)
  {
    var k := LastTouch(x.d.history, c);
    forall n | k < n < |y.d.history| ensures y.d.history[n].cell != c {
      if n < |x.d.history| { assert y.d.history[n] == x.d.history[n]; }
    }
    assert y.d.history[k] == x.d.history[k];
    assert LastTouch(y.d.history, c) == k;
  }

  // ---------------------------------------------------------------- a clash is reported

  ghost predicate NoTokens(s: D.State) { forall i :: 0 <= i < |s.tokens| ==> s.tokens[i] == 0 }

  ghost predicate Reported(x: State) { exists v :: v in x.d.verdicts && v.emitted }

  lemma RacingWithoutTokens(cfg: D.Config, y: D.State, i: nat, k: nat)
    requires D.Inv(cfg, y) && cfg.subgroups <= OWNERS && k < |y.verdicts|
    requires forall t :: 0 <= t < |y.verdicts[k].tokens| ==> y.verdicts[k].tokens[t] == 0
    requires var j := y.verdicts[k].touch;
             && Neighbours(y.history, i, j) && y.history[i].subgroup != y.history[j].subgroup
             && y.history[i].subgroup in cfg.group && y.history[j].subgroup in cfg.group
             && (y.history[i].access.store || y.history[j].access.store)
             && y.history[i].epoch <= y.history[j].epoch && (y.history[j].epoch - y.history[i].epoch) % EPOCHS == 0
    ensures y.verdicts[k].emitted
  {
    var j := y.verdicts[k].touch;
    NeighbourIsLastTouch(y.history, i, j);
    D.SameResidue(y.history[i].epoch, y.history[j].epoch);
    SmallOwner(y.history[i].subgroup);
    SmallOwner(y.history[j].subgroup);
    assert D.VerdictOk(cfg, y, y.verdicts[k]);
  }

  /** The touch of c in an access, and the last touch of c before the access. */
  lemma BeforeInAccess(x: D.State, y: D.State, g: nat, e: nat, b: Access, c: nat)
    requires Covers(b, c) && 0 <= LastTouch(x.history, c)
    requires y.history == x.history + TouchesOf(b, g, e, FirstCell(b), LastCell(b) + 1)
    ensures var i, j := LastTouch(x.history, c), |x.history| + c - FirstCell(b);
            && Neighbours(y.history, i, j) && y.history[i] == x.history[i] && y.history[j] == Touch(g, e, b, c)
  {
    var i, j := LastTouch(x.history, c), |x.history| + c - FirstCell(b);
    assert y.history[j] == TouchesOf(b, g, e, FirstCell(b), LastCell(b) + 1)[c - FirstCell(b)];
    forall k | i < k < j ensures y.history[k].cell != c {
      if k < |x.history| {
        assert y.history[k] == x.history[k];
      } else {
        assert y.history[k] == TouchesOf(b, g, e, FirstCell(b), LastCell(b) + 1)[k - |x.history|];
      }
    }
  }

  /** What the two accesses need to be reported once lane l has touched the cell last. */
  ghost predicate Meets(group: seq<nat>, q: Listing, z: Clash) {
    && OtherSubgroups(group, z.l, z.m) && At(q, z.l, z.e1, z.i, z.c) && FirstAt(q, z.m, z.e2, z.j, z.c)
    && (q(z.l, z.e1)[z.i].store || q(z.m, z.e2)[z.j].store) && z.e1 <= z.e2 && (z.e2 - z.e1) % EPOCHS == 0
  }

  /** Lane m goes on to its first access of the cell, which lane l has touched last: it is reported. */
  lemma Meet(cfg: D.Config, q: Listing, s: D.State, x: State, z: Clash) returns (y: State)
    requires Arrived(cfg, q, s, x) && AllReady(x) && Fits(cfg, q) && |x.counters| == |cfg.group|
    requires NoTokens(s) && cfg.subgroups <= OWNERS && TouchedLast(x, z.l, z.e1, z.i, z.c)
    requires Meets(cfg.group, q, z) && z.e2 == x.d.barriers && x.counters[z.m] == 0
    ensures Arrived(cfg, q, s, y) && Reported(y)
  {
    hide Arrived, Fits, Inv, D.Inv, TouchedLast;
    var w := RunLane(cfg, q, s, x, z.m, z.j);
    InvOf(cfg, q, s, w);
    forall k | |x.d.history| <= k < |w.d.history| ensures w.d.history[k].cell != z.c {
      OtherCell(cfg, q, w, k, z.m, z.j, z.c);
    }
    StillLast(x, w, z.l, z.e1, z.i, z.c);
    y := OneAccess(cfg, q, s, w, z.m);
    InvOf(cfg, q, s, y);
    Met(cfg, q, w, y, z);
  }

  lemma OtherCell(cfg: D.Config, q: Listing, x: State, k: nat, m: nat, j: nat, c: nat)
    requires Inv(cfg, q, x) && k < |x.origins| && x.origins[k].lane == m && x.origins[k].index < j
    requires FirstAt(q, m, x.d.history[k].epoch, j, c)
    ensures x.d.history[k].cell != c
  {
    assert OriginOk(cfg, q, x, k);
  }

  lemma Met(cfg: D.Config, q: Listing, x: State, y: State, z: Clash)
    requires Inv(cfg, q, x) && D.Inv(cfg, y.d) && cfg.subgroups <= OWNERS && CheckedFrom(x.d, y.d) && NoTokens(x.d)
    requires TouchedLast(x, z.l, z.e1, z.i, z.c) && Meets(cfg.group, q, z) && z.e2 == x.d.barriers
    requires var b := q(z.m, z.e2)[z.j];
             y.d.history == x.d.history + TouchesOf(b, cfg.group[z.m], z.e2, FirstCell(b), LastCell(b) + 1)
    ensures Reported(y)
  {
    hide D.Inv;
    var b, k := q(z.m, z.e2)[z.j], LastTouch(x.d.history, z.c);
    assert OriginOk(cfg, q, x, k);
    BeforeInAccess(x.d, y.d, cfg.group[z.m], z.e2, b, z.c);
    var v := |x.d.verdicts| + z.c - FirstCell(b);
    assert y.d.verdicts[v].touch == |x.d.history| + z.c - FirstCell(b) && y.d.verdicts[v].tokens == x.d.tokens;
    RacingWithoutTokens(cfg, y.d, k, v);
    assert y.d.verdicts[v] in y.d.verdicts;
  }

  /** The lane's first access of a cell that it accesses. */
  lemma FirstOf(q: Listing, l: nat, e: nat, j: nat, c: nat) returns (f: nat)
    requires At(q, l, e, j, c)
    ensures FirstAt(q, l, e, f, c)
  {
    f := 0;
    while !Covers(q(l, e)[f], c)
      invariant f <= j && forall k :: 0 <= k < f ==> !Covers(q(l, e)[k], c)
      decreases j - f
    {
      f := f + 1;
    }
  }

  /** Lane l runs through its access i of interval e; no other lane has begun. */
  lemma RunThrough(cfg: D.Config, q: Listing, s: D.State, l: nat, e: nat, i: nat, c: nat) returns (y: State)
    requires D.Init(cfg, s) && Fits(cfg, q) && l < |cfg.group| && At(q, l, e, i, c)
    ensures Arrived(cfg, q, s, y) && AllReady(y) && y.d.barriers == e && TouchedLast(y, l, e, i, c)
    ensures |y.counters| == |cfg.group| && forall u :: 0 <= u < |cfg.group| && u != l ==> y.counters[u] == 0
  {
    ArrivedAtStart(cfg, q, s);
    hide Arrived, Fits, Inv, D.Inv, D.Init, TouchedLast, Covers;
    var x := ToInterval(cfg, q, s, Start(cfg, s), e);
    InvOf(cfg, q, s, x);
    y := RunLane(cfg, q, s, x, l, i + 1);
    InvOf(cfg, q, s, y);
    RanLast(cfg, q, x, y, l, i + 1, i, c);
  }

  /** Within an interval: lane l runs through its store, then lane m to its first access of the cell. */
  lemma WithinIsReported(cfg: D.Config, q: Listing, s: D.State, z: Clash) returns (y: State)
    requires D.Init(cfg, s) && NoTokens(s) && Fits(cfg, q) && cfg.subgroups <= OWNERS && RacesWithin(cfg.group, q, z)
    ensures Arrived(cfg, q, s, y) && Reported(y)
  {
    hide Arrived, Fits, Inv, D.Inv, D.Init, TouchedLast, Covers;
    var x := RunThrough(cfg, q, s, z.l, z.e1, z.i, z.c);
    var f := FirstOf(q, z.m, z.e2, z.j, z.c);
    y := Meet(cfg, q, s, x, z.(j := f));
  }

  /** Across intervals: all other lanes finish interval e1, lane l last; the intervals in between pass without
      touching the cell; and lane m runs to its first access of it. */
  lemma AcrossIsReported(cfg: D.Config, q: Listing, s: D.State, z: Clash) returns (y: State)
    requires D.Init(cfg, s) && NoTokens(s) && Fits(cfg, q) && cfg.subgroups <= OWNERS && RacesAcross(cfg.group, q, z)
    ensures Arrived(cfg, q, s, y) && Reported(y)
  {
    hide Arrived, Fits, Inv, D.Inv, TouchedLast, TouchedBetween;
    var x := TouchLast(cfg, q, s, z.l, z.e1, z.i, z.c);
    var w := OneBarrier(cfg, q, s, x);
    y := ToInterval(cfg, q, s, w, z.e2);
    InvOf(cfg, q, s, y);
    forall k | |x.d.history| <= k < |y.d.history| ensures y.d.history[k].cell != z.c {
      NotBetween(cfg, q, y, k, z.c, z.e1, z.e2);
    }
    StillLast(x, y, z.l, z.e1, z.i, z.c);
    y := Meet(cfg, q, s, y, z);
  }

  /** Interval e1 is over but for the barrier, and lane l was the last to touch c. */
  lemma TouchLast(cfg: D.Config, q: Listing, s: D.State, l: nat, e1: nat, i: nat, c: nat) returns (y: State)
    requires D.Init(cfg, s) && Fits(cfg, q) && l < |cfg.group| && LastAt(q, l, e1, i, c)
    ensures Arrived(cfg, q, s, y) && AllReady(y) && y.d.barriers == e1 && TouchedLast(y, l, e1, i, c)
    ensures |y.counters| == |cfg.group| && forall u :: 0 <= u < |cfg.group| ==> Full(q, y, u)
  {
    ArrivedAtStart(cfg, q, s);
    hide Arrived, Fits, Inv, D.Inv, D.Init, TouchedLast;
    var x := ToInterval(cfg, q, s, Start(cfg, s), e1);
    InvOf(cfg, q, s, x);
    y := RunLast(cfg, q, s, x, l, i, c);
  }

  /** All other lanes run to the end of their lists, then lane l. */
  lemma RunLast(cfg: D.Config, q: Listing, s: D.State, x: State, l: nat, i: nat, c: nat) returns (y: State)
    requires Arrived(cfg, q, s, x) && AllReady(x) && Opened(x) && Fits(cfg, q) && l < |cfg.group| == |x.counters|
    requires LastAt(q, l, x.d.barriers, i, c)
    ensures Arrived(cfg, q, s, y) && AllReady(y) && y.d.barriers == x.d.barriers
    ensures TouchedLast(y, l, x.d.barriers, i, c)
    ensures |y.counters| == |cfg.group| && forall u :: 0 <= u < |cfg.group| ==> Full(q, y, u)
  {
    hide Arrived, Fits, Inv, D.Inv, TouchedLast;
    var n := |q(l, x.d.barriers)|;
    var z := RunAllBut(cfg, q, s, x, l);
    InvOf(cfg, q, s, z);
    y := RunLane(cfg, q, s, z, l, n);
    InvOf(cfg, q, s, y);
    RanLast(cfg, q, z, y, l, n, i, c);
    forall u | 0 <= u < |cfg.group| ensures Full(q, y, u) {
      assert u != l ==> Full(q, z, u);
    }
  }

  lemma NotBetween(cfg: D.Config, q: Listing, x: State, k: nat, c: nat, e1: nat, e2: nat)
    requires Inv(cfg, q, x) && k < |x.origins| && k < |x.d.history| && e1 < x.d.history[k].epoch < e2
    requires !TouchedBetween(cfg.group, q, c, e1, e2)
    ensures x.d.history[k].cell != c
  {
    assert OriginOk(cfg, q, x, k);
  }

  // ---------------------------------------------------------------- exactly

  /** No run of the program is reported, whatever the interleaving. */
  ghost predicate NeverReported(cfg: D.Config, q: Listing, s: D.State) {
    forall x, n: nat :: Reaches(cfg, q, Start(cfg, s), x, n) ==> !Reported(x)
  }

  /** Without tokens the detector is silent on a program, in all its runs, exactly when the program is clean:
      no lane stores what a lane of another subgroup accesses in the same interval; and where two intervals a
      multiple of 1024 apart touch a cell that none in between touches, the last access by a lane and the
      first one by a lane of another subgroup are both loads. */
  lemma NeverReportedExactly(cfg: D.Config, q: Listing, s: D.State)
    requires D.Init(cfg, s) && NoTokens(s) && Fits(cfg, q) && cfg.subgroups <= OWNERS
    ensures NeverReported(cfg, q, s) <==> Clean(cfg.group, q)
  {
    if Clean(cfg.group, q) {
      CleanIsNeverReported(cfg, q, s);
    } else {
      var z :| IsRace(cfg.group, q, z);
      RaceIsReported(cfg, q, s, z);
    }
  }

  lemma CleanIsNeverReported(cfg: D.Config, q: Listing, s: D.State)
    requires D.Init(cfg, s) && Clean(cfg.group, q)
    ensures NeverReported(cfg, q, s)
  {
    hide D.Init, Clean, Inv;
    StartInv(cfg, q, s);
    forall x, n: nat | Reaches(cfg, q, Start(cfg, s), x, n) ensures !Reported(x) {
      ReachesKeeps(cfg, q, Start(cfg, s), x, n);
      CleanIsSilent(cfg, q, x);
    }
  }

  /** Whatever races is reported in some run. */
  lemma RaceIsReported(cfg: D.Config, q: Listing, s: D.State, z: Clash)
    requires D.Init(cfg, s) && NoTokens(s) && Fits(cfg, q) && cfg.subgroups <= OWNERS && IsRace(cfg.group, q, z)
    ensures exists x, n: nat :: Reaches(cfg, q, Start(cfg, s), x, n) && Reported(x)
  {
    hide D.Init, NoTokens, Fits, RacesWithin, RacesAcross, Inv, Reaches, Reported;
    var x: State;
    if RacesWithin(cfg.group, q, z) {
      x := WithinIsReported(cfg, q, s, z);
    } else {
      x := AcrossIsReported(cfg, q, s, z);
    }
    var n: nat :| Reaches(cfg, q, Start(cfg, s), x, n);
  }

  // ---------------------------------------------------------------- two small programs

  function Word(store: bool): Access { Access(0, 4, store, 0) }

  /** Lane 0 performs `first` in interval 0, lane 1 `second` in interval 1024. */
  function AcrossTheWrap(first: seq<Access>, second: seq<Access>): Listing {
    (l: nat, e: nat) => if l == 0 && e == 0 then first else if l == 1 && e == 1024 then second else []
  }

  /** Two lanes of two subgroups, one cell, no tokens. */
  ghost function SmallConfig(): D.Config { D.Config(1, 2, 2, [0, 1], [0]) }

  ghost function SmallState(): D.State { D.State([0], [], [0, 0], [D.Ready, D.Ready], D.Running, 0, [], []) }

  /** Epochs have ten bits: in some run of two stores by different subgroups with exactly 1024 barriers
      between them, the second is reported against the first. */
  lemma WrapIsReported() returns (x: State, n: nat, i: nat, j: nat)
    ensures Reaches(SmallConfig(), AcrossTheWrap([Word(true)], [Word(true)]), Start(SmallConfig(), SmallState()), x, n)
    ensures i < j < |x.d.history|
    ensures x.d.history[i] == Touch(0, 0, Word(true), 0) && x.d.history[j] == Touch(1, 1024, Word(true), 0)
    ensures exists v :: v in x.d.verdicts && v.touch == j && v.emitted
  {
    var cfg, q, s := SmallConfig(), AcrossTheWrap([Word(true)], [Word(true)]), SmallState();
    var z := StoresRace();
    hide Inv, SmallConfig, SmallState, AcrossTheWrap, RacesWithin, RacesAcross, Start, Reported;
    RaceIsReported(cfg, q, s, z);
    x, n :| Reaches(cfg, q, Start(cfg, s), x, n) && Reported(x);
    StartInv(cfg, q, s);
    ReachesKeeps(cfg, q, Start(cfg, s), x, n);
    i, j := ReportedTouches(cfg, q, x);
    WhichTouches(x, i, j);
  }

  lemma StoresRace() returns (z: Clash)
    ensures var cfg := SmallConfig();
            && RacesAcross(cfg.group, AcrossTheWrap([Word(true)], [Word(true)]), z)
            && D.Init(cfg, SmallState()) && NoTokens(SmallState()) && cfg.subgroups <= OWNERS
            && Fits(cfg, AcrossTheWrap([Word(true)], [Word(true)]))
  {
    z := Clash(0, 1, 0, 1024, 0, 0, 0);
    assert Covers(Word(true), 0);
  }

  lemma WhichTouches(x: State, i: nat, j: nat)
    requires Inv(SmallConfig(), AcrossTheWrap([Word(true)], [Word(true)]), x) && i < j < |x.d.history|
    requires x.d.history[i].subgroup != x.d.history[j].subgroup && x.d.history[i].epoch <= x.d.history[j].epoch
    ensures x.d.history[i] == Touch(0, 0, Word(true), 0) && x.d.history[j] == Touch(1, 1024, Word(true), 0)
  {
    hide D.Inv;
    var cfg, q := SmallConfig(), AcrossTheWrap([Word(true)], [Word(true)]);
    assert OriginOk(cfg, q, x, i) && OriginOk(cfg, q, x, j);
  }

  lemma ReportedTouches(cfg: D.Config, q: Listing, x: State) returns (i: nat, j: nat)
    requires Inv(cfg, q, x) && Reported(x)
    ensures i < j < |x.d.history| && x.d.history[i].subgroup != x.d.history[j].subgroup
    ensures x.d.history[i].epoch <= x.d.history[j].epoch
    ensures exists v :: v in x.d.verdicts && v.touch == j && v.emitted
  {
    var v :| v in x.d.verdicts && v.emitted;
    var a :| 0 <= a < |x.d.verdicts| && x.d.verdicts[a] == v;
    i, j := D.EmittedPair(cfg, x.d, a);
  }

  /** Program order matters: if the storing lane loads the cell again before the barrier, and the other lane
      loads it 1024 barriers later, the load hides the store in every run. */
  lemma LoadHidesStoreAcrossWrap()
    ensures NeverReported(SmallConfig(), AcrossTheWrap([Word(true), Word(false)], [Word(false)]), SmallState())
  {
    var cfg, q := SmallConfig(), AcrossTheWrap([Word(true), Word(false)], [Word(false)]);
    forall c ensures !LastAt(q, 0, 0, 0, c) {
      assert q(0, 0)[1] == Word(false) && (Covers(Word(true), c) <==> Covers(Word(false), c));
    }
    forall z: Clash ensures !IsRace(cfg.group, q, z) {
      assert !LastAt(q, 0, 0, 0, z.c);
    }
    CleanIsNeverReported(cfg, q, SmallState());
  }
}
