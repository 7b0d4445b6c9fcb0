/** Which memory orders synchronise. Orders are spelled out; between the acts of a handoff every lane may do
    anything that the statement does not exclude. */
module AtomicOrders {
  import opened ReleaseTable
  import opened AtomicMap
  import opened FencePrograms
  import opened Arith

  /** The lanes of one workgroup share a table and a token matrix. */
  ghost predicate OneGroup(lanes: seq<Lane>, w: World) {
    && 0 < |lanes| && Fits(lanes, w) && |w.tokens| == lanes[0].subgroups * lanes[0].subgroups
    && forall l :: 0 <= l < |lanes| ==>
         lanes[l].capacity == lanes[0].capacity && lanes[l].subgroups == lanes[0].subgroups
  }

  ghost predicate IsEpoch(w: World, g: nat, e: nat) { e == if g < |w.epochs| then w.epochs[g] else 0 }

  /** Lane `l` stores, modifies or successfully exchanges at the address. */
  ghost predicate PublishesAt(act: Act, l: nat, address: nat) {
    match act
    case DoStore(m, a, _) => m == l && a == address
    case DoRmw(m, a, _) => m == l && a == address
    case DoExchange(m, a, exchanged, _, _) => m == l && a == address && exchanged
    case _ => false
  }

  ghost predicate ReleasesAt(act: Act, l: nat, address: nat) {
    && PublishesAt(act, l, address)
    && (if act.DoExchange? then act.success else act.order) in {ReleaseOrder, AcqRel, SeqCst}
  }

  /** Lane `l` loads, modifies or exchanges, successfully or not, at the address. */
  ghost predicate ReadsAt(act: Act, l: nat, address: nat) {
    match act
    case DoLoad(m, a, _) => m == l && a == address
    case DoRmw(m, a, _) => m == l && a == address
    case DoExchange(m, a, _, _, _) => m == l && a == address
    case _ => false
  }

  ghost predicate AcquiresAt(act: Act, l: nat, address: nat) {
    && ReadsAt(act, l, address)
    && (if !act.DoExchange? then act.order else if act.exchanged then act.success else act.failure)
       in {AcquireOrder, AcqRel, SeqCst}
  }

  /** A release of lane `l`: one releasing publication, or a releasing fence, anything in which the lane itself
      only loads and fails exchanges, and a publication of any order. */
  ghost predicate ReleaseActs(acts: seq<Act>, l: nat, address: nat) {
    var k := |acts| - 1;
    || (k == 0 && ReleasesAt(acts[0], l, address))
    || (0 < k && acts[0].DoFence? && acts[0].lane == l && acts[0].order in {ReleaseOrder, AcqRel, SeqCst}
        && OnlyReads(acts[1..k], l) && PublishesAt(acts[k], l, address))
  }

  ghost predicate OnlyReads(acts: seq<Act>, l: nat) {
    forall i :: 0 <= i < |acts| && !acts[i].DoBarrier? && acts[i].lane == l ==>
      acts[i].DoLoad? || (acts[i].DoExchange? && !acts[i].exchanged)
  }

  /** An acquire of lane `l`: one acquiring read, or a read of any order, anything in which the lane itself
      reads no other address, and an acquiring fence. */
  ghost predicate AcquireActs(acts: seq<Act>, l: nat, address: nat) {
    var k := |acts| - 1;
    || (k == 0 && AcquiresAt(acts[0], l, address))
    || (0 < k && ReadsAt(acts[0], l, address) && ReadsNoOther(acts[1..k], l, address)
        && acts[k].DoFence? && acts[k].lane == l && acts[k].order in {AcquireOrder, AcqRel, SeqCst})
  }

  ghost predicate ReadsNoOther(acts: seq<Act>, l: nat, address: nat) {
    forall i :: 0 <= i < |acts| && !acts[i].DoBarrier? && acts[i].lane == l ==>
      acts[i].DoFence? || acts[i].DoStore? || acts[i].address == address
  }

  // ---------------------------------------------------------------- nothing is taken back

  ghost predicate Grows(v: View, v': View) {
    && |v'.tokens| == |v.tokens| && (forall i :: 0 <= i < |v.tokens| ==> v.tokens[i] <= v'.tokens[i])
    && (forall k :: k in v.table ==> k in v'.table && v.table[k] <= v'.table[k])
    && |v'.epochs| == |v.epochs| && (forall g :: 0 <= g < |v.epochs| ==> v.epochs[g] <= v'.epochs[g])
  }

  lemma AcquireGrows(lane: Lane, v: View, address: nat)
    ensures Grows(v, AcquireAt(lane, v, address))
  {
  }

  lemma StoreGrows(lane: Lane, v: View, address: nat, order: Order)
    ensures Grows(v, StoreOp(lane, v, address, order))
  {
  }

  lemma LoadGrows(lane: Lane, v: View, address: nat, order: Order)
    ensures Grows(v, LoadOp(lane, v, address, order))
  {
    hide TokensAfterAcquire;
    AcquireGrows(lane, v, address);
  }

  lemma RmwGrows(lane: Lane, v: View, address: nat, order: Order)
    ensures Grows(v, RmwOp(lane, v, address, order))
  {
    hide StoreOp, LoadOp;
    StoreGrows(lane, v, address, order);
    LoadGrows(lane, StoreOp(lane, v, address, order), address, order);
  }

  lemma FenceGrows(lane: Lane, v: View, order: Order)
    ensures Grows(v, FenceOp(lane, v, order))
  {
    hide TokensAfterAcquire;
    var armed := if HasRelease(order) then v.(pending := EpochOf(v, lane.subgroup) + 1) else v;
    if v.observed.Some? { AcquireGrows(lane, armed, v.observed.value); }
  }

  lemma EffectGrows(lane: Lane, v: View, act: Act)
    ensures Grows(v, Effect(lane, v, act))
  {
    hide LoadOp, StoreOp, RmwOp, FenceOp;
    match act
    case DoLoad(_, a, order) => LoadGrows(lane, v, a, order);
    case DoStore(_, a, order) => StoreGrows(lane, v, a, order);
    case DoRmw(_, a, order) => RmwGrows(lane, v, a, order);
    case DoExchange(_, a, exchanged, success, failure) =>
      RmwGrows(lane, v, a, success);
      LoadGrows(lane, v, a, failure);
    case DoFence(_, order) => FenceGrows(lane, v, order);
    case DoBarrier =>
  }

  ghost predicate Later(w: World, w': World) {
    Grows(View(w.table, w.tokens, w.epochs, 0, None), View(w'.table, w'.tokens, w'.epochs, 0, None))
  }

  lemma ActGrows(lanes: seq<Lane>, w: World, act: Act)
    requires Fits(lanes, w) && ByLane(lanes, act) && 0 < |lanes|
    ensures Later(w, Do(lanes, w, act))
  {
    hide Effect;
    var l := if act.DoBarrier? then 0 else act.lane;
    EffectGrows(lanes[l], ViewOf(w, l), act);
  }

  lemma {:induction false} RunGrows(lanes: seq<Lane>, w: World, acts: seq<Act>)
    requires Fits(lanes, w) && Program(lanes, acts)
    ensures Later(w, RunActs(lanes, w, acts))
    decreases |acts|
  {
    hide Do;
    if acts != [] {
      ActGrows(lanes, w, acts[0]);
      RunGrows(lanes, Do(lanes, w, acts[0]), acts[1..]);
    }
  }

  // ---------------------------------------------------------------- the releasing side

  ghost predicate HasRoom(lanes: seq<Lane>, w: World, l: nat, address: nat)
    requires l < |lanes|
  {
    Key(address, lanes[l].subgroup) in w.table || |w.table| < lanes[l].capacity
  }

  ghost predicate Records(w: World, k: Key, e: nat) { k in w.table && e <= w.table[k] }

  lemma ReleaseRecords(lanes: seq<Lane>, w: World, act: Act, l: nat, address: nat, e: nat)
    requires Fits(lanes, w) && l < |lanes| && ReleasesAt(act, l, address) && HasRoom(lanes, w, l, address)
    requires IsEpoch(w, lanes[l].subgroup, e)
    ensures Records(Do(lanes, w, act), Key(address, lanes[l].subgroup), e)
  {
    hide TokensAfterAcquire;
  }

  /** A publication of any order publishes an armed fence's epoch, or a later one. */
  lemma PublicationRecords(lanes: seq<Lane>, w: World, act: Act, l: nat, address: nat, e: nat, now: nat)
    requires Fits(lanes, w) && l < |lanes| && PublishesAt(act, l, address) && HasRoom(lanes, w, l, address)
    requires w.pending[l] == e + 1 && IsEpoch(w, lanes[l].subgroup, now) && e <= now
    ensures Records(Do(lanes, w, act), Key(address, lanes[l].subgroup), e)
  {
    hide TokensAfterAcquire;
  }

  lemma FenceArmsEpoch(lanes: seq<Lane>, w: World, l: nat, order: Order, e: nat)
    requires Fits(lanes, w) && l < |lanes| && order in {ReleaseOrder, AcqRel, SeqCst}
    requires IsEpoch(w, lanes[l].subgroup, e)
    ensures Do(lanes, w, DoFence(l, order)).pending == w.pending[l := e + 1]
  {
    hide TokensAfterAcquire;
  }

  lemma ReadKeepsFence(lanes: seq<Lane>, w: World, act: Act, l: nat)
    requires Fits(lanes, w) && ByLane(lanes, act) && l < |lanes| && OnlyReads([act], l)
    ensures Do(lanes, w, act).pending[l] == w.pending[l]
  {
    hide TokensAfterAcquire, TableAfterRelease;
    assert [act][0] == act;
  }

  lemma {:induction false} ReadsKeepFence(lanes: seq<Lane>, w: World, acts: seq<Act>, l: nat)
    requires Fits(lanes, w) && Program(lanes, acts) && l < |lanes| && OnlyReads(acts, l)
    ensures RunActs(lanes, w, acts).pending[l] == w.pending[l]
    decreases |acts|
  {
    hide Do;
    if acts != [] {
      ReadKeepsFence(lanes, w, acts[0], l);
      ReadsKeepFence(lanes, Do(lanes, w, acts[0]), acts[1..], l);
    }
  }

  lemma RunLast(lanes: seq<Lane>, w: World, acts: seq<Act>)
    requires Fits(lanes, w) && Program(lanes, acts) && acts != []
    ensures var k := |acts| - 1;
            Program(lanes, acts[..k]) && ByLane(lanes, acts[k])
            && RunActs(lanes, w, acts) == Do(lanes, RunActs(lanes, w, acts[..k]), acts[k])
  {
    hide Do;
    var k := |acts| - 1;
    assert acts == acts[..k] + [acts[k]];
    RunConcat(lanes, w, acts[..k], [acts[k]]);
    RunOne(lanes, RunActs(lanes, w, acts[..k]), acts[k]);
  }

  lemma FirstThenReads(lanes: seq<Lane>, w: World, acts: seq<Act>)
    requires Fits(lanes, w) && Program(lanes, acts) && acts != []
    ensures ByLane(lanes, acts[0]) && Program(lanes, acts[1..])
    ensures RunActs(lanes, w, acts) == RunActs(lanes, Do(lanes, w, acts[0]), acts[1..])
  {
  }

  /** Whichever way it releases, the record holds the epoch of its first act, or a later one. */
  lemma ReleaseActsRecord(lanes: seq<Lane>, w: World, acts: seq<Act>, l: nat, address: nat, e: nat)
    requires Fits(lanes, w) && Program(lanes, acts) && l < |lanes| && ReleaseActs(acts, l, address)
    requires IsEpoch(w, lanes[l].subgroup, e)
    requires HasRoom(lanes, RunActs(lanes, w, acts[..|acts| - 1]), l, address)
    ensures Records(RunActs(lanes, w, acts), Key(address, lanes[l].subgroup), e)
  {
    hide Do, RunActs, ReleasesAt, PublishesAt;
    var k := |acts| - 1;
    var x := RunActs(lanes, w, acts[..k]);
    RunLast(lanes, w, acts);
    RunGrows(lanes, w, acts[..k]);
    if k == 0 {
      RunNone(lanes, w, acts[..0]);
      ReleaseRecords(lanes, w, acts[0], l, address, e);
    } else {
      FirstThenReads(lanes, w, acts[..k]);
      assert acts[..k][1..] == acts[1..k] && acts[..k][0] == acts[0];
      FenceArmsEpoch(lanes, w, l, acts[0].order, e);
      ReadsKeepFence(lanes, Do(lanes, w, acts[0]), acts[1..k], l);
      var g := lanes[l].subgroup;
      PublicationRecords(lanes, x, acts[k], l, address, e, if g < |x.epochs| then x.epochs[g] else 0);
    }
  }

  lemma RunNone(lanes: seq<Lane>, w: World, acts: seq<Act>)
    requires Fits(lanes, w) && Program(lanes, acts) && acts == []
    ensures RunActs(lanes, w, acts) == w
  {
  }

  // ---------------------------------------------------------------- the acquiring side

  /** Lane c's subgroup holds a token above epoch e of subgroup g. */
  ghost predicate Ordered(lanes: seq<Lane>, w: World, c: nat, g: nat, e: nat)
    requires c < |lanes|
  {
    var n := lanes[c].subgroups;
    0 <= lanes[c].subgroup * n + g < |w.tokens| && e + 1 <= w.tokens[lanes[c].subgroup * n + g]
  }

  ghost predicate MayImport(lanes: seq<Lane>, w: World, c: nat, g: nat) {
    && c < |lanes| && Fits(lanes, w) && lanes[c].subgroup < lanes[c].subgroups && g < lanes[c].subgroups
    && g != lanes[c].subgroup && |w.tokens| == lanes[c].subgroups * lanes[c].subgroups
  }

  lemma AcquireRaises(lane: Lane, v: View, address: nat, g: nat, e: nat)
    requires lane.subgroup < lane.subgroups && g < lane.subgroups && g != lane.subgroup
    requires |v.tokens| == lane.subgroups * lane.subgroups
    requires Key(address, g) in v.table && e <= v.table[Key(address, g)]
    ensures var i := lane.subgroup * lane.subgroups + g;
            0 <= i < |v.tokens| && e + 1 <= AcquireAt(lane, v, address).tokens[i]
    ensures |AcquireAt(lane, v, address).tokens| == |v.tokens|
  {
    RowColumn(lane.subgroups, lane.subgroup, g);
  }

  lemma AcquireImports(lanes: seq<Lane>, w: World, act: Act, c: nat, address: nat, g: nat, e: nat)
    requires MayImport(lanes, w, c, g) && AcquiresAt(act, c, address) && Records(w, Key(address, g), e)
    ensures Ordered(lanes, Do(lanes, w, act), c, g, e)
  {
    hide AcquireAt;
    var lane, v := lanes[c], ViewOf(w, c);
    var order := if act.DoExchange? then act.success else act.order;
    StoreGrows(lane, v, address, order);
    AcquireRaises(lane, v, address, g, e);
    AcquireRaises(lane, StoreOp(lane, v, address, order), address, g, e);
  }

  lemma FenceImports(lanes: seq<Lane>, w: World, order: Order, c: nat, address: nat, g: nat, e: nat)
    requires MayImport(lanes, w, c, g) && order in {AcquireOrder, AcqRel, SeqCst}
    requires w.observed[c] == Some(address) && Records(w, Key(address, g), e)
    ensures Ordered(lanes, Do(lanes, w, DoFence(c, order)), c, g, e)
  {
    RowColumn(lanes[c].subgroups, lanes[c].subgroup, g);
  }

  lemma ReadObserves(lanes: seq<Lane>, w: World, act: Act, l: nat, address: nat)
    requires Fits(lanes, w) && l < |lanes| && ReadsAt(act, l, address)
    ensures Do(lanes, w, act).observed[l] == Some(address)
  {
    hide TokensAfterAcquire, TableAfterRelease;
  }

  lemma ActKeepsObserved(lanes: seq<Lane>, w: World, act: Act, l: nat, address: nat)
    requires Fits(lanes, w) && ByLane(lanes, act) && l < |lanes| && ReadsNoOther([act], l, address)
    requires w.observed[l] == Some(address)
    ensures Do(lanes, w, act).observed[l] == Some(address)
  {
    hide TokensAfterAcquire, TableAfterRelease;
    assert [act][0] == act;
  }

  lemma {:induction false} ActsKeepObserved(lanes: seq<Lane>, w: World, acts: seq<Act>, l: nat, address: nat)
    requires Fits(lanes, w) && Program(lanes, acts) && l < |lanes| && ReadsNoOther(acts, l, address)
    requires w.observed[l] == Some(address)
    ensures RunActs(lanes, w, acts).observed[l] == Some(address)
    decreases |acts|
  {
    hide Do;
    if acts != [] {
      ActKeepsObserved(lanes, w, acts[0], l, address);
      ActsKeepObserved(lanes, Do(lanes, w, acts[0]), acts[1..], l, address);
    }
  }

  lemma AcquireActsImport(lanes: seq<Lane>, w: World, acts: seq<Act>, c: nat, address: nat, g: nat, e: nat)
    requires MayImport(lanes, w, c, g) && Program(lanes, acts) && AcquireActs(acts, c, address)
    requires Records(w, Key(address, g), e)
    ensures Ordered(lanes, RunActs(lanes, w, acts), c, g, e)
  {
    hide Do, RunActs, AcquiresAt, ReadsAt, Ordered;
    var k := |acts| - 1;
    var x := RunActs(lanes, w, acts[..k]);
    RunLast(lanes, w, acts);
    RunGrows(lanes, w, acts[..k]);
    if k == 0 {
      RunNone(lanes, w, acts[..0]);
      AcquireImports(lanes, w, acts[0], c, address, g, e);
    } else {
      FirstThenReads(lanes, w, acts[..k]);
      assert acts[..k][1..] == acts[1..k] && acts[..k][0] == acts[0];
      ReadObserves(lanes, w, acts[0], c, address);
      ActsKeepObserved(lanes, Do(lanes, w, acts[0]), acts[1..k], c, address);
      FenceImports(lanes, x, acts[k].order, c, address, g, e);
    }
  }

  // ---------------------------------------------------------------- the handoff

  /** What lane p releases on an address, by an operation or by a fence and a later publication, with any of
      release, acq_rel and seq_cst, a later acquire of it by lane c, an operation or a fence after a read, with
      any of acquire, acq_rel and seq_cst, turns into a token above p's epoch; and it stays so, whatever
      all lanes do between and afterwards. */
  lemma OrdersHandOver(lanes: seq<Lane>, w: World, releasing: seq<Act>, between: seq<Act>, acquiring: seq<Act>,
                       after: seq<Act>, p: nat, c: nat, address: nat)
    requires OneGroup(lanes, w) && p < |lanes| && c < |lanes| && lanes[p].subgroup != lanes[c].subgroup
    requires lanes[p].subgroup < lanes[p].subgroups && lanes[c].subgroup < lanes[c].subgroups
    requires Program(lanes, releasing) && Program(lanes, between) && Program(lanes, acquiring) && Program(lanes, after)
    requires ReleaseActs(releasing, p, address) && AcquireActs(acquiring, c, address)
    requires HasRoom(lanes, RunActs(lanes, w, releasing[..|releasing| - 1]), p, address)
    ensures Program(lanes, releasing + between + acquiring + after)
    ensures var g, e := lanes[p].subgroup, if lanes[p].subgroup < |w.epochs| then w.epochs[lanes[p].subgroup] else 0;
            var end := RunActs(lanes, w, releasing + between + acquiring + after);
            var i := lanes[c].subgroup * lanes[c].subgroups + g;
            0 <= i < |end.tokens| && e + 1 <= end.tokens[i]
  {
    hide Do, RunActs, ReleaseActs, AcquireActs, HasRoom, Program;
    var g := lanes[p].subgroup;
    var e := if g < |w.epochs| then w.epochs[g] else 0;
    var x := RunActs(lanes, w, releasing);
    var y := RunActs(lanes, x, between);
    var z := RunActs(lanes, y, acquiring);
    RunConcat(lanes, w, releasing, between);
    RunConcat(lanes, w, releasing + between, acquiring);
    RunConcat(lanes, w, releasing + between + acquiring, after);
    ReleaseActsRecord(lanes, w, releasing, p, address, e);
    RunGrows(lanes, w, releasing);
    RunGrows(lanes, x, between);
    AcquireActsImport(lanes, y, acquiring, c, address, g, e);
    RunGrows(lanes, z, after);
  }

  // ---------------------------------------------------------------- no more than that

  /** Every token is zero, or goes back to a record of its producer, another subgroup than the holder. */
  ghost predicate Earned(n: nat, v: View) {
    forall i :: 0 <= i < |v.tokens| && 0 < v.tokens[i] ==>
      0 < n && i / n != i % n && exists a: nat :: Backs(v.table, Key(a, i % n), v.tokens[i])
  }

  ghost predicate Backs(table: map<Key, nat>, k: Key, token: nat) { k in table && token <= table[k] + 1 }

  /** No record is ahead of its producer's epoch. */
  ghost predicate Timely(v: View) {
    forall k :: k in v.table ==> v.table[k] <= if k.producer < |v.epochs| then v.epochs[k.producer] else 0
  }

  /** A fence, if armed, was armed in an epoch of its subgroup that has begun. */
  ghost predicate FenceBegun(v: View, g: nat) {
    v.pending <= 1 + if g < |v.epochs| then v.epochs[g] else 0
  }

  ghost predicate Sober(lane: Lane, v: View) {
    Earned(lane.subgroups, v) && Timely(v) && FenceBegun(v, lane.subgroup)
  }

  lemma AcquireStaysSober(lane: Lane, v: View, address: nat)
    requires Sober(lane, v)
    ensures Sober(lane, AcquireAt(lane, v, address))
  {
    var n, v' := lane.subgroups, AcquireAt(lane, v, address);
    forall i | 0 <= i < |v'.tokens| && 0 < v'.tokens[i]
      ensures 0 < n && i / n != i % n && exists a: nat :: Backs(v'.table, Key(a, i % n), v'.tokens[i])
    {
      if v'.tokens[i] != v.tokens[i] { assert Backs(v'.table, Key(address, i % n), v'.tokens[i]); }
    }
  }

  lemma ReleaseStaysSober(lane: Lane, v: View, address: nat, e: nat)
    requires Sober(lane, v) && e <= if lane.subgroup < |v.epochs| then v.epochs[lane.subgroup] else 0
    ensures Sober(lane, ReleaseAt(lane, v, address, e))
  {
    var n, v' := lane.subgroups, ReleaseAt(lane, v, address, e);
    forall i | 0 <= i < |v'.tokens| && 0 < v'.tokens[i]
      ensures 0 < n && i / n != i % n && exists a: nat :: Backs(v'.table, Key(a, i % n), v'.tokens[i])
    {
      var a: nat :| Backs(v.table, Key(a, i % n), v.tokens[i]);
      assert Backs(v'.table, Key(a, i % n), v'.tokens[i]);
    }
  }

  lemma StoreStaysSober(lane: Lane, v: View, address: nat, order: Order)
    requires Sober(lane, v)
    ensures Sober(lane, StoreOp(lane, v, address, order))
  {
    hide ReleaseAt, Earned, Timely;
    if HasRelease(order) {
      ReleaseStaysSober(lane, v, address, EpochOf(v, lane.subgroup));
    } else if v.pending != 0 {
      ReleaseStaysSober(lane, v, address, v.pending - 1);
      Disarmed(lane, ReleaseAt(lane, v, address, v.pending - 1), 0);
    }
  }

  lemma Disarmed(lane: Lane, v: View, pending: nat)
    requires Sober(lane, v) && pending <= 1 + if lane.subgroup < |v.epochs| then v.epochs[lane.subgroup] else 0
    ensures Sober(lane, v.(pending := pending))
  {
  }

  lemma LoadStaysSober(lane: Lane, v: View, address: nat, order: Order)
    requires Sober(lane, v)
    ensures Sober(lane, LoadOp(lane, v, address, order))
  {
    hide AcquireAt;
    AcquireStaysSober(lane, v, address);
  }

  lemma FenceStaysSober(lane: Lane, v: View, order: Order)
    requires Sober(lane, v)
    ensures Sober(lane, FenceOp(lane, v, order))
  {
    hide AcquireAt, Earned, Timely;
    var armed := if HasRelease(order) then v.(pending := EpochOf(v, lane.subgroup) + 1) else v;
    Disarmed(lane, v, EpochOf(v, lane.subgroup) + 1);
    if v.observed.Some? { AcquireStaysSober(lane, armed, v.observed.value); }
  }

  lemma EffectStaysSober(lane: Lane, v: View, act: Act)
    requires Sober(lane, v)
    ensures Sober(lane, Effect(lane, v, act))
  {
    hide LoadOp, StoreOp, FenceOp, Sober, BarrierOp;
    match act
    case DoLoad(_, a, order) => LoadStaysSober(lane, v, a, order);
    case DoStore(_, a, order) => StoreStaysSober(lane, v, a, order);
    case DoRmw(_, a, order) =>
      StoreStaysSober(lane, v, a, order);
      LoadStaysSober(lane, StoreOp(lane, v, a, order), a, order);
    case DoExchange(_, a, exchanged, success, failure) =>
      StoreStaysSober(lane, v, a, success);
      LoadStaysSober(lane, StoreOp(lane, v, a, success), a, success);
      LoadStaysSober(lane, v, a, failure);
    case DoFence(_, order) => FenceStaysSober(lane, v, order);
    case DoBarrier => BarrierStaysSober(lane, v);
  }

  lemma BarrierStaysSober(lane: Lane, v: View)
    requires Sober(lane, v)
    ensures Sober(lane, BarrierOp(lane, v))
  {
  }

  ghost predicate AllSober(lanes: seq<Lane>, w: World) {
    && OneGroup(lanes, w) && Earned(lanes[0].subgroups, View(w.table, w.tokens, w.epochs, 0, None))
    && Timely(View(w.table, w.tokens, w.epochs, 0, None))
    && forall l :: 0 <= l < |lanes| ==>
         w.pending[l] <= 1 + if lanes[l].subgroup < |w.epochs| then w.epochs[lanes[l].subgroup] else 0
  }

  lemma ActStaysSober(lanes: seq<Lane>, w: World, act: Act)
    requires AllSober(lanes, w) && ByLane(lanes, act)
    ensures AllSober(lanes, Do(lanes, w, act))
  {
    hide Effect, Grows;
    var l := if act.DoBarrier? then 0 else act.lane;
    EffectStaysSober(lanes[l], ViewOf(w, l), act);
    EffectGrows(lanes[l], ViewOf(w, l), act);
    GrowsEpochs(ViewOf(w, l), Effect(lanes[l], ViewOf(w, l), act));
  }

  lemma GrowsEpochs(v: View, v': View)
    requires Grows(v, v')
    ensures |v'.tokens| == |v.tokens| && |v'.epochs| == |v.epochs|
    ensures forall g :: 0 <= g < |v.epochs| ==> v.epochs[g] <= v'.epochs[g]
  {
  }

  /** From a state in which nothing runs ahead, such as the empty one, nothing ever does: in any program a
      token is zero unless another subgroup than its holder has a record that backs it, no record is above its
      producer's epoch, so no token is above that plus one. With OrdersHandOver, a handoff after which no
      barrier came leaves exactly the producer's epoch plus one. */
  lemma {:induction false} TokensNeverRunAhead(lanes: seq<Lane>, w: World, acts: seq<Act>)
    requires AllSober(lanes, w) && Program(lanes, acts)
    ensures AllSober(lanes, RunActs(lanes, w, acts))
    ensures var n, end := lanes[0].subgroups, RunActs(lanes, w, acts);
            forall i :: 0 <= i < |end.tokens| && 0 < end.tokens[i] ==>
              && 0 < n && i / n != i % n
              && end.tokens[i] <= 1 + if i % n < |end.epochs| then end.epochs[i % n] else 0
    decreases |acts|
  {
    hide Do, AllSober;
    if acts == [] {
      SoberTokens(lanes, w);
    } else {
      ActStaysSober(lanes, w, acts[0]);
      SoberFits(lanes, w);
      TokensNeverRunAhead(lanes, Do(lanes, w, acts[0]), acts[1..]);
    }
  }

  lemma SoberFits(lanes: seq<Lane>, w: World)
    requires AllSober(lanes, w)
    ensures OneGroup(lanes, w)
  {
  }

  lemma SoberTokens(lanes: seq<Lane>, w: World)
    requires AllSober(lanes, w)
    ensures var n := lanes[0].subgroups;
            forall i :: 0 <= i < |w.tokens| && 0 < w.tokens[i] ==>
              0 < n && i / n != i % n && w.tokens[i] <= 1 + if i % n < |w.epochs| then w.epochs[i % n] else 0
  {
    var n := lanes[0].subgroups;
    forall i | 0 <= i < |w.tokens| && 0 < w.tokens[i]
      ensures 0 < n && i / n != i % n && w.tokens[i] <= 1 + if i % n < |w.epochs| then w.epochs[i % n] else 0
    {
      var a: nat :| Backs(w.table, Key(a, i % n), w.tokens[i]);
    }
  }

  // ---------------------------------------------------------------- the other orders

  /** The other orders publish and import nothing. Without an armed fence, relaxed and acquire publications
      record nothing; relaxed and release reads and fences import nothing; relaxed and acquire fences arm
      nothing; and a fence that has observed nothing imports nothing, whatever its order. */
  lemma OtherOrdersDoNothing(lanes: seq<Lane>, w: World, act: Act, l: nat, address: nat)
    requires Fits(lanes, w) && l < |lanes| && ByLane(lanes, act) && !act.DoBarrier? && act.lane == l
    ensures var w' := Do(lanes, w, act);
            && (PublishesAt(act, l, address) && w.pending[l] == 0
                && (if act.DoExchange? then act.success else act.order) in {Relaxed, AcquireOrder} ==>
                  w'.table == w.table && w'.pending == w.pending)
            && (ReadsAt(act, l, address)
                && ((if !act.DoExchange? then act.order else if act.exchanged then act.success else act.failure)
                    in {Relaxed, ReleaseOrder}) ==>
                  w'.tokens == w.tokens)
            && (act.DoStore? ==> w'.tokens == w.tokens)
            && (act.DoFence? && act.order in {Relaxed, ReleaseOrder} ==> w'.tokens == w.tokens)
            && (act.DoFence? && w.observed[l] == None ==> w'.tokens == w.tokens)
            && (act.DoFence? && act.order in {Relaxed, AcquireOrder} ==> w'.pending == w.pending)
            && (act.DoFence? || act.DoLoad? ==> w'.table == w.table)
  {
    assert w.pending[l := w.pending[l]] == w.pending;
  }
}
