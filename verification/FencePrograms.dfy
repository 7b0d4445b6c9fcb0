/** Many lanes sharing one table and one token matrix. A fence paired with a relaxed operation can be
    replaced by the ordered operation inside any program: the shared state, and so every later
    acquire, is the same. */
module FencePrograms {
  import opened ReleaseTable
  import opened AtomicMap

  datatype World = World(table: map<Key, nat>, tokens: seq<nat>, epochs: seq<nat>,
                         pending: seq<nat>, observed: seq<Option<nat>>)

  datatype Act =
    | DoLoad(lane: nat, address: nat, order: Order)
    | DoStore(lane: nat, address: nat, order: Order)
    | DoRmw(lane: nat, address: nat, order: Order)
    | DoExchange(lane: nat, address: nat, exchanged: bool, success: Order, failure: Order)
    | DoFence(lane: nat, order: Order)
    | DoBarrier

  ghost predicate Fits(lanes: seq<Lane>, w: World) {
    |w.pending| == |w.observed| == |lanes|
  }

  ghost predicate ByLane(lanes: seq<Lane>, act: Act) {
    act.DoBarrier? || act.lane < |lanes|
  }

  ghost function ViewOf(w: World, l: nat): View
    requires l < |w.pending| && l < |w.observed|
  {
    View(w.table, w.tokens, w.epochs, w.pending[l], w.observed[l])
  }

  ghost function Put(w: World, l: nat, v: View): World
    requires l < |w.pending| && l < |w.observed|
  {
    World(v.table, v.tokens, v.epochs, w.pending[l := v.pending], w.observed[l := v.observed])
  }

  ghost function Effect(lane: Lane, v: View, act: Act): View {
    match act
    case DoLoad(_, a, order) => LoadOp(lane, v, a, order)
    case DoStore(_, a, order) => StoreOp(lane, v, a, order)
    case DoRmw(_, a, order) => RmwOp(lane, v, a, order)
    case DoExchange(_, a, exchanged, success, failure) => CompareExchangeOp(lane, v, a, exchanged, success, failure)
    case DoFence(_, order) => FenceOp(lane, v, order)
    case DoBarrier => BarrierOp(lane, v)
  }

  /** A barrier advances the epochs once, on behalf of thread 0 (lane 0). */
  ghost function Do(lanes: seq<Lane>, w: World, act: Act): (w': World)
    requires Fits(lanes, w) && ByLane(lanes, act) && 0 < |lanes|
    ensures Fits(lanes, w')
  {
    var l := if act.DoBarrier? then 0 else act.lane;
    Put(w, l, Effect(lanes[l], ViewOf(w, l), act))
  }

  ghost predicate Program(lanes: seq<Lane>, acts: seq<Act>) {
    0 < |lanes| && forall i :: 0 <= i < |acts| ==> ByLane(lanes, acts[i])
  }

  ghost function RunActs(lanes: seq<Lane>, w: World, acts: seq<Act>): (w': World)
    requires Fits(lanes, w) && Program(lanes, acts)
    ensures Fits(lanes, w')
    decreases |acts|
  {
    if acts == [] then w else RunActs(lanes, Do(lanes, w, acts[0]), acts[1..])
  }

  lemma {:induction false} RunConcat(lanes: seq<Lane>, w: World, a: seq<Act>, b: seq<Act>)
    requires Fits(lanes, w) && Program(lanes, a) && Program(lanes, b)
    ensures Program(lanes, a + b)
    ensures RunActs(lanes, w, a + b) == RunActs(lanes, RunActs(lanes, w, a), b)
    decreases |a|
  {
    if a == [] {
      assert a + b == b;
    } else {
      RunConcat(lanes, Do(lanes, w, a[0]), a[1..], b);
      assert (a + b)[1..] == a[1..] + b;
    }
  }

  /** An act that neither publishes nor arms a fence: a load, a failed exchange, an acquire fence. */
  ghost predicate Quiet(act: Act) {
    || act.DoLoad?
    || (act.DoExchange? && !act.exchanged)
    || (act.DoFence? && !HasRelease(act.order))
  }

  /** An act that leaves an armed fence alone: a quiet one, or a releasing publication. */
  ghost predicate LeavesFence(act: Act) {
    || Quiet(act)
    || ((act.DoStore? || act.DoRmw?) && HasRelease(act.order))
    || (act.DoExchange? && HasRelease(act.success))
  }

  /** `l` leaves its fence alone or arms it again, and no barrier passes. */
  ghost predicate KeepsFence(acts: seq<Act>, l: nat) {
    forall i :: 0 <= i < |acts| ==>
      !acts[i].DoBarrier? && (acts[i].lane == l ==> LeavesFence(acts[i]) || acts[i].DoFence?)
  }

  /** No act of `l` arms a fence. */
  ghost predicate NeverArms(acts: seq<Act>, l: nat) {
    forall i :: 0 <= i < |acts| && acts[i].DoFence? && acts[i].lane == l ==> !HasRelease(acts[i].order)
  }

  /** What a release fence of `l` leaves pending. */
  ghost function Arming(lanes: seq<Lane>, w: World, l: nat): nat
    requires Fits(lanes, w) && l < |lanes|
  {
    EpochOf(ViewOf(w, l), lanes[l].subgroup) + 1
  }

  /** Acts that keep the fence end in the same world, armed in this epoch before them or not, but for the
      fence; those that arm none commute with any pending fence. */
  lemma {:induction false} FenceCommutes(lanes: seq<Lane>, w: World, mid: seq<Act>, l: nat, token: nat)
    requires Fits(lanes, w) && Program(lanes, mid) && l < |lanes| && KeepsFence(mid, l)
    requires token == Arming(lanes, w, l) || NeverArms(mid, l)
    ensures var w' := RunActs(lanes, w, mid);
            && w'.epochs == w.epochs && (NeverArms(mid, l) ==> w'.pending[l] == w.pending[l])
            && RunActs(lanes, w.(pending := w.pending[l := token]), mid) == w'.(pending := w'.pending[l := token])
    decreases |mid|
  {
    if mid != [] {
      var w1 := Do(lanes, w, mid[0]);
      OneCommutes(lanes, w, mid[0], l, token);
      FenceCommutes(lanes, w1, mid[1..], l, token);
    }
  }

  lemma OneCommutes(lanes: seq<Lane>, w: World, act: Act, l: nat, token: nat)
    requires Fits(lanes, w) && 0 < |lanes| && ByLane(lanes, act) && l < |lanes|
    requires !act.DoBarrier? && (act.lane == l ==> LeavesFence(act) || act.DoFence?)
    requires token == Arming(lanes, w, l) || NeverArms([act], l)
    ensures var w' := Do(lanes, w, act);
            && w'.epochs == w.epochs && (NeverArms([act], l) ==> w'.pending[l] == w.pending[l])
            && Do(lanes, w.(pending := w.pending[l := token]), act) == w'.(pending := w'.pending[l := token])
  {
    var armed := w.(pending := w.pending[l := token]);
    var w', armed' := Do(lanes, w, act), Do(lanes, armed, act);
    assert [act][0] == act;
    if act.lane == l {
      assert ViewOf(armed, l) == ViewOf(w, l).(pending := token);
    } else {
      assert ViewOf(armed, act.lane) == ViewOf(w, act.lane);
    }
    assert armed'.pending == w'.pending[l := token];
    assert armed'.observed == w'.observed;
  }

  lemma RunOne(lanes: seq<Lane>, w: World, act: Act)
    requires Fits(lanes, w) && Program(lanes, [act])
    ensures ByLane(lanes, act) && RunActs(lanes, w, [act]) == Do(lanes, w, act)
  {
    hide Do;
    assert ByLane(lanes, [act][0]);
    assert [act][1..] == [];
  }

  lemma FenceArms(lanes: seq<Lane>, w: World, l: nat)
    requires Fits(lanes, w) && l < |lanes|
    ensures Do(lanes, w, DoFence(l, ReleaseOrder)) == w.(pending := w.pending[l := Arming(lanes, w, l)])
  {
    hide LoadOp, StoreOp, RmwOp, CompareExchangeOp;
    assert w.observed[l := w.observed[l]] == w.observed;
  }

  /** The three ways to publish: a store, a read-modify-write, a successful exchange. */
  datatype Publication = Storing | Modifying | Exchanging(failure: Order)

  ghost function Publishing(l: nat, address: nat, how: Publication, order: Order): Act {
    match how
    case Storing => DoStore(l, address, order)
    case Modifying => DoRmw(l, address, order)
    case Exchanging(failure) => DoExchange(l, address, true, order, failure)
  }

  /** The order with release added to it. */
  function Releasing(order: Order): Order { if HasAcquire(order) then AcqRel else ReleaseOrder }

  /** A publication without release, with the fence armed in this epoch, is the releasing one, which leaves
      whatever fence was armed before, while the other leaves none. */
  lemma PublishDisarms(lanes: seq<Lane>, x: World, l: nat, address: nat, how: Publication, order: Order)
    requires Fits(lanes, x) && l < |lanes| && !HasRelease(order)
    ensures var token := Arming(lanes, x, l);
            var direct := Do(lanes, x, Publishing(l, address, how, Releasing(order)));
            Do(lanes, x.(pending := x.pending[l := token]), Publishing(l, address, how, order))
            == direct.(pending := direct.pending[l := 0])
  {
    var token := Arming(lanes, x, l);
    var armed := x.(pending := x.pending[l := token]);
    assert armed.pending[l := 0] == x.pending[l := 0];
    assert x.pending[l := x.pending[l]] == x.pending;
    assert ViewOf(armed, l) == ViewOf(x, l).(pending := token);
  }

  /** Release fence, any number of steps without a barrier in which the lane loads, fails exchanges, fences
      or publishes with release, then a store, read-modify-write or successful exchange without release: the
      same world as without the fence and with the releasing operation, except that no fence is left armed. */
  lemma ReleaseFenceRefines(lanes: seq<Lane>, w: World, mid: seq<Act>, l: nat, address: nat, how: Publication,
                            order: Order)
    requires Fits(lanes, w) && Program(lanes, mid) && l < |lanes| && KeepsFence(mid, l) && !HasRelease(order)
    ensures var fenced := [DoFence(l, ReleaseOrder)] + mid + [Publishing(l, address, how, order)];
            var direct := mid + [Publishing(l, address, how, Releasing(order))];
            && Program(lanes, fenced) && Program(lanes, direct)
            && var end := RunActs(lanes, w, direct);
               && RunActs(lanes, w, fenced) == end.(pending := end.pending[l := 0])
               && (NeverArms(mid, l) ==> end.pending[l] == w.pending[l])
  {
    hide RunActs, Do;
    var fence, x := DoFence(l, ReleaseOrder), RunActs(lanes, w, mid);
    var relaxed, releasing := Publishing(l, address, how, order), Publishing(l, address, how, Releasing(order));
    RunConcat(lanes, w, [fence] + mid, [relaxed]);
    RunConcat(lanes, w, [fence], mid);
    RunConcat(lanes, w, mid, [releasing]);
    RunOne(lanes, w, fence);
    RunOne(lanes, RunActs(lanes, w, [fence] + mid), relaxed);
    RunOne(lanes, x, releasing);
    FenceArms(lanes, w, l);
    FenceCommutes(lanes, w, mid, l, Arming(lanes, w, l));
    PublishDisarms(lanes, x, l, address, how, order);
    ReleasingKeepsFence(lanes, x, l, address, how, order);
  }

  lemma ReleasingKeepsFence(lanes: seq<Lane>, x: World, l: nat, address: nat, how: Publication, order: Order)
    requires Fits(lanes, x) && l < |lanes|
    ensures Do(lanes, x, Publishing(l, address, how, Releasing(order))).pending == x.pending
  {
    assert x.pending[l := x.pending[l]] == x.pending;
  }

  /** Acts of `l` that leave its last observed address alone, or observe `address` again, and that do not
      consult it. */
  ghost predicate KeepsObservation(acts: seq<Act>, l: nat, address: nat) {
    forall i :: 0 <= i < |acts| && !acts[i].DoBarrier? && acts[i].lane == l ==>
      if acts[i].DoFence? then !HasAcquire(acts[i].order) else acts[i].DoStore? || acts[i].address == address
  }

  lemma {:induction false} ObservationCommutes(lanes: seq<Lane>, w: World, mid: seq<Act>, l: nat, address: nat)
    requires Fits(lanes, w) && Program(lanes, mid) && l < |lanes| && KeepsObservation(mid, l, address)
    ensures var w' := RunActs(lanes, w, mid);
            RunActs(lanes, w.(observed := w.observed[l := Some(address)]), mid)
            == w'.(observed := w'.observed[l := Some(address)])
    decreases |mid|
  {
    if mid != [] {
      ObservedCommutes(lanes, w, mid[0], l, address);
      ObservationCommutes(lanes, Do(lanes, w, mid[0]), mid[1..], l, address);
    }
  }

  /** On the lane itself the effect does not depend on what was observed, and observing afterwards adds
      nothing. */
  lemma EffectIgnoresObservation(lane: Lane, v: View, act: Act, address: nat)
    requires !act.DoBarrier?
    requires if act.DoFence? then !HasAcquire(act.order) else act.DoStore? || act.address == address
    ensures Effect(lane, v.(observed := Some(address)), act) == Effect(lane, v, act).(observed := Some(address))
  {
    hide LoadOp, StoreOp, RmwOp, CompareExchangeOp, FenceOp;
    match act
    case DoLoad(_, _, order) => LoadIgnoresObservation(lane, v, address, order);
    case DoStore(_, to, order) => StoreIgnoresObservation(lane, v, to, order, address);
    case DoRmw(_, _, order) => RmwIgnoresObservation(lane, v, address, order);
    case DoExchange(_, _, exchanged, success, failure) =>
      ExchangeIgnoresObservation(lane, v, address, exchanged, success, failure);
    case DoFence(_, order) => FenceIgnoresObservation(lane, v, order, address);
  }

  lemma LoadIgnoresObservation(lane: Lane, v: View, address: nat, order: Order)
    ensures LoadOp(lane, v.(observed := Some(address)), address, order)
         == LoadOp(lane, v, address, order).(observed := Some(address))
  {
    hide TokensAfterAcquire;
  }

  lemma StoreIgnoresObservation(lane: Lane, v: View, to: nat, order: Order, address: nat)
    ensures StoreOp(lane, v.(observed := Some(address)), to, order)
         == StoreOp(lane, v, to, order).(observed := Some(address))
  {
    hide TableAfterRelease;
  }

  lemma RmwIgnoresObservation(lane: Lane, v: View, address: nat, order: Order)
    ensures RmwOp(lane, v.(observed := Some(address)), address, order)
         == RmwOp(lane, v, address, order).(observed := Some(address))
  {
    hide TableAfterRelease, TokensAfterAcquire;
  }

  lemma ExchangeIgnoresObservation(lane: Lane, v: View, address: nat, exchanged: bool, success: Order, failure: Order)
    ensures CompareExchangeOp(lane, v.(observed := Some(address)), address, exchanged, success, failure)
         == CompareExchangeOp(lane, v, address, exchanged, success, failure).(observed := Some(address))
  {
    hide TableAfterRelease, TokensAfterAcquire;
  }

  lemma FenceIgnoresObservation(lane: Lane, v: View, order: Order, address: nat)
    requires !HasAcquire(order)
    ensures FenceOp(lane, v.(observed := Some(address)), order) == FenceOp(lane, v, order).(observed := Some(address))
  {
  }

  lemma BarrierIgnoresObservation(lane: Lane, v: View, observed: Option<nat>)
    ensures BarrierOp(lane, v.(observed := observed)) == BarrierOp(lane, v).(observed := observed)
  {
  }

  lemma OwnCommutes(lanes: seq<Lane>, w: World, act: Act, l: nat, address: nat)
    requires Fits(lanes, w) && ByLane(lanes, act) && l < |lanes| && !act.DoBarrier? && act.lane == l
    requires if act.DoFence? then !HasAcquire(act.order) else act.DoStore? || act.address == address
    ensures var w' := Do(lanes, w, act);
            Do(lanes, w.(observed := w.observed[l := Some(address)]), act)
            == w'.(observed := w'.observed[l := Some(address)])
  {
    hide Effect;
    var marked := w.(observed := w.observed[l := Some(address)]);
    assert ViewOf(marked, l) == ViewOf(w, l).(observed := Some(address));
    EffectIgnoresObservation(lanes[l], ViewOf(w, l), act, address);
  }

  lemma OtherCommutes(lanes: seq<Lane>, w: World, act: Act, l: nat, address: nat)
    requires Fits(lanes, w) && ByLane(lanes, act) && l < |lanes| && !act.DoBarrier? && act.lane != l
    ensures var w' := Do(lanes, w, act);
            Do(lanes, w.(observed := w.observed[l := Some(address)]), act)
            == w'.(observed := w'.observed[l := Some(address)])
  {
    hide Effect;
    var marked := w.(observed := w.observed[l := Some(address)]);
    assert ViewOf(marked, act.lane) == ViewOf(w, act.lane);
    assert Do(lanes, marked, act).observed == Do(lanes, w, act).observed[l := Some(address)];
  }

  lemma BarrierCommutes(lanes: seq<Lane>, w: World, l: nat, address: nat)
    requires Fits(lanes, w) && l < |lanes|
    ensures var w' := Do(lanes, w, DoBarrier);
            Do(lanes, w.(observed := w.observed[l := Some(address)]), DoBarrier)
            == w'.(observed := w'.observed[l := Some(address)])
  {
    hide BarrierOp;
    var marked := w.(observed := w.observed[l := Some(address)]);
    assert ViewOf(marked, 0) == ViewOf(w, 0).(observed := marked.observed[0]);
    BarrierIgnoresObservation(lanes[0], ViewOf(w, 0), marked.observed[0]);
    BarrierKeepsLane(lanes[0], ViewOf(w, 0));
    BarrierKeepsLane(lanes[0], ViewOf(marked, 0));
    assert w.observed[0 := w.observed[0]] == w.observed && marked.observed[0 := marked.observed[0]] == marked.observed;
  }

  lemma BarrierKeepsLane(lane: Lane, v: View)
    ensures BarrierOp(lane, v).observed == v.observed && BarrierOp(lane, v).pending == v.pending
  {
  }

  lemma ObservedCommutes(lanes: seq<Lane>, w: World, act: Act, l: nat, address: nat)
    requires Fits(lanes, w) && ByLane(lanes, act) && l < |lanes| && KeepsObservation([act], l, address)
    ensures var w' := Do(lanes, w, act);
            Do(lanes, w.(observed := w.observed[l := Some(address)]), act)
            == w'.(observed := w'.observed[l := Some(address)])
  {
    hide Do;
    assert [act][0] == act;
    if act.DoBarrier? {
      BarrierCommutes(lanes, w, l, address);
    } else if act.lane == l {
      OwnCommutes(lanes, w, act, l, address);
    } else {
      OtherCommutes(lanes, w, act, l, address);
    }
  }

  lemma LoadMarks(lanes: seq<Lane>, w: World, l: nat, address: nat)
    requires Fits(lanes, w) && l < |lanes|
    ensures Do(lanes, w, DoLoad(l, address, Relaxed)) == w.(observed := w.observed[l := Some(address)])
  {
    assert w.pending[l := w.pending[l]] == w.pending;
  }

  /** An acquire fence after a load of the address is an acquire load of it. */
  lemma FenceLoads(lanes: seq<Lane>, x: World, l: nat, address: nat)
    requires Fits(lanes, x) && l < |lanes|
    ensures Do(lanes, x.(observed := x.observed[l := Some(address)]), DoFence(l, AcquireOrder))
         == Do(lanes, x, DoLoad(l, address, AcquireOrder))
  {
    var marked := x.(observed := x.observed[l := Some(address)]);
    assert marked.observed[l := Some(address)] == marked.observed;
  }

  /** Relaxed load, any number of steps (barriers too) in which the lane itself stores, arms release
      fences, or loads, modifies or exchanges the same address, then an acquire fence: the same world as
      the acquire load performed where the fence stands. */
  lemma AcquireFenceRefines(lanes: seq<Lane>, w: World, mid: seq<Act>, l: nat, address: nat)
    requires Fits(lanes, w) && Program(lanes, mid) && l < |lanes| && KeepsObservation(mid, l, address)
    ensures var fenced := [DoLoad(l, address, Relaxed)] + mid + [DoFence(l, AcquireOrder)];
            var direct := mid + [DoLoad(l, address, AcquireOrder)];
            && Program(lanes, fenced) && Program(lanes, direct)
            && RunActs(lanes, w, fenced) == RunActs(lanes, w, direct)
  {
    hide RunActs, Do;
    var load, fence, acquire := DoLoad(l, address, Relaxed), DoFence(l, AcquireOrder), DoLoad(l, address, AcquireOrder);
    var x := RunActs(lanes, w, mid);
    RunConcat(lanes, w, [load] + mid, [fence]);
    RunConcat(lanes, w, [load], mid);
    RunConcat(lanes, w, mid, [acquire]);
    RunOne(lanes, w, load);
    RunOne(lanes, RunActs(lanes, w, [load] + mid), fence);
    RunOne(lanes, x, acquire);
    LoadMarks(lanes, w, l, address);
    ObservationCommutes(lanes, w, mid, l, address);
    FenceLoads(lanes, x, l, address);
  }

  // ---------------------------------------------------------------- who publishes

  /** Loads, failed exchanges, acquire fences, and any act of another subgroup, leave the subgroup's records
      alone. */
  ghost predicate QuietSubgroup(lanes: seq<Lane>, acts: seq<Act>, g: nat)
    requires Program(lanes, acts)
  {
    forall i :: 0 <= i < |acts| ==> QuietFor(lanes, acts[i], g)
  }

  ghost predicate QuietFor(lanes: seq<Lane>, act: Act, g: nat)
    requires ByLane(lanes, act)
  {
    act.DoBarrier? || act.DoFence? || lanes[act.lane].subgroup != g || Quiet(act)
  }

  ghost predicate SameRecords(table: map<Key, nat>, table': map<Key, nat>, g: nat) {
    forall k: Key :: k.producer == g ==> (k in table <==> k in table') && (k in table ==> table[k] == table'[k])
  }

  lemma ActKeepsRecords(lanes: seq<Lane>, w: World, act: Act, g: nat)
    requires Fits(lanes, w) && 0 < |lanes| && ByLane(lanes, act) && QuietFor(lanes, act, g)
    ensures SameRecords(w.table, Do(lanes, w, act).table, g)
  {
    hide TokensAfterAcquire;
  }

  /** Whatever the other subgroups do, a subgroup whose lanes only load, fail exchanges and fence has no
      record added, dropped or raised. */
  lemma {:induction false} QuietSubgroupPublishesNothing(lanes: seq<Lane>, w: World, acts: seq<Act>, g: nat)
    requires Fits(lanes, w) && Program(lanes, acts) && QuietSubgroup(lanes, acts, g)
    ensures SameRecords(w.table, RunActs(lanes, w, acts).table, g)
    decreases |acts|
  {
    if acts != [] {
      ActKeepsRecords(lanes, w, acts[0], g);
      QuietSubgroupPublishesNothing(lanes, Do(lanes, w, acts[0]), acts[1..], g);
    }
  }
}
