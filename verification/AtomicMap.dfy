/** The meaning of the atomic-object table when nothing runs beside the caller: a map from
    (address, producer) to the largest epoch released, and the operations of a context on it. */
module AtomicMap {
  import opened ReleaseTable
  import opened Arith

  datatype Option<T> = None | Some(value: T)

  datatype Record = Record(generation: nat, address: nat, producer: nat, epoch: nat)

  function KeyOf(r: Record): Key { Key(r.address, r.producer) }

  // ---------------------------------------------------------------- the table as a sequence of records

  ghost predicate Live(cfg: Config, slots: seq<Record>, i: nat) {
    i < |slots| && slots[i].generation == cfg.generation
  }

  /** Slot `i` is reached by probing for its key through live slots only. */
  ghost predicate OnPath(cfg: Config, slots: seq<Record>, i: nat, probe: nat)
    requires i < |slots|
  {
    && probe < cfg.capacity && At(cfg, KeyOf(slots[i]), probe) == i
    && forall r :: 0 <= r < probe ==> Live(cfg, slots, At(cfg, KeyOf(slots[i]), r))
  }

  ghost predicate Distinct(cfg: Config, slots: seq<Record>) {
    forall i, j :: 0 <= i < |slots| && 0 <= j < |slots| && Live(cfg, slots, i) && Live(cfg, slots, j) ==>
      KeyOf(slots[i]) == KeyOf(slots[j]) ==> i == j
  }

  /** Between operations: no slot is half filled in, keys are unique and findable. */
  ghost predicate Sound(cfg: Config, slots: seq<Record>) {
    && cfg.generation != CLAIMED
    && |slots| == cfg.capacity
    && (forall k: Key :: 0 < cfg.capacity ==> cfg.home(k) < cfg.capacity)
    && (forall i :: 0 <= i < |slots| ==> slots[i].generation != CLAIMED)
    && Distinct(cfg, slots)
    && (forall i :: 0 <= i < |slots| && Live(cfg, slots, i) ==> exists q :: OnPath(cfg, slots, i, q))
  }

  ghost function LiveKeys(cfg: Config, slots: seq<Record>): set<Key> {
    set i | 0 <= i < |slots| && Live(cfg, slots, i) :: KeyOf(slots[i])
  }

  ghost function IndexOf(cfg: Config, slots: seq<Record>, k: Key): (i: nat)
    requires k in LiveKeys(cfg, slots)
    ensures i < |slots| && Live(cfg, slots, i) && KeyOf(slots[i]) == k
  {
    var i :| 0 <= i < |slots| && Live(cfg, slots, i) && KeyOf(slots[i]) == k; i
  }

  ghost function Contents(cfg: Config, slots: seq<Record>): map<Key, nat> {
    map k | k in LiveKeys(cfg, slots) :: slots[IndexOf(cfg, slots, k)].epoch
  }

  /** A sound table is full exactly when its map has as many keys as the table has slots. */
  lemma FullMeansCapacityKeys(cfg: Config, slots: seq<Record>)
    requires Sound(cfg, slots)
    ensures |Contents(cfg, slots)| <= cfg.capacity
    ensures |Contents(cfg, slots)| == cfg.capacity <==> forall i :: 0 <= i < |slots| ==> Live(cfg, slots, i)
  {
    assert slots[..|slots|] == slots;
    CountKeys(cfg, slots, |slots|);
    assert Contents(cfg, slots).Keys == LiveKeys(cfg, slots);
  }

  lemma {:induction false} CountKeys(cfg: Config, slots: seq<Record>, n: nat)
    requires Distinct(cfg, slots) && n <= |slots|
    ensures |LiveKeys(cfg, slots[..n])| <= n
    ensures |LiveKeys(cfg, slots[..n])| == n <==> forall i :: 0 <= i < n ==> Live(cfg, slots, i)
  {
    if n == 0 {
      assert LiveKeys(cfg, slots[..0]) == {};
    } else {
      CountKeys(cfg, slots, n - 1);
      CountOneMore(cfg, slots, n - 1);
      assert (forall i :: 0 <= i < n ==> Live(cfg, slots, i)) <==>
             Live(cfg, slots, n - 1) && forall i :: 0 <= i < n - 1 ==> Live(cfg, slots, i);
    }
  }

  lemma CountOneMore(cfg: Config, slots: seq<Record>, n: nat)
    requires Distinct(cfg, slots) && n < |slots|
    ensures |LiveKeys(cfg, slots[..n + 1])| == |LiveKeys(cfg, slots[..n])| + (if Live(cfg, slots, n) then 1 else 0)
  {
    ExtendKeys(cfg, slots, n);
    if KeyOf(slots[n]) in LiveKeys(cfg, slots[..n]) {
      var i := IndexOf(cfg, slots[..n], KeyOf(slots[n]));
      assert Live(cfg, slots, i);
    }
  }

  lemma ExtendKeys(cfg: Config, slots: seq<Record>, n: nat)
    requires n < |slots|
    ensures LiveKeys(cfg, slots[..n + 1])
         == LiveKeys(cfg, slots[..n]) + (if Live(cfg, slots, n) then {KeyOf(slots[n])} else {})
  {
    var before, after := LiveKeys(cfg, slots[..n]), LiveKeys(cfg, slots[..n + 1]);
    forall k | k in before ensures k in after {
      var i := IndexOf(cfg, slots[..n], k);
      assert Live(cfg, slots[..n + 1], i) && KeyOf(slots[..n + 1][i]) == k;
    }
    forall k | k in after ensures k in before || (Live(cfg, slots, n) && k == KeyOf(slots[n])) {
      var i := IndexOf(cfg, slots[..n + 1], k);
      if i < n { assert Live(cfg, slots[..n], i) && KeyOf(slots[..n][i]) == k; }
    }
    if Live(cfg, slots, n) { assert Live(cfg, slots[..n + 1], n) && KeyOf(slots[..n + 1][n]) == KeyOf(slots[n]); }
  }

  lemma PathKept(cfg: Config, slots: seq<Record>, slots': seq<Record>, j: nat)
    requires Sound(cfg, slots) && |slots'| == |slots| && Live(cfg, slots, j) && KeyOf(slots'[j]) == KeyOf(slots[j])
    requires forall i :: Live(cfg, slots, i) ==> Live(cfg, slots', i)
    ensures exists q :: OnPath(cfg, slots', j, q)
  {
    var q :| OnPath(cfg, slots, j, q);
    assert OnPath(cfg, slots', j, q);
  }

  /** Filling a stale slot at the end of a live probe path adds one key to the map. */
  lemma AddKey(cfg: Config, slots: seq<Record>, i: nat, probe: nat, k: Key, e: nat)
    requires Sound(cfg, slots) && i < |slots| && !Live(cfg, slots, i) && k !in Contents(cfg, slots)
    requires probe < cfg.capacity && At(cfg, k, probe) == i
    requires forall r :: 0 <= r < probe ==> Live(cfg, slots, At(cfg, k, r))
    ensures var slots' := slots[i := Record(cfg.generation, k.addr, k.producer, e)];
            Sound(cfg, slots') && Contents(cfg, slots') == Contents(cfg, slots)[k := e]
  {
    var slots' := slots[i := Record(cfg.generation, k.addr, k.producer, e)];
    forall j | 0 <= j < |slots| && Live(cfg, slots', j) ensures exists q :: OnPath(cfg, slots', j, q) {
      if j == i {
        assert OnPath(cfg, slots', i, probe);
      } else {
        PathKept(cfg, slots, slots', j);
      }
    }
    forall j | 0 <= j < |slots| && Live(cfg, slots, j) ensures KeyOf(slots[j]) in LiveKeys(cfg, slots) {}
    MapUpdated(cfg, slots, slots', i);
  }

  /** Rewriting the epoch of a live slot updates one key of the map. */
  lemma RaiseKey(cfg: Config, slots: seq<Record>, i: nat, e: nat)
    requires Sound(cfg, slots) && i < |slots| && Live(cfg, slots, i)
    ensures var slots' := slots[i := slots[i].(epoch := e)];
            Sound(cfg, slots') && Contents(cfg, slots') == Contents(cfg, slots)[KeyOf(slots[i]) := e]
    ensures KeyOf(slots[i]) in Contents(cfg, slots) && Contents(cfg, slots)[KeyOf(slots[i])] == slots[i].epoch
  {
    var slots' := slots[i := slots[i].(epoch := e)];
    assert KeyOf(slots[i]) in LiveKeys(cfg, slots);
    assert IndexOf(cfg, slots, KeyOf(slots[i])) == i;
    forall j | 0 <= j < |slots| && Live(cfg, slots', j) ensures exists q :: OnPath(cfg, slots', j, q) {
      assert Live(cfg, slots, j);
      PathKept(cfg, slots, slots', j);
    }
    MapUpdated(cfg, slots, slots', i);
  }

  lemma MapUpdated(cfg: Config, slots: seq<Record>, slots': seq<Record>, i: nat)
    requires Sound(cfg, slots) && Sound(cfg, slots') && i < |slots| && Live(cfg, slots', i)
    requires slots' == slots[i := slots'[i]]
    requires Live(cfg, slots, i) ==> KeyOf(slots[i]) == KeyOf(slots'[i])
    ensures Contents(cfg, slots') == Contents(cfg, slots)[KeyOf(slots'[i]) := slots'[i].epoch]
  {
    var m, m' := Contents(cfg, slots), Contents(cfg, slots');
    var k := KeyOf(slots'[i]);
    forall x ensures x in m' <==> x == k || x in m {
      if x in m {
        var j := IndexOf(cfg, slots, x);
        assert Live(cfg, slots', j) && KeyOf(slots'[j]) == x;
      }
      if x in m' && x != k {
        var j := IndexOf(cfg, slots', x);
        assert Live(cfg, slots, j) && KeyOf(slots[j]) == x;
      }
      assert x == k ==> x in LiveKeys(cfg, slots');
    }
    forall x | x in m' ensures m'[x] == m[k := slots'[i].epoch][x] {
      var j := IndexOf(cfg, slots', x);
      if x == k {
        assert j == i;
      } else {
        assert Live(cfg, slots, j) && IndexOf(cfg, slots, x) == j;
      }
    }
  }

  // ---------------------------------------------------------------- operations on the map

  function Max(a: nat, b: nat): nat { if a < b then b else a }

  /** The map after a release: joined by maximum; a new key is dropped when the table is full. */
  ghost function TableAfterRelease(table: map<Key, nat>, capacity: nat, k: Key, e: nat): map<Key, nat> {
    if k in table then table[k := Max(table[k], e)]
    else if |table| < capacity then table[k := e]
    else table
  }

  ghost function TokenAfter(token: nat, i: nat, n: nat, table: map<Key, nat>, address: nat, consumer: nat): nat {
    if 0 < n && i / n == consumer && i % n != consumer && Key(address, i % n) in table
    then Max(token, table[Key(address, i % n)] + 1)
    else token
  }

  /** Row-major token matrix of `n` consumers by `n` producers after `consumer` acquires `address`. */
  ghost function TokensAfterAcquire(tokens: seq<nat>, n: nat, table: map<Key, nat>, address: nat,
                                    consumer: nat): (r: seq<nat>)
    ensures |r| == |tokens|
  {
    seq(|tokens|, i requires 0 <= i < |tokens| => TokenAfter(tokens[i], i, n, table, address, consumer))
  }

  /** The part of an acquire that imports only the producers in `done`. */
  ghost function TokensAfterImports(tokens: seq<nat>, n: nat, table: map<Key, nat>, address: nat, consumer: nat,
                                    done: set<nat>): (r: seq<nat>)
    ensures |r| == |tokens|
  {
    seq(|tokens|, i requires 0 <= i < |tokens| =>
      if 0 < n && i % n in done then TokenAfter(tokens[i], i, n, table, address, consumer) else tokens[i])
  }

  /** Raising one producer's token completes the import of that producer. */
  lemma ImportOne(tokens: seq<nat>, n: nat, table: map<Key, nat>, address: nat, consumer: nat, done: set<nat>, p: nat)
    requires |tokens| == n * n && consumer < n && p < n && p != consumer && Key(address, p) in table
    ensures 0 <= consumer * n + p < |tokens|
    ensures var mid := TokensAfterImports(tokens, n, table, address, consumer, done);
            var i := consumer * n + p;
            mid[i := Max(mid[i], table[Key(address, p)] + 1)]
            == TokensAfterImports(tokens, n, table, address, consumer, done + {p})
  {
    RowColumn(n, consumer, p);
    var mid := TokensAfterImports(tokens, n, table, address, consumer, done);
    var after := TokensAfterImports(tokens, n, table, address, consumer, done + {p});
    var i := consumer * n + p;
    forall j | 0 <= j < |tokens| && j != i ensures mid[j] == after[j] {
      assert j == (j / n) * n + j % n;
    }
    assert mid[i := Max(mid[i], table[Key(address, p)] + 1)] == after;
  }

  /** A producer without a record, or the consumer itself, has nothing to import. */
  lemma ImportNothing(tokens: seq<nat>, n: nat, table: map<Key, nat>, address: nat, consumer: nat, done: set<nat>,
                      p: nat)
    requires p == consumer || Key(address, p) !in table
    ensures TokensAfterImports(tokens, n, table, address, consumer, done + {p})
         == TokensAfterImports(tokens, n, table, address, consumer, done)
  {
  }

  lemma ImportAll(tokens: seq<nat>, n: nat, table: map<Key, nat>, address: nat, consumer: nat, done: set<nat>)
    requires forall p :: 0 <= p < n ==> p in done
    ensures TokensAfterImports(tokens, n, table, address, consumer, done)
         == TokensAfterAcquire(tokens, n, table, address, consumer)
  {
  }

  /** Acquiring twice is acquiring once. */
  lemma AcquireIsIdempotent(tokens: seq<nat>, n: nat, table: map<Key, nat>, address: nat, consumer: nat)
    ensures var once := TokensAfterAcquire(tokens, n, table, address, consumer);
            TokensAfterAcquire(once, n, table, address, consumer) == once
  {
  }

  datatype Order = Relaxed | AcquireOrder | ReleaseOrder | AcqRel | SeqCst

  function HasAcquire(order: Order): bool { order == AcquireOrder || order == AcqRel || order == SeqCst }

  function HasRelease(order: Order): bool { order == ReleaseOrder || order == AcqRel || order == SeqCst }

  /** What one lane can affect or observe: the shared map and tokens, and its own fence state. */
  datatype View = View(table: map<Key, nat>, tokens: seq<nat>, epochs: seq<nat>, pending: nat, observed: Option<nat>)

  /** The fixed part: table capacity, subgroup capacity, the lane's subgroup, and how many subgroups
      have an epoch that barriers advance. */
  datatype Lane = Lane(capacity: nat, subgroups: nat, subgroup: nat, stored: nat)

  ghost function EpochOf(v: View, subgroup: nat): nat {
    if subgroup < |v.epochs| then v.epochs[subgroup] else 0
  }

  ghost function ReleaseAt(lane: Lane, v: View, address: nat, e: nat): View {
    v.(table := TableAfterRelease(v.table, lane.capacity, Key(address, lane.subgroup), e))
  }

  ghost function AcquireAt(lane: Lane, v: View, address: nat): View {
    if lane.subgroup < lane.subgroups then
      v.(tokens := TokensAfterAcquire(v.tokens, lane.subgroups, v.table, address, lane.subgroup))
    else v
  }

  /** Publishes the epoch of an armed fence, if one is armed, and disarms it. */
  ghost function ConsumeFence(lane: Lane, v: View, address: nat): View {
    if v.pending == 0 then v else ReleaseAt(lane, v, address, v.pending - 1).(pending := 0)
  }

  ghost function LoadOp(lane: Lane, v: View, address: nat, order: Order): View {
    (if HasAcquire(order) then AcquireAt(lane, v, address) else v).(observed := Some(address))
  }

  ghost function StoreOp(lane: Lane, v: View, address: nat, order: Order): View {
    if HasRelease(order) then ReleaseAt(lane, v, address, EpochOf(v, lane.subgroup)) else ConsumeFence(lane, v, address)
  }

  ghost function RmwOp(lane: Lane, v: View, address: nat, order: Order): View {
    LoadOp(lane, StoreOp(lane, v, address, order), address, order)
  }

  ghost function CompareExchangeOp(lane: Lane, v: View, address: nat, exchanged: bool, success: Order,
                                   failure: Order): View {
    if exchanged then RmwOp(lane, v, address, success) else LoadOp(lane, v, address, failure)
  }

  ghost function FenceOp(lane: Lane, v: View, order: Order): View {
    var armed := if HasRelease(order) then v.(pending := EpochOf(v, lane.subgroup) + 1) else v;
    if HasAcquire(order) && v.observed.Some? then AcquireAt(lane, armed, v.observed.value) else armed
  }

  ghost function BarrierOp(lane: Lane, v: View): View {
    v.(epochs := seq(|v.epochs|, g requires 0 <= g < |v.epochs| =>
                                   if g < lane.stored then v.epochs[g] + 1 else v.epochs[g]))
  }

  // ---------------------------------------------------------------- fences refine orders

  /** Release fence, then a relaxed store, read-modify-write or successful exchange: the same view as the
      releasing operation, with no fence left armed, whatever fence was armed before. */
  lemma ReleaseFencePairs(lane: Lane, v: View, address: nat)
    ensures StoreOp(lane, FenceOp(lane, v, ReleaseOrder), address, Relaxed)
         == StoreOp(lane, v, address, ReleaseOrder).(pending := 0)
    ensures RmwOp(lane, FenceOp(lane, v, ReleaseOrder), address, Relaxed)
         == RmwOp(lane, v, address, ReleaseOrder).(pending := 0)
    ensures forall failure :: CompareExchangeOp(lane, FenceOp(lane, v, ReleaseOrder), address, true, Relaxed, failure)
                           == CompareExchangeOp(lane, v, address, true, ReleaseOrder, failure).(pending := 0)
  {
  }

  /** Relaxed load (or failed exchange), then an acquire fence: the same tokens as the acquiring one. */
  lemma AcquireFencePairs(lane: Lane, v: View, address: nat)
    ensures FenceOp(lane, LoadOp(lane, v, address, Relaxed), AcquireOrder) == LoadOp(lane, v, address, AcquireOrder)
    ensures forall success ::
      FenceOp(lane, CompareExchangeOp(lane, v, address, false, success, Relaxed), AcquireOrder)
      == CompareExchangeOp(lane, v, address, false, success, AcquireOrder)
  {
  }

  /** A barrier between fence and store makes the store publish the older epoch: the record equals
      the releasing store's exactly when the table already holds a larger epoch for the key, or drops it. */
  lemma BarrierBetweenFenceAndStore(lane: Lane, v: View, address: nat)
    requires lane.subgroup < |v.epochs| && lane.subgroup < lane.stored
    ensures var k := Key(address, lane.subgroup); var e := v.epochs[lane.subgroup];
            var fenced := StoreOp(lane, BarrierOp(lane, FenceOp(lane, v, ReleaseOrder)), address, Relaxed);
            var direct := StoreOp(lane, BarrierOp(lane, v), address, ReleaseOrder);
            && fenced.table == TableAfterRelease(v.table, lane.capacity, k, e)
            && direct.table == TableAfterRelease(v.table, lane.capacity, k, e + 1)
            && (fenced == direct.(pending := 0) <==>
                  if k in v.table then e + 1 <= v.table[k] else lane.capacity <= |v.table|)
  {
    var k := Key(address, lane.subgroup);
    var e := v.epochs[lane.subgroup];
    var fenced := StoreOp(lane, BarrierOp(lane, FenceOp(lane, v, ReleaseOrder)), address, Relaxed);
    var direct := StoreOp(lane, BarrierOp(lane, v), address, ReleaseOrder);
    assert k in v.table ==> fenced.table[k] == Max(v.table[k], e) && direct.table[k] == Max(v.table[k], e + 1);
    assert k !in v.table && |v.table| < lane.capacity ==> fenced.table[k] == e && direct.table[k] == e + 1;
  }

  /** A fence, armed once, is consumed by the first publishing operation only, even at the same address. */
  lemma FenceIsConsumedOnce(lane: Lane, v: View, first: nat, second: nat)
    ensures var v' := StoreOp(lane, StoreOp(lane, FenceOp(lane, v, ReleaseOrder), first, Relaxed), second, Relaxed);
            v'.table == TableAfterRelease(v.table, lane.capacity, Key(first, lane.subgroup), EpochOf(v, lane.subgroup))
  {
  }

  /** The handoff the table exists for: what a producer released, a later acquire of the same address
      turns into a token that covers it, and every other consumer's row is untouched. */
  lemma HandoffRaisesToken(producer: Lane, consumer: Lane, v: View, address: nat)
    requires producer.subgroups == consumer.subgroups && producer.capacity == consumer.capacity
    requires producer.subgroup < producer.subgroups && consumer.subgroup < consumer.subgroups
    requires producer.subgroup != consumer.subgroup
    requires |v.tokens| == consumer.subgroups * consumer.subgroups
    requires Key(address, producer.subgroup) in v.table || |v.table| < producer.capacity
    ensures var n := consumer.subgroups;
            var v' := LoadOp(consumer, StoreOp(producer, v, address, ReleaseOrder), address, AcquireOrder);
            && 0 <= consumer.subgroup * n + producer.subgroup < |v'.tokens|
            && EpochOf(v, producer.subgroup) + 1 <= v'.tokens[consumer.subgroup * n + producer.subgroup]
            && (forall i :: 0 <= i < |v.tokens| && i / n != consumer.subgroup ==> v'.tokens[i] == v.tokens[i])
  {
    RowColumn(consumer.subgroups, consumer.subgroup, producer.subgroup);
  }
}
