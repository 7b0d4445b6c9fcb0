/** What every interleaving of the table code keeps, and its proof step by step. The flag `d` selects
    how much is promised: with `d` every epoch bound counts, which needs concurrent releases of one
    key to carry one epoch; without it only presence counts, which needs nothing. */
module ReleaseTableInvariant {
  import opened ReleaseTable

  ghost predicate NonStale(cfg: Config, s: State, i: nat) {
    i < |s.slots| && (s.slots[i].generation == cfg.generation || s.slots[i].generation == CLAIMED)
  }

  ghost predicate Ready(cfg: Config, s: State, i: nat) {
    i < |s.slots| && s.slots[i].generation == cfg.generation
  }

  ghost predicate Holds(cfg: Config, s: State, i: nat, k: Key) {
    i < |s.claims| && NonStale(cfg, s, i) && s.claims[i].key == k
  }

  /** The epoch a slot offers now, or the least it will offer once its claimant publishes it. */
  ghost function Level(cfg: Config, s: State, i: nat): nat {
    if i < |s.slots| && i < |s.claims| then
      if Ready(cfg, s, i) then s.slots[i].epoch else s.claims[i].epoch
    else 0
  }

  ghost function Bound(d: bool, e: nat): nat { if d then e else 0 }

  /** Whether releases of one key can get in each other's way: with a single slot they cannot. */
  ghost predicate Strict(cfg: Config, d: bool) { d && 1 < cfg.capacity }

  // ---------------------------------------------------------------- slots

  /** A claimed or current slot lies on its key's probe path behind non-stale slots only. */
  ghost predicate SlotInv(cfg: Config, s: State, i: nat)
    requires |s.slots| == |s.claims|
  {
    NonStale(cfg, s, i) ==>
      var c := s.claims[i];
      && c.probe < cfg.capacity
      && At(cfg, c.key, c.probe) == i
      && (forall r :: 0 <= r < c.probe ==> NonStale(cfg, s, At(cfg, c.key, r)))
      && (Ready(cfg, s, i) ==>
            && s.slots[i].addr == c.key.addr
            && s.slots[i].producer == c.key.producer
            && c.epoch <= s.slots[i].epoch
            && Recorded(c.key, s.slots[i].epoch) in s.log)
      && (!Ready(cfg, s, i) ==>
            && c.owner < |s.threads|
            && s.threads[c.owner].Releasing?
            && s.threads[c.owner].release == Release(c.key, c.epoch)
            && s.threads[c.owner].rpc.Write?
            && s.threads[c.owner].rpc.slot == i)
  }

  /** The first `n` probes for `k` are settled: non-stale, and of `k` only with a level of at least `e`. */
  ghost predicate Passed(cfg: Config, s: State, k: Key, e: nat, n: nat) {
    forall r :: 0 <= r < n ==>
      && NonStale(cfg, s, At(cfg, k, r))
      && (Holds(cfg, s, At(cfg, k, r), k) ==> e <= Level(cfg, s, At(cfg, k, r)))
  }

  ghost predicate CoversAt(cfg: Config, s: State, k: Key, e: nat, from: nat, q: nat) {
    && from <= q < cfg.capacity
    && Ready(cfg, s, At(cfg, k, q))
    && Holds(cfg, s, At(cfg, k, q), k)
    && (forall r :: from <= r <= q && Holds(cfg, s, At(cfg, k, r), k) ==> e <= Level(cfg, s, At(cfg, k, r)))
  }

  /** From probe `from` on, a lookup of `k` will meet a published record of epoch at least `e`. */
  ghost predicate Covers(cfg: Config, s: State, k: Key, e: nat, from: nat) {
    exists q :: CoversAt(cfg, s, k, e, from, q)
  }

  // ---------------------------------------------------------------- threads

  ghost predicate ReleaseInv(cfg: Config, d: bool, s: State, t: nat, r: Release, pc: ReleasePc)
    requires |s.slots| == |s.claims|
  {
    var k, e := r.key, Bound(Strict(cfg, d), r.epoch);
    && k.producer < |s.epochs| && r.epoch <= s.epochs[k.producer]
    && match pc
       case ReadGeneration(_, probe, _) => Passed(cfg, s, k, e, probe)
       case ReadAddress(_, probe, _) => Passed(cfg, s, k, e, probe) && Ready(cfg, s, At(cfg, k, probe))
       case ReadProducer(_, probe, _, a) =>
         && Passed(cfg, s, k, e, probe) && Ready(cfg, s, At(cfg, k, probe))
         && s.slots[At(cfg, k, probe)].addr == a
       case CompareAndSwap(_, probe, _, seen) =>
         var i := At(cfg, k, probe);
         && Passed(cfg, s, k, e, probe) && seen != cfg.generation && seen != CLAIMED && i < |s.slots|
         && (s.slots[i].generation == seen
             || (NonStale(cfg, s, i) && (Holds(cfg, s, i, k) ==> e <= Level(cfg, s, i))))
       case Write(i, stage) =>
         && Holds(cfg, s, i, k)
         && Passed(cfg, s, k, e, s.claims[i].probe)
         && (if Ready(cfg, s, i) then 3 <= stage else s.claims[i].owner == t && s.claims[i].epoch == r.epoch)
         && (4 <= stage ==> s.slots[i].addr == k.addr)
         && (5 <= stage ==> s.slots[i].producer == k.producer)
         && (3 <= stage <= 5 && !Ready(cfg, s, i) ==> s.slots[i].epoch == 0)
         && (stage == 6 ==>
               && r.epoch <= s.slots[i].epoch
               && Recorded(k, r.epoch) in s.log
               && (Ready(cfg, s, i) || Recorded(k, s.slots[i].epoch) in s.log))
  }

  /** Every release of `k` published before log position `begin` is covered from probe `from` on. */
  ghost predicate Promise(cfg: Config, d: bool, s: State, k: Key, begin: nat, from: nat)
  {
    begin <= |s.log| &&
    forall j :: 0 <= j < begin && s.log[j].Published? && s.log[j].key == k ==>
      Covers(cfg, s, k, Bound(d, s.log[j].epoch), from)
  }

  ghost predicate AtLeast(d: bool, s: State, k: Key, begin: nat, e: nat) {
    begin <= |s.log| &&
    forall j :: 0 <= j < begin && s.log[j].Published? && s.log[j].key == k ==> Bound(d, s.log[j].epoch) <= e
  }

  ghost predicate Served(d: bool, s: State, consumer: nat, k: Key, begin: nat) {
    begin <= |s.log| &&
    forall j :: 0 <= j < begin && s.log[j].Published? && s.log[j].key == k ==>
      Bound(d, s.log[j].epoch) + 1 <= Token(s, consumer, k.producer)
  }

  ghost predicate AcquireInv(cfg: Config, d: bool, s: State, q: Acquire, pc: AcquirePc)
    requires |s.slots| == |s.claims|
  {
    var k := Key(q.addr, q.producer);
    && q.begin <= |s.log|
    && (forall p :: p in q.imported ==> Served(d, s, q.consumer, Key(q.addr, p), q.begin))
    && (!q.cachePass ==> forall p :: 0 <= p < q.producer && p != q.consumer ==>
          Served(d, s, q.consumer, Key(q.addr, p), q.begin))
    && (!pc.NextProducer? ==> q.producer < cfg.subgroups && q.producer != q.consumer)
    && match pc
       case NextProducer => true
       case LookGeneration(probe) => Promise(cfg, d, s, k, q.begin, probe)
       case LookAddress(probe) => Promise(cfg, d, s, k, q.begin, probe) && Ready(cfg, s, At(cfg, k, probe))
       case LookProducer(probe, a) =>
         && Promise(cfg, d, s, k, q.begin, probe) && Ready(cfg, s, At(cfg, k, probe))
         && s.slots[At(cfg, k, probe)].addr == a
       case LookEpoch(i) =>
         && Ready(cfg, s, i) && Holds(cfg, s, i, k) && AtLeast(d, s, k, q.begin, s.slots[i].epoch)
       case RaiseToken(_, e) => Recorded(k, e) in s.log && AtLeast(d, s, k, q.begin, e)
  }

  ghost predicate ThreadInv(cfg: Config, d: bool, s: State, t: nat)
    requires |s.slots| == |s.claims| && t < |s.threads|
  {
    match s.threads[t]
    case Idle => true
    case Releasing(r, pc) => ReleaseInv(cfg, d, s, t, r, pc)
    case Acquiring(q, pc) => AcquireInv(cfg, d, s, q, pc)
  }

  // ---------------------------------------------------------------- log, tokens, whole state

  ghost predicate EntryOk(cfg: Config, d: bool, s: State, j: nat)
    requires j < |s.log|
  {
    match s.log[j]
    case Recorded(k, e) => k.producer < |s.epochs| && e <= s.epochs[k.producer]
    case Published(k, e) => Covers(cfg, s, k, Bound(d, e), 0) && Recorded(k, e) in s.log[..j]
    case Dropped(k) => forall i :: 0 <= i < cfg.capacity ==> NonStale(cfg, s, i)
    case Missed(k, begin) =>
      begin <= j && forall i :: 0 <= i < begin ==> !(s.log[i].Published? && s.log[i].key == k)
    case Imported(c, k, e) => c != k.producer && Recorded(k, e) in s.log[..j]
    case Acquired(c, a, begin) =>
      begin <= j && forall p :: 0 <= p < cfg.subgroups && p != c ==> Served(d, s, c, Key(a, p), begin)
  }

  ghost predicate TokenInv(s: State) {
    forall c, p :: 0 < Token(s, c, p) ==> exists a :: Imported(c, Key(a, p), Token(s, c, p) - 1) in s.log
  }

  ghost predicate SameEpoch(s: State) {
    forall t, u ::
      (&& 0 <= t < |s.threads| && 0 <= u < |s.threads|
       && s.threads[t].Releasing? && s.threads[u].Releasing?
       && s.threads[t].release.key == s.threads[u].release.key) ==>
        s.threads[t].release.epoch == s.threads[u].release.epoch
  }

  ghost predicate Inv(cfg: Config, d: bool, s: State) {
    && Shape(cfg, s)
    && (forall i :: 0 <= i < |s.slots| ==> SlotInv(cfg, s, i))
    && (forall t :: 0 <= t < |s.threads| ==> ThreadInv(cfg, d, s, t))
    && (forall j :: 0 <= j < |s.log| ==> EntryOk(cfg, d, s, j))
    && TokenInv(s)
    && (Strict(cfg, d) ==> SameEpoch(s))
    && (forall t :: 0 <= t < |s.threads| ==> s.fences[t] <= s.epochs[cfg.group[t]] + 1)
  }

  // ---------------------------------------------------------------- how one thread's step moves the state

  ghost predicate Fits(d: bool, s: State, c: Claim) {
    forall t :: 0 <= t < |s.threads| && s.threads[t].Releasing? && s.threads[t].release.key == c.key ==>
      Bound(d, s.threads[t].release.epoch) <= c.epoch
  }

  /** The life of one slot: stale, CLAIMED by one thread, current; never back, keys never changing. */
  ghost predicate SlotMoves(cfg: Config, d: bool, s: State, s': State, actor: nat, i: nat)
    requires |s.slots| == |s.claims| == |s'.slots| == |s'.claims| && i < |s.slots|
  {
    && (NonStale(cfg, s, i) ==>
          && NonStale(cfg, s', i) && s'.claims[i] == s.claims[i]
          && Level(cfg, s, i) <= Level(cfg, s', i))
    && (Ready(cfg, s, i) ==>
          && Ready(cfg, s', i)
          && s'.slots[i].addr == s.slots[i].addr
          && s'.slots[i].producer == s.slots[i].producer)
    && (NonStale(cfg, s, i) && !Ready(cfg, s, i) && s.claims[i].owner != actor ==> s'.slots[i] == s.slots[i])
    && (!NonStale(cfg, s, i) ==>
          s'.slots[i] == s.slots[i] || (NonStale(cfg, s', i) && !Ready(cfg, s', i)
              && Fits(Strict(cfg, d), s, s'.claims[i])))
  }

  ghost predicate Moves(cfg: Config, d: bool, s: State, s': State, actor: nat) {
    && |s.slots| == |s.claims| == |s'.slots| == |s'.claims| == cfg.capacity
    && |s.threads| == |s'.threads|
    && (forall i :: 0 <= i < |s.slots| ==> SlotMoves(cfg, d, s, s', actor, i))
    && (forall t :: 0 <= t < |s.threads| && t != actor ==> s'.threads[t] == s.threads[t])
    && s'.epochs == s.epochs && s'.fences == s.fences
    && s.log <= s'.log
    && (forall c, p :: Token(s, c, p) <= Token(s', c, p))
  }

  lemma PassedStable(cfg: Config, d: bool, s: State, s': State, actor: nat, k: Key, e: nat, n: nat)
    requires ValidConfig(cfg) && Moves(cfg, d, s, s', actor) && n <= cfg.capacity && Passed(cfg, s, k, e, n)
    ensures Passed(cfg, s', k, e, n)
  {
    forall r | 0 <= r < n
      ensures NonStale(cfg, s', At(cfg, k, r))
      ensures Holds(cfg, s', At(cfg, k, r), k) ==> e <= Level(cfg, s', At(cfg, k, r))
    {
      assert SlotMoves(cfg, d, s, s', actor, At(cfg, k, r));
    }
  }

  /** Probe numbers below the capacity name different slots. */
  lemma AtInjective(cfg: Config, k: Key, p: nat, q: nat)
    requires p < cfg.capacity && q < cfg.capacity && At(cfg, k, p) == At(cfg, k, q) && ValidConfig(cfg)
    ensures p == q
  {
  }

  /** A covered lookup stays covered: the slots it will meet can only be published or raised. */
  lemma CoversStable(cfg: Config, d: bool, s: State, s': State, actor: nat, k: Key, e: nat, from: nat)
    requires ValidConfig(cfg) && Moves(cfg, d, s, s', actor) && Covers(cfg, s, k, e, from)
    requires forall i :: 0 <= i < |s.slots| ==> SlotInv(cfg, s, i)
    ensures Covers(cfg, s', k, e, from)
  {
    var q :| CoversAt(cfg, s, k, e, from, q);
    var top := At(cfg, k, q);
    assert SlotInv(cfg, s, top) && SlotMoves(cfg, d, s, s', actor, top);
    AtInjective(cfg, k, q, s.claims[top].probe);
    forall r | from <= r <= q && Holds(cfg, s', At(cfg, k, r), k)
      ensures e <= Level(cfg, s', At(cfg, k, r))
    {
      var i := At(cfg, k, r);
      assert NonStale(cfg, s, i) && SlotMoves(cfg, d, s, s', actor, i);
    }
    assert CoversAt(cfg, s', k, e, from, q);
  }

  lemma PromiseStable(cfg: Config, d: bool, s: State, s': State, actor: nat, k: Key, begin: nat, from: nat)
    requires ValidConfig(cfg) && Moves(cfg, d, s, s', actor) && Promise(cfg, d, s, k, begin, from)
    requires forall i :: 0 <= i < |s.slots| ==> SlotInv(cfg, s, i)
    ensures Promise(cfg, d, s', k, begin, from)
  {
    forall j | 0 <= j < begin && s'.log[j].Published? && s'.log[j].key == k
      ensures Covers(cfg, s', k, Bound(d, s'.log[j].epoch), from)
    {
      assert s.log[j] == s'.log[j];
      CoversStable(cfg, d, s, s', actor, k, Bound(d, s.log[j].epoch), from);
    }
  }

  lemma ServedStable(cfg: Config, d: bool, s: State, s': State, actor: nat, c: nat, k: Key, begin: nat)
    requires Moves(cfg, d, s, s', actor) && Served(d, s, c, k, begin)
    ensures Served(d, s', c, k, begin)
  {
    forall j | 0 <= j < begin && s'.log[j].Published? && s'.log[j].key == k
      ensures Bound(d, s'.log[j].epoch) + 1 <= Token(s', c, k.producer)
    {
      assert s.log[j] == s'.log[j];
    }
  }

  lemma ReleaseStable(cfg: Config, d: bool, s: State, s': State, actor: nat, t: nat)
    requires Shape(cfg, s) && Moves(cfg, d, s, s', actor)
    requires t < |s.threads| && t != actor && s.threads[t].Releasing? && ThreadInv(cfg, d, s, t)
    ensures ThreadInv(cfg, d, s', t)
  {
    var Releasing(r, pc) := s.threads[t];
    var e := Bound(Strict(cfg, d), r.epoch);
    match pc
    case Write(i, stage) =>
      assert SlotMoves(cfg, d, s, s', actor, i);
      var n := s.claims[i].probe;
      forall x | 0 <= x < n && At(cfg, r.key, x) < cfg.capacity
        ensures SlotMoves(cfg, d, s, s', actor, At(cfg, r.key, x)) {}
    case _ =>
      PassedStable(cfg, d, s, s', actor, r.key, e, pc.probe);
      assert SlotMoves(cfg, d, s, s', actor, At(cfg, r.key, pc.probe));
  }

  lemma AcquireStable(cfg: Config, d: bool, s: State, s': State, actor: nat, t: nat)
    requires Shape(cfg, s) && Moves(cfg, d, s, s', actor)
    requires forall i :: 0 <= i < |s.slots| ==> SlotInv(cfg, s, i)
    requires t < |s.threads| && t != actor && s.threads[t].Acquiring? && ThreadInv(cfg, d, s, t)
    ensures ThreadInv(cfg, d, s', t)
  {
    var Acquiring(q, pc) := s.threads[t];
    AcquireInvStable(cfg, d, s, s', actor, q, pc);
  }

  lemma AcquireInvStable(cfg: Config, d: bool, s: State, s': State, actor: nat, q: Acquire, pc: AcquirePc)
    requires Shape(cfg, s) && Moves(cfg, d, s, s', actor) && AcquirePcBounds(cfg, pc)
    requires forall i :: 0 <= i < |s.slots| ==> SlotInv(cfg, s, i)
    requires AcquireInv(cfg, d, s, q, pc)
    ensures AcquireInv(cfg, d, s', q, pc)
  {
    var k := Key(q.addr, q.producer);
    forall p | p in q.imported ensures Served(d, s', q.consumer, Key(q.addr, p), q.begin) {
      ServedStable(cfg, d, s, s', actor, q.consumer, Key(q.addr, p), q.begin);
    }
    if !q.cachePass {
      forall p | 0 <= p < q.producer && p != q.consumer ensures Served(d, s', q.consumer, Key(q.addr, p), q.begin) {
        ServedStable(cfg, d, s, s', actor, q.consumer, Key(q.addr, p), q.begin);
      }
    }
    match pc
    case NextProducer =>
    case LookEpoch(i) => assert SlotMoves(cfg, d, s, s', actor, i);
    case RaiseToken(_, e) =>
    case _ =>
      PromiseStable(cfg, d, s, s', actor, k, q.begin, pc.probe);
      assert SlotMoves(cfg, d, s, s', actor, At(cfg, k, pc.probe));
  }
}
