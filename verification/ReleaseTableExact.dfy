/** When the latest epoch is certain to be found: a run loses it only through a fence carried over a
    barrier while another lane of the subgroup releases, and every configuration in which some subgroup
    has two lanes has such a run. */
module ReleaseTableExact {
  import opened ReleaseTable
  import opened ReleaseTableInvariant
  import opened ReleaseTableTheorems

  /** Every acquire orders its consumer after the latest epoch published before it began. */
  ghost predicate LatestFound(end: State) {
    forall i, j :: 0 <= i < |end.log| && 0 <= j < |end.log| ==> Found(end, i, j)
  }

  ghost predicate Found(end: State, i: nat, j: nat)
    requires i < |end.log| && j < |end.log|
  {
    (&& end.log[i].Published? && end.log[j].Acquired? && i < end.log[j].begin
     && end.log[i].key.addr == end.log[j].addr && end.log[i].key.producer != end.log[j].consumer) ==>
      end.log[i].epoch + 1 <= Token(end, end.log[j].consumer, end.log[i].key.producer)
  }

  ghost predicate OneLanePerSubgroup(cfg: Config) {
    forall t, u :: 0 <= t < u < |cfg.group| ==> cfg.group[t] != cfg.group[u]
  }

  // ---------------------------------------------------------------- one lane: always disciplined

  /** A release in flight belongs to its own thread's subgroup. */
  ghost predicate OwnKeys(cfg: Config, s: State)
    requires |s.threads| == |cfg.group|
  {
    forall t :: 0 <= t < |s.threads| && s.threads[t].Releasing? ==> s.threads[t].release.key.producer == cfg.group[t]
  }

  lemma OwnKeysKept(cfg: Config, s: State, ev: Event)
    requires Shape(cfg, s) && Enabled(s, ev) && OwnKeys(cfg, s)
    ensures Shape(cfg, Step(cfg, s, ev)) && OwnKeys(cfg, Step(cfg, s, ev))
    ensures OneLanePerSubgroup(cfg) ==> Disciplined(cfg, s, ev)
  {
    hide ReleaseStep, AcquireStep;
    StepShape(cfg, s, ev);
    if ev.Tick? && s.threads[ev.t].Releasing? {
      ReleaseStepMoves(cfg, s, ev.t);
    } else if ev.Tick? {
      AcquireStepMoves(cfg, s, ev.t);
    }
  }

  lemma {:induction false} OneLaneIsDisciplined(cfg: Config, s: State, evs: seq<Event>)
    requires Shape(cfg, s) && Runnable(cfg, s, evs) && OwnKeys(cfg, s) && OneLanePerSubgroup(cfg)
    ensures DisciplinedRun(cfg, s, evs)
    decreases |evs|
  {
    if evs != [] {
      OwnKeysKept(cfg, s, evs[0]);
      OneLaneIsDisciplined(cfg, Step(cfg, s, evs[0]), evs[1..]);
    }
  }

  // ---------------------------------------------------------------- a fence carried over a barrier

  ghost predicate Reaches(cfg: Config, s: State, evs: seq<Event>, end: State) {
    Shape(cfg, s) && Shape(cfg, end) && Runnable(cfg, s, evs) && Run(cfg, s, evs) == end
  }

  lemma {:induction false} Then(cfg: Config, s: State, evs: seq<Event>, mid: State, ev: Event)
    requires Reaches(cfg, s, evs, mid) && Enabled(mid, ev)
    ensures Reaches(cfg, s, evs + [ev], Step(cfg, mid, ev))
    decreases |evs|
  {
    StepShape(cfg, mid, ev);
    if evs == [] {
      assert (evs + [ev])[1..] == [];
    } else {
      StepShape(cfg, s, evs[0]);
      Then(cfg, Step(cfg, s, evs[0]), evs[1..], mid, ev);
      assert (evs + [ev])[1..] == evs[1..] + [ev];
    }
  }

  /** A claimant left alone fills its slot in and publishes it in seven steps. */
  lemma FinishWrites(cfg: Config, s: State, evs: seq<Event>, mid: State, t: nat, i: nat)
    returns (evs': seq<Event>, end: State)
    requires Reaches(cfg, s, evs, mid) && t < |mid.threads| && i < cfg.capacity
    requires mid.threads[t].Releasing? && mid.threads[t].rpc == Write(i, 0)
    ensures Reaches(cfg, s, evs', end)
    ensures var r := mid.threads[t].release;
            && end.slots == mid.slots[i := Slot(cfg.generation, r.key.addr, r.key.producer, r.epoch)]
            && end.threads == mid.threads[t := Idle] && end.tokens == mid.tokens && end.epochs == mid.epochs
            && end.log == mid.log + [Recorded(r.key, r.epoch), Published(r.key, r.epoch)]
  {
    evs', end := evs, mid;
    var r := mid.threads[t].release;
    var n := 0;
    while n < 6
      invariant n <= 6 && Reaches(cfg, s, evs', end)
      invariant end.threads == mid.threads[t := Releasing(r, Write(i, n))] && end.tokens == mid.tokens
      invariant end.epochs == mid.epochs
      invariant |end.slots| == |mid.slots|
      invariant forall x :: 0 <= x < |mid.slots| && x != i ==> end.slots[x] == mid.slots[x]
      invariant 1 <= n ==> end.slots[i].addr == r.key.addr
      invariant 2 <= n ==> end.slots[i].producer == r.key.producer
      invariant 3 <= n <= 5 ==> end.slots[i].epoch == 0
      invariant n == 6 ==> end.slots[i].epoch == r.epoch
      invariant end.log == if n == 6 then mid.log + [Recorded(r.key, r.epoch)] else mid.log
    {
      Then(cfg, s, evs', end, Tick(t));
      evs', end := evs' + [Tick(t)], Step(cfg, end, Tick(t));
      n := n + 1;
    }
    Then(cfg, s, evs', end, Tick(t));
    evs', end := evs' + [Tick(t)], Step(cfg, end, Tick(t));
  }

  /** Two lanes of subgroup g, one of another, and where the key of address 100 probes. */
  ghost predicate Cast(cfg: Config, a: nat, b: nat, c: nat) {
    && ValidConfig(cfg) && 2 <= cfg.capacity && a < |cfg.group| && b < |cfg.group| && c < |cfg.group| && a != b
    && cfg.group[a] == cfg.group[b] != cfg.group[c]
  }

  ghost function TheKey(cfg: Config, a: nat): Key
    requires a < |cfg.group|
  {
    Key(100, cfg.group[a])
  }

  ghost function StaleGeneration(cfg: Config): nat { if cfg.generation == 0 then 1 else 0 }

  ghost function Start(cfg: Config): State {
    State(seq(cfg.capacity, i => Slot(StaleGeneration(cfg), 0, 0, 0)),
          seq(cfg.capacity, i => Claim(Key(0, 0), 0, 0, 0)),
          seq(|cfg.group|, t => Idle), map[], seq(cfg.subgroups, g => 0), seq(|cfg.group|, t => 0), [])
  }

  ghost predicate AllIdle(s: State) { forall t :: 0 <= t < |s.threads| ==> s.threads[t].Idle? }

  /** Only lane a is at work, filling in the key's first slot for epoch 0, while all epochs are 1. */
  ghost predicate OlderClaimed(cfg: Config, a: nat, x: State) {
    && ValidConfig(cfg) && a < |cfg.group|
    && var k := TheKey(cfg, a); var h := At(cfg, k, 0);
       && x.threads == Start(cfg).threads[a := Releasing(Release(k, 0), Write(h, 0))]
       && x.slots == Start(cfg).slots[h := Slot(CLAIMED, 0, 0, 0)]
       && x.epochs == seq(cfg.subgroups, g => 1) && x.tokens == map[] && x.log == []
  }

  /** Lane a arms a fence, a barrier passes, and lane a claims the key's first slot for the older epoch. */
  lemma OlderClaims(cfg: Config, a: nat, b: nat, c: nat) returns (evs: seq<Event>, end: State)
    requires Cast(cfg, a, b, c)
    ensures Reaches(cfg, Start(cfg), evs, end) && OlderClaimed(cfg, a, end)
  {
    var s := Start(cfg);
    evs, end := [], s;
    Then(cfg, s, evs, end, ArmFence(a)); evs, end := evs + [ArmFence(a)], Step(cfg, end, ArmFence(a));
    Then(cfg, s, evs, end, Barrier); evs, end := evs + [Barrier], Step(cfg, end, Barrier);
    assert end.fences[a] == 1;
    Then(cfg, s, evs, end, BeginFenced(a, 100));
    evs, end := evs + [BeginFenced(a, 100)], Step(cfg, end, BeginFenced(a, 100));
    Then(cfg, s, evs, end, Tick(a)); evs, end := evs + [Tick(a)], Step(cfg, end, Tick(a));
    Then(cfg, s, evs, end, Tick(a)); evs, end := evs + [Tick(a)], Step(cfg, end, Tick(a));
  }

  /** Lane b passes the slot that lane a is filling in and publishes epoch 1 in the next one. */
  lemma NewerRelease(cfg: Config, a: nat, b: nat, c: nat, s: State, evs: seq<Event>, x: State)
    returns (evs': seq<Event>, end: State)
    requires Cast(cfg, a, b, c) && Reaches(cfg, s, evs, x) && OlderClaimed(cfg, a, x)
    ensures var k := TheKey(cfg, a);
            && Reaches(cfg, s, evs', end) && end.threads == x.threads && end.tokens == map[] && end.epochs == x.epochs
            && At(cfg, k, 1) != At(cfg, k, 0)
            && end.slots == x.slots[At(cfg, k, 1) := Slot(cfg.generation, 100, k.producer, 1)]
            && end.log == [Recorded(k, 1), Published(k, 1)]
  {
    var k := TheKey(cfg, a);
    evs', end := evs, x;
    Then(cfg, s, evs', end, BeginRelease(b, 100));
    evs', end := evs' + [BeginRelease(b, 100)], Step(cfg, end, BeginRelease(b, 100));
    Then(cfg, s, evs', end, Tick(b)); evs', end := evs' + [Tick(b)], Step(cfg, end, Tick(b));
    assert end.threads[b] == Releasing(Release(k, 1), ReadGeneration(0, 1, true));
    Then(cfg, s, evs', end, Tick(b)); evs', end := evs' + [Tick(b)], Step(cfg, end, Tick(b));
    Then(cfg, s, evs', end, Tick(b)); evs', end := evs' + [Tick(b)], Step(cfg, end, Tick(b));
    evs', end := FinishWrites(cfg, s, evs', end, b, At(cfg, k, 1));
    assert end.threads == x.threads;
  }

  // ---------------------------------------------------------------- an undisturbed acquire

  /** Slots of the current generation hold the key, the first one on its path epoch 0. */
  ghost predicate OnlyKey(cfg: Config, k: Key, s: State) {
    && ValidConfig(cfg) && |s.slots| == cfg.capacity
    && s.slots[At(cfg, k, 0)] == Slot(cfg.generation, k.addr, k.producer, 0)
    && forall i :: 0 <= i < |s.slots| ==>
         && s.slots[i].generation != CLAIMED
         && (s.slots[i].generation == cfg.generation ==> s.slots[i].addr == k.addr && s.slots[i].producer == k.producer)
  }

  ghost predicate Acquirer(s: State, c: nat, q: Acquire, pc: AcquirePc) {
    c < |s.threads| && s.threads[c] == Acquiring(q, pc)
  }

  /** What an acquire by lane c leaves alone: slots, epochs, other lanes, the log so far, to which it adds no
      release, and the key's token, at most 1. */
  ghost predicate Untouched(k: Key, consumer: nat, c: nat, x: State, s: State) {
    && s.slots == x.slots && s.epochs == x.epochs && Token(s, consumer, k.producer) <= 1
    && |s.threads| == |x.threads| && (forall u :: 0 <= u < |x.threads| && u != c ==> s.threads[u] == x.threads[u])
    && x.log <= s.log
    && (forall j :: |x.log| <= j < |s.log| ==> !s.log[j].Recorded? && !s.log[j].Published?)
  }

  lemma UntouchedTwice(k: Key, consumer: nat, c: nat, x: State, y: State, z: State)
    requires Untouched(k, consumer, c, x, y) && Untouched(k, consumer, c, y, z)
    ensures Untouched(k, consumer, c, x, z)
  {
  }

  /** A lookup of another producer's key misses, from any probe on. */
  lemma {:induction false} LookupMisses(cfg: Config, s0: State, evs: seq<Event>, x: State, k: Key, c: nat, q: Acquire,
                                        probe: nat)
    returns (evs': seq<Event>, end: State)
    requires Reaches(cfg, s0, evs, x) && OnlyKey(cfg, k, x) && Acquirer(x, c, q, LookGeneration(probe))
    requires probe < cfg.capacity && q.addr == k.addr && q.producer != k.producer
        && Token(x, q.consumer, k.producer) <= 1
    ensures Reaches(cfg, s0, evs', end) && Untouched(k, q.consumer, c, x, end)
    ensures Acquirer(end, c, q.(producer := q.producer + 1), NextProducer)
    decreases cfg.capacity - probe
  {
    var i := At(cfg, Key(q.addr, q.producer), probe);
    evs', end := evs, x;
    Then(cfg, s0, evs', end, Tick(c)); evs', end := evs' + [Tick(c)], Step(cfg, end, Tick(c));
    if x.slots[i].generation == cfg.generation {
      Then(cfg, s0, evs', end, Tick(c)); evs', end := evs' + [Tick(c)], Step(cfg, end, Tick(c));
      assert Acquirer(end, c, q, LookProducer(probe, k.addr));
      Then(cfg, s0, evs', end, Tick(c)); evs', end := evs' + [Tick(c)], Step(cfg, end, Tick(c));
      if probe + 1 < cfg.capacity {
        var y := end;
        evs', end := LookupMisses(cfg, s0, evs', y, k, c, q, probe + 1);
        UntouchedTwice(k, q.consumer, c, x, y, end);
      }
    }
  }

  /** A lookup of the key stops at its first slot: the older epoch. */
  lemma LookupStops(cfg: Config, s0: State, evs: seq<Event>, x: State, k: Key, c: nat, q: Acquire)
    returns (evs': seq<Event>, end: State)
    requires Reaches(cfg, s0, evs, x) && OnlyKey(cfg, k, x) && Acquirer(x, c, q, LookGeneration(0)) && !q.cachePass
    requires q.addr == k.addr && q.producer == k.producer && Token(x, q.consumer, k.producer) <= 1
    ensures Reaches(cfg, s0, evs', end) && Untouched(k, q.consumer, c, x, end)
    ensures Acquirer(end, c, q.(producer := q.producer + 1), NextProducer)
  {
    var h := At(cfg, k, 0);
    evs', end := evs, x;
    Then(cfg, s0, evs', end, Tick(c)); evs', end := evs' + [Tick(c)], Step(cfg, end, Tick(c));
    Then(cfg, s0, evs', end, Tick(c)); evs', end := evs' + [Tick(c)], Step(cfg, end, Tick(c));
    Then(cfg, s0, evs', end, Tick(c)); evs', end := evs' + [Tick(c)], Step(cfg, end, Tick(c));
    assert Acquirer(end, c, q, LookEpoch(h)) && end.slots == x.slots && end.log == x.log && end.tokens == x.tokens;
    Then(cfg, s0, evs', end, Tick(c)); evs', end := evs' + [Tick(c)], Step(cfg, end, Tick(c));
    Then(cfg, s0, evs', end, Tick(c)); evs', end := evs' + [Tick(c)], Step(cfg, end, Tick(c));
  }

  /** The table pass from some producer on, to the end of the acquire. */
  lemma {:induction false} TablePass(cfg: Config, s0: State, evs: seq<Event>, x: State, k: Key, c: nat, q: Acquire)
    returns (evs': seq<Event>, end: State)
    requires Reaches(cfg, s0, evs, x) && OnlyKey(cfg, k, x) && Acquirer(x, c, q, NextProducer)
    requires !q.cachePass && q.producer <= cfg.subgroups && q.imported == {} && q.addr == k.addr
    requires Token(x, q.consumer, k.producer) <= 1
    ensures Reaches(cfg, s0, evs', end) && Untouched(k, q.consumer, c, x, end)
    ensures |x.log| < |end.log| && end.log[|end.log| - 1] == Acquired(q.consumer, q.addr, q.begin)
    ensures end.threads[c].Idle?
    decreases cfg.subgroups - q.producer
  {
    evs', end := evs, x;
    Then(cfg, s0, evs', end, Tick(c)); evs', end := evs' + [Tick(c)], Step(cfg, end, Tick(c));
    if q.producer < cfg.subgroups {
      if q.producer != q.consumer {
        if q.producer == k.producer {
          evs', end := LookupStops(cfg, s0, evs', end, k, c, q);
        } else {
          evs', end := LookupMisses(cfg, s0, evs', end, k, c, q, 0);
        }
      }
      var y := end;
      evs', end := TablePass(cfg, s0, evs', y, k, c, q.(producer := q.producer + 1));
      UntouchedTwice(k, q.consumer, c, x, y, end);
    }
  }

  /** The cache pass with an empty mask skips every producer. */
  lemma {:induction false} CachePass(cfg: Config, s0: State, evs: seq<Event>, x: State, c: nat, q: Acquire)
    returns (evs': seq<Event>, end: State)
    requires Reaches(cfg, s0, evs, x) && Acquirer(x, c, q, NextProducer)
    requires q.cachePass && q.mask == {} && q.producer <= cfg.subgroups
    ensures Reaches(cfg, s0, evs', end)
    ensures end.slots == x.slots && end.log == x.log && end.tokens == x.tokens && end.epochs == x.epochs
    ensures |end.threads| == |x.threads|
    ensures forall u :: 0 <= u < |x.threads| && u != c ==> end.threads[u] == x.threads[u]
    ensures Acquirer(end, c, q.(cachePass := false, producer := 0), NextProducer)
    decreases cfg.subgroups - q.producer
  {
    evs', end := evs, x;
    Then(cfg, s0, evs', end, Tick(c)); evs', end := evs' + [Tick(c)], Step(cfg, end, Tick(c));
    if q.producer < cfg.subgroups {
      evs', end := CachePass(cfg, s0, evs', end, c, q.(producer := q.producer + 1));
    }
  }

  /** Lane c acquires the address while everybody else rests. */
  lemma AcquireAlone(cfg: Config, s0: State, evs: seq<Event>, x: State, k: Key, c: nat)
    returns (evs': seq<Event>, end: State)
    requires Reaches(cfg, s0, evs, x) && OnlyKey(cfg, k, x) && AllIdle(x) && c < |x.threads|
    requires Token(x, cfg.group[c], k.producer) <= 1
    ensures Reaches(cfg, s0, evs', end) && Untouched(k, cfg.group[c], c, x, end) && AllIdle(end)
    ensures |x.log| < |end.log| && end.log[|end.log| - 1] == Acquired(cfg.group[c], k.addr, |x.log|)
  {
    var q := Acquire(k.addr, cfg.group[c], |x.log|, {}, {}, true, 0);
    Then(cfg, s0, evs, x, BeginAcquire(c, k.addr, {}));
    var y, z: State;
    evs', y := evs + [BeginAcquire(c, k.addr, {})], Step(cfg, x, BeginAcquire(c, k.addr, {}));
    evs', z := CachePass(cfg, s0, evs', y, c, q);
    evs', end := TablePass(cfg, s0, evs', z, k, c, q.(cachePass := false));
  }

  /** Lane a releases alone in a fresh launch. */
  lemma ReleaseAlone(cfg: Config, a: nat) returns (evs: seq<Event>, end: State)
    requires ValidConfig(cfg) && a < |cfg.group|
    ensures var k := TheKey(cfg, a);
            && Reaches(cfg, Start(cfg), evs, end) && OnlyKey(cfg, k, end) && AllIdle(end) && end.tokens == map[]
            && end.log == [Recorded(k, 0), Published(k, 0)] && end.epochs == Start(cfg).epochs
  {
    var s, k := Start(cfg), TheKey(cfg, a);
    evs, end := [], s;
    Then(cfg, s, evs, end, BeginRelease(a, 100));
    evs, end := evs + [BeginRelease(a, 100)], Step(cfg, end, BeginRelease(a, 100));
    Then(cfg, s, evs, end, Tick(a)); evs, end := evs + [Tick(a)], Step(cfg, end, Tick(a));
    Then(cfg, s, evs, end, Tick(a)); evs, end := evs + [Tick(a)], Step(cfg, end, Tick(a));
    evs, end := FinishWrites(cfg, s, evs, end, a, At(cfg, k, 0));
  }

  /** Lane a releases once more, over its record, which is the first on the key's path. */
  lemma ReleaseAgain(cfg: Config, s0: State, evs: seq<Event>, x: State, a: nat)
    returns (evs': seq<Event>, end: State)
    requires a < |cfg.group| && Reaches(cfg, s0, evs, x) && OnlyKey(cfg, TheKey(cfg, a), x) && AllIdle(x)
    requires cfg.group[a] < |x.epochs| && x.epochs[cfg.group[a]] == 0
    ensures Reaches(cfg, s0, evs', end) && AllIdle(end) && end.epochs == x.epochs && end.tokens == x.tokens
    ensures end.log == x.log + [Recorded(TheKey(cfg, a), 0), Published(TheKey(cfg, a), 0)]
  {
    var k, h := TheKey(cfg, a), At(cfg, TheKey(cfg, a), 0);
    evs', end := evs, x;
    Then(cfg, s0, evs', end, BeginRelease(a, 100));
    evs', end := evs' + [BeginRelease(a, 100)], Step(cfg, end, BeginRelease(a, 100));
    Then(cfg, s0, evs', end, Tick(a)); evs', end := evs' + [Tick(a)], Step(cfg, end, Tick(a));
    Then(cfg, s0, evs', end, Tick(a)); evs', end := evs' + [Tick(a)], Step(cfg, end, Tick(a));
    Then(cfg, s0, evs', end, Tick(a)); evs', end := evs' + [Tick(a)], Step(cfg, end, Tick(a));
    assert end.slots == x.slots && end.threads == x.threads[a := Releasing(Release(k, 0), Write(h, 3))];
    evs', end := FinishRewrite(cfg, s0, evs', end, a, h);
  }

  /** The last four stores of a release that found its record. */
  lemma FinishRewrite(cfg: Config, s: State, evs: seq<Event>, mid: State, t: nat, i: nat)
    returns (evs': seq<Event>, end: State)
    requires Reaches(cfg, s, evs, mid) && t < |mid.threads| && i < cfg.capacity
    requires mid.threads[t].Releasing? && mid.threads[t].rpc == Write(i, 3)
    ensures Reaches(cfg, s, evs', end)
    ensures var r := mid.threads[t].release;
            && end.threads == mid.threads[t := Idle] && end.tokens == mid.tokens && end.epochs == mid.epochs
            && end.log == mid.log + [Recorded(r.key, r.epoch), Published(r.key, r.epoch)]
  {
    evs', end := evs, mid;
    Then(cfg, s, evs', end, Tick(t)); evs', end := evs' + [Tick(t)], Step(cfg, end, Tick(t));
    Then(cfg, s, evs', end, Tick(t)); evs', end := evs' + [Tick(t)], Step(cfg, end, Tick(t));
    Then(cfg, s, evs', end, Tick(t)); evs', end := evs' + [Tick(t)], Step(cfg, end, Tick(t));
    Then(cfg, s, evs', end, Tick(t)); evs', end := evs' + [Tick(t)], Step(cfg, end, Tick(t));
  }

  /** From the moment the older epoch has its claim: lane b releases in the new epoch, lane a finishes, and
      lane c acquires. The acquire began after the newer release was published, and misses it. */
  lemma LatestIsLost(cfg: Config, a: nat, b: nat, c: nat, s0: State, evs: seq<Event>, x: State)
    returns (evs': seq<Event>, end: State)
    requires Cast(cfg, a, b, c) && Reaches(cfg, s0, evs, x) && OlderClaimed(cfg, a, x)
    ensures var k := TheKey(cfg, a);
            && Reaches(cfg, s0, evs', end) && AllIdle(end) && end.epochs == x.epochs
            && 4 < |end.log| && end.log[1] == Published(k, 1)
            && end.log[|end.log| - 1] == Acquired(cfg.group[c], 100, 4)
            && Token(end, cfg.group[c], k.producer) <= 1
  {
    var k, y := TheKey(cfg, a), x;
    evs', y := NewerRelease(cfg, a, b, c, s0, evs, y);
    evs', y := FinishWrites(cfg, s0, evs', y, a, At(cfg, k, 0));
    evs', end := AcquireAlone(cfg, s0, evs', y, k, c);
    assert end.log[1] == y.log[1];
  }

  /** In every configuration with two lanes in one subgroup and a lane in another, the latest epoch can be
      lost: lane a stores with a fence armed before a barrier while lane b releases in the new epoch; the
      older record ends up first on the probe path and hides the newer one. */
  lemma StaleFenceHidesLatestEpoch(cfg: Config, a: nat, b: nat, c: nat) returns (s: State, evs: seq<Event>)
    requires Cast(cfg, a, b, c)
    ensures Init(cfg, s) && Runnable(cfg, s, evs)
    ensures var end := Run(cfg, s, evs);
            && 1 < |end.log| && !Found(end, 1, |end.log| - 1) && !LatestFound(end)
            && end.log[1] == Published(TheKey(cfg, a), 1)
            && end.log[|end.log| - 1].Acquired? && end.log[|end.log| - 1].consumer == cfg.group[c]
  {
    s := Start(cfg);
    var x, end: State;
    evs, x := OlderClaims(cfg, a, b, c);
    evs, end := LatestIsLost(cfg, a, b, c, s, evs, x);
    assert !Found(end, 1, |end.log| - 1);
  }

  /** No epoch can be lost: a single slot, one lane per subgroup, or a single subgroup with lanes. */
  ghost predicate NothingToLose(cfg: Config) {
    || cfg.capacity == 1
    || OneLanePerSubgroup(cfg)
    || (forall t, u :: 0 <= t < |cfg.group| && 0 <= u < |cfg.group| ==> cfg.group[t] == cfg.group[u])
  }

  lemma SomeCast(cfg: Config) returns (a: nat, b: nat, c: nat)
    requires ValidConfig(cfg) && !NothingToLose(cfg)
    ensures Cast(cfg, a, b, c)
  {
    a, b :| 0 <= a < b < |cfg.group| && cfg.group[a] == cfg.group[b];
    var t, u :| 0 <= t < |cfg.group| && 0 <= u < |cfg.group| && cfg.group[t] != cfg.group[u];
    c := if cfg.group[t] != cfg.group[a] then t else u;
  }

  /** Every run of a configuration finds the latest epoch exactly when it has a single slot, one lane per
      subgroup, or a single subgroup. (With more it still does in every run whose concurrent releases of
      one key carry one epoch, in particular if no fence is carried over a barrier.) */
  lemma LatestFoundExactly(cfg: Config)
    requires ValidConfig(cfg)
    ensures (forall s, evs :: Init(cfg, s) && Runnable(cfg, s, evs) ==> LatestFound(Run(cfg, s, evs)))
       <==> NothingToLose(cfg)
  {
    if NothingToLose(cfg) {
      forall s, evs | Init(cfg, s) && Runnable(cfg, s, evs) ensures LatestFound(Run(cfg, s, evs)) {
        LatestIsFound(cfg, s, evs);
      }
    } else {
      var a, b, c := SomeCast(cfg);
      var s, evs := StaleFenceHidesLatestEpoch(cfg, a, b, c);
    }
  }

  lemma LatestIsFound(cfg: Config, s: State, evs: seq<Event>)
    requires Init(cfg, s) && Runnable(cfg, s, evs) && NothingToLose(cfg)
    ensures LatestFound(Run(cfg, s, evs))
  {
    if cfg.capacity == 1 {
      DisciplinedFindsLatest(cfg, s, evs);
    } else if OneLanePerSubgroup(cfg) {
      OneLaneIsDisciplined(cfg, s, evs);
      DisciplinedFindsLatest(cfg, s, evs);
    } else {
      RunNamesLanes(cfg, s, evs);
    }
  }

  lemma DisciplinedFindsLatest(cfg: Config, s: State, evs: seq<Event>)
    requires Init(cfg, s) && Runnable(cfg, s, evs) && (DisciplinedRun(cfg, s, evs) || cfg.capacity == 1)
    ensures LatestFound(Run(cfg, s, evs))
  {
    var end := Run(cfg, s, evs);
    forall i, j | 0 <= i < |end.log| && 0 <= j < |end.log| ensures Found(end, i, j) {
      if end.log[i].Published? && end.log[j].Acquired? && i < end.log[j].begin
         && end.log[i].key.addr == end.log[j].addr && end.log[i].key.producer != end.log[j].consumer {
        AcquireImportsLatestEpoch(cfg, s, evs, i, j);
      }
    }
  }

  // ---------------------------------------------------------------- one subgroup: nobody to hand over to

  /** Releases and acquires, in flight and logged, are of subgroups that have lanes. */
  ghost predicate NamesLanes(cfg: Config, s: State) {
    && (forall t :: 0 <= t < |s.threads| && s.threads[t].Releasing? ==> s.threads[t].release.key.producer in cfg.group)
    && (forall t :: 0 <= t < |s.threads| && s.threads[t].Acquiring? ==> s.threads[t].acquire.consumer in cfg.group)
    && (forall j :: 0 <= j < |s.log| && s.log[j].Published? ==> s.log[j].key.producer in cfg.group)
    && (forall j :: 0 <= j < |s.log| && s.log[j].Acquired? ==> s.log[j].consumer in cfg.group)
  }

  lemma ReleaseNamesLanes(cfg: Config, s: State, t: nat)
    requires Shape(cfg, s) && NamesLanes(cfg, s) && t < |s.threads| && s.threads[t].Releasing?
    ensures NamesLanes(cfg, ReleaseStep(cfg, s, t))
  {
    ReleaseStepMoves(cfg, s, t);
  }

  lemma AcquireNamesLanes(cfg: Config, s: State, t: nat)
    requires Shape(cfg, s) && NamesLanes(cfg, s) && t < |s.threads| && s.threads[t].Acquiring?
    ensures NamesLanes(cfg, AcquireStep(cfg, s, t))
  {
    AcquireStepMoves(cfg, s, t);
  }

  lemma {:induction false} StepsNameLanes(cfg: Config, s: State, evs: seq<Event>)
    requires Shape(cfg, s) && Runnable(cfg, s, evs) && NamesLanes(cfg, s)
    ensures NamesLanes(cfg, Run(cfg, s, evs))
    decreases |evs|
  {
    hide ReleaseStep, AcquireStep;
    if evs != [] {
      var ev := evs[0];
      StepShape(cfg, s, ev);
      if ev.Tick? && s.threads[ev.t].Releasing? {
        ReleaseNamesLanes(cfg, s, ev.t);
      } else if ev.Tick? {
        AcquireNamesLanes(cfg, s, ev.t);
      }
      StepsNameLanes(cfg, Step(cfg, s, ev), evs[1..]);
    }
  }

  lemma RunNamesLanes(cfg: Config, s: State, evs: seq<Event>)
    requires Init(cfg, s) && Runnable(cfg, s, evs)
    requires forall t, u :: 0 <= t < |cfg.group| && 0 <= u < |cfg.group| ==> cfg.group[t] == cfg.group[u]
    ensures LatestFound(Run(cfg, s, evs))
  {
    StepsNameLanes(cfg, s, evs);
    var end := Run(cfg, s, evs);
    forall i, j | 0 <= i < |end.log| && 0 <= j < |end.log| ensures Found(end, i, j) {
      if end.log[i].Published? && end.log[j].Acquired? {
        assert end.log[i].key.producer == end.log[j].consumer;
      }
    }
  }
}
