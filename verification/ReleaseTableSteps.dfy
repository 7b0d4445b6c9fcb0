/** Every step of every thread keeps the invariant. */
module ReleaseTableSteps {
  import opened ReleaseTable
  import opened ReleaseTableInvariant

  lemma EntryStable(cfg: Config, d: bool, s: State, s': State, actor: nat, j: nat)
    requires Shape(cfg, s) && Moves(cfg, d, s, s', actor)
    requires forall i :: 0 <= i < |s.slots| ==> SlotInv(cfg, s, i)
    requires j < |s.log| && EntryOk(cfg, d, s, j)
    ensures EntryOk(cfg, d, s', j)
  {
    assert s'.log[j] == s.log[j] && s'.log[..j] == s.log[..j];
    match s.log[j]
    case Published(k, e) => CoversStable(cfg, d, s, s', actor, k, Bound(d, e), 0);
    case Dropped(_) =>
      forall i | 0 <= i < cfg.capacity ensures NonStale(cfg, s', i) { assert SlotMoves(cfg, d, s, s', actor, i); }
    case Acquired(c, a, begin) =>
      forall p | 0 <= p < cfg.subgroups && p != c ensures Served(d, s', c, Key(a, p), begin) {
        ServedStable(cfg, d, s, s', actor, c, Key(a, p), begin);
      }
    case _ =>
  }

  lemma Assemble(cfg: Config, d: bool, s: State, s': State, actor: nat)
    requires Inv(cfg, d, s) && Shape(cfg, s') && Moves(cfg, d, s, s', actor) && actor < |s.threads|
    requires forall i :: 0 <= i < |s'.slots| ==> SlotInv(cfg, s', i)
    requires ThreadInv(cfg, d, s', actor)
    requires forall j :: |s.log| <= j < |s'.log| ==> EntryOk(cfg, d, s', j)
    requires TokenInv(s') && (Strict(cfg, d) ==> SameEpoch(s'))
    ensures Inv(cfg, d, s')
  {
    forall t | 0 <= t < |s'.threads| && t != actor ensures ThreadInv(cfg, d, s', t) {
      assert ThreadInv(cfg, d, s, t) && s'.threads[t] == s.threads[t];
      if s.threads[t].Releasing? { ReleaseStable(cfg, d, s, s', actor, t); }
      if s.threads[t].Acquiring? { AcquireStable(cfg, d, s, s', actor, t); }
    }
    forall j | 0 <= j < |s'.log| ensures EntryOk(cfg, d, s', j) {
      if j < |s.log| { EntryStable(cfg, d, s, s', actor, j); }
    }
  }

  /** A step that touches no slot. */
  ghost predicate Local(s: State, s': State, actor: nat) {
    && s'.slots == s.slots && s'.claims == s.claims
    && |s'.threads| == |s.threads|
    && (forall t :: 0 <= t < |s.threads| && t != actor ==> s'.threads[t] == s.threads[t])
    && s'.epochs == s.epochs && s'.fences == s.fences
    && s.log <= s'.log
    && (forall c, p :: Token(s, c, p) <= Token(s', c, p))
  }

  lemma LocalKeeps(cfg: Config, d: bool, s: State, s': State, actor: nat)
    requires Inv(cfg, d, s) && Local(s, s', actor) && actor < |s.threads|
    requires !(s.threads[actor].Releasing? && s.threads[actor].rpc.Write?)
    ensures Moves(cfg, d, s, s', actor)
    ensures forall i :: 0 <= i < |s'.slots| ==> SlotInv(cfg, s', i)
  {
    forall i | 0 <= i < |s'.slots| ensures SlotInv(cfg, s', i) {
      assert SlotInv(cfg, s, i);
    }
  }

  lemma SameEpochKept(s: State, s': State, actor: nat)
    requires SameEpoch(s) && |s'.threads| == |s.threads| && actor < |s.threads|
    requires forall t :: 0 <= t < |s.threads| && t != actor ==> s'.threads[t] == s.threads[t]
    requires s'.threads[actor].Releasing? ==>
               s.threads[actor].Releasing? && s'.threads[actor].release == s.threads[actor].release
    ensures SameEpoch(s')
  {
    forall t, u | 0 <= t < |s'.threads| && 0 <= u < |s'.threads|
        && s'.threads[t].Releasing? && s'.threads[u].Releasing?
        && s'.threads[t].release.key == s'.threads[u].release.key
      ensures s'.threads[t].release.epoch == s'.threads[u].release.epoch
    {
      assert s'.threads[t].release == s.threads[t].release && s'.threads[u].release == s.threads[u].release;
    }
  }

  lemma TokensKept(s: State, s': State)
    requires TokenInv(s) && s'.tokens == s.tokens && s.log <= s'.log
    ensures TokenInv(s')
  {
    forall c, p | 0 < Token(s', c, p)
      ensures exists a :: Imported(c, Key(a, p), Token(s', c, p) - 1) in s'.log
    {
      assert Token(s, c, p) == Token(s', c, p);
      var a :| Imported(c, Key(a, p), Token(s, c, p) - 1) in s.log;
      assert Imported(c, Key(a, p), Token(s', c, p) - 1) in s'.log;
    }
  }

  // ---------------------------------------------------------------- releases

  /** A full round of probes visits every slot. */
  lemma RoundVisitsAll(cfg: Config, s: State, k: Key, e: nat)
    requires ValidConfig(cfg) && Passed(cfg, s, k, e, cfg.capacity)
    ensures forall i :: 0 <= i < cfg.capacity ==> NonStale(cfg, s, i)
  {
    forall i | 0 <= i < cfg.capacity ensures NonStale(cfg, s, i) {
      var q := if cfg.home(k) <= i then i - cfg.home(k) else i + cfg.capacity - cfg.home(k);
      assert At(cfg, k, q) == i;
    }
  }

  /** Leaving a probe behind is sound once that probe is settled. */
  lemma NextProbeKeeps(cfg: Config, d: bool, s: State, t: nat, attempt: nat, probe: nat, saw: bool)
    requires Inv(cfg, d, s) && t < |s.threads| && s.threads[t].Releasing? && !s.threads[t].rpc.Write?
    requires probe < cfg.capacity && attempt < ATTEMPTS
    requires Passed(cfg, s, s.threads[t].release.key, Bound(Strict(cfg, d), s.threads[t].release.epoch), probe + 1)
    ensures Inv(cfg, d, NextProbe(cfg, s, t, attempt, probe, saw))
  {
    var s' := NextProbe(cfg, s, t, attempt, probe, saw);
    var r := s.threads[t].release;
    assert ThreadInv(cfg, d, s, t);
    LocalKeeps(cfg, d, s, s', t);
    PassedStable(cfg, d, s, s', t, r.key, Bound(Strict(cfg, d), r.epoch), probe + 1);
    if probe + 1 == cfg.capacity { RoundVisitsAll(cfg, s', r.key, Bound(Strict(cfg, d), r.epoch)); }
    TokensKept(s, s');
    if Strict(cfg, d) { SameEpochKept(s, s', t); }
    Assemble(cfg, d, s, s', t);
  }

  /** A release may pass a slot: it is non-stale, and if it is of the same key it is no older. */
  lemma MayPass(cfg: Config, d: bool, s: State, t: nat, probe: nat)
    requires Inv(cfg, d, s) && t < |s.threads| && s.threads[t].Releasing? && probe < cfg.capacity
    requires Passed(cfg, s, s.threads[t].release.key, Bound(Strict(cfg, d), s.threads[t].release.epoch), probe)
    requires NonStale(cfg, s, At(cfg, s.threads[t].release.key, probe))
    requires var i := At(cfg, s.threads[t].release.key, probe);
             Ready(cfg, s, i) ==> !Holds(cfg, s, i, s.threads[t].release.key)
    ensures Passed(cfg, s, s.threads[t].release.key, Bound(Strict(cfg, d), s.threads[t].release.epoch), probe + 1)
  {
    var r := s.threads[t].release;
    var i := At(cfg, r.key, probe);
    assert SlotInv(cfg, s, i);
    if Holds(cfg, s, i, r.key) && Strict(cfg, d) {
      assert s.threads[s.claims[i].owner].release.key == r.key;
    }
  }

  lemma LocalRelease(cfg: Config, d: bool, s: State, t: nat, pc: ReleasePc)
    requires Inv(cfg, d, s) && t < |s.threads| && s.threads[t].Releasing? && !s.threads[t].rpc.Write?
    requires ReleasePcBounds(cfg, pc) && ReleaseInv(cfg, d, s, t, s.threads[t].release, pc)
    ensures Inv(cfg, d, Goto(s, t, Releasing(s.threads[t].release, pc)))
  {
    var s' := Goto(s, t, Releasing(s.threads[t].release, pc));
    var r := s.threads[t].release;
    LocalKeeps(cfg, d, s, s', t);
    if !pc.Write? { PassedStable(cfg, d, s, s', t, r.key, Bound(Strict(cfg, d), r.epoch), pc.probe); }
    assert ReleaseInv(cfg, d, s', t, r, pc);
    TokensKept(s, s');
    if Strict(cfg, d) { SameEpochKept(s, s', t); }
    Assemble(cfg, d, s, s', t);
  }

  lemma ReadProducerKeeps(cfg: Config, d: bool, s: State, t: nat)
    requires Inv(cfg, d, s) && t < |s.threads| && s.threads[t].Releasing? && s.threads[t].rpc.ReadProducer?
    ensures Inv(cfg, d, ReleaseStep(cfg, s, t))
  {
    var Releasing(r, ReadProducer(attempt, probe, saw, a)) := s.threads[t];
    var i := At(cfg, r.key, probe);
    assert ThreadInv(cfg, d, s, t) && SlotInv(cfg, s, i);
    if a == r.key.addr && s.slots[i].producer == r.key.producer {
      AtInjective(cfg, r.key, probe, s.claims[i].probe);
      LocalRelease(cfg, d, s, t, Write(i, 3));
    } else {
      MayPass(cfg, d, s, t, probe);
      NextProbeKeeps(cfg, d, s, t, attempt, probe, saw);
    }
  }

  lemma ClaimKeeps(cfg: Config, d: bool, s: State, t: nat)
    requires Inv(cfg, d, s) && t < |s.threads| && s.threads[t].Releasing? && s.threads[t].rpc.CompareAndSwap?
    ensures Inv(cfg, d, ReleaseStep(cfg, s, t))
  {
    var Releasing(r, CompareAndSwap(attempt, probe, saw, seen)) := s.threads[t];
    var i := At(cfg, r.key, probe);
    assert ThreadInv(cfg, d, s, t);
    if s.slots[i].generation != seen {
      MayPassFailedSwap(cfg, d, s, t);
      NextProbeKeeps(cfg, d, s, t, attempt, probe, true);
    } else {
      var s' := ReleaseStep(cfg, s, t);
      forall u | 0 <= u < |s.threads| && s.threads[u].Releasing? && s.threads[u].release.key == r.key
        ensures Bound(Strict(cfg, d), s.threads[u].release.epoch) <= r.epoch
      {
        if Strict(cfg, d) { assert SameEpoch(s); }
      }
      assert Fits(Strict(cfg, d), s, s'.claims[i]);
      assert SlotMoves(cfg, d, s, s', t, i);
      assert forall j :: 0 <= j < |s.slots| && j != i ==> SlotMoves(cfg, d, s, s', t, j);
      assert Moves(cfg, d, s, s', t);
      forall j | 0 <= j < |s'.slots| ensures SlotInv(cfg, s', j) {
        assert SlotInv(cfg, s, j);
      }
      PassedStable(cfg, d, s, s', t, r.key, Bound(Strict(cfg, d), r.epoch), probe);
      TokensKept(s, s');
      if Strict(cfg, d) { SameEpochKept(s, s', t); }
      Assemble(cfg, d, s, s', t);
    }
  }

  lemma MayPassFailedSwap(cfg: Config, d: bool, s: State, t: nat)
    requires Inv(cfg, d, s) && t < |s.threads| && s.threads[t].Releasing? && s.threads[t].rpc.CompareAndSwap?
    requires s.slots[At(cfg, s.threads[t].release.key, s.threads[t].rpc.probe)].generation != s.threads[t].rpc.seen
    ensures Passed(cfg, s, s.threads[t].release.key, Bound(Strict(cfg, d), s.threads[t].release.epoch),
                   s.threads[t].rpc.probe + 1)
  {
    assert ThreadInv(cfg, d, s, t);
  }

  lemma WriteMoves(cfg: Config, d: bool, s: State, t: nat)
    requires Inv(cfg, d, s) && t < |s.threads| && s.threads[t].Releasing? && s.threads[t].rpc.Write?
    ensures Moves(cfg, d, s, WriteStep(cfg, s, t), t)
  {
    var Releasing(r, Write(i, stage)) := s.threads[t];
    var s' := WriteStep(cfg, s, t);
    assert ThreadInv(cfg, d, s, t) && SlotInv(cfg, s, i);
    assert SlotMoves(cfg, d, s, s', t, i);
    assert forall j :: 0 <= j < |s.slots| && j != i ==> SlotMoves(cfg, d, s, s', t, j);
    assert forall c, p :: Token(s', c, p) == Token(s, c, p);
  }

  lemma WriteThread(cfg: Config, d: bool, s: State, t: nat)
    requires Inv(cfg, d, s) && t < |s.threads| && s.threads[t].Releasing? && s.threads[t].rpc.Write?
    ensures ThreadInv(cfg, d, WriteStep(cfg, s, t), t)
  {
    var Releasing(r, Write(i, stage)) := s.threads[t];
    var s' := WriteStep(cfg, s, t);
    assert ThreadInv(cfg, d, s, t) && SlotInv(cfg, s, i);
    WriteMoves(cfg, d, s, t);
    assert SlotMoves(cfg, d, s, s', t, i);
    PassedStable(cfg, d, s, s', t, r.key, Bound(Strict(cfg, d), r.epoch), s.claims[i].probe);
  }

  lemma WriteEntry(cfg: Config, d: bool, s: State, t: nat)
    requires Inv(cfg, d, s) && t < |s.threads| && s.threads[t].Releasing? && s.threads[t].rpc.Write?
    ensures var s' := WriteStep(cfg, s, t); forall j :: |s.log| <= j < |s'.log| ==> EntryOk(cfg, d, s', j)
  {
    var Releasing(r, Write(i, stage)) := s.threads[t];
    var s' := WriteStep(cfg, s, t);
    assert ThreadInv(cfg, d, s, t) && SlotInv(cfg, s, i);
    if stage == 6 {
      var n := s.claims[i].probe;
      WriteMoves(cfg, d, s, t);
      assert SlotMoves(cfg, d, s, s', t, i);
      PassedStable(cfg, d, s, s', t, r.key, Bound(Strict(cfg, d), r.epoch), n);
      assert s'.log[..|s.log|] == s.log;
      if cfg.capacity == 1 { assert n == 0; }
      assert CoversAt(cfg, s', r.key, Bound(d, r.epoch), 0, n);
    }
  }

  /** A store into a claimed or matched slot. */
  lemma WriteKeeps(cfg: Config, d: bool, s: State, t: nat)
    requires Inv(cfg, d, s) && t < |s.threads| && s.threads[t].Releasing? && s.threads[t].rpc.Write?
    ensures Inv(cfg, d, WriteStep(cfg, s, t))
  {
    var s' := WriteStep(cfg, s, t);
    WriteMoves(cfg, d, s, t);
    WriteSlots(cfg, d, s, t);
    WriteThread(cfg, d, s, t);
    WriteEntry(cfg, d, s, t);
    TokensKept(s, s');
    if Strict(cfg, d) { SameEpochKept(s, s', t); }
    Assemble(cfg, d, s, s', t);
  }

  lemma WriteSlots(cfg: Config, d: bool, s: State, t: nat)
    requires Inv(cfg, d, s) && t < |s.threads| && s.threads[t].Releasing? && s.threads[t].rpc.Write?
    ensures forall j :: 0 <= j < |s.slots| ==> SlotInv(cfg, WriteStep(cfg, s, t), j)
  {
    hide SlotInv, ThreadInv, Passed;
    forall j | 0 <= j < |s.slots| ensures SlotInv(cfg, WriteStep(cfg, s, t), j) {
      if j == s.threads[t].rpc.slot { WrittenSlot(cfg, d, s, t); } else { UnwrittenSlot(cfg, d, s, t, j); }
    }
  }

  lemma WrittenSlot(cfg: Config, d: bool, s: State, t: nat)
    requires Inv(cfg, d, s) && t < |s.threads| && s.threads[t].Releasing? && s.threads[t].rpc.Write?
    ensures SlotInv(cfg, WriteStep(cfg, s, t), s.threads[t].rpc.slot)
  {
    hide EntryOk, Passed;
    var s', i := WriteStep(cfg, s, t), s.threads[t].rpc.slot;
    assert ThreadInv(cfg, d, s, t) && SlotInv(cfg, s, i);
    assert forall x :: NonStale(cfg, s, x) ==> NonStale(cfg, s', x);
  }

  lemma UnwrittenSlot(cfg: Config, d: bool, s: State, t: nat, j: nat)
    requires Inv(cfg, d, s) && t < |s.threads| && s.threads[t].Releasing? && s.threads[t].rpc.Write?
    requires j < |s.slots| && j != s.threads[t].rpc.slot
    ensures SlotInv(cfg, WriteStep(cfg, s, t), j)
  {
    hide EntryOk, Passed;
    var s' := WriteStep(cfg, s, t);
    assert ThreadInv(cfg, d, s, t) && SlotInv(cfg, s, j);
    assert forall x :: NonStale(cfg, s, x) ==> NonStale(cfg, s', x);
  }

  lemma ReleaseKeeps(cfg: Config, d: bool, s: State, t: nat)
    requires Inv(cfg, d, s) && t < |s.threads| && s.threads[t].Releasing?
    ensures Inv(cfg, d, ReleaseStep(cfg, s, t))
  {
    var Releasing(r, pc) := s.threads[t];
    assert ThreadInv(cfg, d, s, t);
    match pc
    case ReadGeneration(attempt, probe, saw) =>
      var g := s.slots[At(cfg, r.key, probe)].generation;
      if g == cfg.generation {
        LocalRelease(cfg, d, s, t, ReadAddress(attempt, probe, saw));
      } else if g == CLAIMED {
        MayPass(cfg, d, s, t, probe);
        NextProbeKeeps(cfg, d, s, t, attempt, probe, true);
      } else {
        LocalRelease(cfg, d, s, t, CompareAndSwap(attempt, probe, saw, g));
      }
    case ReadAddress(attempt, probe, saw) =>
      LocalRelease(cfg, d, s, t, ReadProducer(attempt, probe, saw, s.slots[At(cfg, r.key, probe)].addr));
    case ReadProducer(_, _, _, _) => ReadProducerKeeps(cfg, d, s, t);
    case CompareAndSwap(_, _, _, _) => ClaimKeeps(cfg, d, s, t);
    case Write(_, _) => WriteKeeps(cfg, d, s, t);
  }

  // ---------------------------------------------------------------- acquires

  lemma LocalAcquire(cfg: Config, d: bool, s: State, t: nat, q: Acquire, pc: AcquirePc)
    requires Inv(cfg, d, s) && t < |s.threads| && s.threads[t].Acquiring?
    requires AcquirePcBounds(cfg, pc) && AcquireInv(cfg, d, s, q, pc)
    ensures Inv(cfg, d, Goto(s, t, Acquiring(q, pc)))
  {
    var s' := Goto(s, t, Acquiring(q, pc));
    LocalKeeps(cfg, d, s, s', t);
    AcquireInvStable(cfg, d, s, s', t, q, pc);
    TokensKept(s, s');
    if Strict(cfg, d) { SameEpochKept(s, s', t); }
    Assemble(cfg, d, s, s', t);
  }

  /** A lookup of a covered key cannot pass or stop at a slot that is not the covering one. */
  lemma CoversAdvance(cfg: Config, d: bool, s: State, k: Key, e: nat, probe: nat)
    requires Inv(cfg, d, s) && probe < cfg.capacity && Covers(cfg, s, k, e, probe)
    ensures NonStale(cfg, s, At(cfg, k, probe))
    ensures !(Ready(cfg, s, At(cfg, k, probe)) && Holds(cfg, s, At(cfg, k, probe), k)) ==>
              probe + 1 < cfg.capacity && Covers(cfg, s, k, e, probe + 1)
    ensures Holds(cfg, s, At(cfg, k, probe), k) ==> e <= Level(cfg, s, At(cfg, k, probe))
  {
    var q :| CoversAt(cfg, s, k, e, probe, q);
    var top := At(cfg, k, q);
    assert SlotInv(cfg, s, top);
    AtInjective(cfg, k, q, s.claims[top].probe);
    assert probe < q ==> NonStale(cfg, s, At(cfg, k, probe));
    if !(Ready(cfg, s, At(cfg, k, probe)) && Holds(cfg, s, At(cfg, k, probe), k)) {
      assert CoversAt(cfg, s, k, e, probe + 1, q);
    }
  }

  lemma MissKeeps(cfg: Config, d: bool, s: State, t: nat)
    requires Inv(cfg, d, s) && t < |s.threads| && s.threads[t].Acquiring? && !s.threads[t].apc.NextProducer?
    requires var q := s.threads[t].acquire;
             forall j :: 0 <= j < q.begin && j < |s.log| ==>
               !(s.log[j].Published? && s.log[j].key == Key(q.addr, q.producer))
    ensures Inv(cfg, d, Miss(s, t))
  {
    var Acquiring(q, pc) := s.threads[t];
    var s' := Miss(s, t);
    var q' := q.(producer := q.producer + 1);
    assert ThreadInv(cfg, d, s, t);
    LocalKeeps(cfg, d, s, s', t);
    assert AcquireInv(cfg, d, s, q', NextProducer);
    AcquireInvStable(cfg, d, s, s', t, q', NextProducer);
    TokensKept(s, s');
    if Strict(cfg, d) { SameEpochKept(s, s', t); }
    Assemble(cfg, d, s, s', t);
  }

  lemma PassSlotKeeps(cfg: Config, d: bool, s: State, t: nat, probe: nat)
    requires Inv(cfg, d, s) && t < |s.threads| && s.threads[t].Acquiring? && !s.threads[t].apc.NextProducer?
    requires probe < cfg.capacity
    requires var q := s.threads[t].acquire; Promise(cfg, d, s, Key(q.addr, q.producer), q.begin, probe)
    requires var q := s.threads[t].acquire; var k := Key(q.addr, q.producer);
             !(Ready(cfg, s, At(cfg, k, probe)) && Holds(cfg, s, At(cfg, k, probe), k))
    ensures Inv(cfg, d, NextLook(cfg, s, t, probe))
  {
    var Acquiring(q, pc) := s.threads[t];
    var k := Key(q.addr, q.producer);
    assert ThreadInv(cfg, d, s, t);
    forall j | 0 <= j < q.begin && s.log[j].Published? && s.log[j].key == k
      ensures probe + 1 < cfg.capacity && Covers(cfg, s, k, Bound(d, s.log[j].epoch), probe + 1)
    {
      CoversAdvance(cfg, d, s, k, Bound(d, s.log[j].epoch), probe);
    }
    if probe + 1 < cfg.capacity {
      LocalAcquire(cfg, d, s, t, q, LookGeneration(probe + 1));
    } else {
      MissKeeps(cfg, d, s, t);
    }
  }

  lemma LookGenerationKeeps(cfg: Config, d: bool, s: State, t: nat)
    requires Inv(cfg, d, s) && t < |s.threads| && s.threads[t].Acquiring? && s.threads[t].apc.LookGeneration?
    ensures Inv(cfg, d, AcquireStep(cfg, s, t))
  {
    var Acquiring(q, LookGeneration(probe)) := s.threads[t];
    var k := Key(q.addr, q.producer);
    var g := s.slots[At(cfg, k, probe)].generation;
    assert ThreadInv(cfg, d, s, t);
    if g == CLAIMED {
      PassSlotKeeps(cfg, d, s, t, probe);
    } else if g != cfg.generation {
      forall j | 0 <= j < q.begin && s.log[j].Published? && s.log[j].key == k ensures false {
        CoversAdvance(cfg, d, s, k, Bound(d, s.log[j].epoch), probe);
      }
      MissKeeps(cfg, d, s, t);
    } else {
      LocalAcquire(cfg, d, s, t, q, LookAddress(probe));
    }
  }

  lemma LookProducerKeeps(cfg: Config, d: bool, s: State, t: nat)
    requires Inv(cfg, d, s) && t < |s.threads| && s.threads[t].Acquiring? && s.threads[t].apc.LookProducer?
    ensures Inv(cfg, d, AcquireStep(cfg, s, t))
  {
    var Acquiring(q, LookProducer(probe, a)) := s.threads[t];
    var k := Key(q.addr, q.producer);
    var i := At(cfg, k, probe);
    assert ThreadInv(cfg, d, s, t) && SlotInv(cfg, s, i);
    if a == q.addr && s.slots[i].producer == q.producer {
      forall j | 0 <= j < q.begin && s.log[j].Published? && s.log[j].key == k
        ensures Bound(d, s.log[j].epoch) <= s.slots[i].epoch
      {
        CoversAdvance(cfg, d, s, k, Bound(d, s.log[j].epoch), probe);
      }
      LocalAcquire(cfg, d, s, t, q, LookEpoch(i));
    } else {
      PassSlotKeeps(cfg, d, s, t, probe);
    }
  }

  /** After the raise the producer is served, and the next one is looked at. */
  lemma RaisedProducerIsServed(cfg: Config, d: bool, s: State, t: nat)
    requires Inv(cfg, d, s) && t < |s.threads| && s.threads[t].Acquiring? && s.threads[t].apc.RaiseToken?
    ensures Local(s, AcquireStep(cfg, s, t), t) && ThreadInv(cfg, d, AcquireStep(cfg, s, t), t)
  {
    var Acquiring(q, RaiseToken(i, e)) := s.threads[t];
    var k := Key(q.addr, q.producer);
    var s' := AcquireStep(cfg, s, t);
    assert ThreadInv(cfg, d, s, t);
    assert Local(s, s', t);
    LocalKeeps(cfg, d, s, s', t);
    assert e + 1 <= Token(s', q.consumer, q.producer);
    assert Served(d, s', q.consumer, k, q.begin);
    AcquireInvStable(cfg, d, s, s', t, q, NextProducer);
    assert AcquireInv(cfg, d, s', s'.threads[t].acquire, NextProducer);
  }

  lemma RaiseTokenKeeps(cfg: Config, d: bool, s: State, t: nat)
    requires Inv(cfg, d, s) && t < |s.threads| && s.threads[t].Acquiring? && s.threads[t].apc.RaiseToken?
    ensures Inv(cfg, d, AcquireStep(cfg, s, t))
  {
    var s' := AcquireStep(cfg, s, t);
    RaisedProducerIsServed(cfg, d, s, t);
    RaisedTokenIsEarned(cfg, s, t);
    LocalKeeps(cfg, d, s, s', t);
    assert ThreadInv(cfg, d, s, t) && s'.log[..|s.log|] == s.log;
    if Strict(cfg, d) { SameEpochKept(s, s', t); }
    Assemble(cfg, d, s, s', t);
  }

  lemma RaisedTokenIsEarned(cfg: Config, s: State, t: nat)
    requires Shape(cfg, s) && TokenInv(s) && t < |s.threads| && s.threads[t].Acquiring? && s.threads[t].apc.RaiseToken?
    ensures TokenInv(AcquireStep(cfg, s, t))
  {
    var Acquiring(q, RaiseToken(i, e)) := s.threads[t];
    var k := Key(q.addr, q.producer);
    var s' := AcquireStep(cfg, s, t);
    assert s'.log == s.log + [Imported(q.consumer, k, e)];
    assert Imported(q.consumer, k, e) in s'.log;
    forall c, p | 0 < Token(s', c, p)
      ensures exists a :: Imported(c, Key(a, p), Token(s', c, p) - 1) in s'.log
    {
      if Token(s', c, p) == Token(s, c, p) {
        var a :| Imported(c, Key(a, p), Token(s, c, p) - 1) in s.log;
        assert Imported(c, Key(a, p), Token(s', c, p) - 1) in s'.log;
      } else {
        assert k == Key(q.addr, p) && Token(s', c, p) - 1 == e;
      }
    }
  }

  lemma NextProducerKeeps(cfg: Config, d: bool, s: State, t: nat)
    requires Inv(cfg, d, s) && t < |s.threads| && s.threads[t].Acquiring? && s.threads[t].apc.NextProducer?
    ensures Inv(cfg, d, AcquireStep(cfg, s, t))
  {
    var q := s.threads[t].acquire;
    var k := Key(q.addr, q.producer);
    assert ThreadInv(cfg, d, s, t);
    if q.producer >= cfg.subgroups && !q.cachePass {
      var s' := AcquireStep(cfg, s, t);
      LocalKeeps(cfg, d, s, s', t);
      forall p | 0 <= p < cfg.subgroups && p != q.consumer
        ensures Served(d, s', q.consumer, Key(q.addr, p), q.begin)
      {
        ServedStable(cfg, d, s, s', t, q.consumer, Key(q.addr, p), q.begin);
      }
      TokensKept(s, s');
      if Strict(cfg, d) { SameEpochKept(s, s', t); }
      Assemble(cfg, d, s, s', t);
    } else if q.producer >= cfg.subgroups {
      LocalAcquire(cfg, d, s, t, q.(cachePass := false, producer := 0), NextProducer);
    } else if q.producer == q.consumer || (if q.cachePass then q.producer !in q.mask else q.producer in q.imported) {
      LocalAcquire(cfg, d, s, t, q.(producer := q.producer + 1), NextProducer);
    } else {
      forall j | 0 <= j < q.begin && s.log[j].Published? && s.log[j].key == k
        ensures Covers(cfg, s, k, Bound(d, s.log[j].epoch), 0)
      {
        assert EntryOk(cfg, d, s, j);
      }
      LocalAcquire(cfg, d, s, t, q, LookGeneration(0));
    }
  }

  lemma AcquireKeeps(cfg: Config, d: bool, s: State, t: nat)
    requires Inv(cfg, d, s) && t < |s.threads| && s.threads[t].Acquiring?
    ensures Inv(cfg, d, AcquireStep(cfg, s, t))
  {
    var Acquiring(q, pc) := s.threads[t];
    assert ThreadInv(cfg, d, s, t);
    match pc
    case NextProducer => NextProducerKeeps(cfg, d, s, t);
    case LookGeneration(_) => LookGenerationKeeps(cfg, d, s, t);
    case LookAddress(probe) =>
      LocalAcquire(cfg, d, s, t, q, LookProducer(probe, s.slots[At(cfg, Key(q.addr, q.producer), probe)].addr));
    case LookProducer(_, _) => LookProducerKeeps(cfg, d, s, t);
    case LookEpoch(i) =>
      assert SlotInv(cfg, s, i);
      LocalAcquire(cfg, d, s, t, q, RaiseToken(i, s.slots[i].epoch));
    case RaiseToken(_, _) => RaiseTokenKeeps(cfg, d, s, t);
  }
}
