/** The atomic-object table as a step system. Any number of device threads release and acquire at
    once; every volatile read, compare-and-swap, plain store and atomicMax of the table code is one
    step of its own, and steps of different threads interleave freely (sequential consistency).
    The table is open addressed, keyed by (atomic address, producer subgroup); a slot is stale,
    CLAIMED, or of the current generation. */
module ReleaseTable {

  /** The generation value that marks a slot as being filled in. */
  const CLAIMED: nat := 0xFFFF_FFFF_FFFF_FFFF

  const ATTEMPTS: nat := 4

  datatype Key = Key(addr: nat, producer: nat)

  /** One launch: its generation, the table capacity, the subgroup capacity, the subgroup of every
      thread, and the first slot probed for a key (any function; the source mixes bits). */
  datatype Config = Config(generation: nat, capacity: nat, subgroups: nat, group: seq<nat>, home: Key -> nat)

  ghost predicate ValidConfig(cfg: Config) {
    && cfg.generation != CLAIMED
    && 0 < cfg.capacity
    && (forall k: Key :: cfg.home(k) < cfg.capacity)
    && (forall t :: 0 <= t < |cfg.group| ==> cfg.group[t] < cfg.subgroups)
  }

  /** The slot of probe number `probe` for key `k`: linear probing with one wrap. */
  function At(cfg: Config, k: Key, probe: nat): (i: nat)
    ensures ValidConfig(cfg) && probe < cfg.capacity ==> i < cfg.capacity
    ensures cfg.home(k) < cfg.capacity && probe < cfg.capacity ==> i < cfg.capacity
  {
    var index := cfg.home(k) + probe;
    if index >= cfg.capacity then index - cfg.capacity else index
  }

  // ---------------------------------------------------------------- state

  datatype Slot = Slot(generation: nat, addr: nat, producer: nat, epoch: nat)

  /** Auxiliary: who won a slot, for which key and epoch, and at which probe. No step reads it. */
  datatype Claim = Claim(key: Key, epoch: nat, probe: nat, owner: nat)

  datatype Release = Release(key: Key, epoch: nat)

  datatype ReleasePc =
    | ReadGeneration(attempt: nat, probe: nat, sawClaimed: bool)
    | ReadAddress(attempt: nat, probe: nat, sawClaimed: bool)
    | ReadProducer(attempt: nat, probe: nat, sawClaimed: bool, addrSeen: nat)
    | CompareAndSwap(attempt: nat, probe: nat, sawClaimed: bool, seen: nat)
    | Write(slot: nat, stage: nat)

  /** One acquire of `addr`. `begin` (auxiliary) is the length of the log when it started. `mask` is
      what the producer-mask cache answered: any set at all. */
  datatype Acquire = Acquire(addr: nat, consumer: nat, begin: nat, mask: set<nat>,
                             imported: set<nat>, cachePass: bool, producer: nat)

  datatype AcquirePc =
    | NextProducer
    | LookGeneration(probe: nat)
    | LookAddress(probe: nat)
    | LookProducer(probe: nat, addrSeen: nat)
    | LookEpoch(slot: nat)
    | RaiseToken(slot: nat, epochSeen: nat)

  datatype Thread =
    | Idle
    | Releasing(release: Release, rpc: ReleasePc)
    | Acquiring(acquire: Acquire, apc: AcquirePc)

  /** What happened, in order. `Recorded` is the atomicMax of a release, `Published` its final
      generation store, `Dropped` a metadata_full diagnostic, `Missed` a lookup that found nothing,
      `Imported` one token update, `Acquired` the end of an acquire. */
  datatype Entry =
    | Recorded(key: Key, epoch: nat)
    | Published(key: Key, epoch: nat)
    | Dropped(key: Key)
    | Missed(key: Key, begin: nat)
    | Imported(consumer: nat, key: Key, epoch: nat)
    | Acquired(consumer: nat, addr: nat, begin: nat)

  datatype State = State(
    slots: seq<Slot>,
    claims: seq<Claim>,
    threads: seq<Thread>,
    tokens: map<(nat, nat), nat>,
    epochs: seq<nat>,
    fences: seq<nat>,
    log: seq<Entry>)

  datatype Event =
    | BeginRelease(t: nat, addr: nat)
    | BeginFenced(t: nat, addr: nat)
    | ArmFence(t: nat)
    | BeginAcquire(t: nat, addr: nat, mask: set<nat>)
    | Barrier
    | Tick(t: nat)

  ghost function Token(s: State, consumer: nat, producer: nat): nat {
    if (consumer, producer) in s.tokens then s.tokens[(consumer, producer)] else 0
  }

  ghost predicate ReleasePcBounds(cfg: Config, pc: ReleasePc) {
    match pc
    case Write(slot, stage) => slot < cfg.capacity && stage <= 6
    case _ => pc.probe < cfg.capacity && pc.attempt < ATTEMPTS
  }

  ghost predicate AcquirePcBounds(cfg: Config, pc: AcquirePc) {
    match pc
    case NextProducer => true
    case LookGeneration(probe) => probe < cfg.capacity
    case LookAddress(probe) => probe < cfg.capacity
    case LookProducer(probe, _) => probe < cfg.capacity
    case LookEpoch(slot) => slot < cfg.capacity
    case RaiseToken(slot, _) => slot < cfg.capacity
  }

  ghost predicate Shape(cfg: Config, s: State) {
    && ValidConfig(cfg)
    && |s.slots| == |s.claims| == cfg.capacity
    && |s.threads| == |s.fences| == |cfg.group|
    && |s.epochs| == cfg.subgroups
    && (forall t :: 0 <= t < |s.threads| ==>
          && (s.threads[t].Releasing? ==> ReleasePcBounds(cfg, s.threads[t].rpc))
          && (s.threads[t].Acquiring? ==> AcquirePcBounds(cfg, s.threads[t].apc)))
  }

  /** Any leftover of earlier launches, but nothing of this one. */
  ghost predicate Init(cfg: Config, s: State) {
    && Shape(cfg, s)
    && (forall i :: 0 <= i < |s.slots| ==>
          s.slots[i].generation != cfg.generation && s.slots[i].generation != CLAIMED)
    && (forall t :: 0 <= t < |s.threads| ==> s.threads[t].Idle? && s.fences[t] == 0)
    && (forall g :: 0 <= g < |s.epochs| ==> s.epochs[g] == 0)
    && s.tokens == map[]
    && s.log == []
  }

  // ---------------------------------------------------------------- steps

  ghost function Goto(s: State, t: nat, th: Thread): State
    requires t < |s.threads|
  {
    s.(threads := s.threads[t := th])
  }

  ghost function Store(s: State, i: nat, slot: Slot): State
    requires i < |s.slots|
  {
    s.(slots := s.slots[i := slot])
  }

  ghost function Note(s: State, e: Entry): State {
    s.(log := s.log + [e])
  }

  /** The end of one probe iteration of a release that did not settle on the slot. */
  ghost function NextProbe(cfg: Config, s: State, t: nat, attempt: nat, probe: nat, sawClaimed: bool): State
    requires t < |s.threads| && s.threads[t].Releasing?
  {
    var r := s.threads[t].release;
    if probe + 1 < cfg.capacity then
      Goto(s, t, Releasing(r, ReadGeneration(attempt, probe + 1, sawClaimed)))
    else if sawClaimed && attempt + 1 < ATTEMPTS then
      Goto(s, t, Releasing(r, ReadGeneration(attempt + 1, 0, false)))
    else
      Note(Goto(s, t, Idle), Dropped(r.key))
  }

  /** Stages 0-2 are the claimant's own initialisation, 3-6 the stores every release performs. */
  ghost function WriteStep(cfg: Config, s: State, t: nat): State
    requires Shape(cfg, s) && t < |s.threads|
    requires s.threads[t].Releasing? && s.threads[t].rpc.Write?
  {
    var Releasing(r, Write(i, stage)) := s.threads[t];
    var slot := s.slots[i];
    var next := Goto(s, t, Releasing(r, Write(i, stage + 1)));
    if stage == 0 || stage == 3 then Store(next, i, slot.(addr := r.key.addr))
    else if stage == 1 || stage == 4 then Store(next, i, slot.(producer := r.key.producer))
    else if stage == 2 then Store(next, i, slot.(epoch := 0))
    else if stage == 5 then
      Note(Store(next, i, slot.(epoch := if slot.epoch < r.epoch then r.epoch else slot.epoch)),
           Recorded(r.key, r.epoch))
    else
      Note(Store(Goto(s, t, Idle), i, slot.(generation := cfg.generation)), Published(r.key, r.epoch))
  }

  ghost function ReleaseStep(cfg: Config, s: State, t: nat): State
    requires Shape(cfg, s) && t < |s.threads| && s.threads[t].Releasing?
  {
    var Releasing(r, pc) := s.threads[t];
    match pc
    case ReadGeneration(attempt, probe, saw) =>
      var g := s.slots[At(cfg, r.key, probe)].generation;
      if g == cfg.generation then Goto(s, t, Releasing(r, ReadAddress(attempt, probe, saw)))
      else if g == CLAIMED then NextProbe(cfg, s, t, attempt, probe, true)
      else Goto(s, t, Releasing(r, CompareAndSwap(attempt, probe, saw, g)))
    case ReadAddress(attempt, probe, saw) =>
      Goto(s, t, Releasing(r, ReadProducer(attempt, probe, saw, s.slots[At(cfg, r.key, probe)].addr)))
    case ReadProducer(attempt, probe, saw, a) =>
      var i := At(cfg, r.key, probe);
      if a == r.key.addr && s.slots[i].producer == r.key.producer
      then Goto(s, t, Releasing(r, Write(i, 3)))
      else NextProbe(cfg, s, t, attempt, probe, saw)
    case CompareAndSwap(attempt, probe, saw, seen) =>
      var i := At(cfg, r.key, probe);
      if s.slots[i].generation == seen then
        var claimed := Store(s, i, s.slots[i].(generation := CLAIMED));
        Goto(claimed.(claims := s.claims[i := Claim(r.key, r.epoch, probe, t)]), t, Releasing(r, Write(i, 0)))
      else NextProbe(cfg, s, t, attempt, probe, true)
    case Write(_, _) => WriteStep(cfg, s, t)
  }

  ghost function NextLook(cfg: Config, s: State, t: nat, probe: nat): State
    requires t < |s.threads| && s.threads[t].Acquiring?
  {
    if probe + 1 < cfg.capacity
    then Goto(s, t, Acquiring(s.threads[t].acquire, LookGeneration(probe + 1)))
    else Miss(s, t)
  }

  ghost function Miss(s: State, t: nat): State
    requires t < |s.threads| && s.threads[t].Acquiring?
  {
    var q := s.threads[t].acquire;
    Note(Goto(s, t, Acquiring(q.(producer := q.producer + 1), NextProducer)), Missed(Key(q.addr, q.producer), q.begin))
  }

  ghost function AcquireStep(cfg: Config, s: State, t: nat): State
    requires Shape(cfg, s) && t < |s.threads| && s.threads[t].Acquiring?
  {
    var Acquiring(q, pc) := s.threads[t];
    var k := Key(q.addr, q.producer);
    match pc
    case NextProducer =>
      if q.producer >= cfg.subgroups then
        if q.cachePass then Goto(s, t, Acquiring(q.(cachePass := false, producer := 0), NextProducer))
        else Note(Goto(s, t, Idle), Acquired(q.consumer, q.addr, q.begin))
      else if q.producer == q.consumer || (if q.cachePass then q.producer !in q.mask else q.producer in q.imported) then
        Goto(s, t, Acquiring(q.(producer := q.producer + 1), NextProducer))
      else Goto(s, t, Acquiring(q, LookGeneration(0)))
    case LookGeneration(probe) =>
      var g := s.slots[At(cfg, k, probe)].generation;
      if g == CLAIMED then NextLook(cfg, s, t, probe)
      else if g != cfg.generation then Miss(s, t)
      else Goto(s, t, Acquiring(q, LookAddress(probe)))
    case LookAddress(probe) =>
      Goto(s, t, Acquiring(q, LookProducer(probe, s.slots[At(cfg, k, probe)].addr)))
    case LookProducer(probe, a) =>
      var i := At(cfg, k, probe);
      if a == q.addr && s.slots[i].producer == q.producer
      then Goto(s, t, Acquiring(q, LookEpoch(i)))
      else NextLook(cfg, s, t, probe)
    case LookEpoch(i) =>
      Goto(s, t, Acquiring(q, RaiseToken(i, s.slots[i].epoch)))
    case RaiseToken(_, e) =>
      var q' := q.(producer := q.producer + 1,
                   imported := if q.cachePass then q.imported + {q.producer} else q.imported);
      var raised := if Token(s, q.consumer, q.producer) < e + 1
                    then s.tokens[(q.consumer, q.producer) := e + 1] else s.tokens;
      Note(Goto(s.(tokens := raised), t, Acquiring(q', NextProducer)), Imported(q.consumer, k, e))
  }

  ghost predicate Enabled(s: State, ev: Event) {
    match ev
    case Barrier => forall t :: 0 <= t < |s.threads| ==> s.threads[t].Idle?
    case Tick(t) => t < |s.threads| && !s.threads[t].Idle?
    case BeginFenced(t, _) => t < |s.threads| && t < |s.fences| && s.threads[t].Idle? && 0 < s.fences[t]
    case _ => ev.t < |s.threads| && s.threads[ev.t].Idle?
  }

  ghost function Step(cfg: Config, s: State, ev: Event): State
    requires Shape(cfg, s) && Enabled(s, ev)
  {
    match ev
    case BeginRelease(t, addr) =>
      Goto(s, t, Releasing(Release(Key(addr, cfg.group[t]), s.epochs[cfg.group[t]]), ReadGeneration(0, 0, false)))
    case BeginFenced(t, addr) =>
      Goto(s.(fences := s.fences[t := 0]), t,
           Releasing(Release(Key(addr, cfg.group[t]), s.fences[t] - 1), ReadGeneration(0, 0, false)))
    case ArmFence(t) => s.(fences := s.fences[t := s.epochs[cfg.group[t]] + 1])
    case BeginAcquire(t, addr, mask) =>
      Goto(s, t, Acquiring(Acquire(addr, cfg.group[t], |s.log|, mask, {}, true, 0), NextProducer))
    case Barrier => s.(epochs := seq(|s.epochs|, g requires 0 <= g < |s.epochs| => s.epochs[g] + 1))
    case Tick(t) => if s.threads[t].Releasing? then ReleaseStep(cfg, s, t) else AcquireStep(cfg, s, t)
  }

  /** Only the stepping thread moves; a release stays the same release until it ends. */
  ghost predicate OneMoves(s: State, s': State, t: nat) {
    && |s'.threads| == |s.threads| && s'.fences == s.fences && s'.epochs == s.epochs
    && |s'.slots| == |s.slots| && |s'.claims| == |s.claims|
    && forall u :: 0 <= u < |s.threads| && u != t ==> s'.threads[u] == s.threads[u]
  }

  lemma ReleaseStepMoves(cfg: Config, s: State, t: nat)
    requires Shape(cfg, s) && t < |s.threads| && s.threads[t].Releasing?
    ensures var s' := ReleaseStep(cfg, s, t);
            && OneMoves(s, s', t) && !s'.threads[t].Acquiring?
            && (s'.threads[t].Releasing? ==> s'.threads[t].release == s.threads[t].release
                                             && ReleasePcBounds(cfg, s'.threads[t].rpc))
  {
  }

  lemma AcquireStepMoves(cfg: Config, s: State, t: nat)
    requires Shape(cfg, s) && t < |s.threads| && s.threads[t].Acquiring?
    ensures var s' := AcquireStep(cfg, s, t);
            && OneMoves(s, s', t) && !s'.threads[t].Releasing?
            && (s'.threads[t].Acquiring? ==> AcquirePcBounds(cfg, s'.threads[t].apc))
  {
  }

  lemma StepShape(cfg: Config, s: State, ev: Event)
    requires Shape(cfg, s) && Enabled(s, ev)
    ensures Shape(cfg, Step(cfg, s, ev))
  {
    hide ReleaseStep, AcquireStep;
    if ev.Tick? && s.threads[ev.t].Releasing? {
      ReleaseStepMoves(cfg, s, ev.t);
    } else if ev.Tick? {
      AcquireStepMoves(cfg, s, ev.t);
    }
  }
}
