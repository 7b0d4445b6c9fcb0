/** The device context's atomic metadata code, as it runs when no other thread interferes: probing
    loops over the slot array, the direct-mapped producer-mask cache, the token matrix, and the
    per-lane fence state. Every method is tied to the map operations of `AtomicMap`. */
module AtomicContext {
  import opened ReleaseTable
  import opened AtomicMap
  import opened Arith
  import opened Diagnostics

  const RMW_ACQUIRE_RETRIES: nat := 4

  datatype CacheRecord = CacheRecord(generation: nat, address: nat, mask: set<nat>)

  /** A probe that met only live slots of other keys and then a stale slot, or the end, proves absence. */
  lemma AbsentKey(cfg: Config, slots: seq<Record>, k: Key, probe: nat)
    requires Sound(cfg, slots) && 0 < cfg.capacity && probe <= cfg.capacity
    requires forall r :: 0 <= r < probe ==> Live(cfg, slots, At(cfg, k, r)) && KeyOf(slots[At(cfg, k, r)]) != k
    requires probe < cfg.capacity ==> !Live(cfg, slots, At(cfg, k, probe))
    ensures k !in Contents(cfg, slots)
  {
    if k in LiveKeys(cfg, slots) {
      var i := IndexOf(cfg, slots, k);
      var q :| OnPath(cfg, slots, i, q);
    }
  }

  lemma EverySlotPassed(cfg: Config, slots: seq<Record>, k: Key)
    requires Sound(cfg, slots) && 0 < cfg.capacity
    requires forall r :: 0 <= r < cfg.capacity ==> Live(cfg, slots, At(cfg, k, r))
    ensures forall i :: 0 <= i < |slots| ==> Live(cfg, slots, i)
  {
    forall i | 0 <= i < |slots| ensures Live(cfg, slots, i) {
      var q := if cfg.home(k) <= i then i - cfg.home(k) else i + cfg.capacity - cfg.home(k);
      assert At(cfg, k, q) == i;
    }
  }

  class Context {
    const cfg: Config
    const cacheHome: nat -> nat
    const subgroup: nat
    const configuredSubgroups: nat

    const slots: array<Record>
    const cache: array<CacheRecord>
    const tokens: array<nat>
    const epochs: array<nat>
    const diagnostics: DiagnosticBuffer

    var lastObserved: Option<nat>
    var pendingFence: nat

    /** An array of length zero stands for an absent slice. The cache may hold anything at all. */
    ghost predicate Valid()
      reads this, slots, cache, tokens, epochs, diagnostics, diagnostics.records
    {
      && Sound(cfg, slots[..])
      && cache.Length == slots.Length
      && (forall a: nat :: 0 < cache.Length ==> cacheHome(a) < cache.Length)
      && (tokens.Length == 0 || tokens.Length == cfg.subgroups * cfg.subgroups)
      && epochs.Length == cfg.subgroups
      && tokens != epochs
      && diagnostics.Valid()
    }

    ghost function Repr(): set<object>
    {
      {this, slots, cache, tokens, diagnostics, diagnostics.records}
    }

    ghost function LaneOf(): Lane {
      Lane(cfg.capacity, cfg.subgroups, subgroup, StoredSubgroups())
    }

    function StoredSubgroups(): (n: nat)
      ensures n <= cfg.subgroups && (0 < cfg.subgroups ==> 0 < n)
    {
      var configured := if 0 < configuredSubgroups then configuredSubgroups else 1;
      if configured < cfg.subgroups then configured else cfg.subgroups
    }

    ghost function Abs(): View
      reads this, slots, tokens, epochs
    {
      View(Contents(cfg, slots[..]), tokens[..], epochs[..], pendingFence, lastObserved)
    }

    constructor (cfg: Config, cacheHome: nat -> nat, subgroup: nat, configuredSubgroups: nat,
                 slots: array<Record>, cache: array<CacheRecord>, tokens: array<nat>, epochs: array<nat>,
                 diagnostics: DiagnosticBuffer)
      requires Sound(cfg, slots[..]) && cache.Length == slots.Length
      requires forall a: nat :: 0 < cache.Length ==> cacheHome(a) < cache.Length
      requires tokens.Length == 0 || tokens.Length == cfg.subgroups * cfg.subgroups
      requires epochs.Length == cfg.subgroups && tokens != epochs && diagnostics.Valid()
      ensures Valid() && this.cfg == cfg && this.cacheHome == cacheHome
      ensures this.subgroup == subgroup && this.configuredSubgroups == configuredSubgroups
      ensures this.slots == slots && this.cache == cache && this.tokens == tokens && this.epochs == epochs
      ensures this.diagnostics == diagnostics
      ensures Abs() == View(Contents(cfg, slots[..]), tokens[..], epochs[..], 0, None)
    {
      this.cfg, this.cacheHome := cfg, cacheHome;
      this.subgroup, this.configuredSubgroups := subgroup, configuredSubgroups;
      this.slots, this.cache, this.tokens, this.epochs := slots, cache, tokens, epochs;
      this.diagnostics := diagnostics;
      this.lastObserved, this.pendingFence := None, 0;
    }

    /** The record of (address, producer), if there is one. */
    method Find(address: nat, producer: nat) returns (found: Option<nat>)
      requires Valid()
      ensures found.Some? <==> Key(address, producer) in Contents(cfg, slots[..])
      ensures found.Some? ==>
                && found.value < slots.Length && Live(cfg, slots[..], found.value)
                && KeyOf(slots[found.value]) == Key(address, producer)
    {
      if slots.Length == 0 {
        return None;
      }
      var k := Key(address, producer);
      var capacity := slots.Length;
      var probe := 0;
      while probe < capacity
        invariant 0 <= probe <= capacity
        invariant forall r :: 0 <= r < probe ==>
                    Live(cfg, slots[..], At(cfg, k, r)) && KeyOf(slots[At(cfg, k, r)]) != k
      {
        var index := At(cfg, k, probe);
        var slotGeneration := slots[index].generation;
        if slotGeneration == CLAIMED {
          assert false;
        }
        if slotGeneration != cfg.generation {
          AbsentKey(cfg, slots[..], k, probe);
          return None;
        }
        if slots[index].address == address && slots[index].producer == producer {
          assert KeyOf(slots[..][index]) in LiveKeys(cfg, slots[..]);
          return Some(index);
        }
        probe := probe + 1;
      }
      AbsentKey(cfg, slots[..], k, capacity);
      return None;
    }

    /** Finds the record of (address, producer) or claims the first stale slot on its probe path.
        Fails, with a metadata_full report, only when every slot is live for another key. */
    method FindOrClaim(address: nat, bytes: nat, producer: nat) returns (found: Option<nat>, ghost probes: nat)
      requires Valid()
      modifies slots, diagnostics, diagnostics.records
      ensures found.Some? ==> found.value < slots.Length && KeyOf(slots[found.value]) == Key(address, producer)
      ensures found.Some? && Key(address, producer) in Contents(cfg, old(slots[..])) ==>
                slots[..] == old(slots[..]) && Live(cfg, slots[..], found.value)
      ensures found.Some? && Key(address, producer) !in Contents(cfg, old(slots[..])) ==>
                && !Live(cfg, old(slots[..]), found.value)
                && slots[..] == old(slots[..])[found.value := Record(CLAIMED, address, producer, 0)]
                && probes < cfg.capacity && At(cfg, Key(address, producer), probes) == found.value
                && forall r :: 0 <= r < probes ==> Live(cfg, old(slots[..]), At(cfg, Key(address, producer), r))
      ensures found.None? ==>
                && slots[..] == old(slots[..]) && Key(address, producer) !in Contents(cfg, slots[..])
                && forall i :: 0 <= i < slots.Length ==> Live(cfg, slots[..], i)
      ensures diagnostics.Valid()
      ensures found.Some? ==> diagnostics.history == old(diagnostics.history)
      ensures found.None? && 0 < diagnostics.records.Length ==>
                diagnostics.history == old(diagnostics.history)
                  + [MetadataFull(EpochOf(old(Abs()), subgroup), subgroup, address, address, bytes)]
    {
      var k := Key(address, producer);
      probes := 0;
      if slots.Length == 0 {
        EmitFull(address, bytes);
        return None, 0;
      }
      var capacity := slots.Length;
      var attempt := 0;
      while attempt < ATTEMPTS
        invariant slots[..] == old(slots[..]) && diagnostics.Valid() && diagnostics.history == old(diagnostics.history)
        invariant 0 <= attempt <= ATTEMPTS
        invariant 0 < attempt ==>
                    k !in Contents(cfg, slots[..]) && forall i :: 0 <= i < slots.Length ==> Live(cfg, slots[..], i)
      {
        var sawClaimed := false;
        var probe := 0;
        while probe < capacity
          invariant 0 <= probe <= capacity
          invariant slots[..] == old(slots[..])
          invariant diagnostics.Valid() && diagnostics.history == old(diagnostics.history)
          invariant forall r :: 0 <= r < probe ==>
                      Live(cfg, slots[..], At(cfg, k, r)) && KeyOf(slots[At(cfg, k, r)]) != k
        {
          var index := At(cfg, k, probe);
          var slotGeneration := slots[index].generation;
          if slotGeneration == cfg.generation {
            if slots[index].address == address && slots[index].producer == producer {
              assert KeyOf(slots[..][index]) in LiveKeys(cfg, slots[..]);
              return Some(index), probe;
            }
          } else if slotGeneration == CLAIMED {
            sawClaimed := true;
          } else {
            AbsentKey(cfg, slots[..], k, probe);
            slots[index] := Record(CLAIMED, address, producer, 0);
            return Some(index), probe;
          }
          probe := probe + 1;
        }
        AbsentKey(cfg, slots[..], k, capacity);
        EverySlotPassed(cfg, slots[..], k);
        if !sawClaimed {
          break;
        }
        attempt := attempt + 1;
      }
      EmitFull(address, bytes);
      return None, 0;
    }

    method EmitFull(address: nat, bytes: nat)
      requires diagnostics.Valid() && epochs.Length == cfg.subgroups
      modifies diagnostics, diagnostics.records
      ensures diagnostics.Valid()
      ensures 0 < diagnostics.records.Length ==>
                diagnostics.history == old(diagnostics.history)
                  + [MetadataFull(EpochOf(Abs(), subgroup), subgroup, address, address, bytes)]
    {
      var epoch := CurrentEpoch();
      diagnostics.Emit(MetadataFull(epoch, subgroup, address, address, bytes));
    }

    method CurrentEpoch() returns (epoch: nat)
      requires epochs.Length == cfg.subgroups
      ensures epoch == EpochOf(Abs(), subgroup)
    {
      if subgroup < epochs.Length {
        return epochs[subgroup];
      }
      return 0;
    }

    /** The stores of a release into the record it found or claimed. */
    method FillAndPublish(i: nat, address: nat, releasingEpoch: nat, useCache: bool)
      requires i < slots.Length && cache.Length == slots.Length
      requires forall a: nat :: 0 < cache.Length ==> cacheHome(a) < cache.Length
      modifies slots, cache
      ensures slots[..] == old(slots[..])[i := Record(cfg.generation, address, subgroup,
                                                      Max(old(slots[i].epoch), releasingEpoch))]
    {
      slots[i] := slots[i].(address := address);
      slots[i] := slots[i].(producer := subgroup);
      slots[i] := slots[i].(epoch := Max(slots[i].epoch, releasingEpoch));
      if useCache {
        CacheRelease(address);
      }
      slots[i] := slots[i].(generation := cfg.generation);
    }

    /** Records a release: exactly one key of the map changes, joined by maximum; a metadata_full
        report means every slot is taken by another key. */
    method RecordRelease(address: nat, bytes: nat, releasingEpoch: nat, useCache: bool)
      requires Valid()
      modifies Repr()
      ensures Valid() && lastObserved == old(lastObserved) && pendingFence == old(pendingFence)
      ensures Abs() == ReleaseAt(LaneOf(), old(Abs()), address, releasingEpoch)
      ensures 0 < diagnostics.records.Length ==>
                diagnostics.history == old(diagnostics.history)
                  + if Key(address, subgroup) !in old(Abs()).table && |old(Abs()).table| == cfg.capacity
                    then [MetadataFull(EpochOf(old(Abs()), subgroup), subgroup, address, address, bytes)] else []
    {
      hide OnPath, Distinct;
      var k := Key(address, subgroup);
      ghost var before := slots[..];
      FullMeansCapacityKeys(cfg, before);
      var index, probes := FindOrClaim(address, bytes, subgroup);
      if index.None? {
        assert slots[..] == before;
        return;
      }
      var i := index.value;
      ghost var e := if k in Contents(cfg, before) then Max(before[i].epoch, releasingEpoch) else releasingEpoch;
      FillAndPublish(i, address, releasingEpoch, useCache);
      assert slots[..] == before[i := Record(cfg.generation, address, subgroup, e)];
      if k in Contents(cfg, before) {
        RaiseKey(cfg, before, i, e);
      } else {
        AddKey(cfg, before, i, probes, k, e);
      }
    }

    /** Adds the producer to the cache line of the address, if the line can be had; a hint only. */
    method CacheRelease(address: nat)
      requires cache.Length == slots.Length && forall a: nat :: 0 < cache.Length ==> cacheHome(a) < cache.Length
      modifies cache
    {
      if cache.Length == 0 || subgroup >= 64 {
        return;
      }
      var line := cacheHome(address);
      var attempt := 0;
      while attempt < RMW_ACQUIRE_RETRIES {
        var lineGeneration := cache[line].generation;
        if lineGeneration == cfg.generation {
          if cache[line].address == address {
            cache[line] := cache[line].(mask := cache[line].mask + {subgroup});
          }
          return;
        }
        if lineGeneration != CLAIMED {
          cache[line] := cache[line].(generation := CLAIMED);
          cache[line] := CacheRecord(CLAIMED, address, {subgroup});
          cache[line] := cache[line].(generation := cfg.generation);
          return;
        }
        attempt := attempt + 1;
      }
    }

    /** Imports one producer's record into the token matrix. */
    method ImportFrom(address: nat, producer: nat) returns (found: bool)
      requires Valid() && tokens.Length == cfg.subgroups * cfg.subgroups
      requires subgroup < cfg.subgroups && producer < cfg.subgroups
      modifies tokens
      ensures found == (Key(address, producer) in Contents(cfg, slots[..]))
      ensures 0 <= subgroup * cfg.subgroups + producer < tokens.Length
      ensures var i := subgroup * cfg.subgroups + producer;
              tokens[..] == if found
                            then old(tokens[..])[i := Max(old(tokens[i]),
                                                          Contents(cfg, slots[..])[Key(address, producer)] + 1)]
                            else old(tokens[..])
    {
      RowColumn(cfg.subgroups, subgroup, producer);
      var record := Find(address, producer);
      if record.None? {
        return false;
      }
      RaiseKey(cfg, slots[..], record.value, slots[record.value].epoch);
      var token := slots[record.value].epoch + 1;
      var index := subgroup * cfg.subgroups + producer;
      tokens[index] := Max(tokens[index], token);
      return true;
    }

    ghost function Table(): map<Key, nat>
      reads slots
    {
      Contents(cfg, slots[..])
    }

    /** The token matrix `before`, with the producers in `done` imported. */
    ghost predicate ImportedSince(before: seq<nat>, address: nat, done: set<nat>)
      reads tokens, slots
    {
      && |before| == tokens.Length
      && tokens[..] == TokensAfterImports(before, cfg.subgroups, Table(), address, subgroup, done)
    }

    /** The first pass of an acquire: the producers the cache line names. */
    method ImportFromCache(address: nat, ghost before: seq<nat>) returns (found: bool, imported: set<nat>)
      requires Valid() && 0 < tokens.Length == cfg.subgroups * cfg.subgroups && subgroup < cfg.subgroups
      requires ImportedSince(before, address, {})
      modifies tokens
      ensures Valid() && ImportedSince(before, address, imported) && (found <==> imported != {})
      ensures forall p :: p in imported ==> p != subgroup && p < cfg.subgroups && p < 64 && Key(address, p) in Table()
    {
      hide Sound, Contents, TokensAfterImports;
      found, imported := false, {};
      if cache.Length == 0 {
        return;
      }
      var line := cache[cacheHome(address)];
      if line.generation != cfg.generation || line.generation == CLAIMED || line.address != address {
        return;
      }
      var producer: nat := 0;
      while producer < cfg.subgroups
        invariant 0 <= producer <= cfg.subgroups
        invariant Valid() && ImportedSince(before, address, imported) && (found <==> imported != {})
        invariant forall p :: p in imported ==> p != subgroup && p < producer && p < 64 && Key(address, p) in Table()
      {
        if producer != subgroup && producer < 64 && producer in line.mask {
          var hit := ImportFrom(address, producer);
          if hit {
            ImportOne(before, cfg.subgroups, Table(), address, subgroup, imported, producer);
            found, imported := true, imported + {producer};
          }
        }
        producer := producer + 1;
      }
    }

    ghost predicate Imports(address: nat, p: nat)
      reads slots
    {
      p != subgroup && Key(address, p) in Table()
    }

    /** The second pass for one producer, which the cache did not serve. */
    method ImportRemaining(address: nat, producer: nat, ghost before: seq<nat>, ghost done: set<nat>)
        returns (hit: bool)
      requires Valid() && 0 < tokens.Length == cfg.subgroups * cfg.subgroups && subgroup < cfg.subgroups
      requires producer < cfg.subgroups && ImportedSince(before, address, done)
      modifies tokens
      ensures Valid() && ImportedSince(before, address, done + {producer}) && hit == Imports(address, producer)
    {
      if producer == subgroup {
        ImportNothing(before, cfg.subgroups, Table(), address, subgroup, done, producer);
        return false;
      }
      hit := ImportFrom(address, producer);
      if hit {
        ImportOne(before, cfg.subgroups, Table(), address, subgroup, done, producer);
      } else {
        ImportNothing(before, cfg.subgroups, Table(), address, subgroup, done, producer);
      }
    }

    /** The second pass: every producer the cache did not already serve. */
    method ImportFromTable(address: nat, imported: set<nat>, ghost before: seq<nat>) returns (found: bool)
      requires Valid() && 0 < tokens.Length == cfg.subgroups * cfg.subgroups && subgroup < cfg.subgroups
      requires ImportedSince(before, address, imported)
      requires forall p :: p in imported ==> p < 64
      modifies tokens
      ensures Valid()
      ensures tokens[..] == TokensAfterAcquire(before, cfg.subgroups, Table(), address, subgroup)
      ensures found <==> exists p :: 0 <= p < cfg.subgroups && p !in imported && Imports(address, p)
    {
      found := false;
      ghost var done: set<nat> := imported;
      ghost var hitAt: nat := 0;
      var producer: nat := 0;
      while producer < cfg.subgroups
        invariant 0 <= producer <= cfg.subgroups
        invariant Valid() && ImportedSince(before, address, done) && imported <= done
        invariant forall p :: 0 <= p < producer ==> p in done
        invariant found ==> hitAt < producer && hitAt !in imported && Imports(address, hitAt)
        invariant !found ==> forall p :: 0 <= p < producer && p !in imported ==> !Imports(address, p)
      {
        if !(producer < 64 && producer in imported) {
          var hit := ImportRemaining(address, producer, before, done);
          if hit {
            found, hitAt := true, producer;
          }
        } else {
          assert done + {producer} == done;
        }
        done := done + {producer};
        producer := producer + 1;
      }
      ImportAll(before, cfg.subgroups, Table(), address, subgroup, done);
    }

    /** One attempt to acquire: the same tokens and the same answer whatever the cache holds. */
    method TryAcquire(address: nat) returns (found: bool)
      requires Valid()
      modifies tokens
      ensures Valid()
      ensures Abs() == AcquireAt(LaneOf(), old(Abs()), address)
      ensures found <==> || tokens.Length == 0 || cfg.subgroups <= subgroup
                         || exists p :: 0 <= p < cfg.subgroups && Imports(address, p)
    {
      if tokens.Length == 0 {
        return true;
      }
      if subgroup >= cfg.subgroups {
        return true;
      }
      ghost var before := tokens[..];
      assert ImportedSince(before, address, {});
      var imported: set<nat> := {};
      found := false;
      if configuredSubgroups > 2 {
        found, imported := ImportFromCache(address, before);
      }
      var more := ImportFromTable(address, imported, before);
      if found {
        var p :| p in imported;
        assert Imports(address, p);
      }
      found := more || found;
    }

    /** An acquire with bounded retries: a retry finds what the first attempt found. */
    method RecordAcquire(address: nat, retries: nat)
      requires Valid() && 0 < retries
      modifies tokens
      ensures Valid() && Abs() == AcquireAt(LaneOf(), old(Abs()), address)
    {
      var attempt := 0;
      while attempt < retries
        invariant Valid()
        invariant Abs() == if attempt == 0 then old(Abs()) else AcquireAt(LaneOf(), old(Abs()), address)
      {
        AcquireIsIdempotent(old(tokens[..]), cfg.subgroups, Table(), address, subgroup);
        var done := TryAcquire(address);
        if done {
          return;
        }
        attempt := attempt + 1;
      }
    }

    method ConsumePendingFence(address: nat, bytes: nat)
      requires Valid()
      modifies Repr()
      ensures Valid() && Abs() == ConsumeFence(LaneOf(), old(Abs()), address)
    {
      hide OnPath, Distinct, Sound;
      if pendingFence == 0 {
        return;
      }
      RecordRelease(address, bytes, pendingFence - 1, false);
      pendingFence := 0;
    }

    /** The metadata half of a release, or of the store that publishes an armed fence. */
    method Publish(address: nat, bytes: nat, order: Order, useCache: bool)
      requires Valid()
      modifies Repr()
      ensures Valid() && Abs() == StoreOp(LaneOf(), old(Abs()), address, order)
    {
      if HasRelease(order) {
        var epoch := CurrentEpoch();
        RecordRelease(address, bytes, epoch, useCache);
      } else {
        ConsumePendingFence(address, bytes);
      }
    }

    method Load(address: nat, order: Order)
      requires Valid()
      modifies this, tokens
      ensures Valid() && Abs() == LoadOp(LaneOf(), old(Abs()), address, order)
    {
      if HasAcquire(order) {
        RecordAcquire(address, 1);
      }
      lastObserved := Some(address);
    }

    method Store(address: nat, bytes: nat, order: Order)
      requires Valid()
      modifies Repr()
      ensures Valid() && Abs() == StoreOp(LaneOf(), old(Abs()), address, order)
    {
      Publish(address, bytes, order, false);
    }

    /** fetch_add, fetch_or, fetch_and, fetch_xor and exchange share this shape. */
    method ReadModifyWrite(address: nat, bytes: nat, order: Order)
      requires Valid()
      modifies Repr()
      ensures Valid() && Abs() == RmwOp(LaneOf(), old(Abs()), address, order)
    {
      Publish(address, bytes, order, configuredSubgroups > 2);
      if HasAcquire(order) {
        RecordAcquire(address, RMW_ACQUIRE_RETRIES);
      }
      lastObserved := Some(address);
    }

    method CompareExchange(address: nat, bytes: nat, exchanged: bool, success: Order, failure: Order)
      requires Valid()
      modifies Repr()
      ensures Valid() && Abs() == CompareExchangeOp(LaneOf(), old(Abs()), address, exchanged, success, failure)
    {
      if exchanged {
        Publish(address, bytes, success, configuredSubgroups > 2);
        if HasAcquire(success) {
          RecordAcquire(address, RMW_ACQUIRE_RETRIES);
        }
      } else if HasAcquire(failure) {
        RecordAcquire(address, RMW_ACQUIRE_RETRIES);
      }
      lastObserved := Some(address);
    }

    method Fence(order: Order)
      requires Valid()
      modifies this, tokens
      ensures Valid() && Abs() == FenceOp(LaneOf(), old(Abs()), order)
    {
      if HasRelease(order) {
        var epoch := CurrentEpoch();
        pendingFence := epoch + 1;
      }
      if HasAcquire(order) && lastObserved.Some? {
        RecordAcquire(lastObserved.value, RMW_ACQUIRE_RETRIES);
      }
    }

    /** Thread 0's part of a barrier: the epochs of the configured subgroups, of at least one but of no more
        than there is room for, advance by one. */
    method AdvanceEpochs()
      requires Valid()
      modifies epochs
      ensures Valid() && Abs() == BarrierOp(LaneOf(), old(Abs()))
      ensures forall g :: 0 <= g < epochs.Length ==>
                epochs[g] == old(epochs[g])
                             + if g < cfg.subgroups && (g < configuredSubgroups || g < 1) then 1 else 0
    {
      var i := 0;
      while i < StoredSubgroups()
        invariant 0 <= i <= StoredSubgroups()
        invariant forall g :: 0 <= g < i ==> epochs[g] == old(epochs[g]) + 1
        invariant forall g :: i <= g < epochs.Length ==> epochs[g] == old(epochs[g])
      {
        epochs[i] := epochs[i] + 1;
        i := i + 1;
      }
    }
  }
}
