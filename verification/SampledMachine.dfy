/** The sampled backend with all lanes running: a publish is one exchange, then one look at the displaced
    word and one at every scanned slot; reading a word and checking the tokens are steps of their own. */
module SampledMachine {
  import opened Arith
  import opened ShadowWords
  import opened SampledRanges
  import opened SampledScan
  import opened ProbeScan

  /** A published word, its slot and the indices that its scan visits. */
  datatype Publication = Publication(word: nat, slot: nat, visited: seq<nat>)

  /** Publication `reader` found `word` at `slot` when `at` publications had been made: that of publication
      `id`, or the initial word (-1). It then checked the tokens. */
  datatype Look = Look(reader: nat, slot: nat, at: nat, id: int, word: nat, tokens: seq<nat>, emitted: bool)

  datatype Thread =
    | Idle
    | Probing(j: nat, next: nat)
    | Checking(j: nat, next: nat, slot: nat, at: nat, id: int, word: nat)

  /** `holders[x]` (auxiliary) names the publication that slot x holds, -1 for the initial word. */
  datatype State = State(initial: seq<nat>, table: seq<nat>, holders: seq<int>, tokens: seq<nat>, subgroups: nat,
                         threads: seq<Thread>, published: seq<Publication>, looks: seq<Look>, finished: seq<nat>)

  datatype Event =
    | Exchange(t: nat, p: Publication)
    | Tick(t: nat)
    | Raise(index: nat, token: nat)

  ghost predicate Fits(size: nat, p: Publication) {
    p.slot < size && forall i :: 0 <= i < |p.visited| ==> p.visited[i] < size
  }

  ghost predicate Shape(s: State) {
    && |s.table| == |s.holders| == |s.initial|
    && (forall j :: 0 <= j < |s.published| ==> Fits(|s.table|, s.published[j]))
    && (forall t :: 0 <= t < |s.threads| && !s.threads[t].Idle? ==> s.threads[t].j < |s.published|)
  }

  ghost predicate Enabled(s: State, ev: Event) {
    match ev
    case Exchange(t, p) => t < |s.threads| && s.threads[t].Idle? && Fits(|s.table|, p)
    case Tick(t) => t < |s.threads| && !s.threads[t].Idle?
    case Raise(i, token) => i < |s.tokens| && s.tokens[i] <= token
  }

  ghost function LookOf(s: State, th: Thread): Look
    requires th.Checking? && th.j < |s.published|
  {
    Look(th.j, th.slot, th.at, th.id, th.word, s.tokens,
         Hit(th.word, DecodeSampled(s.published[th.j].word), Tokens(s.tokens, s.subgroups)))
  }

  ghost function Step(s: State, ev: Event): State
    requires Shape(s) && Enabled(s, ev)
  {
    match ev
    case Exchange(t, p) =>
      var j := |s.published|;
      s.(table := s.table[p.slot := p.word], holders := s.holders[p.slot := j], published := s.published + [p],
         threads := s.threads[t := Checking(j, 0, p.slot, j, s.holders[p.slot], s.table[p.slot])])
    case Tick(t) =>
      var th := s.threads[t];
      if th.Checking? then s.(looks := s.looks + [LookOf(s, th)], threads := s.threads[t := Probing(th.j, th.next)])
      else if th.next < |s.published[th.j].visited| then
        var x := s.published[th.j].visited[th.next];
        s.(threads := s.threads[t := Checking(th.j, th.next + 1, x, |s.published|, s.holders[x], s.table[x])])
      else s.(finished := s.finished + [th.j], threads := s.threads[t := Idle])
    case Raise(i, token) => s.(tokens := s.tokens[i := token])
  }

  ghost predicate Init(s: State) {
    && s.table == s.initial && |s.holders| == |s.table| && (forall x :: 0 <= x < |s.holders| ==> s.holders[x] == -1)
    && (forall t :: 0 <= t < |s.threads| ==> s.threads[t].Idle?)
    && s.published == [] && s.looks == [] && s.finished == []
  }

  // ---------------------------------------------------------------- invariant

  /** The last publication at a slot, or -1. */
  ghost function Latest(published: seq<Publication>, slot: nat): (i: int)
    ensures -1 <= i < |published|
    ensures 0 <= i ==> published[i].slot == slot
    ensures forall k :: i < k < |published| ==> published[k].slot != slot
  {
    if published == [] then -1
    else if published[|published| - 1].slot == slot then |published| - 1
    else Latest(published[..|published| - 1], slot)
  }

  ghost function WordFor(s: State, id: int, slot: nat): nat
    requires id < |s.published| && slot < |s.initial|
  {
    if id < 0 then s.initial[slot] else s.published[id].word
  }

  /** What was found at a slot when `at` publications had been made. */
  ghost predicate Found(s: State, slot: nat, at: nat, id: int, word: nat) {
    && slot < |s.initial| && at <= |s.published|
    && id == Latest(s.published[..at], slot) && word == WordFor(s, id, slot)
  }

  ghost predicate LookOk(s: State, l: Look) {
    && l.reader < |s.published| && l.reader <= l.at && Found(s, l.slot, l.at, l.id, l.word)
    && (l.emitted <==> Hit(l.word, DecodeSampled(s.published[l.reader].word), Tokens(l.tokens, s.subgroups)))
  }

  /** Publication j has looked at a slot; at the word it displaced. */
  ghost predicate LookedAt(s: State, j: nat, slot: nat) {
    exists k :: 0 <= k < |s.looks| && s.looks[k].reader == j && s.looks[k].slot == slot
  }

  ghost predicate LookedAtDisplaced(s: State, j: nat)
    requires j < |s.published|
  {
    exists k :: 0 <= k < |s.looks| && s.looks[k].reader == j == s.looks[k].at && s.looks[k].slot == s.published[j].slot
  }

  ghost predicate ThreadOk(s: State, th: Thread)
    requires th.Idle? || th.j < |s.published|
  {
    match th
    case Idle => true
    case Probing(j, next) =>
      && next <= |s.published[j].visited| && LookedAtDisplaced(s, j)
      && forall m :: 0 <= m < next ==> LookedAt(s, j, s.published[j].visited[m])
    case Checking(j, next, slot, at, id, word) =>
      && next <= |s.published[j].visited| && j <= at && Found(s, slot, at, id, word)
      && (LookedAtDisplaced(s, j) || (at == j && slot == s.published[j].slot))
      && forall m :: 0 <= m < next ==> LookedAt(s, j, s.published[j].visited[m]) || s.published[j].visited[m] == slot
  }

  ghost predicate FinishedOk(s: State, j: nat) {
    && j < |s.published| && LookedAtDisplaced(s, j)
    && forall m :: 0 <= m < |s.published[j].visited| ==> LookedAt(s, j, s.published[j].visited[m])
  }

  ghost predicate Inv(s: State) {
    && Shape(s)
    && (forall x :: 0 <= x < |s.table| ==> Found(s, x, |s.published|, s.holders[x], s.table[x]))
    && (forall t :: 0 <= t < |s.threads| ==> ThreadOk(s, s.threads[t]))
    && (forall k :: 0 <= k < |s.looks| ==> LookOk(s, s.looks[k]))
    && (forall f :: 0 <= f < |s.finished| ==> FinishedOk(s, s.finished[f]))
  }

  /** Publications and looks are only ever added. */
  ghost predicate Grown(s: State, s': State) {
    s.published <= s'.published && s.looks <= s'.looks && s'.initial == s.initial && s'.subgroups == s.subgroups
  }

  lemma FoundKept(s: State, s': State, slot: nat, at: nat, id: int, word: nat)
    requires Grown(s, s') && Found(s, slot, at, id, word)
    ensures Found(s', slot, at, id, word)
  {
    assert s'.published[..at] == s.published[..at];
  }

  lemma LookedKept(s: State, s': State, j: nat, slot: nat)
    requires Grown(s, s') && j < |s.published|
    ensures LookedAt(s, j, slot) ==> LookedAt(s', j, slot)
    ensures LookedAtDisplaced(s, j) ==> LookedAtDisplaced(s', j)
  {
    if LookedAt(s, j, slot) {
      var k :| 0 <= k < |s.looks| && s.looks[k].reader == j && s.looks[k].slot == slot;
      assert s'.looks[k] == s.looks[k];
    }
    if LookedAtDisplaced(s, j) {
      var k :| 0 <= k < |s.looks| && s.looks[k].reader == j == s.looks[k].at && s.looks[k].slot == s.published[j].slot;
      assert s'.looks[k] == s.looks[k];
    }
  }

  lemma ThreadKept(s: State, s': State, th: Thread)
    requires Grown(s, s') && (th.Idle? || th.j < |s.published|) && ThreadOk(s, th)
    ensures ThreadOk(s', th)
  {
    hide Found, LookedAt, LookedAtDisplaced;
    if !th.Idle? {
      LookedKept(s, s', th.j, 0);
      forall m | 0 <= m < |s.published[th.j].visited|
        ensures LookedAt(s, th.j, s.published[th.j].visited[m]) ==> LookedAt(s', th.j, s.published[th.j].visited[m])
      {
        LookedKept(s, s', th.j, s.published[th.j].visited[m]);
      }
      if th.Checking? { FoundKept(s, s', th.slot, th.at, th.id, th.word); }
    }
  }

  lemma RecordsKept(s: State, s': State)
    requires Inv(s) && Grown(s, s')
    ensures forall k :: 0 <= k < |s.looks| ==> LookOk(s', s.looks[k])
    ensures forall f :: 0 <= f < |s.finished| ==> FinishedOk(s', s.finished[f])
  {
    hide Found, LookedAt, LookedAtDisplaced, Hit;
    forall k | 0 <= k < |s.looks| ensures LookOk(s', s.looks[k]) {
      var l := s.looks[k];
      assert LookOk(s, l);
      FoundKept(s, s', l.slot, l.at, l.id, l.word);
    }
    forall f | 0 <= f < |s.finished| ensures FinishedOk(s', s.finished[f]) {
      var j := s.finished[f];
      assert FinishedOk(s, j);
      LookedKept(s, s', j, 0);
      forall m | 0 <= m < |s.published[j].visited| ensures LookedAt(s', j, s.published[j].visited[m]) {
        LookedKept(s, s', j, s.published[j].visited[m]);
      }
    }
  }

  lemma ExchangeKeeps(s: State, t: nat, p: Publication)
    requires Inv(s) && Enabled(s, Exchange(t, p))
    ensures Inv(Step(s, Exchange(t, p)))
  {
    hide LookedAt, LookedAtDisplaced, Hit;
    var s', j := Step(s, Exchange(t, p)), |s.published|;
    RecordsKept(s, s');
    assert s'.published[..j] == s.published[..j] == s.published;
    assert s'.published[..j + 1] == s'.published && s'.published[..|s'.published| - 1] == s.published;
    forall x | 0 <= x < |s'.table| ensures Found(s', x, j + 1, s'.holders[x], s'.table[x]) {
      assert Found(s, x, j, s.holders[x], s.table[x]);
    }
    assert Found(s, p.slot, j, s.holders[p.slot], s.table[p.slot]);
    FoundKept(s, s', p.slot, j, s.holders[p.slot], s.table[p.slot]);
    forall u | 0 <= u < |s'.threads| ensures ThreadOk(s', s'.threads[u]) {
      if u != t { assert ThreadOk(s, s.threads[u]); ThreadKept(s, s', s.threads[u]); }
    }
  }

  lemma TickKeeps(s: State, t: nat)
    requires Inv(s) && Enabled(s, Tick(t))
    ensures Inv(Step(s, Tick(t)))
  {
    hide Hit, LookedAt, LookedAtDisplaced, Found;
    var s' := Step(s, Tick(t));
    RecordsKept(s, s');
    OwnTick(s, t);
    forall x | 0 <= x < |s'.table| ensures Found(s', x, |s'.published|, s'.holders[x], s'.table[x]) {
      FoundKept(s, s', x, |s.published|, s.holders[x], s.table[x]);
    }
    forall u | 0 <= u < |s'.threads| ensures ThreadOk(s', s'.threads[u]) {
      if u != t { assert ThreadOk(s, s.threads[u]); ThreadKept(s, s', s.threads[u]); }
    }
  }

  lemma OwnTick(s: State, t: nat)
    requires Inv(s) && Enabled(s, Tick(t))
    ensures var s' := Step(s, Tick(t)); ThreadOk(s', s'.threads[t])
    ensures var s' := Step(s, Tick(t));
            && |s'.threads| == |s.threads|
            && (|s'.looks| > |s.looks| ==> LookOk(s', s'.looks[|s.looks|]))
            && (|s'.finished| > |s.finished| ==> FinishedOk(s', s'.finished[|s.finished|]))
  {
    hide Hit;
    var s', th := Step(s, Tick(t)), s.threads[t];
    assert ThreadOk(s, th);
    var j := th.j;
    LookedKept(s, s', j, 0);
    if th.Checking? {
      var k := |s.looks|;
      assert s'.looks[k] == LookOf(s, th);
      assert LookedAt(s', j, th.slot);
      forall m | 0 <= m < th.next ensures LookedAt(s', j, s'.published[j].visited[m]) {
        LookedKept(s, s', j, s.published[j].visited[m]);
      }
    } else if th.next < |s.published[j].visited| {
      var x := s.published[j].visited[th.next];
      assert Found(s, x, |s.published|, s.holders[x], s.table[x]);
      forall m | 0 <= m < th.next ensures LookedAt(s', j, s'.published[j].visited[m]) {
        LookedKept(s, s', j, s.published[j].visited[m]);
      }
    }
  }

  lemma StepKeeps(s: State, ev: Event)
    requires Inv(s) && Enabled(s, ev)
    ensures Inv(Step(s, ev))
  {
    match ev
    case Exchange(t, p) => ExchangeKeeps(s, t, p);
    case Tick(t) => TickKeeps(s, t);
    case Raise(_, _) => RaiseKeeps(s, ev);
  }

  lemma RaiseKeeps(s: State, ev: Event)
    requires Inv(s) && Enabled(s, ev) && ev.Raise?
    ensures Inv(Step(s, ev))
  {
    hide Hit, LookedAt, LookedAtDisplaced, Found;
    var s' := Step(s, ev);
    RecordsKept(s, s');
    forall x | 0 <= x < |s'.table| ensures Found(s', x, |s'.published|, s'.holders[x], s'.table[x]) {
      FoundKept(s, s', x, |s.published|, s.holders[x], s.table[x]);
    }
    forall u | 0 <= u < |s'.threads| ensures ThreadOk(s', s'.threads[u]) {
      assert ThreadOk(s, s.threads[u]);
      ThreadKept(s, s', s.threads[u]);
    }
  }

  // ---------------------------------------------------------------- every run

  /** `t` is reached from `s` in n steps. */
  ghost predicate Reaches(s: State, t: State, n: nat)
    decreases n
  {
    if n == 0 then s == t
    else exists m, ev :: Reaches(s, m, n - 1) && Leads(m, ev, t)
  }

  ghost predicate Leads(m: State, ev: Event, t: State) { Shape(m) && Enabled(m, ev) && t == Step(m, ev) }

  lemma InitInv(s: State)
    requires Init(s)
    ensures Inv(s)
  {
    assert forall x: nat :: Latest([], x) == -1;
  }

  lemma {:induction false} ReachesKeeps(s: State, t: State, n: nat)
    requires Init(s) && Reaches(s, t, n)
    ensures Inv(t)
    decreases n
  {
    hide Init, Inv, Step, Enabled, Shape;
    if n == 0 {
      InitInv(s);
    } else {
      var m, ev :| Reaches(s, m, n - 1) && Leads(m, ev, t);
      ReachesKeeps(s, m, n - 1);
      StepKeeps(m, ev);
    }
  }

  /** Publication j looked at publication i, and reported it exactly if its word was a hit. */
  ghost predicate Judged(s: State, i: nat, j: nat, l: Look)
    requires i < |s.published| && j < |s.published|
  {
    && l in s.looks && l.reader == j && l.id == i
    && (l.emitted <==> Hit(s.published[i].word, DecodeSampled(s.published[j].word), Tokens(l.tokens, s.subgroups)))
  }

  /** Another publication had taken i's slot by the time j looked there. */
  ghost predicate Displaced(s: State, i: nat, j: nat, l: Look, k: nat)
    requires i < |s.published| && j < |s.published|
  {
    && l in s.looks && l.reader == j && l.slot == s.published[i].slot
    && i < k < l.at && k < |s.published| && k != j && s.published[k].slot == s.published[i].slot
  }

  /** Of two publications, the later one to exchange judges the earlier one, in every interleaving, if its
      scan covers the table, unless a third took the earlier one's slot before it looked. */
  lemma LaterJudgesEarlier(s: State, t: State, n: nat, i: nat, j: nat)
    requires Init(s) && Reaches(s, t, n) && j in t.finished && i < j < |t.published|
    requires CoversTable(t.published[j].visited, |t.table|)
    ensures (exists l :: Judged(t, i, j, l)) || (exists l, k :: Displaced(t, i, j, l, k))
  {
    ReachesKeeps(s, t, n);
    var f :| 0 <= f < |t.finished| && t.finished[f] == j;
    assert FinishedOk(t, j);
    var x := t.published[i].slot;
    var k: nat;
    if x == t.published[j].slot {
      k :| 0 <= k < |t.looks| && t.looks[k].reader == j == t.looks[k].at && t.looks[k].slot == x;
    } else {
      assert x in t.published[j].visited;
      var m :| 0 <= m < |t.published[j].visited| && t.published[j].visited[m] == x;
      k :| 0 <= k < |t.looks| && t.looks[k].reader == j && t.looks[k].slot == x;
    }
    FoundIsJudgedOrDisplaced(t, i, j, t.looks[k]);
  }

  lemma FoundIsJudgedOrDisplaced(s: State, i: nat, j: nat, l: Look)
    requires l in s.looks && LookOk(s, l) && l.reader == j && i < j < |s.published| && l.slot == s.published[i].slot
    requires l.slot == s.published[j].slot ==> l.at == j
    ensures Judged(s, i, j, l) || (exists k :: Displaced(s, i, j, l, k))
  {
    var published := s.published[..l.at];
    assert published[i] == s.published[i];
    assert i <= l.id;
    if i < l.id {
      assert published[l.id] == s.published[l.id];
      assert Displaced(s, i, j, l, l.id);
    }
  }

  /** Conversely every report is a hit: the word of an earlier or later publication, or an initial one. */
  lemma ReportsAreHits(s: State, t: State, n: nat, l: Look)
    requires Init(s) && Reaches(s, t, n) && l in t.looks && l.emitted
    ensures l.reader < |t.published| && l.id < |t.published| && l.slot < |t.initial| && l.id != l.reader
    ensures Hit(WordFor(t, l.id, l.slot), DecodeSampled(t.published[l.reader].word), Tokens(l.tokens, t.subgroups))
  {
    ReachesKeeps(s, t, n);
    var k :| 0 <= k < |t.looks| && t.looks[k] == l;
    assert LookOk(t, t.looks[k]);
    OwnEntryIsNoHit(t.published[l.reader].word, Tokens(l.tokens, t.subgroups));
  }

  /** Racing ranges are reported. In a table with a power of two of slots and probe count 0, whatever the
      hashes, of two publications whose ranges race the later one reports the earlier, in every interleaving,
      unless it finds it acquired, or displaced by a third. */
  lemma RacingPublicationIsReported(s: State, t: State, n: nat, i: nat, j: nat, u: Setup, store: bool, r: Range,
                                    v: Setup, priorStore: bool, prior: Range, o: Origin)
    requires Init(s) && Reaches(s, t, n) && j in t.finished && i < j < |t.published|
    requires |t.table| == u.capacity <= TWO32 && PowerOfTwo(u.capacity) && u.probeCount == 0
    requires var p := PublishOf(u, store, r, Tokens([], 0), o);
             t.published[j] == Publication(p.packed, p.slot, p.visited)
    requires t.published[i].word == WordOf(v, priorStore, prior) && Encodable(r) && Encodable(prior)
    requires SampledRace(u, store, r, v, priorStore, prior)
    ensures (exists l ::
               && Judged(t, i, j, l)
               && (l.emitted <==> !OrderedBy(l.tokens, t.subgroups, v.subgroup % OWNERS, v.epoch % EPOCHS,
                                             u.subgroup % OWNERS)))
         || (exists l, k :: Displaced(t, i, j, l, k))
  {
    hide Hit, SampledRace, PackSampled, DecodeSampled, Reaches, Init, OrderedBy;
    PowerOfTwoScan(t.published[j].slot, u.stepHash(u.seed, r.start), u.capacity, u.capacity);
    LaterJudgesEarlier(s, t, n, i, j);
    if l :| Judged(t, i, j, l) {
      HitMeansRace(u, store, r, v, priorStore, prior, Tokens(l.tokens, t.subgroups));
    }
  }

  // ---------------------------------------------------------------- nothing is made up or dropped

  /** `t` is reached from `s` by these events. */
  ghost predicate RunsTo(s: State, evs: seq<Event>, t: State)
    decreases |evs|
  {
    if evs == [] then s == t
    else
      var front, last := evs[..|evs| - 1], evs[|evs| - 1];
      exists m :: RunsTo(s, front, m) && Leads(m, last, t)
  }

  ghost function Exchanged(evs: seq<Event>): seq<Publication> {
    if evs == [] then []
    else
      var ev := evs[|evs| - 1];
      Exchanged(evs[..|evs| - 1]) + if ev.Exchange? then [ev.p] else []
  }

  ghost predicate AllHandled(s: State) { forall j: nat :: j < |s.published| ==> Handled(s, j) }

  ghost predicate Handled(s: State, j: nat) {
    j in s.finished || exists t :: 0 <= t < |s.threads| && !s.threads[t].Idle? && s.threads[t].j == j
  }

  lemma StepHandles(s: State, ev: Event, j: nat)
    requires Shape(s) && Enabled(s, ev)
    requires Handled(s, j) || (ev.Exchange? && j == |s.published|)
    ensures Handled(Step(s, ev), j)
  {
    hide LookOf, Shape;
    var s' := Step(s, ev);
    if Handled(s, j) && j !in s.finished {
      var t :| 0 <= t < |s.threads| && !s.threads[t].Idle? && s.threads[t].j == j;
      if s'.threads[t].Idle? {
        assert s'.finished[|s.finished|] == j;
      } else {
        assert s'.threads[t].j == j;
      }
    } else if j !in s.finished {
      assert !s'.threads[ev.t].Idle? && s'.threads[ev.t].j == j;
    }
  }

  lemma StepAllHandled(m: State, ev: Event, t: State)
    requires Leads(m, ev, t) && AllHandled(m)
    ensures AllHandled(t) && t.published == m.published + if ev.Exchange? then [ev.p] else []
  {
    hide LookOf, Shape, Handled;
    forall j: nat | j < |t.published| ensures Handled(t, j) { StepHandles(m, ev, j); }
  }

  lemma IdleMeansFinished(s: State)
    requires AllHandled(s) && forall u :: 0 <= u < |s.threads| ==> s.threads[u].Idle?
    ensures forall j: nat :: j < |s.published| ==> j in s.finished
  {
    forall j: nat | j < |s.published| ensures j in s.finished { assert Handled(s, j); }
  }

  /** The publications of a run are those of its exchanges, in order, and each is finished or in the hands of a
      thread; so when all threads are idle, all have done their scans. */
  lemma {:induction false} ExchangesAreHandled(s: State, evs: seq<Event>, t: State)
    requires Init(s) && RunsTo(s, evs, t)
    ensures Reaches(s, t, |evs|) && t.published == Exchanged(evs) && AllHandled(t)
    ensures (forall u :: 0 <= u < |t.threads| ==> t.threads[u].Idle?) ==>
              forall j: nat :: j < |t.published| ==> j in t.finished
    decreases |evs|
  {
    hide Leads, AllHandled;
    if evs == [] {
      NothingToHandle(s);
    } else {
      var front, last := evs[..|evs| - 1], evs[|evs| - 1];
      var m :| RunsTo(s, front, m) && Leads(m, last, t);
      ExchangesAreHandled(s, front, m);
      StepAllHandled(m, last, t);
    }
    if forall u :: 0 <= u < |t.threads| ==> t.threads[u].Idle? { IdleMeansFinished(t); }
  }

  lemma NothingToHandle(s: State)
    requires Init(s)
    ensures AllHandled(s) && s.published == []
  {
  }
}
