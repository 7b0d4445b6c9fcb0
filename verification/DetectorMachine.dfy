/** The exact-shadow detector with all lanes running: an access is one exchange and one token check
    per cell, each a step of its own; a barrier holds every lane while thread 0 advances the epochs
    one by one; tokens may rise at any time. */
module DetectorMachine {
  import opened ShadowWords
  import opened ShadowHistory

  /** One workgroup: `group` is the subgroup of every lane, `stored` the subgroups with an epoch that
      barriers advance, `initial` whatever earlier launches left in the shadow. */
  datatype Config = Config(generation: nat, subgroups: nat, stored: nat, group: seq<nat>, initial: seq<nat>)

  ghost predicate ValidConfig(cfg: Config) {
    && Foreign(cfg.generation, cfg.initial)
    && cfg.stored <= cfg.subgroups
    && (forall l :: 0 <= l < |cfg.group| ==> cfg.group[l] < cfg.stored)
  }

  datatype Lane =
    | Ready
    | Exchanging(access: Access, epoch: nat, cell: nat)
    | Checking(access: Access, epoch: nat, cell: nat, prior: nat, touch: nat)

  datatype Phase = Running | Closing(next: nat)

  /** The outcome of one check: which touch, what tokens it saw, whether it emitted. */
  datatype Verdict = Verdict(touch: nat, tokens: seq<nat>, emitted: bool)

  datatype State = State(
    shadow: seq<nat>,
    tokens: seq<nat>,
    epochs: seq<nat>,
    lanes: seq<Lane>,
    phase: Phase,
    barriers: nat,
    history: seq<Touch>,
    verdicts: seq<Verdict>)

  datatype Event =
    | Begin(l: nat, access: Access)
    | Tick(l: nat)
    | Raise(index: nat, token: nat)
    | Close
    | Advance

  ghost predicate Shape(cfg: Config, s: State) {
    && ValidConfig(cfg)
    && |s.shadow| == |cfg.initial| && |s.epochs| == cfg.subgroups && |s.lanes| == |cfg.group|
    && (s.phase.Closing? ==> s.phase.next <= cfg.stored)
    && (forall l :: 0 <= l < |s.lanes| && !s.lanes[l].Ready? ==>
          Covers(s.lanes[l].access, s.lanes[l].cell) && LastCell(s.lanes[l].access) < |s.shadow|)
  }

  ghost predicate Init(cfg: Config, s: State) {
    && Shape(cfg, s)
    && s.shadow == cfg.initial && s.phase == Running && s.barriers == 0
    && s.history == [] && s.verdicts == []
    && (forall g :: 0 <= g < |s.epochs| ==> s.epochs[g] == 0)
    && (forall l :: 0 <= l < |s.lanes| ==> s.lanes[l].Ready?)
  }

  ghost predicate Enabled(s: State, ev: Event) {
    match ev
    case Begin(l, a) =>
      s.phase.Running? && l < |s.lanes| && s.lanes[l].Ready? && 0 < a.bytes && LastCell(a) < |s.shadow|
    case Tick(l) => l < |s.lanes| && !s.lanes[l].Ready?
    case Raise(i, token) => i < |s.tokens| && s.tokens[i] <= token
    case Close => s.phase.Running? && forall l :: 0 <= l < |s.lanes| ==> s.lanes[l].Ready?
    case Advance => s.phase.Closing?
  }

  /** After the check of a cell: the next cell of the access, or done. */
  ghost function AfterCheck(lane: Lane): Lane
    requires lane.Checking? && Covers(lane.access, lane.cell)
  {
    if lane.cell < LastCell(lane.access) then Exchanging(lane.access, lane.epoch, lane.cell + 1) else Ready
  }

  ghost function Step(cfg: Config, s: State, ev: Event): State
    requires Shape(cfg, s) && Enabled(s, ev)
  {
    match ev
    case Begin(l, a) => s.(lanes := s.lanes[l := Exchanging(a, s.epochs[cfg.group[l]], FirstCell(a))])
    case Tick(l) =>
      var lane := s.lanes[l];
      if lane.Exchanging? then
        var packed := PackExact(KindOf(lane.access.store), cfg.group[l], lane.epoch, cfg.generation, lane.access.site);
        s.(shadow := s.shadow[lane.cell := packed],
           history := s.history + [Touch(cfg.group[l], lane.epoch, lane.access, lane.cell)],
           lanes := s.lanes[l := Checking(lane.access, lane.epoch, lane.cell, s.shadow[lane.cell], |s.history|)])
      else
        var current := DecodeExact(PackExact(KindOf(lane.access.store), cfg.group[l], lane.epoch, cfg.generation,
                                             lane.access.site));
        var prior := DecodeExact(lane.prior);
        var emitted := ExactConflict(current, prior)
                       && !OrderedBy(s.tokens, cfg.subgroups, prior.owner, prior.epoch, current.owner);
        s.(verdicts := s.verdicts + [Verdict(lane.touch, s.tokens, emitted)], lanes := s.lanes[l := AfterCheck(lane)])
    case Raise(i, token) => s.(tokens := s.tokens[i := token])
    case Close => s.(phase := Closing(0))
    case Advance =>
      if s.phase.next < cfg.stored
      then s.(epochs := s.epochs[s.phase.next := s.epochs[s.phase.next] + 1], phase := Closing(s.phase.next + 1))
      else s.(phase := Running, barriers := s.barriers + 1)
  }

  // ---------------------------------------------------------------- invariant

  ghost predicate LaneInv(cfg: Config, s: State, l: nat)
    requires Shape(cfg, s) && l < |s.lanes|
  {
    match s.lanes[l]
    case Ready => true
    case Exchanging(_, e, _) => e == s.barriers
    case Checking(a, e, c, prior, j) =>
      && e == s.barriers && j < |s.history|
      && s.history[j] == Touch(cfg.group[l], e, a, c)
      && prior == WordAt(cfg.generation, cfg.initial, s.history[..j], c)
  }

  /** Between barriers every subgroup is in the same epoch: the number of barriers passed. */
  ghost predicate EpochsInv(cfg: Config, s: State)
    requires Shape(cfg, s)
  {
    match s.phase
    case Running => forall g :: 0 <= g < cfg.stored ==> s.epochs[g] == s.barriers
    case Closing(next) =>
      && (forall g :: 0 <= g < cfg.stored ==> s.epochs[g] == s.barriers + if g < next then 1 else 0)
      && (forall l :: 0 <= l < |s.lanes| ==> s.lanes[l].Ready?)
  }

  ghost predicate HistoryInv(cfg: Config, s: State)
    requires Shape(cfg, s)
  {
    && (forall c :: 0 <= c < |s.shadow| ==> s.shadow[c] == WordAt(cfg.generation, cfg.initial, s.history, c))
    && (forall j :: 0 <= j < |s.history| ==> s.history[j].cell < |s.shadow| && s.history[j].epoch <= s.barriers)
    && (forall i, j :: 0 <= i <= j < |s.history| ==> s.history[i].epoch <= s.history[j].epoch)
  }

  ghost predicate VerdictOk(cfg: Config, s: State, v: Verdict) {
    && v.touch < |s.history|
    && (v.emitted <==> ToReport(s.history, v.touch, v.tokens, cfg.subgroups))
  }

  /** Every touch is checked once: by a verdict already given or by the lane that made it. */
  ghost predicate ChecksInv(s: State) {
    && (forall a, b :: 0 <= a < b < |s.verdicts| ==> s.verdicts[a].touch != s.verdicts[b].touch)
    && (forall a, l :: 0 <= a < |s.verdicts| && 0 <= l < |s.lanes| && s.lanes[l].Checking? ==>
          s.verdicts[a].touch != s.lanes[l].touch)
    && (forall l, m ::
          0 <= l < |s.lanes| && 0 <= m < |s.lanes| && l != m && s.lanes[l].Checking? && s.lanes[m].Checking? ==>
          s.lanes[l].touch != s.lanes[m].touch)
    && (forall j :: 0 <= j < |s.history| ==> Judged(s, j) || Pending(s, j))
  }

  ghost predicate Judged(s: State, j: nat) {
    exists a :: 0 <= a < |s.verdicts| && s.verdicts[a].touch == j
  }

  ghost predicate Pending(s: State, j: nat) {
    exists l :: 0 <= l < |s.lanes| && s.lanes[l].Checking? && s.lanes[l].touch == j
  }

  ghost predicate Inv(cfg: Config, s: State) {
    && Shape(cfg, s)
    && (forall l :: 0 <= l < |s.lanes| ==> LaneInv(cfg, s, l))
    && EpochsInv(cfg, s)
    && HistoryInv(cfg, s)
    && (forall a :: 0 <= a < |s.verdicts| ==> VerdictOk(cfg, s, s.verdicts[a]))
    && ChecksInv(s)
  }

  lemma VerdictKept(cfg: Config, s: State, s': State, t: Touch, v: Verdict)
    requires VerdictOk(cfg, s, v) && s'.history == s.history + [t]
    ensures VerdictOk(cfg, s', v)
  {
    PrefixKept(s.history, t, v.touch);
    var i := LastTouch(s.history[..v.touch], s.history[v.touch].cell);
    assert s'.history[v.touch] == s.history[v.touch];
    assert 0 <= i ==> s'.history[i] == s.history[i];
  }

  lemma ExchangeKeeps(cfg: Config, s: State, l: nat)
    requires Inv(cfg, s) && l < |s.lanes| && s.lanes[l].Exchanging?
    ensures Inv(cfg, Step(cfg, s, Tick(l)))
  {
    var s' := Step(cfg, s, Tick(l));
    var Exchanging(a, e, c) := s.lanes[l];
    var t := Touch(cfg.group[l], e, a, c);
    assert LaneInv(cfg, s, l);
    forall x | 0 <= x < |s'.shadow| ensures s'.shadow[x] == WordAt(cfg.generation, cfg.initial, s'.history, x) {
      WordAtAppend(cfg.generation, cfg.initial, s.history, t, x);
    }
    forall v | v in s.verdicts ensures VerdictOk(cfg, s', v) {
      assert exists a :: 0 <= a < |s.verdicts| && s.verdicts[a] == v;
      VerdictKept(cfg, s, s', t, v);
    }
    assert s'.history[..|s.history|] == s.history;
    forall m | 0 <= m < |s'.lanes| ensures LaneInv(cfg, s', m) {
      assert LaneInv(cfg, s, m);
      if m != l && s.lanes[m].Checking? { PrefixKept(s.history, t, s.lanes[m].touch); }
    }
    ExchangeChecks(cfg, s, l);
  }

  lemma ExchangeChecks(cfg: Config, s: State, l: nat)
    requires Inv(cfg, s) && l < |s.lanes| && s.lanes[l].Exchanging?
    ensures ChecksInv(Step(cfg, s, Tick(l)))
  {
    var s' := Step(cfg, s, Tick(l));
    assert forall m :: 0 <= m < |s.lanes| && s.lanes[m].Checking? ==> LaneInv(cfg, s, m);
    forall j | 0 <= j < |s'.history| ensures Judged(s', j) || Pending(s', j) {
      if j == |s.history| {
        assert s'.lanes[l].Checking? && s'.lanes[l].touch == j;
      } else if Pending(s, j) {
        var m :| 0 <= m < |s.lanes| && s.lanes[m].Checking? && s.lanes[m].touch == j;
        assert s'.lanes[m] == s.lanes[m];
      }
    }
  }

  lemma CheckKeeps(cfg: Config, s: State, l: nat)
    requires Inv(cfg, s) && l < |s.lanes| && s.lanes[l].Checking?
    ensures Inv(cfg, Step(cfg, s, Tick(l)))
  {
    var s' := Step(cfg, s, Tick(l));
    var Checking(a, e, c, prior, j) := s.lanes[l];
    assert LaneInv(cfg, s, l);
    CheckMeansToReport(cfg.generation, cfg.initial, s.history, j, s.tokens, cfg.subgroups);
    forall m | 0 <= m < |s'.lanes| ensures LaneInv(cfg, s', m) { assert LaneInv(cfg, s, m); }
    forall x | 0 <= x < |s'.verdicts| ensures VerdictOk(cfg, s', s'.verdicts[x]) {
      if x < |s.verdicts| { assert VerdictOk(cfg, s, s.verdicts[x]); }
    }
    CheckChecks(cfg, s, l);
  }

  lemma CheckChecks(cfg: Config, s: State, l: nat)
    requires Inv(cfg, s) && l < |s.lanes| && s.lanes[l].Checking?
    ensures ChecksInv(Step(cfg, s, Tick(l)))
  {
    var s' := Step(cfg, s, Tick(l));
    forall j | 0 <= j < |s'.history| ensures Judged(s', j) || Pending(s', j) {
      if j == s.lanes[l].touch {
        assert s'.verdicts[|s.verdicts|].touch == j;
      } else if Judged(s, j) {
        var x :| 0 <= x < |s.verdicts| && s.verdicts[x].touch == j;
        assert s'.verdicts[x].touch == j;
      } else {
        var m :| 0 <= m < |s.lanes| && s.lanes[m].Checking? && s.lanes[m].touch == j;
        assert s'.lanes[m] == s.lanes[m];
      }
    }
  }

  lemma OtherKeeps(cfg: Config, s: State, ev: Event)
    requires Inv(cfg, s) && Enabled(s, ev) && !ev.Tick?
    ensures Inv(cfg, Step(cfg, s, ev))
  {
    var s' := Step(cfg, s, ev);
    forall m | 0 <= m < |s'.lanes| ensures LaneInv(cfg, s', m) { assert LaneInv(cfg, s, m); }
    forall x | 0 <= x < |s'.verdicts| ensures VerdictOk(cfg, s', s'.verdicts[x]) {
      assert VerdictOk(cfg, s, s.verdicts[x]);
    }
    forall j | 0 <= j < |s'.history| ensures Judged(s', j) || Pending(s', j) {
      if Pending(s, j) {
        var m :| 0 <= m < |s.lanes| && s.lanes[m].Checking? && s.lanes[m].touch == j;
        assert s'.lanes[m] == s.lanes[m];
      } else {
        var x :| 0 <= x < |s.verdicts| && s.verdicts[x].touch == j;
        assert s'.verdicts[x].touch == j;
      }
    }
  }

  lemma StepKeeps(cfg: Config, s: State, ev: Event)
    requires Inv(cfg, s) && Enabled(s, ev)
    ensures Inv(cfg, Step(cfg, s, ev))
  {
    if ev.Tick? {
      if s.lanes[ev.l].Exchanging? { ExchangeKeeps(cfg, s, ev.l); } else { CheckKeeps(cfg, s, ev.l); }
    } else {
      OtherKeeps(cfg, s, ev);
    }
  }

  lemma StepShape(cfg: Config, s: State, ev: Event)
    requires Shape(cfg, s) && Enabled(s, ev)
    ensures Shape(cfg, Step(cfg, s, ev))
  {
  }

  // ---------------------------------------------------------------- runs

  ghost predicate Runnable(cfg: Config, s: State, evs: seq<Event>)
    requires Shape(cfg, s)
    decreases |evs|
  {
    evs == [] || (Enabled(s, evs[0]) && (StepShape(cfg, s, evs[0]); Runnable(cfg, Step(cfg, s, evs[0]), evs[1..])))
  }

  ghost function Run(cfg: Config, s: State, evs: seq<Event>): State
    requires Shape(cfg, s) && Runnable(cfg, s, evs)
    decreases |evs|
  {
    if evs == [] then s else (StepShape(cfg, s, evs[0]); Run(cfg, Step(cfg, s, evs[0]), evs[1..]))
  }

  lemma {:induction false} RunKeeps(cfg: Config, s: State, evs: seq<Event>)
    requires Inv(cfg, s) && Runnable(cfg, s, evs)
    ensures Inv(cfg, Run(cfg, s, evs))
    decreases |evs|
  {
    if evs != [] {
      StepKeeps(cfg, s, evs[0]);
      RunKeeps(cfg, Step(cfg, s, evs[0]), evs[1..]);
    }
  }

  /** Exactness over every run: a check emits exactly when its touch has a predecessor on the same cell
      by another subgroup, one of them a write, in the same epoch modulo 1024, not yet acquired; and
      when no access is in flight, every touch has been checked exactly once. */
  lemma EmissionsAreExact(cfg: Config, s: State, evs: seq<Event>)
    requires Init(cfg, s) && Runnable(cfg, s, evs)
    ensures var end := Run(cfg, s, evs);
            && (forall a :: 0 <= a < |end.verdicts| ==> VerdictOk(cfg, end, end.verdicts[a]))
            && (forall a, b :: 0 <= a < b < |end.verdicts| ==> end.verdicts[a].touch != end.verdicts[b].touch)
            && ((forall l :: 0 <= l < |end.lanes| ==> end.lanes[l].Ready?) ==>
                  forall j :: 0 <= j < |end.history| ==> Judged(end, j))
  {
    RunKeeps(cfg, s, evs);
    var end := Run(cfg, s, evs);
    if forall l :: 0 <= l < |end.lanes| ==> end.lanes[l].Ready? {
      forall j | 0 <= j < |end.history| ensures Judged(end, j) {
        assert !Pending(end, j);
      }
    }
  }

  /** What an emission is about: two successive touches of a cell, in conflict, with epochs a multiple of
      1024 apart, and not acquired. */
  ghost predicate Conflict(cfg: Config, s: State, i: nat, j: nat, tokens: seq<nat>) {
    && i < j < |s.history| && s.history[i].cell == s.history[j].cell
    && (forall k :: i < k < j ==> s.history[k].cell != s.history[j].cell)
    && s.history[i].subgroup != s.history[j].subgroup
    && (s.history[i].access.store || s.history[j].access.store)
    && (s.history[j].epoch - s.history[i].epoch) % EPOCHS == 0
    && (s.history[j].epoch - s.history[i].epoch < EPOCHS ==> s.history[i].epoch == s.history[j].epoch)
    && !Suppressed(tokens, cfg.subgroups, s.history[i], s.history[j])
  }

  lemma EmittedPair(cfg: Config, s: State, a: nat) returns (i: nat, j: nat)
    requires Inv(cfg, s) && a < |s.verdicts| && s.verdicts[a].emitted
    ensures j == s.verdicts[a].touch && Conflict(cfg, s, i, j, s.verdicts[a].tokens)
    ensures s.history[i].epoch <= s.history[j].epoch
  {
    j := s.verdicts[a].touch;
    assert VerdictOk(cfg, s, s.verdicts[a]);
    i := LastTouch(s.history[..j], s.history[j].cell);
    assert s.history[..j][i] == s.history[i];
    SameResidue(s.history[i].epoch, s.history[j].epoch);
  }

  /** Every emission is a conflict of the detector's contract, up to the width of the epoch field: if
      fewer than 1024 barriers separate the two touches, none does. */
  lemma EmissionMeansConflict(cfg: Config, s: State, evs: seq<Event>, a: nat) returns (i: nat, j: nat)
    requires Init(cfg, s) && Runnable(cfg, s, evs)
    requires a < |Run(cfg, s, evs).verdicts| && Run(cfg, s, evs).verdicts[a].emitted
    ensures var end := Run(cfg, s, evs);
            j == end.verdicts[a].touch && Conflict(cfg, end, i, j, end.verdicts[a].tokens)
  {
    RunKeeps(cfg, s, evs);
    i, j := EmittedPair(cfg, Run(cfg, s, evs), a);
  }

  lemma SameResidue(x: nat, y: nat)
    requires x <= y
    ensures (y - x) % EPOCHS == 0 <==> x % EPOCHS == y % EPOCHS
    ensures x % EPOCHS == y % EPOCHS && y - x < EPOCHS ==> x == y
  {
  }

  /** A barrier always separates unless the distance is a multiple of 1024 epochs: conflicting,
      unacquired neighbours are reported if and only if their epochs agree modulo 1024. */
  lemma BarrierSeparatesExactly(cfg: Config, s: State, evs: seq<Event>, a: nat, i: nat)
    requires Init(cfg, s) && Runnable(cfg, s, evs)
    requires a < |Run(cfg, s, evs).verdicts| && i < |Run(cfg, s, evs).history|
    requires var end := Run(cfg, s, evs); var j := end.verdicts[a].touch;
             && i < j < |end.history| && end.history[i].cell == end.history[j].cell
             && (forall k :: i < k < j ==> end.history[k].cell != end.history[j].cell)
             && end.history[i].subgroup % OWNERS != end.history[j].subgroup % OWNERS
             && (end.history[i].access.store || end.history[j].access.store)
             && !Suppressed(end.verdicts[a].tokens, cfg.subgroups, end.history[i], end.history[j])
    ensures var end := Run(cfg, s, evs); var j := end.verdicts[a].touch;
            end.verdicts[a].emitted <==> (end.history[j].epoch - end.history[i].epoch) % EPOCHS == 0
  {
    RunKeeps(cfg, s, evs);
    var end := Run(cfg, s, evs);
    var j := end.verdicts[a].touch;
    assert VerdictOk(cfg, end, end.verdicts[a]);
    var n := LastTouch(end.history[..j], end.history[j].cell);
    assert end.history[..j][i] == end.history[i];
    assert n == i;
    SameResidue(end.history[i].epoch, end.history[j].epoch);
  }

  // ---------------------------------------------------------------- extending a run

  ghost predicate Reaches(cfg: Config, s: State, evs: seq<Event>, end: State) {
    Shape(cfg, s) && Shape(cfg, end) && Runnable(cfg, s, evs) && Run(cfg, s, evs) == end
  }

  lemma {:induction false} Then(cfg: Config, s: State, evs: seq<Event>, mid: State, ev: Event)
    requires Reaches(cfg, s, evs, mid) && Enabled(mid, ev)
    ensures Reaches(cfg, s, evs + [ev], Step(cfg, mid, ev))
    decreases |evs|
  {
    StepShape(cfg, mid, ev);
    if evs == [] {
      assert (evs + [ev])[1..] == [];
    } else {
      StepShape(cfg, s, evs[0]);
      Then(cfg, Step(cfg, s, evs[0]), evs[1..], mid, ev);
      assert (evs + [ev])[1..] == evs[1..] + [ev];
    }
  }
}
