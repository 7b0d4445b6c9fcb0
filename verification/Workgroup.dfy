/** Protocol and detector as one machine: lanes access shared memory, release, acquire, fence and meet at
    barriers, all interleaved; the detector checks with the token matrix that the acquires write. */
module Workgroup {
  import opened Arith
  import opened ShadowWords
  import opened ShadowHistory
  import P = ReleaseTable
  import PI = ReleaseTableInvariant
  import PT = ReleaseTableTheorems
  import D = DetectorMachine
  import H = Handoff

  datatype Config = Config(protocol: P.Config, detector: D.Config)

  ghost predicate ValidConfig(cfg: Config) {
    && P.ValidConfig(cfg.protocol) && D.ValidConfig(cfg.detector)
    && cfg.protocol.group == cfg.detector.group && cfg.protocol.generation == cfg.detector.generation
    && cfg.protocol.subgroups == cfg.detector.subgroups <= OWNERS
  }

  /** `stamps[j]` and `seen[a]` (auxiliary) are the lengths of the protocol's log when touch j was made and
      when verdict a was given. */
  datatype State = State(protocol: P.State, detector: D.State, stamps: seq<nat>, seen: seq<nat>)

  datatype Event =
    | Atomic(ev: P.Event)
    | Begin(l: nat, access: Access)
    | Tick(l: nat)
    | Close
    | Advance

  ghost predicate Shape(cfg: Config, s: State) {
    && ValidConfig(cfg) && P.Shape(cfg.protocol, s.protocol) && D.Shape(cfg.detector, s.detector)
    && |s.stamps| == |s.detector.history| && |s.seen| == |s.detector.verdicts|
  }

  /** A lane does one thing at a time, and nothing while a barrier holds it. */
  ghost predicate Enabled(cfg: Config, s: State, ev: Event)
    requires Shape(cfg, s)
  {
    match ev
    case Atomic(ev) =>
      !ev.Barrier? && P.Enabled(s.protocol, ev) && s.detector.phase.Running? && s.detector.lanes[ev.t].Ready?
    case Begin(l, a) => D.Enabled(s.detector, D.Begin(l, a)) && s.protocol.threads[l].Idle?
    case Tick(l) => D.Enabled(s.detector, D.Tick(l))
    case Close => D.Enabled(s.detector, D.Close) && P.Enabled(s.protocol, P.Barrier)
    case Advance => D.Enabled(s.detector, D.Advance) && P.Enabled(s.protocol, P.Barrier)
  }

  ghost function Step(cfg: Config, s: State, ev: Event): State
    requires Shape(cfg, s) && Enabled(cfg, s, ev)
  {
    match ev
    case Atomic(ev) =>
      var p := P.Step(cfg.protocol, s.protocol, ev);
      s.(protocol := p, detector := s.detector.(tokens := H.DeviceMatrix(p, cfg.detector.subgroups)))
    case Begin(l, a) => s.(detector := D.Step(cfg.detector, s.detector, D.Begin(l, a)))
    case Tick(l) =>
      var next := s.(detector := D.Step(cfg.detector, s.detector, D.Tick(l)));
      if s.detector.lanes[l].Exchanging? then next.(stamps := s.stamps + [|s.protocol.log|])
      else next.(seen := s.seen + [|s.protocol.log|])
    case Close => s.(detector := D.Step(cfg.detector, s.detector, D.Close))
    case Advance =>
      var next := s.(detector := D.Step(cfg.detector, s.detector, D.Advance));
      if s.detector.phase.next < cfg.detector.stored then next
      else next.(protocol := P.Step(cfg.protocol, s.protocol, P.Barrier))
  }

  ghost predicate Init(cfg: Config, s: State) {
    && Shape(cfg, s) && P.Init(cfg.protocol, s.protocol) && D.Init(cfg.detector, s.detector)
    && s.detector.tokens == H.DeviceMatrix(s.protocol, cfg.detector.subgroups)
  }

  /** Releases of one key begun by this event carry one epoch with those in flight. */
  ghost predicate Disciplined(cfg: Config, s: State, ev: Event)
    requires Shape(cfg, s) && Enabled(cfg, s, ev)
  {
    ev.Atomic? ==> PT.Disciplined(cfg.protocol, s.protocol, ev.ev)
  }

  /** `t` is reached from `s` in n steps, all of them disciplined if d asks for it. */
  ghost predicate Reaches(cfg: Config, d: bool, s: State, t: State, n: nat)
    decreases n
  {
    if n == 0 then s == t
    else exists m, ev :: Reaches(cfg, d, s, m, n - 1) && Leads(cfg, d, m, ev, t)
  }

  ghost predicate Leads(cfg: Config, d: bool, m: State, ev: Event, t: State) {
    && Shape(cfg, m) && Enabled(cfg, m, ev) && t == Step(cfg, m, ev)
    && (PI.Strict(cfg.protocol, d) ==> Disciplined(cfg, m, ev))
  }

  // ---------------------------------------------------------------- invariant

  /** The matrix holds exactly what the log says was imported. */
  ghost predicate LogMatrix(tokens: seq<nat>, n: nat, log: seq<P.Entry>) {
    && |tokens| == n * n
    && forall c: nat, p: nat :: c < n && p < n ==>
         InMatrix(n, c, p) && forall e: nat :: e + 1 <= tokens[c * n + p] <==> PT.ImportedAtLeast(log, c, p, e)
  }

  ghost predicate Linked(cfg: Config, s: State)
    requires Shape(cfg, s)
  {
    && s.detector.tokens == H.DeviceMatrix(s.protocol, cfg.detector.subgroups)
    && (forall g :: 0 <= g < cfg.detector.stored ==> s.protocol.epochs[g] == s.detector.barriers)
    && (forall l :: 0 <= l < |s.detector.lanes| && !s.detector.lanes[l].Ready? ==> s.protocol.threads[l].Idle?)
    && (s.detector.phase.Closing? ==> P.Enabled(s.protocol, P.Barrier))
  }

  ghost predicate SeenOk(cfg: Config, s: State, a: nat)
    requires Shape(cfg, s) && a < |s.seen|
  {
    s.seen[a] <= |s.protocol.log|
    && LogMatrix(s.detector.verdicts[a].tokens, cfg.detector.subgroups, s.protocol.log[..s.seen[a]])
  }

  ghost predicate Noted(cfg: Config, s: State)
    requires Shape(cfg, s)
  {
    && (forall a :: 0 <= a < |s.seen| ==> SeenOk(cfg, s, a))
    && (forall j :: 0 <= j < |s.stamps| ==> s.stamps[j] <= |s.protocol.log|)
    && (forall j :: 0 <= j < |s.detector.history| ==> s.detector.history[j].subgroup < cfg.detector.subgroups)
  }

  /** Entry j finishes an acquire that began after entry i had published on its address. */
  ghost predicate Handoff(log: seq<P.Entry>, i: nat, j: nat)
    requires i < |log| && j < |log|
  {
    && log[i].Published? && log[j].Acquired? && i < log[j].begin
    && log[i].key.addr == log[j].addr && log[i].key.producer != log[j].consumer
  }

  /** Every handoff imported the published epoch before it finished. */
  ghost predicate HandoffsImported(log: seq<P.Entry>) {
    forall i, j :: 0 <= i < |log| && 0 <= j < |log| && Handoff(log, i, j) ==>
      PT.ImportedAtLeast(log[..j], log[j].consumer, log[i].key.producer, log[i].epoch)
  }

  ghost predicate Inv(cfg: Config, d: bool, s: State) {
    && Shape(cfg, s)
    && PI.Inv(cfg.protocol, d, s.protocol) && PT.ImportsHeld(s.protocol)
    && D.Inv(cfg.detector, s.detector)
    && Linked(cfg, s) && Noted(cfg, s)
    && (d ==> HandoffsImported(s.protocol.log))
  }

  lemma MatrixAt(p: P.State, n: nat, c: nat, q: nat)
    requires c < n && q < n
    ensures InMatrix(n, c, q) && H.DeviceMatrix(p, n)[c * n + q] == P.Token(p, c, q)
  {
    RowColumn(n, c, q);
  }

  lemma TokenIsLog(p: P.State, c: nat, q: nat)
    requires PI.TokenInv(p) && PT.ImportsHeld(p)
    ensures forall e: nat :: e + 1 <= P.Token(p, c, q) <==> PT.ImportedAtLeast(p.log, c, q, e)
  {
    forall e: nat ensures e + 1 <= P.Token(p, c, q) <==> PT.ImportedAtLeast(p.log, c, q, e) {
      PT.TokenOfImports(p, c, q, e);
    }
  }

  lemma MatrixIsLog(p: P.State, n: nat)
    requires PI.TokenInv(p) && PT.ImportsHeld(p)
    ensures LogMatrix(H.DeviceMatrix(p, n), n, p.log)
  {
    hide PI.TokenInv, PT.ImportsHeld, PT.ImportedAtLeast, P.Token, H.DeviceMatrix, H.MatrixOf;
    var tokens := H.DeviceMatrix(p, n);
    forall c: nat, q: nat | c < n && q < n
      ensures InMatrix(n, c, q)
      ensures forall e: nat :: e + 1 <= tokens[c * n + q] <==> PT.ImportedAtLeast(p.log, c, q, e)
    {
      MatrixAt(p, n, c, q);
      TokenIsLog(p, c, q);
    }
  }

  // ---------------------------------------------------------------- atomic steps

  /** A protocol step that is no barrier moves one thread and no epoch. */
  lemma AtomicMoves(cfg: P.Config, s: P.State, ev: P.Event)
    requires P.Shape(cfg, s) && P.Enabled(s, ev) && !ev.Barrier?
    ensures var s' := P.Step(cfg, s, ev);
            && s'.epochs == s.epochs && |s'.threads| == |s.threads| && ev.t < |s.threads|
            && forall u :: 0 <= u < |s.threads| && u != ev.t ==> s'.threads[u] == s.threads[u]
  {
    hide P.ReleaseStep, P.AcquireStep;
    if ev.Tick? && s.threads[ev.t].Releasing? {
      P.ReleaseStepMoves(cfg, s, ev.t);
    } else if ev.Tick? {
      P.AcquireStepMoves(cfg, s, ev.t);
    }
  }

  lemma TokensKeepDetector(cfg: D.Config, s: D.State, tokens: seq<nat>)
    requires D.Inv(cfg, s)
    ensures D.Inv(cfg, s.(tokens := tokens))
  {
    var s' := s.(tokens := tokens);
    forall l | 0 <= l < |s'.lanes| ensures D.LaneInv(cfg, s', l) { assert D.LaneInv(cfg, s, l); }
    forall a | 0 <= a < |s'.verdicts| ensures D.VerdictOk(cfg, s', s'.verdicts[a]) {
      assert D.VerdictOk(cfg, s, s.verdicts[a]);
    }
    forall j | 0 <= j < |s'.history| ensures D.Judged(s', j) || D.Pending(s', j) {
      if D.Judged(s, j) {
        var a :| 0 <= a < |s.verdicts| && s.verdicts[a].touch == j;
        assert s'.verdicts[a].touch == j;
      } else {
        var l :| 0 <= l < |s.lanes| && s.lanes[l].Checking? && s.lanes[l].touch == j;
        assert s'.lanes[l].touch == j;
      }
    }
  }

  lemma HandoffsStayImported(cfg: P.Config, s: P.State, s': P.State)
    requires PI.Inv(cfg, true, s') && PT.ImportsHeld(s') && HandoffsImported(s.log)
    requires s.log <= s'.log && |s'.log| <= |s.log| + 1
    ensures HandoffsImported(s'.log)
  {
    forall i, j | 0 <= i < |s'.log| && 0 <= j < |s'.log| && Handoff(s'.log, i, j)
      ensures PT.ImportedAtLeast(s'.log[..j], s'.log[j].consumer, s'.log[i].key.producer, s'.log[i].epoch)
    {
      assert PI.EntryOk(cfg, true, s', j);
      if j < |s.log| {
        assert s'.log[..j] == s.log[..j] && s'.log[i] == s.log[i] && s'.log[j] == s.log[j];
        assert Handoff(s.log, i, j);
      } else {
        NewHandoff(cfg, s', i, j);
      }
    }
  }

  lemma NewHandoff(cfg: P.Config, s: P.State, i: nat, j: nat)
    requires PI.Inv(cfg, true, s) && PT.ImportsHeld(s) && i < |s.log| && j == |s.log| - 1 && Handoff(s.log, i, j)
    ensures PT.ImportedAtLeast(s.log[..j], s.log[j].consumer, s.log[i].key.producer, s.log[i].epoch)
  {
    var c, p, e := s.log[j].consumer, s.log[i].key.producer, s.log[i].epoch;
    assert PI.EntryOk(cfg, true, s, j);
    PT.RunPublishedInRange(cfg, true, s, i);
    assert PI.Served(true, s, c, s.log[i].key, s.log[j].begin);
    PT.TokenOfImports(s, c, p, e);
    var x :| 0 <= x < |s.log| && s.log[x].Imported? && s.log[x].consumer == c && s.log[x].key.producer == p
        && e <= s.log[x].epoch;
    assert s.log[..j][x] == s.log[x];
  }

  lemma SeenKept(cfg: Config, s: State, s': State, a: nat)
    requires Shape(cfg, s) && Shape(cfg, s') && a < |s.seen| && a < |s'.seen| && SeenOk(cfg, s, a)
    requires s.protocol.log <= s'.protocol.log && s'.seen[a] == s.seen[a]
    requires s'.detector.verdicts[a] == s.detector.verdicts[a]
    ensures SeenOk(cfg, s', a)
  {
    assert s'.protocol.log[..s.seen[a]] == s.protocol.log[..s.seen[a]];
  }

  lemma AtomicKeeps(cfg: Config, d: bool, s: State, ev: P.Event)
    requires Inv(cfg, d, s) && Enabled(cfg, s, Atomic(ev))
    requires PI.Strict(cfg.protocol, d) ==> PT.Disciplined(cfg.protocol, s.protocol, ev)
    ensures Inv(cfg, d, Step(cfg, s, Atomic(ev)))
  {
    hide PI.Inv, D.Inv, P.Step, PT.ImportsHeld, PT.Disciplined, HandoffsImported, LogMatrix;
    var p' := P.Step(cfg.protocol, s.protocol, ev);
    var s' := Step(cfg, s, Atomic(ev));
    P.StepShape(cfg.protocol, s.protocol, ev);
    PT.StepKeeps(cfg.protocol, d, s.protocol, ev);
    PT.StepHoldsImports(cfg.protocol, s.protocol, ev);
    AtomicMoves(cfg.protocol, s.protocol, ev);
    TokensKeepDetector(cfg.detector, s.detector, s'.detector.tokens);
    assert Shape(cfg, s');
    forall a | 0 <= a < |s'.seen| ensures SeenOk(cfg, s', a) { SeenKept(cfg, s, s', a); }
    if d { HandoffsStayImported(cfg.protocol, s.protocol, p'); }
  }

  // ---------------------------------------------------------------- detector steps

  lemma BeginKeeps(cfg: Config, d: bool, s: State, l: nat, a: Access)
    requires Inv(cfg, d, s) && Enabled(cfg, s, Begin(l, a))
    ensures Inv(cfg, d, Step(cfg, s, Begin(l, a)))
  {
    hide PI.Inv, D.Inv, PT.ImportsHeld, HandoffsImported, LogMatrix;
    var s' := Step(cfg, s, Begin(l, a));
    D.StepKeeps(cfg.detector, s.detector, D.Begin(l, a));
    D.StepShape(cfg.detector, s.detector, D.Begin(l, a));
    forall x | 0 <= x < |s'.seen| ensures SeenOk(cfg, s', x) { SeenKept(cfg, s, s', x); }
  }

  lemma TickKeeps(cfg: Config, d: bool, s: State, l: nat)
    requires Inv(cfg, d, s) && Enabled(cfg, s, Tick(l))
    ensures Inv(cfg, d, Step(cfg, s, Tick(l)))
  {
    hide D.Inv, PT.ImportsHeld, HandoffsImported, LogMatrix;
    var s', n := Step(cfg, s, Tick(l)), cfg.detector.subgroups;
    D.StepKeeps(cfg.detector, s.detector, D.Tick(l));
    D.StepShape(cfg.detector, s.detector, D.Tick(l));
    MatrixIsLog(s.protocol, n);
    assert s.protocol.log[..|s.protocol.log|] == s.protocol.log;
    forall x | 0 <= x < |s'.seen| ensures SeenOk(cfg, s', x) {
      if x < |s.seen| { SeenKept(cfg, s, s', x); }
    }
  }

  lemma BarrierKeeps(cfg: Config, d: bool, s: State, ev: Event)
    requires Inv(cfg, d, s) && Enabled(cfg, s, ev) && (ev.Close? || ev.Advance?)
    ensures Inv(cfg, d, Step(cfg, s, ev))
  {
    hide PI.Inv, D.Inv, PT.ImportsHeld, HandoffsImported, LogMatrix;
    var s' := Step(cfg, s, ev);
    D.StepKeeps(cfg.detector, s.detector, if ev.Close? then D.Close else D.Advance);
    D.StepShape(cfg.detector, s.detector, if ev.Close? then D.Close else D.Advance);
    PT.BarrierKeeps(cfg.protocol, d, s.protocol);
    PT.StepHoldsImports(cfg.protocol, s.protocol, P.Barrier);
    P.StepShape(cfg.protocol, s.protocol, P.Barrier);
    assert H.DeviceMatrix(s'.protocol, cfg.detector.subgroups) == s.detector.tokens by {
      assert forall c, p :: P.Token(s'.protocol, c, p) == P.Token(s.protocol, c, p);
    }
    forall x | 0 <= x < |s'.seen| ensures SeenOk(cfg, s', x) { SeenKept(cfg, s, s', x); }
  }

  lemma StepKeeps(cfg: Config, d: bool, s: State, ev: Event)
    requires Inv(cfg, d, s) && Enabled(cfg, s, ev) && (PI.Strict(cfg.protocol, d) ==> Disciplined(cfg, s, ev))
    ensures Inv(cfg, d, Step(cfg, s, ev))
  {
    hide Inv, Step, PT.Disciplined;
    match ev
    case Atomic(x) => AtomicKeeps(cfg, d, s, x);
    case Begin(l, a) => BeginKeeps(cfg, d, s, l, a);
    case Tick(l) => TickKeeps(cfg, d, s, l);
    case _ => BarrierKeeps(cfg, d, s, ev);
  }

  lemma {:induction false} ReachesKeeps(cfg: Config, d: bool, s: State, t: State, n: nat)
    requires Inv(cfg, d, s) && Reaches(cfg, d, s, t, n)
    ensures Inv(cfg, d, t)
    decreases n
  {
    hide Inv, Step, Enabled, Disciplined;
    if 0 < n {
      var m, ev :| Reaches(cfg, d, s, m, n - 1) && Leads(cfg, d, m, ev, t);
      ReachesKeeps(cfg, d, s, m, n - 1);
      StepKeeps(cfg, d, m, ev);
    }
  }

  lemma InitInv(cfg: Config, d: bool, s: State)
    requires Init(cfg, s)
    ensures Inv(cfg, d, s)
  {
    PT.InitInv(cfg.protocol, d, s.protocol);
  }
}
