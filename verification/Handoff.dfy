/** The release/acquire protocol and the detector together: which earlier accesses an acquire makes the
    detector accept, and why it accepts any. */
module Handoff {
  import opened Arith
  import opened ShadowWords
  import opened ShadowHistory
  import opened ReleaseTable
  import opened ReleaseTableExact
  import opened ReleaseTableTheorems

  /** The device's token matrix, consumer by producer. */
  ghost predicate MatrixOf(s: State, n: nat, matrix: seq<nat>) {
    && |matrix| == n * n
    && forall c: nat, p: nat :: c < n && p < n ==> InMatrix(n, c, p) && matrix[c * n + p] == Token(s, c, p)
  }

  ghost function DeviceMatrix(s: State, n: nat): (r: seq<nat>)
    ensures |r| == n * n && MatrixOf(s, n, r)
  {
    var r := if n == 0 then [] else seq(n * n, i requires 0 <= i < n * n => Token(s, i / n, i % n));
    assert MatrixOf(s, n, r) by {
      forall c: nat, p: nat | c < n && p < n ensures InMatrix(n, c, p) && r[c * n + p] == Token(s, c, p) {
        RowColumn(n, c, p);
      }
    }
    r
  }

  ghost predicate BySubgroups(cfg: Config, prior: Touch, current: Touch) {
    cfg.subgroups <= OWNERS && prior.subgroup < cfg.subgroups && current.subgroup < cfg.subgroups
  }

  lemma TenBits(epoch: nat)
    ensures epoch % EPOCHS <= epoch && (epoch < EPOCHS ==> epoch % EPOCHS == epoch)
  {
  }

  /** Suppression reads one token: that of the current subgroup for the prior one. */
  lemma SuppressedMeansToken(cfg: Config, s: State, matrix: seq<nat>, prior: Touch, current: Touch)
    requires BySubgroups(cfg, prior, current) && MatrixOf(s, cfg.subgroups, matrix)
    ensures Suppressed(matrix, cfg.subgroups, prior, current)
       <==> prior.epoch % EPOCHS + 1 <= Token(s, current.subgroup, prior.subgroup)
  {
    SmallOwner(prior.subgroup);
    SmallOwner(current.subgroup);
    assert InMatrix(cfg.subgroups, current.subgroup, prior.subgroup);
  }

  /** Entry j finishes an acquire that began after entry i had published on its address; the accesses are
      by the two subgroups, the earlier one no later than the published epoch. */
  ghost predicate Synchronised(cfg: Config, log: seq<Entry>, i: nat, j: nat, prior: Touch, current: Touch) {
    && i < |log| && j < |log| && log[i].Published? && log[j].Acquired? && i < log[j].begin
    && log[i].key.addr == log[j].addr && log[i].key.producer != log[j].consumer
    && BySubgroups(cfg, prior, current)
    && prior.subgroup == log[i].key.producer && prior.epoch <= log[i].epoch && current.subgroup == log[j].consumer
  }

  /** A synchronised handoff is never reported. If the producer published a release on an address before
      the consumer's acquire of that address began, then everything the producer did up to the released
      epoch is ordered before the consumer, in every interleaving of a run whose concurrent releases of
      one key carry one epoch (or of any run, with a single slot). */
  lemma HandoffIsSuppressed(cfg: Config, s: State, evs: seq<Event>, i: nat, j: nat, matrix: seq<nat>,
                            prior: Touch, current: Touch)
    requires Init(cfg, s) && Runnable(cfg, s, evs) && (DisciplinedRun(cfg, s, evs) || cfg.capacity == 1)
    requires Synchronised(cfg, Run(cfg, s, evs).log, i, j, prior, current)
    requires MatrixOf(Run(cfg, s, evs), cfg.subgroups, matrix)
    ensures Suppressed(matrix, cfg.subgroups, prior, current)
  {
    AcquireImportsLatestEpoch(cfg, s, evs, i, j);
    SuppressedMeansToken(cfg, Run(cfg, s, evs), matrix, prior, current);
    assert prior.epoch % EPOCHS <= prior.epoch;
  }

  /** A touch of the published epoch, below 1024, is suppressed exactly when the acquire found that epoch:
      if it did not, the synchronised access is open to a false report. */
  lemma FoundIsSuppressed(cfg: Config, s: State, i: nat, j: nat, matrix: seq<nat>, prior: Touch, current: Touch)
    requires Synchronised(cfg, s.log, i, j, prior, current) && MatrixOf(s, cfg.subgroups, matrix)
    ensures Found(s, i, j) ==> Suppressed(matrix, cfg.subgroups, prior, current)
    ensures prior.epoch == s.log[i].epoch < EPOCHS ==>
        (Found(s, i, j) <==> Suppressed(matrix, cfg.subgroups, prior, current))
  {
    SuppressedMeansToken(cfg, s, matrix, prior, current);
    TenBits(prior.epoch);
  }

  ghost predicate SuppressedIfSynchronised(cfg: Config, s: State, i: nat, j: nat, matrix: seq<nat>, prior: Touch,
                                           current: Touch)
  {
    Synchronised(cfg, s.log, i, j, prior, current) && MatrixOf(s, cfg.subgroups, matrix) ==>
      Suppressed(matrix, cfg.subgroups, prior, current)
  }

  ghost predicate AllSynchronisedSuppressed(cfg: Config, s: State) {
    forall i: nat, j: nat, matrix, prior, current :: SuppressedIfSynchronised(cfg, s, i, j, matrix, prior, current)
  }

  /** Every synchronised access is suppressed, in every run of a configuration, exactly when it has a single
      slot, one lane per subgroup, or a single subgroup with lanes. */
  lemma SynchronisedIsSuppressedExactly(cfg: Config)
    requires ValidConfig(cfg) && cfg.subgroups <= OWNERS
    ensures (forall s, evs :: Init(cfg, s) && Runnable(cfg, s, evs) ==>
        AllSynchronisedSuppressed(cfg, Run(cfg, s, evs)))
       <==> NothingToLose(cfg)
  {
    if NothingToLose(cfg) {
      forall s, evs | Init(cfg, s) && Runnable(cfg, s, evs) ensures AllSynchronisedSuppressed(cfg, Run(cfg, s, evs)) {
        LatestIsFound(cfg, s, evs);
        FoundMeansSuppressed(cfg, Run(cfg, s, evs));
      }
    } else {
      var a, b, c := SomeCast(cfg);
      var s, evs := StaleFenceHidesLatestEpoch(cfg, a, b, c);
      var end := Run(cfg, s, evs);
      LostMeansReportable(cfg, end, 1, |end.log| - 1);
    }
  }

  lemma FoundMeansSuppressed(cfg: Config, s: State)
    requires LatestFound(s)
    ensures AllSynchronisedSuppressed(cfg, s)
  {
    forall i: nat, j: nat, matrix, prior, current
      ensures SuppressedIfSynchronised(cfg, s, i, j, matrix, prior, current)
    {
      if Synchronised(cfg, s.log, i, j, prior, current) && MatrixOf(s, cfg.subgroups, matrix) {
        assert Found(s, i, j);
        FoundIsSuppressed(cfg, s, i, j, matrix, prior, current);
      }
    }
  }

  lemma LostMeansReportable(cfg: Config, s: State, i: nat, j: nat)
    requires ValidConfig(cfg) && cfg.subgroups <= OWNERS && i < |s.log| && j < |s.log| && !Found(s, i, j)
    requires s.log[i].epoch < EPOCHS && s.log[i].key.producer < cfg.subgroups && s.log[j].consumer < cfg.subgroups
    ensures !AllSynchronisedSuppressed(cfg, s)
  {
    var matrix := DeviceMatrix(s, cfg.subgroups);
    var prior := Touch(s.log[i].key.producer, s.log[i].epoch, Access(0, 4, true, 0), 0);
    var current := Touch(s.log[j].consumer, s.log[i].epoch, Access(0, 4, true, 0), 0);
    FoundIsSuppressed(cfg, s, i, j, matrix, prior, current);
    assert !SuppressedIfSynchronised(cfg, s, i, j, matrix, prior, current);
  }

  /** Suppression is exactly an import: in every run, a pair is suppressed if and only if the later access's
      subgroup has imported a release of the earlier one's, of an epoch no older than the earlier access's
      ten-bit epoch. */
  lemma SuppressedExactly(cfg: Config, s: State, evs: seq<Event>, matrix: seq<nat>, prior: Touch, current: Touch)
    requires Init(cfg, s) && Runnable(cfg, s, evs)
    requires BySubgroups(cfg, prior, current) && MatrixOf(Run(cfg, s, evs), cfg.subgroups, matrix)
    ensures Suppressed(matrix, cfg.subgroups, prior, current)
       <==> ImportedAtLeast(Run(cfg, s, evs).log, current.subgroup, prior.subgroup, prior.epoch % EPOCHS)
  {
    SuppressedMeansToken(cfg, Run(cfg, s, evs), matrix, prior, current);
    TokenMeansImport(cfg, s, evs, current.subgroup, prior.subgroup, prior.epoch % EPOCHS);
  }

  /** Whether an import covers the earlier access's epoch in full. */
  ghost predicate Covered(log: seq<Entry>, prior: Touch, current: Touch) {
    ImportedAtLeast(log, current.subgroup, prior.subgroup, prior.epoch)
  }

  /** Every covered pair is suppressed. A pair is suppressed without cover exactly when there are imports
      from its ten-bit epoch on, but none from its epoch on; below epoch 1024 that cannot be. */
  lemma SuppressedWithoutCoverExactly(cfg: Config, s: State, evs: seq<Event>, matrix: seq<nat>, prior: Touch,
                                      current: Touch)
    requires Init(cfg, s) && Runnable(cfg, s, evs)
    requires BySubgroups(cfg, prior, current) && MatrixOf(Run(cfg, s, evs), cfg.subgroups, matrix)
    ensures var log, suppressed := Run(cfg, s, evs).log, Suppressed(matrix, cfg.subgroups, prior, current);
            && (Covered(log, prior, current) ==> suppressed)
            && (suppressed && !Covered(log, prior, current) <==>
                  && ImportedAtLeast(log, current.subgroup, prior.subgroup, prior.epoch % EPOCHS)
                  && !ImportedAtLeast(log, current.subgroup, prior.subgroup, prior.epoch))
            && (prior.epoch < EPOCHS ==> (suppressed <==> Covered(log, prior, current)))
  {
    var log := Run(cfg, s, evs).log;
    SuppressedExactly(cfg, s, evs, matrix, prior, current);
    TenBits(prior.epoch);
    Weaken(log, current.subgroup, prior.subgroup, prior.epoch, prior.epoch % EPOCHS);
  }

  lemma Weaken(log: seq<Entry>, c: nat, p: nat, e: nat, e': nat)
    requires e' <= e
    ensures ImportedAtLeast(log, c, p, e) ==> ImportedAtLeast(log, c, p, e')
  {
    if ImportedAtLeast(log, c, p, e) {
      var j :| 0 <= j < |log| && log[j].Imported? && log[j].consumer == c && log[j].key.producer == p
          && e <= log[j].epoch;
      assert e' <= log[j].epoch;
    }
  }

  /** Nothing is suppressed for free. In every run whatsoever, a suppressed pair means that the earlier
      access's subgroup recorded a release no older than that access's (10-bit) epoch, and that the
      later one then imported it from that address. */
  lemma SuppressionIsEarned(cfg: Config, s: State, evs: seq<Event>, matrix: seq<nat>, prior: Touch, current: Touch)
    returns (a: nat, i: nat, j: nat, e: nat)
    requires Init(cfg, s) && Runnable(cfg, s, evs)
    requires BySubgroups(cfg, prior, current) && MatrixOf(Run(cfg, s, evs), cfg.subgroups, matrix)
    requires Suppressed(matrix, cfg.subgroups, prior, current)
    ensures var end := Run(cfg, s, evs);
            && i < j < |end.log| && prior.subgroup < |end.epochs| && prior.subgroup != current.subgroup
            && prior.epoch % EPOCHS <= e <= end.epochs[prior.subgroup]
            && end.log[i] == Recorded(Key(a, prior.subgroup), e)
            && end.log[j] == Imported(current.subgroup, Key(a, prior.subgroup), e)
  {
    var end := Run(cfg, s, evs);
    SuppressedMeansToken(cfg, end, matrix, prior, current);
    e := Token(end, current.subgroup, prior.subgroup) - 1;
    a, i, j := TokensAreEarned(cfg, s, evs, current.subgroup, prior.subgroup);
  }
}
