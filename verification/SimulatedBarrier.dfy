/** The simulated workgroup barrier: participating threads count themselves in, thread 0 compares the
    count between two hardware barriers, closes the epoch if nobody is missing, and resets the count. */
module SimulatedBarrier {

  /** A thread waits at the first hardware barrier once it has said whether it participates. */
  datatype Arrival = Pending | Arrived(participates: bool)

  datatype Report = Divergence(expected: nat, observed: nat)

  /** `rounds` (auxiliary) holds who participated in every round thread 0 has checked. */
  datatype State = State(arrivals: seq<Arrival>, checked: bool, count: nat, epochs: seq<nat>, reports: seq<Report>,
                         rounds: seq<seq<bool>>)

  datatype Event =
    | Arrive(t: nat, participates: bool)
    | Check
    | Leave

  ghost predicate AllArrived(arrivals: seq<Arrival>) {
    forall t :: 0 <= t < |arrivals| ==> arrivals[t].Arrived?
  }

  ghost function Participation(arrivals: seq<Arrival>): seq<bool>
  {
    seq(|arrivals|, t requires 0 <= t < |arrivals| => arrivals[t].Arrived? && arrivals[t].participates)
  }

  ghost predicate Enabled(s: State, ev: Event) {
    match ev
    case Arrive(t, _) => !s.checked && t < |s.arrivals| && s.arrivals[t].Pending?
    case Check => !s.checked && AllArrived(s.arrivals)
    case Leave => s.checked
  }

  ghost function Advance(epochs: seq<nat>): seq<nat> {
    seq(|epochs|, g requires 0 <= g < |epochs| => epochs[g] + 1)
  }

  ghost function Step(expected: nat, s: State, ev: Event): State
    requires Enabled(s, ev)
  {
    match ev
    case Arrive(t, participates) =>
      s.(arrivals := s.arrivals[t := Arrived(participates)], count := s.count + if participates then 1 else 0)
    case Check =>
      var next := s.(checked := true, count := 0, rounds := s.rounds + [Participation(s.arrivals)]);
      if s.count == expected then next.(epochs := Advance(s.epochs))
      else next.(reports := s.reports + [Divergence(expected, s.count)])
    case Leave =>
      s.(checked := false, arrivals := seq(|s.arrivals|, t requires 0 <= t < |s.arrivals| => Pending))
  }

  ghost predicate Runnable(expected: nat, s: State, evs: seq<Event>)
    decreases |evs|
  {
    evs == [] || (Enabled(s, evs[0]) && Runnable(expected, Step(expected, s, evs[0]), evs[1..]))
  }

  ghost function Run(expected: nat, s: State, evs: seq<Event>): State
    requires Runnable(expected, s, evs)
    decreases |evs|
  {
    if evs == [] then s else Run(expected, Step(expected, s, evs[0]), evs[1..])
  }

  ghost predicate Init(s: State) {
    && (forall t :: 0 <= t < |s.arrivals| ==> s.arrivals[t].Pending?)
    && !s.checked && s.count == 0 && s.reports == [] && s.rounds == []
  }

  // ---------------------------------------------------------------- what rounds amount to

  ghost function Counted(round: seq<bool>): nat {
    if round == [] then 0 else Counted(round[..|round| - 1]) + if round[|round| - 1] then 1 else 0
  }

  /** How many rounds had exactly the expected number of participants. */
  ghost function FullRounds(expected: nat, rounds: seq<seq<bool>>): nat {
    if rounds == [] then 0
    else FullRounds(expected, rounds[..|rounds| - 1]) + if Counted(rounds[|rounds| - 1]) == expected then 1 else 0
  }

  /** The reports the other rounds call for. */
  ghost function Divergences(expected: nat, rounds: seq<seq<bool>>): seq<Report> {
    if rounds == [] then []
    else
      var n := Counted(rounds[|rounds| - 1]);
      Divergences(expected, rounds[..|rounds| - 1]) + if n == expected then [] else [Divergence(expected, n)]
  }

  lemma {:induction false} CountedUpdate(round: seq<bool>, t: nat)
    requires t < |round| && !round[t]
    ensures Counted(round[t := true]) == Counted(round) + 1
  {
    var k := |round| - 1;
    if t < k {
      CountedUpdate(round[..k], t);
      assert round[t := true][..k] == round[..k][t := true];
    } else {
      assert round[t := true][..k] == round[..k];
    }
  }

  lemma {:induction false} NobodyCounted(round: seq<bool>)
    requires forall t :: 0 <= t < |round| ==> !round[t]
    ensures Counted(round) == 0
  {
    if round != [] { NobodyCounted(round[..|round| - 1]); }
  }

  ghost predicate Inv(expected: nat, initial: seq<nat>, s: State) {
    && s.count == (if s.checked then 0 else Counted(Participation(s.arrivals)))
    && |s.epochs| == |initial|
    && (forall g :: 0 <= g < |initial| ==> s.epochs[g] == initial[g] + FullRounds(expected, s.rounds))
    && s.reports == Divergences(expected, s.rounds)
  }

  lemma ArriveKeeps(s: State, t: nat, participates: bool)
    requires t < |s.arrivals| && s.arrivals[t].Pending?
    ensures Counted(Participation(s.arrivals[t := Arrived(participates)]))
         == Counted(Participation(s.arrivals)) + if participates then 1 else 0
  {
    var after := s.arrivals[t := Arrived(participates)];
    if participates {
      CountedUpdate(Participation(s.arrivals), t);
      assert Participation(after) == Participation(s.arrivals)[t := true];
    } else {
      assert Participation(after) == Participation(s.arrivals);
    }
  }

  lemma CheckKeeps(expected: nat, initial: seq<nat>, s: State)
    requires Inv(expected, initial, s) && Enabled(s, Check)
    ensures Inv(expected, initial, Step(expected, s, Check))
  {
    hide Counted, Participation;
    assert Step(expected, s, Check).rounds[..|s.rounds|] == s.rounds;
  }

  lemma StepKeeps(expected: nat, initial: seq<nat>, s: State, ev: Event)
    requires Inv(expected, initial, s) && Enabled(s, ev)
    ensures Inv(expected, initial, Step(expected, s, ev))
  {
    hide Counted, FullRounds, Divergences;
    match ev
    case Arrive(t, participates) => ArriveKeeps(s, t, participates);
    case Check => CheckKeeps(expected, initial, s);
    case Leave => NobodyCounted(Participation(Step(expected, s, ev).arrivals));
  }

  lemma {:induction false} RunKeeps(expected: nat, initial: seq<nat>, s: State, evs: seq<Event>)
    requires Inv(expected, initial, s) && Runnable(expected, s, evs)
    ensures Inv(expected, initial, Run(expected, s, evs))
    decreases |evs|
  {
    if evs != [] {
      StepKeeps(expected, initial, s, evs[0]);
      RunKeeps(expected, initial, Step(expected, s, evs[0]), evs[1..]);
    }
  }

  /** Over any number of rounds and in every order of arrival, each epoch has advanced once for every
      round with the expected number of participants, and every other round, and no other, has been
      reported with the number that came. */
  lemma RoundsCloseOrReport(expected: nat, s: State, evs: seq<Event>)
    requires Init(s) && Runnable(expected, s, evs)
    ensures var end := Run(expected, s, evs);
            && |end.epochs| == |s.epochs|
            && (forall g :: 0 <= g < |s.epochs| ==> end.epochs[g] == s.epochs[g] + FullRounds(expected, end.rounds))
            && end.reports == Divergences(expected, end.rounds)
            && |end.rounds| == FullRounds(expected, end.rounds) + |end.reports|
  {
    NobodyCounted(Participation(s.arrivals));
    RunKeeps(expected, s.epochs, s, evs);
    RoundsSplit(expected, Run(expected, s, evs).rounds);
  }

  lemma {:induction false} RoundsSplit(expected: nat, rounds: seq<seq<bool>>)
    ensures |rounds| == FullRounds(expected, rounds) + |Divergences(expected, rounds)|
  {
    if rounds != [] { RoundsSplit(expected, rounds[..|rounds| - 1]); }
  }

  // ---------------------------------------------------------------- who was counted

  /** The threads that said they take part. */
  ghost function Joining(evs: seq<Event>): nat {
    if evs == [] then 0 else Joining(evs[1..]) + if evs[0].Arrive? && evs[0].participates then 1 else 0
  }

  ghost function Total(rounds: seq<seq<bool>>): nat {
    if rounds == [] then 0 else Total(rounds[..|rounds| - 1]) + Counted(rounds[|rounds| - 1])
  }

  /** Those counted in the checked rounds, and in the round that is not checked yet. */
  ghost function CountedSoFar(s: State): nat {
    Total(s.rounds) + if s.checked then 0 else Counted(Participation(s.arrivals))
  }

  lemma StepCounts(expected: nat, s: State, ev: Event)
    requires Enabled(s, ev)
    ensures CountedSoFar(Step(expected, s, ev))
         == CountedSoFar(s) + if ev.Arrive? && ev.participates then 1 else 0
  {
    hide Counted, Participation;
    var s' := Step(expected, s, ev);
    match ev
    case Arrive(t, participates) => ArriveKeeps(s, t, participates);
    case Check => assert s'.rounds[..|s.rounds|] == s.rounds;
    case Leave => NobodyIn(s'.arrivals);
  }

  lemma NobodyIn(arrivals: seq<Arrival>)
    requires forall t :: 0 <= t < |arrivals| ==> arrivals[t].Pending?
    ensures Counted(Participation(arrivals)) == 0
  {
    NobodyCounted(Participation(arrivals));
  }

  /** Everybody who takes part is counted once, in the round of the arrival, and nobody else is. */
  lemma {:induction false} EveryArrivalIsCounted(expected: nat, s: State, evs: seq<Event>)
    requires Runnable(expected, s, evs)
    ensures CountedSoFar(Run(expected, s, evs)) == CountedSoFar(s) + Joining(evs)
    decreases |evs|
  {
    hide CountedSoFar;
    if evs != [] {
      StepCounts(expected, s, evs[0]);
      EveryArrivalIsCounted(expected, Step(expected, s, evs[0]), evs[1..]);
    }
  }
}
