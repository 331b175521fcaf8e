/** A run in which InstallationCount misses an increment: the day is filled, and then an increment
    arrives whose event time is the end of that day. */
module LateIncrements {
  import opened Options
  import opened Sums
  import opened CountTables
  import opened Events
  import opened FillMachine
  import opened FillInvariant
  import opened FillActions
  import opened FillTheorems
  import opened LoggingTheorems

  const INVITES := "invites_sent::day"

  function OneStat(): Config {
    Config(map[INVITES := Stat(Logging, RealmCount, DAY)], 0,
           (p: string, log: seq<Event>, input: Rows, e: Time) => NO_ROWS, (t: TableId, id: int) => id)
  }

  lemma OneStatIsValid()
    ensures ValidConfig(OneStat())
  {
    assert ValidStat(OneStat(), INVITES);
  }

  /** Empty tables, no history, and the stat's FillState and runner. */
  predicate Empty(s: State, fill: FillState, runner: Runner) {
    && s.tables == Init().tables && s.sent == [] && s.log == []
    && s.fill == map[INVITES := fill] && s.RunnerOf(INVITES) == runner
  }

  lemma NothingToAggregate(p: string, e: Time)
    ensures Slot(NO_ROWS, p, e) == NO_ROWS && InstallationRows(NO_ROWS, p, e) == NO_ROWS && Insert(NO_ROWS, NO_ROWS) == Some(NO_ROWS)
  {
    assert Values(NO_ROWS) == map[];
  }

  /** The runner's next statement leads to this state. */
  ghost predicate Moves(s: State, fill: FillState, runner: Runner) {
    && ValidConfig(OneStat()) && Admissible(OneStat(), s, Advance(INVITES))
    && Empty(Step(OneStat(), s, Advance(INVITES)), fill, runner)
  }

  lemma Begins()
    ensures ValidConfig(OneStat()) && Admissible(OneStat(), Init(), Call(INVITES, DAY))
    ensures Empty(Step(OneStat(), Init(), Call(INVITES, DAY)), FillState(0, Done), ReadDependencies(0, 0, DAY))
  {
    OneStatIsValid();
  }

  lemma ReadsAndClaims(s: State)
    ensures Empty(s, FillState(0, Done), ReadDependencies(0, 0, DAY)) ==> Moves(s, FillState(0, Done), Loop(0, DAY))
    ensures Empty(s, FillState(0, Done), Loop(0, DAY)) ==> Moves(s, FillState(DAY, Started), AggregateInstallation(DAY, DAY))
  {
    OneStatIsValid();
    hide ValidConfig;
  }

  lemma AggregatesAndFinishes(s: State)
    ensures Empty(s, FillState(DAY, Started), AggregateInstallation(DAY, DAY)) ==> Moves(s, FillState(DAY, Started), Finish(DAY, DAY))
    ensures Empty(s, FillState(DAY, Started), Finish(DAY, DAY)) ==> Moves(s, FillState(DAY, Done), Loop(DAY, DAY))
  {
    OneStatIsValid();
    NothingToAggregate(INVITES, DAY);
    hide ValidConfig;
    hide Slot;
    hide InstallationRows;
    hide Insert;
  }

  lemma FillTheDay() returns (run: seq<Action>, s: State)
    ensures ValidConfig(OneStat()) && Path(OneStat(), Init(), run, s)
    ensures Empty(s, FillState(DAY, Done), Loop(DAY, DAY))
  {
    hide ValidConfig;
    hide Path;
    hide Admissible;
    hide Step;
    hide Empty;
    OneStatIsValid();
    NoActions(OneStat());
    Begins();
    run, s := After(OneStat(), [], Init(), Call(INVITES, DAY));
    ReadsAndClaims(s);
    run, s := After(OneStat(), run, s, Advance(INVITES));
    ReadsAndClaims(s);
    run, s := After(OneStat(), run, s, Advance(INVITES));
    AggregatesAndFinishes(s);
    run, s := After(OneStat(), run, s, Advance(INVITES));
    AggregatesAndFinishes(s);
    run, s := After(OneStat(), run, s, Advance(INVITES));
  }

  lemma NoActions(cfg: Config)
    requires ValidConfig(cfg)
    ensures Path(cfg, Init(), [], Init())
  {}

  lemma After(cfg: Config, run: seq<Action>, s: State, a: Action) returns (run': seq<Action>, s': State)
    requires ValidConfig(cfg) && Path(cfg, Init(), run, s) && Admissible(cfg, s, a)
    ensures s' == Step(cfg, s, a) && Path(cfg, Init(), run', s')
  {
    PathAppend(cfg, Init(), run, s, a);
    run', s' := run + [a], Step(cfg, s, a);
  }

  /** The state is reachable, its day is covered, one increment has been sent, and InstallationCount
      has no row for it. */
  lemma IncrementCanBeMissed() returns (s: State)
    ensures Reachable(OneStat(), s) && Covered(OneStat(), s, INVITES, DAY)
    ensures ValueAt(s.tables.installation, Key(INVITES, DAY, 0, None)) == 0
    ensures Sum(Selected(s.sent, 0, INVITES, DAY, None, None)) == 1
  {
    var run, before := FillTheDay();
    var cfg, a := OneStat(), Increment(INVITES, 7, None, DAY, 1);
    run, s := After(cfg, run, before, a);
    assert Path(cfg, Init(), run, s);
    hide Path;
    hide ValidConfig;
    var none: map<int, int> := map[];
    assert s.sent == [Sent(Key(INVITES, DAY, 7, None), 1, true)];
    assert Selected(s.sent, 0, INVITES, DAY, None, None) == none[0 := 1];
    SumInsert(none, 0, 1);
    EmptySum();
  }
}
