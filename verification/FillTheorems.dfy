/** What holds after every run of the fill machine, however often it was cut off. */
module FillTheorems {
  import opened Options
  import opened Sums
  import opened CountTables
  import opened Events
  import opened FillMachine
  import opened FillInvariant
  import opened FillSteps
  import opened FillActions

  /** Some run leads from the empty database to `s`. */
  ghost predicate Reachable(cfg: Config, s: State) {
    ValidConfig(cfg) && exists run :: Path(cfg, Init(), run, s)
  }

  lemma ReachableInv(cfg: Config, s: State)
    requires Reachable(cfg, s)
    ensures ValidConfig(cfg) && Inv(cfg, s)
  {
    hide ValidConfig;
    hide Inv;
    hide Path;
    var run :| Path(cfg, Init(), run, s);
    InitHoldsInv(cfg);
    PathKeepsInv(cfg, Init(), run, s);
  }

  /** No INSERT of any run violates a unique constraint: every re-aggregation finds its own
      earlier output deleted. */
  lemma NoIntegrityError(cfg: Config, s: State)
    requires Reachable(cfg, s)
    ensures s.integrityErrors == 0
  {
    ReachableInv(cfg, s);
  }

  /** The four tables hold, at slot (p, e), the collected rows and their aggregates, each once. */
  ghost predicate HoldsFill(cfg: Config, s: State, p: string, e: Time)
    requires p in cfg.stats
  {
    var stat, base := cfg.stats[p], ExpectedBase(cfg, s.log, p, e);
    var realm := if stat.DependsOnRealm() then RealmRows(base, p, e) else base;
    && Slot(s.tables.Get(stat.output), p, e) == base
    && Slot(s.tables.realm, p, e) == realm
    && Slot(s.tables.installation, p, e) == InstallationRows(realm, p, e)
    && (forall table | table != stat.output && table != RealmCount && table != InstallationCount ::
          Slot(s.tables.Get(table), p, e) == NO_ROWS)
  }

  ghost predicate HoldsNothing(s: State, p: string, e: Time) {
    forall table :: Slot(s.tables.Get(table), p, e) == NO_ROWS
  }

  lemma PhaseDecidesRows(cfg: Config, s: State, p: string, e: Time)
    requires ValidConfig(cfg) && Inv(cfg, s) && p in cfg.stats && !cfg.stats[p].kind.Logging?
    ensures cfg.stats[p].increment > 0
    ensures PhaseAt(cfg, s, p, e) == Filled(COMPLETE) ==> HoldsFill(cfg, s, p, e)
    ensures PhaseAt(cfg, s, p, e) == Filled(EMPTY) ==> HoldsNothing(s, p, e)
  {
    hide Slot;
    hide GoodCollector;
    hide PhaseAt;
    hide RealmRows;
    hide InstallationRows;
    assert ValidStat(cfg, p);
    var stat, base := cfg.stats[p], ExpectedBase(cfg, s.log, p, e);
    forall table
      ensures PhaseAt(cfg, s, p, e) == Filled(COMPLETE) ==>
                Slot(s.tables.Get(table), p, e) == Content(stat, base, COMPLETE, table, p, e)
      ensures PhaseAt(cfg, s, p, e) == Filled(EMPTY) ==> Slot(s.tables.Get(table), p, e) == NO_ROWS
    {
      assert SlotInv(cfg, s, p, e, table);
      EmptyContent(stat, base, table, p, e);
    }
    assert s.tables.realm == s.tables.Get(RealmCount) && s.tables.installation == s.tables.Get(InstallationCount);
  }

  /** Crash-safe exactly-once fill. After any run, whenever FillState is (t, DONE), the tables
      hold for each grid point up to t exactly the rows of the source log, and nothing else. */
  lemma ExactlyOnceFill(cfg: Config, s: State, p: string, t: Time, e: Time)
    requires Reachable(cfg, s) && p in cfg.stats && !cfg.stats[p].kind.Logging?
    requires p in s.fill && s.fill[p] == FillState(t, Done)
    ensures cfg.stats[p].increment > 0
    ensures if OnGrid(cfg, cfg.stats[p], e) && e <= t then HoldsFill(cfg, s, p, e) else HoldsNothing(s, p, e)
  {
    hide HoldsFill;
    hide HoldsNothing;
    ReachableInv(cfg, s);
    PhaseDecidesRows(cfg, s, p, e);
  }

  /** So interruptions leave no trace: any two runs, crashed and restarted at whatever points,
      that end DONE at the same time over the same source log hold the same rows. */
  lemma InterruptionsLeaveNoTrace(cfg: Config, s: State, s': State, p: string, e: Time, table: TableId)
    requires Reachable(cfg, s) && Reachable(cfg, s') && p in cfg.stats && !cfg.stats[p].kind.Logging?
    requires p in s.fill && p in s'.fill && s.fill[p] == s'.fill[p] && s.fill[p].status == Done && s.log == s'.log
    ensures Slot(s.tables.Get(table), p, e) == Slot(s'.tables.Get(table), p, e)
  {
    hide Slot;
    hide Reachable;
    hide ValidConfig;
    hide RealmRows;
    hide InstallationRows;
    ExactlyOnceFill(cfg, s, p, s.fill[p].endTime, e);
    ExactlyOnceFill(cfg, s', p, s.fill[p].endTime, e);
  }

  /* Dependencies. */

  /** last_successful_fill never decreases, over any further run. */
  lemma {:induction false} ProgressIsMonotone(cfg: Config, s: State, run: seq<Action>, end: State, d: string, t: Time)
    requires ValidConfig(cfg) && Inv(cfg, s) && Path(cfg, s, run, end) && Capped(cfg, s, d, t)
    ensures Capped(cfg, end, d, t)
    decreases |run|
  {
    hide StatInv;
    hide GoodCollector;
    hide Capped;
    if run != [] {
      StepKeepsInv(cfg, s, run[0]);
      StepProgress(cfg, s, run[0], d, t);
      ProgressIsMonotone(cfg, Step(cfg, s, run[0]), run[1..], end, d, t);
    }
  }

  lemma StepProgress(cfg: Config, s: State, a: Action, d: string, t: Time)
    requires ValidConfig(cfg) && Inv(cfg, s) && Admissible(cfg, s, a) && Capped(cfg, s, d, t)
    ensures Capped(cfg, Step(cfg, s, a), d, t)
  {
    hide StatInv;
    hide GoodCollector;
    hide Next;
    if a.Advance? {
      assert ValidStat(cfg, a.p);
      NextProgress(cfg, s, a.p, d, t);
    }
  }

  /** Rows up to last_successful_fill are complete, and no later undo, fill, crash or source
      event ever changes them. */
  lemma CompleteRowsAreFinal(cfg: Config, s: State, run: seq<Action>, end: State, d: string, e: Time, table: TableId)
    requires ValidConfig(cfg) && Inv(cfg, s) && Path(cfg, s, run, end)
    requires d in cfg.stats && !cfg.stats[d].kind.Logging? && cfg.stats[d].increment > 0
    requires OnGrid(cfg, cfg.stats[d], e) && Capped(cfg, s, d, e)
    ensures HoldsFill(cfg, s, d, e) && HoldsFill(cfg, end, d, e)
    ensures Slot(end.tables.Get(table), d, e) == Slot(s.tables.Get(table), d, e)
  {
    hide StatInv;
    hide Path;
    hide GoodCollector;
    hide Slot;
    hide ExpectedBase;
    hide RealmRows;
    hide InstallationRows;
    PathKeepsInv(cfg, s, run, end);
    ProgressIsMonotone(cfg, s, run, end, d, e);
    CompleteNow(cfg, s, d, e);
    CompleteNow(cfg, end, d, e);
    ExpectedIsFinal(cfg, s, run, end, d, e);
  }

  lemma CompleteNow(cfg: Config, s: State, d: string, e: Time)
    requires ValidConfig(cfg) && Inv(cfg, s)
    requires d in cfg.stats && !cfg.stats[d].kind.Logging? && cfg.stats[d].increment > 0
    requires OnGrid(cfg, cfg.stats[d], e) && Capped(cfg, s, d, e)
    ensures HoldsFill(cfg, s, d, e)
  {
    hide HoldsFill;
    hide SlotInv;
    hide LateInv;
    hide GoodCollector;
    assert ValidStat(cfg, d);
    CoveredIsComplete(cfg, s, d, e);
    PhaseDecidesRows(cfg, s, d, e);
  }

  /** No event arrives in a window whose rows are complete. */
  lemma {:induction false} ExpectedIsFinal(cfg: Config, s: State, run: seq<Action>, end: State, d: string, e: Time)
    requires ValidConfig(cfg) && Inv(cfg, s) && Path(cfg, s, run, end)
    requires d in cfg.stats && !cfg.stats[d].kind.Logging? && Capped(cfg, s, d, e)
    ensures ExpectedBase(cfg, end.log, d, e) == ExpectedBase(cfg, s.log, d, e)
    decreases |run|
  {
    hide StatInv;
    hide Capped;
    hide GoodCollector;
    hide ExpectedBase;
    if run != [] {
      var next := Step(cfg, s, run[0]);
      StepKeepsInv(cfg, s, run[0]);
      StepProgress(cfg, s, run[0], d, e);
      StepExpected(cfg, s, run[0], d, e);
      ExpectedIsFinal(cfg, next, run[1..], end, d, e);
    }
  }

  lemma StepExpected(cfg: Config, s: State, a: Action, d: string, e: Time)
    requires ValidConfig(cfg) && Inv(cfg, s) && Admissible(cfg, s, a)
    requires d in cfg.stats && !cfg.stats[d].kind.Logging? && Capped(cfg, s, d, e)
    ensures ExpectedBase(cfg, Step(cfg, s, a).log, d, e) == ExpectedBase(cfg, s.log, d, e)
  {
    hide StatInv;
    hide Next;
    assert ValidStat(cfg, d);
    if a.Advance? {
      assert ValidStat(cfg, a.p);
      NextIsLocal(cfg, s, a.p);
    }
  }

  /** Before its pull, a dependent stat has been capped by its dependency. */
  lemma PullIsCapped(cfg: Config, s: State, p: string)
    requires ValidConfig(cfg) && Inv(cfg, s) && p in cfg.stats
    requires cfg.stats[p].kind.Dependent? && s.RunnerOf(p).Pull?
    ensures var e, d := s.RunnerOf(p).next, cfg.stats[p].kind.source;
            && d in cfg.stats && !cfg.stats[d].kind.Logging? && cfg.stats[d].increment > 0
            && cfg.stats[d].output == UserCount && OnGrid(cfg, cfg.stats[d], e) && Capped(cfg, s, d, e)
  {
    hide GoodCollector;
    hide SlotInv;
    hide LateInv;
    assert ValidStat(cfg, p);
    assert ValidStat(cfg, cfg.stats[p].kind.source);
  }

  /** Dependency safety: when a dependent stat's query runs at `e`, after any interleaving, the
      rows it reads are the complete rows of its dependency, and stay so in every continuation. */
  lemma DependentReadsFinalRows(cfg: Config, s: State, p: string, run: seq<Action>, end: State)
    requires Reachable(cfg, s) && p in cfg.stats && cfg.stats[p].kind.Dependent? && s.RunnerOf(p).Pull?
    requires Path(cfg, s, run, end)
    ensures var e, d := s.RunnerOf(p).next, cfg.stats[p].kind.source;
            && d in cfg.stats && Slot(s.tables.user, d, e) == ExpectedBase(cfg, s.log, d, e)
            && Slot(end.tables.user, d, e) == Slot(s.tables.user, d, e)
  {
    hide Inv;
    hide ValidConfig;
    hide Capped;
    hide OnGrid;
    hide Path;
    hide Slot;
    hide ExpectedBase;
    hide RealmRows;
    hide InstallationRows;
    ReachableInv(cfg, s);
    PullIsCapped(cfg, s, p);
    CompleteRowsAreFinal(cfg, s, run, end, cfg.stats[p].kind.source, s.RunnerOf(p).next, UserCount);
  }
}
