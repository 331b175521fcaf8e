/** Every action keeps the invariant. */
module FillSteps {
  import opened Options
  import opened Sums
  import opened CountTables
  import opened Events
  import opened FillMachine
  import opened FillInvariant

  /* What each statement does to the slots. */

  /** `s'` differs from `s` in the rows of one table at one slot only. */
  ghost predicate OnlySlot(s: State, s': State, p: string, e0: Time, table0: TableId, rows: Rows) {
    forall q, e, table ::
      Slot(s'.tables.Get(table), q, e)
      == if q == p && e == e0 && table == table0 then rows else Slot(s.tables.Get(table), q, e)
  }

  lemma InsertOnlySlot(s: State, s': State, p: string, e0: Time, table0: TableId, rows: Rows)
    requires InSlot(rows, p, e0) && Slot(s.tables.Get(table0), p, e0) == NO_ROWS
    requires s'.tables == s.tables.Set(table0, s.tables.Get(table0) + rows)
    ensures OnlySlot(s, s', p, e0, table0, rows)
  {
    hide Slot;
    hide InSlot;
    forall q, e { SlotOfInsert(s.tables.Get(table0), rows, p, e0, q, e); }
  }

  lemma DeleteOnlySlot(s: State, s': State, p: string, e0: Time, table0: TableId)
    requires s'.tables == s.tables.Set(table0, DeleteAt(s.tables.Get(table0), p, e0))
    ensures OnlySlot(s, s', p, e0, table0, NO_ROWS)
  {
    hide Slot;
    hide DeleteAt;
    forall q, e { SlotOfDelete(s.tables.Get(table0), p, e0, q, e); }
  }

  /* Other stats' steps. */

  /** Nothing stat `q` can see has changed, except that other stats may have progressed. */
  ghost predicate Unaffected(cfg: Config, s: State, s': State, q: string) {
    && s'.RunnerOf(q) == s.RunnerOf(q)
    && (q in s.fill) == (q in s'.fill) && (q in s.fill ==> s'.fill[q] == s.fill[q])
    && (forall e, table :: Slot(s'.tables.Get(table), q, e) == Slot(s.tables.Get(table), q, e))
    && (forall e :: Cut(s', q, e) == Cut(s, q, e)) && CutInv(s', q)
    && (forall d, t | Capped(cfg, s, d, t) :: Capped(cfg, s', d, t))
    && s'.log == s.log && s'.sent == s.sent
  }

  /** A step that touches neither the source log nor the increments keeps other stats' invariants. */
  lemma FrameStat(cfg: Config, s: State, s': State, q: string)
    requires ValidConfig(cfg) && q in cfg.stats && ValidStat(cfg, q)
    requires StatInv(cfg, s, q) && Unaffected(cfg, s, s', q)
    ensures StatInv(cfg, s', q)
  {
    hide SlotOk;
    hide Slot;
    hide Logged;
    hide ExpectedBase;
    assert forall e :: PhaseAt(cfg, s', q, e) == PhaseAt(cfg, s, q, e);
    forall e, table ensures SlotInv(cfg, s', q, e, table) {
      assert SlotInv(cfg, s, q, e, table);
    }
    assert LateInv(cfg, s', q) by {
      hide PhaseAt;
      assert forall e :: Aggregated(cfg, s', q, e) == Aggregated(cfg, s, q, e);
    }
  }

  /* The stat's own steps. */

  /** Multiples of a step are at least one step apart. */
  lemma Multiples(step: Time, x: Time, y: Time)
    requires step == HOUR || step == DAY
    requires x % step == 0 && y % step == 0
    ensures (x + step) % step == 0 && (x - step) % step == 0
    ensures x < y ==> x + step <= y
  {
    if step == HOUR {} else {}
  }

  /** Grid points are at least one increment apart. */
  lemma GridGap(cfg: Config, stat: Stat, a: Time, b: Time)
    requires stat.increment == HOUR || stat.increment == DAY
    requires a == cfg.epoch || OnGrid(cfg, stat, a)
    ensures OnGrid(cfg, stat, a + stat.increment)
    ensures OnGrid(cfg, stat, b) && a < b ==> a + stat.increment <= b
    ensures OnGrid(cfg, stat, a) ==> a - stat.increment == cfg.epoch || OnGrid(cfg, stat, a - stat.increment)
    ensures OnGrid(cfg, stat, a) && OnGrid(cfg, stat, b) && b < a ==> b <= a - stat.increment
  {
    var step, x, y := stat.increment, a - cfg.epoch, b - cfg.epoch;
    Multiples(step, x, x);
    if OnGrid(cfg, stat, b) {
      Multiples(step, x, y);
      Multiples(step, y, x);
    }
  }

  /** An hourly grid contains the daily one. */
  lemma FinerGrid(cfg: Config, stat: Stat, finer: Stat, e: Time)
    requires stat.increment == HOUR || stat.increment == DAY
    requires finer.increment == HOUR || finer.increment == DAY
    requires stat.increment == HOUR ==> finer.increment == HOUR
    requires OnGrid(cfg, stat, e)
    ensures OnGrid(cfg, finer, e)
  {
    if stat.increment == DAY && finer.increment == HOUR {
      DaysAreHours(e - cfg.epoch);
    }
  }

  lemma DaysAreHours(t: Time)
    requires t % DAY == 0
    ensures t % HOUR == 0
  {}

  /** Phases change only at `t`, and only the rows of `table0` there. */
  ghost predicate OnlyAt(cfg: Config, s: State, s': State, p: string, t: Time, table0: TableId, rows: Rows)
    requires p in cfg.stats && cfg.stats[p].increment > 0
  {
    && s'.log == s.log && s'.sent == s.sent
    && OnlySlot(s, s', p, t, table0, rows)
    && (forall e | e != t :: PhaseAt(cfg, s', p, e) == PhaseAt(cfg, s, p, e) && Cut(s', p, e) == Cut(s, p, e))
  }

  /** A step of `p` at end time `t` has to be justified at `t` only. */
  lemma OwnStep(cfg: Config, s: State, s': State, p: string, t: Time, table0: TableId, rows: Rows)
    requires ValidConfig(cfg) && p in cfg.stats && ValidStat(cfg, p) && StatInv(cfg, s, p)
    requires OnlyAt(cfg, s, s', p, t, table0, rows)
    requires forall table :: SlotInv(cfg, s', p, t, table)
    requires Aggregated(cfg, s', p, t) ==> Cut(s', p, t) == |s.sent| || (Aggregated(cfg, s, p, t) && Cut(s', p, t) == Cut(s, p, t))
                                           || !cfg.stats[p].kind.Logging?
    requires FillInv(cfg, s', p) && RunnerInv(cfg, s', p) && CutInv(s', p)
    ensures StatInv(cfg, s', p)
  {
    hide SlotOk;
    hide Slot;
    hide Logged;
    hide ExpectedBase;
    hide PhaseAt;
    hide RunnerInv;
    hide FillInv;
    forall e, table ensures SlotInv(cfg, s', p, e, table) {
      assert SlotInv(cfg, s, p, e, table);
    }
    forall e, i | Cut(s', p, e) <= i < |s'.sent| && s'.sent[i].Hits(p, e) && Aggregated(cfg, s', p, e)
      ensures cfg.stats[p].kind.Logging? ==> s'.sent[i].late
    {
      if e != t {
        assert Aggregated(cfg, s, p, e);
      }
    }
  }

  /** The statement about to be executed is one of `p`'s, and the database is as it should be. */
  ghost predicate Ready(cfg: Config, s: State, p: string) {
    && ValidConfig(cfg) && p in cfg.stats && ValidStat(cfg, p) && StatInv(cfg, s, p)
    && (forall d | d in cfg.stats[p].Dependencies() :: d in cfg.stats)
  }

  /** A dependent stat is not its own dependency, so moving FillState of `p` keeps its caps. */
  lemma OwnCaps(cfg: Config, s: State, s': State, p: string)
    requires Ready(cfg, s, p)
    requires forall d | d != p && d in s.fill :: d in s'.fill && s'.fill[d] == s.fill[d]
    ensures forall d, t | d in cfg.stats[p].Dependencies() && Capped(cfg, s, d, t) :: Capped(cfg, s', d, t)
  {
    hide StatInv;
    hide GoodCollector;
    forall d | d in cfg.stats[p].Dependencies() ensures d != p {}
  }

  lemma UndoRunner(cfg: Config, s: State, p: string)
    requires Ready(cfg, s, p) && s.RunnerOf(p).Undo?
    ensures FillInv(cfg, Next(cfg, s, p), p) && RunnerInv(cfg, Next(cfg, s, p), p)
  {
    hide SlotInv;
    hide LateInv;
    hide GoodCollector;
    hide DeleteAt;
    GridGap(cfg, cfg.stats[p], s.fill[p].endTime, s.fill[p].endTime);
  }

  lemma ReadRunner(cfg: Config, s: State, p: string)
    requires Ready(cfg, s, p) && s.RunnerOf(p).ReadDependencies?
    ensures FillInv(cfg, Next(cfg, s, p), p) && RunnerInv(cfg, Next(cfg, s, p), p)
  {
    hide SlotInv;
    hide LateInv;
    hide GoodCollector;
    OwnCaps(cfg, s, Next(cfg, s, p), p);
  }

  lemma LoopRunner(cfg: Config, s: State, p: string)
    requires Ready(cfg, s, p) && s.RunnerOf(p).Loop?
    ensures FillInv(cfg, Next(cfg, s, p), p) && RunnerInv(cfg, Next(cfg, s, p), p)
  {
    hide OnGrid;
    hide CutInv;
    hide SlotInv;
    hide LateInv;
    hide GoodCollector;
    GridGap(cfg, cfg.stats[p], s.fill[p].endTime, s.fill[p].endTime);
    OwnCaps(cfg, s, Next(cfg, s, p), p);
  }

  lemma FinishRunner(cfg: Config, s: State, p: string)
    requires Ready(cfg, s, p) && s.RunnerOf(p).Finish?
    ensures FillInv(cfg, Next(cfg, s, p), p) && RunnerInv(cfg, Next(cfg, s, p), p)
  {
    hide SlotInv;
    hide LateInv;
    hide GoodCollector;
    OwnCaps(cfg, s, Next(cfg, s, p), p);
  }

  lemma UndoDeleteStep(cfg: Config, s: State, p: string)
    requires Ready(cfg, s, p)
    requires s.RunnerOf(p).Undo? && s.RunnerOf(p).deleted < |cfg.stats[p].DeletedTables()|
    ensures StatInv(cfg, Next(cfg, s, p), p)
  {
    hide Slot;
    hide DeleteAt;
    hide Logged;
    hide ExpectedBase;
    hide Content;
    var stat, s' := cfg.stats[p], Next(cfg, s, p);
    var i, t := s.RunnerOf(p).deleted, s.RunnerOf(p).target;
    var table0 := stat.DeletedTables()[i];
    DeleteOnlySlot(s, s', p, t, table0);
    UndoRunner(cfg, s, p);
    forall table ensures SlotInv(cfg, s', p, t, table) {
      assert SlotInv(cfg, s, p, t, table);
    }
    OwnStep(cfg, s, s', p, t, table0, NO_ROWS);
  }

  /** A statement that only moves FillState or the runner leaves every slot's rows as they are. */
  lemma FillOnlyStep(cfg: Config, s: State, p: string, t: Time)
    requires Ready(cfg, s, p)
    requires var r := s.RunnerOf(p); r.ReadDependencies? || r.Loop? || r.Finish? || (r.Undo? && r.deleted == |cfg.stats[p].DeletedTables()|)
    requires forall e | e != t :: PhaseAt(cfg, Next(cfg, s, p), p, e) == PhaseAt(cfg, s, p, e)
    requires forall table :: SlotInv(cfg, Next(cfg, s, p), p, t, table)
    requires Aggregated(cfg, Next(cfg, s, p), p, t) ==> Aggregated(cfg, s, p, t)
    ensures StatInv(cfg, Next(cfg, s, p), p)
  {
    hide Slot;
    hide SlotOk;
    hide Logged;
    hide ExpectedBase;
    hide PhaseAt;
    var s' := Next(cfg, s, p);
    assert FillInv(cfg, s', p) && RunnerInv(cfg, s', p) by {
      match s.RunnerOf(p)
      case Undo(_, _, _) => UndoRunner(cfg, s, p);
      case ReadDependencies(_, _, _) => ReadRunner(cfg, s, p);
      case Loop(_, _) => LoopRunner(cfg, s, p);
      case _ => FinishRunner(cfg, s, p);
    }
    OwnStep(cfg, s, s', p, t, UserCount, Slot(s.tables.user, p, t));
  }

  lemma UndoFinishStep(cfg: Config, s: State, p: string)
    requires Ready(cfg, s, p)
    requires s.RunnerOf(p).Undo? && s.RunnerOf(p).deleted == |cfg.stats[p].DeletedTables()|
    ensures StatInv(cfg, Next(cfg, s, p), p)
  {
    hide Slot;
    hide Logged;
    hide ExpectedBase;
    var stat, s', t := cfg.stats[p], Next(cfg, s, p), s.RunnerOf(p).target;
    forall e { GridGap(cfg, stat, t, e); }
    forall table ensures SlotInv(cfg, s', p, t, table) {
      assert SlotInv(cfg, s, p, t, table);
    }
    FillOnlyStep(cfg, s, p, t);
  }

  lemma ReadStep(cfg: Config, s: State, p: string)
    requires Ready(cfg, s, p) && s.RunnerOf(p).ReadDependencies?
    ensures StatInv(cfg, Next(cfg, s, p), p)
  {
    hide SlotOk;
    hide Slot;
    hide Logged;
    hide ExpectedBase;
    var t := s.RunnerOf(p).current;
    forall table ensures SlotInv(cfg, Next(cfg, s, p), p, t, table) {
      assert SlotInv(cfg, s, p, t, table);
    }
    FillOnlyStep(cfg, s, p, t);
  }

  /** Claiming an hour fills nothing yet. */
  lemma StartIsEmpty(stat: Stat, base: Rows, table: TableId, p: string, t: Time, fillTo: Time)
    requires stat.output != InstallationCount
    ensures var phase := StartedPhase(AfterStart(stat, t, fillTo));
            phase.Filled? && !(phase.level >= (if stat.DependsOnRealm() then REALM else COMPLETE))
            && ((stat.kind.Logging? && table == stat.output) || Content(stat, base, phase.level, table, p, t) == NO_ROWS)
  {}

  lemma LoopStep(cfg: Config, s: State, p: string)
    requires Ready(cfg, s, p) && s.RunnerOf(p).Loop?
    ensures StatInv(cfg, Next(cfg, s, p), p)
  {
    hide Slot;
    hide Logged;
    hide ExpectedBase;
    hide Content;
    hide StartedPhase;
    hide AfterStart;
    hide GoodCollector;
    var stat, s', current := cfg.stats[p], Next(cfg, s, p), s.RunnerOf(p).current;
    var t, fillTo := current + stat.increment, s.RunnerOf(p).fillTo;
    forall e { GridGap(cfg, stat, current, e); }
    if t > fillTo {
      assert forall e :: PhaseAt(cfg, s', p, e) == PhaseAt(cfg, s, p, e);
    }
    forall table ensures SlotInv(cfg, s', p, t, table) {
      assert SlotInv(cfg, s, p, t, table);
      StartIsEmpty(stat, Source(cfg, s, p, t), table, p, t, fillTo);
      assert Content(stat, Source(cfg, s, p, t), EMPTY, table, p, t) == NO_ROWS by { EmptyContent(stat, Source(cfg, s, p, t), table, p, t); }
    }
    StartIsEmpty(stat, NO_ROWS, UserCount, p, t, fillTo);
    FillOnlyStep(cfg, s, p, t);
  }

  lemma EmptyContent(stat: Stat, base: Rows, table: TableId, p: string, e: Time)
    ensures Content(stat, base, EMPTY, table, p, e) == NO_ROWS
  {}

  lemma FinishStep(cfg: Config, s: State, p: string)
    requires Ready(cfg, s, p) && s.RunnerOf(p).Finish?
    ensures StatInv(cfg, Next(cfg, s, p), p)
  {
    hide SlotOk;
    hide Slot;
    hide Logged;
    hide ExpectedBase;
    var t := s.RunnerOf(p).next;
    forall table ensures SlotInv(cfg, Next(cfg, s, p), p, t, table) {
      assert SlotInv(cfg, s, p, t, table);
    }
    FillOnlyStep(cfg, s, p, t);
  }

  /** Up to last_successful_fill every grid point is complete. */
  lemma CoveredIsComplete(cfg: Config, s: State, d: string, e: Time)
    requires d in cfg.stats && ValidStat(cfg, d) && FillInv(cfg, s, d)
    requires OnGrid(cfg, cfg.stats[d], e) && Capped(cfg, s, d, e)
    ensures PhaseAt(cfg, s, d, e) == Filled(COMPLETE)
  {}

  /** The rows a dependent stat reads are the complete, final rows of its dependency. */
  lemma InputIsComplete(cfg: Config, s: State, p: string)
    requires Ready(cfg, s, p) && s.RunnerOf(p).Pull?
    requires forall q | q in cfg.stats :: StatInv(cfg, s, q)
    ensures DependencyRows(cfg.stats[p], s.tables, s.RunnerOf(p).next)
         == ExpectedInput(cfg, cfg.stats[p], s.log, s.RunnerOf(p).next)
  {
    hide Slot;
    hide GoodCollector;
    hide OnGrid;
    var stat, e := cfg.stats[p], s.RunnerOf(p).next;
    if stat.kind.Dependent? {
      var d := stat.kind.source;
      FinerGrid(cfg, stat, cfg.stats[d], e);
      CoveredIsComplete(cfg, s, d, e);
      assert SlotInv(cfg, s, d, e, UserCount);
    }
  }

  /** An INSERT into an empty slot succeeds and fills exactly that slot. */
  lemma InsertSucceeds(s: State, s': State, p: string, e: Time, table: TableId, rows: Rows, after: Runner)
    requires InSlot(rows, p, e) && Slot(s.tables.Get(table), p, e) == NO_ROWS
    requires s' == InsertStep(s, p, table, rows, after)
    ensures OnlySlot(s, s', p, e, table, rows)
    ensures s' == s.(tables := s'.tables, runners := s.runners[p := after])
  {
    hide Slot;
    hide InSlot;
    InsertIntoSlot(s.tables.Get(table), rows, p, e);
    InsertOnlySlot(s, s', p, e, table, rows);
  }

  /** `s'` is `s` after the pull. */
  ghost predicate AfterPulling(cfg: Config, s: State, s': State, p: string)
    requires p in cfg.stats && s.RunnerOf(p).Pull?
  {
    var t := s.RunnerOf(p).next;
    && s' == s.(tables := s'.tables, runners := s.runners[p := AfterPull(cfg.stats[p], t, s.RunnerOf(p).fillTo)])
    && OnlySlot(s, s', p, t, cfg.stats[p].output, ExpectedBase(cfg, s.log, p, t))
  }

  lemma NextIsPull(cfg: Config, s: State, p: string)
    requires p in cfg.stats && s.RunnerOf(p).Pull? && forall d | d in cfg.stats[p].Dependencies() :: d in cfg.stats
    ensures var stat, r := cfg.stats[p], s.RunnerOf(p);
            var rows := cfg.collect(p, s.log, DependencyRows(stat, s.tables, r.next), r.next);
            Next(cfg, s, p) == InsertStep(s, p, stat.output, rows, AfterPull(stat, r.next, r.fillTo))
  {
    hide InsertStep;
    hide DependencyRows;
  }

  lemma PullInsert(cfg: Config, s: State, p: string)
    requires Ready(cfg, s, p) && s.RunnerOf(p).Pull?
    requires forall q | q in cfg.stats :: StatInv(cfg, s, q)
    ensures AfterPulling(cfg, s, Next(cfg, s, p), p)
  {
    hide Slot;
    hide Insert;
    hide InSlot;
    hide OnlySlot;
    hide LateInv;
    hide Next;
    hide InsertStep;
    NextIsPull(cfg, s, p);
    var stat, s', t := cfg.stats[p], Next(cfg, s, p), s.RunnerOf(p).next;
    InputIsComplete(cfg, s, p);
    assert SlotInv(cfg, s, p, t, stat.output);
    InsertSucceeds(s, s', p, t, stat.output, ExpectedBase(cfg, s.log, p, t), AfterPull(stat, t, s.RunnerOf(p).fillTo));
  }

  lemma PullSlots(cfg: Config, s: State, s': State, p: string, table: TableId)
    requires Ready(cfg, s, p) && s.RunnerOf(p).Pull? && AfterPulling(cfg, s, s', p)
    ensures SlotInv(cfg, s', p, s.RunnerOf(p).next, table)
  {
    hide Slot;
    hide Logged;
    hide ExpectedBase;
    hide RealmRows;
    hide InstallationRows;
    hide LateInv;
    hide GoodCollector;
    assert SlotInv(cfg, s, p, s.RunnerOf(p).next, table);
  }

  lemma PullStep(cfg: Config, s: State, p: string)
    requires Ready(cfg, s, p) && s.RunnerOf(p).Pull?
    requires forall q | q in cfg.stats :: StatInv(cfg, s, q)
    ensures StatInv(cfg, Next(cfg, s, p), p)
    ensures Next(cfg, s, p).integrityErrors == s.integrityErrors
  {
    hide Slot;
    hide SlotOk;
    hide Logged;
    hide ExpectedBase;
    hide Next;
    PullInsert(cfg, s, p);
    var s', t := Next(cfg, s, p), s.RunnerOf(p).next;
    forall table { PullSlots(cfg, s, s', p, table); }
    OwnStep(cfg, s, s', p, t, cfg.stats[p].output, ExpectedBase(cfg, s.log, p, t));
  }

  /** At a STARTED end time the output table already holds the base rows when aggregation starts. */
  lemma BaseRowsPresent(cfg: Config, s: State, p: string)
    requires Ready(cfg, s, p) && (s.RunnerOf(p).AggregateRealm? || s.RunnerOf(p).AggregateInstallation?)
    ensures var stat, t := cfg.stats[p], s.RunnerOf(p).next;
            Slot(s.tables.Get(stat.output), p, t)
            == if stat.kind.Logging? then Logged(cfg, stat.output, s.sent, p, t) else Source(cfg, s, p, t)
  {
    hide Slot;
    hide Logged;
    hide ExpectedBase;
    assert SlotInv(cfg, s, p, s.RunnerOf(p).next, cfg.stats[p].output);
  }

  /** The slots that the aggregation statements are about to fill are empty. */
  lemma NotYetAggregated(cfg: Config, s: State, p: string)
    requires Ready(cfg, s, p) && (s.RunnerOf(p).AggregateRealm? || s.RunnerOf(p).AggregateInstallation?)
    ensures s.RunnerOf(p).AggregateRealm? ==> Slot(s.tables.realm, p, s.RunnerOf(p).next) == NO_ROWS
    ensures Slot(s.tables.installation, p, s.RunnerOf(p).next) == NO_ROWS
  {
    hide Slot;
    hide Logged;
    hide ExpectedBase;
    hide RealmRows;
    hide InstallationRows;
    hide LateInv;
    hide GoodCollector;
    assert SlotInv(cfg, s, p, s.RunnerOf(p).next, RealmCount);
    assert SlotInv(cfg, s, p, s.RunnerOf(p).next, InstallationCount);
  }

  lemma NextIsAggregation(cfg: Config, s: State, p: string)
    requires p in cfg.stats && forall d | d in cfg.stats[p].Dependencies() :: d in cfg.stats
    ensures var r := s.RunnerOf(p);
            && (r.AggregateRealm? ==> Next(cfg, s, p) == RealmStatement(cfg.stats[p], s, p, r.next, r.fillTo))
            && (r.AggregateInstallation? ==> Next(cfg, s, p) == InstallationStatement(cfg.stats[p], s, p, r.next, r.fillTo))
  {
    hide RealmStatement;
    hide InstallationStatement;
  }

  /** What the RealmCount statement does: it fills the empty slot and marks the end time. */
  lemma RealmInsert(cfg: Config, s: State, p: string)
    requires Ready(cfg, s, p) && s.RunnerOf(p).AggregateRealm?
    ensures var stat, s', t := cfg.stats[p], Next(cfg, s, p), s.RunnerOf(p).next;
            var marked := MarkAggregated(s, stat, p, t);
            && OnlySlot(s, s', p, t, RealmCount, RealmRows(Slot(s.tables.Get(stat.output), p, t), p, t))
            && s' == marked.(tables := s'.tables, runners := s.runners[p := AggregateInstallation(t, s.RunnerOf(p).fillTo)])
  {
    hide Slot;
    hide Insert;
    hide InSlot;
    hide Logged;
    hide ExpectedBase;
    hide RealmRows;
    hide StatInv;
    hide GoodCollector;
    hide OnlySlot;
    hide Next;
    hide InsertStep;
    NextIsAggregation(cfg, s, p);
    var stat, s', t := cfg.stats[p], Next(cfg, s, p), s.RunnerOf(p).next;
    var base := Slot(s.tables.Get(stat.output), p, t);
    AggregatesInSlot(base, p, t);
    NotYetAggregated(cfg, s, p);
    var marked := MarkAggregated(s, stat, p, t);
    InsertSucceeds(marked, s', p, t, RealmCount, RealmRows(base, p, t), AggregateInstallation(t, s.RunnerOf(p).fillTo));
    SameSlots(s, marked, s', p, t, RealmCount, RealmRows(base, p, t));
  }

  lemma SameSlots(s: State, marked: State, s': State, p: string, e: Time, table: TableId, rows: Rows)
    requires marked.tables == s.tables && OnlySlot(marked, s', p, e, table, rows)
    ensures OnlySlot(s, s', p, e, table, rows)
  {}

  /** `s'` is `s` after the RealmCount statement. */
  ghost predicate AfterRealm(cfg: Config, s: State, s': State, p: string)
    requires p in cfg.stats && s.RunnerOf(p).AggregateRealm?
  {
    var t := s.RunnerOf(p).next;
    var marked := MarkAggregated(s, cfg.stats[p], p, t);
    s' == marked.(tables := s'.tables, runners := s.runners[p := AggregateInstallation(t, s.RunnerOf(p).fillTo)])
  }

  /** The slot moves from PULLED to REALM, and the rows present are its base rows. */
  lemma RealmPhases(cfg: Config, s: State, s': State, p: string)
    requires Ready(cfg, s, p) && s.RunnerOf(p).AggregateRealm? && AfterRealm(cfg, s, s', p)
    ensures var stat, t := cfg.stats[p], s.RunnerOf(p).next;
            && PhaseAt(cfg, s, p, t) == Filled(PULLED) && PhaseAt(cfg, s', p, t) == Filled(REALM)
            && s'.sent == s.sent && Source(cfg, s', p, t) == Slot(s.tables.Get(stat.output), p, t)
            && (!stat.kind.Logging? ==> Source(cfg, s, p, t) == Source(cfg, s', p, t))
  {
    hide Slot;
    hide Logged;
    hide ExpectedBase;
    hide SlotInv;
    hide LateInv;
    hide GoodCollector;
    BaseRowsPresent(cfg, s, p);
    assert s.sent[..|s.sent|] == s.sent;
  }

  lemma RealmSlots(cfg: Config, s: State, s': State, p: string, table: TableId)
    requires Ready(cfg, s, p) && s.RunnerOf(p).AggregateRealm? && AfterRealm(cfg, s, s', p)
    requires var t := s.RunnerOf(p).next;
             OnlySlot(s, s', p, t, RealmCount, RealmRows(Slot(s.tables.Get(cfg.stats[p].output), p, t), p, t))
    ensures SlotInv(cfg, s', p, s.RunnerOf(p).next, table)
  {
    hide Slot;
    hide Logged;
    hide ExpectedBase;
    hide RealmRows;
    hide InstallationRows;
    hide LateInv;
    hide PhaseAt;
    hide Source;
    hide GoodCollector;
    hide AfterRealm;
    RealmPhases(cfg, s, s', p);
    assert SlotInv(cfg, s, p, s.RunnerOf(p).next, table);
  }

  lemma AggregateRealmStep(cfg: Config, s: State, p: string)
    requires Ready(cfg, s, p) && s.RunnerOf(p).AggregateRealm?
    ensures StatInv(cfg, Next(cfg, s, p), p)
    ensures Next(cfg, s, p).integrityErrors == s.integrityErrors
  {
    hide Slot;
    hide SlotOk;
    hide Logged;
    hide ExpectedBase;
    hide RealmRows;
    RealmInsert(cfg, s, p);
    hide Next;
    var s', t := Next(cfg, s, p), s.RunnerOf(p).next;
    assert AfterRealm(cfg, s, s', p);
    forall table { RealmSlots(cfg, s, s', p, table); }
    OwnStep(cfg, s, s', p, t, RealmCount, RealmRows(Slot(s.tables.Get(cfg.stats[p].output), p, t), p, t));
  }

  /** What the InstallationCount statement does. */
  lemma InstallationInsert(cfg: Config, s: State, p: string)
    requires Ready(cfg, s, p) && s.RunnerOf(p).AggregateInstallation?
    ensures var stat, s', t := cfg.stats[p], Next(cfg, s, p), s.RunnerOf(p).next;
            var marked := if stat.DependsOnRealm() then s else MarkAggregated(s, stat, p, t);
            && OnlySlot(s, s', p, t, InstallationCount, InstallationRows(Slot(s.tables.realm, p, t), p, t))
            && s' == marked.(tables := s'.tables, runners := s.runners[p := Finish(t, s.RunnerOf(p).fillTo)])
  {
    hide Slot;
    hide Insert;
    hide InSlot;
    hide Logged;
    hide ExpectedBase;
    hide InstallationRows;
    hide StatInv;
    hide GoodCollector;
    hide OnlySlot;
    hide Next;
    hide InsertStep;
    NextIsAggregation(cfg, s, p);
    var stat, s', t := cfg.stats[p], Next(cfg, s, p), s.RunnerOf(p).next;
    var realm := Slot(s.tables.realm, p, t);
    AggregatesInSlot(realm, p, t);
    NotYetAggregated(cfg, s, p);
    var marked := if stat.DependsOnRealm() then s else MarkAggregated(s, stat, p, t);
    InsertSucceeds(marked, s', p, t, InstallationCount, InstallationRows(realm, p, t), Finish(t, s.RunnerOf(p).fillTo));
    SameSlots(s, marked, s', p, t, InstallationCount, InstallationRows(realm, p, t));
  }

  /** `s'` is `s` after the InstallationCount statement, with `marked` before the insert. */
  ghost predicate AfterInstallation(cfg: Config, s: State, s': State, p: string)
    requires p in cfg.stats && s.RunnerOf(p).AggregateInstallation?
  {
    var stat, t := cfg.stats[p], s.RunnerOf(p).next;
    var marked := if stat.DependsOnRealm() then s else MarkAggregated(s, stat, p, t);
    s' == marked.(tables := s'.tables, runners := s.runners[p := Finish(t, s.RunnerOf(p).fillTo)])
  }

  /** The slot moves from REALM to COMPLETE, over the same base rows. */
  lemma InstallationPhases(cfg: Config, s: State, s': State, p: string)
    requires Ready(cfg, s, p) && s.RunnerOf(p).AggregateInstallation? && AfterInstallation(cfg, s, s', p)
    ensures var stat, t := cfg.stats[p], s.RunnerOf(p).next;
            && PhaseAt(cfg, s, p, t) == Filled(REALM) && PhaseAt(cfg, s', p, t) == Filled(COMPLETE)
            && s'.sent == s.sent
            && Source(cfg, s', p, t)
               == if stat.DependsOnRealm() then Source(cfg, s, p, t) else Slot(s.tables.Get(stat.output), p, t)
  {
    hide Slot;
    hide Logged;
    hide ExpectedBase;
    hide SlotInv;
    hide LateInv;
    hide GoodCollector;
    BaseRowsPresent(cfg, s, p);
    assert s.sent[..|s.sent|] == s.sent;
  }

  /** The rows it aggregates are those of the stat's base rows. */
  lemma InstallationSlots(cfg: Config, s: State, s': State, p: string, table: TableId)
    requires Ready(cfg, s, p) && s.RunnerOf(p).AggregateInstallation? && AfterInstallation(cfg, s, s', p)
    requires var t := s.RunnerOf(p).next;
             OnlySlot(s, s', p, t, InstallationCount, InstallationRows(Slot(s.tables.realm, p, t), p, t))
    ensures SlotInv(cfg, s', p, s.RunnerOf(p).next, table)
  {
    hide Slot;
    hide Logged;
    hide ExpectedBase;
    hide RealmRows;
    hide InstallationRows;
    hide LateInv;
    hide RunnerInv;
    hide PhaseAt;
    hide Source;
    hide GoodCollector;
    hide AfterInstallation;
    var t := s.RunnerOf(p).next;
    InstallationPhases(cfg, s, s', p);
    assert SlotInv(cfg, s, p, t, RealmCount) && SlotInv(cfg, s, p, t, table);
  }

  lemma AggregateInstallationStep(cfg: Config, s: State, p: string)
    requires Ready(cfg, s, p) && s.RunnerOf(p).AggregateInstallation?
    ensures StatInv(cfg, Next(cfg, s, p), p)
    ensures Next(cfg, s, p).integrityErrors == s.integrityErrors
  {
    hide Slot;
    hide SlotOk;
    hide Logged;
    hide ExpectedBase;
    hide RealmRows;
    hide InstallationRows;
    InstallationInsert(cfg, s, p);
    hide Next;
    var s', t := Next(cfg, s, p), s.RunnerOf(p).next;
    assert AfterInstallation(cfg, s, s', p);
    forall table { InstallationSlots(cfg, s, s', p, table); }
    OwnStep(cfg, s, s', p, t, InstallationCount, InstallationRows(Slot(s.tables.realm, p, t), p, t));
  }

  /** Every statement of `p`'s runner keeps `p`'s invariant and raises no IntegrityError. */
  lemma NextKeepsOwn(cfg: Config, s: State, p: string)
    requires Ready(cfg, s, p) && (forall q | q in cfg.stats :: StatInv(cfg, s, q))
    ensures StatInv(cfg, Next(cfg, s, p), p)
    ensures Next(cfg, s, p).integrityErrors == s.integrityErrors
  {
    hide SlotInv;
    hide LateInv;
    hide InsertStep;
    match s.RunnerOf(p)
    case Idle =>
    case Undo(i, _, _) =>
      if i < |cfg.stats[p].DeletedTables()| { UndoDeleteStep(cfg, s, p); } else { UndoFinishStep(cfg, s, p); }
    case ReadDependencies(_, _, _) => ReadStep(cfg, s, p);
    case Loop(_, _) => LoopStep(cfg, s, p);
    case Pull(_, _) => PullStep(cfg, s, p);
    case AggregateRealm(_, _) => AggregateRealmStep(cfg, s, p);
    case AggregateInstallation(_, _) => AggregateInstallationStep(cfg, s, p);
    case Finish(_, _) => FinishStep(cfg, s, p);
  }

  /** Only rows of property `p` may differ. */
  ghost predicate RowsLocal(before: Tables, after: Tables, p: string) {
    forall q, e, table | q != p :: Slot(after.Get(table), q, e) == Slot(before.Get(table), q, e)
  }

  /** Only the history of `p` may differ. */
  ghost predicate CutsLocal(s: State, s': State, p: string) {
    && (forall q, e | q != p :: Cut(s', q, e) == Cut(s, q, e))
    && (forall q | q != p && CutInv(s, q) :: CutInv(s', q))
  }

  /** Only FillState, runner and history of `p`, and rows of property `p`, may differ. */
  ghost predicate Local(s: State, s': State, p: string) {
    && s'.log == s.log && s'.sent == s.sent
    && (forall q | q != p ::
          s'.RunnerOf(q) == s.RunnerOf(q) && (q in s.fill) == (q in s'.fill) && (q in s.fill ==> s'.fill[q] == s.fill[q]))
    && CutsLocal(s, s', p) && RowsLocal(s.tables, s'.tables, p)
  }

  lemma SameRowsLocal(tables: Tables, p: string)
    ensures RowsLocal(tables, tables, p)
  {}

  lemma SameCutsLocal(s: State, s': State, p: string)
    requires s'.cuts == s.cuts && s'.sent == s.sent
    ensures CutsLocal(s, s', p)
  {}

  /** A statement that writes no rows and marks nothing. */
  lemma FillOnlyIsLocal(s: State, s': State, p: string)
    requires s' == s.(fill := s'.fill, runners := s'.runners)
    requires s'.fill == s.fill || (p in s'.fill && s'.fill == s.fill[p := s'.fill[p]])
    requires p in s'.runners && s'.runners == s.runners[p := s'.runners[p]]
    ensures Local(s, s', p)
  {
    SameRowsLocal(s.tables, p);
    SameCutsLocal(s, s', p);
    hide RowsLocal;
    hide CutsLocal;
  }

  /** A statement that writes rows of `p` to one table. */
  lemma TableIsLocal(s: State, s': State, p: string)
    requires s' == s.(tables := s'.tables, runners := s'.runners, integrityErrors := s'.integrityErrors)
    requires p in s'.runners && s'.runners == s.runners[p := s'.runners[p]] && RowsLocal(s.tables, s'.tables, p)
    ensures Local(s, s', p)
  {
    SameCutsLocal(s, s', p);
    hide RowsLocal;
    hide CutsLocal;
  }

  lemma DeletedRowsLocal(tables: Tables, table0: TableId, p: string, target: Time)
    ensures RowsLocal(tables, tables.Set(table0, DeleteAt(tables.Get(table0), p, target)), p)
  {
    hide Slot;
    hide DeleteAt;
    forall q, e { SlotOfDelete(tables.Get(table0), p, target, q, e); }
  }

  lemma UndoIsLocal(stat: Stat, s: State, p: string, i: nat, target: Time, fillTo: Time)
    ensures Local(s, UndoStatement(stat, s, p, i, target, fillTo), p)
  {
    hide Local;
    hide RowsLocal;
    hide DeleteAt;
    var s' := UndoStatement(stat, s, p, i, target, fillTo);
    if i < |stat.DeletedTables()| {
      DeletedRowsLocal(s.tables, stat.DeletedTables()[i], p, target);
      TableIsLocal(s, s', p);
    } else {
      FillOnlyIsLocal(s, s', p);
    }
  }

  lemma InsertedRowsLocal(tables: Tables, p: string, e0: Time, table0: TableId, rows: Rows)
    requires InSlot(rows, p, e0)
    ensures RowsLocal(tables, tables.Set(table0, tables.Get(table0) + rows), p)
  {
    hide Slot;
    hide InSlot;
    forall q, e | q != p { SlotOfOtherInsert(tables.Get(table0), rows, p, e0, q, e); }
  }

  lemma InsertIsLocal(s: State, p: string, e0: Time, table0: TableId, rows: Rows, after: Runner)
    requires InSlot(rows, p, e0)
    ensures Local(s, InsertStep(s, p, table0, rows, after), p)
  {
    InsertedRowsLocal(s.tables, p, e0, table0, rows);
    SameRowsLocal(s.tables, p);
    hide Local;
    hide RowsLocal;
    hide InSlot;
    TableIsLocal(s, InsertStep(s, p, table0, rows, after), p);
  }

  lemma MarkedCutsLocal(s: State, s': State, stat: Stat, p: string, e: Time)
    requires CutsLocal(MarkAggregated(s, stat, p, e), s', p) && s'.sent == s.sent
    ensures CutsLocal(s, s', p)
  {}

  lemma MarkIsLocal(s: State, s': State, stat: Stat, p: string, e: Time)
    requires Local(MarkAggregated(s, stat, p, e), s', p)
    ensures Local(s, s', p)
  {
    hide RowsLocal;
    MarkedCutsLocal(s, s', stat, p, e);
    hide CutsLocal;
  }

  lemma AggregationIsLocal(cfg: Config, s: State, p: string)
    requires p in cfg.stats && (s.RunnerOf(p).AggregateRealm? || s.RunnerOf(p).AggregateInstallation?)
    requires forall d | d in cfg.stats[p].Dependencies() :: d in cfg.stats
    ensures Local(s, Next(cfg, s, p), p)
  {
    hide Local;
    hide InSlot;
    hide Slot;
    hide InsertStep;
    hide RealmRows;
    hide InstallationRows;
    hide MarkAggregated;
    var stat, r := cfg.stats[p], s.RunnerOf(p);
    var next, fillTo := r.next, r.fillTo;
    if r.AggregateRealm? {
      var base, marked := Slot(s.tables.Get(stat.output), p, next), MarkAggregated(s, stat, p, next);
      AggregatesInSlot(base, p, next);
      InsertIsLocal(marked, p, next, RealmCount, RealmRows(base, p, next), AggregateInstallation(next, fillTo));
      MarkIsLocal(s, Next(cfg, s, p), stat, p, next);
    } else {
      var realm := Slot(s.tables.realm, p, next);
      var marked := if stat.DependsOnRealm() then s else MarkAggregated(s, stat, p, next);
      AggregatesInSlot(realm, p, next);
      InsertIsLocal(marked, p, next, InstallationCount, InstallationRows(realm, p, next), Finish(next, fillTo));
      if !stat.DependsOnRealm() { MarkIsLocal(s, Next(cfg, s, p), stat, p, next); }
    }
  }

  lemma PullIsLocal(cfg: Config, s: State, p: string)
    requires p in cfg.stats && GoodCollector(cfg.collect) && s.RunnerOf(p).Pull?
    requires forall d | d in cfg.stats[p].Dependencies() :: d in cfg.stats
    ensures Local(s, Next(cfg, s, p), p)
  {
    hide Local;
    hide InSlot;
    hide InsertStep;
    hide DependencyRows;
    var stat, r := cfg.stats[p], s.RunnerOf(p);
    var rows := cfg.collect(p, s.log, DependencyRows(stat, s.tables, r.next), r.next);
    InsertIsLocal(s, p, r.next, stat.output, rows, AfterPull(stat, r.next, r.fillTo));
  }

  /** The statements that write FillState or nothing. */
  lemma OtherIsLocal(cfg: Config, s: State, p: string)
    requires p in cfg.stats && forall d | d in cfg.stats[p].Dependencies() :: d in cfg.stats
    requires var r := s.RunnerOf(p); r.Idle? || r.ReadDependencies? || r.Loop? || r.Finish?
    ensures Local(s, Next(cfg, s, p), p)
  {
    hide LastSuccessfulFill;
    hide RowsLocal;
    hide CutsLocal;
    SameRowsLocal(s.tables, p);
    SameCutsLocal(s, Next(cfg, s, p), p);
  }

  lemma NextIsLocal(cfg: Config, s: State, p: string)
    requires Ready(cfg, s, p)
    ensures Local(s, Next(cfg, s, p), p)
  {
    hide StatInv;
    hide ValidStat;
    hide GoodCollector;
    hide Local;
    hide InsertStep;
    hide UndoStatement;
    hide RealmStatement;
    hide InstallationStatement;
    match s.RunnerOf(p)
    case Undo(i, target, fillTo) => UndoIsLocal(cfg.stats[p], s, p, i, target, fillTo);
    case Pull(_, _) => PullIsLocal(cfg, s, p);
    case AggregateRealm(_, _) => AggregationIsLocal(cfg, s, p);
    case AggregateInstallation(_, _) => AggregationIsLocal(cfg, s, p);
    case _ => OtherIsLocal(cfg, s, p);
  }

  /** The three statements that save FillState. */
  lemma NextFill(cfg: Config, s: State, p: string)
    requires p in cfg.stats && forall d | d in cfg.stats[p].Dependencies() :: d in cfg.stats
    ensures var stat, r := cfg.stats[p], s.RunnerOf(p);
            Next(cfg, s, p).fill
            == if r.Undo? && r.deleted >= |stat.DeletedTables()| then s.fill[p := FillState(r.target - stat.increment, Done)]
               else if r.Loop? && r.current + stat.increment <= r.fillTo then
                 s.fill[p := FillState(r.current + stat.increment, Started)]
               else if r.Finish? then s.fill[p := FillState(r.next, Done)]
               else s.fill
  {
    hide Insert;
    hide Slot;
    hide DeleteAt;
    hide RealmRows;
    hide InstallationRows;
  }

  /** last_successful_fill of `p` does not decrease. */
  lemma NextOwnProgress(cfg: Config, s: State, p: string, t: Time)
    requires Ready(cfg, s, p) && Capped(cfg, s, p, t)
    ensures Capped(cfg, Next(cfg, s, p), p, t)
  {
    hide OnGrid;
    hide CutInv;
    hide GoodCollector;
    hide SlotInv;
    hide LateInv;
    hide Next;
    NextFill(cfg, s, p);
  }

  lemma NextProgress(cfg: Config, s: State, p: string, d: string, t: Time)
    requires Ready(cfg, s, p) && Capped(cfg, s, d, t)
    ensures Capped(cfg, Next(cfg, s, p), d, t)
  {
    hide StatInv;
    hide Next;
    hide Slot;
    hide Cut;
    if d == p {
      NextOwnProgress(cfg, s, p, t);
    } else {
      NextIsLocal(cfg, s, p);
    }
  }

  lemma NextKeepsOther(cfg: Config, s: State, p: string, q: string)
    requires Ready(cfg, s, p) && q in cfg.stats && ValidStat(cfg, q) && StatInv(cfg, s, q) && p != q
    ensures StatInv(cfg, Next(cfg, s, p), q)
  {
    assert CutInv(s, q);
    hide Slot;
    hide StatInv;
    hide Capped;
    hide Next;
    hide Cut;
    NextIsLocal(cfg, s, p);
    forall d, t | Capped(cfg, s, d, t) { NextProgress(cfg, s, p, d, t); }
    FrameStat(cfg, s, Next(cfg, s, p), q);
  }
}
