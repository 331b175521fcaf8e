/** process_count_stat and the functions it calls, as the imperative code they are, on the
    database they write. Each commit is one step of the fill machine; a process may be killed
    before any of them. */
module FillRunner {
  import opened Options
  import opened Sums
  import opened CountTables
  import opened Events
  import opened FillMachine
  import opened FillInvariant
  import opened FillSteps
  import opened FillActions
  import opened FillTheorems

  datatype Outcome = Completed | Killed | BadFillTime

  /** `n` statements of the runner of `p`. */
  function Advances(p: string, n: nat): (r: seq<Action>)
    ensures |r| == n
  {
    if n == 0 then [] else Advances(p, n - 1) + [Advance(p)]
  }

  lemma KnownDependencies(cfg: Config, p: string)
    requires ValidConfig(cfg) && p in cfg.stats
    ensures forall d | d in cfg.stats[p].Dependencies() :: d in cfg.stats
  {
    assert ValidStat(cfg, p);
  }

  lemma KnownStat(cfg: Config, p: string)
    requires ValidConfig(cfg) && p in cfg.stats
    ensures ValidStat(cfg, p)
  {}

  lemma OwnDependencies(cfg: Config, p: string)
    requires ValidConfig(cfg) && p in cfg.stats
    ensures forall d | d in cfg.stats[p].Dependencies() :: d != p
  {
    assert ValidStat(cfg, p);
  }

  lemma StatementIsLocal(cfg: Config, s: State, p: string)
    requires ValidConfig(cfg) && Inv(cfg, s) && p in cfg.stats
    ensures forall d | d in cfg.stats[p].Dependencies() :: d in cfg.stats
    ensures Local(s, Next(cfg, s, p), p)
  {
    hide StatInv;
    hide GoodCollector;
    hide Local;
    assert ValidStat(cfg, p);
    NextIsLocal(cfg, s, p);
  }

  /** `s'` is `s` after `rows` went into `table` and the runner moved on to `after`. */
  predicate Inserted(s: State, s': State, p: string, table: TableId, rows: Rows, after: Runner) {
    && Insert(s.tables.Get(table), rows).Some?
    && s'.tables == s.tables.Set(table, Insert(s.tables.Get(table), rows).value)
    && s'.fill == s.fill && s'.log == s.log && s'.RunnerOf(p) == after
  }

  /** `s'` is `s` after FillState of `p` was saved and the runner moved on to `after`. */
  predicate Saved(s: State, s': State, p: string, endTime: Time, status: Status, after: Runner) {
    && s'.fill == s.fill[p := FillState(endTime, status)] && s'.tables == s.tables && s'.log == s.log
    && s'.RunnerOf(p) == after
  }

  /** The three saves of FillState are the ones the machine makes. */
  lemma SavesOfMachine(cfg: Config, s: State, p: string)
    requires p in cfg.stats && forall d | d in cfg.stats[p].Dependencies() :: d in cfg.stats
    ensures var stat, r, s' := cfg.stats[p], s.RunnerOf(p), Next(cfg, s, p);
            && (r.Undo? && r.deleted >= |stat.DeletedTables()| ==>
                  var t := r.target - stat.increment; Saved(s, s', p, t, Done, ReadDependencies(0, t, r.fillTo)))
            && (r.Loop? && r.current + stat.increment <= r.fillTo ==>
                  var t := r.current + stat.increment; Saved(s, s', p, t, Started, AfterStart(stat, t, r.fillTo)))
            && (r.Finish? ==> Saved(s, s', p, r.next, Done, Loop(r.next, r.fillTo)))
  {}

  /* No INSERT of a runner is refused by a unique constraint. */

  lemma PullIsAccepted(cfg: Config, s: State, p: string)
    requires ValidConfig(cfg) && Inv(cfg, s) && p in cfg.stats && s.RunnerOf(p).Pull?
    requires forall d | d in cfg.stats[p].Dependencies() :: d in cfg.stats
    ensures var stat, r := cfg.stats[p], s.RunnerOf(p);
            Inserted(s, Next(cfg, s, p), p, stat.output, cfg.collect(p, s.log, DependencyRows(stat, s.tables, r.next), r.next),
                     AfterPull(stat, r.next, r.fillTo))
  {
    hide StatInv;
    hide GoodCollector;
    hide Insert;
    hide Slot;
    NextKeepsOwn(cfg, s, p);
  }

  lemma RealmRowsAreAccepted(cfg: Config, s: State, p: string)
    requires ValidConfig(cfg) && Inv(cfg, s) && p in cfg.stats && s.RunnerOf(p).AggregateRealm?
    requires forall d | d in cfg.stats[p].Dependencies() :: d in cfg.stats
    ensures var stat, r := cfg.stats[p], s.RunnerOf(p);
            Inserted(s, Next(cfg, s, p), p, RealmCount, RealmRows(Slot(s.tables.Get(stat.output), p, r.next), p, r.next),
                     AggregateInstallation(r.next, r.fillTo))
  {
    hide StatInv;
    hide GoodCollector;
    hide Insert;
    hide Slot;
    hide RealmRows;
    NextKeepsOwn(cfg, s, p);
  }

  lemma InstallationRowsAreAccepted(cfg: Config, s: State, p: string)
    requires ValidConfig(cfg) && Inv(cfg, s) && p in cfg.stats && s.RunnerOf(p).AggregateInstallation?
    requires forall d | d in cfg.stats[p].Dependencies() :: d in cfg.stats
    ensures var r := s.RunnerOf(p);
            Inserted(s, Next(cfg, s, p), p, InstallationCount, InstallationRows(Slot(s.tables.realm, p, r.next), p, r.next),
                     Finish(r.next, r.fillTo))
  {
    hide StatInv;
    hide GoodCollector;
    hide Insert;
    hide Slot;
    hide InstallationRows;
    NextKeepsOwn(cfg, s, p);
  }

  /** The tables after the aggregation statements for one end time. */
  ghost function Aggregation(stat: Stat, before: Tables, p: string, e: Time): Tables {
    var realm := if stat.DependsOnRealm() then before.realm + RealmRows(Slot(before.Get(stat.output), p, e), p, e)
                 else before.realm;
    before.(realm := realm, installation := before.installation + InstallationRows(Slot(realm, p, e), p, e))
  }

  /** The tables after the pull for one end time. */
  function Pulled(cfg: Config, before: Tables, log: seq<Event>, p: string, e: Time): Tables
    requires p in cfg.stats
  {
    var stat := cfg.stats[p];
    if stat.kind.Logging? then before
    else before.Set(stat.output, before.Get(stat.output) + cfg.collect(p, log, DependencyRows(stat, before, e), e))
  }

  /** `after` is `before` plus the rows of one end time: the collected ones and their aggregates. */
  ghost predicate FilledAt(cfg: Config, before: Tables, after: Tables, log: seq<Event>, p: string, e: Time)
    requires p in cfg.stats
  {
    after == Aggregation(cfg.stats[p], Pulled(cfg, before, log, p, e), p, e)
  }

  /** fill_to_time after the dependencies have capped it; None if one of them never ran. */
  function FillLimit(cfg: Config, fill: map<string, FillState>, dependencies: seq<string>, fillTo: Time): Option<Time>
    requires forall d | d in dependencies :: d in cfg.stats
  {
    if dependencies == [] then Some(fillTo)
    else
      match LastSuccessfulFill(cfg, fill, dependencies[0])
      case None => None
      case Some(t) => FillLimit(cfg, fill, dependencies[1..], if t < fillTo then t else fillTo)
  }

  /** It is the least of fill_to_time and the times up to which the dependencies are complete. */
  lemma {:induction false} FillLimitIsMinimum(cfg: Config, fill: map<string, FillState>, dependencies: seq<string>, fillTo: Time)
    requires forall d | d in dependencies :: d in cfg.stats
    ensures FillLimit(cfg, fill, dependencies, fillTo).None? <==> exists d :: d in dependencies && d !in fill
    ensures FillLimit(cfg, fill, dependencies, fillTo).Some? ==>
              var limit := FillLimit(cfg, fill, dependencies, fillTo).value;
              && limit <= fillTo
              && (forall d | d in dependencies ::
                    d in fill && limit <= if fill[d].status == Done then fill[d].endTime else fill[d].endTime - cfg.stats[d].increment)
              && (limit == fillTo
                  || exists d :: d in dependencies && d in fill && limit == (if fill[d].status == Done then fill[d].endTime else fill[d].endTime - cfg.stats[d].increment))
    decreases |dependencies|
  {
    if dependencies != [] {
      assert dependencies[0] in dependencies;
      match LastSuccessfulFill(cfg, fill, dependencies[0])
      case None =>
      case Some(t) => FillLimitIsMinimum(cfg, fill, dependencies[1..], if t < fillTo then t else fillTo);
    }
  }

  /** Where a call starts: a new stat at the epoch, an interrupted one after its undo. */
  function StartOf(cfg: Config, fill: map<string, FillState>, p: string): Time
    requires p in cfg.stats
  {
    match LastSuccessfulFill(cfg, fill, p)
    case None => cfg.epoch
    case Some(t) => t
  }

  /** A stat is not its own dependency. */
  lemma {:induction false} LimitIgnoresOwn(cfg: Config, fill: map<string, FillState>, dependencies: seq<string>,
                                           p: string, f: FillState, fillTo: Time)
    requires forall d | d in dependencies :: d in cfg.stats && d != p
    ensures FillLimit(cfg, fill[p := f], dependencies, fillTo) == FillLimit(cfg, fill, dependencies, fillTo)
    decreases |dependencies|
  {
    if dependencies != [] {
      match LastSuccessfulFill(cfg, fill, dependencies[0])
      case None =>
      case Some(t) => LimitIgnoresOwn(cfg, fill, dependencies[1..], p, f, if t < fillTo then t else fillTo);
    }
  }

  lemma LoopFillState(cfg: Config, s: State, p: string)
    requires ValidConfig(cfg) && Inv(cfg, s) && p in cfg.stats && s.RunnerOf(p).Loop?
    ensures p in s.fill && s.fill[p] == FillState(s.RunnerOf(p).current, Done)
  {}

  lemma DeletedByLogging(stat: Stat)
    requires stat.kind.Logging?
    ensures var deleted := stat.DeletedTables();
            && |deleted| == (if stat.DependsOnRealm() then 2 else 1)
            && deleted[0] == InstallationCount && (stat.DependsOnRealm() ==> deleted[1] == RealmCount)
            && forall t :: t in deleted <==> t == InstallationCount || (t == RealmCount && stat.DependsOnRealm())
  {}

  class AnalyticsDatabase {
    const cfg: Config
    var tables: Tables
    var fillStates: map<string, FillState>
    var log: seq<Event>

    /** How many more writes commit before the current process is killed. */
    var writesLeft: nat

    /** The fill machine's state, and the actions that led to it from the empty database. */
    ghost var state: State
    ghost var run: seq<Action>

    ghost predicate Tracks()
      reads this
    {
      && ValidConfig(cfg) && Path(cfg, Init(), run, state) && Inv(cfg, state)
      && tables == state.tables && fillStates == state.fill && log == state.log
    }

    /** Between calls no process is running. */
    ghost predicate Valid()
      reads this
    {
      Tracks() && forall p :: state.RunnerOf(p) == Idle
    }

    constructor (cfg: Config, writesLeft: nat)
      requires ValidConfig(cfg)
      ensures Valid() && this.cfg == cfg && this.writesLeft == writesLeft && run == []
    {
      this.cfg := cfg;
      this.writesLeft := writesLeft;
      tables, fillStates, log := Init().tables, map[], [];
      state, run := Init(), [];
      new;
      InitHoldsInv(cfg);
    }

    /** The machine takes a step. */
    ghost method Take(a: Action)
      requires ValidConfig(cfg) && Path(cfg, Init(), run, state) && Inv(cfg, state) && Admissible(cfg, state, a)
      modifies this`state, this`run
      ensures state == Step(cfg, old(state), a) && run == old(run) + [a]
      ensures Path(cfg, Init(), run, state) && Inv(cfg, state)
    {
      PathAppend(cfg, Init(), run, state, a);
      StepKeepsInv(cfg, state, a);
      state, run := Step(cfg, state, a), run + [a];
    }

    /** The runner of `p` is the only one, and stands before statement `r`. */
    ghost predicate At(p: string, r: Runner)
      reads this
    {
      Tracks() && p in cfg.stats && ValidStat(cfg, p) && state.RunnerOf(p) == r && forall q | q != p :: state.RunnerOf(q) == Idle
    }

    /** From (`before`, `run0`), the runner of `p` has executed `n` statements, and was killed if not `alive`. */
    ghost predicate Ran(run0: seq<Action>, p: string, n: nat, alive: bool)
      reads this
    {
      run == run0 + Advances(p, n) + (if alive then [] else [Crash(p)])
    }

    /** Accounts for one commit; false when the process is killed instead. */
    method Commit(p: string, ghost r: Runner, ghost run0: seq<Action>, ghost n: nat) returns (alive: bool)
      requires At(p, r) && Ran(run0, p, n, true)
      modifies this`writesLeft, this`state, this`run
      ensures alive ==> ValidConfig(cfg) && Inv(cfg, state) && Path(cfg, Init(), run, state)
      ensures alive ==> state == Next(cfg, old(state), p) && Ran(run0, p, n + 1, true)
      ensures !alive ==> Valid() && Ran(run0, p, n, false) && state == Crashed(old(state), p)
    {
      hide Inv;
      hide ValidConfig;
      hide Path;
      if writesLeft == 0 {
        Take(Crash(p));
        assert forall q :: state.RunnerOf(q) == if q == p then Idle else old(state).RunnerOf(q);
        return false;
      }
      writesLeft := writesLeft - 1;
      Take(Advance(p));
      return true;
    }

    /** do_update_fill_state. */
    method DoUpdateFillState(p: string, endTime: Time, status: Status, ghost r: Runner, ghost after: Runner,
                             ghost run0: seq<Action>, ghost n: nat)
      returns (alive: bool)
      requires At(p, r) && Ran(run0, p, n, true)
      requires forall d | d in cfg.stats[p].Dependencies() :: d in cfg.stats
      requires Saved(state, Next(cfg, state, p), p, endTime, status, after)
      modifies this`writesLeft, this`state, this`run, this`fillStates
      ensures alive ==> fillStates == old(fillStates)[p := FillState(endTime, status)]
      ensures alive ==> At(p, after) && Ran(run0, p, n + 1, true)
      ensures !alive ==> Valid() && fillStates == old(fillStates) && Ran(run0, p, n, false)
    {
      hide Inv;
      hide ValidConfig;
      hide Path;
      hide Slot;
      StatementIsLocal(cfg, state, p);
      hide Next;
      alive := Commit(p, r, run0, n);
      if alive {
        fillStates := fillStates[p := FillState(endTime, status)];
      }
    }

    /** One DELETE of do_delete_counts_at_hour. */
    method Delete(table: TableId, p: string, endTime: Time, ghost r: Runner, ghost run0: seq<Action>, ghost n: nat)
      returns (alive: bool)
      requires At(p, r) && r.Undo? && r.target == endTime && Ran(run0, p, n, true)
      requires r.deleted < |cfg.stats[p].DeletedTables()| && cfg.stats[p].DeletedTables()[r.deleted] == table
      modifies this`writesLeft, this`state, this`run, this`tables
      ensures alive ==> tables == old(tables).Set(table, DeleteAt(old(tables).Get(table), p, endTime))
      ensures alive ==> At(p, r.(deleted := r.deleted + 1)) && Ran(run0, p, n + 1, true)
      ensures !alive ==> Valid() && tables == old(tables) && Ran(run0, p, n, false)
    {
      hide Inv;
      hide ValidConfig;
      hide Path;
      hide Slot;
      hide DeleteAt;
      StatementIsLocal(cfg, state, p);
      alive := Commit(p, r, run0, n);
      if alive {
        tables := tables.Set(table, DeleteAt(tables.Get(table), p, endTime));
      }
    }

    /** The branch of do_delete_counts_at_hour for a logging stat: its raw rows stay. */
    method DeleteAggregates(p: string, endTime: Time, ghost r: Runner) returns (alive: bool, ghost n: nat)
      requires At(p, r) && r.Undo? && r.target == endTime && r.deleted == 0
      requires cfg.stats[p].kind.Logging?
      modifies this`writesLeft, this`state, this`run, this`tables
      ensures Ran(old(run), p, n, alive)
      ensures alive ==> At(p, r.(deleted := |cfg.stats[p].DeletedTables()|))
      ensures alive ==> forall t :: tables.Get(t) == if t in cfg.stats[p].DeletedTables()
                                                     then DeleteAt(old(tables).Get(t), p, endTime) else old(tables).Get(t)
      ensures !alive ==> Valid()
    {
      hide Tracks;
      hide DeleteAt;
      hide ValidStat;
      hide Stat.DeletedTables;
      hide Advances;
      DeletedByLogging(cfg.stats[p]);
      n := 0;
      alive := Delete(InstallationCount, p, endTime, r, old(run), n);
      if !alive { return; }
      n := 1;
      if cfg.stats[p].DependsOnRealm() {
        alive := Delete(RealmCount, p, endTime, r.(deleted := 1), old(run), n);
        if alive { n := 2; }
      }
    }

    /** Two DELETEs in a row. */
    method DeleteTwo(first: TableId, second: TableId, p: string, endTime: Time, ghost r: Runner, ghost run0: seq<Action>,
                     ghost n: nat)
      returns (alive: bool, ghost m: nat)
      requires At(p, r) && r.Undo? && r.target == endTime && Ran(run0, p, n, true) && first != second
      requires r.deleted + 1 < |cfg.stats[p].DeletedTables()|
      requires cfg.stats[p].DeletedTables()[r.deleted] == first && cfg.stats[p].DeletedTables()[r.deleted + 1] == second
      modifies this`writesLeft, this`state, this`run, this`tables
      ensures Ran(run0, p, m, alive)
      ensures alive ==> At(p, r.(deleted := r.deleted + 2))
      ensures alive ==> forall t :: tables.Get(t) == if t == first || t == second then DeleteAt(old(tables).Get(t), p, endTime)
                                                     else old(tables).Get(t)
      ensures !alive ==> Valid()
    {
      hide Tracks;
      hide DeleteAt;
      hide ValidStat;
      m := n;
      alive := Delete(first, p, endTime, r, run0, m);
      if !alive { return; }
      m := n + 1;
      alive := Delete(second, p, endTime, r.(deleted := r.deleted + 1), run0, m);
      if alive { m := n + 2; }
    }

    /** The branch of do_delete_counts_at_hour for any other stat. */
    method DeleteAll(p: string, endTime: Time, ghost r: Runner) returns (alive: bool, ghost n: nat)
      requires At(p, r) && r.Undo? && r.target == endTime && r.deleted == 0
      requires !cfg.stats[p].kind.Logging?
      modifies this`writesLeft, this`state, this`run, this`tables
      ensures Ran(old(run), p, n, alive)
      ensures alive ==> At(p, r.(deleted := |cfg.stats[p].DeletedTables()|))
      ensures alive ==> forall t :: tables.Get(t) == if t in cfg.stats[p].DeletedTables()
                                                     then DeleteAt(old(tables).Get(t), p, endTime) else old(tables).Get(t)
      ensures !alive ==> Valid()
    {
      hide Tracks;
      hide DeleteAt;
      hide ValidStat;
      n := 0;
      alive, n := DeleteTwo(UserCount, StreamCount, p, endTime, r, old(run), n);
      if !alive { return; }
      alive, n := DeleteTwo(RealmCount, InstallationCount, p, endTime, r.(deleted := 2), old(run), n);
    }

    /** do_delete_counts_at_hour: of all rows, exactly those this stat computed for this end time go. */
    method DoDeleteCountsAtHour(p: string, endTime: Time, ghost r: Runner) returns (alive: bool, ghost n: nat)
      requires At(p, r) && r.Undo? && r.target == endTime && r.deleted == 0
      modifies this`writesLeft, this`state, this`run, this`tables
      ensures Ran(old(run), p, n, alive)
      ensures alive ==> At(p, r.(deleted := |cfg.stats[p].DeletedTables()|))
      ensures alive ==> forall t :: tables.Get(t) == if t in cfg.stats[p].DeletedTables()
                                                     then DeleteAt(old(tables).Get(t), p, endTime) else old(tables).Get(t)
      ensures !alive ==> Valid()
    {
      if cfg.stats[p].kind.Logging? {
        alive, n := DeleteAggregates(p, endTime, r);
      } else {
        alive, n := DeleteAll(p, endTime, r);
      }
    }

    /** pull_function: inserts the collected rows into the stat's output table. */
    method PullRows(p: string, endTime: Time, ghost r: Runner, ghost run0: seq<Action>,
                    ghost n: nat) returns (alive: bool)
      requires At(p, r) && r.Pull? && r.next == endTime && Ran(run0, p, n, true)
      modifies this`writesLeft, this`state, this`run, this`tables
      ensures alive ==> At(p, AfterPull(cfg.stats[p], r.next, r.fillTo)) && Ran(run0, p, n + 1, true)
      ensures alive ==> var stat := cfg.stats[p];
                        var rows := cfg.collect(p, log, DependencyRows(stat, old(tables), endTime), endTime);
                        tables == old(tables).Set(stat.output, old(tables).Get(stat.output) + rows)
      ensures !alive ==> Valid() && Ran(run0, p, n, false)
    {
      hide Slot;
      hide Inv;
      hide ValidConfig;
      hide Path;
      var stat := cfg.stats[p];
      var rows := cfg.collect(p, log, DependencyRows(stat, tables, endTime), endTime);
      PullIsAccepted(cfg, state, p);
      hide Next;
      StatementIsLocal(cfg, state, p);
      alive := Commit(p, r, run0, n);
      if alive {
        tables := tables.Set(stat.output, Insert(tables.Get(stat.output), rows).value);
      }
    }

    /** The RealmCount statement of do_aggregate_to_summary_table. */
    method InsertRealmRows(p: string, endTime: Time, ghost r: Runner, ghost run0: seq<Action>,
                           ghost n: nat) returns (alive: bool)
      requires At(p, r) && r.AggregateRealm? && r.next == endTime && Ran(run0, p, n, true)
      modifies this`writesLeft, this`state, this`run, this`tables
      ensures alive ==> At(p, AggregateInstallation(r.next, r.fillTo)) && Ran(run0, p, n + 1, true)
      ensures alive ==> tables == old(tables).(realm := old(tables).realm
                                               + RealmRows(Slot(old(tables).Get(cfg.stats[p].output), p, endTime), p, endTime))
      ensures !alive ==> Valid() && Ran(run0, p, n, false)
    {
      hide Slot;
      hide RealmRows;
      hide InstallationRows;
      hide Inv;
      hide ValidConfig;
      hide Path;
      var slot := Slot(tables.Get(cfg.stats[p].output), p, endTime);
      var rows := SelectRealmRows(slot, p, endTime);
      RealmRowsAreAccepted(cfg, state, p);
      hide Next;
      StatementIsLocal(cfg, state, p);
      alive := Commit(p, r, run0, n);
      if alive {
        tables := tables.Set(RealmCount, Insert(tables.realm, rows).value);
      }
    }

    /** The InstallationCount statement of do_aggregate_to_summary_table. */
    method InsertInstallationRows(p: string, endTime: Time, ghost r: Runner, ghost run0: seq<Action>,
                                  ghost n: nat) returns (alive: bool)
      requires At(p, r) && r.AggregateInstallation? && r.next == endTime && Ran(run0, p, n, true)
      modifies this`writesLeft, this`state, this`run, this`tables
      ensures alive ==> At(p, Finish(r.next, r.fillTo)) && Ran(run0, p, n + 1, true)
      ensures alive ==> tables == old(tables).(installation := old(tables).installation
                                               + InstallationRows(Slot(old(tables).realm, p, endTime), p, endTime))
      ensures !alive ==> Valid() && Ran(run0, p, n, false)
    {
      hide Slot;
      hide RealmRows;
      hide InstallationRows;
      hide Inv;
      hide ValidConfig;
      hide Path;
      var slot := Slot(tables.realm, p, endTime);
      var rows := SelectInstallationRows(slot, p, endTime);
      InstallationRowsAreAccepted(cfg, state, p);
      hide Next;
      StatementIsLocal(cfg, state, p);
      alive := Commit(p, r, run0, n);
      if alive {
        tables := tables.Set(InstallationCount, Insert(tables.installation, rows).value);
      }
    }

    /** do_aggregate_to_summary_table. */
    method DoAggregateToSummaryTable(p: string, endTime: Time, ghost fillTo: Time, ghost run0: seq<Action>,
                                     ghost n0: nat)
      returns (alive: bool, ghost n: nat)
      requires p in cfg.stats && At(p, AfterPull(cfg.stats[p], endTime, fillTo)) && Ran(run0, p, n0, true)
      modifies this`writesLeft, this`state, this`run, this`tables
      ensures alive ==> At(p, Finish(endTime, fillTo))
      ensures alive ==> tables == Aggregation(cfg.stats[p], old(tables), p, endTime)
      ensures !alive ==> Valid()
      ensures Ran(run0, p, n, alive)
    {
      hide Tracks;
      hide ValidStat;
      hide Slot;
      hide RealmRows;
      hide InstallationRows;
      n := n0;
      if cfg.stats[p].DependsOnRealm() {
        alive := InsertRealmRows(p, endTime, AggregateRealm(endTime, fillTo), run0, n);
        if !alive { return; }
        n := n + 1;
      }
      alive := InsertInstallationRows(p, endTime, AggregateInstallation(endTime, fillTo), run0, n);
      if alive { n := n + 1; }
    }

    /** do_fill_count_stat_at_hour. */
    method DoFillCountStatAtHour(p: string, endTime: Time, ghost fillTo: Time, ghost run0: seq<Action>, ghost n0: nat)
      returns (alive: bool, ghost n: nat)
      requires p in cfg.stats && At(p, AfterStart(cfg.stats[p], endTime, fillTo)) && Ran(run0, p, n0, true)
      modifies this`writesLeft, this`state, this`run, this`tables
      ensures alive ==> At(p, Finish(endTime, fillTo))
      ensures alive ==> FilledAt(cfg, old(tables), tables, log, p, endTime)
      ensures !alive ==> Valid()
      ensures Ran(run0, p, n, alive)
    {
      hide Tracks;
      hide ValidStat;
      hide Aggregation;
      n := n0;
      if !cfg.stats[p].kind.Logging? {
        alive := PullRows(p, endTime, Pull(endTime, fillTo), run0, n);
        if !alive { return; }
        n := n + 1;
      }
      alive, n := DoAggregateToSummaryTable(p, endTime, fillTo, run0, n);
    }

    /** The machine's runner reads a dependency, or leaves the dependency loop. */
    ghost method TakeRead(p: string, i: nat, current: Time, fillTo: Time, run0: seq<Action>, n: nat)
      requires At(p, ReadDependencies(i, current, fillTo)) && Ran(run0, p, n, true)
      requires forall d | d in cfg.stats[p].Dependencies() :: d in cfg.stats
      modifies this`state, this`run
      ensures Ran(run0, p, n + 1, true)
      ensures var dependencies := cfg.stats[p].Dependencies();
              if i >= |dependencies| then At(p, Loop(current, fillTo))
              else match LastSuccessfulFill(cfg, fillStates, dependencies[i])
                   case None => Valid()
                   case Some(t) => At(p, ReadDependencies(i + 1, current, if t < fillTo then t else fillTo))
    {
      hide Inv;
      hide ValidConfig;
      hide Path;
      StatementIsLocal(cfg, state, p);
      Take(Advance(p));
      assert forall q | q != p :: state.RunnerOf(q) == old(state).RunnerOf(q);
    }

    /** The reads of process_count_stat's dependency loop; None when the call returns early. */
    method CapByDependencies(p: string, current: Time, fillTo: Time, ghost run0: seq<Action>, ghost n0: nat)
      returns (limit: Option<Time>, ghost n: nat)
      requires At(p, ReadDependencies(0, current, fillTo)) && Ran(run0, p, n0, true)
      requires forall d | d in cfg.stats[p].Dependencies() :: d in cfg.stats
      modifies this`state, this`run
      ensures limit == FillLimit(cfg, fillStates, cfg.stats[p].Dependencies(), fillTo)
      ensures Ran(run0, p, n, true)
      ensures limit.None? ==> Valid()
      ensures limit.Some? ==> At(p, Loop(current, limit.value))
    {
      hide Tracks;
      hide ValidStat;
      n := n0;
      var dependencies := cfg.stats[p].Dependencies();
      var i, cap := 0, fillTo;
      while i < |dependencies|
        invariant 0 <= i <= |dependencies|
        invariant At(p, ReadDependencies(i, current, cap)) && Ran(run0, p, n, true)
        invariant FillLimit(cfg, fillStates, dependencies, fillTo) == FillLimit(cfg, fillStates, dependencies[i..], cap)
      {
        TakeRead(p, i, current, cap, run0, n);
        n := n + 1;
        match LastSuccessfulFill(cfg, fillStates, dependencies[i])
        case None =>
          return None, n;
        case Some(t) =>
          cap := if t < cap then t else cap;
          i := i + 1;
      }
      TakeRead(p, i, current, cap, run0, n);
      n := n + 1;
      limit := Some(cap);
    }

    /** Claims the next end time: FillState STARTED. */
    method Claim(p: string, current: Time, next: Time, ghost fillTo: Time, ghost run0: seq<Action>, ghost n: nat)
      returns (alive: bool)
      requires At(p, Loop(current, fillTo)) && Ran(run0, p, n, true)
      requires next == current + cfg.stats[p].increment && next <= fillTo
      modifies this`writesLeft, this`state, this`run, this`fillStates
      ensures alive ==> At(p, AfterStart(cfg.stats[p], next, fillTo)) && Ran(run0, p, n + 1, true)
      ensures alive ==> fillStates == old(fillStates)[p := FillState(next, Started)]
      ensures !alive ==> Valid() && Ran(run0, p, n, false)
    {
      KnownDependencies(cfg, p);
      hide Tracks;
      hide ValidStat;
      SavesOfMachine(cfg, state, p);
      hide Next;
      hide Saved;
      alive := DoUpdateFillState(p, next, Started, Loop(current, fillTo), AfterStart(cfg.stats[p], next, fillTo), run0, n);
    }

    /** Marks a filled end time DONE. */
    method MarkDone(p: string, next: Time, ghost fillTo: Time, ghost run0: seq<Action>, ghost n: nat)
      returns (alive: bool)
      requires At(p, Finish(next, fillTo)) && Ran(run0, p, n, true)
      modifies this`writesLeft, this`state, this`run, this`fillStates
      ensures alive ==> At(p, Loop(next, fillTo)) && Ran(run0, p, n + 1, true)
      ensures alive ==> fillStates == old(fillStates)[p := FillState(next, Done)]
      ensures !alive ==> Valid() && Ran(run0, p, n, false)
    {
      KnownDependencies(cfg, p);
      hide Tracks;
      hide ValidStat;
      SavesOfMachine(cfg, state, p);
      hide Next;
      hide Saved;
      alive := DoUpdateFillState(p, next, Done, Finish(next, fillTo), Loop(next, fillTo), run0, n);
    }

    /** Fills a claimed end time and marks it DONE. */
    method FillClaimed(p: string, next: Time, ghost fillTo: Time, ghost run0: seq<Action>, ghost n0: nat)
      returns (alive: bool, ghost n: nat)
      requires p in cfg.stats && At(p, AfterStart(cfg.stats[p], next, fillTo)) && Ran(run0, p, n0, true)
      modifies this`writesLeft, this`state, this`run, this`tables, this`fillStates
      ensures alive ==> At(p, Loop(next, fillTo)) && FilledAt(cfg, old(tables), tables, log, p, next)
      ensures alive ==> p in fillStates && fillStates[p] == FillState(next, Done)
      ensures !alive ==> Valid()
      ensures Ran(run0, p, n, alive)
    {
      hide *;
      alive, n := DoFillCountStatAtHour(p, next, fillTo, run0, n0);
      if alive {
        alive := MarkDone(p, next, fillTo, run0, n);
        n := if alive then n + 1 else n;
      }
    }

    /** One iteration of the filling loop. */
    method FillOneEndTime(p: string, current: Time, fillTo: Time, ghost run0: seq<Action>, ghost n0: nat)
      returns (alive: bool, next: Time, ghost n: nat)
      requires At(p, Loop(current, fillTo)) && Ran(run0, p, n0, true) && current + cfg.stats[p].increment <= fillTo
      modifies this`writesLeft, this`state, this`run, this`tables, this`fillStates
      ensures next == current + cfg.stats[p].increment
      ensures alive ==> At(p, Loop(next, fillTo)) && FilledAt(cfg, old(tables), tables, log, p, next)
      ensures alive ==> p in fillStates && fillStates[p] == FillState(next, Done)
      ensures !alive ==> Valid()
      ensures Ran(run0, p, n, alive)
    {
      n, next := n0, current + cfg.stats[p].increment;
      hide *;
      alive := Claim(p, current, next, fillTo, run0, n);
      if alive {
        alive, n := FillClaimed(p, next, fillTo, run0, n + 1);
      }
    }

    /** The loop condition fails, and the call returns. */
    ghost method LeaveLoop(p: string, current: Time, fillTo: Time, run0: seq<Action>, n: nat)
      requires At(p, Loop(current, fillTo)) && Ran(run0, p, n, true) && fillTo < current + cfg.stats[p].increment
      modifies this`state, this`run
      ensures Valid() && Ran(run0, p, n + 1, true)
    {
      hide GoodCollector;
      hide StatInv;
      StatementIsLocal(cfg, state, p);
      Take(Advance(p));
      assert forall q :: state.RunnerOf(q) == if q == p then Idle else old(state).RunnerOf(q);
    }

    /** The filling loop of process_count_stat. */
    method FillUpTo(p: string, start: Time, fillTo: Time, ghost run0: seq<Action>, ghost n0: nat)
      returns (alive: bool, current: Time, ghost n: nat)
      requires At(p, Loop(start, fillTo)) && Ran(run0, p, n0, true)
      modifies this`writesLeft, this`state, this`run, this`tables, this`fillStates
      ensures Valid() && Ran(run0, p, n, alive)
      ensures alive ==> p in fillStates && fillStates[p] == FillState(current, Done)
      ensures alive ==> start <= current && (current == start || current <= fillTo) && fillTo < current + cfg.stats[p].increment
    {
      n, current := n0, start;
      LoopFillState(cfg, state, p);
      hide ValidConfig;
      hide Inv;
      hide Path;
      hide Aggregation;
      while current + cfg.stats[p].increment <= fillTo
        invariant At(p, Loop(current, fillTo)) && Ran(run0, p, n, true)
        invariant p in fillStates && fillStates[p] == FillState(current, Done)
        invariant start <= current && (current == start || current <= fillTo)
        decreases fillTo - current
      {
        alive, current, n := FillOneEndTime(p, current, fillTo, run0, n);
        if !alive { return; }
      }
      LeaveLoop(p, current, fillTo, run0, n);
      n := n + 1;
      alive := true;
    }

    /** The FillState save that ends an undo. */
    method SaveUndone(p: string, target: Time, ghost r: Runner, ghost run0: seq<Action>, ghost n: nat) returns (alive: bool)
      requires r.Undo? && r.target == target && At(p, r) && r.deleted >= |cfg.stats[p].DeletedTables()| && Ran(run0, p, n, true)
      modifies this`writesLeft, this`state, this`run, this`fillStates
      ensures alive ==> fillStates == old(fillStates)[p := FillState(target - cfg.stats[p].increment, Done)]
      ensures alive ==> At(p, ReadDependencies(0, target - cfg.stats[p].increment, r.fillTo)) && Ran(run0, p, n + 1, true)
      ensures !alive ==> Valid() && Ran(run0, p, n, false)
    {
      KnownDependencies(cfg, p);
      hide Tracks;
      hide ValidStat;
      hide Next;
      hide Saved;
      SavesOfMachine(cfg, state, p);
      ghost var current := target - cfg.stats[p].increment;
      alive := DoUpdateFillState(p, target - cfg.stats[p].increment, Done, r, ReadDependencies(0, current, r.fillTo), run0, n);
    }

    /** The undo at the start of process_count_stat, when it finds FillState STARTED. */
    method UndoInterrupted(p: string, target: Time, fillTo: Time) returns (alive: bool, ghost n: nat)
      requires At(p, FillMachine.Undo(0, target, fillTo))
      modifies this`writesLeft, this`state, this`run, this`tables, this`fillStates
      ensures Ran(old(run), p, n, alive)
      ensures alive ==> At(p, ReadDependencies(0, target - cfg.stats[p].increment, fillTo))
      ensures alive ==> fillStates == old(fillStates)[p := FillState(target - cfg.stats[p].increment, Done)]
      ensures !alive ==> Valid()
    {
      hide Tracks;
      hide ValidStat;
      hide Advances;
      ghost var r := FillMachine.Undo(0, target, fillTo);
      alive, n := DoDeleteCountsAtHour(p, target, r);
      if !alive { return; }
      alive := SaveUndone(p, target, r.(deleted := |cfg.stats[p].DeletedTables()|), old(run), n);
      if alive { n := n + 1; }
    }

    /** A call begins: the machine's runner stands where Begin puts it. */
    ghost method Enter(p: string, fillTo: Time)
      requires Valid() && p in cfg.stats && fillTo % HOUR == 0
      modifies this`state, this`run
      ensures ValidConfig(cfg) && Inv(cfg, state) && Path(cfg, Init(), run, state) && ValidStat(cfg, p)
      ensures state == Begin(cfg, old(state), p, fillTo) && run == old(run) + [Call(p, fillTo)]
      ensures forall q | q != p :: state.RunnerOf(q) == Idle
    {
      hide GoodCollector;
      hide StatInv;
      assert ValidStat(cfg, p);
      Take(Call(p, fillTo));
      assert forall q | q != p :: state.RunnerOf(q) == old(state).RunnerOf(q);
    }

    /** process_count_stat up to and including the undo or the creation of FillState. */
    method Start(p: string, fillTo: Time) returns (alive: bool, current: Time, ghost n: nat)
      requires Valid() && p in cfg.stats && fillTo % HOUR == 0
      modifies this`writesLeft, this`state, this`run, this`tables, this`fillStates
      ensures alive ==> current == StartOf(cfg, old(fillStates), p) && At(p, ReadDependencies(0, current, fillTo))
      ensures alive ==> fillStates == old(fillStates)[p := FillState(current, Done)]
      ensures !alive ==> Valid()
      ensures Ran(old(run) + [Call(p, fillTo)], p, n, alive) || (!alive && run == old(run))
    {
      hide ValidConfig;
      hide Inv;
      hide Path;
      hide ValidStat;
      n, current := 0, StartOf(cfg, fillStates, p);
      if p !in fillStates {
        if writesLeft == 0 {
          return false, current, n;
        }
        writesLeft := writesLeft - 1;
        Enter(p, fillTo);
        fillStates := fillStates[p := FillState(cfg.epoch, Done)];
        alive := true;
      } else {
        Enter(p, fillTo);
        if fillStates[p].status == Started {
          alive, n := UndoInterrupted(p, fillStates[p].endTime, fillTo);
        } else {
          alive := true;
        }
      }
    }

    /** What a finished call leaves: FillState DONE at the last end time that `limit` allows, or
        where the call started when a dependency has no progress yet. */
    ghost predicate FilledAsFarAs(start: Time, limit: Option<Time>, p: string)
      reads this
      requires p in cfg.stats
    {
      && p in fillStates && fillStates[p].status == Done
      && match limit
         case None => fillStates[p].endTime == start
         case Some(last) =>
           var t := fillStates[p].endTime;
           start <= t && (t == start || t <= last) && last < t + cfg.stats[p].increment
    }

    /** The rows of `p` are those of one uninterrupted fill up to its FillState, and no others. */
    ghost predicate HoldsCleanFill(p: string)
      reads this
      requires p in cfg.stats && cfg.stats[p].increment > 0 && p in fillStates
    {
      forall e :: if OnGrid(cfg, cfg.stats[p], e) && e <= fillStates[p].endTime
                  then HoldsFill(cfg, state, p, e) else HoldsNothing(state, p, e)
    }

    lemma CompletedRows(p: string)
      requires Valid() && p in cfg.stats && p in fillStates && fillStates[p].status == Done && !cfg.stats[p].kind.Logging?
      ensures cfg.stats[p].increment > 0 && HoldsCleanFill(p)
    {
      hide StatInv;
      hide GoodCollector;
      hide HoldsFill;
      hide HoldsNothing;
      assert Reachable(cfg, state);
      assert ValidStat(cfg, p);
      forall e { ExactlyOnceFill(cfg, state, p, fillStates[p].endTime, e); }
    }

    /** The rest of a call, after the undo or the creation of FillState. */
    method Continue(p: string, start: Time, fillTo: Time, ghost run0: seq<Action>,
                    ghost n0: nat) returns (alive: bool, ghost n: nat)
      requires At(p, ReadDependencies(0, start, fillTo)) && Ran(run0, p, n0, true)
      requires p in fillStates && fillStates[p] == FillState(start, Done)
      requires forall d | d in cfg.stats[p].Dependencies() :: d in cfg.stats
      modifies this`writesLeft, this`state, this`run, this`tables, this`fillStates
      ensures Valid() && Ran(run0, p, n, alive)
      ensures alive ==> FilledAsFarAs(start, FillLimit(cfg, old(fillStates), cfg.stats[p].Dependencies(), fillTo), p)
    {
      hide Tracks;
      hide Advances;
      var limit;
      limit, n := CapByDependencies(p, start, fillTo, run0, n0);
      hide *;
      alive := true;
      if limit.Some? {
        var current;
        alive, current, n := FillUpTo(p, start, limit.value, run0, n);
      }
    }

    /** process_count_stat. However it ends, the database is one that the fill machine reaches,
        by the statements of one call; when it is not killed, the stat is filled as far as
        fill_to_time and its dependencies allow, and its rows are those of a clean fill. */
    method ProcessCountStat(p: string, fillTo: Time) returns (outcome: Outcome, ghost n: nat)
      requires Valid() && p in cfg.stats
      modifies this`writesLeft, this`state, this`run, this`tables, this`fillStates
      ensures Valid()
      ensures outcome == BadFillTime <==> fillTo % HOUR != 0
      ensures outcome == BadFillTime ==> tables == old(tables) && fillStates == old(fillStates) && run == old(run)
      ensures outcome == Killed ==> Ran(old(run) + [Call(p, fillTo)], p, n, false) || run == old(run)
      ensures outcome == Completed ==> Ran(old(run) + [Call(p, fillTo)], p, n, true)
      ensures forall d | d in cfg.stats[p].Dependencies() :: d in cfg.stats
      ensures outcome == Completed ==>
                FilledAsFarAs(StartOf(cfg, old(fillStates), p), FillLimit(cfg, old(fillStates), cfg.stats[p].Dependencies(), fillTo), p)
      ensures outcome == Completed && !cfg.stats[p].kind.Logging? ==>
                cfg.stats[p].increment > 0 && p in fillStates && HoldsCleanFill(p)
    {
      KnownDependencies(cfg, p);
      OwnDependencies(cfg, p);
      n := 0;
      if fillTo % HOUR != 0 {
        return BadFillTime, n;
      }
      hide Tracks;
      hide ValidStat;
      hide HoldsCleanFill;
      var alive, current;
      alive, current, n := Start(p, fillTo);
      if !alive {
        return Killed, n;
      }
      LimitIgnoresOwn(cfg, old(fillStates), cfg.stats[p].Dependencies(), p, FillState(current, Done), fillTo);
      hide FillLimit;
      hide Advances;
      alive, n := Continue(p, current, fillTo, old(run) + [Call(p, fillTo)], n);
      if !alive {
        return Killed, n;
      }
      outcome := Completed;
      if !cfg.stats[p].kind.Logging? {
        CompletedRows(p);
      }
    }

    /** The server stores a source row, of a time that no filled window contains. */
    method StoreEvent(ev: Event)
      requires Valid() && Admissible(cfg, state, Record(ev))
      modifies this`log, this`state, this`run
      ensures Valid() && log == old(log) + [ev] && run == old(run) + [Record(ev)]
    {
      hide StatInv;
      hide GoodCollector;
      Take(Record(ev));
      assert forall q :: state.RunnerOf(q) == old(state).RunnerOf(q);
      log := log + [ev];
    }

    /** do_increment_logging_stat, called by the server at any time between calls. */
    method DoIncrementLoggingStat(p: string, id: int, subgroup: Option<string>, eventTime: Time, amount: int)
      requires Valid() && p in cfg.stats && cfg.stats[p].kind.Logging?
      modifies this`tables, this`state, this`run
      ensures Valid() && cfg.stats[p].increment > 0
      ensures state == DoIncrement(cfg, old(state), p, id, subgroup, eventTime, amount)
      ensures forall t | t != cfg.stats[p].output || amount == 0 :: tables.Get(t) == old(tables).Get(t)
      ensures exists e :: DueAt(cfg.stats[p].increment, eventTime, e)
      ensures forall e | DueAt(cfg.stats[p].increment, eventTime, e) && amount != 0 ::
                var before, k := old(tables).Get(cfg.stats[p].output), Key(p, e, id, subgroup);
                tables.Get(cfg.stats[p].output)
                == before[k := if k in before then Cell(before[k].realm, before[k].value + amount)
                               else Cell(cfg.home(cfg.stats[p].output, id), amount)]
    {
      hide Inv;
      hide ValidConfig;
      hide Path;
      KnownStat(cfg, p);
      hide DueAt;
      hide Ceiling;
      CeilingIsDue(cfg.stats[p].increment, eventTime);
      assert DueAt(cfg.stats[p].increment, eventTime, Ceiling(cfg.stats[p].increment, eventTime));
      Take(Increment(p, id, subgroup, eventTime, amount));
      assert forall q :: state.RunnerOf(q) == old(state).RunnerOf(q);
      if amount == 0 {
        return;
      }
      var stat := cfg.stats[p];
      var endTime := Ceiling(stat.increment, eventTime);
      tables := tables.Set(stat.output, Upsert(tables.Get(stat.output), Key(p, endTime, id, subgroup),
                                               cfg.home(stat.output, id), amount));
    }
  }
}
