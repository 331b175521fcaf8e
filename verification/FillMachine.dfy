/** analytics/lib/counts.py as a state machine: every database write that a run of
    process_count_stat commits is one step, and a run can be cut off between any two of them.
    All count stats share one database, and the runners of different stats interleave. */
module FillMachine {
  import opened Options
  import opened Sums
  import opened CountTables
  import opened Events

  /** CountStat, LoggingCountStat and DependentCountStat. A dependent stat also reads the
      UserCount rows of one of its dependencies. */
  datatype Kind = Ordinary | Logging | Dependent(dependencies: seq<string>, source: string)

  datatype Stat = Stat(kind: Kind, output: TableId, increment: Time) {
    predicate DependsOnRealm() {
      output == UserCount || output == StreamCount
    }

    function Dependencies(): seq<string> {
      if kind.Dependent? then kind.dependencies else []
    }

    /** The tables do_delete_counts_at_hour clears, in its order. */
    function DeletedTables(): seq<TableId> {
      if kind.Logging? then
        [InstallationCount] + (if DependsOnRealm() then [RealmCount] else [])
      else
        [UserCount, StreamCount, RealmCount, InstallationCount]
    }
  }

  /** COUNT_STATS, installation_epoch(), the pull functions, and the realm that owns each
      user, stream or realm a logging stat counts for. */
  datatype Config = Config(
    stats: map<string, Stat>,
    epoch: Time,
    collect: (string, seq<Event>, Rows, Time) -> Rows,
    home: (TableId, int) -> int)

  datatype Status = Done | Started

  datatype FillState = FillState(endTime: Time, status: Status)

  /** Where a call of process_count_stat stands; Idle when none is running. */
  datatype Runner =
    | Idle
    | Undo(deleted: nat, target: Time, fillTo: Time)
    | ReadDependencies(checked: nat, current: Time, fillTo: Time)
    | Loop(current: Time, fillTo: Time)
    | Pull(next: Time, fillTo: Time)
    | AggregateRealm(next: Time, fillTo: Time)
    | AggregateInstallation(next: Time, fillTo: Time)
    | Finish(next: Time, fillTo: Time)

  /** One effective call of do_increment_logging_stat: the row it adds to, by how much, and
      whether the stat's FillState had already reached its event time. */
  datatype Sent = Sent(key: Key, amount: int, late: bool) {
    predicate Hits(p: string, e: Time) {
      key.property == p && key.endTime == e
    }
  }

  /** The database and the runners. `sent` and `cuts` are history variables: the increments so
      far, and for each logging slot how many of them preceded its latest aggregation. */
  datatype State = State(
    tables: Tables,
    fill: map<string, FillState>,
    runners: map<string, Runner>,
    log: seq<Event>,
    sent: seq<Sent>,
    cuts: map<(string, Time), nat>,
    integrityErrors: nat)
  {
    function RunnerOf(p: string): Runner {
      if p in runners then runners[p] else Idle
    }
  }

  datatype Action =
    | Call(p: string, fillTo: Time)
    | Advance(p: string)
    | Crash(p: string)
    | Record(ev: Event)
    | Increment(p: string, id: int, subgroup: Option<string>, eventTime: Time, amount: int)

  /** What the collectors promise: their rows belong to the asked slot, and events from the
      window's end on do not change them. */
  ghost predicate GoodCollector(collect: (string, seq<Event>, Rows, Time) -> Rows) {
    && (forall p, log, input, e :: InSlot(collect(p, log, input, e), p, e))
    && (forall p, log, ev: Event, input, e ::
          ev.time >= e ==> collect(p, log + [ev], input, e) == collect(p, log, input, e))
  }

  ghost predicate ValidStat(cfg: Config, p: string)
    requires p in cfg.stats
  {
    var stat := cfg.stats[p];
    && (stat.increment == HOUR || stat.increment == DAY)
    && stat.output != InstallationCount
    && (stat.kind.Dependent? ==> stat.kind.source in stat.kind.dependencies
                                 && stat.kind.source in cfg.stats && cfg.stats[stat.kind.source].output == UserCount)
    && (forall d | d in stat.Dependencies() ::
          d in cfg.stats && cfg.stats[d].kind == Ordinary && (stat.increment == HOUR ==> cfg.stats[d].increment == HOUR))
  }

  /** Dependencies are plain stats whose time grid contains the dependent's. */
  ghost predicate ValidConfig(cfg: Config) {
    && cfg.epoch % DAY == 0
    && (forall p | p in cfg.stats :: ValidStat(cfg, p))
    && GoodCollector(cfg.collect)
  }

  function Init(): State {
    State(Tables(NO_ROWS, NO_ROWS, NO_ROWS, NO_ROWS), map[], map[], [], [], map[], 0)
  }

  /** CountStat.last_successful_fill. */
  function LastSuccessfulFill(cfg: Config, fill: map<string, FillState>, p: string): Option<Time>
    requires p in cfg.stats
  {
    if p !in fill then None
    else if fill[p].status == Done then Some(fill[p].endTime)
    else Some(fill[p].endTime - cfg.stats[p].increment)
  }

  /** ceiling_to_hour and ceiling_to_day. */
  function Ceiling(step: Time, t: Time): Time
    requires step > 0
  {
    if t % step == 0 then t else t - t % step + step
  }

  /** `e` is the end time of the hour or day that `t` belongs to: windows include their end. */
  predicate DueAt(step: Time, t: Time, e: Time)
    requires step > 0
  {
    e % step == 0 && e - step < t <= e
  }

  /** Rounding up finds that end time, and there is no other. */
  lemma CeilingIsDue(step: Time, t: Time)
    requires step == HOUR || step == DAY
    ensures Ceiling(step, t) % step == 0 && t <= Ceiling(step, t) < t + step
    ensures forall e :: DueAt(step, t, e) <==> e == Ceiling(step, t)
  {
    if step == HOUR {} else {}
  }

  /** process_count_stat up to its first write. */
  function Begin(cfg: Config, s: State, p: string, fillTo: Time): State
    requires p in cfg.stats
  {
    if fillTo % HOUR != 0 then s
    else if p !in s.fill then
      s.(fill := s.fill[p := FillState(cfg.epoch, Done)],
         runners := s.runners[p := ReadDependencies(0, cfg.epoch, fillTo)])
    else
      match s.fill[p].status
      case Started => s.(runners := s.runners[p := Undo(0, s.fill[p].endTime, fillTo)])
      case Done => s.(runners := s.runners[p := ReadDependencies(0, s.fill[p].endTime, fillTo)])
  }

  /** The statement after the first write of an hour, and after the pull. */
  function AfterStart(stat: Stat, next: Time, fillTo: Time): Runner {
    if stat.kind.Logging? then AfterPull(stat, next, fillTo) else Pull(next, fillTo)
  }

  function AfterPull(stat: Stat, next: Time, fillTo: Time): Runner {
    if stat.DependsOnRealm() then AggregateRealm(next, fillTo) else AggregateInstallation(next, fillTo)
  }

  /** One INSERT ... SELECT; an IntegrityError ends the process. */
  function InsertStep(s: State, p: string, table: TableId, rows: Rows, after: Runner): State {
    match Insert(s.tables.Get(table), rows)
    case Some(t) => s.(tables := s.tables.Set(table, t), runners := s.runners[p := after])
    case None => s.(runners := s.runners[p := Idle], integrityErrors := s.integrityErrors + 1)
  }

  function MarkAggregated(s: State, stat: Stat, p: string, e: Time): State {
    if stat.kind.Logging? then s.(cuts := s.cuts[(p, e) := |s.sent|]) else s
  }

  /** The rows of the dependency that a dependent stat's query reads. */
  function DependencyRows(stat: Stat, tables: Tables, e: Time): Rows {
    if stat.kind.Dependent? then Slot(tables.user, stat.kind.source, e) else NO_ROWS
  }

  /** The undo of a STARTED hour: one table's deletion, or resetting FillState after the last. */
  function UndoStatement(stat: Stat, s: State, p: string, i: nat, target: Time, fillTo: Time): State {
    if i < |stat.DeletedTables()| then
      var table := stat.DeletedTables()[i];
      s.(tables := s.tables.Set(table, DeleteAt(s.tables.Get(table), p, target)),
         runners := s.runners[p := Undo(i + 1, target, fillTo)])
    else
      s.(fill := s.fill[p := FillState(target - stat.increment, Done)],
         runners := s.runners[p := ReadDependencies(0, target - stat.increment, fillTo)])
  }

  /** Reads one dependency's progress; without any, the call returns. */
  function ReadStatement(cfg: Config, s: State, p: string, i: nat, current: Time, fillTo: Time): State
    requires p in cfg.stats
    requires forall d | d in cfg.stats[p].Dependencies() :: d in cfg.stats
  {
    var dependencies := cfg.stats[p].Dependencies();
    var runner :=
      if i < |dependencies| then
        match LastSuccessfulFill(cfg, s.fill, dependencies[i])
        case None => Idle
        case Some(t) => ReadDependencies(i + 1, current, if t < fillTo then t else fillTo)
      else Loop(current, fillTo);
    s.(runners := s.runners[p := runner])
  }

  /** The loop head: claims the next end time, or returns. */
  function LoopStatement(stat: Stat, s: State, p: string, current: Time, fillTo: Time): State {
    var next := current + stat.increment;
    if next <= fillTo then
      s.(fill := s.fill[p := FillState(next, Started)], runners := s.runners[p := AfterStart(stat, next, fillTo)])
    else
      s.(runners := s.runners[p := Idle])
  }

  /** pull_function. */
  function PullStatement(cfg: Config, s: State, p: string, next: Time, fillTo: Time): State
    requires p in cfg.stats
  {
    var stat := cfg.stats[p];
    var rows := cfg.collect(p, s.log, DependencyRows(stat, s.tables, next), next);
    InsertStep(s, p, stat.output, rows, AfterPull(stat, next, fillTo))
  }

  /** do_aggregate_to_summary_table, first statement. */
  ghost function RealmStatement(stat: Stat, s: State, p: string, next: Time, fillTo: Time): State {
    var rows := RealmRows(Slot(s.tables.Get(stat.output), p, next), p, next);
    InsertStep(MarkAggregated(s, stat, p, next), p, RealmCount, rows, AggregateInstallation(next, fillTo))
  }

  /** do_aggregate_to_summary_table, second statement. */
  ghost function InstallationStatement(stat: Stat, s: State, p: string, next: Time, fillTo: Time): State {
    var rows := InstallationRows(Slot(s.tables.realm, p, next), p, next);
    var marked := if stat.DependsOnRealm() then s else MarkAggregated(s, stat, p, next);
    InsertStep(marked, p, InstallationCount, rows, Finish(next, fillTo))
  }

  function FinishStatement(s: State, p: string, next: Time, fillTo: Time): State {
    s.(fill := s.fill[p := FillState(next, Done)], runners := s.runners[p := Loop(next, fillTo)])
  }

  /** Executes the next statement of the runner of stat `p`. */
  ghost function Next(cfg: Config, s: State, p: string): State
    requires p in cfg.stats
    requires forall d | d in cfg.stats[p].Dependencies() :: d in cfg.stats
  {
    match s.RunnerOf(p)
    case Idle => s
    case Undo(i, target, fillTo) => UndoStatement(cfg.stats[p], s, p, i, target, fillTo)
    case ReadDependencies(i, current, fillTo) => ReadStatement(cfg, s, p, i, current, fillTo)
    case Loop(current, fillTo) => LoopStatement(cfg.stats[p], s, p, current, fillTo)
    case Pull(next, fillTo) => PullStatement(cfg, s, p, next, fillTo)
    case AggregateRealm(next, fillTo) => RealmStatement(cfg.stats[p], s, p, next, fillTo)
    case AggregateInstallation(next, fillTo) => InstallationStatement(cfg.stats[p], s, p, next, fillTo)
    case Finish(next, fillTo) => FinishStatement(s, p, next, fillTo)
  }

  /** `INSERT ... ON CONFLICT DO UPDATE SET value = value + EXCLUDED.value`. */
  function Upsert(t: Rows, k: Key, realm: int, amount: int): Rows {
    t[k := if k in t then Cell(t[k].realm, t[k].value + amount) else Cell(realm, amount)]
  }

  /** do_increment_logging_stat. */
  function DoIncrement(cfg: Config, s: State, p: string, id: int, subgroup: Option<string>, eventTime: Time,
                       amount: int): State
    requires p in cfg.stats && cfg.stats[p].increment > 0
  {
    if amount == 0 then s
    else
      var stat := cfg.stats[p];
      var key := Key(p, Ceiling(stat.increment, eventTime), id, subgroup);
      var late := p in s.fill && eventTime <= s.fill[p].endTime;
      s.(tables := s.tables.Set(stat.output, Upsert(s.tables.Get(stat.output), key, cfg.home(stat.output, id), amount)),
         sent := s.sent + [Sent(key, amount, late)])
  }

  /** Which actions the environment may take in `s`. Each stat has one runner; a source event
      does not arrive in a window that a stat has already begun to fill; only logging stats are
      incremented. Nothing is asked of fill_to_time or of an increment's event time. */
  ghost predicate Admissible(cfg: Config, s: State, a: Action) {
    match a
    case Call(p, fillTo) => p in cfg.stats && s.RunnerOf(p) == Idle
    case Advance(p) => p in cfg.stats
    case Crash(p) => p in cfg.stats
    case Record(ev) => forall p | p in s.fill && p in cfg.stats && !cfg.stats[p].kind.Logging? :: s.fill[p].endTime <= ev.time
    case Increment(p, id, subgroup, eventTime, amount) => p in cfg.stats && cfg.stats[p].kind.Logging?
  }

  ghost function Step(cfg: Config, s: State, a: Action): State
    requires ValidConfig(cfg) && Admissible(cfg, s, a)
  {
    match a
    case Call(p, fillTo) => Begin(cfg, s, p, fillTo)
    case Advance(p) => assert ValidStat(cfg, p); Next(cfg, s, p)
    case Crash(p) => s.(runners := s.runners[p := Idle])
    case Record(ev) => s.(log := s.log + [ev])
    case Increment(p, id, subgroup, eventTime, amount) =>
      assert ValidStat(cfg, p);
      DoIncrement(cfg, s, p, id, subgroup, eventTime, amount)
  }

  /** The actions `run` lead from `s` to `end`. */
  ghost predicate Path(cfg: Config, s: State, run: seq<Action>, end: State)
    requires ValidConfig(cfg)
    decreases |run|
  {
    if run == [] then s == end
    else Admissible(cfg, s, run[0]) && Path(cfg, Step(cfg, s, run[0]), run[1..], end)
  }
}
