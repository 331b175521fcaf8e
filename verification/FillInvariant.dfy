/** The inductive invariant of the fill machine: what the four tables hold for every stat and
    every end time, at every point between two writes. */
module FillInvariant {
  import opened Options
  import opened Sums
  import opened CountTables
  import opened Events
  import opened FillMachine

  /** `e` is one of the end times the stat is filled at. */
  predicate OnGrid(cfg: Config, stat: Stat, e: Time)
    requires stat.increment > 0
  {
    e > cfg.epoch && (e - cfg.epoch) % stat.increment == 0
  }

  /** The amounts sent to slot (p, e), by position in the history, and the row each one hits. */
  function Amounts(sent: seq<Sent>, p: string, e: Time): map<int, int> {
    map i: int | 0 <= i < |sent| && sent[i].Hits(p, e) :: sent[i].amount
  }

  function Targets(sent: seq<Sent>, p: string, e: Time): map<int, Key> {
    map i: int | 0 <= i < |sent| && sent[i].Hits(p, e) :: sent[i].key
  }

  /** The raw rows of a logging stat: for each bucket, the sum of the increments sent to it. */
  ghost function Logged(cfg: Config, output: TableId, sent: seq<Sent>, p: string, e: Time): Rows {
    AsRows(cfg, output, Grouped(Amounts(sent, p, e), Targets(sent, p, e)))
  }

  function AsRows(cfg: Config, output: TableId, sums: map<Key, int>): Rows {
    map k | k in sums :: Cell(cfg.home(output, k.id), sums[k])
  }

  /** The rows of the dependency's slot in a clean fill. */
  ghost function ExpectedInput(cfg: Config, stat: Stat, log: seq<Event>, e: Time): Rows {
    if stat.kind.Dependent? then cfg.collect(stat.kind.source, log, NO_ROWS, e) else NO_ROWS
  }

  /** The base rows of slot (p, e) in a clean fill of a non-logging stat. */
  ghost function ExpectedBase(cfg: Config, log: seq<Event>, p: string, e: Time): Rows
    requires p in cfg.stats
  {
    cfg.collect(p, log, ExpectedInput(cfg, cfg.stats[p], log, e), e)
  }

  function Cut(s: State, p: string, e: Time): (n: nat)
    ensures n <= |s.sent|
  {
    if (p, e) in s.cuts && s.cuts[(p, e)] <= |s.sent| then s.cuts[(p, e)] else 0
  }

  /** The base rows from which the aggregated rows of slot (p, e) are to be computed. */
  ghost function Source(cfg: Config, s: State, p: string, e: Time): Rows
    requires p in cfg.stats
  {
    if cfg.stats[p].kind.Logging? then Logged(cfg, cfg.stats[p].output, s.sent[..Cut(s, p, e)], p, e)
    else ExpectedBase(cfg, s.log, p, e)
  }

  /** How far a slot is filled: nothing, base rows, realm rows, installation rows. */
  type Level = n: nat | n <= 3

  const EMPTY: Level := 0
  const PULLED: Level := 1
  const REALM: Level := 2
  const COMPLETE: Level := 3

  /** The rows of one table at one slot, given its base rows and how far it is filled. */
  ghost function Content(stat: Stat, base: Rows, level: Level, table: TableId, p: string, e: Time): Rows {
    if table == stat.output then
      if level >= PULLED then base else NO_ROWS
    else if table == RealmCount && stat.DependsOnRealm() then
      if level >= REALM then RealmRows(base, p, e) else NO_ROWS
    else if table == InstallationCount then
      if level >= COMPLETE then
        InstallationRows(if stat.DependsOnRealm() then RealmRows(base, p, e) else base, p, e)
      else NO_ROWS
    else NO_ROWS
  }

  /** How far slot (p, e) is: being undone, with that many tables cleared, or filled. */
  datatype Phase = Undoing(cleared: nat) | Filled(level: Level)

  function PhaseAt(cfg: Config, s: State, p: string, e: Time): Phase
    requires p in cfg.stats && cfg.stats[p].increment > 0
  {
    if p !in s.fill || !OnGrid(cfg, cfg.stats[p], e) || e > s.fill[p].endTime then Filled(EMPTY)
    else if e < s.fill[p].endTime || s.fill[p].status == Done then Filled(COMPLETE)
    else StartedPhase(s.RunnerOf(p))
  }

  /** The phase of the slot that FillState calls STARTED. */
  function StartedPhase(runner: Runner): Phase {
    match runner
    case Undo(deleted, _, _) => Undoing(deleted)
    case Pull(_, _) => Filled(EMPTY)
    case AggregateRealm(_, _) => Filled(PULLED)
    case AggregateInstallation(_, _) => Filled(REALM)
    case Finish(_, _) => Filled(COMPLETE)
    case _ => Undoing(0)
  }

  /** The undo still has to clear `table`. */
  predicate ToDelete(stat: Stat, cleared: nat, table: TableId) {
    exists i | cleared <= i < |stat.DeletedTables()| :: stat.DeletedTables()[i] == table
  }

  /** What one table holds at one slot: a logging stat's raw rows are never undone; every other
      table is empty, partly undone, or filled from the base rows `source`. */
  ghost predicate SlotOk(stat: Stat, slot: Rows, raw: Rows, source: Rows, phase: Phase, table: TableId, p: string,
                         e: Time) {
    if stat.kind.Logging? && table == stat.output then slot == raw
    else match phase
    case Undoing(cleared) => ToDelete(stat, cleared, table) || slot == NO_ROWS
    case Filled(level) => slot == Content(stat, source, level, table, p, e)
  }

  ghost predicate SlotInv(cfg: Config, s: State, p: string, e: Time, table: TableId)
    requires p in cfg.stats && cfg.stats[p].increment > 0
  {
    SlotOk(cfg.stats[p], Slot(s.tables.Get(table), p, e), Logged(cfg, cfg.stats[p].output, s.sent, p, e),
           Source(cfg, s, p, e), PhaseAt(cfg, s, p, e), table, p, e)
  }

  /** fill_to_time has been capped by dependency `d`. */
  predicate Capped(cfg: Config, s: State, d: string, fillTo: Time) {
    d in cfg.stats && d in s.fill && fillTo <= LastSuccessfulFill(cfg, s.fill, d).value
  }

  /** A runner's local variables agree with its FillState. */
  ghost predicate RunnerInv(cfg: Config, s: State, p: string)
    requires p in cfg.stats
  {
    var stat := cfg.stats[p];
    var runner := s.RunnerOf(p);
    && (!runner.Idle? ==> p in s.fill)
    && (match runner
        case Idle => true
        case Undo(i, target, _) => s.fill[p] == FillState(target, Started) && i <= |stat.DeletedTables()|
        case ReadDependencies(i, current, fillTo) =>
          && s.fill[p] == FillState(current, Done) && i <= |stat.Dependencies()|
          && (forall j | 0 <= j < i :: Capped(cfg, s, stat.Dependencies()[j], fillTo))
        case Loop(current, fillTo) =>
          && s.fill[p] == FillState(current, Done)
          && (forall d | d in stat.Dependencies() :: Capped(cfg, s, d, fillTo))
        case _ =>
          && s.fill[p] == FillState(runner.next, Started) && runner.next <= runner.fillTo
          && (forall d | d in stat.Dependencies() :: Capped(cfg, s, d, runner.fillTo))
          && (runner.Pull? ==> !stat.kind.Logging?)
          && (runner.AggregateRealm? ==> stat.DependsOnRealm()))
  }

  /** FillState is the epoch or a grid point, and the epoch only when DONE. */
  predicate FillInv(cfg: Config, s: State, p: string)
    requires p in cfg.stats && cfg.stats[p].increment > 0
  {
    p in s.fill ==>
      OnGrid(cfg, cfg.stats[p], s.fill[p].endTime) || (s.fill[p] == FillState(cfg.epoch, Done))
  }

  /** The aggregated rows of (p, e) exist. */
  predicate Aggregated(cfg: Config, s: State, p: string, e: Time)
    requires p in cfg.stats && cfg.stats[p].increment > 0
  {
    var phase := PhaseAt(cfg, s, p, e);
    phase.Filled? && phase.level >= (if cfg.stats[p].DependsOnRealm() then REALM else COMPLETE)
  }

  /** Every increment that missed an aggregation was sent after its window had been claimed. */
  ghost predicate LateInv(cfg: Config, s: State, p: string)
    requires p in cfg.stats && cfg.stats[p].increment > 0
  {
    cfg.stats[p].kind.Logging? ==>
      forall e, i | Cut(s, p, e) <= i < |s.sent| && s.sent[i].Hits(p, e) && Aggregated(cfg, s, p, e) :: s.sent[i].late
  }

  ghost predicate CutInv(s: State, p: string) {
    forall e | (p, e) in s.cuts :: s.cuts[(p, e)] <= |s.sent|
  }

  ghost predicate StatInv(cfg: Config, s: State, p: string)
    requires p in cfg.stats && cfg.stats[p].increment > 0
  {
    && FillInv(cfg, s, p)
    && RunnerInv(cfg, s, p)
    && (forall e, table :: SlotInv(cfg, s, p, e, table))
    && CutInv(s, p) && LateInv(cfg, s, p)
  }

  ghost predicate Inv(cfg: Config, s: State)
    requires ValidConfig(cfg)
  {
    && s.integrityErrors == 0
    && (forall p | p in cfg.stats :: ValidStat(cfg, p) && StatInv(cfg, s, p))
  }
}
