/** Calls, crashes, source events and increments keep the invariant; so every run does. */
module FillActions {
  import opened Options
  import opened Sums
  import opened CountTables
  import opened Events
  import opened FillMachine
  import opened FillInvariant
  import opened FillSteps

  ghost predicate Good(cfg: Config, s: State, p: string) {
    ValidConfig(cfg) && p in cfg.stats && ValidStat(cfg, p) && StatInv(cfg, s, p)
  }

  lemma BeginKeepsOwn(cfg: Config, s: State, p: string, fillTo: Time)
    requires Good(cfg, s, p) && s.RunnerOf(p).Idle?
    ensures StatInv(cfg, Begin(cfg, s, p, fillTo), p)
  {
    hide SlotOk;
    hide Slot;
    hide Logged;
    hide ExpectedBase;
    hide GoodCollector;
    var s' := Begin(cfg, s, p, fillTo);
    assert forall e :: PhaseAt(cfg, s', p, e) == PhaseAt(cfg, s, p, e);
    forall e, table ensures SlotInv(cfg, s', p, e, table) {
      assert SlotInv(cfg, s, p, e, table);
    }
    assert LateInv(cfg, s', p) by {
      hide PhaseAt;
      assert forall e :: Aggregated(cfg, s', p, e) == Aggregated(cfg, s, p, e);
    }
  }

  lemma BeginKeepsOther(cfg: Config, s: State, p: string, fillTo: Time, q: string)
    requires Good(cfg, s, p) && Good(cfg, s, q) && p != q
    ensures StatInv(cfg, Begin(cfg, s, p, fillTo), q)
  {
    assert CutInv(s, q);
    hide StatInv;
    hide ValidStat;
    hide GoodCollector;
    FrameStat(cfg, s, Begin(cfg, s, p, fillTo), q);
  }

  function Crashed(s: State, p: string): State {
    s.(runners := s.runners[p := Idle])
  }

  /** Whatever a cut-off run leaves behind is in the tables that the undo will clear. */
  lemma CrashLeavesUndoable(stat: Stat, slot: Rows, raw: Rows, source: Rows, phase: Phase, table: TableId, p: string,
                            e: Time)
    requires SlotOk(stat, slot, raw, source, phase, table, p, e)
    ensures SlotOk(stat, slot, raw, source, Undoing(0), table, p, e)
  {
    if !stat.kind.Logging? {
      assert stat.DeletedTables()[0] == UserCount && stat.DeletedTables()[1] == StreamCount
          && stat.DeletedTables()[2] == RealmCount && stat.DeletedTables()[3] == InstallationCount;
      assert ToDelete(stat, 0, table);
    } else {
      assert stat.DeletedTables()[0] == InstallationCount;
      assert stat.DependsOnRealm() ==> stat.DeletedTables()[1] == RealmCount;
    }
  }

  lemma CrashKeepsOwn(cfg: Config, s: State, p: string)
    requires Good(cfg, s, p)
    ensures StatInv(cfg, Crashed(s, p), p)
  {
    hide SlotOk;
    hide Slot;
    hide Logged;
    hide ExpectedBase;
    hide GoodCollector;
    var s' := Crashed(s, p);
    forall e, table ensures SlotInv(cfg, s', p, e, table) {
      assert SlotInv(cfg, s, p, e, table);
      assert PhaseAt(cfg, s', p, e) == PhaseAt(cfg, s, p, e) || PhaseAt(cfg, s', p, e) == Undoing(0);
      CrashLeavesUndoable(cfg.stats[p], Slot(s.tables.Get(table), p, e), Logged(cfg, cfg.stats[p].output, s.sent, p, e),
                          Source(cfg, s, p, e), PhaseAt(cfg, s, p, e), table, p, e);
    }
    assert LateInv(cfg, s', p) by {
      assert forall e :: Aggregated(cfg, s', p, e) ==> Aggregated(cfg, s, p, e);
      hide PhaseAt;
    }
  }

  lemma CrashKeepsOther(cfg: Config, s: State, p: string, q: string)
    requires Good(cfg, s, q) && p != q
    ensures StatInv(cfg, Crashed(s, p), q)
  {
    assert CutInv(s, q);
    hide StatInv;
    hide ValidStat;
    hide GoodCollector;
    FrameStat(cfg, s, Crashed(s, p), q);
  }

  /* Source events. */

  function Recorded(s: State, ev: Event): State {
    s.(log := s.log + [ev])
  }

  lemma RecordKeeps(cfg: Config, s: State, ev: Event, p: string)
    requires Good(cfg, s, p) && Admissible(cfg, s, Record(ev))
    ensures StatInv(cfg, Recorded(s, ev), p)
  {
    hide Slot;
    hide Logged;
    var s' := Recorded(s, ev);
    forall e, table ensures SlotInv(cfg, s', p, e, table) {
      hide Content;
      assert SlotInv(cfg, s, p, e, table);
      if PhaseAt(cfg, s, p, e) == Filled(EMPTY) {
        EmptyContent(cfg.stats[p], Source(cfg, s, p, e), table, p, e);
        EmptyContent(cfg.stats[p], Source(cfg, s', p, e), table, p, e);
      }
    }
    assert forall e :: Aggregated(cfg, s', p, e) == Aggregated(cfg, s, p, e);
  }

  /* Increments. */

  lemma UpsertSlot(t: Rows, k: Key, realm: int, amount: int, p: string, e: Time)
    ensures Slot(Upsert(t, k, realm, amount), p, e)
         == if k.property == p && k.endTime == e then Upsert(Slot(t, p, e), k, realm, amount) else Slot(t, p, e)
  {}

  lemma HistoryAppend(sent: seq<Sent>, x: Sent, p: string, e: Time)
    ensures Amounts(sent + [x], p, e)
         == if x.Hits(p, e) then Amounts(sent, p, e)[|sent| := x.amount] else Amounts(sent, p, e)
    ensures Targets(sent + [x], p, e)
         == if x.Hits(p, e) then Targets(sent, p, e)[|sent| := x.key] else Targets(sent, p, e)
    ensures |sent| !in Amounts(sent, p, e)
    ensures Amounts(sent, p, e).Keys == Targets(sent, p, e).Keys
  {}

  /** One more increment adds to its own bucket and to no other. */
  lemma LoggedAppend(cfg: Config, output: TableId, sent: seq<Sent>, x: Sent, p: string, e: Time)
    ensures Logged(cfg, output, sent + [x], p, e)
         == if x.Hits(p, e) then Upsert(Logged(cfg, output, sent, p, e), x.key, cfg.home(output, x.key.id), x.amount)
            else Logged(cfg, output, sent, p, e)
  {
    hide Grouped;
    hide Amounts;
    hide Targets;
    hide AsRows;
    hide Upsert;
    HistoryAppend(sent, x, p, e);
    var before, keys := Amounts(sent, p, e), Targets(sent, p, e);
    if x.Hits(p, e) {
      GroupedAppend(before, keys, keys[|sent| := x.key], |sent|, x.amount);
      AddToRows(cfg, output, Grouped(before, keys), x.key, x.amount);
    }
  }

  lemma AddToRows(cfg: Config, output: TableId, sums: map<Key, int>, k: Key, v: int)
    ensures AsRows(cfg, output, sums[k := (if k in sums then sums[k] else 0) + v])
         == Upsert(AsRows(cfg, output, sums), k, cfg.home(output, k.id), v)
  {}

  lemma GroupedAppend<K, G>(m: map<K, int>, g: map<K, G>, g': map<K, G>, k: K, v: int)
    requires k !in m && k in g' && m.Keys <= g.Keys && m.Keys <= g'.Keys
    requires forall j | j in m :: g[j] == g'[j]
    ensures var before := Grouped(m, g);
            Grouped(m[k := v], g') == before[g'[k] := (if g'[k] in before then before[g'[k]] else 0) + v]
  {
    GroupedSameKeys(m, g, g');
    GroupedInsert(m, g', k, v);
  }

  lemma GroupedSameKeys<K, G>(m: map<K, int>, g: map<K, G>, g': map<K, G>)
    requires m.Keys <= g.Keys && m.Keys <= g'.Keys
    requires forall k | k in m :: g[k] == g'[k]
    ensures Grouped(m, g) == Grouped(m, g')
  {
    assert forall x :: Fiber(m, g, x) == Fiber(m, g', x);
  }

  lemma IncrementKeepsOwn(cfg: Config, s: State, p: string, id: int, subgroup: Option<string>, eventTime: Time,
                          amount: int)
    requires Good(cfg, s, p) && cfg.stats[p].kind.Logging?
    ensures StatInv(cfg, DoIncrement(cfg, s, p, id, subgroup, eventTime, amount), p)
  {
    hide Slot;
    hide Logged;
    hide Upsert;
    hide ExpectedBase;
    hide Content;
    hide GoodCollector;
    if amount != 0 {
      var stat := cfg.stats[p];
      var s' := DoIncrement(cfg, s, p, id, subgroup, eventTime, amount);
      var x := s'.sent[|s.sent|];
      assert s'.sent == s.sent + [x];
      var home := cfg.home(stat.output, id);
      assert forall e :: Cut(s', p, e) == Cut(s, p, e) by { assert CutInv(s, p); }
      forall e, table ensures SlotInv(cfg, s', p, e, table) {
        assert SlotInv(cfg, s, p, e, table);
        UpsertSlot(s.tables.Get(stat.output), x.key, home, amount, p, e);
        LoggedAppend(cfg, stat.output, s.sent, x, p, e);
        assert s'.sent[..Cut(s, p, e)] == s.sent[..Cut(s, p, e)];
      }
    }
  }

  /** The rows of another stat's slots stay, and so do the increments they sum. */
  lemma IncrementKeepsSlot(cfg: Config, s: State, p: string, id: int, subgroup: Option<string>, eventTime: Time,
                           amount: int, q: string, e: Time, table: TableId)
    requires Good(cfg, s, p) && Good(cfg, s, q) && p != q
    ensures SlotInv(cfg, DoIncrement(cfg, s, p, id, subgroup, eventTime, amount), q, e, table)
  {
    hide Slot;
    hide Logged;
    hide Upsert;
    hide ExpectedBase;
    hide SlotOk;
    hide GoodCollector;
    hide LateInv;
    hide RunnerInv;
    assert SlotInv(cfg, s, q, e, table);
    if amount != 0 {
      var s', output := DoIncrement(cfg, s, p, id, subgroup, eventTime, amount), cfg.stats[q].output;
      var x := s'.sent[|s.sent|];
      assert s'.sent == s.sent + [x];
      assert Cut(s', q, e) == Cut(s, q, e) by { assert CutInv(s, q); }
      UpsertSlot(s.tables.Get(table), x.key, cfg.home(cfg.stats[p].output, id), amount, q, e);
      LoggedAppend(cfg, output, s.sent, x, q, e);
      assert s'.sent[..Cut(s, q, e)] == s.sent[..Cut(s, q, e)];
    }
  }

  lemma IncrementKeepsOther(cfg: Config, s: State, p: string, id: int, subgroup: Option<string>, eventTime: Time,
                            amount: int, q: string)
    requires Good(cfg, s, p) && Good(cfg, s, q) && p != q
    ensures StatInv(cfg, DoIncrement(cfg, s, p, id, subgroup, eventTime, amount), q)
  {
    hide Slot;
    hide Logged;
    hide Upsert;
    hide ExpectedBase;
    hide SlotInv;
    hide GoodCollector;
    if amount != 0 {
      var s' := DoIncrement(cfg, s, p, id, subgroup, eventTime, amount);
      assert s'.sent == s.sent + [s'.sent[|s.sent|]];
      assert forall e :: Cut(s', q, e) == Cut(s, q, e) by { assert CutInv(s, q); }
      forall e, table { IncrementKeepsSlot(cfg, s, p, id, subgroup, eventTime, amount, q, e, table); }
      assert LateInv(cfg, s', q) by {
        hide PhaseAt;
        assert forall e :: Aggregated(cfg, s', q, e) == Aggregated(cfg, s, q, e);
      }
    }
  }

  /* All actions. */

  lemma InitHoldsInv(cfg: Config)
    requires ValidConfig(cfg)
    ensures Inv(cfg, Init())
  {
    forall p | p in cfg.stats ensures ValidStat(cfg, p) && StatInv(cfg, Init(), p) {
      forall e, table ensures SlotInv(cfg, Init(), p, e, table) {
        var sent: seq<Sent> := [];
        assert sent[..0] == [];
        assert Amounts(sent, p, e) == map[];
        assert Logged(cfg, cfg.stats[p].output, sent, p, e) == NO_ROWS;
        EmptyContent(cfg.stats[p], Source(cfg, Init(), p, e), table, p, e);
      }
    }
  }

  lemma StepKeepsStat(cfg: Config, s: State, a: Action, q: string)
    requires ValidConfig(cfg) && Inv(cfg, s) && Admissible(cfg, s, a) && q in cfg.stats && ValidStat(cfg, q)
    ensures StatInv(cfg, Step(cfg, s, a), q)
  {
    hide StatInv;
    hide GoodCollector;
    hide Next;
    hide DoIncrement;
    match a
    case Call(p, fillTo) => if p == q { BeginKeepsOwn(cfg, s, p, fillTo); } else { BeginKeepsOther(cfg, s, p, fillTo, q); }
    case Advance(p) =>
      assert ValidStat(cfg, p);
      if p == q { NextKeepsOwn(cfg, s, p); } else { NextKeepsOther(cfg, s, p, q); }
    case Crash(p) => if p == q { CrashKeepsOwn(cfg, s, p); } else { CrashKeepsOther(cfg, s, p, q); }
    case Record(ev) => RecordKeeps(cfg, s, ev, q);
    case Increment(p, id, subgroup, eventTime, amount) =>
      if p == q { IncrementKeepsOwn(cfg, s, p, id, subgroup, eventTime, amount); }
      else { IncrementKeepsOther(cfg, s, p, id, subgroup, eventTime, amount, q); }
  }

  /** Every action of the environment and of every runner keeps the invariant of every stat. */
  lemma StepKeepsInv(cfg: Config, s: State, a: Action)
    requires ValidConfig(cfg) && Inv(cfg, s) && Admissible(cfg, s, a)
    ensures Inv(cfg, Step(cfg, s, a))
  {
    hide StatInv;
    hide GoodCollector;
    hide Next;
    forall q | q in cfg.stats ensures StatInv(cfg, Step(cfg, s, a), q) {
      StepKeepsStat(cfg, s, a, q);
    }
    if a.Advance? {
      assert ValidStat(cfg, a.p);
      NextKeepsOwn(cfg, s, a.p);
    }
  }

  /** The invariant holds after every run. */
  lemma {:induction false} PathKeepsInv(cfg: Config, s: State, run: seq<Action>, end: State)
    requires ValidConfig(cfg) && Inv(cfg, s) && Path(cfg, s, run, end)
    ensures Inv(cfg, end)
    decreases |run|
  {
    if run != [] {
      StepKeepsInv(cfg, s, run[0]);
      PathKeepsInv(cfg, Step(cfg, s, run[0]), run[1..], end);
    }
  }

  lemma {:induction false} PathAppend(cfg: Config, s: State, run: seq<Action>, mid: State, a: Action)
    requires ValidConfig(cfg) && Path(cfg, s, run, mid) && Admissible(cfg, mid, a)
    ensures Path(cfg, s, run + [a], Step(cfg, mid, a))
    decreases |run|
  {
    hide GoodCollector;
    if run == [] {
      assert [a][1..] == [];
    } else {
      PathAppend(cfg, Step(cfg, s, run[0]), run[1..], mid, a);
      assert (run + [a])[1..] == run[1..] + [a];
    }
  }
}
