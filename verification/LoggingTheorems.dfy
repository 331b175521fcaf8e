/** Logging stats: live increments are conserved through every fill, crash and undo. */
module LoggingTheorems {
  import opened Options
  import opened Sums
  import opened CountTables
  import opened Events
  import opened FillMachine
  import opened FillInvariant
  import opened FillSteps
  import opened FillActions
  import opened FillTheorems

  /** The increments from position `first` on that were sent to slot (p, e) for this subgroup,
      and for this user, stream or realm if one is given. */
  function Selected(sent: seq<Sent>, first: nat, p: string, e: Time, id: Option<int>,
                    subgroup: Option<string>): map<int, int> {
    map i: int | 0 <= i < |sent| && first <= i && sent[i].Hits(p, e) && sent[i].key.subgroup == subgroup
                 && (id.None? || id.value == sent[i].key.id) :: sent[i].amount
  }

  lemma LoggedIsSum(cfg: Config, output: TableId, sent: seq<Sent>, p: string, e: Time, id: int,
                    subgroup: Option<string>)
    ensures var k, selected := Key(p, e, id, subgroup), Selected(sent, 0, p, e, Some(id), subgroup);
            var rows := Logged(cfg, output, sent, p, e);
            (k in rows <==> selected != map[]) && (k in rows ==> rows[k] == Cell(cfg.home(output, id), Sum(selected)))
  {
    hide Sum;
    hide Grouped;
    var k, selected := Key(p, e, id, subgroup), Selected(sent, 0, p, e, Some(id), subgroup);
    assert Fiber(Amounts(sent, p, e), Targets(sent, p, e), k) == selected;
    GroupedAt(Amounts(sent, p, e), Targets(sent, p, e), k);
  }

  /** The raw value of each bucket of a logging stat is the sum of the increments sent to it,
      after every interleaving of increments, fills, crashes and undos. */
  lemma RawValueIsSumOfSent(cfg: Config, s: State, p: string, e: Time, id: int, subgroup: Option<string>)
    requires Reachable(cfg, s) && p in cfg.stats && cfg.stats[p].kind.Logging?
    ensures var rows, k := s.tables.Get(cfg.stats[p].output), Key(p, e, id, subgroup);
            var selected := Selected(s.sent, 0, p, e, Some(id), subgroup);
            (k in rows <==> selected != map[])
            && (k in rows ==> rows[k] == Cell(cfg.home(cfg.stats[p].output, id), Sum(selected)))
  {
    hide Logged;
    hide Selected;
    hide Sum;
    hide Reachable;
    ReachableInv(cfg, s);
    assert ValidStat(cfg, p);
    var output := cfg.stats[p].output;
    assert SlotInv(cfg, s, p, e, output);
    LoggedIsSum(cfg, output, s.sent, p, e, id, subgroup);
    var rows, k := s.tables.Get(output), Key(p, e, id, subgroup);
    assert k in rows <==> k in Slot(rows, p, e);
  }

  /** The InstallationCount row each selected increment ends up in. */
  function SubgroupTargets(sent: seq<Sent>, p: string, e: Time): map<int, Key> {
    map i: int | 0 <= i < |sent| && sent[i].Hits(p, e) :: Key(p, e, 0, sent[i].key.subgroup)
  }

  lemma FiberIsSelected(sent: seq<Sent>, p: string, e: Time, subgroup: Option<string>)
    ensures Fiber(Amounts(sent, p, e), SubgroupTargets(sent, p, e), Key(p, e, 0, subgroup))
         == Selected(sent, 0, p, e, None, subgroup)
  {}

  /** Aggregating logged rows up to the installation sums the increments per subgroup. */
  lemma InstallationOfLogged(cfg: Config, output: TableId, sent: seq<Sent>, p: string, e: Time,
                             subgroup: Option<string>)
    ensures var k, selected := Key(p, e, 0, subgroup), Selected(sent, 0, p, e, None, subgroup);
            var rows := InstallationRows(Logged(cfg, output, sent, p, e), p, e);
            (k in rows <==> selected != map[]) && (k in rows ==> rows[k] == Cell(0, Sum(selected)))
  {
    hide Sum;
    hide Grouped;
    hide Fiber;
    var amounts, targets := Amounts(sent, p, e), Targets(sent, p, e);
    var logged := Logged(cfg, output, sent, p, e);
    var groups := SubgroupTargets(sent, p, e);
    assert Values(logged) == Grouped(amounts, targets);
    forall i | i in amounts { InGrouped(amounts, targets, i); }
    GroupedTwice(amounts, targets, InstallationKeys(logged, p, e), groups);
    FiberIsSelected(sent, p, e, subgroup);
    GroupedAt(amounts, groups, Key(p, e, 0, subgroup));
  }

  /** FillState has reached the grid point `e` and its fill is complete. */
  predicate Covered(cfg: Config, s: State, p: string, e: Time)
    requires p in cfg.stats && cfg.stats[p].increment > 0
  {
    OnGrid(cfg, cfg.stats[p], e) && Capped(cfg, s, p, e)
  }

  /** The InstallationCount row of a covered end time is the sum of exactly those increments
      that had been sent when it was last aggregated. */
  lemma InstallationIsSumOfCut(cfg: Config, s: State, p: string, e: Time, subgroup: Option<string>)
    requires ValidConfig(cfg) && Inv(cfg, s) && p in cfg.stats && cfg.stats[p].kind.Logging? && cfg.stats[p].increment > 0
    requires Covered(cfg, s, p, e)
    ensures var k, selected := Key(p, e, 0, subgroup), Selected(s.sent[..Cut(s, p, e)], 0, p, e, None, subgroup);
            (k in s.tables.installation <==> selected != map[])
            && (k in s.tables.installation ==> s.tables.installation[k] == Cell(0, Sum(selected)))
  {
    hide GoodCollector;
    hide Logged;
    hide Selected;
    hide Sum;
    hide RealmRows;
    hide InstallationRows;
    assert ValidStat(cfg, p);
    CoveredIsComplete(cfg, s, p, e);
    var stat, logged := cfg.stats[p], Logged(cfg, cfg.stats[p].output, s.sent[..Cut(s, p, e)], p, e);
    assert SlotInv(cfg, s, p, e, InstallationCount);
    TwoLevelAggregation(logged, p, e);
    InstallationOfLogged(cfg, stat.output, s.sent[..Cut(s, p, e)], p, e, subgroup);
    var k := Key(p, e, 0, subgroup);
    assert k in s.tables.installation <==> k in Slot(s.tables.installation, p, e);
  }

  lemma SelectedSplits(sent: seq<Sent>, cut: nat, p: string, e: Time, id: Option<int>, subgroup: Option<string>)
    requires cut <= |sent|
    ensures Sum(Selected(sent, 0, p, e, id, subgroup))
         == Sum(Selected(sent[..cut], 0, p, e, id, subgroup)) + Sum(Selected(sent, cut, p, e, id, subgroup))
  {
    hide Sum;
    var early, late := Selected(sent[..cut], 0, p, e, id, subgroup), Selected(sent, cut, p, e, id, subgroup);
    assert Selected(sent, 0, p, e, id, subgroup) == early + late;
    SumUnion(early, late);
  }

  /** Exact accounting, for every run: what InstallationCount misses at a covered end time are
      the increments sent after its aggregation, and each of those was sent when FillState had
      already reached its event time. The row equals the sum of all increments if and only if
      the missed ones add up to nothing. */
  lemma InstallationAccounting(cfg: Config, s: State, p: string, e: Time, subgroup: Option<string>)
    requires Reachable(cfg, s) && p in cfg.stats && cfg.stats[p].kind.Logging?
    ensures cfg.stats[p].increment > 0
    ensures Covered(cfg, s, p, e) ==>
              var value := ValueAt(s.tables.installation, Key(p, e, 0, subgroup));
              var all := Sum(Selected(s.sent, 0, p, e, None, subgroup));
              var missed := Selected(s.sent, Cut(s, p, e), p, e, None, subgroup);
              && value + Sum(missed) == all
              && (value == all <==> Sum(missed) == 0)
              && (forall i | i in missed :: s.sent[i].late)
  {
    hide GoodCollector;
    hide Sum;
    hide Reachable;
    hide SlotInv;
    ReachableInv(cfg, s);
    assert ValidStat(cfg, p);
    if Covered(cfg, s, p, e) {
      InstallationIsSumOfCut(cfg, s, p, e, subgroup);
      SelectedSplits(s.sent, Cut(s, p, e), p, e, None, subgroup);
      CoveredIsComplete(cfg, s, p, e);
      assert Aggregated(cfg, s, p, e);
      EmptySum();
    }
  }

  lemma EmptySum()
    ensures var nothing: map<int, int> := map[]; Sum(nothing) == 0
  {}

  /** When every increment to a bucket came before FillState reached its event time, the
      InstallationCount row is the sum of them all. */
  lemma OnTimeSentAreCounted(cfg: Config, s: State, p: string, e: Time, subgroup: Option<string>)
    requires Reachable(cfg, s) && p in cfg.stats && cfg.stats[p].kind.Logging? && cfg.stats[p].increment > 0
    requires Covered(cfg, s, p, e)
    requires forall i | 0 <= i < |s.sent| && s.sent[i].Hits(p, e) :: !s.sent[i].late
    ensures var k, all := Key(p, e, 0, subgroup), Selected(s.sent, 0, p, e, None, subgroup);
            (k in s.tables.installation <==> all != map[])
            && (k in s.tables.installation ==> s.tables.installation[k] == Cell(0, Sum(all)))
  {
    hide GoodCollector;
    hide Sum;
    hide Reachable;
    hide SlotInv;
    ReachableInv(cfg, s);
    InstallationAccounting(cfg, s, p, e, subgroup);
    InstallationIsSumOfCut(cfg, s, p, e, subgroup);
    var cut := Cut(s, p, e);
    assert Selected(s.sent, cut, p, e, None, subgroup) == map[];
    assert Selected(s.sent, 0, p, e, None, subgroup) == Selected(s.sent[..cut], 0, p, e, None, subgroup);
  }

  /* Aggregations of covered end times are final. */

  /** No statement, call, crash, source row or increment touches the aggregation of a covered end time. */
  lemma StepKeepsCut(cfg: Config, s: State, a: Action, p: string, e: Time)
    requires ValidConfig(cfg) && Inv(cfg, s) && Admissible(cfg, s, a)
    requires p in cfg.stats && cfg.stats[p].increment > 0 && Covered(cfg, s, p, e)
    ensures Cut(Step(cfg, s, a), p, e) == Cut(s, p, e) && s.sent <= Step(cfg, s, a).sent
  {
    hide GoodCollector;
    hide SlotInv;
    hide LateInv;
    assert ValidStat(cfg, p);
    match a
    case Advance(q) =>
      assert ValidStat(cfg, q);
      NextIsLocal(cfg, s, q);
      if q == p {
        NextKeepsCut(cfg, s, p, e);
      }
    case Increment(_, _, _, _, _) => assert CutInv(s, p);
    case _ =>
  }

  /** Only the aggregation statements mark an end time, the one that is being filled. */
  lemma NextCuts(cfg: Config, s: State, p: string)
    requires p in cfg.stats && forall d | d in cfg.stats[p].Dependencies() :: d in cfg.stats
    ensures var r, s' := s.RunnerOf(p), Next(cfg, s, p);
            && s'.sent == s.sent
            && (s'.cuts == s.cuts
                || ((r.AggregateRealm? || r.AggregateInstallation?) && s'.cuts == s.cuts[(p, r.next) := |s.sent|]))
  {
    hide Insert;
    hide Slot;
    hide DeleteAt;
    hide RealmRows;
    hide InstallationRows;
    hide LastSuccessfulFill;
  }

  lemma NextKeepsCut(cfg: Config, s: State, p: string, e: Time)
    requires ValidConfig(cfg) && p in cfg.stats && ValidStat(cfg, p) && RunnerInv(cfg, s, p) && Covered(cfg, s, p, e)
    requires forall d | d in cfg.stats[p].Dependencies() :: d in cfg.stats
    ensures Cut(Next(cfg, s, p), p, e) == Cut(s, p, e)
  {
    NextCuts(cfg, s, p);
    hide Next;
    hide GoodCollector;
  }

  /** Nor does any run; and the history only grows. */
  lemma {:induction false} CutIsFinal(cfg: Config, s: State, run: seq<Action>, end: State, p: string, e: Time)
    requires ValidConfig(cfg) && Inv(cfg, s) && Path(cfg, s, run, end)
    requires p in cfg.stats && cfg.stats[p].increment > 0 && Covered(cfg, s, p, e)
    ensures Cut(end, p, e) == Cut(s, p, e) && s.sent <= end.sent && Covered(cfg, end, p, e)
    decreases |run|
  {
    hide StatInv;
    hide GoodCollector;
    hide Cut;
    hide Capped;
    if run != [] {
      StepKeepsInv(cfg, s, run[0]);
      StepKeepsCut(cfg, s, run[0], p, e);
      StepProgress(cfg, s, run[0], p, e);
      CutIsFinal(cfg, Step(cfg, s, run[0]), run[1..], end, p, e);
    }
  }

  /** The RealmCount and InstallationCount rows of a covered end time of a logging stat are final:
      no later fill, undo, crash or increment changes them. */
  lemma LoggedRowsAreFinal(cfg: Config, s: State, run: seq<Action>, end: State, p: string, e: Time, table: TableId)
    requires ValidConfig(cfg) && Inv(cfg, s) && Path(cfg, s, run, end)
    requires p in cfg.stats && cfg.stats[p].kind.Logging? && cfg.stats[p].increment > 0 && Covered(cfg, s, p, e)
    requires table != cfg.stats[p].output
    ensures Slot(end.tables.Get(table), p, e) == Slot(s.tables.Get(table), p, e)
  {
    hide Path;
    hide GoodCollector;
    hide Slot;
    hide Logged;
    hide RealmRows;
    hide InstallationRows;
    hide Cut;
    hide PhaseAt;
    hide LateInv;
    hide RunnerInv;
    CutIsFinal(cfg, s, run, end, p, e);
    PathKeepsInv(cfg, s, run, end);
    assert ValidStat(cfg, p);
    CoveredIsComplete(cfg, s, p, e);
    CoveredIsComplete(cfg, end, p, e);
    assert SlotInv(cfg, s, p, e, table) && SlotInv(cfg, end, p, e, table);
    assert end.sent[..Cut(s, p, e)] == s.sent[..Cut(s, p, e)];
  }

  /* Which increments are counted. */

  /** The increment at position `i` is one that InstallationIsSumOfCut sums. */
  predicate Counted(s: State, p: string, e: Time, i: int) {
    i < Cut(s, p, e)
  }

  /** The stat is filling the very end time that an increment would go to. */
  predicate BeingFilled(cfg: Config, s: State, p: string, eventTime: Time)
    requires p in cfg.stats && cfg.stats[p].increment > 0
  {
    p in s.fill && s.fill[p].status == Started && DueAt(cfg.stats[p].increment, eventTime, s.fill[p].endTime)
  }

  /** FillState, when the increment is sent, has reached its event time. */
  predicate TooLate(s: State, p: string, eventTime: Time) {
    p in s.fill && eventTime <= s.fill[p].endTime
  }

  /** A late increment goes to an end time that is covered, being filled, or never filled. */
  lemma LateIsCovered(cfg: Config, s: State, p: string, eventTime: Time, e: Time)
    requires p in cfg.stats && ValidConfig(cfg) && ValidStat(cfg, p) && FillInv(cfg, s, p)
    requires TooLate(s, p, eventTime) && !BeingFilled(cfg, s, p, eventTime) && DueAt(cfg.stats[p].increment, eventTime, e)
    ensures OnGrid(cfg, cfg.stats[p], e) ==> Covered(cfg, s, p, e)
  {
    hide GoodCollector;
    var stat, t := cfg.stats[p], s.fill[p].endTime;
    CeilingIsDue(stat.increment, eventTime);
    hide Ceiling;
    CeilingIsNext(stat.increment, cfg.epoch, eventTime, t);
    if OnGrid(cfg, stat, e) && s.fill[p].status == Started {
      GridGap(cfg, stat, e, t);
    }
  }

  lemma CeilingIsNext(step: Time, epoch: Time, eventTime: Time, t: Time)
    requires (step == HOUR || step == DAY) && epoch % DAY == 0 && eventTime <= t && (t - epoch) % step == 0
    ensures Ceiling(step, eventTime) <= t
  {
    if step == HOUR {} else {}
  }

  /** Exactly which increments are counted, at every later time when their end time is covered: those
      whose event time FillState had not reached when they were sent. Only for an increment to the very
      end time being filled does it depend on whether the aggregation is still to come. */
  lemma CountedIff(cfg: Config, s: State, p: string, id: int, subgroup: Option<string>, eventTime: Time, amount: int,
                   e: Time, run: seq<Action>, end: State)
    requires ValidConfig(cfg) && Inv(cfg, s) && p in cfg.stats && cfg.stats[p].kind.Logging? && cfg.stats[p].increment > 0
    requires amount != 0 && !BeingFilled(cfg, s, p, eventTime) && DueAt(cfg.stats[p].increment, eventTime, e)
    requires Path(cfg, DoIncrement(cfg, s, p, id, subgroup, eventTime, amount), run, end)
    requires Covered(cfg, end, p, e)
    ensures var i := |s.sent|;
            && i < |end.sent| && end.sent[i] == Sent(Key(p, e, id, subgroup), amount, TooLate(s, p, eventTime))
            && (Counted(end, p, e, i) <==> !TooLate(s, p, eventTime))
  {
    hide GoodCollector;
    hide SlotInv;
    hide RunnerInv;
    hide Path;
    var a, i := Increment(p, id, subgroup, eventTime, amount), |s.sent|;
    assert ValidStat(cfg, p);
    CeilingIsDue(cfg.stats[p].increment, eventTime);
    var s' := Step(cfg, s, a);
    StepKeepsInv(cfg, s, a);
    HistoryGrows(cfg, s', run, end);
    if TooLate(s, p, eventTime) {
      LateIsCovered(cfg, s, p, eventTime, e);
      assert Covered(cfg, s', p, e);
      CutIsFinal(cfg, s', run, end, p, e);
      assert CutInv(s, p);
    } else {
      PathKeepsInv(cfg, s', run, end);
      CoveredIsComplete(cfg, end, p, e);
      assert Aggregated(cfg, end, p, e) && LateInv(cfg, end, p);
      assert end.sent[i].Hits(p, e);
    }
  }

  lemma {:induction false} HistoryGrows(cfg: Config, s: State, run: seq<Action>, end: State)
    requires ValidConfig(cfg) && Inv(cfg, s) && Path(cfg, s, run, end)
    ensures s.sent <= end.sent
    decreases |run|
  {
    hide StatInv;
    hide GoodCollector;
    if run != [] {
      StepKeepsInv(cfg, s, run[0]);
      if run[0].Advance? {
        assert ValidStat(cfg, run[0].p);
        NextIsLocal(cfg, s, run[0].p);
      }
      hide Next;
      HistoryGrows(cfg, Step(cfg, s, run[0]), run[1..], end);
    }
  }

  /** So an increment to a covered bucket is missed for good: in every later state its
      InstallationCount rows are still those of before, while the bucket's total includes it. */
  lemma LateIncrementIsMissed(cfg: Config, s: State, p: string, id: int, subgroup: Option<string>, eventTime: Time,
                              amount: int, e: Time, run: seq<Action>, end: State)
    requires ValidConfig(cfg) && Inv(cfg, s) && p in cfg.stats && cfg.stats[p].kind.Logging? && cfg.stats[p].increment > 0
    requires amount != 0 && DueAt(cfg.stats[p].increment, eventTime, e) && Covered(cfg, s, p, e)
    requires Path(cfg, DoIncrement(cfg, s, p, id, subgroup, eventTime, amount), run, end)
    ensures && Slot(end.tables.installation, p, e) == Slot(s.tables.installation, p, e)
            && |s.sent| in Selected(end.sent, 0, p, e, None, subgroup)
            && |s.sent| !in Selected(end.sent[..Cut(end, p, e)], 0, p, e, None, subgroup)
  {
    hide GoodCollector;
    hide SlotInv;
    hide RunnerInv;
    hide Path;
    hide Slot;
    var a := Increment(p, id, subgroup, eventTime, amount);
    assert ValidStat(cfg, p);
    CeilingIsDue(cfg.stats[p].increment, eventTime);
    var s' := Step(cfg, s, a);
    StepKeepsInv(cfg, s, a);
    StepKeepsCut(cfg, s, a, p, e);
    assert Covered(cfg, s', p, e);
    CutIsFinal(cfg, s', run, end, p, e);
    LoggedRowsAreFinal(cfg, s', run, end, p, e, InstallationCount);
    assert CutInv(s, p);
  }

  /* When InstallationCount is the sum of all increments. */

  /** No increment of `p` is sent to the very end time that is being filled. */
  ghost predicate QuietPath(cfg: Config, s: State, run: seq<Action>, p: string)
    requires ValidConfig(cfg) && p in cfg.stats && cfg.stats[p].increment > 0
    decreases |run|
  {
    run != [] ==>
      && Admissible(cfg, s, run[0])
      && (run[0].Increment? && run[0].p == p ==> !BeingFilled(cfg, s, p, run[0].eventTime))
      && QuietPath(cfg, Step(cfg, s, run[0]), run[1..], p)
  }

  /** Every late increment came after the final aggregation of its end time. */
  ghost predicate QuietInv(cfg: Config, s: State, p: string)
    requires p in cfg.stats && cfg.stats[p].increment > 0
  {
    forall e, i | 0 <= i < |s.sent| && s.sent[i].Hits(p, e) && s.sent[i].late && OnGrid(cfg, cfg.stats[p], e) ::
      Capped(cfg, s, p, e) && Cut(s, p, e) <= i
  }

  lemma StepKeepsQuiet(cfg: Config, s: State, a: Action, p: string)
    requires ValidConfig(cfg) && Inv(cfg, s) && Admissible(cfg, s, a) && p in cfg.stats && cfg.stats[p].increment > 0
    requires a.Increment? && a.p == p ==> !BeingFilled(cfg, s, p, a.eventTime)
    requires QuietInv(cfg, s, p)
    ensures QuietInv(cfg, Step(cfg, s, a), p)
  {
    hide GoodCollector;
    hide SlotInv;
    hide LateInv;
    hide RunnerInv;
    hide Step;
    var s' := Step(cfg, s, a);
    forall e, i | 0 <= i < |s'.sent| && s'.sent[i].Hits(p, e) && s'.sent[i].late && OnGrid(cfg, cfg.stats[p], e)
      ensures Capped(cfg, s', p, e) && Cut(s', p, e) <= i
    {
      NewOrOld(cfg, s, a);
      if i < |s.sent| {
        assert s'.sent[i] == s.sent[i];
      } else {
        assert ValidStat(cfg, p);
        CeilingIsDue(cfg.stats[p].increment, a.eventTime);
        LateIsCovered(cfg, s, p, a.eventTime, e);
        assert CutInv(s, p);
      }
      assert Covered(cfg, s, p, e);
      StepKeepsCut(cfg, s, a, p, e);
      StepProgress(cfg, s, a, p, e);
    }
  }

  /** The history entry of an increment. */
  predicate Appended(cfg: Config, s: State, s': State, a: Action)
    requires a.Increment?
  {
    && a.p in cfg.stats && cfg.stats[a.p].increment > 0 && a.amount != 0 && s'.fill == s.fill && s'.cuts == s.cuts
    && s'.sent == s.sent + [Sent(Key(a.p, Ceiling(cfg.stats[a.p].increment, a.eventTime), a.id, a.subgroup), a.amount,
                                 TooLate(s, a.p, a.eventTime))]
  }

  /** Only an increment adds to the history, and it adds one entry. */
  lemma NewOrOld(cfg: Config, s: State, a: Action)
    requires ValidConfig(cfg) && Inv(cfg, s) && Admissible(cfg, s, a)
    ensures var s' := Step(cfg, s, a);
            && s.sent <= s'.sent && |s'.sent| <= |s.sent| + 1
            && (|s'.sent| > |s.sent| ==> a.Increment? && Appended(cfg, s, s', a))
  {
    hide StatInv;
    hide GoodCollector;
    if a.Advance? {
      assert ValidStat(cfg, a.p);
      NextIsLocal(cfg, s, a.p);
    }
    hide Next;
  }

  lemma {:induction false} PathKeepsQuiet(cfg: Config, s: State, run: seq<Action>, end: State, p: string)
    requires ValidConfig(cfg) && Inv(cfg, s) && Path(cfg, s, run, end) && p in cfg.stats && cfg.stats[p].increment > 0
    requires QuietPath(cfg, s, run, p) && QuietInv(cfg, s, p)
    ensures QuietInv(cfg, end, p)
    decreases |run|
  {
    hide StatInv;
    hide GoodCollector;
    hide QuietInv;
    hide BeingFilled;
    if run != [] {
      StepKeepsInv(cfg, s, run[0]);
      StepKeepsQuiet(cfg, s, run[0], p);
      PathKeepsQuiet(cfg, Step(cfg, s, run[0]), run[1..], end, p);
    }
  }

  /** The increments for a subgroup that were on time, or late, when they were sent. */
  function SentWhen(sent: seq<Sent>, late: bool, p: string, e: Time, subgroup: Option<string>): map<int, int> {
    map i: int | 0 <= i < |sent| && sent[i].Hits(p, e) && sent[i].key.subgroup == subgroup && sent[i].late == late :: sent[i].amount
  }

  /** When no increment goes to an end time just being filled, the InstallationCount row of a covered
      end time is the sum of exactly the increments whose event time FillState had not reached when
      they were sent; so it is the sum of them all exactly when the others add up to nothing. */
  lemma InstallationIsSumOfOnTimeSent(cfg: Config, run: seq<Action>, s: State, p: string, e: Time, subgroup: Option<string>)
    requires ValidConfig(cfg) && Path(cfg, Init(), run, s) && p in cfg.stats && cfg.stats[p].kind.Logging?
    requires cfg.stats[p].increment > 0 && QuietPath(cfg, Init(), run, p) && Covered(cfg, s, p, e)
    ensures var k, onTime := Key(p, e, 0, subgroup), SentWhen(s.sent, false, p, e, subgroup);
            var all, late := Selected(s.sent, 0, p, e, None, subgroup), SentWhen(s.sent, true, p, e, subgroup);
            && (k in s.tables.installation <==> onTime != map[])
            && (k in s.tables.installation ==> s.tables.installation[k] == Cell(0, Sum(onTime)))
            && (ValueAt(s.tables.installation, k) == Sum(all) <==> Sum(late) == 0)
  {
    hide GoodCollector;
    hide Sum;
    hide SlotInv;
    hide RunnerInv;
    hide Path;
    hide QuietPath;
    InitHoldsInv(cfg);
    PathKeepsQuiet(cfg, Init(), run, s, p);
    PathKeepsInv(cfg, Init(), run, s);
    assert ValidStat(cfg, p);
    CoveredIsComplete(cfg, s, p, e);
    assert Aggregated(cfg, s, p, e) && LateInv(cfg, s, p);
    InstallationIsSumOfCut(cfg, s, p, e, subgroup);
    hide Inv;
    hide ValidConfig;
    OnTimeIsCut(s, p, e, subgroup);
  }

  lemma OnTimeIsCut(s: State, p: string, e: Time, subgroup: Option<string>)
    requires forall i | 0 <= i < |s.sent| && s.sent[i].Hits(p, e) :: i < Cut(s, p, e) <==> !s.sent[i].late
    ensures SentWhen(s.sent, false, p, e, subgroup) == Selected(s.sent[..Cut(s, p, e)], 0, p, e, None, subgroup)
    ensures Sum(Selected(s.sent, 0, p, e, None, subgroup))
         == Sum(SentWhen(s.sent, false, p, e, subgroup)) + Sum(SentWhen(s.sent, true, p, e, subgroup))
    ensures SentWhen(s.sent, false, p, e, subgroup) == map[] ==> Sum(SentWhen(s.sent, false, p, e, subgroup)) == 0
  {
    hide Cut;
    EmptySum();
    hide Sum;
    SelectedSplits(s.sent, Cut(s, p, e), p, e, None, subgroup);
    assert SentWhen(s.sent, true, p, e, subgroup) == Selected(s.sent, Cut(s, p, e), p, e, None, subgroup);
  }
}
