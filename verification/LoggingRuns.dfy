/** What the stored rows of a logging stat say about the increments that a run made: the same laws as
    in LoggingTheorems, over the calls themselves instead of the history variable. */
module LoggingRuns {
  import opened Options
  import opened Sums
  import opened CountTables
  import opened Events
  import opened FillMachine
  import opened FillInvariant
  import opened FillSteps
  import opened FillActions
  import opened FillTheorems
  import opened LoggingTheorems

  /** FillState of the stat, when the `i`th action was taken, had reached its event time. */
  ghost predicate LateAt(cfg: Config, run: seq<Action>, i: nat)
    requires ValidConfig(cfg) && i < |run| && run[i].Increment?
  {
    exists s :: Path(cfg, Init(), run[..i], s) && run[i].p in s.fill && run[i].eventTime <= s.fill[run[i].p].endTime
  }

  /** The increments of `run` to `p` and `subgroup` whose event time lies in the window of length `step`
      that ends at `e`: those for one user, stream or realm, and those that were late or on time, if these
      are given. A call with amount 0 does nothing. */
  ghost function IncrementsDue(cfg: Config, run: seq<Action>, p: string, step: Time, e: Time, id: Option<int>,
                               subgroup: Option<string>, late: Option<bool>): map<int, int>
    requires ValidConfig(cfg)
  {
    map i: int | 0 <= i < |run| && run[i].Increment? && run[i].p == p && run[i].subgroup == subgroup && run[i].amount != 0
                 && (id.None? || id.value == run[i].id) && e - step < run[i].eventTime <= e
                 && (late.None? || LateAt(cfg, run, i) == late.value) :: run[i].amount
  }

  /* The history variable lists the increments in their order. */

  /** The positions of the increments with an amount. */
  function Positions(run: seq<Action>): (pos: seq<nat>)
    ensures forall j | 0 <= j < |pos| :: pos[j] < |run|
    decreases |run|
  {
    if run == [] then []
    else
      var rest, last := Positions(run[..|run| - 1]), run[|run| - 1];
      if last.Increment? && last.amount != 0 then rest + [|run| - 1] else rest
  }

  lemma {:induction false} PositionsAre(run: seq<Action>)
    ensures forall j | 0 <= j < |Positions(run)| :: run[Positions(run)[j]].Increment? && run[Positions(run)[j]].amount != 0
    ensures forall j, k | 0 <= j < k < |Positions(run)| :: Positions(run)[j] < Positions(run)[k]
    decreases |run|
  {
    if run != [] {
      PositionsAre(run[..|run| - 1]);
    }
  }

  lemma {:induction false} PositionOf(run: seq<Action>, i: nat) returns (j: nat)
    requires i < |run| && run[i].Increment? && run[i].amount != 0
    ensures j < |Positions(run)| && Positions(run)[j] == i
    decreases |run|
  {
    if i == |run| - 1 {
      j := |Positions(run)| - 1;
    } else {
      j := PositionOf(run[..|run| - 1], i);
    }
  }

  lemma {:induction false} LastOfPath(cfg: Config, s: State, run: seq<Action>, end: State) returns (mid: State)
    requires ValidConfig(cfg) && Path(cfg, s, run, end) && run != []
    ensures var n := |run| - 1;
            Path(cfg, s, run[..n], mid) && Admissible(cfg, mid, run[n]) && Step(cfg, mid, run[n]) == end
    decreases |run|
  {
    hide Admissible;
    hide Step;
    hide ValidConfig;
    var n := |run| - 1;
    if n == 0 {
      mid := s;
      assert run[1..] == [];
    } else {
      mid := LastOfPath(cfg, Step(cfg, s, run[0]), run[1..], end);
      assert run[1..][..n - 1] == run[..n][1..] && run[1..][n - 1] == run[n];
    }
  }

  lemma {:induction false} OneEnd(cfg: Config, s: State, run: seq<Action>, a: State, b: State)
    requires ValidConfig(cfg) && Path(cfg, s, run, a) && Path(cfg, s, run, b)
    ensures a == b
    decreases |run|
  {
    hide ValidConfig;
    hide Step;
    if run != [] {
      OneEnd(cfg, Step(cfg, s, run[0]), run[1..], a, b);
    }
  }

  lemma LateAtIs(cfg: Config, run: seq<Action>, i: nat, s: State)
    requires ValidConfig(cfg) && i < |run| && run[i].Increment? && Path(cfg, Init(), run[..i], s)
    ensures LateAt(cfg, run, i) <==> TooLate(s, run[i].p, run[i].eventTime)
  {
    hide ValidConfig;
    hide Path;
    if s' :| Path(cfg, Init(), run[..i], s') && run[i].p in s'.fill && run[i].eventTime <= s'.fill[run[i].p].endTime {
      OneEnd(cfg, Init(), run[..i], s, s');
    }
  }

  /** `x` is the history entry of the `i`th action. */
  ghost predicate EntryOf(cfg: Config, run: seq<Action>, i: nat, x: Sent)
    requires ValidConfig(cfg) && i < |run| && run[i].Increment?
  {
    var a := run[i];
    && a.p in cfg.stats && cfg.stats[a.p].increment > 0 && DueAt(cfg.stats[a.p].increment, a.eventTime, x.key.endTime)
    && x.key == Key(a.p, x.key.endTime, a.id, a.subgroup) && x.amount == a.amount && (x.late <==> LateAt(cfg, run, i))
  }

  lemma {:induction false} HistoryIsRun(cfg: Config, run: seq<Action>, s: State)
    requires ValidConfig(cfg) && Path(cfg, Init(), run, s)
    ensures |s.sent| == |Positions(run)|
    ensures forall j | 0 <= j < |s.sent| :: run[Positions(run)[j]].Increment? && EntryOf(cfg, run, Positions(run)[j], s.sent[j])
    decreases |run|
  {
    hide Path;
    hide Inv;
    hide ValidConfig;
    PositionsAre(run);
    if run == [] {
      NoHistory(cfg, s);
    } else {
      var n := |run| - 1;
      var mid := LastOfPath(cfg, Init(), run, s);
      HistoryIsRun(cfg, run[..n], mid);
      InitHoldsInv(cfg);
      PathKeepsInv(cfg, Init(), run[..n], mid);
      LastEntry(cfg, run, mid, s);
      forall j | 0 <= j < |mid.sent| ensures EntryOf(cfg, run, Positions(run)[j], mid.sent[j]) {
        var i := Positions(run)[j];
        assert Positions(run[..n])[j] == i;
        assert run[..n][i] == run[i] && run[..n][..i] == run[..i];
      }
    }
  }

  lemma NoHistory(cfg: Config, s: State)
    requires ValidConfig(cfg) && Path(cfg, Init(), [], s)
    ensures s.sent == []
  {}

  /** What the last action adds to the history. */
  lemma LastEntry(cfg: Config, run: seq<Action>, mid: State, s: State)
    requires ValidConfig(cfg) && run != [] && Path(cfg, Init(), run[..|run| - 1], mid) && Inv(cfg, mid)
    requires Admissible(cfg, mid, run[|run| - 1]) && s == Step(cfg, mid, run[|run| - 1])
    ensures var n := |run| - 1;
            if run[n].Increment? && run[n].amount != 0 then
              |s.sent| == |mid.sent| + 1 && mid.sent <= s.sent && EntryOf(cfg, run, n, s.sent[|mid.sent|])
            else s.sent == mid.sent
  {
    hide Path;
    hide StatInv;
    hide GoodCollector;
    var n := |run| - 1;
    match run[n]
    case Advance(p) =>
      assert ValidStat(cfg, p);
      NextIsLocal(cfg, mid, p);
    case Increment(p, _, _, eventTime, _) =>
      assert ValidStat(cfg, p);
      CeilingIsDue(cfg.stats[p].increment, eventTime);
      LateAtIs(cfg, run, n, mid);
    case _ =>
  }

  /* Sums over the history are sums over the run. */

  /** The increments that LoggingTheorems selects from the history, here with their lateness. */
  function SelectedWhen(sent: seq<Sent>, late: Option<bool>, p: string, e: Time, id: Option<int>, subgroup: Option<string>): map<int, int> {
    map i: int | 0 <= i < |sent| && sent[i].Hits(p, e) && sent[i].key.subgroup == subgroup
                 && (id.None? || id.value == sent[i].key.id) && (late.None? || sent[i].late == late.value) :: sent[i].amount
  }

  /** An entry is selected exactly when its action is. */
  lemma EntryIsDue(cfg: Config, run: seq<Action>, i: nat, x: Sent, late: Option<bool>, p: string, e: Time, id: Option<int>,
                   subgroup: Option<string>)
    requires ValidConfig(cfg) && p in cfg.stats && i < |run| && run[i].Increment? && run[i].amount != 0 && EntryOf(cfg, run, i, x)
    requires cfg.stats[p].increment > 0 && e % cfg.stats[p].increment == 0
    ensures x.Hits(p, e) && x.key.subgroup == subgroup && (id.None? || id.value == x.key.id) && (late.None? || x.late == late.value)
       <==> i in IncrementsDue(cfg, run, p, cfg.stats[p].increment, e, id, subgroup, late)
  {
    hide LateAt;
    hide GoodCollector;
    if run[i].p == p {
      assert ValidStat(cfg, p);
      OneEndTime(cfg.stats[p].increment, run[i].eventTime, x.key.endTime, e);
      hide DueAt;
    }
  }

  lemma OneEndTime(step: Time, t: Time, a: Time, e: Time)
    requires (step == HOUR || step == DAY) && DueAt(step, t, a) && e % step == 0
    ensures a == e <==> e - step < t <= e
  {
    CeilingIsDue(step, t);
    hide Ceiling;
    if e - step < t <= e {
      assert DueAt(step, t, e);
    }
  }

  lemma SumOfPositions(pos: seq<nat>, selected: map<int, int>, due: map<int, int>)
    requires forall j, k | 0 <= j < k < |pos| :: pos[j] < pos[k]
    requires forall j | j in selected :: 0 <= j < |pos| && pos[j] in due && due[pos[j]] == selected[j]
    requires forall i | i in due :: exists j :: 0 <= j < |pos| && pos[j] == i && j in selected
    ensures Sum(selected) == Sum(due) && (selected == map[] <==> due == map[])
  {
    hide Sum;
    var names := map j | j in selected :: pos[j] as int;
    assert names.Keys == selected.Keys;
    forall i | i in due ensures i in names.Values {
      var j :| 0 <= j < |pos| && pos[j] == i && j in selected;
      assert j in names && names[j] == i;
    }
    assert names.Values == due.Keys;
    assert forall j, k | j in selected && k in selected && pos[j] == pos[k] :: !(j < k) && !(k < j);
    SumRenamed(names, selected, due);
  }

  lemma SameSums(cfg: Config, run: seq<Action>, s: State, late: Option<bool>, p: string, e: Time, id: Option<int>,
                 subgroup: Option<string>)
    requires ValidConfig(cfg) && Path(cfg, Init(), run, s) && p in cfg.stats && cfg.stats[p].increment > 0
    requires e % cfg.stats[p].increment == 0
    ensures var selected := SelectedWhen(s.sent, late, p, e, id, subgroup);
            var due := IncrementsDue(cfg, run, p, cfg.stats[p].increment, e, id, subgroup, late);
            Sum(selected) == Sum(due) && (selected == map[] <==> due == map[])
  {
    hide Path;
    hide Sum;
    hide ValidConfig;
    hide LateAt;
    var pos, step := Positions(run), cfg.stats[p].increment;
    var selected, due := SelectedWhen(s.sent, late, p, e, id, subgroup), IncrementsDue(cfg, run, p, step, e, id, subgroup, late);
    HistoryIsRun(cfg, run, s);
    PositionsAre(run);
    forall j | 0 <= j < |s.sent| ensures j in selected <==> pos[j] in due {
      EntryIsDue(cfg, run, pos[j], s.sent[j], late, p, e, id, subgroup);
    }
    forall i | i in due ensures exists j :: 0 <= j < |pos| && pos[j] == i && j in selected {
      var j := PositionOf(run, i);
    }
    SumOfPositions(pos, selected, due);
  }

  /* The theorems. */

  /** Increments go to end times of the stat's own hours or days only. */
  lemma OnlyWholeEndTimes(cfg: Config, run: seq<Action>, s: State, p: string, e: Time, id: Option<int>, subgroup: Option<string>)
    requires ValidConfig(cfg) && Path(cfg, Init(), run, s) && p in cfg.stats && cfg.stats[p].increment > 0
    requires e % cfg.stats[p].increment != 0
    ensures Selected(s.sent, 0, p, e, id, subgroup) == map[]
  {
    hide Path;
    hide ValidConfig;
    hide LateAt;
    HistoryIsRun(cfg, run, s);
  }

  /** The row of a bucket of a logging stat, after any run of increments, fills, crashes and undos: it
      exists exactly for the end of an hour or day, of the stat's frequency, in which some increment
      was due, and holds the sum of those of its user, stream or realm and subgroup. */
  lemma RawValueIsSum(cfg: Config, run: seq<Action>, s: State, p: string, e: Time, id: int, subgroup: Option<string>)
    requires ValidConfig(cfg) && Path(cfg, Init(), run, s) && p in cfg.stats && cfg.stats[p].kind.Logging?
    ensures cfg.stats[p].increment > 0
    ensures var rows, k := s.tables.Get(cfg.stats[p].output), Key(p, e, id, subgroup);
            var due := IncrementsDue(cfg, run, p, cfg.stats[p].increment, e, Some(id), subgroup, None);
            && (k in rows <==> e % cfg.stats[p].increment == 0 && due != map[])
            && (k in rows ==> rows[k] == Cell(cfg.home(cfg.stats[p].output, id), Sum(due)))
  {
    hide Path;
    hide Sum;
    hide GoodCollector;
    assert Reachable(cfg, s);
    assert ValidStat(cfg, p);
    hide ValidConfig;
    RawValueIsSumOfSent(cfg, s, p, e, id, subgroup);
    if e % cfg.stats[p].increment == 0 {
      SameSums(cfg, run, s, None, p, e, Some(id), subgroup);
      assert SelectedWhen(s.sent, None, p, e, Some(id), subgroup) == Selected(s.sent, 0, p, e, Some(id), subgroup);
    } else {
      OnlyWholeEndTimes(cfg, run, s, p, e, Some(id), subgroup);
    }
  }

  lemma CoveredIsWhole(cfg: Config, p: string, e: Time)
    requires ValidConfig(cfg) && p in cfg.stats && cfg.stats[p].increment > 0 && OnGrid(cfg, cfg.stats[p], e)
    ensures e % cfg.stats[p].increment == 0
  {
    hide GoodCollector;
    assert ValidStat(cfg, p);
    if cfg.stats[p].increment == HOUR {} else {}
  }

  /** When no increment goes to an end time just being filled, the InstallationCount row of a covered
      end time is the sum of exactly the increments due there that were on time; so it is the sum of
      all that were due exactly when the late ones add up to nothing. */
  lemma InstallationIsSumOfOnTime(cfg: Config, run: seq<Action>, s: State, p: string, e: Time, subgroup: Option<string>)
    requires ValidConfig(cfg) && Path(cfg, Init(), run, s) && p in cfg.stats && cfg.stats[p].kind.Logging?
    requires cfg.stats[p].increment > 0 && QuietPath(cfg, Init(), run, p) && Covered(cfg, s, p, e)
    ensures var k, step, rows := Key(p, e, 0, subgroup), cfg.stats[p].increment, s.tables.installation;
            var onTime := IncrementsDue(cfg, run, p, step, e, None, subgroup, Some(false));
            var late := IncrementsDue(cfg, run, p, step, e, None, subgroup, Some(true));
            var all := IncrementsDue(cfg, run, p, step, e, None, subgroup, None);
            && (k in rows <==> onTime != map[]) && (k in rows ==> rows[k] == Cell(0, Sum(onTime)))
            && (ValueAt(rows, k) == Sum(all) <==> Sum(late) == 0)
  {
    hide Path;
    hide QuietPath;
    hide Sum;
    CoveredIsWhole(cfg, p, e);
    hide ValidConfig;
    hide IncrementsDue;
    InstallationIsSumOfOnTimeSent(cfg, run, s, p, e, subgroup);
    SameSums(cfg, run, s, Some(false), p, e, None, subgroup);
    SameSums(cfg, run, s, Some(true), p, e, None, subgroup);
    SameSums(cfg, run, s, None, p, e, None, subgroup);
    SelectedAlike(s.sent, p, e, subgroup);
  }

  lemma SelectedAlike(sent: seq<Sent>, p: string, e: Time, subgroup: Option<string>)
    ensures SelectedWhen(sent, None, p, e, None, subgroup) == Selected(sent, 0, p, e, None, subgroup)
    ensures forall late: bool :: SelectedWhen(sent, Some(late), p, e, None, subgroup) == SentWhen(sent, late, p, e, subgroup)
  {}

  /** When every increment due there came before FillState reached its event time, InstallationCount of
      a covered end time is the sum of them all, whatever else was going on. */
  lemma OnTimeIncrementsAreCounted(cfg: Config, run: seq<Action>, s: State, p: string, e: Time, subgroup: Option<string>)
    requires ValidConfig(cfg) && Path(cfg, Init(), run, s) && p in cfg.stats && cfg.stats[p].kind.Logging?
    requires cfg.stats[p].increment > 0 && Covered(cfg, s, p, e)
    requires forall i | 0 <= i < |run| && run[i].Increment? && run[i].p == p && run[i].amount != 0
                        && e - cfg.stats[p].increment < run[i].eventTime <= e :: !LateAt(cfg, run, i)
    ensures var k, rows := Key(p, e, 0, subgroup), s.tables.installation;
            var due := IncrementsDue(cfg, run, p, cfg.stats[p].increment, e, None, subgroup, None);
            (k in rows <==> due != map[]) && (k in rows ==> rows[k] == Cell(0, Sum(due)))
  {
    hide Path;
    hide Sum;
    hide LateAt;
    CoveredIsWhole(cfg, p, e);
    assert Reachable(cfg, s);
    NothingLate(cfg, run, s, p, e);
    hide ValidConfig;
    OnTimeSentAreCounted(cfg, s, p, e, subgroup);
    SameSums(cfg, run, s, None, p, e, None, subgroup);
    SelectedAlike(s.sent, p, e, subgroup);
  }

  lemma NothingLate(cfg: Config, run: seq<Action>, s: State, p: string, e: Time)
    requires ValidConfig(cfg) && Path(cfg, Init(), run, s) && p in cfg.stats && cfg.stats[p].increment > 0
    requires forall i | 0 <= i < |run| && run[i].Increment? && run[i].p == p && run[i].amount != 0
                        && e - cfg.stats[p].increment < run[i].eventTime <= e :: !LateAt(cfg, run, i)
    ensures forall j | 0 <= j < |s.sent| && s.sent[j].Hits(p, e) :: !s.sent[j].late
  {
    hide Path;
    hide ValidConfig;
    hide LateAt;
    HistoryIsRun(cfg, run, s);
    PositionsAre(run);
  }
}
