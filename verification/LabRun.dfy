/**
 The resumable image bench: jobs that finish in any order, a checkpoint after each, and
 runs that are interrupted anywhere and resumed.
 */
module LabRun {
  import opened Options
  import opened Ordering
  import opened Sequences

  datatype Key = Key(caseId: nat, strategy: string, sample: nat)

  datatype Row = Row(key: Key, searchOrDownload: string, kind: string, elapsed: nat)

  datatype Retry = Miss | Timeout

  predicate ShouldRetry(row: Row, retry: Option<Retry>) {
    match retry
    case None => false
    case Some(Miss) => row.searchOrDownload == "miss" && row.kind != "timeout"
    case Some(Timeout) => row.kind == "timeout"
  }

  // ---------- the job list ----------

  /** The strategies without repetitions, each where it came first. */
  method UniqueStrategies(strategies: seq<string>) returns (unique: seq<string>)
    ensures Distinct(unique) && forall x :: x in unique <==> x in strategies
    ensures |unique| <= |strategies| && (Distinct(strategies) ==> unique == strategies)
  {
    unique := [];
    for i := 0 to |strategies|
      invariant Distinct(unique) && |unique| <= i
      invariant forall x :: x in unique <==> x in strategies[..i]
      invariant Distinct(strategies) ==> unique == strategies[..i]
    {
      assert strategies[..i + 1] == strategies[..i] + [strategies[i]];
      if strategies[i] !in unique {
        unique := unique + [strategies[i]];
      }
    }
    assert strategies[..|strategies|] == strategies;
  }

  function Samples(caseId: nat, strategy: string, repeat: nat): (r: seq<Key>)
    ensures |r| == repeat && forall k :: 0 <= k < repeat ==> r[k] == Key(caseId, strategy, k + 1)
  {
    if repeat == 0 then [] else Samples(caseId, strategy, repeat - 1) + [Key(caseId, strategy, repeat)]
  }

  function CaseJobs(caseId: nat, strategies: seq<string>, repeat: nat): seq<Key> {
    if strategies == [] then []
    else CaseJobs(caseId, strategies[..|strategies| - 1], repeat) + Samples(caseId, strategies[|strategies| - 1], repeat)
  }

  function JobKeys(cases: seq<nat>, strategies: seq<string>, repeat: nat): seq<Key> {
    if cases == [] then []
    else JobKeys(cases[..|cases| - 1], strategies, repeat) + CaseJobs(cases[|cases| - 1], strategies, repeat)
  }

  lemma {:induction false} CaseJobsDistinct(caseId: nat, strategies: seq<string>, repeat: nat)
    requires Distinct(strategies)
    ensures Distinct(CaseJobs(caseId, strategies, repeat))
    ensures forall k :: k in CaseJobs(caseId, strategies, repeat) <==>
              k.caseId == caseId && k.strategy in strategies && 1 <= k.sample <= repeat
    decreases |strategies|
  {
    if strategies != [] {
      var init, last := strategies[..|strategies| - 1], strategies[|strategies| - 1];
      assert strategies == init + [last];
      CaseJobsDistinct(caseId, init, repeat);
      SamplesAre(caseId, last, repeat);
      DistinctTogether(CaseJobs(caseId, init, repeat), Samples(caseId, last, repeat));
    }
  }

  lemma SamplesAre(caseId: nat, strategy: string, repeat: nat)
    ensures forall k :: k in Samples(caseId, strategy, repeat) <==>
              k.caseId == caseId && k.strategy == strategy && 1 <= k.sample <= repeat
  {
    var s := Samples(caseId, strategy, repeat);
    forall k: Key | k.caseId == caseId && k.strategy == strategy && 1 <= k.sample <= repeat
      ensures k in s
    {
      assert s[k.sample - 1] == k;
    }
  }

  /** There is exactly one job per case, strategy and sample. */
  lemma {:induction false} OneJobEach(cases: seq<nat>, strategies: seq<string>, repeat: nat)
    requires Distinct(cases) && Distinct(strategies)
    ensures Distinct(JobKeys(cases, strategies, repeat))
    ensures forall k :: k in JobKeys(cases, strategies, repeat) <==>
              k.caseId in cases && k.strategy in strategies && 1 <= k.sample <= repeat
    decreases |cases|
  {
    hide CaseJobs;
    if cases != [] {
      var init, last := cases[..|cases| - 1], cases[|cases| - 1];
      assert cases == init + [last];
      OneJobEach(init, strategies, repeat);
      CaseJobsDistinct(last, strategies, repeat);
      DistinctTogether(JobKeys(init, strategies, repeat), CaseJobs(last, strategies, repeat));
    }
  }

  // ---------- what a run has ----------

  /** The rows a run has, by job position. */
  type Table = map<nat, Row>

  /** The rows of a loaded scorecard by key: of two rows with one key the later stays. */
  function Index(rows: seq<Row>): map<Key, Row> {
    if rows == [] then map[] else Index(rows[..|rows| - 1])[rows[|rows| - 1].key := rows[|rows| - 1]]
  }

  predicate Keeps(existing: map<Key, Row>, key: Key, retry: Option<Retry>) {
    key in existing && !ShouldRetry(existing[key], retry)
  }

  /** The positions whose rows are kept: there is a row, and it is not to be tried again. */
  function Kept(jobs: seq<Key>, existing: map<Key, Row>, retry: Option<Retry>): (r: Table)
    ensures forall k: nat :: k in r <==> k < |jobs| && Keeps(existing, jobs[k], retry)
    ensures forall k: nat :: k < |jobs| && k in r ==> jobs[k] in existing && r[k] == existing[jobs[k]]
  {
    map k: nat | k < |jobs| && Keeps(existing, jobs[k], retry) :: existing[jobs[k]]
  }

  function Arrived(table: Table, arrivals: seq<Ranked<Row>>): Table {
    if arrivals == [] then table
    else Arrived(table, arrivals[..|arrivals| - 1])[arrivals[|arrivals| - 1].order := arrivals[|arrivals| - 1].value]
  }

  /** The entries below position n, in order. */
  function Entries(table: Table, n: nat): seq<Ranked<Row>> {
    if n == 0 then []
    else Entries(table, n - 1) + if n - 1 in table then [Ranked(n - 1, table[n - 1])] else []
  }

  function Values(s: seq<Ranked<Row>>): (r: seq<Row>)
    ensures |r| == |s| && forall k :: 0 <= k < |s| ==> r[k] == s[k].value
  {
    seq(|s|, k requires 0 <= k < |s| => s[k].value)
  }

  function OrderedRows(ranked: seq<Ranked<Row>>): seq<Row> {
    Values(SortedByOrder(ranked))
  }

  /** A scorecard of a table: its rows in job order. */
  function Scorecard(table: Table, n: nat): seq<Row> {
    Values(Entries(table, n))
  }

  lemma {:induction false} EntriesAscend(table: Table, n: nat)
    ensures Ascending(Entries(table, n))
    ensures forall k :: 0 <= k < |Entries(table, n)| ==>
      var e := Entries(table, n)[k]; e.order < n && e.order in table && e.value == table[e.order]
  {
    if n > 0 {
      EntriesAscend(table, n - 1);
    }
  }

  lemma {:induction false} EntriesHave(table: Table, n: nat, k: nat)
    requires k < n && k in table
    ensures Ranked(k, table[k]) in Entries(table, n)
  {
    if k < n - 1 {
      EntriesHave(table, n - 1, k);
    }
  }

  /** What the table has at one position. */
  function EntryAt(table: Table, k: nat): seq<Ranked<Row>> {
    if k in table then [Ranked(k, table[k])] else []
  }

  lemma EntriesTurn(table: Table, n: nat)
    requires n > 0
    ensures multiset(Entries(table, n)) == multiset(Entries(table, n - 1)) + multiset(EntryAt(table, n - 1))
  {
  }

  lemma {:induction false} EntriesWithOneMore(table: Table, n: nat, x: Ranked<Row>)
    requires x.order !in table
    ensures multiset(Entries(table[x.order := x.value], n)) == multiset(Entries(table, n)) + if x.order < n then multiset{x} else multiset{}
  {
    hide Entries;
    if n == 0 {
      NoEntries(table);
      NoEntries(table[x.order := x.value]);
    } else {
      EntriesTurn(table, n);
      EntriesTurn(table[x.order := x.value], n);
      EntriesWithOneMore(table, n - 1, x);
    }
  }

  lemma NoEntries(table: Table)
    ensures Entries(table, 0) == []
  {
  }

  /** The arrivals are results of different spawned jobs. */
  ghost predicate Results(jobs: seq<Key>, table: Table, arrivals: seq<Ranked<Row>>) {
    && (forall j :: 0 <= j < |arrivals| ==>
          arrivals[j].order < |jobs| && arrivals[j].order !in table && arrivals[j].value.key == jobs[arrivals[j].order])
    && forall i, j :: 0 <= i < j < |arrivals| ==> arrivals[i].order != arrivals[j].order
  }

  lemma {:induction false} ArrivedHas(table: Table, arrivals: seq<Ranked<Row>>)
    ensures Arrived(table, arrivals).Keys == table.Keys + set j | 0 <= j < |arrivals| :: arrivals[j].order
    ensures forall k :: k in table && (forall j :: 0 <= j < |arrivals| ==> arrivals[j].order != k) ==>
              k in Arrived(table, arrivals) && Arrived(table, arrivals)[k] == table[k]
    decreases |arrivals|
  {
    if arrivals != [] {
      ArrivedHas(table, arrivals[..|arrivals| - 1]);
    }
  }

  /** Whatever collection of entries a run holds, sorting it gives the scorecard of its table. */
  lemma OrderedIsScorecard(ranked: seq<Ranked<Row>>, table: Table, n: nat)
    requires multiset(ranked) == multiset(Entries(table, n))
    ensures OrderedRows(ranked) == Scorecard(table, n)
  {
    EntriesAscend(table, n);
    SortedHolds(ranked);
    SortedIsUnique(SortedByOrder(ranked), Entries(table, n));
  }

  lemma ResultsInit(jobs: seq<Key>, table: Table, arrivals: seq<Ranked<Row>>, m: nat)
    requires Results(jobs, table, arrivals) && m <= |arrivals|
    ensures Results(jobs, table, arrivals[..m])
    ensures m < |arrivals| ==> arrivals[m].order !in Arrived(table, arrivals[..m]) && arrivals[m].order < |jobs|
    ensures m < |arrivals| ==> Arrived(table, arrivals[..m + 1]) == Arrived(table, arrivals[..m])[arrivals[m].order := arrivals[m].value]
  {
    hide Arrived;
    ArrivedHas(table, arrivals[..m]);
    if m < |arrivals| {
      ArrivedMore(table, arrivals, m);
    }
  }

  lemma ArrivedMore(table: Table, arrivals: seq<Ranked<Row>>, m: nat)
    requires m < |arrivals|
    ensures Arrived(table, arrivals[..m + 1]) == Arrived(table, arrivals[..m])[arrivals[m].order := arrivals[m].value]
  {
    assert arrivals[..m + 1][..m] == arrivals[..m];
  }

  // ---------- the plan ----------

  lemma {:induction false} EntriesAgree(a: Table, b: Table, n: nat)
    requires forall k :: 0 <= k < n ==> (k in a <==> k in b) && (k in a ==> a[k] == b[k])
    ensures Entries(a, n) == Entries(b, n)
  {
    if n > 0 {
      EntriesAgree(a, b, n - 1);
    }
  }

  lemma PlanTurn(done: seq<Key>, key: Key, existing: map<Key, Row>, retry: Option<Retry>)
    ensures Entries(Kept(done + [key], existing, retry), |done| + 1) ==
            Entries(Kept(done, existing, retry), |done|)
              + if Keeps(existing, key, retry) then [Ranked(|done|, existing[key])] else []
  {
    hide Keeps, Kept, Entries;
    var a, b := Kept(done, existing, retry), Kept(done + [key], existing, retry);
    KeptBefore(done, key, existing, retry);
    KeptLast(done, key, existing, retry);
    EntriesAgree(a, b, |done|);
    EntriesLast(b, |done|);
  }

  lemma KeptBefore(done: seq<Key>, key: Key, existing: map<Key, Row>, retry: Option<Retry>)
    ensures var a, b := Kept(done, existing, retry), Kept(done + [key], existing, retry);
            forall k :: 0 <= k < |done| ==> (k in a <==> k in b) && (k in a ==> a[k] == b[k])
  {
    hide Keeps, Kept;
    var a, b := Kept(done, existing, retry), Kept(done + [key], existing, retry);
    forall k | 0 <= k < |done|
      ensures (k in a <==> k in b) && (k in a ==> a[k] == b[k])
    {
      assert (done + [key])[k] == done[k];
    }
  }

  lemma KeptLast(done: seq<Key>, key: Key, existing: map<Key, Row>, retry: Option<Retry>)
    ensures var b := Kept(done + [key], existing, retry);
            (|done| in b <==> Keeps(existing, key, retry)) && (|done| in b ==> key in existing && b[|done|] == existing[key])
  {
    hide Keeps, Kept;
    assert (done + [key])[|done|] == key;
  }

  lemma EntriesLast(table: Table, n: nat)
    ensures Entries(table, n + 1) == Entries(table, n) + if n in table then [Ranked(n, table[n])] else []
  {
  }

  /** The jobs of the first ci cases, the first si strategies of the next and the first samples of the next. */
  function JobsBefore(cases: seq<nat>, ci: nat, strategies: seq<string>, si: nat, repeat: nat, samples: nat): seq<Key>
    requires ci <= |cases| && si <= |strategies|
    requires ci == |cases| ==> si == 0
    requires si == |strategies| || ci == |cases| ==> samples == 0
  {
    JobKeys(cases[..ci], strategies, repeat)
      + (if ci < |cases| then CaseJobs(cases[ci], strategies[..si], repeat) else [])
      + (if ci < |cases| && si < |strategies| then Samples(cases[ci], strategies[si], samples) else [])
  }

  lemma NewKey(cases: seq<nat>, ci: nat, strategies: seq<string>, si: nat, repeat: nat, samples: nat)
    requires Distinct(cases) && Distinct(strategies) && ci < |cases| && si < |strategies| && samples < repeat
    ensures Key(cases[ci], strategies[si], samples + 1) !in JobsBefore(cases, ci, strategies, si, repeat, samples)
    ensures JobsBefore(cases, ci, strategies, si, repeat, samples + 1) ==
            JobsBefore(cases, ci, strategies, si, repeat, samples) + [Key(cases[ci], strategies[si], samples + 1)]
  {
    hide JobKeys, CaseJobs;
    OneJobEach(cases[..ci], strategies, repeat);
    CaseJobsDistinct(cases[ci], strategies[..si], repeat);
    SamplesAre(cases[ci], strategies[si], samples);
    assert forall k :: 0 <= k < ci ==> cases[..ci][k] == cases[k];
    assert forall k :: 0 <= k < si ==> strategies[..si][k] == strategies[k];
  }

  lemma NextStrategy(cases: seq<nat>, ci: nat, strategies: seq<string>, si: nat, repeat: nat)
    requires ci < |cases| && si < |strategies|
    ensures JobsBefore(cases, ci, strategies, si, repeat, repeat) == JobsBefore(cases, ci, strategies, si + 1, repeat, 0)
  {
    hide JobKeys, Samples;
    assert strategies[..si + 1][..si] == strategies[..si];
  }

  lemma NextCase(cases: seq<nat>, ci: nat, strategies: seq<string>, repeat: nat)
    requires ci < |cases|
    ensures JobsBefore(cases, ci, strategies, |strategies|, repeat, 0) == JobsBefore(cases, ci + 1, strategies, 0, repeat, 0)
    ensures JobsBefore(cases, |cases|, strategies, 0, repeat, 0) == JobKeys(cases, strategies, repeat)
  {
    hide Samples;
    assert cases[..ci + 1][..ci] == cases[..ci];
    assert strategies[..|strategies|] == strategies;
    assert cases[..|cases|] == cases;
    assert strategies[..0] == [];
  }

  // ---------- the run ----------

  datatype Outcome = Refused | Ran(checkpoints: seq<seq<Row>>)

  /** The rows left over after the given jobs took theirs. */
  function Unclaimed(existing: map<Key, Row>, jobs: seq<Key>): map<Key, Row> {
    map key | key in existing && key !in jobs :: existing[key]
  }

  /** What the plan knows after a number of jobs. */
  ghost predicate Planned(done: seq<Key>, all: map<Key, Row>, existing: map<Key, Row>, retry: Option<Retry>, ranked: seq<Ranked<Row>>, order: nat) {
    && existing == Unclaimed(all, done) && order == |done| && ranked == Entries(Kept(done, all, retry), |done|)
  }

  lemma UnclaimedMore(all: map<Key, Row>, done: seq<Key>, key: Key)
    requires key !in done
    ensures key in Unclaimed(all, done) <==> key in all
    ensures key in all ==> Unclaimed(all, done)[key] == all[key]
    ensures Unclaimed(all, done) - {key} == Unclaimed(all, done + [key])
  {
  }

  lemma PlannedMore(done: seq<Key>, key: Key, all: map<Key, Row>, existing: map<Key, Row>, retry: Option<Retry>, ranked: seq<Ranked<Row>>, order: nat)
    requires Planned(done, all, existing, retry, ranked, order) && key !in done
    ensures key in existing <==> key in all
    ensures key in existing ==> existing[key] == all[key]
    ensures Planned(done + [key], all, existing - {key}, retry,
              ranked + if Keeps(existing, key, retry) then [Ranked(order, existing[key])] else [], order + 1)
  {
    hide Entries, Kept, Unclaimed;
    PlanTurn(done, key, all, retry);
    UnclaimedMore(all, done, key);
  }

  lemma PlannedNothing(all: map<Key, Row>, retry: Option<Retry>)
    ensures Planned([], all, all, retry, [], 0)
  {
  }

  /** Walks the jobs: which rows are kept, and which are left over. */
  method PlanJobs(cases: seq<nat>, strategies: seq<string>, repeat: nat, all: map<Key, Row>, retry: Option<Retry>)
    returns (ranked: seq<Ranked<Row>>, existing: map<Key, Row>)
    requires Distinct(cases) && Distinct(strategies)
    ensures var jobs := JobKeys(cases, strategies, repeat);
            && ranked == Entries(Kept(jobs, all, retry), |jobs|)
            && (existing != map[] <==> exists key :: key in all && key !in jobs)
  {
    hide Kept, JobKeys, CaseJobs, Samples, Entries, Planned, JobsBefore, Distinct;
    existing := all;
    ranked := [];
    var order := 0;
    PlannedNothing(all, retry);
    StartOfJobs(cases, strategies, repeat);
    for ci := 0 to |cases|
      invariant Planned(JobsBefore(cases, ci, strategies, 0, repeat, 0), all, existing, retry, ranked, order)
    {
      for si := 0 to |strategies|
        invariant Planned(JobsBefore(cases, ci, strategies, si, repeat, 0), all, existing, retry, ranked, order)
      {
        for sample := 0 to repeat
          invariant Planned(JobsBefore(cases, ci, strategies, si, repeat, sample), all, existing, retry, ranked, order)
        {
          var key := Key(cases[ci], strategies[si], sample + 1);
          NewKey(cases, ci, strategies, si, repeat, sample);
          PlannedMore(JobsBefore(cases, ci, strategies, si, repeat, sample), key, all, existing, retry, ranked, order);
          if key in existing && !ShouldRetry(existing[key], retry) {
            ranked := ranked + [Ranked(order, existing[key])];
          } else {
            assert ranked + [] == ranked;
          }
          existing := existing - {key};
          order := order + 1;
        }
        NextStrategy(cases, ci, strategies, si, repeat);
      }
      NextCase(cases, ci, strategies, repeat);
    }
    PlannedAll(JobKeys(cases, strategies, repeat), all, existing, retry, ranked, order);
  }

  /**
   Keeps what need not be run again and writes a checkpoint after each arrival. Arrivals
   may stop anywhere: that is an interruption.
   */
  method RunImages(cases: seq<nat>, strategies: seq<string>, repeat: nat, loaded: seq<Row>, retry: Option<Retry>, arrivals: seq<Ranked<Row>>)
    returns (outcome: Outcome)
    requires Distinct(cases) && Distinct(strategies)
    requires Results(JobKeys(cases, strategies, repeat), Kept(JobKeys(cases, strategies, repeat), Index(loaded), retry), arrivals)
    ensures var jobs := JobKeys(cases, strategies, repeat);
            var kept := Kept(jobs, Index(loaded), retry);
            && (outcome.Refused? <==> exists key :: key in Index(loaded) && key !in jobs)
            && (outcome.Ran? ==>
                  && |outcome.checkpoints| == |arrivals|
                  && forall j :: 0 <= j < |arrivals| ==>
                       outcome.checkpoints[j] == Scorecard(Arrived(kept, arrivals[..j + 1]), |jobs|))
  {
    hide Results, Kept, Index, JobKeys, Scorecard, OrderedRows, Entries, Arrived, Distinct;
    ghost var jobs := JobKeys(cases, strategies, repeat);
    ghost var kept := Kept(jobs, Index(loaded), retry);
    var ranked, left := PlanJobs(cases, strategies, repeat, Index(loaded), retry);
    if left != map[] {
      return Refused;
    }
    var checkpoints: seq<seq<Row>> := [];
    NothingArrived(kept, arrivals);
    for i := 0 to |arrivals|
      invariant multiset(ranked) == multiset(Entries(Arrived(kept, arrivals[..i]), |jobs|))
      invariant |checkpoints| == i
      invariant forall j :: 0 <= j < i ==> checkpoints[j] == Scorecard(Arrived(kept, arrivals[..j + 1]), |jobs|)
    {
      ResultsInit(jobs, kept, arrivals, i);
      EntriesWithOneMore(Arrived(kept, arrivals[..i]), |jobs|, arrivals[i]);
      ranked := ranked + [arrivals[i]];
      OrderedIsScorecard(ranked, Arrived(kept, arrivals[..i + 1]), |jobs|);
      checkpoints := checkpoints + [OrderedRows(ranked)];
    }
    outcome := Ran(checkpoints);
  }

  lemma NothingArrived(table: Table, arrivals: seq<Ranked<Row>>)
    ensures Arrived(table, arrivals[..0]) == table
  {
  }

  lemma StartOfJobs(cases: seq<nat>, strategies: seq<string>, repeat: nat)
    ensures JobsBefore(cases, 0, strategies, 0, repeat, 0) == []
    ensures JobsBefore(cases, |cases|, strategies, 0, repeat, 0) == JobKeys(cases, strategies, repeat)
  {
    assert cases[..0] == [] && strategies[..0] == [] && cases[..|cases|] == cases;
    assert JobKeys(cases[..0], strategies, repeat) == [];
  }

  lemma PlannedAll(jobs: seq<Key>, all: map<Key, Row>, existing: map<Key, Row>, retry: Option<Retry>, ranked: seq<Ranked<Row>>, order: nat)
    requires Planned(jobs, all, existing, retry, ranked, order)
    ensures existing != map[] <==> exists key :: key in all && key !in jobs
    ensures ranked == Entries(Kept(jobs, all, retry), |jobs|)
  {
    if key :| key in all && key !in jobs {
      assert key in existing;
    }
    if existing != map[] {
      var key :| key in existing;
      assert key in all && key !in jobs;
    }
  }

  // ---------- the promises of the bench ----------

  ghost predicate Covers(table: Table, jobs: seq<Key>) {
    forall k :: k in table ==> k < |jobs| && table[k].key == jobs[k]
  }

  lemma IndexKeys(loaded: seq<Row>)
    ensures forall key :: key in Index(loaded) ==> Index(loaded)[key].key == key && Index(loaded)[key] in loaded
    ensures forall k :: 0 <= k < |loaded| ==> loaded[k].key in Index(loaded)
  {
    if loaded != [] {
      var init := loaded[..|loaded| - 1];
      IndexKeys(init);
      assert loaded == init + [loaded[|loaded| - 1]];
    }
  }

  lemma RunCovers(jobs: seq<Key>, loaded: seq<Row>, retry: Option<Retry>, arrivals: seq<Ranked<Row>>)
    requires Results(jobs, Kept(jobs, Index(loaded), retry), arrivals)
    ensures Covers(Arrived(Kept(jobs, Index(loaded), retry), arrivals), jobs)
    decreases |arrivals|
  {
    hide Index, Kept, Keeps, Arrived;
    var kept := Kept(jobs, Index(loaded), retry);
    if arrivals == [] {
      IndexKeys(loaded);
      NoneArrived(kept);
    } else {
      var last := |arrivals| - 1;
      ResultsInit(jobs, kept, arrivals, last);
      assert arrivals[..last + 1] == arrivals;
      RunCovers(jobs, loaded, retry, arrivals[..last]);
    }
  }

  lemma NoneArrived(table: Table)
    ensures Arrived(table, []) == table
  {
  }

  /** Where the rows of a scorecard stand in the job list. */
  function PositionsOf(table: Table, n: nat): (r: seq<nat>)
    ensures |r| == |Entries(table, n)| && forall i :: 0 <= i < |r| ==> r[i] == Entries(table, n)[i].order
  {
    seq(|Entries(table, n)|, i requires 0 <= i < |Entries(table, n)| => Entries(table, n)[i].order)
  }

  lemma PositionsAscend(table: Table, n: nat)
    ensures var at, rows := PositionsOf(table, n), Scorecard(table, n);
            && |at| == |rows| && (forall a, b :: 0 <= a < b < |at| ==> at[a] < at[b])
            && forall i :: 0 <= i < |at| ==> at[i] < n && at[i] in table && rows[i] == table[at[i]]
  {
    hide Entries, PositionsOf;
    EntriesAscend(table, n);
  }

  lemma PositionOf(table: Table, n: nat, k: nat)
    requires k < n && k in table
    ensures exists i :: 0 <= i < |PositionsOf(table, n)| && PositionsOf(table, n)[i] == k
  {
    hide Entries, PositionsOf;
    EntriesHave(table, n, k);
    var i :| 0 <= i < |Entries(table, n)| && Entries(table, n)[i] == Ranked(k, table[k]);
    assert PositionsOf(table, n)[i] == k;
  }

  /** A checkpoint is a sublist of the jobs in job order; it holds the arrived rows and every kept row, unchanged, at its job. */
  lemma CheckpointIsOrderedSublist(jobs: seq<Key>, loaded: seq<Row>, retry: Option<Retry>, arrivals: seq<Ranked<Row>>)
    requires Results(jobs, Kept(jobs, Index(loaded), retry), arrivals)
    ensures var kept := Kept(jobs, Index(loaded), retry);
            var table := Arrived(kept, arrivals);
            var rows, at := Scorecard(table, |jobs|), PositionsOf(table, |jobs|);
            && |at| == |rows| && (forall a, b :: 0 <= a < b < |at| ==> at[a] < at[b])
            && (forall i :: 0 <= i < |at| ==> at[i] < |jobs| && rows[i].key == jobs[at[i]])
            && (forall i :: 0 <= i < |at| && at[i] in kept ==> rows[i] == kept[at[i]])
            && (forall k: nat :: k in kept ==> k in at)
            && (forall j :: 0 <= j < |arrivals| ==> arrivals[j].order in at)
  {
    hide Index, Kept, Entries, Arrived, Scorecard, PositionsOf;
    var kept := Kept(jobs, Index(loaded), retry);
    var table := Arrived(kept, arrivals);
    PositionsAscend(table, |jobs|);
    RunCovers(jobs, loaded, retry, arrivals);
    ArrivedHas(kept, arrivals);
    forall k: nat | k in table && k < |jobs|
      ensures k in PositionsOf(table, |jobs|)
    {
      PositionOf(table, |jobs|, k);
    }
  }

  /** When every spawned job has arrived there is exactly one row per job, in job order, and the kept rows are unchanged. */
  lemma {:induction false} FinalScorecard(jobs: seq<Key>, table: Table)
    requires Covers(table, jobs) && forall k :: 0 <= k < |jobs| ==> k in table
    ensures |Scorecard(table, |jobs|)| == |jobs|
    ensures forall k :: 0 <= k < |jobs| ==> Scorecard(table, |jobs|)[k] == table[k] && Scorecard(table, |jobs|)[k].key == jobs[k]
  {
    AllEntries(table, |jobs|);
  }

  lemma {:induction false} AllEntries(table: Table, n: nat)
    requires forall k :: 0 <= k < n ==> k in table
    ensures |Entries(table, n)| == n && forall k :: 0 <= k < n ==> Entries(table, n)[k] == Ranked(k, table[k])
  {
    if n > 0 {
      AllEntries(table, n - 1);
    }
  }

  /** The last checkpoint of a run in which every spawned job arrived. */
  lemma CompleteRun(jobs: seq<Key>, loaded: seq<Row>, retry: Option<Retry>, arrivals: seq<Ranked<Row>>)
    requires Results(jobs, Kept(jobs, Index(loaded), retry), arrivals)
    requires |Kept(jobs, Index(loaded), retry)| + |arrivals| == |jobs|
    ensures var kept := Kept(jobs, Index(loaded), retry);
            var rows := Scorecard(Arrived(kept, arrivals), |jobs|);
            && |rows| == |jobs| && (forall k :: 0 <= k < |jobs| ==> rows[k].key == jobs[k])
            && forall k :: k in kept ==> rows[k] == kept[k]
  {
    hide Index, Kept, Arrived, Scorecard;
    var kept := Kept(jobs, Index(loaded), retry);
    RunCovers(jobs, loaded, retry, arrivals);
    ArrivedHas(kept, arrivals);
    CountedOut(kept, arrivals, jobs);
    FinalScorecard(jobs, Arrived(kept, arrivals));
  }

  function Below(n: nat): (r: set<nat>)
    ensures |r| == n && forall k: nat :: k in r <==> k < n
  {
    if n == 0 then {} else Below(n - 1) + {n - 1}
  }

  /** As many different positions as there are jobs are all positions. */
  lemma CountedOut(kept: Table, arrivals: seq<Ranked<Row>>, jobs: seq<Key>)
    requires Results(jobs, kept, arrivals) && |kept| + |arrivals| == |jobs| && forall k :: k in kept ==> k < |jobs|
    ensures forall k: nat :: k < |jobs| ==> k in Arrived(kept, arrivals)
  {
    hide Arrived, Below;
    var orders := set j | 0 <= j < |arrivals| :: arrivals[j].order;
    OrdersCount(arrivals, orders);
    ArrivedHas(kept, arrivals);
    var all := kept.Keys + orders;
    assert kept.Keys !! orders;
    assert |all| == |jobs|;
    assert all <= Below(|jobs|);
    SubsetOfSameSize(all, Below(|jobs|));
  }

  lemma OrdersCount(arrivals: seq<Ranked<Row>>, orders: set<nat>)
    requires orders == set j | 0 <= j < |arrivals| :: arrivals[j].order
    requires forall i, j :: 0 <= i < j < |arrivals| ==> arrivals[i].order != arrivals[j].order
    ensures |orders| == |arrivals|
  {
    if arrivals != [] {
      var n := |arrivals| - 1;
      var init := set j | 0 <= j < |arrivals[..n]| :: arrivals[..n][j].order;
      OrdersCount(arrivals[..n], init);
      assert forall j :: 0 <= j < n ==> arrivals[..n][j] == arrivals[j];
      assert orders == init + {arrivals[n].order};
    }
  }

  lemma SubsetOfSameSize(a: set<nat>, b: set<nat>)
    requires a <= b && |a| == |b|
    ensures a == b
  {
    assert |b - a| == |b| - |a|;
  }

  /** Results may arrive in any order: the same arrivals give the same scorecard. */
  lemma ArrivalOrderIrrelevant(jobs: seq<Key>, kept: Table, a: seq<Ranked<Row>>, b: seq<Ranked<Row>>)
    requires Results(jobs, kept, a) && Results(jobs, kept, b) && multiset(a) == multiset(b)
    ensures Scorecard(Arrived(kept, a), |jobs|) == Scorecard(Arrived(kept, b), |jobs|)
  {
    RankedEntries(jobs, kept, a);
    RankedEntries(jobs, kept, b);
    OrderedIsScorecard(Entries(kept, |jobs|) + a, Arrived(kept, a), |jobs|);
    OrderedIsScorecard(Entries(kept, |jobs|) + a, Arrived(kept, b), |jobs|);
  }

  lemma {:induction false} RankedEntries(jobs: seq<Key>, kept: Table, arrivals: seq<Ranked<Row>>)
    requires Results(jobs, kept, arrivals)
    ensures multiset(Entries(kept, |jobs|) + arrivals) == multiset(Entries(Arrived(kept, arrivals), |jobs|))
    decreases |arrivals|
  {
    hide Entries, Results;
    if arrivals == [] {
      assert Entries(kept, |jobs|) + arrivals == Entries(kept, |jobs|);
    } else {
      var n := |arrivals| - 1;
      ResultsInit(jobs, kept, arrivals, n);
      RankedEntries(jobs, kept, arrivals[..n]);
      EntriesWithOneMore(Arrived(kept, arrivals[..n]), |jobs|, arrivals[n]);
      assert arrivals == arrivals[..n] + [arrivals[n]];
      assert arrivals[..n + 1] == arrivals;
      assert Entries(kept, |jobs|) + arrivals == (Entries(kept, |jobs|) + arrivals[..n]) + [arrivals[n]];
    }
  }

  /** Resuming from a checkpoint finds exactly its rows: nothing is refused, nothing is run twice. */
  lemma ResumeFindsCheckpoint(jobs: seq<Key>, table: Table)
    requires Distinct(jobs) && Covers(table, jobs)
    ensures Kept(jobs, Index(Scorecard(table, |jobs|)), None) == table
    ensures forall key :: key in Index(Scorecard(table, |jobs|)) ==> key in jobs
  {
    hide Entries, Index, Scorecard, Kept;
    var index := Index(Scorecard(table, |jobs|));
    IndexOfScorecard(jobs, table);
    forall k: nat | k < |jobs|
      ensures k in table <==> jobs[k] in index
      ensures k in table ==> index[jobs[k]] == table[k]
    {
      TableInIndex(jobs, table, k);
    }
    assert Kept(jobs, index, None) == table;
  }

  lemma SamePosition(jobs: seq<Key>, a: nat, b: nat)
    requires Distinct(jobs) && a < |jobs| && b < |jobs| && jobs[a] == jobs[b]
    ensures a == b
  {
  }

  lemma TableInIndex(jobs: seq<Key>, table: Table, k: nat)
    requires Distinct(jobs) && Covers(table, jobs) && k < |jobs|
    ensures k in table <==> jobs[k] in Index(Scorecard(table, |jobs|))
    ensures k in table ==> Index(Scorecard(table, |jobs|))[jobs[k]] == table[k]
  {
    hide Entries, Index, Scorecard, PositionsOf, Distinct;
    var rows := Scorecard(table, |jobs|);
    PositionsAscend(table, |jobs|);
    IndexKeys(rows);
    IndexOfScorecard(jobs, table);
    if k in table {
      PositionOf(table, |jobs|, k);
      var i :| 0 <= i < |rows| && PositionsOf(table, |jobs|)[i] == k;
      assert rows[i].key == jobs[k];
    }
    if jobs[k] in Index(rows) {
      var j :| j in table && j < |jobs| && jobs[j] == jobs[k] && Index(rows)[jobs[k]] == table[j];
      SamePosition(jobs, j, k);
    }
  }

  /** A row of the index stands at its job's position. */
  lemma IndexOfScorecard(jobs: seq<Key>, table: Table)
    requires Covers(table, jobs)
    ensures var index := Index(Scorecard(table, |jobs|));
            forall key :: key in index ==> key in jobs && exists k :: k in table && k < |jobs| && jobs[k] == key && index[key] == table[k]
  {
    hide Entries, Index, Scorecard, PositionsOf;
    var rows := Scorecard(table, |jobs|);
    PositionsAscend(table, |jobs|);
    IndexKeys(rows);
    forall key | key in Index(rows)
      ensures key in jobs && exists k :: k in table && k < |jobs| && jobs[k] == key && Index(rows)[key] == table[k]
    {
      var i :| 0 <= i < |rows| && rows[i] == Index(rows)[key];
      var k := PositionsOf(table, |jobs|)[i];
      assert k in table && jobs[k] == key && table[k] == rows[i];
    }
  }

  lemma {:induction false} ArrivedTogether(table: Table, a: seq<Ranked<Row>>, b: seq<Ranked<Row>>)
    ensures Arrived(table, a + b) == Arrived(Arrived(table, a), b)
    decreases |b|
  {
    if b == [] {
      assert a + b == a;
    } else {
      var n := |b| - 1;
      assert (a + b)[..|a| + n] == a + b[..n];
      ArrivedTogether(table, a, b[..n]);
    }
  }

  /**
   A run interrupted after any arrivals and resumed without a retry policy ends with the
   scorecard of the run that was never interrupted.
   */
  lemma ResumeContinues(jobs: seq<Key>, loaded: seq<Row>, retry: Option<Retry>, a: seq<Ranked<Row>>, b: seq<Ranked<Row>>)
    requires Distinct(jobs) && Results(jobs, Kept(jobs, Index(loaded), retry), a)
    ensures var kept := Kept(jobs, Index(loaded), retry);
            var checkpoint := Scorecard(Arrived(kept, a), |jobs|);
            var resumed := Kept(jobs, Index(checkpoint), None);
            && Scorecard(Arrived(resumed, b), |jobs|) == Scorecard(Arrived(kept, a + b), |jobs|)
            && forall k :: k in resumed <==> k in Arrived(kept, a)
  {
    hide Index, Kept, Scorecard, Results, Distinct;
    var kept := Kept(jobs, Index(loaded), retry);
    RunCovers(jobs, loaded, retry, a);
    ResumeFindsCheckpoint(jobs, Arrived(kept, a));
    ArrivedTogether(kept, a, b);
  }

  /** Exactly the rows that a retry policy selects are run again. */
  lemma RetrySelects(jobs: seq<Key>, table: Table, retry: Option<Retry>)
    requires Distinct(jobs) && Covers(table, jobs)
    ensures var kept := Kept(jobs, Index(Scorecard(table, |jobs|)), retry);
            forall k :: k in table ==> (k in kept <==> !ShouldRetry(table[k], retry)) && (k in kept ==> kept[k] == table[k])
  {
    hide Index, Scorecard;
    ResumeFindsCheckpoint(jobs, table);
  }

  /** Without a policy nothing is tried again; the timeout policy takes exactly the rows that timed out, the miss policy the other rows that missed. */
  lemma PoliciesAre(row: Row)
    ensures !ShouldRetry(row, None)
    ensures ShouldRetry(row, Some(Timeout)) <==> row.kind == "timeout"
    ensures ShouldRetry(row, Some(Miss)) <==> row.searchOrDownload == "miss" && !ShouldRetry(row, Some(Timeout))
  {
  }
}
