/** The activity ranking of App.tsx: how many times each worker held each role. */
module Stats {
  import opened Types
  import opened Records
  import opened Seqs
  import Rotation

  datatype Counts = Counts(portao: nat, louvor: nat, palavra: nat)

  /** The number of reports in which `w` held `task`, counted from the last report back. */
  function Tally(reports: seq<Report>, task: Task, w: Worker): (n: nat)
    ensures n <= |reports|
  {
    if reports == [] then 0
    else
      var last := reports[|reports| - 1];
      Tally(reports[..|reports| - 1], task, w) + (if Role(last, task) == w then 1 else 0)
  }

  /** The three tallies of one worker. */
  function CountsOf(reports: seq<Report>, w: Worker): Counts {
    Counts(Tally(reports, Portao, w), Tally(reports, Louvor, w), Tally(reports, Palavra, w))
  }

  /** The number of acts shown for a worker. */
  function Total(c: Counts): nat {
    c.portao + c.louvor + c.palavra
  }

  /** Every roster worker with all counters at zero. */
  method ZeroStats() returns (stats: map<Worker, Counts>)
    ensures forall w :: w in stats <==> w in Workers
    ensures forall w :: w in stats ==> stats[w] == Counts(0, 0, 0)
  {
    stats := map[];
    for k := 0 to |Workers|
      invariant forall w :: w in stats <==> w in Workers[..k]
      invariant forall w :: w in stats ==> stats[w] == Counts(0, 0, 0)
    {
      stats := stats[Workers[k] := Counts(0, 0, 0)];
    }
    assert Workers[..|Workers|] == Workers;
  }

  /** `workerStats`: every roster worker starts at zero; then each report adds one to the
      gate, worship and sermon counter of the worker holding that role, when that worker is
      on the roster (the sentinel never is, and is also excluded from the sermon count). */
  method WorkerStats(reports: seq<Report>) returns (stats: map<Worker, Counts>)
    ensures forall w :: w in stats <==> w in Workers
    ensures NaoHouve !in stats
    ensures forall w :: w in stats ==> stats[w] == CountsOf(reports, w)
  {
    stats := ZeroStats();
    ghost var roster := stats.Keys;
    assert NaoHouve !in roster;
    assert reports[..0] == [];
    for i := 0 to |reports|
      invariant stats.Keys == roster
      invariant forall w :: w in stats ==> stats[w] == CountsOf(reports[..i], w)
    {
      CountsStep(reports, i);
      stats := CountReport(stats, reports[i]);
    }
    assert reports[..|reports|] == reports;
  }

  /** The loop body of `workerStats` for one report: each role's counter of the worker
      holding it goes up by one when that worker has an entry; the sermon is never counted
      for the sentinel. */
  method CountReport(stats0: map<Worker, Counts>, r: Report) returns (stats: map<Worker, Counts>)
    requires NaoHouve !in stats0
    ensures stats.Keys == stats0.Keys
    ensures forall w :: w in stats ==> stats[w] == Step(stats0[w], r, w)
  {
    stats := stats0;
    if r.portao in stats {
      var c := stats[r.portao];
      stats := stats[r.portao := Counts(c.portao + 1, c.louvor, c.palavra)];
    }
    if r.louvor in stats {
      var c := stats[r.louvor];
      stats := stats[r.louvor := Counts(c.portao, c.louvor + 1, c.palavra)];
    }
    if r.palavra in stats && r.palavra != NaoHouve {
      var c := stats[r.palavra];
      stats := stats[r.palavra := Counts(c.portao, c.louvor, c.palavra + 1)];
    }
  }

  /** The counters of `w` after report `r` is counted. */
  function Step(c: Counts, r: Report, w: Worker): Counts {
    Counts(c.portao + (if r.portao == w then 1 else 0),
           c.louvor + (if r.louvor == w then 1 else 0),
           c.palavra + (if r.palavra == w then 1 else 0))
  }

  /** One more report adds one to the counter of each role it names. */
  lemma CountsStep(reports: seq<Report>, i: nat)
    requires i < |reports|
    ensures forall w :: CountsOf(reports[..i + 1], w) == Step(CountsOf(reports[..i], w), reports[i], w)
  {
    assert reports[..i + 1][..i] == reports[..i];
  }

  /** Tallies add up over a concatenation. */
  lemma {:induction false} TallyAppend(a: seq<Report>, b: seq<Report>, task: Task, w: Worker)
    ensures Tally(a + b, task, w) == Tally(a, task, w) + Tally(b, task, w)
  {
    if b == [] {
      assert a + b == a;
    } else {
      var b' := b[..|b| - 1];
      assert (a + b)[..|a + b| - 1] == a + b';
      assert (a + b)[|a + b| - 1] == b[|b| - 1];
      TallyAppend(a, b', task, w);
    }
  }

  /** Saving a new report adds one to exactly the tallies of the workers it names. */
  lemma TallyPrepend(s: seq<Report>, r: Report, task: Task, w: Worker)
    ensures Tally(Prepend(s, r), task, w) == Tally(s, task, w) + (if Role(r, task) == w then 1 else 0)
  {
    TallyAppend([r], s, task, w);
    assert Tally([r], task, w) == (if Role(r, task) == w then 1 else 0) by {
      assert [r][..0] == [];
    }
  }

  /** Saving a new report adds to a worker's displayed total one per role the report gives
      them. */
  lemma TotalPrepend(s: seq<Report>, r: Report, w: Worker)
    ensures Total(CountsOf(Prepend(s, r), w)) == Total(CountsOf(s, w)) +
      (if r.portao == w then 1 else 0) + (if r.louvor == w then 1 else 0) + (if r.palavra == w then 1 else 0)
  {
    TallyPrepend(s, r, Portao, w);
    TallyPrepend(s, r, Louvor, w);
    TallyPrepend(s, r, Palavra, w);
  }

  /** Deleting a report (ids unique) takes one off exactly the tallies of the workers it names. */
  lemma TallyRemove(s: seq<Report>, k: nat, task: Task, w: Worker)
    requires UniqueIds(s) && k < |s|
    ensures Tally(RemoveById(s, s[k].id), task, w) ==
      Tally(s, task, w) - (if Role(s[k], task) == w then 1 else 0)
  {
    RemoveAt(s, k);
    assert s == s[..k] + ([s[k]] + s[k + 1..]);
    TallyAppend(s[..k], [s[k]] + s[k + 1..], task, w);
    TallyAppend([s[k]], s[k + 1..], task, w);
    TallyAppend(s[..k], s[k + 1..], task, w);
    assert Tally([s[k]], task, w) == (if Role(s[k], task) == w then 1 else 0) by {
      assert [s[k]][..0] == [];
    }
  }

  /** The sum of the tallies of the workers in `ws`. */
  function SumTallies(reports: seq<Report>, task: Task, ws: seq<Worker>): nat {
    if ws == [] then 0 else Tally(reports, task, ws[0]) + SumTallies(reports, task, ws[1..])
  }

  /** Summed over the whole roster, a role's counts are the number of reports in which that
      role was held by someone other than the sentinel: each act is counted exactly once. */
  lemma {:induction false} TalliesAddUp(reports: seq<Report>, task: Task)
    ensures SumTallies(reports, task, Workers) == |reports| - Tally(reports, task, NaoHouve)
  {
    if reports == [] {
      NoTallies(task, Workers);
    } else {
      var s := reports[..|reports| - 1];
      var r := reports[|reports| - 1];
      TalliesAddUp(s, task);
      WorkersDistinct();
      SumTalliesStep(s, r, task, Workers);
      assert s + [r] == reports;
      WorkersAreAllButSentinel(Role(r, task));
    }
  }

  /** No worker is listed twice on the roster. */
  lemma WorkersDistinct()
    ensures forall i, j :: 0 <= i < j < |Workers| ==> Workers[i] != Workers[j]
  {
  }

  lemma {:induction false} NoTallies(task: Task, ws: seq<Worker>)
    ensures SumTallies([], task, ws) == 0
  {
    if ws != [] {
      NoTallies(task, ws[1..]);
    }
  }

  lemma {:induction false} SumTalliesStep(s: seq<Report>, r: Report, task: Task, ws: seq<Worker>)
    requires forall i, j :: 0 <= i < j < |ws| ==> ws[i] != ws[j]
    ensures SumTallies(s + [r], task, ws) == SumTallies(s, task, ws) + (if Role(r, task) in ws then 1 else 0)
  {
    if ws != [] {
      SumTalliesStep(s, r, task, ws[1..]);
      assert (s + [r])[..|s + [r]| - 1] == s;
      assert Role(r, task) in ws <==> Role(r, task) == ws[0] || Role(r, task) in ws[1..];
    }
  }

  // ---------------------------------------------------------------------------
  // The reports behind one counter

  /** Report `r` is listed under `w`'s `task` counter: `w` held that role, and for the
      sermon `w` is not the sentinel. */
  predicate Listed(r: Report, task: Task, w: Worker) {
    Role(r, task) == w && (task == Palavra ==> w != NaoHouve)
  }

  /** The filter of the detail list, as one value for every use. */
  function ListedFor(task: Task, w: Worker): Report -> bool {
    r => Listed(r, task, w)
  }

  /** `showWorkerDetails`: the reports behind `w`'s `task` counter, latest service first.
      Exactly the saved reports that list `w` are shown, none more often than saved. */
  function Details(reports: seq<Report>, task: Task, w: Worker): (shown: seq<Report>)
    ensures forall r :: r in shown <==> r in reports && Listed(r, task, w)
    ensures multiset(shown) <= multiset(reports)
    ensures SortedDesc(shown, Rotation.DateKey)
  {
    var listed := Filter(reports, ListedFor(task, w));
    var shown := SortDesc(listed, Rotation.DateKey);
    assert forall r :: r in shown <==> r in reports && Listed(r, task, w) by {
      forall r ensures r in shown <==> r in reports && Listed(r, task, w) {
        SortDescIn(listed, Rotation.DateKey, r);
        FilterIn(reports, ListedFor(task, w), r);
      }
    }
    shown
  }

  /** The detail list has as many reports as the counter it opens from shows; only the
      sentinel's sermon list is always empty. */
  lemma DetailsMatchCounter(reports: seq<Report>, task: Task, w: Worker)
    ensures |Details(reports, task, w)| == if task == Palavra && w == NaoHouve then 0 else Tally(reports, task, w)
  {
    ListedTally(reports, task, w);
  }

  lemma {:induction false} ListedTally(reports: seq<Report>, task: Task, w: Worker)
    ensures |Filter(reports, ListedFor(task, w))| ==
      if task == Palavra && w == NaoHouve then 0 else Tally(reports, task, w)
  {
    if reports != [] {
      var init := reports[..|reports| - 1];
      var last := reports[|reports| - 1];
      assert init + [last] == reports;
      FilterAppend(init, [last], ListedFor(task, w));
      ListedTally(init, task, w);
      assert [last][1..] == [];
    }
  }
}
