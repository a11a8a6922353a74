/** The idleness ("ociosidade") table of App.tsx: for each service day and role, every
    worker of the rotation pool with the date they last held that role on that day and the
    whole days elapsed since, most idle first. */
module Rotation {
  import opened Types
  import opened Seqs

  /** Milliseconds in a day, the divisor of the elapsed time. */
  const MsPerDay: int := 1000 * 60 * 60 * 24

  /** More idle days than this (or never) marks a worker as urgent. */
  const UrgentAfterDays: int := 21

  /** Broadcast operators, visitors and the sentinel do not rotate. */
  predicate Eligible(w: Worker) {
    w != Transmissao && w != Visitante && w != NaoHouve
  }

  /** The workers that rotate, in roster order. */
  const Pool: seq<Worker> :=
    [Benedito, Claudio, David, Etiel, LuizBorges, LuizCorrea,
     Manoel, Reginaldo, Roberto, Valdemiro, Vinicius]

  /** The pool is the roster with the two non-rotating names taken out, in roster order:
      exactly the roster workers that are eligible. */
  lemma PoolIsFilteredRoster()
    ensures Pool == Workers[..6] + Workers[7..12]
    ensures !Eligible(Workers[6]) && !Eligible(Workers[12]) && |Workers| == 13
    ensures forall w :: w in Pool <==> w in Workers && Eligible(w)
  {
  }

  /** Report `r` is a service of `day` at which `w` held `task`. */
  predicate Matches(r: Report, day: Day, task: Task, w: Worker) {
    r.dayOfWeek == day && Role(r, task) == w
  }

  /** The sort key of the matching reports: the service date. */
  function DateKey(r: Report): ExtInt {
    Fin(r.date)
  }

  /** The first of the reports sorted by date, newest first: one with the latest date. */
  function Newest(rs: seq<Report>): (newest: Report)
    requires rs != []
    ensures newest in rs
    ensures forall i :: 0 <= i < |rs| ==> rs[i].date <= newest.date
  {
    var sorted := SortDesc(rs, DateKey);
    SortDescIn(rs, DateKey, sorted[0]);
    assert forall i :: 0 <= i < |rs| ==> rs[i].date <= sorted[0].date by {
      forall i | 0 <= i < |rs| ensures rs[i].date <= sorted[0].date {
        SortDescIn(rs, DateKey, rs[i]);
        var k :| 0 <= k < |sorted| && sorted[k] == rs[i];
        if k > 0 {
          assert AtLeast(DateKey(sorted[0]), DateKey(sorted[k]));
        }
      }
    }
    sorted[0]
  }

  /** The most recent service of `day` at which `w` held `task`: the matching reports sorted
      by date, newest first, and the first of them; none if nothing matches. */
  function LastExec(reports: seq<Report>, day: Day, task: Task, w: Worker): (last: Option<Report>)
    ensures last.None? <==> forall i :: 0 <= i < |reports| ==> !Matches(reports[i], day, task, w)
    ensures last.Some? ==> last.value in reports && Matches(last.value, day, task, w)
    ensures last.Some? ==> forall i :: 0 <= i < |reports| && Matches(reports[i], day, task, w) ==>
      reports[i].date <= last.value.date
  {
    var p := (r: Report) => Matches(r, day, task, w);
    var matching := Filter(reports, p);
    assert forall i :: 0 <= i < |reports| && Matches(reports[i], day, task, w) ==> reports[i] in matching by {
      forall i | 0 <= i < |reports| && Matches(reports[i], day, task, w) ensures reports[i] in matching {
        FilterIn(reports, p, reports[i]);
      }
    }
    if matching == [] then None
    else
      var newest := Newest(matching);
      FilterIn(reports, p, newest);
      Some(newest)
  }

  /** Whole days from the local midnight of `lastDate` to the instant `nowMs` (floor of the
      difference over a day), or infinity when there is no last date. A finite value is
      today's day number minus `lastDate`. */
  function DaysSince(nowMs: int, lastDate: Option<int>): (r: ExtInt)
    ensures r == Inf <==> lastDate.None?
    ensures lastDate.Some? ==> r == Fin(nowMs / MsPerDay - lastDate.value)
  {
    match lastDate
    case None => Inf
    case Some(d) => Fin((nowMs - d * MsPerDay) / MsPerDay)
  }

  /** One row of the table. */
  datatype Entry = Entry(name: Worker, lastDate: Option<int>, daysSince: ExtInt)

  function EntryFor(reports: seq<Report>, day: Day, task: Task, w: Worker, nowMs: int): Entry {
    var last := LastExec(reports, day, task, w);
    var lastDate := if last.Some? then Some(last.value.date) else None;
    Entry(w, lastDate, DaysSince(nowMs, lastDate))
  }

  /** Urgent: idle for more than three weeks, or never. */
  predicate IsUrgent(e: Entry) {
    e.daysSince == Inf || e.daysSince.n > UrgentAfterDays
  }

  /** The sort key of the table. */
  function DaysKey(e: Entry): ExtInt {
    e.daysSince
  }

  /** The unsorted list for one (day, task): the entry of each pool worker, in pool order. */
  function Entries(reports: seq<Report>, day: Day, task: Task, nowMs: int): (es: seq<Entry>)
    ensures |es| == |Pool|
    ensures forall i :: 0 <= i < |Pool| ==> es[i] == EntryFor(reports, day, task, Pool[i], nowMs)
  {
    seq(|Pool|, i requires 0 <= i < |Pool| => EntryFor(reports, day, task, Pool[i], nowMs))
  }

  /** The list for one (day, task): the pool's entries sorted by days since, descending. So
      never-assigned workers come first and the urgent ones form a prefix. */
  function Ranking(reports: seq<Report>, day: Day, task: Task, nowMs: int): (r: seq<Entry>)
    ensures multiset(r) == multiset(Entries(reports, day, task, nowMs))
    ensures SortedDesc(r, DaysKey)
  {
    SortDesc(Entries(reports, day, task, nowMs), DaysKey)
  }

  /** In a list sorted by days since, never-assigned workers precede every other one and
      the urgent entries form a prefix. */
  lemma SortedUrgentFirst(r: seq<Entry>, i: nat, j: nat)
    requires SortedDesc(r, DaysKey) && i < j < |r|
    ensures r[j].daysSince == Inf ==> r[i].daysSince == Inf
    ensures IsUrgent(r[j]) ==> IsUrgent(r[i])
  {
    assert AtLeast(DaysKey(r[i]), DaysKey(r[j]));
  }

  /** The ranking lists every pool worker once, each with the entry computed for them. */
  lemma RankingCoversPool(reports: seq<Report>, day: Day, task: Task, nowMs: int)
    ensures |Ranking(reports, day, task, nowMs)| == |Pool|
    ensures forall w :: w in Pool ==> EntryFor(reports, day, task, w, nowMs) in Ranking(reports, day, task, nowMs)
    ensures forall e :: e in Ranking(reports, day, task, nowMs) ==>
      e.name in Pool && e == EntryFor(reports, day, task, e.name, nowMs)
  {
    var es := Entries(reports, day, task, nowMs);
    var r := Ranking(reports, day, task, nowMs);
    assert r == SortDesc(es, DaysKey);
    forall w | w in Pool ensures EntryFor(reports, day, task, w, nowMs) in r {
      var i :| 0 <= i < |Pool| && Pool[i] == w;
      SortDescIn(es, DaysKey, es[i]);
    }
    forall e | e in r ensures e.name in Pool && e == EntryFor(reports, day, task, e.name, nowMs) {
      SortDescIn(es, DaysKey, e);
      var i :| 0 <= i < |es| && es[i] == e;
    }
  }

  /** The (day, task) pairs the table has: every day of the day list (which has no QUA) with
      every role. */
  function TableKeys(): set<(Day, Task)> {
    set d, t | d in DaysOfWeek && t in Tasks :: (d, t)
  }

  lemma AllTasks()
    ensures forall t: Task :: t in Tasks
  {
    forall t: Task ensures t in Tasks {
      match t
      case Portao =>
      case Louvor =>
      case Palavra =>
    }
  }

  /** `availabilityData`: a ranking for every day of the day list and every role. */
  function AvailabilityTable(reports: seq<Report>, nowMs: int): (table: map<(Day, Task), seq<Entry>>)
    ensures forall d, t :: (d, t) in table <==> d != QUA
    ensures forall k :: k in table ==> table[k] == Ranking(reports, k.0, k.1, nowMs)
  {
    AllTasks();
    assert forall d :: d in DaysOfWeek <==> d != QUA;
    assert forall d, t :: (d, t) in TableKeys() <==> d in DaysOfWeek && t in Tasks;
    map k | k in TableKeys() :: Ranking(reports, k.0, k.1, nowMs)
  }
}
