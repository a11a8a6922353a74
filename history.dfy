/** The history tab's search of App.tsx: the reports in which the lower-cased search term
    occurs in a role's name or in the scripture text, newest first. */
module History {
  import opened Types
  import opened Seqs
  import opened Text

  /** `r` is listed for the lower-cased term `t`: `t` occurs in the lower-cased gate,
      worship or sermon name, or in the lower-cased scripture text. `lower` stands for
      `String.prototype.toLowerCase`. */
  predicate Hit(r: Report, t: string, lower: string -> string) {
    || Includes(lower(Label(r.portao)), t)
    || Includes(lower(Label(r.louvor)), t)
    || Includes(lower(Label(r.palavra)), t)
    || Includes(lower(r.textoBiblico), t)
  }

  /** The sort key of the list: the creation instant. */
  function Stamp(r: Report): ExtInt {
    Fin(r.timestamp)
  }

  /** The listed reports: those hit by the term, most recently created first. Every listed
      report is a saved one that the term hits, each saved report the term hits is listed,
      no report is listed more often than it is saved, and creation times never increase
      down the list. */
  function Search(reports: seq<Report>, term: string, lower: string -> string): (shown: seq<Report>)
    ensures forall i :: 0 <= i < |shown| ==> shown[i] in reports && Hit(shown[i], lower(term), lower)
    ensures forall i :: 0 <= i < |reports| && Hit(reports[i], lower(term), lower) ==> reports[i] in shown
    ensures multiset(shown) <= multiset(reports)
    ensures SortedDesc(shown, Stamp)
  {
    var t := lower(term);
    var p := (r: Report) => Hit(r, t, lower);
    var hits := Filter(reports, p);
    var shown := SortDesc(hits, Stamp);
    assert forall i :: 0 <= i < |shown| ==> shown[i] in reports && Hit(shown[i], t, lower) by {
      forall i | 0 <= i < |shown| ensures shown[i] in reports && Hit(shown[i], t, lower) {
        SortDescIn(hits, Stamp, shown[i]);
        FilterIn(reports, p, shown[i]);
      }
    }
    assert forall i :: 0 <= i < |reports| && Hit(reports[i], t, lower) ==> reports[i] in shown by {
      forall i | 0 <= i < |reports| && Hit(reports[i], t, lower) ensures reports[i] in shown {
        FilterIn(reports, p, reports[i]);
        SortDescIn(hits, Stamp, reports[i]);
      }
    }
    shown
  }

  /** With an empty search box (whose lower-case form is empty) every saved report is
      listed, each exactly once. */
  lemma EmptySearchListsAll(reports: seq<Report>, lower: string -> string)
    requires lower("") == ""
    ensures multiset(Search(reports, "", lower)) == multiset(reports)
  {
    FilterAll(reports, (r: Report) => Hit(r, "", lower));
  }
}
