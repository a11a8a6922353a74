/** The record list and its three edits (App.tsx): a new report is put in front, an edit
    rewrites the reports with the edited id in place, a delete filters that id out. */
module Records {
  import opened Types
  import opened Seqs
  import opened DayRules

  function Ids(s: seq<Report>): (ids: seq<string>)
    ensures |ids| == |s| && forall i :: 0 <= i < |s| ==> ids[i] == s[i].id
  {
    seq(|s|, i requires 0 <= i < |s| => s[i].id)
  }

  /** No two reports share an id. */
  ghost predicate UniqueIds(s: seq<Report>) {
    forall i, j :: 0 <= i < j < |s| ==> s[i].id != s[j].id
  }

  /** Every report satisfies the record invariant. */
  ghost predicate AllConform(s: seq<Report>) {
    forall i :: 0 <= i < |s| ==> ReportConforms(s[i])
  }

  /** Creating: the new report goes first and every old report follows in its old order;
      a fresh id keeps the ids unique. */
  function Prepend(s: seq<Report>, r: Report): (t: seq<Report>)
    ensures |t| == |s| + 1 && t[0] == r && t[1..] == s
    ensures UniqueIds(s) && r.id !in Ids(s) ==> UniqueIds(t)
    ensures AllConform(s) && ReportConforms(r) ==> AllConform(t)
  {
    [r] + s
  }

  /** Editing: every report whose id is `id` takes the form's fields and keeps its id and
      timestamp; every other report, the length and the order stay as they were. An id that
      is not in the list changes nothing. */
  function ReplaceById(s: seq<Report>, id: string, f: Form): (t: seq<Report>)
    requires Validate(f) == Pass
    ensures |t| == |s| && Ids(t) == Ids(s)
    ensures forall i :: 0 <= i < |s| ==> t[i].timestamp == s[i].timestamp
    ensures forall i :: 0 <= i < |s| && s[i].id != id ==> t[i] == s[i]
    ensures forall i :: 0 <= i < |s| && s[i].id == id ==> t[i] == Stored(f, id, s[i].timestamp)
    ensures id !in Ids(s) ==> t == s
    ensures UniqueIds(s) ==> UniqueIds(t)
    ensures AllConform(s) && Conforms(f) ==> AllConform(t)
  {
    var t := seq(|s|, i requires 0 <= i < |s| =>
      if s[i].id == id then Stored(f, s[i].id, s[i].timestamp) else s[i]);
    assert Ids(t) == Ids(s);
    t
  }

  /** Deleting: the reports whose id is not `id`, in their order. */
  function RemoveById(s: seq<Report>, id: string): (t: seq<Report>)
    ensures id !in Ids(t)
    ensures multiset(t) <= multiset(s)
    ensures forall i :: 0 <= i < |s| && s[i].id != id ==> s[i] in t
    ensures AllConform(s) ==> AllConform(t)
  {
    var p := (r: Report) => r.id != id;
    var t := Filter(s, p);
    assert forall i :: 0 <= i < |t| ==> Ids(t)[i] == t[i].id != id;
    assert forall i :: 0 <= i < |s| && s[i].id != id ==> s[i] in t by {
      forall i | 0 <= i < |s| && s[i].id != id ensures s[i] in t {
        FilterIn(s, p, s[i]);
      }
    }
    assert AllConform(s) ==> AllConform(t) by {
      if AllConform(s) {
        forall i | 0 <= i < |t| ensures ReportConforms(t[i]) {
          FilterIn(s, p, t[i]);
        }
      }
    }
    t
  }

  /** Deleting an id that is not in the list changes nothing. */
  lemma RemoveAbsent(s: seq<Report>, id: string)
    requires id !in Ids(s)
    ensures RemoveById(s, id) == s
  {
    assert forall i :: 0 <= i < |s| ==> s[i].id != id by {
      forall i | 0 <= i < |s| ensures s[i].id != id {
        assert Ids(s)[i] == s[i].id;
      }
    }
    FilterAll(s, (r: Report) => r.id != id);
  }

  /** With unique ids, deleting the id of the report at `k` removes exactly that report:
      the others keep their relative order. */
  lemma RemoveAt(s: seq<Report>, k: nat)
    requires UniqueIds(s) && k < |s|
    ensures RemoveById(s, s[k].id) == s[..k] + s[k + 1..]
  {
    var id := s[k].id;
    var p := (r: Report) => r.id != id;
    var before, from, after := s[..k], s[k..], s[k + 1..];
    assert s == before + from;
    assert from[0] == s[k] && from[1..] == after;
    assert Filter(from, p) == Filter(after, p);
    FilterAppend(before, from, p);
    forall i | 0 <= i < |before| ensures p(before[i]) {
      assert before[i] == s[i];
    }
    FilterAll(before, p);
    forall i | 0 <= i < |after| ensures p(after[i]) {
      assert after[i] == s[k + 1 + i];
    }
    FilterAll(after, p);
  }

  /** Deleting keeps the ids unique. */
  lemma RemoveKeepsUnique(s: seq<Report>, id: string)
    requires UniqueIds(s)
    ensures UniqueIds(RemoveById(s, id))
  {
    if id in Ids(s) {
      var k :| 0 <= k < |s| && Ids(s)[k] == id;
      RemoveAt(s, k);
      DropKeepsUnique(s, k);
    } else {
      RemoveAbsent(s, id);
    }
  }

  lemma DropKeepsUnique(s: seq<Report>, k: nat)
    requires UniqueIds(s) && k < |s|
    ensures UniqueIds(s[..k] + s[k + 1..])
  {
    var t := s[..k] + s[k + 1..];
    forall i, j | 0 <= i < j < |t| ensures t[i].id != t[j].id {
      var i' := if i < k then i else i + 1;
      var j' := if j < k then j else j + 1;
      assert t[i] == s[i'] && t[j] == s[j'];
    }
  }
}
