/** Rows keyed by id, with the id sequence, and queries ordered by id. */
module Tables {
  datatype Table<T> = Table(rows: map<nat, T>, next: nat)

  /** Ids start at 1 and stay below the next one to be handed out. */
  ghost predicate Numbered<T>(t: Table<T>) {
    t.next >= 1 && forall id :: id in t.rows ==> 1 <= id < t.next
  }

  function Empty<T>(): Table<T> {
    Table(map[], 1)
  }

  /** The ids in [lo, hi) whose rows satisfy `where`, in ascending order. */
  function Ids<T>(rows: map<nat, T>, where: (nat, T) -> bool, lo: nat, hi: nat): seq<nat>
    decreases hi - lo
  {
    if lo >= hi then []
    else if lo in rows && where(lo, rows[lo]) then [lo] + Ids(rows, where, lo + 1, hi)
    else Ids(rows, where, lo + 1, hi)
  }

  lemma {:induction false} IdsAscend<T>(rows: map<nat, T>, where: (nat, T) -> bool, lo: nat, hi: nat)
    ensures forall id :: id in Ids(rows, where, lo, hi) <==> lo <= id < hi && id in rows && where(id, rows[id])
    ensures forall i, j :: 0 <= i < j < |Ids(rows, where, lo, hi)| ==>
      Ids(rows, where, lo, hi)[i] < Ids(rows, where, lo, hi)[j]
    decreases hi - lo
  {
    if lo < hi {
      IdsAscend(rows, where, lo + 1, hi);
      var rest := Ids(rows, where, lo + 1, hi);
      forall j | 0 <= j < |rest| ensures rest[j] > lo {
        assert rest[j] in rest;
      }
    }
  }

  /** An ascending list of ids is determined by its members. */
  lemma {:induction false} AscendingUnique(a: seq<nat>, b: seq<nat>)
    requires forall i, j :: 0 <= i < j < |a| ==> a[i] < a[j]
    requires forall i, j :: 0 <= i < j < |b| ==> b[i] < b[j]
    requires forall x :: x in a <==> x in b
    ensures a == b
  {
    assert a != [] ==> a[0] in b;
    assert b != [] ==> b[0] in a;
    if a != [] {
      assert a[0] == b[0];
      forall x ensures x in a[1..] <==> x in b[1..] {
        assert x in a[1..] <==> x in a && x != a[0];
        assert x in b[1..] <==> x in b && x != b[0];
      }
      AscendingUnique(a[1..], b[1..]);
    }
  }

  /** Restarting after the k-th hit gives the remaining hits. */
  lemma IdsAfter<T>(rows: map<nat, T>, where: (nat, T) -> bool, lo: nat, hi: nat, k: nat)
    requires 0 < k <= |Ids(rows, where, lo, hi)|
    ensures var ids := Ids(rows, where, lo, hi); Ids(rows, where, ids[k - 1] + 1, hi) == ids[k..]
  {
    hide Ids;
    var ids := Ids(rows, where, lo, hi);
    IdsAscend(rows, where, lo, hi);
    var from := ids[k - 1] + 1;
    assert ids[k - 1] in ids;
    IdsAscend(rows, where, from, hi);
    AscendingTail(ids, k);
    AscendingUnique(Ids(rows, where, from, hi), ids[k..]);
  }

  /** The members of an ascending list after position k are those above the k-th. */
  lemma AscendingTail(ids: seq<nat>, k: nat)
    requires 0 < k <= |ids| && forall i, j :: 0 <= i < j < |ids| ==> ids[i] < ids[j]
    ensures forall i, j :: 0 <= i < j < |ids[k..]| ==> ids[k..][i] < ids[k..][j]
    ensures forall x :: x in ids[k..] <==> x in ids && x > ids[k - 1]
  {
    forall x ensures x in ids[k..] <==> x in ids && x > ids[k - 1] {
      if x in ids && x > ids[k - 1] {
        var i :| 0 <= i < |ids| && ids[i] == x;
        assert ids[k..][i - k] == x;
      }
    }
  }
}
