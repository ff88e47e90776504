/** Keyset-paged export (app/repositories/leads.py, page and iter_export). */
module Export {
  import opened Tables

  /** The first `limit` matching rows with ids above `after`, in id order. */
  function PageIds<T>(table: Table<T>, matches: (nat, T) -> bool, limit: nat, after: nat): seq<nat> {
    var ids := Ids(table.rows, matches, after + 1, table.next);
    if |ids| <= limit then ids else ids[..limit]
  }

  datatype Result = Result(ids: seq<nat>, complete: bool, pages: nat)

  /**
   * The export as a function of what the table holds each time a page is read; other transactions may
   * change it in between. It is complete when the loop returned before the snapshots ran out.
   */
  function Exported<T>(snapshots: seq<Table<T>>, matches: (nat, T) -> bool, batch: nat, after: nat): Result {
    if snapshots == [] then Result([], false, 0)
    else
      var page := PageIds(snapshots[0], matches, batch, after);
      if page == [] || |page| < batch then Result(page, true, 1)
      else
        var rest := Exported(snapshots[1..], matches, batch, page[|page| - 1]);
        Result(page + rest.ids, rest.complete, rest.pages + 1)
  }

  method IterExport<T>(snapshots: seq<Table<T>>, matches: (nat, T) -> bool, batch: nat) returns (result: Result)
    ensures result == Exported(snapshots, matches, batch, 0)
  {
    hide PageIds;
    var afterId, yielded, pages := 0, [], 0;
    while pages < |snapshots|
      invariant 0 <= pages <= |snapshots|
      invariant var rest := Exported(snapshots[pages..], matches, batch, afterId);
        Exported(snapshots, matches, batch, 0) == Result(yielded + rest.ids, rest.complete, pages + rest.pages)
    {
      assert snapshots[pages..][0] == snapshots[pages] && snapshots[pages..][1..] == snapshots[pages + 1..];
      var rows := PageIds(snapshots[pages], matches, batch, afterId);
      pages := pages + 1;
      if rows == [] {
        assert yielded + rows == yielded;
        return Result(yielded, true, pages);
      }
      ghost var before := yielded;
      for i := 0 to |rows|
        invariant yielded == before + rows[..i]
        invariant i > 0 ==> afterId == rows[i - 1]
      {
        afterId := rows[i];
        yielded := yielded + [rows[i]];
      }
      assert yielded == before + rows;
      if |rows| < batch {
        return Result(yielded, true, pages);
      }
      ghost var rest := Exported(snapshots[pages..], matches, batch, afterId);
      assert before + (rows + rest.ids) == yielded + rest.ids;
    }
    assert snapshots[pages..] == [];
    assert yielded + [] == yielded;
    result := Result(yielded, false, pages);
  }

  ghost predicate Ascending(ids: seq<nat>) {
    forall i, j :: 0 <= i < j < |ids| ==> ids[i] < ids[j]
  }

  ghost predicate Shows<T>(table: Table<T>, matches: (nat, T) -> bool, id: nat) {
    id in table.rows && matches(id, table.rows[id])
  }

  lemma PageIsPrefix<T>(table: Table<T>, matches: (nat, T) -> bool, limit: nat, after: nat)
    requires Numbered(table)
    ensures var page := PageIds(table, matches, limit, after);
      Ascending(page) && (forall id :: id in page ==> id > after && Shows(table, matches, id)) &&
      (|page| < limit ==> forall id :: id > after && Shows(table, matches, id) ==> id in page) &&
      (page != [] ==> forall id :: after < id <= page[|page| - 1] && Shows(table, matches, id) ==> id in page)
  {
    IdsAscend(table.rows, matches, after + 1, table.next);
    var ids := Ids(table.rows, matches, after + 1, table.next);
    var page := PageIds(table, matches, limit, after);
    forall id | id in page ensures id > after && Shows(table, matches, id) {
      assert id in ids;
    }
    if page != [] {
      forall id | after < id <= page[|page| - 1] && Shows(table, matches, id) ensures id in page {
        assert id in ids;
        var i :| 0 <= i < |ids| && ids[i] == id;
        assert i < |page| && page[i] == id;
      }
    }
  }

  /**
   * Whatever happens to the table between pages, ids come out strictly increasing, so none repeats; each was
   * there and matching when its page was read; and a completed export has every row that was there throughout.
   */
  lemma {:induction false} ExportUnderChange<T>(snapshots: seq<Table<T>>, matches: (nat, T) -> bool, batch: nat,
                                                after: nat)
    requires batch >= 1 && forall k :: 0 <= k < |snapshots| ==> Numbered(snapshots[k])
    ensures var r := Exported(snapshots, matches, batch, after);
      r.pages <= |snapshots| && Ascending(r.ids) &&
      (forall id :: id in r.ids ==> id > after && exists k :: 0 <= k < r.pages && Shows(snapshots[k], matches, id)) &&
      (r.complete ==> forall id | id > after :: (forall k :: 0 <= k < r.pages ==> Shows(snapshots[k], matches, id)) ==>
        id in r.ids)
  {
    if snapshots != [] {
      var page := PageIds(snapshots[0], matches, batch, after);
      PageIsPrefix(snapshots[0], matches, batch, after);
      var r := Exported(snapshots, matches, batch, after);
      if page == [] || |page| < batch {
        forall id | id in r.ids ensures exists k :: 0 <= k < r.pages && Shows(snapshots[k], matches, id) {
          assert Shows(snapshots[0], matches, id);
        }
      } else {
        var last := page[|page| - 1];
        assert last in page;
        var tail := snapshots[1..];
        ExportUnderChange(tail, matches, batch, last);
        var rest := Exported(tail, matches, batch, last);
        forall id | id in rest.ids ensures id > last {}
        AscendingConcat(page, rest.ids);
        forall id | id in r.ids ensures id > after && exists k :: 0 <= k < r.pages && Shows(snapshots[k], matches, id) {
          if id in page {
            assert Shows(snapshots[0], matches, id);
          } else {
            var k :| 0 <= k < rest.pages && Shows(tail[k], matches, id);
            assert Shows(snapshots[k + 1], matches, id);
          }
        }
        if r.complete {
          forall id | id > after && (forall k :: 0 <= k < r.pages ==> Shows(snapshots[k], matches, id))
            ensures id in r.ids
          {
            assert Shows(snapshots[0], matches, id);
            if id > last {
              forall k | 0 <= k < rest.pages ensures Shows(tail[k], matches, id) {
                assert Shows(snapshots[k + 1], matches, id);
              }
            }
          }
        }
      }
    }
  }

  lemma AscendingConcat(a: seq<nat>, b: seq<nat>)
    requires Ascending(a) && Ascending(b) && a != [] && forall x :: x in b ==> x > a[|a| - 1]
    ensures Ascending(a + b)
  {
    forall i, j | 0 <= i < j < |a + b| ensures (a + b)[i] < (a + b)[j] {
      if i < |a| <= j {
        assert b[j - |a|] in b;
      }
    }
  }

  /** The same table at every page read. */
  function Unchanged<T>(table: Table<T>, pages: nat): seq<Table<T>> {
    seq(pages, i => table)
  }

  /** On a table that does not change the export ends, and its pages together are the filtered table in id order. */
  lemma {:induction false} ExportOfFixedTable<T>(table: Table<T>, matches: (nat, T) -> bool, batch: nat, after: nat,
                                                 pages: nat)
    requires batch >= 1 && pages > |Ids(table.rows, matches, after + 1, table.next)|
    ensures var r := Exported(Unchanged(table, pages), matches, batch, after);
      r.complete && r.ids == Ids(table.rows, matches, after + 1, table.next)
    decreases pages
  {
    var snapshots := Unchanged(table, pages);
    var ids := Ids(table.rows, matches, after + 1, table.next);
    assert snapshots[0] == table && snapshots[1..] == Unchanged(table, pages - 1);
    if |ids| >= batch {
      IdsAfter(table.rows, matches, after + 1, table.next, batch);
      var page := PageIds(table, matches, batch, after);
      assert page == ids[..batch] && page[|page| - 1] == ids[batch - 1];
      ExportOfFixedTable(table, matches, batch, ids[batch - 1], pages - 1);
      assert ids[..batch] + ids[batch..] == ids;
    }
  }
}
