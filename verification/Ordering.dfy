/** `ORDER BY <time>, <id> LIMIT n` over a set of row ids. */
module Ordering {
  import opened Common

  ghost predicate Before(at: map<string, real>, a: string, b: string)
    requires a in at && b in at
  {
    at[a] < at[b] || (at[a] == at[b] && Less(a, b))
  }

  predicate ComesFirst(at: map<string, real>, a: string, b: string)
    requires a in at && b in at
    ensures ComesFirst(at, a, b) <==> Before(at, a, b)
  {
    at[a] < at[b] || (at[a] == at[b] && Less(a, b))
  }

  lemma BeforeTransitive(at: map<string, real>, a: string, b: string, c: string)
    requires a in at && b in at && c in at && Before(at, a, b) && Before(at, b, c)
    ensures Before(at, a, c)
  {
    if Less(a, b) && Less(b, c) {
      LessTransitive(a, b, c);
    }
  }

  lemma BeforeTotal(at: map<string, real>, a: string, b: string)
    requires a in at && b in at
    ensures Before(at, a, b) || a == b || Before(at, b, a)
    ensures !(Before(at, a, b) && Before(at, b, a)) && !Before(at, a, a)
  {
    LessTotal(a, b);
    LessIrreflexive(a);
    if Less(a, b) {
      LessAsymmetric(a, b);
    }
  }

  ghost predicate Ascending(rows: seq<string>, at: map<string, real>) {
    (forall k :: 0 <= k < |rows| ==> rows[k] in at)
    && forall k, l :: 0 <= k < l < |rows| ==> Before(at, rows[k], rows[l])
  }

  /** `rows` are the first `limit` of `ids`, in order. */
  ghost predicate IsSelection(rows: seq<string>, ids: set<string>, at: map<string, real>, limit: nat) {
    ids <= at.Keys && Ascending(rows, at)
    && (forall id :: id in rows ==> id in ids)
    && |rows| == (if limit < |ids| then limit else |ids|)
    && forall id, row :: id in ids && id !in rows && row in rows ==> Before(at, row, id)
  }

  method Earliest(ids: set<string>, at: map<string, real>) returns (first: string)
    requires ids != {} && ids <= at.Keys
    ensures first in ids && forall id :: id in ids && id != first ==> Before(at, first, id)
  {
    first :| first in ids;
    var rest := ids - {first};
    while rest != {}
      invariant rest <= ids && first in ids && first !in rest
      invariant forall id :: id in ids && id !in rest && id != first ==> Before(at, first, id)
      decreases rest
    {
      var id :| id in rest;
      BeforeTotal(at, first, id);
      if ComesFirst(at, id, first) {
        forall other | other in ids && other !in rest && other != first ensures Before(at, id, other) {
          BeforeTransitive(at, id, first, other);
        }
        first := id;
      }
      rest := rest - {id};
    }
  }

  method Select(ids: set<string>, at: map<string, real>, limit: nat) returns (rows: seq<string>)
    requires ids <= at.Keys
    ensures IsSelection(rows, ids, at, limit)
  {
    rows := [];
    var rest := ids;
    while |rows| < limit && rest != {}
      invariant rest <= ids && Ascending(rows, at)
      invariant forall id :: id in ids <==> id in rest || id in rows
      invariant forall id :: id in rest ==> id !in rows
      invariant |rows| + |rest| == |ids| && |rows| <= limit
      invariant forall id, row :: id in rest && row in rows ==> Before(at, row, id)
      decreases rest
    {
      var first := Earliest(rest, at);
      rows := rows + [first];
      rest := rest - {first};
    }
  }

  ghost function Predecessors(ids: set<string>, at: map<string, real>, id: string): set<string>
    requires ids <= at.Keys && id in at
  {
    set other | other in ids && Before(at, other, id)
  }

  /** The rows a limited delete takes, said without an order: those with few enough rows before them. */
  ghost function FirstFew(ids: set<string>, at: map<string, real>, limit: nat): set<string>
    requires ids <= at.Keys
  {
    set id | id in ids && |Predecessors(ids, at, id)| < limit
  }

  lemma Larger(small: set<string>, large: set<string>)
    requires small <= large
    ensures |small| <= |large|
    ensures small != large ==> |small| < |large|
  {
    assert large == small + (large - small);
  }

  lemma {:induction false} DistinctRows(rows: seq<string>, at: map<string, real>) returns (all: set<string>)
    requires Ascending(rows, at)
    ensures |all| == |rows| && forall id :: id in all <==> id in rows
  {
    all := {};
    for k := 0 to |rows|
      invariant |all| == k && forall id :: id in all <==> id in rows[..k]
    {
      if rows[k] in all {
        var j :| 0 <= j < k && rows[j] == rows[k];
        BeforeTotal(at, rows[j], rows[k]);
      }
      assert rows[..k + 1] == rows[..k] + [rows[k]];
      all := all + {rows[k]};
    }
    assert rows[..|rows|] == rows;
  }

  lemma SelectionIsFirstFew(rows: seq<string>, ids: set<string>, at: map<string, real>, limit: nat)
    requires IsSelection(rows, ids, at, limit)
    ensures forall id :: id in rows <==> id in FirstFew(ids, at, limit)
  {
    var all := DistinctRows(rows, at);
    Larger(all, ids);
    forall id | id in ids ensures id in rows <==> |Predecessors(ids, at, id)| < limit {
      var before := Predecessors(ids, at, id);
      if id in rows {
        forall other | other in before ensures other in all - {id} {
          BeforeTotal(at, other, id);
        }
        Larger(before, all - {id});
      } else {
        assert all <= before;
        Larger(all, before);
      }
    }
  }
}
