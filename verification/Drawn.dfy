/** Lists drawn from a row or a table of optional entries: every entry once, in order. */
module Drawn {
  import opened Wrappers

  /** r lists what a row holds, in order and each entry once; `at` are the places it comes from. */
  ghost predicate FromRow<T>(row: nat -> Option<T>, r: seq<T>, at: seq<nat>) {
    && |r| == |at|
    && (forall a, b :: 0 <= a < b < |at| ==> at[a] < at[b])
    && (forall a :: 0 <= a < |at| ==> row(at[a]) == Some(r[a]))
    && (forall j: nat :: row(j).Some? ==> j in at)
  }

  predicate Before(x: (nat, nat), y: (nat, nat)) { x.0 < y.0 || (x.0 == y.0 && x.1 < y.1) }

  /** The same for a table of rows, one row after the other. */
  ghost predicate FromTable<T>(table: (nat, nat) -> Option<T>, r: seq<T>, at: seq<(nat, nat)>) {
    && |r| == |at|
    && (forall a, b :: 0 <= a < b < |at| ==> Before(at[a], at[b]))
    && (forall a :: 0 <= a < |at| ==> table(at[a].0, at[a].1) == Some(r[a]))
    && (forall i: nat, j: nat :: table(i, j).Some? ==> (i, j) in at)
  }

  /** One more place at the end of a row. */
  lemma RowGrows<T>(row: nat -> Option<T>, r: seq<T>, at: seq<nat>, row': nat -> Option<T>, n: nat, x: Option<T>,
                    r': seq<T>)
    requires FromRow(row, r, at) && forall j: nat :: row(j).Some? ==> j < n
    requires forall j: nat :: row'(j) == if j == n then x else row(j)
    requires r' == r + if x.Some? then [x.value] else []
    ensures exists at' :: FromRow(row', r', at')
  {
    var at' := at + if x.Some? then [n] else [];
    forall j: nat | row'(j).Some? ensures j in at' {
      if j == n { assert at'[|at|] == n; } else { assert j in at; }
    }
    forall a | 0 <= a < |at| ensures at[a] < n { assert row(at[a]).Some?; }
    assert FromRow(row', r', at');
  }

  /** One more row. */
  lemma TableGrows<T>(table: (nat, nat) -> Option<T>, r: seq<T>, at: seq<(nat, nat)>, table': (nat, nat) -> Option<T>,
                      n: nat, row: nat -> Option<T>, q: seq<T>, js: seq<nat>, r': seq<T>)
    requires FromTable(table, r, at) && FromRow(row, q, js)
    requires forall i: nat, j: nat :: table(i, j).Some? ==> i < n
    requires forall i: nat, j: nat :: table'(i, j) == if i == n then row(j) else table(i, j)
    requires r' == r + q
    ensures exists at' :: FromTable(table', r', at')
  {
    var at' := at + seq(|js|, b requires 0 <= b < |js| => (n, js[b]));
    PlacesComplete(table, r, at, table', n, row, q, js, at');
    PlacesRight(table, r, at, table', n, row, q, js, r', at');
    PlacesAscend(table, r, at, n, row, q, js, at');
    assert FromTable(table', r', at');
  }

  /** The places of a table, followed by those of the row n. */
  predicate AndRow(at: seq<(nat, nat)>, n: nat, js: seq<nat>, at': seq<(nat, nat)>) {
    && |at'| == |at| + |js|
    && (forall a :: 0 <= a < |at| ==> at'[a] == at[a])
    && (forall a :: |at| <= a < |at'| ==> at'[a] == (n, js[a - |at|]))
  }

  lemma PlacesComplete<T>(table: (nat, nat) -> Option<T>, r: seq<T>, at: seq<(nat, nat)>,
                          table': (nat, nat) -> Option<T>, n: nat, row: nat -> Option<T>, q: seq<T>, js: seq<nat>,
                          at': seq<(nat, nat)>)
    requires FromTable(table, r, at) && FromRow(row, q, js) && AndRow(at, n, js, at')
    requires forall i: nat, j: nat :: table'(i, j) == if i == n then row(j) else table(i, j)
    ensures forall i: nat, j: nat :: table'(i, j).Some? ==> (i, j) in at'
  {
    forall i: nat, j: nat | table'(i, j).Some? ensures (i, j) in at' {
      if i == n {
        assert row(j).Some?;
        var b :| 0 <= b < |js| && js[b] == j;
        assert at'[|at| + b] == (n, j);
      } else {
        assert table(i, j).Some?;
        var a :| 0 <= a < |at| && at[a] == (i, j);
        assert at'[a] == (i, j);
      }
    }
  }

  lemma PlacesRight<T>(table: (nat, nat) -> Option<T>, r: seq<T>, at: seq<(nat, nat)>, table': (nat, nat) -> Option<T>,
                       n: nat, row: nat -> Option<T>, q: seq<T>, js: seq<nat>, r': seq<T>, at': seq<(nat, nat)>)
    requires FromTable(table, r, at) && FromRow(row, q, js) && AndRow(at, n, js, at') && r' == r + q
    requires forall i: nat, j: nat :: table(i, j).Some? ==> i < n
    requires forall i: nat, j: nat :: table'(i, j) == if i == n then row(j) else table(i, j)
    ensures forall a :: 0 <= a < |at'| ==> table'(at'[a].0, at'[a].1) == Some(r'[a])
  {
    forall a | 0 <= a < |at'| ensures table'(at'[a].0, at'[a].1) == Some(r'[a]) {
      if a < |at| {
        assert table(at[a].0, at[a].1) == Some(r[a]) && r'[a] == r[a];
      } else {
        assert row(js[a - |at|]) == Some(q[a - |at|]) && r'[a] == q[a - |at|];
      }
    }
  }

  lemma PlacesAscend<T>(table: (nat, nat) -> Option<T>, r: seq<T>, at: seq<(nat, nat)>, n: nat, row: nat -> Option<T>,
                        q: seq<T>, js: seq<nat>, at': seq<(nat, nat)>)
    requires FromTable(table, r, at) && FromRow(row, q, js) && AndRow(at, n, js, at')
    requires forall i: nat, j: nat :: table(i, j).Some? ==> i < n
    ensures forall a, b :: 0 <= a < b < |at'| ==> Before(at'[a], at'[b])
  {
    forall a, b | 0 <= a < b < |at'| ensures Before(at'[a], at'[b]) {
      if a < |at| <= b { assert table(at[a].0, at[a].1).Some?; }
    }
  }
}
