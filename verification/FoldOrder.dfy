/** In which order a fold lists what it collects: by receipt, then by place within the receipt's own list. */
module FoldOrder {
  import opened Wrappers
  import opened Drawn
  import opened FoldSubtree

  // ----- Logs and failures -----

  function LineOf(logs: seq<Option<string>>): nat -> Option<string> {
    (j: nat) => if j < |logs| then logs[j] else None
  }

  /** The j-th log line of the i-th receipt, where there is one and it is a string. */
  function LineAt(order: seq<Receipt>): (nat, nat) -> Option<string> {
    (i: nat, j: nat) => if i < |order| && order[i].outcome.Some? then LineOf(order[i].outcome.value.logs)(j) else None
  }

  /** The failure of the i-th receipt, if it has one. */
  function FailureAt(order: seq<Receipt>): nat -> Option<string> {
    (i: nat) => if i < |order| && order[i].outcome.Some? then order[i].outcome.value.failure else None
  }

  lemma {:induction false} StringsInOrder(logs: seq<Option<string>>)
    ensures exists at :: FromRow(LineOf(logs), Strings(logs), at)
  {
    hide *;
    if logs == [] {
      NoStrings();
    } else {
      var (front, n) := (logs[..|logs| - 1], |logs| - 1);
      StringsInOrder(front);
      StringsLast(logs);
      var at :| FromRow(LineOf(front), Strings(front), at);
      RowGrows(LineOf(front), Strings(front), at, LineOf(logs), n, logs[n], Strings(logs));
    }
  }

  lemma StringsLast(logs: seq<Option<string>>)
    requires logs != []
    ensures var n := |logs| - 1;
      && Strings(logs) == Strings(logs[..n]) + (if logs[n].Some? then [logs[n].value] else [])
      && (forall j: nat :: LineOf(logs[..n])(j).Some? ==> j < n)
      && forall j: nat :: LineOf(logs)(j) == if j == n then logs[n] else LineOf(logs[..n])(j)
  {}

  /** The logs are the log lines of the receipts in order, all of them, each receipt's in its own order. */
  lemma {:induction false} LogsInOrder(order: seq<Receipt>)
    ensures exists at :: FromTable(LineAt(order), LogsOf(order), at)
  {
    hide *;
    if order == [] {
      NoLogs();
    } else {
      var (front, n) := (order[..|order| - 1], |order| - 1);
      var lines := if order[n].outcome.Some? then order[n].outcome.value.logs else [];
      LogsInOrder(front);
      StringsInOrder(lines);
      LogsLast(order, lines);
      var at :| FromTable(LineAt(front), LogsOf(front), at);
      var js :| FromRow(LineOf(lines), Strings(lines), js);
      TableGrows(LineAt(front), LogsOf(front), at, LineAt(order), n, LineOf(lines), Strings(lines), js,
                 LogsOf(order));
    }
  }

  lemma LogsLast(order: seq<Receipt>, lines: seq<Option<string>>)
    requires order != []
    requires var o := order[|order| - 1].outcome; lines == if o.Some? then o.value.logs else []
    ensures var n := |order| - 1;
      && LogsOf(order) == LogsOf(order[..n]) + Strings(lines)
      && (forall i: nat, j: nat :: LineAt(order[..n])(i, j).Some? ==> i < n)
      && forall i: nat, j: nat ::
           LineAt(order)(i, j) == if i == n then LineOf(lines)(j) else LineAt(order[..n])(i, j)
  {
    hide Strings;
    assert Strings([]) == [] by { NoStrings(); }
  }

  lemma NoStrings()
    ensures Strings([]) == [] && FromRow(LineOf([]), Strings([]), [])
  {}

  lemma NoLogs()
    ensures FromTable(LineAt([]), LogsOf([]), []) && FromRow(FailureAt([]), FailuresOf([]), [])
  {}

  /** The failures are those of the receipts in order, all of them. */
  lemma {:induction false} FailuresInOrder(order: seq<Receipt>)
    ensures exists at :: FromRow(FailureAt(order), FailuresOf(order), at)
  {
    hide *;
    if order == [] {
      NoLogs();
    } else {
      var (front, n) := (order[..|order| - 1], |order| - 1);
      FailuresInOrder(front);
      var x := if order[n].outcome.Some? then order[n].outcome.value.failure else None;
      FailuresLast(order, x);
      FailureAtLast(order, x);
      var at :| FromRow(FailureAt(front), FailuresOf(front), at);
      RowGrows(FailureAt(front), FailuresOf(front), at, FailureAt(order), n, x, FailuresOf(order));
    }
  }

  lemma FailuresLast(order: seq<Receipt>, x: Option<string>)
    requires order != []
    requires var o := order[|order| - 1].outcome; x == if o.Some? then o.value.failure else None
    ensures var n := |order| - 1;
      FailuresOf(order) == FailuresOf(order[..n]) + (if x.Some? then [x.value] else [])
  {}

  lemma FailureAtLast(order: seq<Receipt>, x: Option<string>)
    requires order != []
    requires var o := order[|order| - 1].outcome; x == if o.Some? then o.value.failure else None
    ensures var n := |order| - 1;
      && (forall i: nat :: FailureAt(order[..n])(i).Some? ==> i < n)
      && forall i: nat :: FailureAt(order)(i) == if i == n then x else FailureAt(order[..n])(i)
  {}

  // ----- The sort -----

  /** The sorted receipts ascend by block height, and within a block by index. */
  lemma SortOrders(s: seq<Receipt>, i: nat, j: nat)
    requires i < j < |s|
    ensures |Sort(s)| == |s|
    ensures var (x, y) := (Sort(s)[i], Sort(s)[j]);
      x.blockHeight < y.blockHeight || (x.blockHeight == y.blockHeight && x.index <= y.index)
  {
    SortSortsStably(s, 0, 0);
    SameMembers(s);
    hide Sort;
    assert !KeyLess(Sort(s)[j], Sort(s)[i]);
  }

  // ----- The visit -----

  /** The indexed receipt a reference leads to. */
  function Lookup(byId: Index, k: Option<Id>): Option<Receipt> {
    if k.Some? && k.value in byId then Some(byId[k.value]) else None
  }

  function KidOf(byId: Index, ids: seq<Option<Id>>): nat -> Option<Receipt> {
    (j: nat) => if j < |ids| then Lookup(byId, ids[j]) else None
  }

  /** The receipt the j-th reference of the i-th receipt leads to. */
  function KidAt(byId: Index, rs: seq<Receipt>): (nat, nat) -> Option<Receipt> {
    (i: nat, j: nat) => if i < |rs| && rs[i].outcome.Some? then KidOf(byId, rs[i].outcome.value.receiptIds)(j) else None
  }

  lemma {:induction false} FollowedInOrder(byId: Index, ids: seq<Option<Id>>)
    ensures exists at :: FromRow(KidOf(byId, ids), Followed(byId, ids), at)
  {
    hide *;
    if ids == [] {
      NoKids(byId);
    } else {
      var (front, n) := (ids[..|ids| - 1], |ids| - 1);
      FollowedInOrder(byId, front);
      FollowedLast(byId, ids);
      var at :| FromRow(KidOf(byId, front), Followed(byId, front), at);
      RowGrows(KidOf(byId, front), Followed(byId, front), at, KidOf(byId, ids), n, Lookup(byId, ids[n]),
               Followed(byId, ids));
    }
  }

  lemma NoKids(byId: Index)
    ensures FromRow(KidOf(byId, []), Followed(byId, []), []) && FromTable(KidAt(byId, []), ChildrenOf(byId, []), [])
  {}

  lemma FollowedLast(byId: Index, ids: seq<Option<Id>>)
    requires ids != []
    ensures var (n, x) := (|ids| - 1, Lookup(byId, ids[|ids| - 1]));
      && Followed(byId, ids) == Followed(byId, ids[..n]) + (if x.Some? then [x.value] else [])
      && (forall j: nat :: KidOf(byId, ids[..n])(j).Some? ==> j < n)
      && forall j: nat :: KidOf(byId, ids)(j) == if j == n then x else KidOf(byId, ids[..n])(j)
  {}

  lemma {:induction false} ChildrenInOrder(byId: Index, rs: seq<Receipt>)
    ensures exists at :: FromTable(KidAt(byId, rs), ChildrenOf(byId, rs), at)
  {
    hide *;
    if rs == [] {
      NoKids(byId);
    } else {
      var (front, n) := (rs[..|rs| - 1], |rs| - 1);
      var ids := if rs[n].outcome.Some? then rs[n].outcome.value.receiptIds else [];
      ChildrenInOrder(byId, front);
      FollowedInOrder(byId, ids);
      ChildrenOfLast(byId, rs, ids);
      KidsOfLast(byId, rs, ids);
      var at :| FromTable(KidAt(byId, front), ChildrenOf(byId, front), at);
      var js :| FromRow(KidOf(byId, ids), Followed(byId, ids), js);
      TableGrows(KidAt(byId, front), ChildrenOf(byId, front), at, KidAt(byId, rs), n, KidOf(byId, ids),
                 Followed(byId, ids), js, ChildrenOf(byId, rs));
    }
  }

  lemma ChildrenOfLast(byId: Index, rs: seq<Receipt>, ids: seq<Option<Id>>)
    requires rs != []
    requires var o := rs[|rs| - 1].outcome; ids == if o.Some? then o.value.receiptIds else []
    ensures ChildrenOf(byId, rs) == ChildrenOf(byId, rs[..|rs| - 1]) + Followed(byId, ids)
  {}

  lemma KidsOfLast(byId: Index, rs: seq<Receipt>, ids: seq<Option<Id>>)
    requires rs != []
    requires var o := rs[|rs| - 1].outcome; ids == if o.Some? then o.value.receiptIds else []
    ensures var n := |rs| - 1;
      && (forall i: nat, j: nat :: KidAt(byId, rs[..n])(i, j).Some? ==> i < n)
      && forall i: nat, j: nat ::
           KidAt(byId, rs)(i, j) == if i == n then KidOf(byId, ids)(j) else KidAt(byId, rs[..n])(i, j)
  {
    hide Lookup;
  }

  /** The places of the first receipt of each id, in order. */
  ghost predicate FirstPlaces(s: seq<Receipt>, v: seq<Receipt>, at: seq<nat>) {
    && |v| == |at|
    && (forall a, b :: 0 <= a < b < |at| ==> at[a] < at[b])
    && (forall a :: 0 <= a < |at| ==> at[a] < |s| && s[at[a]] == v[a])
    && (forall a, k :: 0 <= a < |at| && 0 <= k < at[a] ==> s[k].id != v[a].id)
    && (forall k :: 0 <= k < |s| && s[k].id != "" ==> HasId(v, s[k].id))
  }

  lemma {:induction false} FirstVisitsPlaces(s: seq<Receipt>)
    ensures exists at :: FirstPlaces(s, FirstVisits(s), at)
  {
    if s == [] {
      assert FirstPlaces(s, FirstVisits(s), []);
    } else {
      var (front, n) := (s[..|s| - 1], |s| - 1);
      var v := FirstVisits(front);
      FirstVisitsPlaces(front);
      var at :| FirstPlaces(front, v, at);
      assert front + [s[n]] == s;
      FirstVisitsAdd(front, s[n]);
      PlacesGrow(front, v, at, s[n], FirstVisits(s));
    }
  }

  lemma PlacesGrow(s: seq<Receipt>, v: seq<Receipt>, at: seq<nat>, r: Receipt, v': seq<Receipt>)
    requires FirstPlaces(s, v, at) && v' == if r.id == "" || HasId(v, r.id) then v else v + [r]
    ensures exists at' :: FirstPlaces(s + [r], v', at')
  {
    if r.id == "" || HasId(v, r.id) {
      assert FirstPlaces(s + [r], v, at);
    } else {
      NewPlace(s, v, at, r);
    }
  }

  lemma NewPlace(s: seq<Receipt>, v: seq<Receipt>, at: seq<nat>, r: Receipt)
    requires FirstPlaces(s, v, at) && r.id != "" && !HasId(v, r.id)
    ensures FirstPlaces(s + [r], v + [r], at + [|s|])
  {
    var (s', v', at') := (s + [r], v + [r], at + [|s|]);
    forall k | 0 <= k < |s'| && s'[k].id != "" ensures HasId(v', s'[k].id) {
      HasIdAdd(v, r, s'[k].id);
    }
    hide HasId;
    forall a, k | 0 <= a < |at'| && 0 <= k < at'[a] ensures s'[k].id != v'[a].id {
      if a == |at| { assert s'[k] == s[k]; } else { assert s'[k] == s[k] && v'[a] == v[a]; }
    }
  }

  /** The j-th reference of the i-th receipt is the first of all references that leads to an id. */
  ghost predicate FirstReference(byId: Index, visit: seq<Receipt>, r: Receipt, x: (nat, nat)) {
    && KidAt(byId, visit)(x.0, x.1) == Some(r)
    && forall y: (nat, nat) :: Before(y, x) && KidAt(byId, visit)(y.0, y.1).Some? ==>
         KidAt(byId, visit)(y.0, y.1).value.id != r.id
  }

  /** The visit starts at the entry, and goes by the first references to the receipts, receipt by receipt. */
  lemma VisitOrder(entry: Receipt, byId: Index, visit: seq<Receipt>)
    requires BreadthFirst(entry, byId, visit) && visit != [] && entry.id != ""
    ensures visit[0] == entry
    ensures exists first: seq<(nat, nat)> ::
      && |first| == |visit| - 1
      && (forall a, b :: 0 <= a < b < |first| ==> Before(first[a], first[b]))
      && forall a :: 0 <= a < |first| ==> FirstReference(byId, visit, visit[a + 1], first[a])
  {
    hide *;
    BreadthFirstIs(entry, byId, visit);
    var kids := ChildrenOf(byId, visit);
    var s := [entry] + kids;
    FirstVisitsPlaces(s);
    ChildrenInOrder(byId, visit);
    var places :| FirstPlaces(s, visit, places);
    var at :| FromTable(KidAt(byId, visit), kids, at);
    PlacesIn(s, visit, places, KidAt(byId, visit), kids, at);
    var first := seq(|visit| - 1, a requires 0 <= a < |visit| - 1 => at[places[a + 1] - 1]);
    forall a | 0 <= a < |first| ensures FirstReference(byId, visit, visit[a + 1], first[a]) {
      ReferenceOf(entry, byId, visit, kids, places, at, a + 1);
    }
    forall a, b | 0 <= a < b < |first| ensures Before(first[a], first[b]) {
      StillAscending(s, visit, places, KidAt(byId, visit), kids, at, a, b);
    }
  }

  lemma BreadthFirstIs(entry: Receipt, byId: Index, visit: seq<Receipt>)
    requires BreadthFirst(entry, byId, visit)
    ensures visit == FirstVisits([entry] + ChildrenOf(byId, visit))
  {}

  lemma StillAscending(s: seq<Receipt>, v: seq<Receipt>, places: seq<nat>, table: (nat, nat) -> Option<Receipt>,
                       kids: seq<Receipt>, at: seq<(nat, nat)>, a: nat, b: nat)
    requires FirstPlaces(s, v, places) && FromTable(table, kids, at) && |s| == |kids| + 1
    requires a < b < |v| - 1 && |places| == |v| && 0 < places[a + 1] < |s| && 0 < places[b + 1] < |s|
    requires |at| == |kids|
    ensures Before(at[places[a + 1] - 1], at[places[b + 1] - 1])
  {}

  lemma PlacesIn(s: seq<Receipt>, v: seq<Receipt>, places: seq<nat>, table: (nat, nat) -> Option<Receipt>,
                 kids: seq<Receipt>, at: seq<(nat, nat)>)
    requires FirstPlaces(s, v, places) && FromTable(table, kids, at) && s != [] && v != [] && s[0].id != ""
    ensures |places| == |v| && |at| == |kids|
    ensures places[0] == 0 && v[0] == s[0] && forall a :: 0 < a < |places| ==> 0 < places[a] < |s|
  {
    EntryFirst(s, v, places);
  }

  lemma EntryFirst(s: seq<Receipt>, v: seq<Receipt>, at: seq<nat>)
    requires FirstPlaces(s, v, at) && s != [] && v != [] && s[0].id != ""
    ensures at[0] == 0 && v[0] == s[0] && forall a :: 0 < a < |at| ==> 0 < at[a] < |s|
  {
    var r :| r in v && r.id == s[0].id;
    var a :| 0 <= a < |v| && v[a] == r;
    assert at[a] == 0;
  }

  lemma ReferenceOf(entry: Receipt, byId: Index, visit: seq<Receipt>, kids: seq<Receipt>, places: seq<nat>,
                    at: seq<(nat, nat)>, a: nat)
    requires FirstPlaces([entry] + kids, visit, places) && FromTable(KidAt(byId, visit), kids, at)
    requires a < |visit| && places[a] > 0
    ensures FirstReference(byId, visit, visit[a], at[places[a] - 1])
  {
    hide KidAt;
    var (s, p) := ([entry] + kids, places[a]);
    assert s[p] == kids[p - 1];
    forall y: (nat, nat) | Before(y, at[p - 1]) && KidAt(byId, visit)(y.0, y.1).Some?
      ensures KidAt(byId, visit)(y.0, y.1).value.id != visit[a].id
    {
      var b :| 0 <= b < |at| && at[b] == (y.0, y.1);
      assert b < p - 1;
      assert s[b + 1] == kids[b];
    }
  }
}
