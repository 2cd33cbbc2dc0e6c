/** `fold_subtree`: the logs and failures of every receipt an entry receipt leads to, in block order. */
module FoldSubtree {
  import opened Wrappers

  type Id = string

  /** What the records say after defaulting: a list element of the wrong type is `None`, a missing list is empty. */
  datatype Outcome = Outcome(receiptIds: seq<Option<Id>>, logs: seq<Option<string>>, failure: Option<string>)
  datatype Receipt = Receipt(id: Id, blockHeight: nat, index: nat, outcome: Option<Outcome>)

  type Index = map<Id, Receipt>

  /** The index files each receipt under its own id, and knows no other receipt with the entry's id. */
  predicate Consistent(entry: Receipt, byId: Index) {
    && (forall k :: k in byId ==> byId[k].id == k)
    && (entry.id in byId ==> byId[entry.id] == entry)
  }

  /** Following a child reference: references that are not ids, or not indexed, lead nowhere. */
  predicate IsChild(byId: Index, parent: Receipt, child: Receipt) {
    parent.outcome.Some? && exists k :: Some(k) in parent.outcome.value.receiptIds && k in byId && byId[k] == child
  }

  /** A chain of children from the entry; a receipt without an id is never entered. */
  ghost predicate Path(entry: Receipt, byId: Index, p: seq<Receipt>) {
    && |p| > 0 && p[0] == entry
    && (forall i :: 0 <= i < |p| ==> p[i].id != "")
    && (forall i :: 0 < i < |p| ==> IsChild(byId, p[i - 1], p[i]))
  }

  ghost predicate Reachable(entry: Receipt, byId: Index, r: Receipt) {
    exists p :: Path(entry, byId, p) && p[|p| - 1] == r
  }

  lemma ReachableChild(entry: Receipt, byId: Index, parent: Receipt, child: Receipt)
    requires Reachable(entry, byId, parent) && IsChild(byId, parent, child) && child.id != ""
    ensures Reachable(entry, byId, child)
  {
    var p :| Path(entry, byId, p) && p[|p| - 1] == parent;
    assert Path(entry, byId, p + [child]);
  }

  /** A set holding the entry and closed under children holds everything reachable. */
  lemma {:induction false} ClosedHoldsPath(entry: Receipt, byId: Index, visited: set<Receipt>, p: seq<Receipt>)
    requires Path(entry, byId, p) && entry in visited
    requires forall r, c :: r in visited && IsChild(byId, r, c) && c.id != "" ==> c in visited
    ensures p[|p| - 1] in visited
    decreases |p|
  {
    if |p| > 1 {
      assert Path(entry, byId, p[..|p| - 1]);
      ClosedHoldsPath(entry, byId, visited, p[..|p| - 1]);
      assert IsChild(byId, p[|p| - 2], p[|p| - 1]);
    }
  }

  // ---- The sort ----

  predicate KeyLess(a: Receipt, b: Receipt) {
    a.blockHeight < b.blockHeight || (a.blockHeight == b.blockHeight && a.index < b.index)
  }

  predicate SortedByKey(s: seq<Receipt>) {
    forall i, j :: 0 <= i < j < |s| ==> !KeyLess(s[j], s[i])
  }

  predicate Distinct(s: seq<Receipt>) {
    forall i, j :: 0 <= i < j < |s| ==> s[i] != s[j]
  }

  /** The receipts of one key, in order. */
  function OfKey(s: seq<Receipt>, height: nat, index: nat): seq<Receipt> {
    if s == [] then [] else
      OfKey(s[..|s| - 1], height, index)
      + (if s[|s| - 1].blockHeight == height && s[|s| - 1].index == index then [s[|s| - 1]] else [])
  }

  /** Put a receipt behind every receipt whose key is not above its own. */
  function Insert(s: seq<Receipt>, r: Receipt): (t: seq<Receipt>)
    ensures multiset(t) == multiset(s) + multiset{r}
  {
    if s == [] || !KeyLess(r, s[|s| - 1]) then s + [r]
    else
      assert s == s[..|s| - 1] + [s[|s| - 1]];
      Insert(s[..|s| - 1], r) + [s[|s| - 1]]
  }

  /** The stable sort by (block height, index). */
  function Sort(s: seq<Receipt>): (t: seq<Receipt>)
    ensures multiset(t) == multiset(s)
  {
    if s == [] then [] else
      assert s == s[..|s| - 1] + [s[|s| - 1]];
      Insert(Sort(s[..|s| - 1]), s[|s| - 1])
  }

  lemma {:induction false} InsertSorted(s: seq<Receipt>, r: Receipt)
    requires SortedByKey(s)
    ensures SortedByKey(Insert(s, r))
  {
    if s != [] && KeyLess(r, s[|s| - 1]) {
      var front, last := s[..|s| - 1], s[|s| - 1];
      InsertSorted(front, r);
      var t := Insert(front, r);
      hide Insert;
      forall i | 0 <= i < |t| ensures !KeyLess(last, t[i]) {
        assert t[i] in multiset(t);
        assert t[i] in multiset(front) || t[i] == r;
      }
    }
  }

  lemma {:induction false} InsertStable(s: seq<Receipt>, r: Receipt, height: nat, index: nat)
    requires SortedByKey(s)
    ensures OfKey(Insert(s, r), height, index) == OfKey(s + [r], height, index)
  {
    hide OfKey;
    OfKeyAdd(s, r, height, index);
    if s != [] && KeyLess(r, s[|s| - 1]) {
      var front, last := s[..|s| - 1], s[|s| - 1];
      InsertStable(front, r, height, index);
      var t := Insert(front, r);
      OfKeyAdd(front, r, height, index);
      OfKeyAdd(front, last, height, index);
      OfKeyAdd(t, last, height, index);
      assert front + [last] == s;
    }
  }

  lemma OfKeyAdd(s: seq<Receipt>, r: Receipt, height: nat, index: nat)
    ensures OfKey(s + [r], height, index) ==
      OfKey(s, height, index) + (if r.blockHeight == height && r.index == index then [r] else [])
  {
    assert (s + [r])[..|s|] == s;
  }

  /** The sort sorts, and receipts with equal keys keep their order. */
  lemma {:induction false} SortSortsStably(s: seq<Receipt>, height: nat, index: nat)
    ensures SortedByKey(Sort(s))
    ensures OfKey(Sort(s), height, index) == OfKey(s, height, index)
  {
    if s != [] {
      var front, last := s[..|s| - 1], s[|s| - 1];
      SortSortsStably(front, height, index);
      InsertSorted(Sort(front), last);
      InsertStable(Sort(front), last, height, index);
      assert (Sort(front) + [last])[..|Sort(front)|] == Sort(front);
    }
  }

  lemma SortKeepsDistinct(s: seq<Receipt>)
    requires Distinct(s)
    ensures Distinct(Sort(s))
  {
    var t := Sort(s);
    if i, j :| 0 <= i < j < |t| && t[i] == t[j] {
      TwiceInMultiset(t, i, j);
      OnceInMultiset(s, t[i]);
    }
  }

  lemma TwiceInMultiset(t: seq<Receipt>, i: nat, j: nat)
    requires i < j < |t| && t[i] == t[j]
    ensures multiset(t)[t[i]] >= 2
  {
    assert t == t[..i] + [t[i]] + t[i + 1..j] + [t[j]] + t[j + 1..];
  }

  lemma {:induction false} OnceInMultiset(s: seq<Receipt>, r: Receipt)
    requires Distinct(s)
    ensures multiset(s)[r] <= 1
  {
    if s != [] {
      var front := s[..|s| - 1];
      assert s == front + [s[|s| - 1]];
      OnceInMultiset(front, r);
      if r == s[|s| - 1] { assert r !in front; assert r !in multiset(front); }
    }
  }

  // ---- The fold ----

  function Strings(l: seq<Option<string>>): seq<string> {
    if l == [] then []
    else Strings(l[..|l| - 1]) + (if l[|l| - 1].Some? then [l[|l| - 1].value] else [])
  }

  function LogsOf(order: seq<Receipt>): seq<string> {
    if order == [] then [] else
      var o := order[|order| - 1].outcome;
      LogsOf(order[..|order| - 1]) + (if o.Some? then Strings(o.value.logs) else [])
  }

  function FailuresOf(order: seq<Receipt>): seq<string> {
    if order == [] then [] else
      var o := order[|order| - 1].outcome;
      FailuresOf(order[..|order| - 1]) + (if o.Some? && o.value.failure.Some? then [o.value.failure.value] else [])
  }

  /** The receipts a fold covers: everything reachable, each once, by block height and index. */
  ghost predicate IsOrder(entry: Receipt, byId: Index, order: seq<Receipt>) {
    && Distinct(order)
    && (forall r :: r in order <==> Reachable(entry, byId, r))
    && SortedByKey(order)
  }

  predicate Listed(entry: Receipt, byId: Index, r: Receipt) { r == entry || (r.id in byId && byId[r.id] == r) }

  /** What the queue loop keeps: the visited receipts are reachable and distinct, their children visited or waiting. */
  ghost predicate Searching(entry: Receipt, byId: Index, queue: seq<Receipt>, visited: set<Id>, ordered: seq<Receipt>) {
    && Distinct(ordered)
    && (forall r :: r in ordered ==> r.id in visited && Listed(entry, byId, r) && Reachable(entry, byId, r))
    && (forall r :: r in queue ==> Listed(entry, byId, r) && (r.id != "" ==> Reachable(entry, byId, r)))
    && (forall r :: Listed(entry, byId, r) && r.id in visited ==> r in ordered)
    && (entry.id != "" ==> entry in ordered || entry in queue)
    && (forall r, c :: r in ordered && IsChild(byId, r, c) && c.id != "" ==> c in ordered || c in queue)
  }

  lemma SearchStart(entry: Receipt, byId: Index)
    ensures Searching(entry, byId, [entry], {}, [])
  {
    if entry.id != "" { assert Path(entry, byId, [entry]); }
  }

  lemma SearchSkip(entry: Receipt, byId: Index, queue: seq<Receipt>, visited: set<Id>, ordered: seq<Receipt>)
    requires Searching(entry, byId, queue, visited, ordered) && queue != []
    requires queue[0].id == "" || queue[0].id in visited
    ensures Searching(entry, byId, queue[1..], visited, ordered)
  {
    hide Reachable, IsChild, Distinct;
    assert forall c :: c in queue ==> c == queue[0] || c in queue[1..];
  }

  lemma SearchVisit(entry: Receipt, byId: Index, queue: seq<Receipt>, visited: set<Id>, ordered: seq<Receipt>,
                    kids: seq<Receipt>)
    requires Consistent(entry, byId) && Searching(entry, byId, queue, visited, ordered) && queue != []
    requires queue[0].id != "" && queue[0].id !in visited
    requires forall c :: c in kids <==> IsChild(byId, queue[0], c)
    ensures Searching(entry, byId, queue[1..] + kids, visited + {queue[0].id}, ordered + [queue[0]])
  {
    hide Reachable;
    var r := queue[0];
    assert forall c :: c in queue ==> c == r || c in queue[1..];
    forall c | c in kids ensures Listed(entry, byId, c) && (c.id != "" ==> Reachable(entry, byId, c)) {
      if c.id != "" { ReachableChild(entry, byId, r, c); }
    }
    forall x | Listed(entry, byId, x) && x.id in visited + {r.id} ensures x in ordered + [r] {
      if x.id == r.id { assert x == r; }
    }
  }

  lemma SearchDone(entry: Receipt, byId: Index, visited: set<Id>, ordered: seq<Receipt>)
    requires Searching(entry, byId, [], visited, ordered)
    ensures forall r :: r in ordered <==> Reachable(entry, byId, r)
  {
    var found := set r | r in ordered;
    forall r | Reachable(entry, byId, r) ensures r in ordered {
      var p :| Path(entry, byId, p) && p[|p| - 1] == r;
      ClosedHoldsPath(entry, byId, found, p);
    }
  }

  /** The sorted visit is the order of the fold. */
  lemma SortedVisit(entry: Receipt, byId: Index, visit: seq<Receipt>)
    requires Distinct(visit) && forall r :: r in visit <==> Reachable(entry, byId, r)
    ensures IsOrder(entry, byId, Sort(visit)) && |Sort(visit)| == |visit|
  {
    hide Reachable, Sort, Distinct;
    SortSortsStably(visit, 0, 0);
    SortKeepsDistinct(visit);
    SameMembers(visit);
  }

  lemma SameMembers(s: seq<Receipt>)
    ensures |Sort(s)| == |s| && forall r :: r in Sort(s) <==> r in s
  {
    var t := Sort(s);
    hide Sort;
    assert |t| == |multiset(t)| == |multiset(s)| == |s|;
    forall r ensures r in t <==> r in s {
      assert r in t <==> r in multiset(t);
      assert r in s <==> r in multiset(s);
    }
  }

  lemma FirstIsMember(s: seq<Receipt>)
    ensures s == [] || s[0] in s
  {}

  lemma LastIsGreatest(s: seq<Receipt>, r: Receipt)
    requires SortedByKey(s) && r in s
    ensures r == s[|s| - 1] || !KeyLess(s[|s| - 1], r)
  {}

  /** With distinct keys there is one such order, so the result does not depend on how the graph was walked. */
  lemma {:induction false} OrderUnique(a: seq<Receipt>, b: seq<Receipt>)
    requires Distinct(a) && Distinct(b) && SortedByKey(a) && SortedByKey(b)
    requires forall r :: r in a <==> r in b
    requires forall r, q :: r in a && q in a && r != q ==> KeyLess(r, q) || KeyLess(q, r)
    ensures a == b
    decreases |a|
  {
    if a == [] {
      FirstIsMember(b);
    } else {
      assert a[|a| - 1] in b;
      var x, y := a[|a| - 1], b[|b| - 1];
      assert y in a;
      LastIsGreatest(a, y);
      LastIsGreatest(b, x);
      var af, bf := a[..|a| - 1], b[..|b| - 1];
      forall r ensures r in af <==> r in bf {
        assert r in a <==> r in af || r == x;
        assert r in b <==> r in bf || r == x;
      }
      OrderUnique(af, bf);
      assert a == af + [x] && b == bf + [x];
    }
  }

  lemma SearchDistinct(entry: Receipt, byId: Index, queue: seq<Receipt>, visited: set<Id>, ordered: seq<Receipt>)
    requires Searching(entry, byId, queue, visited, ordered)
    ensures Distinct(ordered)
  {}

  lemma QueueIndexed(entry: Receipt, byId: Index, queue: seq<Receipt>, visited: set<Id>, ordered: seq<Receipt>)
    requires Searching(entry, byId, queue, visited, ordered) && queue != []
    ensures queue[0].id in byId.Keys + {entry.id}
  {
    assert queue[0] in queue;
  }

  lemma FewerLeft(ids: set<Id>, visited: set<Id>, x: Id)
    requires x in ids && x !in visited
    ensures |ids - (visited + {x})| < |ids - visited|
  {
    assert ids - visited == (ids - (visited + {x})) + {x};
  }

  // ---- Breadth-first order ----

  /** The children a list of references leads to, in order. */
  function Followed(byId: Index, ids: seq<Option<Id>>): seq<Receipt> {
    if ids == [] then [] else
      var k := ids[|ids| - 1];
      Followed(byId, ids[..|ids| - 1]) + (if k.Some? && k.value in byId then [byId[k.value]] else [])
  }

  function ChildList(byId: Index, r: Receipt): seq<Receipt> {
    if r.outcome.Some? then Followed(byId, r.outcome.value.receiptIds) else []
  }

  /** The children of some receipts, one receipt after the other. */
  function ChildrenOf(byId: Index, rs: seq<Receipt>): seq<Receipt> {
    if rs == [] then [] else ChildrenOf(byId, rs[..|rs| - 1]) + ChildList(byId, rs[|rs| - 1])
  }

  predicate HasId(s: seq<Receipt>, id: Id) { exists r :: r in s && r.id == id }

  /** A list without receipts that have no id or an id met before. */
  function FirstVisits(s: seq<Receipt>): seq<Receipt> {
    if s == [] then [] else
      var front, r := FirstVisits(s[..|s| - 1]), s[|s| - 1];
      if r.id == "" || HasId(front, r.id) then front else front + [r]
  }

  /** Breadth-first order: the entry, then the children of each visited receipt in turn, first visits only. */
  ghost predicate BreadthFirst(entry: Receipt, byId: Index, visit: seq<Receipt>) {
    visit == FirstVisits([entry] + ChildrenOf(byId, visit))
  }

  lemma {:induction false} FollowedMember(byId: Index, ids: seq<Option<Id>>, c: Receipt)
    ensures c in Followed(byId, ids) <==> exists k :: Some(k) in ids && k in byId && byId[k] == c
  {
    if ids != [] {
      var front, last := ids[..|ids| - 1], ids[|ids| - 1];
      FollowedMember(byId, front, c);
      assert forall x :: x in ids <==> x in front || x == last;
    }
  }

  lemma ChildListMember(byId: Index, r: Receipt, c: Receipt)
    ensures c in ChildList(byId, r) <==> IsChild(byId, r, c)
  {
    if r.outcome.Some? { FollowedMember(byId, r.outcome.value.receiptIds, c); }
  }

  lemma {:induction false} ChildrenOfMember(byId: Index, rs: seq<Receipt>, r: Receipt, c: Receipt)
    requires r in rs && c in ChildList(byId, r)
    ensures c in ChildrenOf(byId, rs)
  {
    hide ChildList;
    if r != rs[|rs| - 1] { ChildrenOfMember(byId, rs[..|rs| - 1], r, c); }
  }

  lemma {:induction false} ChildrenOfPrefix(byId: Index, rs: seq<Receipt>, k: nat)
    requires k <= |rs|
    ensures ChildrenOf(byId, rs[..k]) <= ChildrenOf(byId, rs)
  {
    hide ChildList;
    if k == |rs| {
      assert rs[..k] == rs;
    } else {
      assert rs[..|rs| - 1][..k] == rs[..k];
      ChildrenOfPrefix(byId, rs[..|rs| - 1], k);
    }
  }

  lemma {:induction false} FirstVisitsPrefix(s: seq<Receipt>, k: nat)
    requires k <= |s|
    ensures FirstVisits(s[..k]) <= FirstVisits(s)
  {
    if k == |s| {
      assert s[..k] == s;
    } else {
      assert s[..|s| - 1][..k] == s[..k];
      FirstVisitsPrefix(s[..|s| - 1], k);
    }
  }

  lemma {:induction false} FirstVisitsHasId(s: seq<Receipt>, r: Receipt)
    requires r in s && r.id != ""
    ensures HasId(FirstVisits(s), r.id)
  {
    var front, last := s[..|s| - 1], s[|s| - 1];
    if r in front {
      FirstVisitsHasId(front, r);
      var x :| x in FirstVisits(front) && x.id == r.id;
      assert x in FirstVisits(s);
    } else {
      assert r == last;
      if !HasId(FirstVisits(front), r.id) { assert r in FirstVisits(s); }
    }
  }

  lemma FirstVisitsAdd(s: seq<Receipt>, r: Receipt)
    ensures FirstVisits(s + [r]) ==
      if r.id == "" || HasId(FirstVisits(s), r.id) then FirstVisits(s) else FirstVisits(s) + [r]
  {
    assert (s + [r])[..|s|] == s;
  }

  /** A closed part of a visit is the whole visit. */
  lemma ClosedIsAll(entry: Receipt, byId: Index, part: seq<Receipt>, r: Receipt)
    requires Reachable(entry, byId, r) && entry in part
    requires forall x, c :: x in part && IsChild(byId, x, c) && c.id != "" ==> c in part
    ensures r in part
  {
    var found := set x | x in part;
    var p :| Path(entry, byId, p) && p[|p| - 1] == r;
    ClosedHoldsPath(entry, byId, found, p);
  }

  /** A proper start of a breadth-first visit of everything reachable leads on to the next receipt. */
  lemma NextVisit(entry: Receipt, byId: Index, visit: seq<Receipt>, k: nat)
    requires Consistent(entry, byId) && k < |visit| && BreadthFirst(entry, byId, visit) && Distinct(visit)
    requires forall r :: r in visit <==> Reachable(entry, byId, r)
    ensures var so := FirstVisits([entry] + ChildrenOf(byId, visit[..k]));
      so <= visit && k < |so|
  {
    hide Reachable, FirstVisits, ChildrenOf;
    var start, whole := [entry] + ChildrenOf(byId, visit[..k]), [entry] + ChildrenOf(byId, visit);
    ChildrenOfPrefix(byId, visit, k);
    assert whole[..|start|] == start;
    FirstVisitsPrefix(whole, |start|);
    var so := FirstVisits(start);
    if |so| <= k {
      var part := visit[..k];
      assert forall x :: x in so ==> x in part;
      EntryHasId(entry, byId, visit);
      AllListed(entry, byId, visit);
      MetEarlier(entry, byId, visit, part, start, entry);
      forall x, c | x in part && IsChild(byId, x, c) && c.id != "" ensures c in part {
        ChildListMember(byId, x, c);
        ChildrenOfMember(byId, part, x, c);
        assert c in start;
        MetEarlier(entry, byId, visit, part, start, c);
      }
      assert visit[k] in visit;
      ClosedIsAll(entry, byId, part, visit[k]);
    }
  }

  lemma EntryHasId(entry: Receipt, byId: Index, visit: seq<Receipt>)
    requires visit != [] && forall r :: r in visit <==> Reachable(entry, byId, r)
    ensures entry.id != ""
  {
    assert visit[0] in visit;
    var p: seq<Receipt> :| Path(entry, byId, p) && p[|p| - 1] == visit[0];
    assert p[0].id != "";
  }

  lemma AllListed(entry: Receipt, byId: Index, visit: seq<Receipt>)
    requires Consistent(entry, byId) && forall r :: r in visit ==> Reachable(entry, byId, r)
    ensures forall r :: r in visit ==> Listed(entry, byId, r)
  {
    forall r | r in visit ensures Listed(entry, byId, r) {
      var p :| Path(entry, byId, p) && p[|p| - 1] == r;
      if |p| > 1 { assert IsChild(byId, p[|p| - 2], p[|p| - 1]); }
    }
  }

  /** What the start of a visit has met is among the receipts it visited. */
  lemma MetEarlier(entry: Receipt, byId: Index, visit: seq<Receipt>, part: seq<Receipt>,
      start: seq<Receipt>, c: Receipt)
    requires Consistent(entry, byId) && c in start && c.id != "" && (c == entry || exists x :: IsChild(byId, x, c))
    requires forall x :: x in FirstVisits(start) ==> x in part
    requires forall x :: x in part ==> x in visit
    requires forall r :: r in visit ==> Listed(entry, byId, r)
    ensures c in part
  {
    hide FirstVisits;
    FirstVisitsHasId(start, c);
    var x :| x in FirstVisits(start) && x.id == c.id;
    assert Listed(entry, byId, x);
  }

  /** The breadth-first visit of everything reachable is unique, so the fold's result is fixed by its contract. */
  lemma VisitUnique(entry: Receipt, byId: Index, a: seq<Receipt>, b: seq<Receipt>)
    requires Consistent(entry, byId)
    requires BreadthFirst(entry, byId, a) && BreadthFirst(entry, byId, b) && Distinct(a) && Distinct(b)
    requires forall r :: r in a <==> Reachable(entry, byId, r)
    requires forall r :: r in b <==> Reachable(entry, byId, r)
    ensures a == b
  {
    hide Reachable, BreadthFirst, FirstVisits, ChildrenOf, Distinct;
    var k := 0;
    while k < |a| && k < |b|
      invariant k <= |a| && k <= |b| && a[..k] == b[..k]
    {
      NextVisit(entry, byId, a, k);
      NextVisit(entry, byId, b, k);
      var so := FirstVisits([entry] + ChildrenOf(byId, a[..k]));
      assert a[k] == so[k] == b[k];
      k := k + 1;
    }
    DistinctSize(a);
    DistinctSize(b);
    assert (set r | r in a) == (set r | r in b);
    assert a == a[..k] && b == b[..k];
  }

  lemma {:induction false} DistinctSize(s: seq<Receipt>)
    requires Distinct(s)
    ensures |set r | r in s| == |s|
  {
    if s != [] {
      var front, last := s[..|s| - 1], s[|s| - 1];
      DistinctSize(front);
      assert (set r | r in s) == (set r | r in front) + {last};
      assert last !in front;
    }
  }

  // ---- The loops ----

  /** Children of one receipt, in the order of the references. */
  method Children(r: Receipt, byId: Index) returns (kids: seq<Receipt>)
    ensures kids == ChildList(byId, r)
  {
    kids := [];
    if r.outcome.Some? {
      var ids := r.outcome.value.receiptIds;
      for i := 0 to |ids|
        invariant kids == Followed(byId, ids[..i])
      {
        assert ids[..i + 1][..i] == ids[..i];
        if ids[i].Some? && ids[i].value in byId {
          kids := kids + [byId[ids[i].value]];
        }
      }
      assert ids[..|ids|] == ids;
    }
  }

  /** What the queue loop keeps of the order: `popped` is what has left the queue. */
  ghost predicate InTurn(entry: Receipt, byId: Index, popped: seq<Receipt>, queue: seq<Receipt>, visited: set<Id>,
                         ordered: seq<Receipt>)
  {
    && [entry] + ChildrenOf(byId, ordered) == popped + queue
    && ordered == FirstVisits(popped)
    && forall k :: k in visited <==> HasId(ordered, k)
  }

  lemma TurnSkip(entry: Receipt, byId: Index, popped: seq<Receipt>, queue: seq<Receipt>, visited: set<Id>,
                 ordered: seq<Receipt>)
    requires InTurn(entry, byId, popped, queue, visited, ordered) && queue != []
    requires queue[0].id == "" || queue[0].id in visited
    ensures InTurn(entry, byId, popped + [queue[0]], queue[1..], visited, ordered)
  {
    hide FirstVisits, ChildrenOf;
    FirstVisitsAdd(popped, queue[0]);
    assert popped + [queue[0]] + queue[1..] == popped + queue;
  }

  lemma TurnVisit(entry: Receipt, byId: Index, popped: seq<Receipt>, queue: seq<Receipt>, visited: set<Id>,
                  ordered: seq<Receipt>)
    requires InTurn(entry, byId, popped, queue, visited, ordered) && queue != []
    requires queue[0].id != "" && queue[0].id !in visited
    ensures InTurn(entry, byId, popped + [queue[0]], queue[1..] + ChildList(byId, queue[0]), visited + {queue[0].id},
                   ordered + [queue[0]])
  {
    hide FirstVisits, ChildList, ChildrenOf, HasId;
    var r := queue[0];
    FirstVisitsAdd(popped, r);
    var kids := ChildList(byId, r);
    ChildrenOfAdd(byId, ordered, r);
    TurnShape([entry], ChildrenOf(byId, ordered), kids, popped, queue);
    forall k ensures k in visited + {r.id} <==> HasId(ordered + [r], k) {
      HasIdAdd(ordered, r, k);
    }
  }

  lemma ChildrenOfAdd(byId: Index, rs: seq<Receipt>, r: Receipt)
    ensures ChildrenOf(byId, rs + [r]) == ChildrenOf(byId, rs) + ChildList(byId, r)
  {
    assert (rs + [r])[..|rs|] == rs;
  }

  lemma HasIdAdd(s: seq<Receipt>, r: Receipt, k: Id)
    ensures HasId(s + [r], k) <==> HasId(s, k) || k == r.id
  {
    if HasId(s, k) {
      var x :| x in s && x.id == k;
      assert x in s + [r];
    }
    assert r in s + [r];
  }

  lemma TurnShape(entry: seq<Receipt>, children: seq<Receipt>, kids: seq<Receipt>, popped: seq<Receipt>,
                  queue: seq<Receipt>)
    requires entry + children == popped + queue && queue != []
    ensures entry + (children + kids) == popped + [queue[0]] + (queue[1..] + kids)
  {
    assert entry + (children + kids) == (entry + children) + kids;
    assert popped + [queue[0]] + (queue[1..] + kids) == (popped + queue) + kids;
  }

  lemma TurnStart(entry: Receipt, byId: Index)
    ensures InTurn(entry, byId, [], [entry], {}, [])
  {}

  lemma TurnDone(entry: Receipt, byId: Index, popped: seq<Receipt>, visited: set<Id>, ordered: seq<Receipt>)
    requires InTurn(entry, byId, popped, [], visited, ordered)
    ensures BreadthFirst(entry, byId, ordered)
  {
    assert popped + [] == popped;
  }

  /**
   * Visits exactly the reachable receipts, each once and breadth-first, on any graph, cycles and repeated references
   * included; then logs and failures are those of the receipts in stable (block height, index) order.
   */
  method Fold(entry: Receipt, byId: Index) returns (count: nat, logs: seq<string>, failures: seq<string>)
    requires Consistent(entry, byId)
    ensures exists visit: seq<Receipt> ::
      && BreadthFirst(entry, byId, visit) && IsOrder(entry, byId, Sort(visit))
      && count == |Sort(visit)| && logs == LogsOf(Sort(visit)) && failures == FailuresOf(Sort(visit))
  {
    hide *;
    var ordered: seq<Receipt> := [];
    var queue := [entry];
    var visited: set<Id> := {};
    ghost var ids := byId.Keys + {entry.id};
    ghost var popped: seq<Receipt> := [];
    SearchStart(entry, byId);
    TurnStart(entry, byId);
    while queue != []
      invariant Searching(entry, byId, queue, visited, ordered)
      invariant InTurn(entry, byId, popped, queue, visited, ordered)
      invariant visited <= ids
      decreases |ids - visited|, |queue|
    {
      var r := queue[0];
      QueueIndexed(entry, byId, queue, visited, ordered);
      popped := popped + [r];
      if r.id == "" || r.id in visited {
        SearchSkip(entry, byId, queue, visited, ordered);
        TurnSkip(entry, byId, popped[..|popped| - 1], queue, visited, ordered);
        queue := queue[1..];
        continue;
      }
      var kids := Children(r, byId);
      forall c ensures c in kids <==> IsChild(byId, r, c) { ChildListMember(byId, r, c); }
      SearchVisit(entry, byId, queue, visited, ordered, kids);
      TurnVisit(entry, byId, popped[..|popped| - 1], queue, visited, ordered);
      FewerLeft(ids, visited, r.id);
      visited := visited + {r.id};
      ordered := ordered + [r];
      queue := queue[1..] + kids;
    }
    SearchDone(entry, byId, visited, ordered);
    TurnDone(entry, byId, popped, visited, ordered);
    SearchDistinct(entry, byId, queue, visited, ordered);
    SortedVisit(entry, byId, ordered);
    ordered := Sort(ordered);
    count := |ordered|;
    logs, failures := Collect(ordered);
  }

  /** The logs and failures of the receipts in order; receipts without an outcome add nothing. */
  method Collect(order: seq<Receipt>) returns (logs: seq<string>, failures: seq<string>)
    ensures logs == LogsOf(order) && failures == FailuresOf(order)
  {
    logs, failures := [], [];
    for i := 0 to |order|
      invariant logs == LogsOf(order[..i]) && failures == FailuresOf(order[..i])
    {
      assert order[..i + 1][..i] == order[..i];
      var o := order[i].outcome;
      if o.None? { continue; }
      logs := logs + Strings(o.value.logs);
      if o.value.failure.Some? { failures := failures + [o.value.failure.value]; }
    }
    assert order[..|order|] == order;
  }
}
