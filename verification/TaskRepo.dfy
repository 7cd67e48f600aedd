/** The in-memory task repository with its paginated listing. */
module TaskRepo {

  datatype Task = Task(id: int, title: string, description: string, dueDate: int)

  datatype Option<+T> = None | Some(value: T)

  type Data = map<int, Task>

  function GetByID(data: Data, id: int): Option<Task> {
    if id in data then Some(data[id]) else None
  }

  // ---- Sorted listing -----------------------------------------------------------------------------------

  predicate Increasing(s: seq<int>) {
    forall i, j :: 0 <= i < j < |s| ==> s[i] < s[j]
  }

  lemma {:induction false} NonEmpty(ids: set<int>)
    requires ids != {}
    ensures exists x :: x in ids
  {
    assert (forall x :: x !in ids) ==> ids == {};
  }

  lemma {:induction false} LeastExists(ids: set<int>)
    requires ids != {}
    ensures exists least :: IsLeast(ids, least)
  {
    NonEmpty(ids);
    var x :| x in ids;
    var rest := ids - {x};
    if rest == {} {
      assert forall y :: y in ids ==> y == x || y in rest;
      assert IsLeast(ids, x);
    } else {
      LeastExists(rest);
      var m :| IsLeast(rest, m);
      LeastOfTwo(ids, x, m);
      assert IsLeast(ids, if x < m then x else m);
    }
  }

  predicate IsLeast(ids: set<int>, least: int) {
    least in ids && forall y :: y in ids ==> least <= y
  }

  lemma {:induction false} LeastOfTwo(ids: set<int>, x: int, m: int)
    requires x in ids && IsLeast(ids - {x}, m)
    ensures IsLeast(ids, if x < m then x else m)
  {
    assert forall y :: y in ids ==> y == x || y in ids - {x};
  }

  ghost function Least(ids: set<int>): int
    requires ids != {}
    ensures IsLeast(ids, Least(ids))
  {
    LeastExists(ids);
    var least :| IsLeast(ids, least);
    least
  }

  /** The ids in increasing order. */
  ghost function SortedIds(ids: set<int>): (s: seq<int>)
    ensures Increasing(s) && |s| == |ids| && (forall x :: x in s <==> x in ids)
    ensures forall i :: 0 <= i < |s| ==> s[i] in ids
  {
    if ids == {} then []
    else
      var least := Least(ids);
      var rest := SortedIds(ids - {least});
      assert forall k :: 0 <= k < |rest| ==> rest[k] in rest;
      [least] + rest
  }

  lemma {:induction false} ElementsShared(s: seq<int>, t: seq<int>)
    requires forall x :: x in s ==> x in t
    ensures forall i :: 0 <= i < |s| ==> s[i] in t
    ensures s != [] ==> t != []
  {
    forall i | 0 <= i < |s| ensures s[i] in t {
      var x := s[i];
      assert x in s;
    }
    if s != [] {
      assert s[0] in t;
    }
  }

  /** A strictly increasing sequence is determined by its elements. */
  lemma {:induction false} SortedUnique(s: seq<int>, t: seq<int>)
    requires Increasing(s) && Increasing(t) && forall x :: x in s <==> x in t
    ensures s == t
  {
    ElementsShared(t, s);
    if s != [] {
      assert s[0] in t && t != [] && t[0] in s;
      assert s[0] == t[0];
      forall x ensures x in s[1..] <==> x in t[1..] {
        if x in s[1..] {
          assert x in s && x in t && x != t[0];
        }
        if x in t[1..] {
          assert x in t && x in s && x != s[0];
        }
      }
      SortedUnique(s[1..], t[1..]);
    }
  }

  // ---- Pagination ---------------------------------------------------------------------------------------

  function EffectivePage(page: int): int {
    if page < 1 then 1 else page
  }

  function EffectiveLimit(limit: int): int {
    if limit < 1 then 10 else limit
  }

  /** First rank of a page. */
  function PageStart(page: int, limit: int): nat {
    PageOffset(EffectivePage(page), EffectiveLimit(limit))
  }

  /** The tasks on the pages before this one. */
  function PageOffset(page: int, limit: int): nat
    requires page >= 1 && limit >= 1
    decreases page
  {
    if page == 1 then 0 else PageOffset(page - 1, limit) + limit
  }

  lemma {:induction false} PageOffsetIsProduct(page: int, limit: int)
    requires page >= 1 && limit >= 1
    ensures PageOffset(page, limit) == (page - 1) * limit
    decreases page
  {
    if page > 1 {
      PageOffsetIsProduct(page - 1, limit);
      assert (page - 2) * limit + limit == (page - 1) * limit;
    }
  }

  ghost function TasksOf(data: Data, ids: seq<int>): (ts: seq<Task>)
    requires forall i :: 0 <= i < |ids| ==> ids[i] in data
    ensures |ts| == |ids| && forall i :: 0 <= i < |ids| ==> ts[i] == data[ids[i]]
  {
    seq(|ids|, i requires 0 <= i < |ids| => data[ids[i]])
  }

  /** Every task, in increasing id order. */
  ghost function AllTasks(data: Data): seq<Task> {
    TasksOf(data, SortedIds(data.Keys))
  }

  /** At most `n` elements from position `start` on. */
  function Window(all: seq<Task>, start: nat, n: nat): seq<Task> {
    if start >= |all| then [] else if start + n > |all| then all[start..] else all[start..start + n]
  }

  ghost function ListPage(data: Data, page: int, limit: int): seq<Task> {
    Window(AllTasks(data), PageStart(page, limit), EffectiveLimit(limit))
  }

  /** Pages `page`, `page + 1`, .. of a list up to the first empty one, concatenated. */
  function Pages(all: seq<Task>, page: int, limit: int): seq<Task>
    requires page >= 1
    decreases |all| - PageStart(page, limit)
  {
    var items := Window(all, PageStart(page, limit), EffectiveLimit(limit));
    if items == [] then []
    else
      NextPageStart(page, limit);
      items + Pages(all, page + 1, limit)
  }

  ghost function PagesFrom(data: Data, page: int, limit: int): seq<Task>
    requires page >= 1
  {
    Pages(AllTasks(data), page, limit)
  }

  lemma {:induction false} NextPageStart(page: int, limit: int)
    requires page >= 1
    ensures PageStart(page + 1, limit) == PageStart(page, limit) + EffectiveLimit(limit)
  {
  }

  /** What is left of a list from a position on. */
  function From(all: seq<Task>, start: nat): seq<Task> {
    if start >= |all| then [] else all[start..]
  }

  lemma {:induction false} WindowSplit(all: seq<Task>, start: nat, n: nat)
    requires n >= 1
    ensures Window(all, start, n) == [] <==> start >= |all|
    ensures Window(all, start, n) + From(all, start + n) == From(all, start)
  {
  }

  lemma {:induction false} PagesAreRest(all: seq<Task>, page: int, limit: int)
    requires page >= 1
    ensures Pages(all, page, limit) == From(all, PageStart(page, limit))
    decreases |all| - PageStart(page, limit)
  {
    WindowSplit(all, PageStart(page, limit), EffectiveLimit(limit));
    if PageStart(page, limit) < |all| {
      NextPageStart(page, limit);
      PagesAreRest(all, page + 1, limit);
    }
  }

  /** Listing page after page is what `PagesFrom` concatenates. */
  lemma {:induction false} PagesAreListed(data: Data, page: int, limit: int)
    requires page >= 1
    ensures PagesFrom(data, page, limit)
         == if ListPage(data, page, limit) == [] then [] else ListPage(data, page, limit) + PagesFrom(data, page + 1, limit)
  {
  }

  /** Every stored task carries its key as its id. */
  predicate Keyed(data: Data) {
    forall id <- data :: data[id].id == id
  }

  /** Pagination partitions the repository: for every limit, the pages up to the first empty one list every task
      exactly once, in strictly increasing id order. */
  lemma {:induction false} PagesPartition(data: Data, limit: int)
    requires Keyed(data)
    ensures var ts := PagesFrom(data, 1, limit);
            && |ts| == |data|
            && (forall i, j :: 0 <= i < j < |ts| ==> ts[i].id < ts[j].id)
            && (forall t :: t in ts <==> t in data.Values)
  {
    PagesAreRest(AllTasks(data), 1, limit);
    var ids, ts := SortedIds(data.Keys), AllTasks(data);
    assert PagesFrom(data, 1, limit) == ts;
    assert forall i :: 0 <= i < |ids| ==> ids[i] in ids && ts[i].id == ids[i];
    forall t | t in data.Values ensures t in ts {
      var id :| id in data && data[id] == t;
      assert id in ids;
      var i :| 0 <= i < |ids| && ids[i] == id;
      assert ts[i] == t;
    }
    forall t | t in ts ensures t in data.Values {
      var i :| 0 <= i < |ts| && ts[i] == t;
      assert ids[i] in data && data[ids[i]] == t;
    }
  }

  /** What a page holds, for every page and limit: a page below 1 is page 1, a limit below 1 is 10, and the tasks are the
      limit many after those of the pages before, as far as there are any. */
  lemma {:induction false} PageContents(data: Data, page: int, limit: int, p: int, l: int, before: nat)
    requires p == (if page < 1 then 1 else page) && l == (if limit < 1 then 10 else limit) && before == (p - 1) * l
    ensures PageHolds(AllTasks(data), before, l, ListPage(data, page, limit))
  {
    PageOffsetIsProduct(p, l);
    WindowContents(AllTasks(data), before, l);
  }

  /** The next n tasks after this many, or as many as there are. */
  predicate PageHolds(all: seq<Task>, before: nat, n: int, items: seq<Task>) {
    && |items| == (if before >= |all| then 0 else if |all| - before < n then |all| - before else n)
    && forall k :: 0 <= k < |items| ==> before + k < |all| && items[k] == all[before + k]
  }

  lemma {:induction false} WindowContents(all: seq<Task>, start: nat, n: nat)
    ensures PageHolds(all, start, n, Window(all, start, n))
  {
  }

  lemma {:induction false} PagingDefaults(data: Data, page: int, limit: int)
    ensures page < 1 ==> ListPage(data, page, limit) == ListPage(data, 1, limit)
    ensures limit < 1 ==> ListPage(data, page, limit) == ListPage(data, page, 10)
  {
    assert page < 1 ==> EffectivePage(page) == EffectivePage(1);
    assert limit < 1 ==> EffectiveLimit(limit) == EffectiveLimit(10);
  }

  /** The task of rank `r` is the one at offset r % limit of page r / limit + 1. */
  lemma {:induction false} RankOnPage(data: Data, limit: int, r: nat)
    requires limit >= 1 && r < |AllTasks(data)|
    ensures var items := ListPage(data, r / limit + 1, limit);
            r % limit < |items| && items[r % limit] == AllTasks(data)[r]
  {
    QuotientStart(r, limit);
    OffsetOfRank(AllTasks(data), limit, r, PageStart(r / limit + 1, limit), r % limit);
  }

  lemma {:induction false} OffsetOfRank(all: seq<Task>, limit: nat, r: nat, start: nat, k: nat)
    requires r < |all| && start + k == r && k < limit
    ensures k < |Window(all, start, limit)| && Window(all, start, limit)[k] == all[r]
  {
    OffsetOnPage(all, start, limit, k);
  }

  lemma {:induction false} OffsetOnPage(all: seq<Task>, start: nat, n: nat, k: nat)
    requires k < n && start + k < |all|
    ensures k < |Window(all, start, n)| && Window(all, start, n)[k] == all[start + k]
  {
  }

  lemma {:induction false} QuotientStart(r: nat, limit: int)
    requires limit >= 1
    ensures PageStart(r / limit + 1, limit) + r % limit == r && 0 <= r % limit < limit
  {
    var q := r / limit;
    assert q >= 0 && r == limit * q + r % limit;
    PageOffsetIsProduct(q + 1, limit);
    assert PageOffset(q + 1, limit) == q * limit == limit * q;
  }

  // ---- The repository object ----------------------------------------------------------------------------

  predicate NonDecreasing(s: seq<int>) {
    forall i, j :: 0 <= i < j < |s| ==> s[i] <= s[j]
  }

  /** The contract of the library's integer sort: a sorted permutation of its argument. */
  method SortInts(a: seq<int>) returns (b: seq<int>)
    ensures NonDecreasing(b) && multiset(b) == multiset(a)
  {
    b := [];
    for n := 0 to |a|
      invariant NonDecreasing(b) && multiset(b) == multiset(a[..n])
    {
      assert a[..n + 1] == a[..n] + [a[n]];
      b := InsertSorted(b, a[n]);
    }
    assert a[..|a|] == a;
  }

  method InsertSorted(a: seq<int>, x: int) returns (b: seq<int>)
    requires NonDecreasing(a)
    ensures NonDecreasing(b) && multiset(b) == multiset(a) + multiset{x}
  {
    var k := |a|;
    while k > 0 && a[k - 1] > x
      invariant 0 <= k <= |a|
      invariant k < |a| ==> a[k] > x
    {
      k := k - 1;
    }
    InsertedSorted(a, x, k);
    assert a == a[..k] + a[k..];
    b := a[..k] + [x] + a[k..];
  }

  lemma {:induction false} InsertedSorted(a: seq<int>, x: int, k: nat)
    requires NonDecreasing(a) && k <= |a| && (k > 0 ==> a[k - 1] <= x) && (k < |a| ==> a[k] > x)
    ensures NonDecreasing(a[..k] + [x] + a[k..])
  {
    var b := a[..k] + [x] + a[k..];
    forall i, j | 0 <= i < j < |b| ensures b[i] <= b[j] {
      InsertedAt(a, x, k, i);
      InsertedAt(a, x, k, j);
    }
  }

  lemma {:induction false} InsertedAt(a: seq<int>, x: int, k: nat, i: nat)
    requires k <= |a| && i <= |a|
    ensures (a[..k] + [x] + a[k..])[i] == if i < k then a[i] else if i == k then x else a[i - 1]
  {
  }

  lemma {:induction false} CountedTwice(b: seq<int>, i: nat, j: nat)
    requires i < j < |b| && b[i] == b[j]
    ensures multiset(b)[b[i]] >= 2
  {
    assert b == b[..j] + b[j..];
    assert multiset(b)[b[i]] == multiset(b[..j])[b[i]] + multiset(b[j..])[b[i]];
    assert b[..j][i] == b[i] && b[j..][0] == b[j];
  }

  /** A sorted permutation of distinct ids is their increasing sequence. */
  lemma {:induction false} SortedPermutation(ids: set<int>, b: seq<int>)
    requires NonDecreasing(b) && multiset(b) == multiset(ids)
    ensures b == SortedIds(ids)
  {
    forall i, j | 0 <= i < j < |b| ensures b[i] < b[j] {
      if b[i] == b[j] {
        CountedTwice(b, i, j);
      }
      assert multiset(ids)[b[i]] <= 1;
    }
    assert forall x :: x in b <==> x in multiset(b);
    SortedUnique(b, SortedIds(ids));
  }

  class Repo {
    var data: Data

    constructor (data: Data)
      ensures this.data == data
    {
      this.data := data;
    }

    method Get(id: int) returns (t: Option<Task>)
      ensures t == GetByID(data, id)
    {
      t := if id in data then Some(data[id]) else None;
    }

    /** Collects the keys in whatever order the map yields them, sorts them, and copies the page out. */
    method List(page: int, limit: int) returns (items: seq<Task>)
      ensures items == ListPage(data, page, limit)
    {
      var ids := CollectIds();
      ids := SortInts(ids);
      SortedPermutation(data.Keys, ids);
      var p := if page < 1 then 1 else page;
      var l := if limit < 1 then 10 else limit;
      items := PageOfIds(ids, p, l);
    }

    method PageOfIds(ids: seq<int>, page: int, limit: int) returns (items: seq<Task>)
      requires page >= 1 && limit >= 1 && forall i :: 0 <= i < |ids| ==> ids[i] in data
      ensures items == Window(TasksOf(data, ids), PageOffset(page, limit), limit)
    {
      var start := (page - 1) * limit;
      PageOffsetIsProduct(page, limit);
      if start >= |ids| {
        return [];
      }
      var end := start + limit;
      if end > |ids| {
        end := |ids|;
      }
      items := CopyOut(ids, start, end);
    }

    method CollectIds() returns (ids: seq<int>)
      ensures multiset(ids) == multiset(data.Keys)
    {
      ids := [];
      var left := data.Keys;
      while left != {}
        invariant left <= data.Keys
        invariant multiset(ids) == multiset(data.Keys - left)
      {
        NonEmpty(left);
        var id :| id in left;
        assert data.Keys - (left - {id}) == (data.Keys - left) + {id};
        ids := ids + [id];
        left := left - {id};
      }
      assert data.Keys - left == data.Keys;
    }

    method CopyOut(ids: seq<int>, start: nat, end: nat) returns (items: seq<Task>)
      requires start <= end <= |ids| && forall i :: 0 <= i < |ids| ==> ids[i] in data
      ensures items == TasksOf(data, ids)[start..end]
    {
      items := [];
      for k := start to end
        invariant items == TasksOf(data, ids)[start..k]
      {
        items := items + [data[ids[k]]];
      }
    }

    method Update(t: Task) returns (ok: bool)
      modifies this
      ensures ok == (t.id in old(data))
      ensures data == if ok then old(data)[t.id := t] else old(data)
    {
      ok := t.id in data;
      if ok {
        data := data[t.id := t];
      }
    }

    method Delete(id: int) returns (ok: bool)
      modifies this
      ensures ok == (id in old(data))
      ensures data == if ok then old(data) - {id} else old(data)
    {
      ok := id in data;
      if ok {
        data := data - {id};
      }
    }
  }
}
