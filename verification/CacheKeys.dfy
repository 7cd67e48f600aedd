/** The Redis key builders, and the proof that no two of their keys collide. */
module CacheKeys {
  import opened Decimal

  function TaskByID(id: int): string {
    "tasks:task:" + Dec(id)
  }

  const TASKS_LIST: string := "tasks:list"

  function TasksListPaged(page: int, limit: int): string {
    "tasks:list:page=" + Dec(page) + ":limit=" + Dec(limit)
  }

  lemma {:induction false} DecHasNoColon(n: int)
    ensures ':' !in Dec(n)
  {
  }

  /** Two colon-free fields around a separator that starts with a colon can be read back. */
  lemma {:induction false} FieldsReadBack(head: string, a: string, sep: string, b: string, x: string, y: string)
    requires sep != "" && sep[0] == ':' && ':' !in a && ':' !in x
    requires head + a + sep + b == head + x + sep + y
    ensures a == x && b == y
  {
    var s := head + a + sep + b;
    assert s[|head| + |a|] == ':' && s[|head| + |x|] == ':';
    assert forall i :: 0 <= i < |a| ==> s[|head| + i] == a[i] && a[i] in a;
    assert forall i :: 0 <= i < |x| ==> s[|head| + i] == x[i] && x[i] in x;
    assert s[|head| + |a|] == s[|head| + |x|];
    assert a == s[|head|..|head| + |a|] && x == s[|head|..|head| + |x|];
    assert b == s[|head| + |a| + |sep|..] && y == s[|head| + |x| + |sep|..];
  }

  lemma {:induction false} TaskKeysInjective(i: int, j: int)
    ensures TaskByID(i) == TaskByID(j) <==> i == j
  {
    assert Dec(i) == TaskByID(i)[|"tasks:task:"|..] && Dec(j) == TaskByID(j)[|"tasks:task:"|..];
    DecInjective(i, j);
  }

  lemma {:induction false} PagedKeysInjective(p: int, l: int, q: int, m: int)
    ensures TasksListPaged(p, l) == TasksListPaged(q, m) <==> p == q && l == m
  {
    if TasksListPaged(p, l) == TasksListPaged(q, m) {
      DecHasNoColon(p);
      DecHasNoColon(q);
      FieldsReadBack("tasks:list:page=", Dec(p), ":limit=", Dec(l), Dec(q), Dec(m));
      DecInjective(p, q);
      DecInjective(l, m);
    }
  }

  /** Task keys, the unpaged list key and paged list keys are three disjoint families. */
  lemma {:induction false} KeyFamiliesDisjoint(id: int, page: int, limit: int)
    ensures TaskByID(id) != TASKS_LIST && TaskByID(id) != TasksListPaged(page, limit)
    ensures TasksListPaged(page, limit) != TASKS_LIST
  {
    assert TaskByID(id)[6] == 't' && TASKS_LIST[6] == 'l' && TasksListPaged(page, limit)[6] == 'l';
    assert |TASKS_LIST| == 10 && |TasksListPaged(page, limit)| > 10;
  }

  /** The pages and limits whose list keys an update or delete removes. */
  predicate InWindow(page: int, limit: int) {
    1 <= page <= 5 && 1 <= limit <= 20
  }

  /** The n-th key of the nested page and limit loops. */
  function WindowKey(n: nat): string {
    TasksListPaged(n / 20 + 1, n % 20 + 1)
  }

  /** The keys the nested loops delete, in order. */
  function WindowKeys(): (keys: seq<string>)
    ensures |keys| == 100 && forall n :: 0 <= n < 100 ==> keys[n] == WindowKey(n)
  {
    seq(100, n requires 0 <= n < 100 => WindowKey(n))
  }

  /** The loops visit exactly the window's paged keys: no other paged key, and no task or list key. */
  lemma {:induction false} WindowKeysExact(page: int, limit: int)
    ensures InWindow(page, limit) <==> TasksListPaged(page, limit) in WindowKeys()
    ensures TASKS_LIST !in WindowKeys() && forall id: int :: TaskByID(id) !in WindowKeys()
  {
    if InWindow(page, limit) {
      var n: nat := (page - 1) * 20 + limit - 1;
      assert n / 20 == page - 1 && n % 20 == limit - 1 && n < 100;
      assert WindowKeys()[n] == TasksListPaged(page, limit);
    }
    forall n | 0 <= n < 100
      ensures WindowKeys()[n] != TASKS_LIST && forall id: int :: TaskByID(id) != WindowKeys()[n]
      ensures WindowKeys()[n] == TasksListPaged(page, limit) ==> InWindow(page, limit)
    {
      PagedKeysInjective(n / 20 + 1, n % 20 + 1, page, limit);
      forall id: int ensures TaskByID(id) != WindowKey(n) && WindowKey(n) != TASKS_LIST {
        KeyFamiliesDisjoint(id, n / 20 + 1, n % 20 + 1);
      }
      KeyFamiliesDisjoint(n, n / 20 + 1, n % 20 + 1);
    }
  }
}
