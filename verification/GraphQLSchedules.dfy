/** Scheduling: the closures of a list or of the query root share the error log and interleave at every access to it,
    the check for an error on a path and the report that follows being two accesses. Every interleaving leaves the
    same array, the same count of invalid fields and the same errors, because a path is reported at most once and
    every closure reports below a path of its own. */
module GraphQLSchedules {
  import opened GraphQLSchema
  import opened GraphQLSpec
  import opened GraphQLExecutor

  // ---- A response reports no path twice -----------------------------------------------------------------

  /** The errors of a result lie at or below its path, each path once. */
  ghost predicate Once(errors: multiset<Path>, path: Path) {
    forall e :: errors[e] <= 1 && (e in errors ==> path <= e)
  }

  ghost predicate OnceEach(rs: seq<Result>, segments: seq<Segment>, path: Path) {
    |rs| == |segments| && forall i :: 0 <= i < |rs| ==> Once(rs[i].errors, Below(path, segments[i]))
  }

  lemma {:induction false} BelowOne(path: Path, s: Segment, q: Segment, e: Path)
    requires Below(path, s) <= e && Below(path, q) <= e
    ensures s == q
  {
    assert e[|path|] == Below(path, s)[|path|] == Below(path, q)[|path|];
  }

  predicate SomeBelow(segments: seq<Segment>, path: Path, e: Path) {
    exists i :: 0 <= i < |segments| && Below(path, segments[i]) <= e
  }

  lemma {:induction false} AllOnce(rs: seq<Result>, segments: seq<Segment>, path: Path)
    requires OnceEach(rs, segments, path) && AllDistinct(segments)
    ensures Once(AllErrors(rs), path)
    ensures forall e :: e in AllErrors(rs) ==> SomeBelow(segments, path, e)
    decreases |rs|
  {
    if rs != [] {
      var n := |rs| - 1;
      AllOnce(rs[..n], segments[..n], path);
      forall e ensures AllErrors(rs)[e] <= 1 && (e in AllErrors(rs) ==> path <= e && SomeBelow(segments, path, e)) {
        OnceMore(rs, segments, path, e);
      }
    }
  }

  lemma {:induction false} OnceMore(rs: seq<Result>, segments: seq<Segment>, path: Path, e: Path)
    requires rs != [] && OnceEach(rs, segments, path) && AllDistinct(segments)
    requires var before := AllErrors(rs[..|rs| - 1]);
             before[e] <= 1 && (e in before ==> SomeBelow(segments[..|rs| - 1], path, e))
    ensures AllErrors(rs)[e] <= 1 && (e in AllErrors(rs) ==> path <= e && SomeBelow(segments, path, e))
  {
    var n := |rs| - 1;
    assert Once(rs[n].errors, Below(path, segments[n]));
    if e in AllErrors(rs[..n]) {
      var i :| 0 <= i < n && Below(path, segments[..n][i]) <= e;
      assert segments[..n][i] == segments[i];
      PrefixOf(path, segments[i], e);
      if e in rs[n].errors {
        BelowOne(path, segments[i], segments[n], e);
      }
    } else if e in rs[n].errors {
      PrefixOf(path, segments[n], e);
    }
  }

  /** The selection under a value of this type passes validation. */
  ghost predicate SelectsValidly(t: TypeRef, f: Field) {
    match t
    case NonNull(u) => SelectsValidly(u, f)
    case ListOf(u) => SelectsValidly(u, f)
    case Leaf => true
    case Obj(o) => ValidSelection(o, f.sub)
  }

  lemma {:induction false} KeysDistinct(fs: seq<Field>)
    requires DistinctKeys(fs)
    ensures AllDistinct(KeysOf(fs))
  {
  }

  lemma {:induction false} ValueOnce(r: Resolver, t: TypeRef, v: Internal, f: Field, path: Path)
    requires SelectsValidly(t, f)
    ensures Once(Complete(r, t, v, f, path).errors, path)
    ensures Complete(r, t, v, f, path).completion == Gave(JNull) ==> Complete(r, t, v, f, path).errors == multiset{}
    decreases f, t, 0
  {
    match t
    case NonNull(u) => ValueOnce(r, u, v, f, path);
    case ListOf(u) =>
      if v.Items? {
        ElementsOnce(r, u, v.items, f, path);
        AllOnce(Elements(r, u, v.items, f, path), Indices(|v.items|), path);
      }
    case Leaf =>
    case Obj(o) =>
      if v.Ref? {
        SelectionOnce(r, o, v.target, f.sub, path);
        KeysDistinct(f.sub);
        AllOnce(Selection(r, o, v.target, f.sub, path), KeysOf(f.sub), path);
      }
  }

  lemma {:induction false} ElementsOnce(r: Resolver, u: TypeRef, items: seq<Internal>, f: Field, path: Path)
    requires SelectsValidly(u, f)
    ensures OnceEach(Elements(r, u, items, f, path), Indices(|items|), path)
    decreases f, u, 1
  {
    forall i | 0 <= i < |items| ensures Once(Elements(r, u, items, f, path)[i].errors, Below(path, Index(i))) {
      ValueOnce(r, u, items[i], f, Below(path, Index(i)));
    }
  }

  lemma {:induction false} SelectionOnce(r: Resolver, o: ObjectType, x: Object, fs: seq<Field>, path: Path)
    requires ValidSelection(o, fs)
    ensures OnceEach(Selection(r, o, x, fs, path), KeysOf(fs), path)
    decreases fs
  {
    forall i | 0 <= i < |fs| ensures Once(Selection(r, o, x, fs, path)[i].errors, Below(path, KeysOf(fs)[i])) {
      assert ValidField(o, fs[i]);
      FieldOnce(r, o, x, fs[i], path);
    }
  }

  lemma {:induction false} FieldOnce(r: Resolver, o: ObjectType, x: Object, f: Field, path: Path)
    requires ValidField(o, f)
    ensures Once(FieldResult(r, o, x, f, path).errors, Below(path, Key(f.key)))
    decreases f
  {
    if f.name != Typename && DeclaredType(o, f.name).Some? && r(o, x, f).Got? {
      var t := DeclaredType(o, f.name).value;
      ValidSelects(o, f, t);
      ValueOnce(r, t, r(o, x, f).value, f, Below(path, Key(f.key)));
    }
  }

  lemma {:induction false} ValidSelects(o: ObjectType, f: Field, t: TypeRef)
    requires ValidField(o, f) && f.name != Typename && DeclaredType(o, f.name) == Some(t)
    ensures SelectsValidly(t, f)
  {
    GeneratedFromSchema(o, f.name);
    MarshalledSelects(MarshallerOf(o, f.name).value, f);
  }

  lemma {:induction false} MarshalledSelects(m: Marshaller, f: Field)
    requires m.element.ObjectElement? ==> ValidSelection(m.element.o, f.sub)
    ensures SelectsValidly(MarshalledType(m), f)
  {
    assert SelectsValidly(ElementType(m.element), f);
    assert SelectsValidly(NonNull(ElementType(m.element)), f);
    assert SelectsValidly(ListOf(NonNull(ElementType(m.element))), f);
  }

  // ---- Closures that interleave -------------------------------------------------------------------------

  /** One access to the shared log: the check whether a path has an error, the report that follows it, or a report
      made without a check. */
  datatype Access = Check(path: Path) | ReportIfUnseen(path: Path) | Report(path: Path)

  /** A closure: the accesses it makes, goroutines of its own included, and the result it ends with. */
  datatype Closure = Closure(accesses: seq<Access>, result: Result)

  /** How often these accesses report path e. */
  function Reports(accesses: seq<Access>, e: Path): nat {
    if accesses == [] then 0
    else
      var n := |accesses| - 1;
      Reports(accesses[..n], e) + ReportsOnce(accesses[n], e)
  }

  function ReportsOnce(a: Access, e: Path): nat {
    if !a.Check? && a.path == e then 1 else 0
  }

  /** The accesses report these errors, and what they check they go on to report. */
  ghost predicate Reporting(accesses: seq<Access>, errors: multiset<Path>) {
    && (forall e :: Reports(accesses, e) == errors[e])
    && forall a :: 0 <= a < |accesses| && accesses[a].Check? ==>
         exists b :: a < b < |accesses| && accesses[b] == ReportIfUnseen(accesses[a].path)
  }

  ghost predicate Faithful(c: Closure) {
    Reporting(c.accesses, c.result.errors)
  }

  /** The shared log, how far each closure has come, what its checks have seen, the array and the counter. */
  datatype Shared = Shared(log: seq<Path>, at: seq<nat>, seen: seq<set<Path>>, values: seq<Json>, invalids: nat)

  predicate Sized(cs: seq<Closure>, s: Shared) {
    |s.at| == |s.seen| == |s.values| == |cs| && forall i :: 0 <= i < |cs| ==> s.at[i] <= |cs[i].accesses| + 1
  }

  predicate CanStep(cs: seq<Closure>, s: Shared, i: nat) {
    Sized(cs, s) && i < |cs| && s.at[i] <= |cs[i].accesses|
  }

  /** The next access of closure i, or, when it has made them all, its result. */
  function Step(cs: seq<Closure>, s: Shared, i: nat): (t: Shared)
    requires CanStep(cs, s, i)
    ensures Sized(cs, t)
  {
    var n, c := s.at[i], cs[i];
    var t := s.(at := s.at[i := n + 1]);
    if n == |c.accesses| then
      t.(values := s.values[i := AsNull(c.result.completion)],
      invalids := if c.result.completion.Raised? then s.invalids + 1 else s.invalids)
    else
      match c.accesses[n]
      case Check(p) => t.(seen := s.seen[i := if p in s.log then s.seen[i] + {p} else s.seen[i]])
      case ReportIfUnseen(p) => t.(log := if p in s.seen[i] then s.log else s.log + [p])
      case Report(p) => t.(log := s.log + [p])
  }

  predicate Possible(cs: seq<Closure>, s: Shared, schedule: seq<nat>)
    decreases |schedule|
  {
    schedule == [] || (CanStep(cs, s, schedule[0]) && Possible(cs, Step(cs, s, schedule[0]), schedule[1..]))
  }

  function Run(cs: seq<Closure>, s: Shared, schedule: seq<nat>): Shared
    requires Possible(cs, s, schedule)
    decreases |schedule|
  {
    if schedule == [] then s else Run(cs, Step(cs, s, schedule[0]), schedule[1..])
  }

  function Begun(cs: seq<Closure>, log: seq<Path>): Shared {
    Shared(log, seq(|cs|, _ => 0), seq(|cs|, _ => {}), seq(|cs|, _ => JNull), 0)
  }

  function Results(cs: seq<Closure>): (rs: seq<Result>)
    ensures |rs| == |cs| && forall i :: 0 <= i < |cs| ==> rs[i] == cs[i].result
  {
    seq(|cs|, i requires 0 <= i < |cs| => cs[i].result)
  }

  /** The closures that have ended. */
  function Ended(cs: seq<Closure>, s: Shared): (flags: seq<bool>)
    requires Sized(cs, s)
    ensures |flags| == |cs| && forall i :: 0 <= i < |cs| ==> flags[i] == (s.at[i] == |cs[i].accesses| + 1)
  {
    seq(|cs|, i requires 0 <= i < |cs| => s.at[i] == |cs[i].accesses| + 1)
  }

  function Past(c: Closure, at: nat): seq<Access> {
    if at <= |c.accesses| then c.accesses[..at] else c.accesses
  }

  /** How often the first m closures have reported path e so far. */
  function Reported(cs: seq<Closure>, at: seq<nat>, m: nat, e: Path): nat
    requires m <= |at| == |cs|
  {
    if m == 0 then 0 else Reported(cs, at, m - 1, e) + Reports(Past(cs[m - 1], at[m - 1]), e)
  }

  /** What the next step of a closure adds to its reports of e. */
  function Gain(c: Closure, at: nat, e: Path): nat {
    if at >= |c.accesses| then 0 else ReportsOnce(c.accesses[at], e)
  }

  lemma {:induction false} ReportedNext(cs: seq<Closure>, at: seq<nat>, i: nat, m: nat, e: Path)
    requires m <= |at| == |cs| && i < |cs| && at[i] <= |cs[i].accesses|
    ensures Reported(cs, at[i := at[i] + 1], m, e)
            == Reported(cs, at, m, e) + if i < m then Gain(cs[i], at[i], e) else 0
    decreases m
  {
    if m > 0 {
      ReportedNext(cs, at, i, m - 1, e);
      if i == m - 1 {
        PastNext(cs[i], at[i], e);
      } else {
        assert at[i := at[i] + 1][m - 1] == at[m - 1];
      }
    }
  }

  lemma {:induction false} PastNext(c: Closure, at: nat, e: Path)
    requires at <= |c.accesses|
    ensures Reports(Past(c, at + 1), e) == Reports(Past(c, at), e) + Gain(c, at, e)
  {
    if at < |c.accesses| {
      assert c.accesses[..at + 1][..at] == c.accesses[..at];
    } else {
      assert c.accesses[..at] == c.accesses;
    }
  }

  lemma {:induction false} ReportedSomewhere(cs: seq<Closure>, at: seq<nat>, m: nat, e: Path) returns (i: nat)
    requires m <= |at| == |cs| && Reported(cs, at, m, e) > 0
    ensures i < |cs| && Reports(Past(cs[i], at[i]), e) > 0
    decreases m
  {
    if Reported(cs, at, m - 1, e) > 0 {
      i := ReportedSomewhere(cs, at, m - 1, e);
    } else {
      i := m - 1;
    }
  }

  /** Reports of a longer run of accesses. */
  lemma {:induction false} ReportsGrow(accesses: seq<Access>, at: nat, e: Path)
    requires at <= |accesses|
    ensures Reports(accesses[..at], e) <= Reports(accesses, e)
    ensures forall b :: at <= b < |accesses| && accesses[b] == ReportIfUnseen(e) ==>
              Reports(accesses[..at], e) < Reports(accesses, e)
    decreases |accesses|
  {
    if at == |accesses| {
      assert accesses[..at] == accesses;
    } else {
      var n := |accesses| - 1;
      assert accesses[..n][..at] == accesses[..at];
      ReportsGrow(accesses[..n], at, e);
      forall b | at <= b < |accesses| && accesses[b] == ReportIfUnseen(e)
        ensures Reports(accesses[..at], e) < Reports(accesses, e)
      {
        if b < n {
          assert accesses[..n][b] == accesses[b];
        }
      }
    }
  }

  /** What a closure has reported is among its result's errors. */
  lemma {:induction false} PastIsPart(c: Closure, at: nat, e: Path)
    requires Faithful(c)
    ensures Reports(Past(c, at), e) <= c.result.errors[e]
  {
    if at <= |c.accesses| {
      ReportsGrow(c.accesses, at, e);
    }
  }

  /** A path about to be checked has not been reported by the closure itself. */
  lemma {:induction false} CheckedIsNew(c: Closure, at: nat, path: Path)
    requires Faithful(c) && Once(c.result.errors, path) && at < |c.accesses| && c.accesses[at].Check?
    ensures Reports(Past(c, at), c.accesses[at].path) == 0 && path <= c.accesses[at].path
  {
    var p := c.accesses[at].path;
    var b :| at < b < |c.accesses| && c.accesses[b] == ReportIfUnseen(p);
    ReportsGrow(c.accesses, at, p);
    assert c.result.errors[p] <= 1;
  }

  // ---- The invariant ------------------------------------------------------------------------------------

  /** Every closure keeps to its own part of the paths, and the log was clear of all of them. */
  ghost predicate Separate(cs: seq<Closure>, segments: seq<Segment>, path: Path, start: seq<Path>) {
    && AllDistinct(segments) && OnceEach(Results(cs), segments, path) && Clear(start, path)
    && forall i :: 0 <= i < |cs| ==> Faithful(cs[i])
  }

  predicate NothingSeen(s: Shared) {
    forall i :: 0 <= i < |s.seen| ==> s.seen[i] == {}
  }

  /** The log has gained what the closures reported. */
  ghost predicate LogExact(cs: seq<Closure>, start: seq<Path>, s: Shared)
    requires Sized(cs, s)
  {
    forall e :: multiset(s.log)[e] == multiset(start)[e] + Reported(cs, s.at, |cs|, e)
  }

  ghost predicate SlotsExact(cs: seq<Closure>, s: Shared)
    requires Sized(cs, s)
  {
    && (forall i :: 0 <= i < |cs| && Ended(cs, s)[i] ==> s.values[i] == AsNull(cs[i].result.completion))
    && s.invalids == Tally(Results(cs), Ended(cs, s)).1
  }

  ghost predicate Consistent(cs: seq<Closure>, start: seq<Path>, s: Shared) {
    Sized(cs, s) && NothingSeen(s) && LogExact(cs, start, s) && SlotsExact(cs, s)
  }

  /** A check never sees an error. */
  lemma {:induction false} ChecksSeeNothing(cs: seq<Closure>, segments: seq<Segment>, path: Path, start: seq<Path>,
                                            s: Shared, i: nat)
    requires Separate(cs, segments, path, start) && Sized(cs, s) && LogExact(cs, start, s) && CanStep(cs, s, i)
    requires s.at[i] < |cs[i].accesses| && cs[i].accesses[s.at[i]].Check?
    ensures cs[i].accesses[s.at[i]].path !in s.log
  {
    var p := cs[i].accesses[s.at[i]].path;
    OnceAt(cs, segments, path, i);
    CheckedIsNew(cs[i], s.at[i], Below(path, segments[i]));
    PrefixOf(path, segments[i], p);
    if p in s.log {
      assert multiset(s.log)[p] > 0 && p !in start;
      var j := ReportedSomewhere(cs, s.at, |cs|, p);
      PastIsPart(cs[j], s.at[j], p);
      OnceAt(cs, segments, path, j);
      BelowOne(path, segments[i], segments[j], p);
    }
  }

  lemma {:induction false} OnceAt(cs: seq<Closure>, segments: seq<Segment>, path: Path, i: nat)
    requires OnceEach(Results(cs), segments, path) && i < |cs|
    ensures Once(cs[i].result.errors, Below(path, segments[i]))
  {
    assert Results(cs)[i] == cs[i].result;
  }

  lemma {:induction false} StepConsistent(cs: seq<Closure>, segments: seq<Segment>, path: Path, start: seq<Path>,
                                          s: Shared, i: nat)
    requires Separate(cs, segments, path, start) && Consistent(cs, start, s) && CanStep(cs, s, i)
    ensures Consistent(cs, start, Step(cs, s, i))
  {
    if s.at[i] < |cs[i].accesses| && cs[i].accesses[s.at[i]].Check? {
      ChecksSeeNothing(cs, segments, path, start, s, i);
    }
    LogStep(cs, start, s, i);
    SlotsStep(cs, s, i);
  }

  lemma {:induction false} LogStep(cs: seq<Closure>, start: seq<Path>, s: Shared, i: nat)
    requires CanStep(cs, s, i) && NothingSeen(s) && LogExact(cs, start, s)
    requires s.at[i] < |cs[i].accesses| && cs[i].accesses[s.at[i]].Check? ==> cs[i].accesses[s.at[i]].path !in s.log
    ensures NothingSeen(Step(cs, s, i)) && LogExact(cs, start, Step(cs, s, i))
  {
    StillNothingSeen(cs, s, i);
    var t := Step(cs, s, i);
    forall e ensures multiset(t.log)[e] == multiset(start)[e] + Reported(cs, t.at, |cs|, e) {
      LogGains(cs, s, i, e);
      ReportedAfter(cs, s, i, e);
    }
  }

  lemma {:induction false} StillNothingSeen(cs: seq<Closure>, s: Shared, i: nat)
    requires CanStep(cs, s, i) && NothingSeen(s)
    requires s.at[i] < |cs[i].accesses| && cs[i].accesses[s.at[i]].Check? ==> cs[i].accesses[s.at[i]].path !in s.log
    ensures NothingSeen(Step(cs, s, i))
  {
  }

  lemma {:induction false} ReportedAfter(cs: seq<Closure>, s: Shared, i: nat, e: Path)
    requires CanStep(cs, s, i)
    ensures Reported(cs, Step(cs, s, i).at, |cs|, e) == Reported(cs, s.at, |cs|, e) + Gain(cs[i], s.at[i], e)
  {
    ReportedNext(cs, s.at, i, |cs|, e);
    assert Step(cs, s, i).at == s.at[i := s.at[i] + 1];
  }

  lemma {:induction false} LogGains(cs: seq<Closure>, s: Shared, i: nat, e: Path)
    requires CanStep(cs, s, i) && NothingSeen(s)
    ensures multiset(Step(cs, s, i).log)[e] == multiset(s.log)[e] + Gain(cs[i], s.at[i], e)
  {
    var n, c, log := s.at[i], cs[i], Step(cs, s, i).log;
    if n < |c.accesses| && !c.accesses[n].Check? {
      assert log == s.log + [c.accesses[n].path];
    } else {
      assert log == s.log;
    }
  }

  lemma {:induction false} SlotsStep(cs: seq<Closure>, s: Shared, i: nat)
    requires CanStep(cs, s, i) && SlotsExact(cs, s)
    ensures SlotsExact(cs, Step(cs, s, i))
  {
    if s.at[i] == |cs[i].accesses| {
      TallyOneMore(Results(cs), Ended(cs, s), i);
      assert Ended(cs, Step(cs, s, i)) == Ended(cs, s)[i := true];
    } else {
      assert Ended(cs, Step(cs, s, i)) == Ended(cs, s);
    }
  }

  lemma {:induction false} RunConsistent(cs: seq<Closure>, segments: seq<Segment>, path: Path, start: seq<Path>,
                                         s: Shared, schedule: seq<nat>)
    requires Separate(cs, segments, path, start) && Consistent(cs, start, s) && Possible(cs, s, schedule)
    ensures Consistent(cs, start, Run(cs, s, schedule))
    decreases |schedule|
  {
    if schedule != [] {
      StepConsistent(cs, segments, path, start, s, schedule[0]);
      RunConsistent(cs, segments, path, start, Step(cs, s, schedule[0]), schedule[1..]);
    }
  }

  lemma {:induction false} NothingReported(cs: seq<Closure>, at: seq<nat>, m: nat, e: Path)
    requires m <= |at| == |cs| && forall i :: 0 <= i < |cs| ==> at[i] == 0
    ensures Reported(cs, at, m, e) == 0
    decreases m
  {
    if m > 0 {
      NothingReported(cs, at, m - 1, e);
    }
  }

  lemma {:induction false} WholePast(c: Closure, at: nat, e: Path)
    requires Faithful(c) && at > |c.accesses|
    ensures Reports(Past(c, at), e) == c.result.errors[e]
  {
  }

  lemma {:induction false} ErrorsLast(rs: seq<Result>, m: nat, e: Path)
    requires 0 < m <= |rs|
    ensures AllErrors(rs[..m])[e] == AllErrors(rs[..m - 1])[e] + rs[m - 1].errors[e]
  {
    assert rs[..m][..m - 1] == rs[..m - 1];
  }

  predicate ReportsAll(c: Closure, at: nat, result: Result, e: Path) {
    Reports(Past(c, at), e) == result.errors[e]
  }

  lemma {:induction false} AllReported(cs: seq<Closure>, at: seq<nat>, rs: seq<Result>, m: nat, e: Path)
    requires m <= |at| == |cs| == |rs| && forall i :: 0 <= i < |cs| ==> ReportsAll(cs[i], at[i], rs[i], e)
    ensures Reported(cs, at, m, e) == AllErrors(rs[..m])[e]
    decreases m
  {
    if m > 0 {
      AllReported(cs, at, rs, m - 1, e);
      ErrorsLast(rs, m, e);
      assert ReportsAll(cs[m - 1], at[m - 1], rs[m - 1], e);
    }
  }

  /** The schedule is possible and runs every closure to its end. */
  predicate RunsToEnd(cs: seq<Closure>, start: seq<Path>, schedule: seq<nat>) {
    && Possible(cs, Begun(cs, start), schedule)
    && var t := Run(cs, Begun(cs, start), schedule); Sized(cs, t) && forall i :: 0 <= i < |cs| ==> Ended(cs, t)[i]
  }

  /** When all closures have ended the log has gained exactly their errors. */
  lemma {:induction false} EndedLog(cs: seq<Closure>, start: seq<Path>, t: Shared)
    requires Sized(cs, t) && LogExact(cs, start, t)
    requires forall i :: 0 <= i < |cs| ==> t.at[i] > |cs[i].accesses| && Faithful(cs[i])
    ensures multiset(t.log) == multiset(start) + AllErrors(Results(cs))
  {
    forall e ensures multiset(t.log)[e] == (multiset(start) + AllErrors(Results(cs)))[e] {
      EndedCount(cs, t, e);
    }
    SameCounts(multiset(t.log), multiset(start) + AllErrors(Results(cs)));
  }

  lemma {:induction false} EndedCount(cs: seq<Closure>, t: Shared, e: Path)
    requires Sized(cs, t) && forall i :: 0 <= i < |cs| ==> t.at[i] > |cs[i].accesses| && Faithful(cs[i])
    ensures Reported(cs, t.at, |cs|, e) == AllErrors(Results(cs))[e]
  {
    forall i | 0 <= i < |cs| ensures ReportsAll(cs[i], t.at[i], Results(cs)[i], e) {
      WholePast(cs[i], t.at[i], e);
    }
    AllReported(cs, t.at, Results(cs), |cs|, e);
    assert Results(cs)[..|cs|] == Results(cs);
  }

  /** Scheduling independence: however the closures' accesses interleave, once all have ended the array holds every
      closure's value, the log has gained exactly the closures' errors, and the counter is positive exactly when some
      closure raised an error. */
  lemma {:induction false} AnyInterleaving(cs: seq<Closure>, segments: seq<Segment>, path: Path, start: seq<Path>,
                                           schedule: seq<nat>)
    requires Separate(cs, segments, path, start) && RunsToEnd(cs, start, schedule)
    ensures var t := Run(cs, Begun(cs, start), schedule);
            && t.values == Jsons(Results(cs))
            && multiset(t.log) == multiset(start) + AllErrors(Results(cs))
            && (t.invalids > 0 <==> AnyRaised(Results(cs)))
  {
    var s, t := Begun(cs, start), Run(cs, Begun(cs, start), schedule);
    BegunConsistent(cs, start);
    RunConsistent(cs, segments, path, start, s, schedule);
    forall i | 0 <= i < |cs| ensures t.at[i] > |cs[i].accesses| && Faithful(cs[i]) {
      assert Ended(cs, t)[i];
    }
    EndedLog(cs, start, t);
    TallyAll(Results(cs), Ended(cs, t));
    assert t.values == Jsons(Results(cs));
  }

  lemma {:induction false} SameCounts(a: multiset<Path>, b: multiset<Path>)
    requires forall e :: a[e] == b[e]
    ensures a == b
  {
  }

  lemma {:induction false} BegunConsistent(cs: seq<Closure>, start: seq<Path>)
    ensures Consistent(cs, start, Begun(cs, start))
  {
    var s := Begun(cs, start);
    forall e ensures Reported(cs, s.at, |cs|, e) == 0 {
      NothingReported(cs, s.at, |cs|, e);
    }
    TallyNone(Results(cs), Ended(cs, s));
  }

  /** The closures of a list: one per element, completing it at its index. */
  lemma {:induction false} ListInterleaves(r: Resolver, u: TypeRef, items: seq<Internal>, f: Field, path: Path,
                                           cs: seq<Closure>, start: seq<Path>)
    requires SelectsValidly(u, f) && Clear(start, path)
    requires Results(cs) == Elements(r, u, items, f, path) && forall i :: 0 <= i < |cs| ==> Faithful(cs[i])
    ensures Separate(cs, Indices(|items|), path, start)
  {
    ElementsOnce(r, u, items, f, path);
  }

  /** However the closures of a list interleave at the log, the array and the errors are the specified ones. */
  lemma {:induction false} ListAnyInterleaving(r: Resolver, u: TypeRef, items: seq<Internal>, f: Field, path: Path,
                                               cs: seq<Closure>, start: seq<Path>, schedule: seq<nat>)
    requires SelectsValidly(u, f) && Clear(start, path)
    requires Results(cs) == Elements(r, u, items, f, path) && forall i :: 0 <= i < |cs| ==> Faithful(cs[i])
    requires RunsToEnd(cs, start, schedule)
    ensures var t, rs := Run(cs, Begun(cs, start), schedule), Elements(r, u, items, f, path);
            t.values == Jsons(rs) && multiset(t.log) == multiset(start) + AllErrors(rs)
  {
    ListInterleaves(r, u, items, f, path, cs, start);
    AnyInterleaving(cs, Indices(|items|), path, start, schedule);
  }

  /** The closures of the query root: one per field, completing it at its key. */
  lemma {:induction false} RootInterleaves(r: Resolver, fs: seq<Field>, cs: seq<Closure>)
    requires ValidSelection(QueryType, fs)
    requires Results(cs) == Selection(r, QueryType, Root, fs, []) && forall i :: 0 <= i < |cs| ==> Faithful(cs[i])
    ensures Separate(cs, KeysOf(fs), [], [])
  {
    SelectionOnce(r, QueryType, Root, fs, []);
    KeysDistinct(fs);
  }

  // ---- The executor's own closures ----------------------------------------------------------------------

  function Flat(ss: seq<seq<Access>>): seq<Access> {
    if ss == [] then [] else Flat(ss[..|ss| - 1]) + ss[|ss| - 1]
  }

  /** The sequences, each in its own order, merged into one. */
  ghost predicate Merges(ss: seq<seq<Access>>, all: seq<Access>)
    decreases |all|
  {
    if all == [] then forall i :: 0 <= i < |ss| ==> ss[i] == []
    else exists i :: MergesFrom(ss, all, i)
  }

  /** The first access is one of sequence i, and the rest is merged from what remains. */
  ghost predicate MergesFrom(ss: seq<seq<Access>>, all: seq<Access>, i: int)
    requires all != []
    decreases |all|, 0
  {
    0 <= i < |ss| && ss[i] != [] && ss[i][0] == all[0] && Merges(ss[i := ss[i][1..]], all[1..])
  }

  /** The log accesses the executor may make to complete a value: the goroutines of a list interleave, the fields of
      an object come in order, and a null where none may be is checked and reported last. */
  ghost predicate MayComplete(r: Resolver, t: TypeRef, v: Internal, f: Field, path: Path, all: seq<Access>)
    decreases f, t, 0
  {
    match t
    case NonNull(u) =>
      if Complete(r, u, v, f, path).completion == Gave(JNull) then
        exists inner :: all == inner + [Check(path), ReportIfUnseen(path)] && MayComplete(r, u, v, f, path, inner)
      else MayComplete(r, u, v, f, path, all)
    case ListOf(u) =>
      if v.Items? then exists ss :: Merges(ss, all) && MayCompleteItems(r, u, v.items, f, path, ss)
      else all == if v.Null? then [] else [Report(path)]
    case Leaf => all == if v.Null? || v.Plain? then [] else [Report(path)]
    case Obj(o) =>
      if v.Ref? then exists ss :: all == Flat(ss) && MayRunFields(r, o, v.target, f.sub, path, ss)
      else all == if v.Null? then [] else [Report(path)]
  }

  ghost predicate MayCompleteItems(r: Resolver, u: TypeRef, items: seq<Internal>, f: Field, path: Path,
                                   ss: seq<seq<Access>>)
    decreases f, u, 1
  {
    |ss| == |items| && forall i :: 0 <= i < |ss| ==> MayComplete(r, u, items[i], f, Below(path, Index(i)), ss[i])
  }

  ghost predicate MayRunFields(r: Resolver, o: ObjectType, x: Object, fs: seq<Field>, path: Path, ss: seq<seq<Access>>)
    decreases fs
  {
    |ss| == |fs| && forall i :: 0 <= i < |ss| ==> MayRunField(r, o, x, fs[i], path, ss[i])
  }

  ghost predicate MayRunField(r: Resolver, o: ObjectType, x: Object, f: Field, path: Path, all: seq<Access>)
    decreases f
  {
    if f.name == Typename then all == []
    else if DeclaredType(o, f.name).None? || r(o, x, f).Failed? then all == [Report(Below(path, Key(f.key)))]
    else MayComplete(r, DeclaredType(o, f.name).value, r(o, x, f).value, f, Below(path, Key(f.key)), all)
  }

  lemma {:induction false} ReportsSplit(first: seq<Access>, rest: seq<Access>, e: Path)
    ensures Reports(first + rest, e) == Reports(first, e) + Reports(rest, e)
    decreases |rest|
  {
    if rest == [] {
      assert first + rest == first;
    } else {
      var n := |rest| - 1;
      assert (first + rest)[..|first| + n] == first + rest[..n];
      ReportsSplit(first, rest[..n], e);
    }
  }

  lemma {:induction false} ReportingBoth(first: seq<Access>, rest: seq<Access>, es: multiset<Path>, fs: multiset<Path>)
    requires Reporting(first, es) && Reporting(rest, fs)
    ensures Reporting(first + rest, es + fs)
  {
    var all := first + rest;
    forall e ensures Reports(all, e) == (es + fs)[e] {
      ReportsSplit(first, rest, e);
    }
    forall a | 0 <= a < |all| && all[a].Check?
      ensures exists b :: a < b < |all| && all[b] == ReportIfUnseen(all[a].path)
    {
      if a < |first| {
        var b :| a < b < |first| && first[b] == ReportIfUnseen(first[a].path);
        assert all[b] == ReportIfUnseen(all[a].path);
      } else {
        var b :| a - |first| < b < |rest| && rest[b] == ReportIfUnseen(rest[a - |first|].path);
        assert all[|first| + b] == ReportIfUnseen(all[a].path);
      }
    }
  }

  lemma {:induction false} ReportingNone()
    ensures Reporting([], multiset{})
  {
  }

  lemma {:induction false} ReportingOne(path: Path)
    ensures Reporting([Report(path)], multiset{path})
    ensures Reporting([Check(path), ReportIfUnseen(path)], multiset{path})
  {
    var checked := [Check(path), ReportIfUnseen(path)];
    forall e ensures Reports([Report(path)], e) == multiset{path}[e] && Reports(checked, e) == multiset{path}[e] {
      assert [Report(path)][..0] == [] && checked[..1] == [Check(path)] && [Check(path)][..0] == [];
      assert Reports([Check(path)], e) == 0;
    }
    assert checked[1] == ReportIfUnseen(checked[0].path);
  }

  lemma {:induction false} ReportingAll(ss: seq<seq<Access>>, rs: seq<Result>)
    requires |ss| == |rs| && forall i :: 0 <= i < |ss| ==> Reporting(ss[i], rs[i].errors)
    ensures Reporting(Flat(ss), AllErrors(rs))
    decreases |ss|
  {
    if ss == [] {
      ReportingNone();
    } else {
      var n := |ss| - 1;
      ReportingAll(ss[..n], rs[..n]);
      ReportingBoth(Flat(ss[..n]), ss[n], AllErrors(rs[..n]), rs[n].errors);
    }
  }

  lemma {:induction false} ReportsFirst(accesses: seq<Access>, e: Path)
    requires accesses != []
    ensures Reports(accesses, e) == ReportsOnce(accesses[0], e) + Reports(accesses[1..], e)
  {
    assert [accesses[0]] + accesses[1..] == accesses && [accesses[0]][..0] == [];
    ReportsSplit([accesses[0]], accesses[1..], e);
  }

  lemma {:induction false} FlatWithoutFirst(ss: seq<seq<Access>>, i: nat, e: Path)
    requires i < |ss| && ss[i] != []
    ensures Reports(Flat(ss), e) == ReportsOnce(ss[i][0], e) + Reports(Flat(ss[i := ss[i][1..]]), e)
    decreases |ss|
  {
    var n, rest := |ss| - 1, ss[i := ss[i][1..]];
    ReportsSplit(Flat(ss[..n]), ss[n], e);
    ReportsSplit(Flat(rest[..n]), rest[n], e);
    if i == n {
      ReportsFirst(ss[n], e);
      assert rest[..n] == ss[..n];
    } else {
      FlatWithoutFirst(ss[..n], i, e);
      assert rest[..n] == ss[..n][i := ss[i][1..]];
    }
  }

  /** Merging keeps the reports. */
  lemma {:induction false} MergeReports(ss: seq<seq<Access>>, all: seq<Access>, e: Path)
    requires Merges(ss, all)
    ensures Reports(all, e) == Reports(Flat(ss), e)
    decreases |all|
  {
    if all == [] {
      FlatOfNone(ss);
    } else {
      var i :| MergesFrom(ss, all, i);
      MergeReports(ss[i := ss[i][1..]], all[1..], e);
      FlatWithoutFirst(ss, i, e);
      ReportsFirst(all, e);
    }
  }

  lemma {:induction false} FlatOfNone(ss: seq<seq<Access>>)
    requires forall i :: 0 <= i < |ss| ==> ss[i] == []
    ensures Flat(ss) == []
    decreases |ss|
  {
    if ss != [] {
      FlatOfNone(ss[..|ss| - 1]);
    }
  }

  /** Each sequence is merged whole. */
  lemma {:induction false} MergeContains(ss: seq<seq<Access>>, all: seq<Access>, k: nat, a: Access)
    requires Merges(ss, all) && k < |ss| && a in ss[k]
    ensures a in all
    decreases |all|
  {
    if all != [] {
      var i :| MergesFrom(ss, all, i);
      if k != i || a in ss[k][1..] {
        MergeContains(ss[i := ss[i][1..]], all[1..], k, a);
      }
    }
  }

  /** What is checked is reported later. */
  ghost predicate ChecksFollowed(accesses: seq<Access>) {
    forall a :: 0 <= a < |accesses| && accesses[a].Check? ==> ReportIfUnseen(accesses[a].path) in accesses[a + 1..]
  }

  lemma {:induction false} MergeFollows(ss: seq<seq<Access>>, all: seq<Access>)
    requires Merges(ss, all) && forall i :: 0 <= i < |ss| ==> ChecksFollowed(ss[i])
    ensures ChecksFollowed(all)
    decreases |all|
  {
    if all != [] {
      var i :| MergesFrom(ss, all, i);
      var rest := ss[i := ss[i][1..]];
      assert forall a :: 0 <= a < |ss[i]| - 1 ==>
               ss[i][1..][a] == ss[i][a + 1] && ss[i][1..][a + 1..] == ss[i][a + 2..];
      MergeFollows(rest, all[1..]);
      forall a | 0 <= a < |all| && all[a].Check? ensures ReportIfUnseen(all[a].path) in all[a + 1..] {
        if a == 0 {
          MergeContains(rest, all[1..], i, ReportIfUnseen(all[0].path));
        } else {
          assert all[1..][a - 1] == all[a] && all[1..][a..] == all[a + 1..];
        }
      }
    }
  }

  lemma {:induction false} FollowedExactly(accesses: seq<Access>, errors: multiset<Path>)
    ensures Reporting(accesses, errors) <==> ChecksFollowed(accesses) && forall e :: Reports(accesses, e) == errors[e]
  {
    forall a | 0 <= a < |accesses| && accesses[a].Check?
      ensures ReportIfUnseen(accesses[a].path) in accesses[a + 1..]
              <==> exists b :: a < b < |accesses| && accesses[b] == ReportIfUnseen(accesses[a].path)
    {
      var x := ReportIfUnseen(accesses[a].path);
      if b :| a < b < |accesses| && accesses[b] == x {
        assert accesses[a + 1..][b - a - 1] == x;
      }
    }
  }

  lemma {:induction false} ReportingMerged(ss: seq<seq<Access>>, rs: seq<Result>, all: seq<Access>)
    requires |ss| == |rs| && forall i :: 0 <= i < |ss| ==> Reporting(ss[i], rs[i].errors)
    requires Merges(ss, all)
    ensures Reporting(all, AllErrors(rs))
  {
    ReportingAll(ss, rs);
    forall i | 0 <= i < |ss| ensures ChecksFollowed(ss[i]) {
      FollowedExactly(ss[i], rs[i].errors);
    }
    MergeFollows(ss, all);
    forall e ensures Reports(all, e) == AllErrors(rs)[e] {
      MergeReports(ss, all, e);
    }
    FollowedExactly(all, AllErrors(rs));
  }

  /** Whatever accesses the executor makes, they report the errors of the result. */
  lemma {:induction false} ValueReporting(r: Resolver, t: TypeRef, v: Internal, f: Field, path: Path, all: seq<Access>)
    requires MayComplete(r, t, v, f, path, all)
    ensures Reporting(all, Complete(r, t, v, f, path).errors)
    decreases f, t, 0
  {
    ReportingNone();
    ReportingOne(path);
    match t
    case NonNull(u) => RequiredReporting(r, u, v, f, path, all);
    case ListOf(u) =>
      if v.Items? {
        var ss :| Merges(ss, all) && MayCompleteItems(r, u, v.items, f, path, ss);
        ItemsReporting(r, u, v.items, f, path, ss);
        ReportingMerged(ss, Elements(r, u, v.items, f, path), all);
      }
    case Leaf =>
    case Obj(o) =>
      if v.Ref? {
        var ss :| all == Flat(ss) && MayRunFields(r, o, v.target, f.sub, path, ss);
        FieldsReporting(r, o, v.target, f.sub, path, ss);
        ReportingAll(ss, Selection(r, o, v.target, f.sub, path));
      }
  }

  lemma {:induction false} RequiredReporting(r: Resolver, u: TypeRef, v: Internal, f: Field, path: Path,
                                             all: seq<Access>)
    requires MayComplete(r, NonNull(u), v, f, path, all)
    ensures Reporting(all, Complete(r, NonNull(u), v, f, path).errors)
    decreases f, u, 1
  {
    var c, last := Complete(r, u, v, f, path), [Check(path), ReportIfUnseen(path)];
    if c.completion == Gave(JNull) {
      var inner :| all == inner + last && MayComplete(r, u, v, f, path, inner);
      ValueReporting(r, u, v, f, path, inner);
      ReportingOne(path);
      ReportingBoth(inner, last, c.errors, multiset{path});
    } else {
      ValueReporting(r, u, v, f, path, all);
    }
  }

  lemma {:induction false} ItemsReporting(r: Resolver, u: TypeRef, items: seq<Internal>, f: Field, path: Path,
                                          ss: seq<seq<Access>>)
    requires MayCompleteItems(r, u, items, f, path, ss)
    ensures forall i :: 0 <= i < |ss| ==> Reporting(ss[i], Elements(r, u, items, f, path)[i].errors)
    decreases f, u, 1
  {
    forall i | 0 <= i < |ss| ensures Reporting(ss[i], Elements(r, u, items, f, path)[i].errors) {
      ValueReporting(r, u, items[i], f, Below(path, Index(i)), ss[i]);
    }
  }

  lemma {:induction false} FieldsReporting(r: Resolver, o: ObjectType, x: Object, fs: seq<Field>, path: Path,
                                           ss: seq<seq<Access>>)
    requires MayRunFields(r, o, x, fs, path, ss)
    ensures forall i :: 0 <= i < |ss| ==> Reporting(ss[i], Selection(r, o, x, fs, path)[i].errors)
    decreases fs
  {
    forall i | 0 <= i < |ss| ensures Reporting(ss[i], Selection(r, o, x, fs, path)[i].errors) {
      FieldReporting(r, o, x, fs[i], path, ss[i]);
    }
  }

  lemma {:induction false} FieldReporting(r: Resolver, o: ObjectType, x: Object, f: Field, path: Path, all: seq<Access>)
    requires MayRunField(r, o, x, f, path, all)
    ensures Reporting(all, FieldResult(r, o, x, f, path).errors)
    decreases f
  {
    ReportingNone();
    ReportingOne(Below(path, Key(f.key)));
    if f.name != Typename && DeclaredType(o, f.name).Some? && r(o, x, f).Got? {
      ValueReporting(r, DeclaredType(o, f.name).value, r(o, x, f).value, f, Below(path, Key(f.key)), all);
    }
  }

  function AccessesOf(cs: seq<Closure>): (ss: seq<seq<Access>>)
    ensures |ss| == |cs| && forall i :: 0 <= i < |cs| ==> ss[i] == cs[i].accesses
  {
    seq(|cs|, i requires 0 <= i < |cs| => cs[i].accesses)
  }

  /** The closures of the query root: each ends with its field's result, by accesses the executor may make for it. */
  ghost predicate RootClosures(r: Resolver, fs: seq<Field>, cs: seq<Closure>) {
    && Results(cs) == Selection(r, QueryType, Root, fs, [])
    && MayRunFields(r, QueryType, Root, fs, [], AccessesOf(cs))
  }

  lemma {:induction false} RootClosuresSeparate(r: Resolver, fs: seq<Field>, cs: seq<Closure>)
    requires ValidSelection(QueryType, fs) && RootClosures(r, fs, cs)
    ensures Separate(cs, KeysOf(fs), [], [])
  {
    FieldsReporting(r, QueryType, Root, fs, [], AccessesOf(cs));
    forall i | 0 <= i < |cs| ensures Faithful(cs[i]) {
      assert Reporting(AccessesOf(cs)[i], Selection(r, QueryType, Root, fs, [])[i].errors);
    }
    RootInterleaves(r, fs, cs);
  }

  /** However the root closures of a valid query, and the goroutines of lists inside them, interleave at the log, the
      response is the specified one. */
  lemma {:induction false} RootAnyInterleaving(r: Resolver, fs: seq<Field>, cs: seq<Closure>, schedule: seq<nat>)
    requires ValidSelection(QueryType, fs) && RootClosures(r, fs, cs) && RunsToEnd(cs, [], schedule)
    ensures var t := Run(cs, Begun(cs, []), schedule);
            && |t.values| == |fs|
            && (if t.invalids > 0 then JNull else JObject(Members(fs, t.values))) == Response(r, QueryType, fs).0
            && multiset(t.log) == Response(r, QueryType, fs).1
  {
    RootClosuresSeparate(r, fs, cs);
    AnyInterleaving(cs, KeysOf(fs), [], [], schedule);
    ResponseOf(r, fs, Results(cs));
  }

  lemma {:induction false} ResponseOf(r: Resolver, fs: seq<Field>, rs: seq<Result>)
    requires rs == Selection(r, QueryType, Root, fs, [])
    ensures Response(r, QueryType, fs)
            == (if AnyRaised(rs) then JNull else JObject(Members(fs, Jsons(rs))), AllErrors(rs))
  {
  }

  // ---- There are such runs ------------------------------------------------------------------------------

  lemma {:induction false} FlatEmpty(ss: seq<seq<Access>>)
    requires Flat(ss) == []
    ensures forall i :: 0 <= i < |ss| ==> ss[i] == []
    decreases |ss|
  {
    if ss != [] {
      FlatEmpty(ss[..|ss| - 1]);
    }
  }

  lemma {:induction false} FlatShrinks(ss: seq<seq<Access>>, i: nat)
    requires i < |ss| && ss[i] != []
    ensures |Flat(ss[i := ss[i][1..]])| == |Flat(ss)| - 1
    decreases |ss|
  {
    var n := |ss| - 1;
    if i == n {
      assert ss[i := ss[i][1..]][..n] == ss[..n];
    } else {
      FlatShrinks(ss[..n], i);
      assert ss[i := ss[i][1..]][..n] == ss[..n][i := ss[i][1..]];
    }
  }

  lemma {:induction false} SomeMerge(ss: seq<seq<Access>>) returns (all: seq<Access>)
    ensures Merges(ss, all)
    decreases |Flat(ss)|
  {
    all := [];
    if i :| 0 <= i < |ss| && ss[i] != [] {
      FlatShrinks(ss, i);
      var rest := SomeMerge(ss[i := ss[i][1..]]);
      all := [ss[i][0]] + rest;
      assert all[1..] == rest && MergesFrom(ss, all, i);
    }
  }

  lemma {:induction false} SomeCompletion(r: Resolver, t: TypeRef, v: Internal, f: Field, path: Path)
    returns (all: seq<Access>)
    ensures MayComplete(r, t, v, f, path, all)
    decreases f, t, 0
  {
    match t
    case NonNull(u) =>
      all := SomeCompletion(r, u, v, f, path);
      if Complete(r, u, v, f, path).completion == Gave(JNull) {
        all := all + [Check(path), ReportIfUnseen(path)];
      }
    case ListOf(u) =>
      if v.Items? {
        var ss := SomeItems(r, u, v.items, f, path);
        all := SomeMerge(ss);
      } else {
        all := if v.Null? then [] else [Report(path)];
      }
    case Leaf => all := if v.Null? || v.Plain? then [] else [Report(path)];
    case Obj(o) =>
      if v.Ref? {
        var ss := SomeFields(r, o, v.target, f.sub, path);
        all := Flat(ss);
      } else {
        all := if v.Null? then [] else [Report(path)];
      }
  }

  lemma {:induction false} SomeItems(r: Resolver, u: TypeRef, items: seq<Internal>, f: Field, path: Path)
    returns (ss: seq<seq<Access>>)
    ensures MayCompleteItems(r, u, items, f, path, ss)
    decreases f, u, 1
  {
    ss := [];
    for i := 0 to |items|
      invariant |ss| == i
      invariant forall j :: 0 <= j < i ==> MayComplete(r, u, items[j], f, Below(path, Index(j)), ss[j])
    {
      var next := SomeCompletion(r, u, items[i], f, Below(path, Index(i)));
      ss := ss + [next];
    }
  }

  lemma {:induction false} SomeFields(r: Resolver, o: ObjectType, x: Object, fs: seq<Field>, path: Path)
    returns (ss: seq<seq<Access>>)
    ensures MayRunFields(r, o, x, fs, path, ss)
    decreases fs
  {
    ss := [];
    for i := 0 to |fs|
      invariant |ss| == i
      invariant forall j :: 0 <= j < i ==> MayRunField(r, o, x, fs[j], path, ss[j])
    {
      var next := SomeField(r, o, x, fs[i], path);
      ss := ss + [next];
    }
  }

  lemma {:induction false} SomeField(r: Resolver, o: ObjectType, x: Object, f: Field, path: Path)
    returns (all: seq<Access>)
    ensures MayRunField(r, o, x, f, path, all)
    decreases f
  {
    if f.name == Typename {
      all := [];
    } else if DeclaredType(o, f.name).None? || r(o, x, f).Failed? {
      all := [Report(Below(path, Key(f.key)))];
    } else {
      all := SomeCompletion(r, DeclaredType(o, f.name).value, r(o, x, f).value, f, Below(path, Key(f.key)));
    }
  }

  function StepsLeft(cs: seq<Closure>, s: Shared, m: nat): nat
    requires Sized(cs, s) && m <= |cs|
  {
    if m == 0 then 0 else StepsLeft(cs, s, m - 1) + |cs[m - 1].accesses| + 1 - s.at[m - 1]
  }

  lemma {:induction false} StepCounts(cs: seq<Closure>, s: Shared, i: nat, m: nat)
    requires CanStep(cs, s, i) && m <= |cs|
    ensures StepsLeft(cs, Step(cs, s, i), m) == StepsLeft(cs, s, m) - if i < m then 1 else 0
    decreases m
  {
    if m > 0 {
      StepCounts(cs, s, i, m - 1);
    }
  }

  lemma {:induction false} SomeEnding(cs: seq<Closure>, s: Shared) returns (schedule: seq<nat>)
    requires Sized(cs, s)
    ensures Possible(cs, s, schedule)
    ensures var t := Run(cs, s, schedule); Sized(cs, t) && forall i :: 0 <= i < |cs| ==> Ended(cs, t)[i]
    decreases StepsLeft(cs, s, |cs|)
  {
    schedule := [];
    if i :| 0 <= i < |cs| && !Ended(cs, s)[i] {
      StepCounts(cs, s, i, |cs|);
      var rest := SomeEnding(cs, Step(cs, s, i));
      schedule := [i] + rest;
      assert schedule[1..] == rest;
    }
  }

  /** Every query has root closures, and closures can always be run to their ends. */
  lemma {:induction false} SomeRun(r: Resolver, fs: seq<Field>) returns (cs: seq<Closure>, schedule: seq<nat>)
    ensures RootClosures(r, fs, cs) && RunsToEnd(cs, [], schedule)
  {
    var ss := SomeFields(r, QueryType, Root, fs, []);
    var rs := Selection(r, QueryType, Root, fs, []);
    cs := seq(|fs|, i requires 0 <= i < |fs| => Closure(ss[i], rs[i]));
    assert AccessesOf(cs) == ss && Results(cs) == rs;
    schedule := SomeEnding(cs, Begun(cs, []));
  }
}
