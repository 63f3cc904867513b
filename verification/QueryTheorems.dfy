/** What the query pipeline guarantees, stated without reference to how it is computed. */
module QueryTheorems {
  import opened Common
  import opened Slices
  import opened QuerySpec

  // ---------- the orders ----------

  lemma {:induction false} TextTotal(a: string, b: string)
    ensures a == b || TextLess(a, b) || TextLess(b, a)
    ensures !(TextLess(a, b) && TextLess(b, a)) && !TextLess(a, a)
  {
    if a != "" { TextIrreflexive(a); }
    if a != "" && b != "" && a[0] == b[0] {
      TextTotal(a[1..], b[1..]);
      if a[1..] == b[1..] { assert a == [a[0]] + a[1..] == b; }
    }
  }

  lemma {:induction false} TextIrreflexive(a: string)
    ensures !TextLess(a, a)
  {
    if a != "" { TextIrreflexive(a[1..]); }
  }

  lemma {:induction false} TextTrans(a: string, b: string, c: string)
    requires TextLess(a, b) && TextLess(b, c)
    ensures TextLess(a, c)
  {
    if a != "" && a[0] == b[0] && b[0] == c[0] { TextTrans(a[1..], b[1..], c[1..]); }
  }

  lemma KeyTotal(a: Key, b: Key)
    ensures a == b || KeyLess(a, b) || KeyLess(b, a)
    ensures !(KeyLess(a, b) && KeyLess(b, a)) && !KeyLess(a, a)
  {
    if a.TextKey? && b.TextKey? { TextTotal(a.s, b.s); }
    if a.TextKey? { TextIrreflexive(a.s); }
  }

  lemma KeyTrans(a: Key, b: Key, c: Key)
    requires KeyLess(a, b) && KeyLess(b, c)
    ensures KeyLess(a, c)
  {
    if a.TextKey? { TextTrans(a.s, b.s, c.s); }
  }

  lemma {:induction false} TupleTotal(a: seq<Key>, b: seq<Key>)
    ensures a == b || TupleLess(a, b) || TupleLess(b, a)
    ensures !(TupleLess(a, b) && TupleLess(b, a))
  {
    if a != [] && b != [] {
      KeyTotal(a[0], b[0]);
      if a[0] == b[0] {
        TupleTotal(a[1..], b[1..]);
        if a[1..] == b[1..] { assert a == [a[0]] + a[1..] == b; }
      }
    }
  }

  lemma {:induction false} TupleTrans(a: seq<Key>, b: seq<Key>, c: seq<Key>)
    requires TupleLess(a, b) && TupleLess(b, c)
    ensures TupleLess(a, c)
  {
    if a != [] {
      KeyTotal(a[0], b[0]);
      KeyTotal(b[0], c[0]);
      if KeyLess(a[0], b[0]) && KeyLess(b[0], c[0]) { KeyTrans(a[0], b[0], c[0]); }
      if a[0] == b[0] && b[0] == c[0] { TupleTrans(a[1..], b[1..], c[1..]); }
    }
  }

  lemma LeqTrans(a: seq<Key>, b: seq<Key>, c: seq<Key>)
    requires TupleLeq(a, b) && TupleLeq(b, c)
    ensures TupleLeq(a, c)
  {
    if a != b && b != c { TupleTrans(a, b, c); }
  }

  /** On values that are not null the six comparisons come from one total order; with a null on
      either side every one of them, NOT_EQUALS included, holds iff both are null. */
  lemma ComparisonsAgree(a: Value, b: Value)
    ensures a.Null? || b.Null? ==> forall op :: CompareValues(op, a, b) <==> a.Null? && b.Null?
    ensures !a.Null? && !b.Null? ==>
              && (CompareValues(NotEquals, a, b) <==> !CompareValues(Equals, a, b))
              && (CompareValues(GreaterThan, a, b) <==> CompareValues(LessThan, b, a))
              && (CompareValues(LessEqual, a, b) <==> !CompareValues(GreaterThan, a, b))
              && (CompareValues(GreaterEqual, a, b) <==> !CompareValues(LessThan, a, b))
              && (CompareValues(LessThan, a, b) ==> !CompareValues(Equals, a, b))
  {
    if !a.Null? && !b.Null? {
      TextTotal(Str(a), Str(b));
      TextTotal(Str(b), Str(b));
    }
  }

  // ---------- filters ----------

  lemma {:induction false} FilteredIs(elements: seq<Element>, filters: seq<Filter>, lib: Library)
    ensures forall e :: multiset(Filtered(elements, filters, lib))[e] ==
              if MatchesAll(filters, e, lib) then multiset(elements)[e] else 0
    decreases |elements|
  {
    if elements != [] {
      FilteredIs(elements[1..], filters, lib);
      assert elements == [elements[0]] + elements[1..];
      assert multiset(elements) == multiset{elements[0]} + multiset(elements[1..]);
    }
  }

  lemma {:induction false} FilterAgain(elements: seq<Element>, some: seq<Filter>, f: Filter, lib: Library)
    ensures Filtered(Filtered(elements, some, lib), [f], lib) == Filtered(elements, some + [f], lib)
    decreases |elements|
  {
    if elements != [] {
      FilterAgain(elements[1..], some, f, lib);
      var e := elements[0];
      assert MatchesAll(some + [f], e, lib) <==> MatchesAll(some, e, lib) && Matches(f, e, lib) by {
        assert forall g | g in some + [f] :: g in some || g == f;
        assert f in some + [f] && forall g | g in some :: g in some + [f];
      }
      assert MatchesAll([f], e, lib) <==> Matches(f, e, lib);
      var kept := if MatchesAll(some, e, lib) then [e] else [];
      var tail := Filtered(elements[1..], some, lib);
      assert Filtered(elements, some, lib) == kept + tail;
      if kept == [e] {
        assert (kept + tail)[1..] == tail && (kept + tail)[0] == e;
      } else {
        assert kept + tail == tail;
      }
    }
  }

  lemma {:induction false} SameFilters(elements: seq<Element>, f: seq<Filter>, g: seq<Filter>, lib: Library)
    requires forall x :: x in f <==> x in g
    ensures Filtered(elements, f, lib) == Filtered(elements, g, lib)
    decreases |elements|
  {
    if elements != [] { SameFilters(elements[1..], f, g, lib); }
  }

  /** The order of the where() calls, and repeating one, make no difference. */
  lemma WherePermutation(elements: seq<Element>, q: Query, filters: seq<Filter>, lib: Library)
    requires forall x :: x in filters <==> x in q.filters
    ensures Execute(elements, q.(filters := filters), lib) == Execute(elements, q, lib)
  {
    SameFilters(elements, filters, q.filters, lib);
  }

  // ---------- stable sorting ----------

  ghost predicate InOrder(s: seq<Element>, sorts: seq<Sort>) {
    forall i, j | 0 <= i < j < |s| :: TupleLeq(KeysOf(s[i], sorts), KeysOf(s[j], sorts))
  }

  /** The elements with key tuple k, in order. */
  ghost function WithKey(s: seq<Element>, sorts: seq<Sort>, k: seq<Key>): seq<Element> {
    if s == [] then []
    else (if KeysOf(s[0], sorts) == k then [s[0]] else []) + WithKey(s[1..], sorts, k)
  }

  /** Ordered by key, and equal keys keep their order: this determines the result. */
  ghost predicate IsStableSort(input: seq<Element>, output: seq<Element>, sorts: seq<Sort>) {
    && InOrder(output, sorts)
    && forall k :: WithKey(output, sorts, k) == WithKey(input, sorts, k)
  }

  lemma {:induction false} WithKeySnoc(s: seq<Element>, e: Element, sorts: seq<Sort>, k: seq<Key>)
    ensures WithKey(s + [e], sorts, k) == WithKey(s, sorts, k) + if KeysOf(e, sorts) == k then [e] else []
    decreases |s|
  {
    if s == [] {
      assert s + [e] == [e];
      assert WithKey([e][1..], sorts, k) == [];
    } else {
      assert (s + [e])[1..] == s[1..] + [e] && (s + [e])[0] == s[0];
      WithKeySnoc(s[1..], e, sorts, k);
    }
  }

  lemma {:induction false} InsertInOrder(e: Element, s: seq<Element>, sorts: seq<Sort>)
    requires InOrder(s, sorts)
    ensures InOrder(Insert(e, s, sorts), sorts)
    ensures forall x | x in Insert(e, s, sorts) :: x == e || x in s
    decreases |s|
  {
    if s != [] {
      TupleTotal(KeysOf(e, sorts), KeysOf(s[0], sorts));
      if TupleLess(KeysOf(e, sorts), KeysOf(s[0], sorts)) {
        forall j | 0 <= j < |s| ensures TupleLeq(KeysOf(e, sorts), KeysOf(s[j], sorts)) {
          LeqTrans(KeysOf(e, sorts), KeysOf(s[0], sorts), KeysOf(s[j], sorts));
        }
      } else {
        InsertInOrder(e, s[1..], sorts);
        var r := Insert(e, s[1..], sorts);
        forall j | 0 <= j < |r| ensures TupleLeq(KeysOf(s[0], sorts), KeysOf(r[j], sorts)) {
          assert r[j] in r;
        }
      }
    }
  }

  lemma {:induction false} NoneBelow(s: seq<Element>, sorts: seq<Sort>, k: seq<Key>)
    requires InOrder(s, sorts)
    requires s != [] ==> TupleLess(k, KeysOf(s[0], sorts))
    ensures WithKey(s, sorts, k) == []
    decreases |s|
  {
    if s != [] {
      TupleTotal(k, KeysOf(s[0], sorts));
      if |s| > 1 { LessLeq(k, KeysOf(s[0], sorts), KeysOf(s[1], sorts)); }
      NoneBelow(s[1..], sorts, k);
    }
  }

  lemma LessLeq(a: seq<Key>, b: seq<Key>, c: seq<Key>)
    requires TupleLess(a, b) && TupleLeq(b, c)
    ensures TupleLess(a, c)
  {
    if b != c { TupleTrans(a, b, c); }
  }

  lemma WithKeyCons(e: Element, s: seq<Element>, sorts: seq<Sort>, k: seq<Key>)
    ensures WithKey([e] + s, sorts, k) == (if KeysOf(e, sorts) == k then [e] else []) + WithKey(s, sorts, k)
  {
    assert ([e] + s)[1..] == s;
  }

  lemma InsertInFront(e: Element, s: seq<Element>, sorts: seq<Sort>, k: seq<Key>)
    requires InOrder(s, sorts) && (s == [] || TupleLess(KeysOf(e, sorts), KeysOf(s[0], sorts)))
    ensures WithKey(Insert(e, s, sorts), sorts, k)
         == WithKey(s, sorts, k) + if KeysOf(e, sorts) == k then [e] else []
  {
    var own := if KeysOf(e, sorts) == k then [e] else [];
    assert Insert(e, s, sorts) == [e] + s;
    WithKeyCons(e, s, sorts, k);
    if KeysOf(e, sorts) == k { NoneBelow(s, sorts, k); }
    assert own + WithKey(s, sorts, k) == WithKey(s, sorts, k) + own;
  }

  lemma {:induction false} InsertWithKey(e: Element, s: seq<Element>, sorts: seq<Sort>, k: seq<Key>)
    requires InOrder(s, sorts)
    ensures WithKey(Insert(e, s, sorts), sorts, k)
         == WithKey(s, sorts, k) + if KeysOf(e, sorts) == k then [e] else []
    decreases |s|
  {
    var own := if KeysOf(e, sorts) == k then [e] else [];
    if s == [] || TupleLess(KeysOf(e, sorts), KeysOf(s[0], sorts)) {
      InsertInFront(e, s, sorts, k);
    } else {
      var first, rest := s[0], s[1..];
      var head := if KeysOf(first, sorts) == k then [first] else [];
      assert s == [first] + rest && Insert(e, s, sorts) == [first] + Insert(e, rest, sorts);
      InsertWithKey(e, rest, sorts, k);
      WithKeyCons(first, rest, sorts, k);
      WithKeyCons(first, Insert(e, rest, sorts), sorts, k);
      assert head + (WithKey(rest, sorts, k) + own) == (head + WithKey(rest, sorts, k)) + own;
    }
  }

  /** sorted() with the key tuple is a stable sort. */
  lemma {:induction false} SortedIsStable(s: seq<Element>, sorts: seq<Sort>)
    ensures IsStableSort(s, Sorted(s, sorts), sorts)
    decreases |s|
  {
    if s != [] {
      var front, last := s[..|s| - 1], s[|s| - 1];
      SortedIsStable(front, sorts);
      InsertInOrder(last, Sorted(front, sorts), sorts);
      forall k ensures WithKey(Sorted(s, sorts), sorts, k) == WithKey(s, sorts, k) {
        InsertWithKey(last, Sorted(front, sorts), sorts, k);
        WithKeySnoc(front, last, sorts, k);
        assert front + [last] == s;
      }
    }
  }

  lemma {:induction false} WithKeyMember(s: seq<Element>, sorts: seq<Sort>, k: seq<Key>)
    requires WithKey(s, sorts, k) != []
    ensures exists i :: 0 <= i < |s| && KeysOf(s[i], sorts) == k
    decreases |s|
  {
    if KeysOf(s[0], sorts) != k {
      WithKeyMember(s[1..], sorts, k);
      var i :| 0 <= i < |s[1..]| && KeysOf(s[1..][i], sorts) == k;
      assert KeysOf(s[i + 1], sorts) == k;
    }
  }

  lemma FirstIsLeast(s: seq<Element>, sorts: seq<Sort>, k: seq<Key>)
    requires InOrder(s, sorts) && WithKey(s, sorts, k) != []
    ensures s != [] && TupleLeq(KeysOf(s[0], sorts), k)
  {
    WithKeyMember(s, sorts, k);
  }

  lemma HeadHasItsKey(s: seq<Element>, sorts: seq<Sort>)
    requires s != []
    ensures WithKey(s, sorts, KeysOf(s[0], sorts)) != []
  {
  }

  /** There is only one stable sort of a list. */
  lemma {:induction false} StableSortIsUnique(a: seq<Element>, b: seq<Element>, sorts: seq<Sort>)
    requires InOrder(a, sorts) && InOrder(b, sorts)
    requires forall k :: WithKey(a, sorts, k) == WithKey(b, sorts, k)
    ensures a == b
    decreases |a|
  {
    if a == [] {
      if b != [] {
        HeadHasItsKey(b, sorts);
        assert false;
      }
    } else {
      var k := KeysOf(a[0], sorts);
      assert WithKey(a, sorts, k)[0] == a[0];
      FirstIsLeast(b, sorts, k);
      var l := KeysOf(b[0], sorts);
      assert WithKey(b, sorts, l)[0] == b[0];
      FirstIsLeast(a, sorts, l);
      TupleTotal(k, l);
      assert a[0] == b[0];
      forall m ensures WithKey(a[1..], sorts, m) == WithKey(b[1..], sorts, m) {
        assert WithKey(a, sorts, m) == WithKey(b, sorts, m);
        var head := if k == m then [a[0]] else [];
        assert WithKey(a, sorts, m) == head + WithKey(a[1..], sorts, m);
        assert WithKey(b, sorts, m) == head + WithKey(b[1..], sorts, m);
        assert WithKey(a, sorts, m)[|head|..] == WithKey(a[1..], sorts, m);
        assert WithKey(b, sorts, m)[|head|..] == WithKey(b[1..], sorts, m);
      }
      StableSortIsUnique(a[1..], b[1..], sorts);
    }
  }

  lemma {:induction false} InsertMultiset(e: Element, s: seq<Element>, sorts: seq<Sort>)
    ensures multiset(Insert(e, s, sorts)) == multiset(s) + multiset{e}
    decreases |s|
  {
    if s != [] && !TupleLess(KeysOf(e, sorts), KeysOf(s[0], sorts)) {
      InsertMultiset(e, s[1..], sorts);
      assert s == [s[0]] + s[1..];
      assert multiset(s) == multiset{s[0]} + multiset(s[1..]);
    }
  }

  lemma {:induction false} SortedIsPermutation(s: seq<Element>, sorts: seq<Sort>)
    ensures multiset(Sorted(s, sorts)) == multiset(s)
    decreases |s|
  {
    if s != [] {
      SortedIsPermutation(s[..|s| - 1], sorts);
      InsertMultiset(s[|s| - 1], Sorted(s[..|s| - 1], sorts), sorts);
      assert s == s[..|s| - 1] + [s[|s| - 1]];
    }
  }

  // ---------- distinct ----------

  /** Position i survives distinct: it cannot be read or no earlier element has its value. */
  ghost predicate IsFirst(s: seq<Element>, property: string, i: nat)
    requires i < |s|
  {
    Seen(s[i], property).None? || forall j | 0 <= j < i :: Seen(s[j], property) != Seen(s[i], property)
  }

  /** The elements at the surviving positions, in order. */
  ghost function Firsts(s: seq<Element>, property: string, n: nat): seq<Element>
    requires n <= |s|
  {
    if n == 0 then [] else Firsts(s, property, n - 1) + if IsFirst(s, property, n - 1) then [s[n - 1]] else []
  }

  /** A value is among those of the first `n` elements exactly if one of them reads as it. */
  lemma ValuesBefore(s: seq<Element>, property: string, n: nat, value: Value)
    requires n <= |s|
    ensures value in Values(s[..n], property) <==> exists j :: 0 <= j < n && Seen(s[j], property) == Some(value)
  {
    var front := s[..n];
    if value in Values(front, property) {
      var e :| e in front && Seen(e, property) == Some(value);
      var j :| 0 <= j < |front| && front[j] == e;
      assert s[j] == e;
    }
    if j :| 0 <= j < n && Seen(s[j], property) == Some(value) {
      assert front[j] == s[j] && front[j] in front;
    }
  }

  lemma DistinctGrows(s: seq<Element>, property: string, n: nat)
    requires 0 < n <= |s|
    ensures Distinct(s[..n], property)
         == Distinct(s[..n - 1], property) + if IsFirst(s, property, n - 1) then [s[n - 1]] else []
  {
    var front := s[..n - 1];
    assert s[..n][..n - 1] == front;
    var read := Seen(s[n - 1], property);
    if read.Some? { ValuesBefore(s, property, n - 1, read.value); }
  }

  lemma {:induction false} DistinctKeepsFirsts(s: seq<Element>, property: string, n: nat)
    requires n <= |s|
    ensures Distinct(s[..n], property) == Firsts(s, property, n)
  {
    if n > 0 {
      DistinctKeepsFirsts(s, property, n - 1);
      DistinctGrows(s, property, n);
    }
  }

  /** After distinct no readable value occurs twice, none is lost, nothing new appears and no
      unreadable element is dropped. */
  lemma {:induction false} DistinctIsDuplicateFree(s: seq<Element>, property: string)
    ensures var d := Distinct(s, property);
            && (forall i, j | 0 <= i < j < |d| && Seen(d[i], property).Some? ::
                  Seen(d[i], property) != Seen(d[j], property))
            && Values(d, property) == Values(s, property)
            && (forall e | e in d :: e in s)
            && (forall e | e in s && Seen(e, property).None? :: e in d)
    decreases |s|
  {
    if s != [] {
      var front, last := s[..|s| - 1], s[|s| - 1];
      DistinctIsDuplicateFree(front, property);
      assert s == front + [last];
      var df, d := Distinct(front, property), Distinct(s, property);
      forall e | e in df && Seen(e, property).Some? ensures Seen(e, property).value in Values(front, property) {
        assert Seen(e, property).value in Values(df, property);
      }
      forall v | v in Values(s, property) ensures v in Values(d, property) {
        var e :| e in s && Seen(e, property) == Some(v);
        if e in front { assert v in Values(front, property); assert v in Values(df, property); }
        if v in Values(df, property) {
          var x :| x in df && Seen(x, property) == Some(v);
          assert x in d;
        }
      }
    }
  }

  // ---------- slices ----------

  function Prefix<T>(s: seq<T>, m: nat): seq<T> { s[..if m < |s| then m else |s|] }

  lemma PrefixStep<T>(s: seq<T>, m: nat, k: nat)
    requires k >= 1
    ensures Prefix(s, m) + Slice(s, m, Some(m + k)) == Prefix(s, m + k)
  {
  }

  /** skip(start).take(k); nothing if the query raises. */
  function Page(elements: seq<Element>, q: Query, start: nat, k: nat, lib: Library): seq<Element> {
    var page := Execute(elements, q.(skip := start, take := Some(k)), lib);
    if page.Ok? then page.value else []
  }

  /** The first n pages of length k, one after the other; `page` gives the one that starts at an
      offset. */
  function Joined(page: nat -> seq<Element>, k: nat, n: nat): seq<Element> {
    if n == 0 then [] else Joined(page, k, n - 1) + page((n - 1) * k)
  }

  lemma {:induction false} JoinedIsPrefix(all: seq<Element>, page: nat -> seq<Element>, k: nat, n: nat)
    requires forall start: nat {:trigger page(start)} :: Prefix(all, start) + page(start) == Prefix(all, start + k)
    ensures Joined(page, k, n) == Prefix(all, n * k)
    decreases n
  {
    if n > 0 {
      JoinedIsPrefix(all, page, k, n - 1);
      var start := (n - 1) * k;
      assert Prefix(all, start) + page(start) == Prefix(all, start + k);
      assert n * k == start + k;
    }
  }

  lemma PageIsSlice(elements: seq<Element>, q: Query, k: nat, start: nat, lib: Library)
    requires k >= 1 && !Unsortable(Filtered(elements, q.filters, lib), q.sorts)
    ensures Page(elements, q, start, k, lib) == Slice(Pipeline(elements, q, lib), start, Some(start + k))
  {
    assert Pipeline(elements, q.(skip := start, take := Some(k)), lib) == Pipeline(elements, q, lib);
  }

  lemma PageExtendsPrefix(elements: seq<Element>, q: Query, k: nat, start: nat, lib: Library)
    requires k >= 1 && !Unsortable(Filtered(elements, q.filters, lib), q.sorts)
    ensures var all := Pipeline(elements, q, lib);
            Prefix(all, start) + Page(elements, q, start, k, lib) == Prefix(all, start + k)
  {
    PageIsSlice(elements, q, k, start, lib);
    PrefixStep(Pipeline(elements, q, lib), start, k);
  }

  /** For every k, the pages skip(i * k).take(k) put together are the unpaged result once there are
      enough of them. */
  lemma PagesRebuild(elements: seq<Element>, q: Query, k: nat, n: nat, lib: Library)
    requires k >= 1 && !Unsortable(Filtered(elements, q.filters, lib), q.sorts)
    requires n * k >= |Pipeline(elements, q, lib)|
    ensures Execute(elements, q.(skip := 0, take := None), lib)
         == Ok(Joined((start: nat) => Page(elements, q, start, k, lib), k, n))
  {
    var all := Pipeline(elements, q, lib);
    var page := (start: nat) => Page(elements, q, start, k, lib);
    forall start: nat ensures Prefix(all, start) + page(start) == Prefix(all, start + k) {
      PageExtendsPrefix(elements, q, k, start, lib);
    }
    JoinedIsPrefix(all, page, k, n);
    assert all[0..|all|] == all && all[..|all|] == all;
  }

  // ---------- any and count ----------

  /** any() runs the query with take(1). */
  function AnyOf(elements: seq<Element>, q: Query, lib: Library): Result<bool, TypeError> {
    var r := Execute(elements, q.(take := Some(1)), lib);
    if r.Err? then Err(r.error) else Ok(|r.value| > 0)
  }

  /** Exactly when any() and count() > 0 hold, for every skip and take: any() looks at the one
      position that skip names, and from the end it cannot see the last one. */
  lemma AnyHoldsIff(elements: seq<Element>, q: Query, lib: Library)
    requires !Unsortable(Filtered(elements, q.filters, lib), q.sorts)
    ensures var n := |Pipeline(elements, q, lib)|;
            AnyOf(elements, q, lib) == Ok(0 <= q.skip < n || (q.skip <= -2 && n + q.skip >= 0))
    ensures var n := |Pipeline(elements, q, lib)|;
            |Execute(elements, q, lib).value| > 0 <==>
              (if q.take.None? || q.take.value == 0 then n > 0 && q.skip < n
               else Clamp(q.skip, n) < Clamp(q.skip + q.take.value, n))
  {
    AnyLooksAtOne(elements, q, lib);
    CountHoldsIff(elements, q, lib);
  }

  lemma AnyLooksAtOne(elements: seq<Element>, q: Query, lib: Library)
    requires !Unsortable(Filtered(elements, q.filters, lib), q.sorts)
    ensures var n := |Pipeline(elements, q, lib)|;
            AnyOf(elements, q, lib) == Ok(0 <= q.skip < n || (q.skip <= -2 && n + q.skip >= 0))
  {
    assert Pipeline(elements, q.(take := Some(1)), lib) == Pipeline(elements, q, lib);
  }

  lemma CountHoldsIff(elements: seq<Element>, q: Query, lib: Library)
    requires !Unsortable(Filtered(elements, q.filters, lib), q.sorts)
    ensures var n := |Pipeline(elements, q, lib)|;
            |Execute(elements, q, lib).value| > 0 <==>
              (if q.take.None? || q.take.value == 0 then n > 0 && q.skip < n
               else Clamp(q.skip, n) < Clamp(q.skip + q.take.value, n))
  {
  }

  /** Without a take the two agree exactly for the skips that are not negative, or that reach the
      result from its end without naming its last element; with no element both say no. */
  lemma AnyAgreesIff(elements: seq<Element>, q: Query, lib: Library)
    requires q.take.None? || q.take.value == 0
    requires !Unsortable(Filtered(elements, q.filters, lib), q.sorts)
    ensures var n := |Pipeline(elements, q, lib)|;
            (AnyOf(elements, q, lib).value == (|Execute(elements, q, lib).value| > 0))
            <==> (q.skip >= 0 || n == 0 || (q.skip <= -2 && n + q.skip >= 0))
  {
    AnyHoldsIff(elements, q, lib);
  }

  /** skip(-1) names the last element, and any() then slices up to position 0. */
  lemma AnyMissesLastElement(e: Element, lib: Library)
    ensures var q := ALL.(skip := -1);
            Execute([e], q, lib) == Ok([e]) && AnyOf([e], q, lib) == Ok(false)
  {
    assert Filtered([e][1..], [], lib) == [] && Filtered([e], [], lib) == [e];
    assert [e][..0] == [] && Sorted([e], []) == [e];
  }

  lemma AnyAgreesWithCount(elements: seq<Element>, q: Query, lib: Library)
    requires q.skip >= 0 && (q.take.Some? ==> q.take.value >= 0)
    ensures AnyOf(elements, q, lib).Ok? == Execute(elements, q, lib).Ok?
    ensures Execute(elements, q, lib).Ok? ==>
              AnyOf(elements, q, lib).value == (|Execute(elements, q, lib).value| > 0)
  {
    assert Pipeline(elements, q.(take := Some(1)), lib) == Pipeline(elements, q, lib);
  }

  // ---------- the result as a whole ----------

  /** Before slicing: exactly the matching elements, in the one stable order, thinned to first
      occurrences if distinct was asked for. */
  lemma PipelineIsDeclarative(elements: seq<Element>, q: Query, lib: Library)
    ensures exists sorted ::
              && IsStableSort(Filtered(elements, q.filters, lib), sorted, q.sorts)
              && multiset(sorted) == multiset(Filtered(elements, q.filters, lib))
              && Pipeline(elements, q, lib) ==
                   (if q.distinct.Some? && q.distinct.value != "" then Firsts(sorted, q.distinct.value, |sorted|) else sorted)
  {
    var kept := Filtered(elements, q.filters, lib);
    var sorted := Sorted(kept, q.sorts);
    SortedIsStable(kept, q.sorts);
    SortedIsPermutation(kept, q.sorts);
    if q.distinct.Some? {
      DistinctKeepsFirsts(sorted, q.distinct.value, |sorted|);
      assert sorted[..|sorted|] == sorted;
    }
  }

  lemma LeadingKeyOrder(s: seq<Element>, sorts: seq<Sort>, i: nat, j: nat)
    requires InOrder(s, sorts) && sorts != [] && i < j < |s|
    ensures !KeyLess(KeyOf(s[j], sorts[0]), KeyOf(s[i], sorts[0]))
  {
    var a, b := KeysOf(s[i], sorts), KeysOf(s[j], sorts);
    assert a[0] == KeyOf(s[i], sorts[0]) && b[0] == KeyOf(s[j], sorts[0]);
    KeyTotal(a[0], b[0]);
  }

  predicate NumberIn(e: Element, property: string) {
    Read(e, property).Some? && Read(e, property).value.Num?
  }

  predicate TextIn(e: Element, property: string) {
    Read(e, property).Some? && Read(e, property).value.Text?
  }

  lemma SortedMembers(s: seq<Element>, sorts: seq<Sort>)
    ensures forall e :: e in Sorted(s, sorts) <==> e in s
  {
    SortedIsPermutation(s, sorts);
    forall e ensures e in Sorted(s, sorts) <==> e in s {
      assert e in multiset(Sorted(s, sorts)) <==> e in multiset(s);
    }
  }

  /** Descending on a property that is a number in every element really descends. */
  lemma DescendingNumbersDescend(s: seq<Element>, property: string, more: seq<Sort>)
    requires forall e | e in s :: NumberIn(e, property)
    ensures var r := Sorted(s, [Sort(property, true)] + more);
            forall i, j | 0 <= i < j < |r| ::
              NumberIn(r[i], property) && NumberIn(r[j], property)
              && Read(r[i], property).value.x >= Read(r[j], property).value.x
  {
    var sorts := [Sort(property, true)] + more;
    var r := Sorted(s, sorts);
    SortedIsStable(s, sorts);
    SortedMembers(s, sorts);
    forall i, j | 0 <= i < j < |r|
      ensures NumberIn(r[i], property) && NumberIn(r[j], property)
              && Read(r[i], property).value.x >= Read(r[j], property).value.x
    {
      assert r[i] in r && r[j] in r;
      LeadingKeyOrder(r, sorts, i, j);
    }
  }

  lemma {:induction false} ReversedLast(s: string)
    requires s != ""
    ensures Reversed(s) == [s[|s| - 1]] + Reversed(s[..|s| - 1])
  {
    if |s| > 1 {
      ReversedLast(s[1..]);
      assert s[1..][..|s| - 2] == s[..|s| - 1][1..];
      assert Reversed(s[..|s| - 1]) == Reversed(s[..|s| - 1][1..]) + [s[0]];
    } else {
      assert Reversed(s[1..]) == "" && s[..0] == "";
    }
  }

  lemma {:induction false} ReversedTwice(s: string)
    ensures Reversed(Reversed(s)) == s
  {
    if s != "" {
      var r := Reversed(s);
      ReversedLast(r);
      assert r[..|r| - 1] == Reversed(s[1..]);
      ReversedTwice(s[1..]);
    }
  }

  ghost predicate TextDescends(r: seq<Element>, property: string) {
    forall i, j | 0 <= i < j < |r| :: NotBelow(r[i], r[j], property)
  }

  /** Reversal turns the order of the two texts around. */
  predicate Opposed(x: string, y: string) {
    TextLess(Reversed(x), Reversed(y)) ==> !TextLess(x, y)
  }

  ghost predicate AllOpposed(s: seq<Element>, property: string) {
    forall x, y | x in s && y in s :: Opposed(TextOf(x, property), TextOf(y, property))
  }

  /** Turning the strings round and sorting upwards is descending only where reversal reverses the
      order: exactly if no two values are ordered alike forwards and backwards. */
  lemma DescendingTextDescendsIff(s: seq<Element>, property: string)
    requires forall e | e in s :: TextIn(e, property)
    ensures TextDescends(Sorted(s, [Sort(property, true)]), property) <==> AllOpposed(s, property)
  {
    var sorts := [Sort(property, true)];
    var r := Sorted(s, sorts);
    SortedIsStable(s, sorts);
    SortedMembers(s, sorts);
    if TextDescends(r, property) {
      forall x, y | x in s && y in s ensures Opposed(TextOf(x, property), TextOf(y, property)) {
        assert x in r && y in r;
        DescendingOpposed(r, property, x, y);
      }
    }
    if AllOpposed(s, property) {
      forall i, j | 0 <= i < j < |r| ensures NotBelow(r[i], r[j], property) {
        assert r[i] in r && r[j] in r;
        OpposedDescends(r, property, i, j);
      }
    }
  }

  lemma DescendingOpposed(r: seq<Element>, property: string, x: Element, y: Element)
    requires InOrder(r, [Sort(property, true)]) && TextDescends(r, property) && x in r && y in r
    requires TextIn(x, property) && TextIn(y, property)
    ensures Opposed(TextOf(x, property), TextOf(y, property))
  {
    var i :| 0 <= i < |r| && r[i] == x;
    var j :| 0 <= j < |r| && r[j] == y;
    TextTotal(Reversed(TextOf(x, property)), Reversed(TextOf(y, property)));
    TextIrreflexive(Reversed(TextOf(x, property)));
    if j < i {
      LeadingKeyOrder(r, [Sort(property, true)], j, i);
    } else if i < j {
      assert NotBelow(r[i], r[j], property);
    }
  }

  lemma OpposedDescends(r: seq<Element>, property: string, i: nat, j: nat)
    requires InOrder(r, [Sort(property, true)]) && i < j < |r|
    requires TextIn(r[i], property) && TextIn(r[j], property)
    requires Opposed(TextOf(r[i], property), TextOf(r[j], property))
    ensures NotBelow(r[i], r[j], property)
  {
    var x, y := TextOf(r[i], property), TextOf(r[j], property);
    LeadingKeyOrder(r, [Sort(property, true)], i, j);
    TextTotal(Reversed(x), Reversed(y));
    if Reversed(x) == Reversed(y) {
      ReversedTwice(x);
      ReversedTwice(y);
      TextIrreflexive(x);
    }
  }

  function TextOf(e: Element, property: string): string {
    match Read(e, property)
    case Some(Text(s)) => s
    case _ => ""
  }

  predicate NotBelow(a: Element, b: Element, property: string) {
    !TextLess(TextOf(a, property), TextOf(b, property))
  }

  /** It already fails for two one-letter strings. */
  lemma DescendingTextCanAscend()
    ensures var a, b := Element(1, map["p" := Text("a")]), Element(2, map["p" := Text("b")]);
            Sorted([a, b], [Sort("p", true)]) == [a, b]
  {
    var a, b := Element(1, map["p" := Text("a")]), Element(2, map["p" := Text("b")]);
    var sorts := [Sort("p", true)];
    assert Reversed("a") == "a" && Reversed("b") == "b";
    assert KeysOf(a, sorts) == [TextKey("a")] && KeysOf(b, sorts) == [TextKey("b")];
    assert [a, b][..1] == [a] && [a][..0] == [];
    assert Sorted([a], sorts) == [a];
    assert Insert(b, [a], sorts) == [a, b];
  }
}
