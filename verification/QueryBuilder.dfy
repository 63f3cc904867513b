/** The fluent query builder: its fields, and the loops of execute(). */
module QueryBuilders {
  import opened Common
  import opened Slices
  import opened QuerySpec
  import opened QueryTheorems

  class QueryBuilder {
    const provider: seq<Element>
    const library: Library
    var filters: seq<Filter>
    var sorts: seq<Sort>
    var skipCount: int
    var takeCount: Option<int>
    var distinctProperty: Option<string>

    constructor (provider: seq<Element>, library: Library)
      ensures this.provider == provider && this.library == library && View() == ALL
    {
      this.provider, this.library := provider, library;
      filters, sorts, skipCount, takeCount, distinctProperty := [], [], 0, None, None;
    }

    function View(): Query
      reads this
    {
      Query(filters, sorts, skipCount, takeCount, distinctProperty)
    }

    method Where(f: Filter)
      modifies this
      ensures View() == old(View()).(filters := old(filters) + [f])
    {
      filters := filters + [f];
    }

    method OrderBy(sort: Sort)
      modifies this
      ensures View() == old(View()).(sorts := old(sorts) + [sort])
    {
      sorts := sorts + [sort];
    }

    method Skip(count: int)
      modifies this
      ensures View() == old(View()).(skip := count)
    {
      skipCount := count;
    }

    method Take(count: int)
      modifies this
      ensures View() == old(View()).(take := Some(count))
    {
      takeCount := Some(count);
    }

    method MakeDistinct(property: Option<string>)
      modifies this
      ensures View() == old(View()).(distinct := property)
    {
      distinctProperty := property;
    }

    /** One pass per filter. */
    method ApplyFilters() returns (filtered: seq<Element>)
      ensures filtered == Filtered(provider, filters, library)
    {
      filtered := provider;
      FilteredByNone(provider, library);
      var i := 0;
      while i < |filters|
        invariant 0 <= i <= |filters|
        invariant filtered == Filtered(provider, filters[..i], library)
      {
        filtered := ApplyFilter(filtered, filters[i]);
        FilterAgain(provider, filters[..i], filters[i], library);
        assert filters[..i + 1] == filters[..i] + [filters[i]];
        i := i + 1;
      }
      assert filters[..i] == filters;
    }

    /** The list comprehension for one filter. */
    method ApplyFilter(elements: seq<Element>, f: Filter) returns (kept: seq<Element>)
      ensures kept == Filtered(elements, [f], library)
    {
      kept := [];
      var j := 0;
      while j < |elements|
        invariant 0 <= j <= |elements|
        invariant kept == Filtered(elements[..j], [f], library)
      {
        FilteredSnoc(elements[..j], elements[j], [f], library);
        assert elements[..j + 1] == elements[..j] + [elements[j]];
        assert MatchesAll([f], elements[j], library) <==> Matches(f, elements[j], library);
        if Matches(f, elements[j], library) {
          kept := kept + [elements[j]];
        }
        j := j + 1;
      }
      assert elements[..j] == elements;
    }

    /** The loop with seen_values. */
    method ApplyDistinct(elements: seq<Element>, property: string) returns (distinct: seq<Element>)
      ensures distinct == Distinct(elements, property)
    {
      var seen: set<Value> := {};
      distinct := [];
      var i := 0;
      while i < |elements|
        invariant 0 <= i <= |elements|
        invariant seen == Values(elements[..i], property)
        invariant distinct == Distinct(elements[..i], property)
      {
        assert elements[..i + 1] == elements[..i] + [elements[i]];
        DistinctSnoc(elements[..i], elements[i], property);
        match Read(elements[i], property) {
          case Some(value) =>
            if Same(value) !in seen {
              seen := seen + {Same(value)};
              distinct := distinct + [elements[i]];
            }
          case None =>
            distinct := distinct + [elements[i]];
        }
        i := i + 1;
      }
      assert elements[..i] == elements;
    }

    method Execute() returns (r: Result<seq<Element>, TypeError>)
      ensures r == QuerySpec.Execute(provider, View(), library)
    {
      var elements := ApplyFilters();
      if sorts != [] {
        if Unsortable(elements, sorts) { return Err(TypeError.TypeError); }
        elements := Sorted(elements, sorts);
      } else {
        NothingToSort(elements);
      }
      if distinctProperty.Some? && distinctProperty.value != "" {
        elements := ApplyDistinct(elements, distinctProperty.value);
      }
      var end := if takeCount.Some? && takeCount.value != 0 then Some(skipCount + takeCount.value) else None;
      r := Ok(Slice(elements, skipCount, end));
    }

    method Count() returns (r: Result<nat, TypeError>)
      ensures var all := QuerySpec.Execute(provider, View(), library);
              r == if all.Ok? then Ok(|all.value|) else Err(all.error)
    {
      var all := Execute();
      r := if all.Ok? then Ok(|all.value|) else Err(all.error);
    }

    /** any(): runs with take(1) and puts the old count back, unless the query raises. */
    method Any() returns (r: Result<bool, TypeError>)
      modifies this
      ensures r == AnyOf(provider, old(View()), library)
      ensures r.Ok? ==> View() == old(View())
      ensures r.Err? ==> View() == old(View()).(take := Some(1))
      ensures r.Ok? && old(skipCount) >= 0 && (old(takeCount).Some? ==> old(takeCount).value >= 0) ==>
                (r.value <==> |QuerySpec.Execute(provider, old(View()), library).value| > 0)
    {
      var tempTake := takeCount;
      takeCount := Some(1);
      var result := Execute();
      if skipCount >= 0 && (tempTake.Some? ==> tempTake.value >= 0) {
        AnyAgreesWithCount(provider, old(View()), library);
      }
      if result.Err? { return Err(result.error); }
      r := Ok(|result.value| > 0);
      takeCount := tempTake;
    }
  }

  lemma {:induction false} FilteredByNone(elements: seq<Element>, lib: Library)
    ensures Filtered(elements, [], lib) == elements
    decreases |elements|
  {
    if elements != [] {
      FilteredByNone(elements[1..], lib);
      assert elements == [elements[0]] + elements[1..];
    }
  }

  lemma {:induction false} FilteredSnoc(elements: seq<Element>, e: Element, filters: seq<Filter>, lib: Library)
    ensures Filtered(elements + [e], filters, lib)
         == Filtered(elements, filters, lib) + if MatchesAll(filters, e, lib) then [e] else []
    decreases |elements|
  {
    if elements == [] {
      assert elements + [e] == [e];
      assert Filtered([e][1..], filters, lib) == [];
    } else {
      assert (elements + [e])[1..] == elements[1..] + [e] && (elements + [e])[0] == elements[0];
      FilteredSnoc(elements[1..], e, filters, lib);
    }
  }

  lemma DistinctSnoc(front: seq<Element>, last: Element, property: string)
    ensures var read := Seen(last, property);
            && Distinct(front + [last], property) ==
                 Distinct(front, property) + (if read.Some? && read.value in Values(front, property) then [] else [last])
            && Values(front + [last], property) ==
                 Values(front, property) + (if read.Some? then {read.value} else {})
  {
    assert (front + [last])[..|front|] == front;
    var all := front + [last];
    forall v ensures v in Values(all, property) <==> v in Values(front, property) || Seen(last, property) == Some(v) {
      if v in Values(front, property) {
        var e :| e in front && Seen(e, property) == Some(v);
        assert e in all;
      }
      if Seen(last, property) == Some(v) { assert last in all; }
    }
  }

  lemma {:induction false} NothingToSort(elements: seq<Element>)
    ensures Sorted(elements, []) == elements && !Unsortable(elements, [])
    decreases |elements|
  {
    if elements != [] {
      var front, last := elements[..|elements| - 1], elements[|elements| - 1];
      NothingToSort(front);
      InsertLast(last, front);
      assert elements == front + [last];
    }
  }

  lemma {:induction false} InsertLast(e: Element, s: seq<Element>)
    ensures Insert(e, s, []) == s + [e]
    decreases |s|
  {
    if s != [] {
      InsertLast(e, s[1..]);
      assert s + [e] == [s[0]] + (s[1..] + [e]);
    }
  }
}
