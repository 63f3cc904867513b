/**
  Queries over elements as one expression: keep what passes every filter, sort stably by the key
  tuple, keep first occurrences, slice.

  An element is a map from property names to values; reading a property it lacks raises.
 */
module QuerySpec {
  import opened Common
  import opened Slices
  import opened Substrings

  /** A number is an int, a float or a bool: its value, and how str() writes it. */
  datatype Value = Null | Num(x: real, text: string) | Text(s: string)

  datatype Element = Element(id: nat, properties: map<string, Value>)

  /** get_parameter_value: None when it raises. */
  function Read(e: Element, property: string): Option<Value> {
    if property in e.properties then Some(e.properties[property]) else None
  }

  /** Python's str() */
  function Str(v: Value): string {
    match v
    case Null => "None"
    case Num(_, text) => text
    case Text(s) => s
  }

  /** What a value is equal by: 1, 1.0 and True are one key of a set. */
  function Same(v: Value): Value { if v.Num? then Num(v.x, "") else v }

  // ---------- filters ----------

  datatype Comparison = Equals | NotEquals | GreaterThan | LessThan | GreaterEqual | LessEqual

  datatype Filter =
    | Compare(property: string, op: Comparison, value: Value)
    | Contains(property: string, value: Value, caseSensitive: bool)
    | StartsWith(property: string, value: Value, caseSensitive: bool)
    | EndsWith(property: string, value: Value, caseSensitive: bool)
    | In(property: string, values: seq<Value>)
    | NotIn(property: string, values: seq<Value>)
    | IsNull(property: string)
    | IsNotNull(property: string)
    | Regex(property: string, pattern: string, caseSensitive: bool)

  /** Library behaviour: str.lower, and re.search, which raises on a bad pattern. */
  datatype Library = Library(lower: string -> string, search: (string, string) -> Option<bool>)

  /** str < str, by code point. */
  predicate TextLess(a: string, b: string) {
    b != "" && (a == "" || a[0] < b[0] || (a[0] == b[0] && TextLess(a[1..], b[1..])))
  }

  predicate Holds<T(==)>(op: Comparison, a: T, b: T, less: (T, T) -> bool) {
    match op
    case Equals => a == b
    case NotEquals => a != b
    case GreaterThan => less(b, a)
    case LessThan => less(a, b)
    case GreaterEqual => a == b || less(b, a)
    case LessEqual => a == b || less(a, b)
  }

  /** _compare_values: null only ever matches null; mixed types are compared as strings. */
  predicate CompareValues(op: Comparison, a: Value, b: Value) {
    if a.Null? || b.Null? then a.Null? && b.Null?
    else if a.Num? && b.Num? then Holds(op, a.x, b.x, (x: real, y: real) => x < y)
    else Holds(op, Str(a), Str(b), (x: string, y: string) => TextLess(x, y))
  }

  /** _string_compare's operands: null counts as the empty string. */
  function Operand(v: Value, caseSensitive: bool, lib: Library): string {
    var s := if v.Null? then "" else Str(v);
    if caseSensitive then s else lib.lower(s)
  }

  /** a in values */
  predicate Among(a: Value, values: seq<Value>) { exists i | 0 <= i < |values| :: Same(values[i]) == Same(a) }

  /** FilterCriteria.apply: any exception counts as no match. */
  predicate Matches(f: Filter, e: Element, lib: Library) {
    var read := Read(e, f.property);
    read.Some? &&
    var a := read.value;
    match f
    case Compare(_, op, b) => CompareValues(op, a, b)
    case Contains(_, b, c) => Within(Operand(b, c, lib), Operand(a, c, lib))
    case StartsWith(_, b, c) => Operand(b, c, lib) <= Operand(a, c, lib)
    case EndsWith(_, b, c) =>
      var x, y := Operand(a, c, lib), Operand(b, c, lib);
      |y| <= |x| && x[|x| - |y|..] == y
    case In(_, values) => Among(a, values)
    case NotIn(_, values) => !Among(a, values)
    case IsNull(_) => a.Null?
    case IsNotNull(_) => !a.Null?
    case Regex(_, pattern, c) => lib.search(if c then pattern else "(?i)" + pattern, Str(a)) == Some(true)
  }

  predicate MatchesAll(filters: seq<Filter>, e: Element, lib: Library) {
    forall f | f in filters :: Matches(f, e, lib)
  }

  function Filtered(elements: seq<Element>, filters: seq<Filter>, lib: Library): seq<Element> {
    if elements == [] then []
    else (if MatchesAll(filters, elements[0], lib) then [elements[0]] else []) + Filtered(elements[1..], filters, lib)
  }

  // ---------- sorting ----------

  datatype Sort = Sort(property: string, descending: bool)

  datatype Key = NumKey(x: real) | TextKey(s: string)

  function Reversed(s: string): string {
    if s == "" then "" else Reversed(s[1..]) + [s[0]]
  }

  /** get_sort_key: null and unreadable count as the empty string; descending negates numbers and
      turns strings round. */
  function KeyOf(e: Element, sort: Sort): Key {
    match Read(e, sort.property)
    case Some(Num(x, _)) => NumKey(if sort.descending then -x else x)
    case Some(Text(s)) => TextKey(if sort.descending then Reversed(s) else s)
    case _ => TextKey("")
  }

  function KeysOf(e: Element, sorts: seq<Sort>): seq<Key> {
    if sorts == [] then [] else [KeyOf(e, sorts[0])] + KeysOf(e, sorts[1..])
  }

  /** Numbers before strings: Python refuses to compare the two, see Clash. */
  predicate KeyLess(a: Key, b: Key) {
    match a
    case NumKey(x) => b.TextKey? || x < b.x
    case TextKey(s) => b.TextKey? && TextLess(s, b.s)
  }

  predicate TupleLess(a: seq<Key>, b: seq<Key>) {
    b != [] && (a == [] || KeyLess(a[0], b[0]) || (a[0] == b[0] && TupleLess(a[1..], b[1..])))
  }

  predicate TupleLeq(a: seq<Key>, b: seq<Key>) { a == b || TupleLess(a, b) }

  /** Comparing the tuples raises TypeError: at the first difference one is a number and the other
      a string. */
  predicate Clash(a: seq<Key>, b: seq<Key>) {
    a != [] && b != [] && (if a[0] == b[0] then Clash(a[1..], b[1..]) else a[0].NumKey? != b[0].NumKey?)
  }

  /** A comparison sort must at some point compare two neighbours of different kinds if there are
      any two elements that cannot be compared. */
  predicate Unsortable(elements: seq<Element>, sorts: seq<Sort>) {
    exists i, j | 0 <= i < j < |elements| :: Clash(KeysOf(elements[i], sorts), KeysOf(elements[j], sorts))
  }

  function Insert(e: Element, sorted: seq<Element>, sorts: seq<Sort>): seq<Element> {
    if sorted == [] || TupleLess(KeysOf(e, sorts), KeysOf(sorted[0], sorts)) then [e] + sorted
    else [sorted[0]] + Insert(e, sorted[1..], sorts)
  }

  /** sorted(elements, key=...) */
  function Sorted(elements: seq<Element>, sorts: seq<Sort>): seq<Element> {
    if elements == [] then []
    else Insert(elements[|elements| - 1], Sorted(elements[..|elements| - 1], sorts), sorts)
  }

  // ---------- distinct ----------

  /** The key an element's value has in a set, if it can be read. */
  function Seen(e: Element, property: string): Option<Value> {
    var read := Read(e, property);
    if read.Some? then Some(Same(read.value)) else None
  }

  function Values(elements: seq<Element>, property: string): set<Value> {
    set e | e in elements && Seen(e, property).Some? :: Seen(e, property).value
  }

  /** First occurrence of each value; elements that cannot be read all stay. */
  function Distinct(elements: seq<Element>, property: string): seq<Element> {
    if elements == [] then []
    else
      var front, last := elements[..|elements| - 1], elements[|elements| - 1];
      var read := Seen(last, property);
      Distinct(front, property) + if read.Some? && read.value in Values(front, property) then [] else [last]
  }

  // ---------- queries ----------

  datatype Query = Query(
    filters: seq<Filter>,
    sorts: seq<Sort>,
    skip: int,
    take: Option<int>,
    distinct: Option<string>)

  const ALL := Query([], [], 0, None, None)

  /** Everything before the slice. */
  function Pipeline(elements: seq<Element>, q: Query, lib: Library): seq<Element> {
    var sorted := Sorted(Filtered(elements, q.filters, lib), q.sorts);
    if q.distinct.Some? && q.distinct.value != "" then Distinct(sorted, q.distinct.value) else sorted
  }

  /** The upper bound of the slice: take(0) is as good as no take. */
  function End(q: Query): Option<int> {
    if q.take.Some? && q.take.value != 0 then Some(q.skip + q.take.value) else None
  }

  datatype TypeError = TypeError

  function Execute(elements: seq<Element>, q: Query, lib: Library): Result<seq<Element>, TypeError> {
    if Unsortable(Filtered(elements, q.filters, lib), q.sorts) then Err(TypeError.TypeError)
    else Ok(Slice(Pipeline(elements, q, lib), q.skip, End(q)))
  }
}
