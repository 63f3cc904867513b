/**
  The values that Python's json module prints and reads, with its floats. repr() and float() are
  an opaque pair: reading what was printed gives the float back.
 */
module PythonJson {
  import opened Common
  import opened Json
  import opened JsonRoundTrip

  datatype FloatLib<!F> = FloatLib(repr: F -> FloatText, parse: FloatText -> F)

  ghost predicate IsFloatLib<F(!new)>(lib: FloatLib<F>) { forall x: F :: lib.parse(lib.repr(x)) == x }

  datatype Value<F> =
    | Null
    | Bool(b: bool)
    | Int(n: int)
    | Finite(x: F)
    | NonFinite(constant: Constant)
    | Text(s: string)
    | List(items: seq<Value<F>>)
    | Dict(members: seq<(string, Value<F>)>)

  ghost predicate DictsHaveDistinctKeys<F>(v: Value<F>) {
    match v
    case List(items) => forall x | x in items :: DictsHaveDistinctKeys(x)
    case Dict(members) =>
      && (forall i, j | 0 <= i < j < |members| :: members[i].0 != members[j].0)
      && forall m | m in members :: DictsHaveDistinctKeys(m.1)
    case _ => true
  }

  /** What is printed for a value. */
  function ToJson<F>(v: Value<F>, lib: FloatLib<F>): Json {
    match v
    case Null => Json.Null
    case Bool(b) => Json.Bool(b)
    case Int(n) => Num(n)
    case Finite(x) => Float(lib.repr(x))
    case NonFinite(c) => Special(c)
    case Text(s) => Str(s)
    case List(items) => Arr(seq(|items|, i requires 0 <= i < |items| => ToJson(items[i], lib)))
    case Dict(members) =>
      Obj(seq(|members|, i requires 0 <= i < |members| => assert members[i] in members; (members[i].0, ToJson(members[i].1, lib))))
  }

  /** The value that is built for what was read. */
  function FromJson<F>(j: Json, lib: FloatLib<F>): Value<F> {
    match j
    case Null => Value.Null
    case Bool(b) => Value.Bool(b)
    case Num(n) => Int(n)
    case Float(numeral) => Finite(lib.parse(numeral))
    case Special(c) => NonFinite(c)
    case Str(s) => Text(s)
    case Arr(items) => List(seq(|items|, i requires 0 <= i < |items| => FromJson(items[i], lib)))
    case Obj(members) =>
      Dict(seq(|members|, i requires 0 <= i < |members| => assert members[i] in members; (members[i].0, FromJson(members[i].1, lib))))
  }

  lemma {:induction false} FromTo<F(!new)>(v: Value<F>, lib: FloatLib<F>)
    requires IsFloatLib(lib)
    ensures FromJson(ToJson(v, lib), lib) == v
  {
    match v
    case List(items) =>
      forall i | 0 <= i < |items| ensures FromJson(ToJson(items[i], lib), lib) == items[i] { FromTo(items[i], lib); }
      assert FromJson(ToJson(v, lib), lib).items == items;
    case Dict(members) =>
      forall i | 0 <= i < |members| ensures FromJson(ToJson(members[i].1, lib), lib) == members[i].1 {
        assert members[i] in members;
        FromTo(members[i].1, lib);
      }
      assert FromJson(ToJson(v, lib), lib).members == members;
    case _ =>
  }

  lemma {:induction false} ToJsonWellFormed<F>(v: Value<F>, lib: FloatLib<F>)
    requires DictsHaveDistinctKeys(v)
    ensures WellFormed(ToJson(v, lib))
  {
    match v
    case List(items) =>
      forall i | 0 <= i < |items| ensures WellFormed(ToJson(items[i], lib)) { ToJsonWellFormed(items[i], lib); }
    case Dict(members) =>
      forall i | 0 <= i < |members| ensures WellFormed(ToJson(members[i].1, lib)) {
        assert members[i] in members;
        ToJsonWellFormed(members[i].1, lib);
      }
    case _ =>
  }

  /** json.loads(json.dumps(v)) is v, floats included. */
  lemma PythonValuesSurvive<F(!new)>(v: Value<F>, lib: FloatLib<F>, style: Style)
    requires IsFloatLib(lib) && DictsHaveDistinctKeys(v)
    ensures var j := Loads(Dumps(ToJson(v, lib), style)); j.Some? && FromJson(j.value, lib) == v
  {
    ToJsonWellFormed(v, lib);
    LoadsDumps(ToJson(v, lib), style);
    FromTo(v, lib);
  }
}
