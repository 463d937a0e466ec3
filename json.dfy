/** Python-side values of decoded JSON (`json.loads`) and the few built-in
 *  operations the scripts apply to them: `dict.get`, truthiness, numeric
 *  comparison, `int()` and `str()`. */
module Json {
  import opened Wrappers
  import opened Text

  /** A decoded JSON value; `JNull` is Python's `None`. */
  datatype Json =
    | JNull
    | JBool(b: bool)
    | JInt(i: int)
    | JFloat(f: real)
    | JStr(s: string)
    | JList(items: seq<Json>)
    | JObj(fields: map<string, Json>)

  type Object = map<string, Json>

  /** `o.get(k)`: a missing key and an explicit `null` both give `None`. */
  function Get(o: Object, k: string): (j: Json)
    ensures k !in o ==> j == JNull
  {
    if k in o then o[k] else JNull
  }

  /** `o.get(k, d)`: the default is used only when the key is missing. */
  function GetOr(o: Object, k: string, d: Json): (j: Json)
    ensures k in o ==> j == o[k]
  {
    if k in o then o[k] else d
  }

  /** `x == 200` holds for exactly these values (a float equal to it
   *  included, `True` and texts not). */
  predicate IsCode200(j: Json)
  {
    j == JInt(200) || j == JFloat(200.0)
  }

  /** Python truthiness of a value. */
  predicate Truthy(j: Json)
  {
    match j
    case JNull => false
    case JBool(b) => b
    case JInt(i) => i != 0
    case JFloat(f) => f != 0.0
    case JStr(s) => s != []
    case JList(xs) => xs != []
    case JObj(m) => m != map[]
  }

  /** The value `<`/`>` compare for a number (`bool` is a subclass of `int`);
   *  `None` for the kinds a comparison with a number rejects with
   *  `TypeError`. */
  function Numeric(j: Json): (r: Option<real>)
    ensures r.Some? <==> (j.JBool? || j.JInt? || j.JFloat?)
  {
    match j
    case JBool(b) => Some(if b then 1.0 else 0.0)
    case JInt(i) => Some(i as real)
    case JFloat(f) => Some(f)
    case _ => None
  }

  /** `int(x)` of a float: truncation toward zero. */
  function Truncate(f: real): (i: int)
    ensures f >= 0.0 ==> 0 <= i && i as real <= f < i as real + 1.0
    ensures f < 0.0 ==> i <= 0 && i as real - 1.0 < f <= i as real
  {
    if f >= 0.0 then f.Floor else -((-f).Floor)
  }

  /** Python's `int(x)`; `None` stands for the `TypeError` (null, list,
   *  object) or `ValueError` (text that is not an integer literal). */
  function PyInt(j: Json): (r: Option<int>)
    ensures j.JInt? ==> r == Some(j.i)
    ensures j.JNull? || j.JList? || j.JObj? ==> r.None?
  {
    match j
    case JNull => None
    case JBool(b) => Some(if b then 1 else 0)
    case JInt(i) => Some(i)
    case JFloat(f) => Some(Truncate(f))
    case JStr(s) => PyParseInt(s)
    case JList(_) => None
    case JObj(_) => None
  }

  /** Python's `str(x)`. The `repr` of floats, lists and objects is a
   *  parameter. */
  function PyStr(j: Json, repr: Json -> string): (s: string)
    ensures j.JStr? ==> s == j.s
    ensures j.JInt? ==> s == IntToString(j.i)
  {
    match j
    case JNull => "None"
    case JBool(b) => if b then "True" else "False"
    case JInt(i) => IntToString(i)
    case JStr(t) => t
    case _ => repr(j)
  }

  /** `int(str(x))` gives an integer back: `str()` of a JSON integer and
   *  `int()` of that text are inverse. */
  lemma PyIntOfStr(i: int, repr: Json -> string)
    ensures PyInt(JStr(PyStr(JInt(i), repr))) == Some(i)
  {
    PyParseIntRoundTrip(i);
  }
}
