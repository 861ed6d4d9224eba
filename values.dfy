/** The Python scalar values handed to the request setters, with `str()` and truth testing. */
module Values {
  import Text
  import opened Wrappers

  datatype Scalar = PyNone | PyStr(s: string) | PyInt(i: int) | PyBool(b: bool)

  /** `str(v)`: a string is itself, and `int()` reads an integer's text back as that integer. */
  function Str(v: Scalar): (r: string)
    ensures v.PyStr? ==> r == v.s
    ensures v.PyInt? ==> Text.ParseInt(r) == Some(v.i)
    ensures v.PyNone? || v.PyBool? ==> Text.ParseInt(r).None?
  {
    match v
    case PyNone => "None"
    case PyStr(s) => s
    case PyInt(i) => Text.ParseIntToString(i); Text.IntToString(i)
    case PyBool(b) => if b then "True" else "False"
  }

  /** Python truth testing: None, the empty string, 0 and False are false. */
  function Truthy(v: Scalar): (b: bool)
    ensures b ==> !v.PyNone? && Str(v) != ""
    ensures v.PyStr? ==> (b <==> Str(v) != "")
    ensures v.PyInt? ==> (b <==> v.i != 0)
    ensures v.PyBool? ==> b == v.b
  {
    StrEmpty(v);
    match v
    case PyNone => false
    case PyStr(s) => s != ""
    case PyInt(i) => i != 0
    case PyBool(b) => b
  }

  /**
   * The value a dict compares a key by: `True` and `False` are equal to 1
   * and 0, so they are the same key as those; every other scalar is its own.
   */
  function KeyOf(v: Scalar): Scalar
  {
    if v.PyBool? then PyInt(if v.b then 1 else 0) else v
  }

  /** `str(v)` is empty only for the empty string itself. */
  lemma {:induction false} StrEmpty(v: Scalar)
    ensures Str(v) == "" <==> v == PyStr("")
  {
    if v.PyInt? {
      var digits := Text.NatToString(if v.i < 0 then -v.i else v.i);
      assert |digits| > 0;
    }
  }
}
