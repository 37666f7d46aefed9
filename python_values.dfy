/** The few Python values and built-ins the poke handler relies on:
    values that may be None, a bool, an int, a str, a dict or an object,
    their truthiness (`if not x`, `a or b`) and `str(x)`. */
module PyValues {

  datatype Option<+T> = None | Some(value: T)

  /** A Python value as far as the handler inspects it.
      Dicts have string keys; dicts and objects expose attributes (`hasattr`,
      `getattr`). For a dict, an object or any other value (float, list, ...)
      the rendering that `str()` gives is carried in `text`, not computed. */
  datatype PyValue =
    | PyNone
    | PyBool(b: bool)
    | PyInt(i: int)
    | PyStr(s: string)
    | PyDict(items: map<string, PyValue>, attrs: map<string, PyValue>, text: string)
    | PyObject(attrs: map<string, PyValue>, text: string)
    | PyOther(truthy: bool, text: string)

  /** Python truthiness: None, False, 0, "" and {} are false; an object without
      `__bool__`/`__len__` is true. */
  predicate Truthy(v: PyValue) {
    match v
    case PyNone => false
    case PyBool(b) => b
    case PyInt(i) => i != 0
    case PyStr(s) => s != ""
    case PyDict(items, _, _) => items != map[]
    case PyObject(_, _) => true
    case PyOther(t, _) => t
  }

  /** `getattr(v, name, None)`. */
  function GetAttr(v: PyValue, name: string): PyValue {
    if (v.PyDict? || v.PyObject?) && name in v.attrs then v.attrs[name] else PyNone
  }

  /** `d.get(key)` on a dict: None when the key is missing. */
  function Get(items: map<string, PyValue>, key: string): PyValue {
    if key in items then items[key] else PyNone
  }

  /** `str(v)`. */
  function Str(v: PyValue): string {
    match v
    case PyNone => "None"
    case PyBool(b) => if b then "True" else "False"
    case PyInt(i) => Decimal(i)
    case PyStr(s) => s
    case PyDict(_, _, text) => text
    case PyObject(_, text) => text
    case PyOther(_, text) => text
  }

  predicate IsDigit(c: char) {
    '0' <= c <= '9'
  }

  predicate AllDigits(s: string) {
    forall k :: 0 <= k < |s| ==> IsDigit(s[k])
  }

  function DigitChar(d: nat): (c: char)
    requires d < 10
    ensures IsDigit(c) && c as int - '0' as int == d
  {
    ('0' as int + d) as char
  }

  /** The decimal digits of a natural number, most significant first, without
      leading zeros. */
  function Digits(n: nat): (r: string)
    ensures r != [] && AllDigits(r)
    ensures r[0] == '0' ==> n == 0
    decreases n
  {
    if n < 10 then [DigitChar(n)] else Digits(n / 10) + [DigitChar(n % 10)]
  }

  /** `str(i)` for an int: an optional minus sign, then the digits. */
  function Decimal(i: int): (r: string)
    ensures r != []
    ensures r[0] == '-' <==> i < 0
  {
    if i < 0 then "-" + Digits(-i) else Digits(i)
  }

  /** The value a string of decimal digits denotes (`int(s)` on digits). */
  function DigitsValue(s: string): nat
    requires AllDigits(s)
  {
    if s == [] then 0
    else DigitsValue(s[..|s| - 1]) * 10 + (s[|s| - 1] as int - '0' as int)
  }

  /** Reading the digits back gives the number: `int(str(n)) == n`. */
  lemma {:induction false} DigitsRoundTrip(n: nat)
    ensures DigitsValue(Digits(n)) == n
    decreases n
  {
    if n >= 10 {
      var r := Digits(n);
      assert r[..|r| - 1] == Digits(n / 10);
      DigitsRoundTrip(n / 10);
    }
  }

  /** Two ints render the same exactly when they are equal, so comparing
      `str(target_id)` with the bot's account compares the numbers. */
  lemma DecimalInjective(a: int, b: int)
    ensures Decimal(a) == Decimal(b) <==> a == b
  {
    if Decimal(a) == Decimal(b) {
      if a < 0 {
        assert Digits(-a) == Decimal(a)[1..] == Decimal(b)[1..] == Digits(-b);
        DigitsRoundTrip(-a);
        DigitsRoundTrip(-b);
      } else {
        DigitsRoundTrip(a);
        DigitsRoundTrip(b);
      }
    }
  }
}
