/** Values shared by every part of the model: optional values, the scalar
    values a JSON or spreadsheet record can hold, Python truthiness and
    Python's `str()` of an integer. */
module Common {

  datatype Option<+T> = None | Some(value: T) {
    function GetOr(default: T): T {
      match this
      case Some(v) => v
      case None => default
    }
  }

  /** The value of an operation that can fail; `Err` stands for the
      exception the source raises. */
  datatype Result<+T, +E> = Ok(value: T) | Err(error: E)

  /** A scalar cell of a JSON object or a spreadsheet row: a string, an
      integer, or `null` (also what `dict.get` returns for a missing key). */
  datatype Scalar = Str(s: string) | Int(i: int) | Null

  /** Python truthiness of a scalar: `None`, `""` and `0` are false. */
  predicate Truthy(v: Scalar) {
    match v
    case Str(s) => s != ""
    case Int(i) => i != 0
    case Null => false
  }

  /** Python truthiness of an optional string (`None` and `""` are false). */
  predicate Present(o: Option<string>) {
    o.Some? && o.value != ""
  }

  /** A record read as a Python dict, and `dict.get(key)`. */
  type Record = map<string, Scalar>

  function Get(row: Record, key: string): (v: Scalar)
    ensures key !in row ==> v == Null
    ensures key in row ==> v == row[key]
  {
    if key in row then row[key] else Null
  }

  function DigitChar(d: nat): (c: char)
    requires d < 10
    ensures '0' <= c <= '9'
    ensures c as int - '0' as int == d
  {
    ('0' as int + d) as char
  }

  /** The decimal digits of a natural number, most significant first. */
  function Digits(n: nat): (s: string)
    ensures |s| >= 1
    ensures forall k :: 0 <= k < |s| ==> '0' <= s[k] <= '9'
    decreases n
  {
    if n < 10 then [DigitChar(n)] else Digits(n / 10) + [DigitChar(n % 10)]
  }

  /** The value a string of decimal digits denotes (inverse of Digits). */
  function DigitsValue(s: string): int
    requires forall k :: 0 <= k < |s| ==> '0' <= s[k] <= '9'
  {
    if s == [] then 0 else 10 * DigitsValue(s[..|s| - 1]) + (s[|s| - 1] as int - '0' as int)
  }

  lemma {:induction false} DigitsRoundTrip(n: nat)
    ensures DigitsValue(Digits(n)) == n
    decreases n
  {
    if n >= 10 {
      DigitsRoundTrip(n / 10);
      var s := Digits(n);
      assert s[..|s| - 1] == Digits(n / 10);
      assert s[|s| - 1] == DigitChar(n % 10);
    }
  }

  /** Python's `str()` of an integer: an optional minus sign, then the digits. */
  function IntToStr(i: int): (s: string)
    ensures |s| >= 1
    ensures i < 0 <==> s[0] == '-'
  {
    if i < 0 then "-" + Digits(-i) else Digits(i)
  }

  /** Python's `str()` of a scalar cell. */
  function ScalarToStr(v: Scalar): string {
    match v
    case Str(s) => s
    case Int(i) => IntToStr(i)
    case Null => "None"
  }
}
