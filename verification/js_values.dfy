/** The few JavaScript value conventions the browser scripts rely on: numeric coercion,
    truthiness, `String(id)`, and values read back from `localStorage`. */
module JsValues {
  import opened Wrappers

  /** A JavaScript number as the cart code produces it: an integer, or `NaN` (what
      `Number(x)` yields for anything non-numeric). */
  datatype JsNumber = Int(v: int) | NaN

  /** A product id as it reaches the scripts: the backend's numeric id, or `null`/`undefined`. */
  datatype JsId = Undefined | Null | IdNum(n: int)

  /** What `localStorage.getItem` plus `JSON.parse` yields for one key: nothing stored
      (or the empty string), a value that is not an object (text that does not parse,
      `null`, or a number, boolean or string), or the parsed object. */
  datatype Stored<T> = Missing | Malformed | Parsed(value: T)

  /** 0 and NaN are the falsy numbers. */
  predicate Falsy(x: JsNumber) {
    x == Int(0) || x.NaN?
  }

  /** `Number(x) || 0`: how much a stored quantity counts for. */
  function AsCount(x: JsNumber): int {
    if x.Int? then x.v else 0
  }

  /** `(x || 1)`: the delta an add-to-cart uses when the caller gives a falsy or no quantity. */
  function QtyOrOne(q: Option<JsNumber>): (n: int)
    ensures n != 0
    ensures q.Some? && !Falsy(q.value) ==> n == q.value.v
    ensures (q.None? || Falsy(q.value)) ==> n == 1
  {
    if q.Some? && !Falsy(q.value) then q.value.v else 1
  }

  function DigitChar(d: nat): (c: char)
    requires d < 10
    ensures '0' <= c <= '9'
  {
    "0123456789"[d]
  }

  function DigitValue(c: char): nat
    requires '0' <= c <= '9'
  {
    (c as int) - ('0' as int)
  }

  predicate IsDigits(s: string) {
    forall i :: 0 <= i < |s| ==> '0' <= s[i] <= '9'
  }

  /** Decimal rendering of a natural number, without leading zeros. */
  function NatToString(n: nat): (s: string)
    ensures |s| >= 1 && IsDigits(s)
    ensures s[0] == '0' ==> n == 0
    decreases n
  {
    if n < 10 then [DigitChar(n)] else NatToString(n / 10) + [DigitChar(n % 10)]
  }

  /** `String(n)` for an integer-valued JavaScript number. */
  function IntToString(i: int): (s: string)
    ensures |s| >= 1
    ensures s[0] == '-' <==> i < 0
  {
    if i < 0 then "-" + NatToString(-i) else NatToString(i)
  }

  /** Reads back a decimal digit string. */
  function ParseNat(s: string): nat
    requires |s| >= 1 && IsDigits(s)
    decreases |s|
  {
    if |s| == 1 then DigitValue(s[0])
    else ParseNat(s[..|s| - 1]) * 10 + DigitValue(s[|s| - 1])
  }

  function ParseInt(s: string): int
    requires |s| >= 1
    requires s[0] == '-' ==> |s| >= 2 && IsDigits(s[1..])
    requires s[0] != '-' ==> IsDigits(s)
  {
    if s[0] == '-' then -(ParseNat(s[1..]) as int) else ParseNat(s)
  }

  lemma {:induction false} ParseNatToString(n: nat)
    ensures ParseNat(NatToString(n)) == n
    decreases n
  {
    if n >= 10 {
      var s := NatToString(n);
      assert s[..|s| - 1] == NatToString(n / 10);
      ParseNatToString(n / 10);
    }
  }

  /** `String(n)` can be read back: the decimal rendering loses nothing. */
  lemma ParseIntToString(i: int)
    ensures var s := IntToString(i);
            (s[0] == '-' ==> |s| >= 2 && IsDigits(s[1..])) && (s[0] != '-' ==> IsDigits(s))
            && ParseInt(s) == i
  {
    var s := IntToString(i);
    if i < 0 {
      assert s[1..] == NatToString(-i);
      ParseNatToString(-i);
    } else {
      ParseNatToString(i);
    }
  }

  /** `String(x)` for a product id as `addToCart(${product.id})` passes it. */
  function IdString(id: JsId): string {
    match id
    case Undefined => "undefined"
    case Null => "null"
    case IdNum(n) => IntToString(n)
  }

  /** Distinct ids never share a cart key. */
  lemma IdStringInjective(a: JsId, b: JsId)
    requires IdString(a) == IdString(b)
    ensures a == b
  {
    if a.IdNum? && b.IdNum? {
      ParseIntToString(a.n);
      ParseIntToString(b.n);
    }
  }
}
