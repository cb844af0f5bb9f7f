/** Parsed JSON values as the program sees them, and the JavaScript coercions it
    applies to them: truthiness, `??`, `||`, optional property access, `String(v)`,
    `Number(v)` and `Object.entries`. */
module JsValues {
  import opened Basics
  import opened JsStrings

  /** A parsed JSON document. Object members keep their order, because the program
      observes it ("the first string value", the order of recycle components). */
  datatype Json =
    | JNull
    | JStr(s: string)
    | JNum(n: int)
    | JBool(b: bool)
    | JArr(elems: seq<Json>)
    | JObj(fields: seq<(string, Json)>)

  /** A property read: `None` is `undefined`. */
  type Value = Option<Json>

  /** The value of the first member named `key`. */
  function Lookup(fields: seq<(string, Json)>, key: string): Value
    decreases |fields|
  {
    if fields == [] then None
    else if fields[0].0 == key then Some(fields[0].1)
    else Lookup(fields[1..], key)
  }

  /** A lookup finds a member with that name, the first one, and fails only when there is
      none. */
  lemma {:induction false} LookupFinds(fields: seq<(string, Json)>, key: string)
    ensures var r := Lookup(fields, key);
      r.Some? ==> exists i :: (0 <= i < |fields| && fields[i] == (key, r.value) &&
        forall j :: 0 <= j < i ==> fields[j].0 != key)
    ensures Lookup(fields, key).None? <==> forall i :: 0 <= i < |fields| ==> fields[i].0 != key
    decreases |fields|
  {
    if fields != [] && fields[0].0 != key {
      LookupFinds(fields[1..], key);
      var r := Lookup(fields, key);
      if r.Some? {
        var i :| 0 <= i < |fields[1..]| && fields[1..][i] == (key, r.value) &&
          forall j :: 0 <= j < i ==> fields[1..][j].0 != key;
        assert fields[i + 1] == (key, r.value);
      }
    }
  }

  /** `v?.[key]`: only an object has named members; reading through `undefined` or `null`
      with optional chaining gives `undefined`. */
  function Get(v: Value, key: string): (r: Value)
    ensures r.Some? ==> v.Some? && v.value.JObj?
  {
    if v.Some? && v.value.JObj? then Lookup(v.value.fields, key) else None
  }

  /** JavaScript truthiness: `undefined`, `null`, `false`, `0` and `""` are falsy. */
  predicate Truthy(v: Value)
  {
    match v
    case None => false
    case Some(j) =>
      match j
      case JNull => false
      case JBool(b) => b
      case JNum(n) => n != 0
      case JStr(s) => s != ""
      case _ => true
  }

  predicate IsNullish(v: Value)
  {
    v.None? || v.value.JNull?
  }

  /** `a ?? b`. */
  function Coalesce(a: Value, b: Value): (r: Value)
    ensures !IsNullish(a) ==> r == a
    ensures IsNullish(a) ==> r == b
  {
    if IsNullish(a) then b else a
  }

  /** `a || b`. */
  function Or(a: Value, b: Value): (r: Value)
    ensures Truthy(a) ==> r == a
    ensures !Truthy(a) ==> r == b
  {
    if Truthy(a) then a else b
  }

  function DigitChar(d: nat): (c: char)
    requires d < 10
    ensures IsDigit(c)
  {
    ('0' as int + d) as char
  }

  /** Decimal digits of a natural number, most significant first. */
  function NatToString(n: nat): (r: string)
    ensures r != []
    decreases n
  {
    if n < 10 then [DigitChar(n)] else NatToString(n / 10) + [DigitChar(n % 10)]
  }

  /** `String(n)` for an integer. */
  function IntToString(n: int): string
  {
    var digits := NatToString(if n < 0 then -n else n);
    if n < 0 then "-" + digits else digits
  }

  /** `String(v)` of a JSON value. `Array.prototype.join` writes `null` elements as "". */
  function ToStr(j: Json): string
    decreases j, 1
  {
    match j
    case JNull => "null"
    case JStr(s) => s
    case JNum(n) => IntToString(n)
    case JBool(b) => if b then "true" else "false"
    case JArr(es) => JoinElems(j, es)
    case JObj(_) => "[object Object]"
  }

  /** The elements of array `j` (a suffix of them, `es`) joined with ",". */
  function JoinElems(j: Json, es: seq<Json>): string
    requires forall e :: e in es ==> e < j
    decreases j, 0, |es|
  {
    if es == [] then ""
    else
      assert es[0] in es;
      var first := if es[0].JNull? then "" else ToStr(es[0]);
      assert forall e :: e in es[1..] ==> e in es;
      if |es| == 1 then first else first + "," + JoinElems(j, es[1..])
  }

  /** `String(v)` of a property read. */
  function ToStrOpt(v: Value): string
  {
    if v.None? then "undefined" else ToStr(v.value)
  }

  /** A JavaScript number restricted to the integers; `NaN` is the failed conversion. */
  datatype Num = Int(n: int) | NaN

  function DigitsValue(d: string): int
    decreases |d|
  {
    if d == [] then 0
    else DigitsValue(d[..|d| - 1]) * 10 + (d[|d| - 1] as int - '0' as int)
  }

  /** A non-empty run of decimal digits. */
  predicate AllDigits(d: string)
    decreases |d|
  {
    d != [] && IsDigit(d[|d| - 1]) && (|d| == 1 || AllDigits(d[..|d| - 1]))
  }

  /** `Number(s)` for a string in decimal integer form: blank is 0, an optional sign
      followed by digits is that integer, anything else is `NaN`. */
  function NumberOfString(s: string): Num
  {
    var t := Trim(s);
    if t == [] then Int(0)
    else if AllDigits(t) then Int(DigitsValue(t))
    else if t[0] == '+' && AllDigits(t[1..]) then Int(DigitsValue(t[1..]))
    else if t[0] == '-' && AllDigits(t[1..]) then Int(0 - DigitsValue(t[1..]))
    else NaN
  }

  /** `Number(v)`. Strings, arrays and objects convert through their string form. */
  function NumberOf(v: Value): Num
  {
    match v
    case None => NaN
    case Some(j) =>
      match j
      case JNull => Int(0)
      case JBool(b) => Int(if b then 1 else 0)
      case JNum(n) => Int(n)
      case _ => NumberOfString(ToStr(j))
  }

  /** `Number(v) || d`: `NaN` and 0 both give way to the default. */
  function NumberOr(v: Value, d: int): (r: int)
    ensures NumberOf(v).Int? && NumberOf(v).n != 0 ==> r == NumberOf(v).n
    ensures NumberOf(v) == NaN || NumberOf(v) == Int(0) ==> r == d
  {
    match NumberOf(v)
    case NaN => d
    case Int(n) => if n == 0 then d else n
  }

  lemma {:induction false} DigitsValueOfNat(n: nat)
    ensures DigitsValue(NatToString(n)) == n
    ensures AllDigits(NatToString(n))
    decreases n
  {
    if n >= 10 {
      var d := NatToString(n / 10) + [DigitChar(n % 10)];
      assert d[..|d| - 1] == NatToString(n / 10);
      DigitsValueOfNat(n / 10);
    }
  }

  /** Reading back the decimal text of an integer gives the integer: `Number(String(n)) == n`. */
  lemma NumberOfIntToString(n: int)
    ensures NumberOfString(IntToString(n)) == Int(n)
  {
    var s := IntToString(n);
    if n < 0 {
      var m: nat := -n;
      var t := "-" + NatToString(m);
      assert s == t;
      NumberOfNegativeString(m);
      assert NumberOfString(t) == Int(n);
    } else {
      assert s == NatToString(n);
      NumberOfNatString(n);
    }
  }

  lemma NumberOfNatString(n: nat)
    ensures NumberOfString(NatToString(n)) == Int(n)
  {
    var d := NatToString(n);
    NatStringIsUnpadded(n);
    TrimOfUnpadded(d);
    assert Trim(d) == d && AllDigits(d);
  }

  lemma NumberOfNegativeString(n: nat)
    requires n > 0
    ensures NumberOfString("-" + NatToString(n)) == Int(-(n as int))
  {
    var d := NatToString(n);
    var s := "-" + d;
    NatStringIsUnpadded(n);
    assert s[1..] == d;
    assert !IsSpace(s[0]) && !IsSpace(s[|s| - 1]);
    TrimOfUnpadded(s);
    NotAllDigits(s, 0);
    assert Trim(s) == s && !AllDigits(s) && s[0] == '-' && AllDigits(s[1..]);
  }

  /** The decimal text of a natural number is a run of digits with that value. */
  lemma NatStringIsUnpadded(n: nat)
    ensures var d := NatToString(n);
      AllDigits(d) && DigitsValue(d) == n && IsDigit(d[0]) && IsDigit(d[|d| - 1])
  {
    DigitsValueOfNat(n);
    AllDigitsFirst(NatToString(n));
  }

  lemma {:induction false} AllDigitsFirst(d: string)
    requires AllDigits(d)
    ensures IsDigit(d[0])
    decreases |d|
  {
    if |d| > 1 {
      AllDigitsFirst(d[..|d| - 1]);
    }
  }

  /** One non-digit spoils a run. */
  lemma {:induction false} NotAllDigits(d: string, k: int)
    requires 0 <= k < |d| && !IsDigit(d[k])
    ensures !AllDigits(d)
    decreases |d|
  {
    if k < |d| - 1 {
      NotAllDigits(d[..|d| - 1], k);
    }
  }

  /** A blank text converts to 0. */
  lemma NumberOfBlank(s: string)
    requires forall k :: 0 <= k < |s| ==> IsSpace(s[k])
    ensures NumberOfString(s) == Int(0)
  {
    TrimFacts(s);
  }

  /** `Object.entries(v)`: an object's members, an array's or string's positions, nothing
      for other values. */
  function Entries(j: Json): (r: seq<(string, Json)>)
    ensures j.JObj? ==> r == j.fields
    ensures j.JArr? ==> |r| == |j.elems| && forall i :: 0 <= i < |r| ==> r[i].1 == j.elems[i]
    ensures !j.JObj? && !j.JArr? && !j.JStr? ==> r == []
  {
    match j
    case JObj(fs) => fs
    case JArr(es) => seq(|es|, i requires 0 <= i < |es| => (IntToString(i), es[i]))
    case JStr(s) => seq(|s|, i requires 0 <= i < |s| => (IntToString(i), JStr([s[i]])))
    case _ => []
  }

  /** `Object.values(v)`. */
  function Values(j: Json): (r: seq<Json>)
    ensures |r| == |Entries(j)|
    ensures forall i :: 0 <= i < |r| ==> r[i] == Entries(j)[i].1
  {
    var es := Entries(j);
    seq(|es|, i requires 0 <= i < |es| => es[i].1)
  }

  /** `Object.keys(v)`. */
  function Keys(j: Json): (r: seq<string>)
    ensures |r| == |Entries(j)|
    ensures forall i :: 0 <= i < |r| ==> r[i] == Entries(j)[i].0
  {
    var es := Entries(j);
    seq(|es|, i requires 0 <= i < |es| => es[i].0)
  }

  /** `typeof v === "object" && v !== null`: arrays count as objects. */
  predicate IsObjectLike(v: Value)
  {
    v.Some? && (v.value.JObj? || v.value.JArr?)
  }
}
