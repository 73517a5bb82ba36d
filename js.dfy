/**
 * The slice of JavaScript semantics the console's logic leans on: dynamically typed values with
 * their truthiness (for `||` and `??`), `String(v)`, `Number(v)`, ASCII `toLowerCase`, the `\s`
 * character class, and plain objects seen as their ordered list of own entries.
 *
 * Numbers are integers here; floating point, NaN arithmetic and exponent notation are out of scope.
 */
module Js {

  import opened Wrappers

  /** A JavaScript value of the kinds that reach the metadata maps: string, number, boolean,
      `null` and `undefined`. */
  datatype JsValue = Str(s: string) | Num(n: int) | Bool(b: bool) | Null | Undef

  /** The values for which `v || d` yields `d`. */
  predicate Falsy(v: JsValue)
  {
    match v
    case Str(s) => s == ""
    case Num(n) => n == 0
    case Bool(b) => !b
    case Null => true
    case Undef => true
  }

  /** `null` and `undefined`: the values for which `v ?? d` yields `d`. */
  predicate Nullish(v: JsValue)
  {
    v.Null? || v.Undef?
  }

  /** `a || b`: one of its operands, falsy only when both are. */
  function Or(a: JsValue, b: JsValue): (r: JsValue)
    ensures r == a || r == b
    ensures Falsy(r) <==> Falsy(a) && Falsy(b)
    ensures !Falsy(a) ==> r == a
  {
    if Falsy(a) then b else a
  }

  /** `a ?? b`: one of its operands, nullish only when both are. */
  function Coalesce(a: JsValue, b: JsValue): (r: JsValue)
    ensures r == a || r == b
    ensures Nullish(r) <==> Nullish(a) && Nullish(b)
    ensures !Nullish(a) ==> r == a
  {
    if Nullish(a) then b else a
  }

  /** `a || b` and `a ?? b` part ways exactly on the falsy values that are not nullish: `""`,
      `0` and `false` are kept by `??` and replaced by `||`. */
  lemma OrVersusCoalesce(a: JsValue, b: JsValue)
    ensures Or(a, b) != Coalesce(a, b) <==> (a == Str("") || a == Num(0) || a == Bool(false)) && a != b
  {
  }

  // ---------------------------------------------------------------------------------------------
  // Decimal rendering of integers, as `String(n)` does for integral numbers.

  predicate IsDigit(c: char)
  {
    '0' <= c <= '9'
  }

  predicate AllDigits(s: string)
  {
    forall i :: 0 <= i < |s| ==> IsDigit(s[i])
  }

  function DigitChar(d: nat): (c: char)
    requires d < 10
    ensures IsDigit(c) && c as int - '0' as int == d
  {
    ('0' as int + d) as char
  }

  /** The shortest decimal spelling of `n`. */
  function NatToDecimal(n: nat): (r: string)
    ensures r != [] && AllDigits(r)
    ensures r[0] == '0' ==> n == 0
  {
    if n < 10 then [DigitChar(n)] else NatToDecimal(n / 10) + [DigitChar(n % 10)]
  }

  function IntToDecimal(n: int): (r: string)
    ensures r != []
    ensures r[0] == '-' <==> n < 0
  {
    if n < 0 then "-" + NatToDecimal(-n) else NatToDecimal(n)
  }

  /** The value of a string of decimal digits. */
  function DecimalValue(s: string): nat
    requires AllDigits(s)
  {
    if s == [] then 0 else 10 * DecimalValue(s[..|s| - 1]) + (s[|s| - 1] as int - '0' as int)
  }

  /** Reading back the decimal spelling of a natural number gives the number. */
  lemma {:induction false} DecimalRoundTrip(n: nat)
    ensures DecimalValue(NatToDecimal(n)) == n
  {
    if n >= 10 {
      var s := NatToDecimal(n);
      assert s[..|s| - 1] == NatToDecimal(n / 10);
      DecimalRoundTrip(n / 10);
    }
  }

  // ---------------------------------------------------------------------------------------------
  // String(v) and Number(v)

  /** `String(v)`; for a string, number or boolean this is also `v.toString()`. */
  function ToJsString(v: JsValue): (r: string)
    ensures r == "" <==> v == Str("")
    ensures v.Str? ==> r == v.s
  {
    match v
    case Str(s) => s
    case Num(n) => IntToDecimal(n)
    case Bool(b) => if b then "true" else "false"
    case Null => "null"
    case Undef => "undefined"
  }

  /** The characters JavaScript's `\s` class and `String.prototype.trim` treat as white space:
      the WhiteSpace and LineTerminator productions of ECMAScript. */
  predicate IsJsWhitespace(c: char)
  {
    var x := c as int;
    x == 0x09 || x == 0x0A || x == 0x0B || x == 0x0C || x == 0x0D || x == 0x20 || x == 0xA0
    || x == 0x1680 || (0x2000 <= x <= 0x200A) || x == 0x2028 || x == 0x2029 || x == 0x202F
    || x == 0x205F || x == 0x3000 || x == 0xFEFF
  }

  function TrimStart(s: string): string
  {
    if s != [] && IsJsWhitespace(s[0]) then TrimStart(s[1..]) else s
  }

  function TrimEnd(s: string): string
  {
    if s != [] && IsJsWhitespace(s[|s| - 1]) then TrimEnd(s[..|s| - 1]) else s
  }

  /** A JavaScript number restricted to integers, plus NaN. */
  datatype JsNumber = Finite(n: int) | NaN

  /** The decimal spelling of an integer is left alone by trimming, and reads as an unsigned
      run of digits (for `n >= 0`) or as `-` followed by one (for `n < 0`). */
  lemma {:induction false} DecimalSpelling(n: int)
    ensures TrimEnd(TrimStart(IntToDecimal(n))) == IntToDecimal(n)
    ensures n >= 0 ==> AllDigits(IntToDecimal(n)) && DecimalValue(IntToDecimal(n)) == n
    ensures n < 0 ==> var s := IntToDecimal(n);
                      && !AllDigits(s) && s[0] == '-' && |s| > 1 && AllDigits(s[1..])
                      && DecimalValue(s[1..]) == -n
  {
    var s := IntToDecimal(n);
    var d := NatToDecimal(if n < 0 then -n else n);
    assert s[|s| - 1] == d[|d| - 1] && IsDigit(d[|d| - 1]);
    assert !IsJsWhitespace(s[0]) by {
      assert s[0] == '-' || s[0] == d[0];
      assert IsDigit(d[0]);
    }
    assert TrimStart(s) == s;
    assert TrimEnd(s) == s;
    if n < 0 {
      assert s[1..] == d;
      assert !AllDigits(s) by { assert !IsDigit(s[0]); }
      DecimalRoundTrip(-n);
    } else {
      DecimalRoundTrip(n);
    }
  }

  /** `Number(s)` for strings: white space is trimmed, the empty string is 0, and an optionally
      signed run of decimal digits is its value. Every other spelling (fractions, exponents,
      hexadecimal, `Infinity`) is NaN in this model. The decimal spelling of any integer reads
      back as that integer, so `Number(String(n)) == n`. */
  function StringToNumber(s: string): (r: JsNumber)
    ensures s == "" ==> r == Finite(0)
    ensures forall n: int :: s == IntToDecimal(n) ==> r == Finite(n)
  {
    var t := TrimEnd(TrimStart(s));
    assert forall n: int :: s == IntToDecimal(n) ==>
             t == s && (n >= 0 ==> AllDigits(t) && DecimalValue(t) == n)
             && (n < 0 ==> !AllDigits(t) && t[0] == '-' && |t| > 1 && AllDigits(t[1..]) && DecimalValue(t[1..]) == -n)
    by {
      forall n: int | s == IntToDecimal(n)
        ensures t == s && (n >= 0 ==> AllDigits(t) && DecimalValue(t) == n)
                && (n < 0 ==> !AllDigits(t) && t[0] == '-' && |t| > 1 && AllDigits(t[1..]) && DecimalValue(t[1..]) == -n)
      {
        DecimalSpelling(n);
      }
    }
    if t == "" then Finite(0)
    else if AllDigits(t) then Finite(DecimalValue(t))
    else if (t[0] == '-' || t[0] == '+') && |t| > 1 && AllDigits(t[1..]) then
      Finite(if t[0] == '-' then 0 - DecimalValue(t[1..]) as int else DecimalValue(t[1..]))
    else NaN
  }

  /** `Number(v)`: a number is itself, `""`, `null` and `false` are 0, `true` is 1, `undefined`
      is NaN, and a string holding the decimal spelling of an integer is that integer. */
  function ToNumber(v: JsValue): (r: JsNumber)
    ensures v.Num? ==> r == Finite(v.n)
    ensures v == Str("") || v.Null? || v == Bool(false) ==> r == Finite(0)
    ensures v.Undef? ==> r == NaN
    ensures forall n: int :: v == Str(IntToDecimal(n)) ==> r == Finite(n)
  {
    match v
    case Str(s) => StringToNumber(s)
    case Num(n) => Finite(n)
    case Bool(b) => Finite(if b then 1 else 0)
    case Null => Finite(0)
    case Undef => NaN
  }

  // ---------------------------------------------------------------------------------------------
  // Characters

  /** `toLowerCase` restricted to ASCII: `A`..`Z` map to `a`..`z`, everything else is kept. */
  function AsciiLower(c: char): char
  {
    if 'A' <= c <= 'Z' then (c as int + 32) as char else c
  }

  /** The class `[a-z0-9]`. */
  predicate IsLowerAlnum(c: char)
  {
    ('a' <= c <= 'z') || IsDigit(c)
  }

  // ---------------------------------------------------------------------------------------------
  // Plain objects, as the ordered list of their own entries (the order `Object.entries` reports).

  type Record = seq<(string, JsValue)>

  /** The set of own property names. */
  function Keys(m: Record): set<string>
  {
    if m == [] then {} else {m[0].0} + Keys(m[1..])
  }

  /** `m[k]`: the value of the first entry named `k`, or `undefined` when there is none. */
  function Get(m: Record, k: string): (r: JsValue)
    ensures (forall i :: 0 <= i < |m| ==> m[i].0 != k) ==> r == Undef
    ensures forall i :: 0 <= i < |m| && m[i].0 == k && (forall j :: 0 <= j < i ==> m[j].0 != k) ==> r == m[i].1
  {
    if m == [] then Undef
    else if m[0].0 == k then m[0].1
    else
      assert forall i :: 1 <= i < |m| ==> m[i] == m[1..][i - 1];
      Get(m[1..], k)
  }

  /** An object never has two own properties of the same name. */
  predicate DistinctKeys(m: Record)
  {
    forall i, j :: 0 <= i < j < |m| ==> m[i].0 != m[j].0
  }

  /** `{...m, [k]: v}`: an existing property keeps its place and takes the new value; a new one
      goes last. */
  function Put(m: Record, k: string, v: JsValue): (r: Record)
    ensures Get(r, k) == v
    ensures forall k' :: k' != k ==> Get(r, k') == Get(m, k')
    ensures Keys(r) == Keys(m) + {k}
    ensures k !in Keys(m) ==> r == m + [(k, v)]
    ensures k in Keys(m) ==> |r| == |m|
  {
    if m == [] then [(k, v)]
    else if m[0].0 == k then [(k, v)] + m[1..]
    else [m[0]] + Put(m[1..], k, v)
  }

  /** Writing a property moves none: every entry keeps its name and place, and entries of other
      names keep their values. */
  lemma {:induction false} PutKeepsPlaces(m: Record, k: string, v: JsValue)
    ensures |Put(m, k, v)| >= |m|
    ensures forall i :: 0 <= i < |m| ==> Put(m, k, v)[i].0 == m[i].0
    ensures forall i :: 0 <= i < |m| && m[i].0 != k ==> Put(m, k, v)[i] == m[i]
  {
    if m != [] && m[0].0 != k {
      PutKeepsPlaces(m[1..], k, v);
      assert Put(m, k, v)[1..] == Put(m[1..], k, v);
    }
  }

  /** An object written to still has distinct property names. */
  lemma PutKeepsDistinct(m: Record, k: string, v: JsValue)
    requires DistinctKeys(m)
    ensures DistinctKeys(Put(m, k, v))
  {
    PutKeepsPlaces(m, k, v);
    if k !in Keys(m) {
      forall i | 0 <= i < |m| ensures m[i].0 != k {
        KeysMembership(m, k);
      }
    }
  }

  lemma {:induction false} KeysMembership(m: Record, k: string)
    ensures k in Keys(m) <==> exists i :: 0 <= i < |m| && m[i].0 == k
  {
    if m != [] {
      KeysMembership(m[1..], k);
      if k in Keys(m[1..]) {
        var i :| 0 <= i < |m[1..]| && m[1..][i].0 == k;
        assert m[i + 1].0 == k;
      }
      if exists i :: 0 <= i < |m| && m[i].0 == k {
        var i :| 0 <= i < |m| && m[i].0 == k;
        if i > 0 {
          assert m[1..][i - 1].0 == k;
        }
      }
    }
  }

  /** A name that is not an own property reads as `undefined`. */
  lemma {:induction false} GetAbsent(m: Record, k: string)
    requires k !in Keys(m)
    ensures Get(m, k) == Undef
  {
    if m != [] {
      GetAbsent(m[1..], k);
    }
  }

  // ---------------------------------------------------------------------------------------------
  // Arrays

  /** `xs.find(p)`: the first element satisfying `p`, or `undefined` (here `None`). */
  function Find<T>(xs: seq<T>, p: T -> bool): (r: Option<T>)
    ensures r.None? <==> forall k :: 0 <= k < |xs| ==> !p(xs[k])
    ensures r.Some? ==> exists k :: 0 <= k < |xs| && xs[k] == r.value && p(r.value)
                          && forall j :: 0 <= j < k ==> !p(xs[j])
  {
    if xs == [] then None
    else if p(xs[0]) then Some(xs[0])
    else
      var r := Find(xs[1..], p);
      assert r.Some? ==> exists k :: 0 <= k < |xs| && xs[k] == r.value && p(r.value)
                          && forall j :: 0 <= j < k ==> !p(xs[j]) by {
        if r.Some? {
          var k :| 0 <= k < |xs[1..]| && xs[1..][k] == r.value && p(r.value)
                   && forall j :: 0 <= j < k ==> !p(xs[1..][j]);
          assert xs[k + 1] == r.value;
          assert forall j :: 0 <= j < k + 1 ==> !p(xs[j]) by {
            forall j | 0 <= j < k + 1 ensures !p(xs[j]) {
              if j > 0 { assert xs[j] == xs[1..][j - 1]; }
            }
          }
        }
      }
      r
  }
}
