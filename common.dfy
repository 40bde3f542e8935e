/** Option and Result, used for PHP's null and for thrown exceptions. */
module Wrappers {

  datatype Option<+T> = None | Some(value: T)

  datatype Result<+T, +E> = Success(value: T) | Failure(error: E)
}

/** The PHP-level vocabulary the drivers share: scalar values, the failures
    they surface, PHP's `empty()` and `strtolower()`, and the "assign keys in
    order, later wins" behaviour of setting properties on an object. */
module Common {
  import opened Wrappers

  /** A scalar as the library passes it around: record fields, configuration
      entries, record identifiers. */
  datatype Value = Null | Text(text: string) | Number(number: int) | Bool(flag: bool)

  /** What a failing call ends in: a thrown FileMakerConnectionException
      (message and code), the REST driver's dump-and-die, which halts the
      process after printing the message, or a connector exception that the
      native driver lets through unwrapped (message and code). */
  datatype Failure =
    | ConnectionError(message: string, code: int)
    | Halted(output: string)
    | Uncaught(message: string, code: int)

  /** PHP's `empty()` on a string: the empty string and "0". */
  predicate IsEmptyString(s: string)
  {
    s == "" || s == "0"
  }

  /** PHP's `empty()` on a scalar. */
  predicate IsEmptyValue(v: Value)
  {
    match v
    case Null => true
    case Text(s) => IsEmptyString(s)
    case Number(n) => n == 0
    case Bool(b) => !b
  }

  /** PHP's `isset()` on a property holding `v`. */
  predicate IsSet(v: Value)
  {
    v != Null
  }

  function Lookup<K, V>(m: map<K, V>, k: K): Option<V>
  {
    if k in m then Some(m[k]) else None
  }

  /** The value of the last pair whose key is `k`. */
  function LastFor<K(==), V>(pairs: seq<(K, V)>, k: K): Option<V>
  {
    if pairs == [] then None
    else if pairs[|pairs| - 1].0 == k then Some(pairs[|pairs| - 1].1)
    else LastFor(pairs[..|pairs| - 1], k)
  }

  /** Sets each pair on `m` in order, as `$obj->{$key} = $value` in a loop. */
  function Assign<K(==), V>(m: map<K, V>, pairs: seq<(K, V)>): map<K, V>
  {
    if pairs == [] then m
    else Assign(m, pairs[..|pairs| - 1])[pairs[|pairs| - 1].0 := pairs[|pairs| - 1].1]
  }

  /** After assigning the pairs, a key holds the value of the last pair that
      names it, and keeps its earlier value (or stays absent) otherwise. */
  lemma {:induction false} AssignLookup<K, V>(m: map<K, V>, pairs: seq<(K, V)>, k: K)
    ensures Lookup(Assign(m, pairs), k) == if LastFor(pairs, k).Some? then LastFor(pairs, k) else Lookup(m, k)
    decreases |pairs|
  {
    if pairs != [] {
      AssignLookup(m, pairs[..|pairs| - 1], k);
    }
  }

  /** Assigning one more pair extends the fold by that pair. */
  lemma AssignSnoc<K, V>(m: map<K, V>, pairs: seq<(K, V)>, p: (K, V))
    ensures Assign(m, pairs + [p]) == Assign(m, pairs)[p.0 := p.1]
  {
    assert (pairs + [p])[..|pairs|] == pairs;
  }

  /** PHP's `strtolower()`: ASCII letters only. */
  function LowerChar(c: char): (r: char)
    ensures 'A' <= c <= 'Z' ==> r as int == c as int + 32
    ensures !('A' <= c <= 'Z') ==> r == c
  {
    if 'A' <= c <= 'Z' then (c as int + 32) as char else c
  }

  function Lower(s: string): (r: string)
    ensures |r| == |s|
    ensures forall i :: 0 <= i < |s| ==> r[i] == LowerChar(s[i])
  {
    seq(|s|, i requires 0 <= i < |s| => LowerChar(s[i]))
  }

  /** Lowering is idempotent, so an already lower-case name is its own key. */
  lemma LowerIdempotent(s: string)
    ensures Lower(Lower(s)) == Lower(s)
  {
  }

  /** The number a string of decimal digits denotes, most significant first. */
  function DigitValue(s: string): int
  {
    if s == [] then 0 else DigitValue(s[..|s| - 1]) * 10 + (s[|s| - 1] as int - '0' as int)
  }

  /** Decimal digits of a non-negative integer, as PHP's string conversion:
      they denote `n`, and only zero itself starts with '0'. */
  function Digits(n: nat): (r: string)
    ensures |r| >= 1
    ensures forall i :: 0 <= i < |r| ==> '0' <= r[i] <= '9'
    ensures DigitValue(r) == n
    ensures r[0] == '0' <==> n == 0
    decreases n
  {
    var d := ['0' + (n % 10) as char];
    if n < 10 then d
    else
      var r := Digits(n / 10) + d;
      assert r[..|r| - 1] == Digits(n / 10);
      r
  }

  /** PHP's string conversion of a scalar, as used when a configuration
      value is concatenated into a URL. */
  function TextOf(v: Value): string
  {
    match v
    case Null => ""
    case Text(s) => s
    case Number(n) => if n < 0 then "-" + Digits(-n) else Digits(n)
    case Bool(b) => if b then "1" else ""
  }
}
