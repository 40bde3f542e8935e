/** The query-builder vocabulary both drivers share: the entries of their
    `$where`, `$whereNot`, `$whereIn` and `$order` lists, how `where` and
    `whereIn` turn their arguments into entries, how a criterion's value is
    encoded, and how `insert` splits its argument into single inserts. The
    two drivers carry identical copies of this code; it is stated once here. */
module Criteria {
  import opened Wrappers
  import opened Common

  /** The messages both drivers throw. */
  const LayoutNotSet := "Layout not set"
  const PrimaryKeyNotSet := "Primary key field not set"

  /** The message `value` throws for a missing field. */
  function FieldNotFound(field: string): string
  {
    "Field '" + field + "' not found"
  }

  /** An entry of `$where` (operator present) or of `$whereNot` (no operator). */
  datatype Criterion = Criterion(field: string, operator: Option<string>, value: string)

  /** An entry of `$whereIn`: one field and the values it may take. */
  datatype Inclusion = Inclusion(field: string, values: seq<string>)

  /** An entry of `$order`. */
  datatype SortRule = SortRule(field: string, order: string)

  const ExactMatch := "=="
  const NotEqual := "!="
  const Ascending := "asc"
  const Descending := "desc"

  /** Where a `where` call puts its criterion. */
  datatype Routed = ToWhere(criterion: Criterion) | ToWhereNot(criterion: Criterion)

  /** `where(field, operator, value)`: without a value the second argument is
      the value and the operator is '=='; the operator '!=' sends the field
      and value to `whereNot`; any other operator, null included, is stored
      with the value. A null value reads as the empty string wherever a
      criterion is encoded, so it is the empty string here. */
  function RouteWhere(field: string, operator: Option<string>, value: Option<string>): Routed
  {
    var op := if value.None? then Some(ExactMatch) else operator;
    var v := if value.Some? then value.value else if operator.Some? then operator.value else "";
    if op == Some(NotEqual) then ToWhereNot(Criterion(field, None, v))
    else ToWhere(Criterion(field, op, v))
  }

  /** The two-argument form stores an exact-match criterion whose encoded
      value is '==' followed by the value; that holds even when the value is
      the string '!=', which therefore does not become an exclusion. */
  lemma TwoArgumentWhere(field: string, v: string)
    ensures RouteWhere(field, Some(v), None) == ToWhere(Criterion(field, Some(ExactMatch), v))
    ensures EvaluateEmptyValue(RouteWhere(field, Some(v), None).criterion) == "==" + v
  {
  }

  /** A null operator with a value is stored without an operator, so the
      raw value is sent, as for an exclusion; `where(field, null)` matches
      the empty value. */
  lemma NullOperatorWhere(field: string, v: string)
    ensures RouteWhere(field, None, Some(v)) == ToWhere(Criterion(field, None, v))
    ensures EvaluateEmptyValue(RouteWhere(field, None, Some(v)).criterion) == v
    ensures EvaluateEmptyValue(RouteWhere(field, None, None).criterion) == ExactMatch
  {
  }

  /** A criterion goes to `whereNot` exactly when a value was given and the
      operator is '!='; it then carries no operator, so its raw value is sent.
      A criterion kept in `where` lacks an operator exactly when a value came
      with a null operator. */
  lemma WhereExclusionRouting(field: string, operator: Option<string>, value: Option<string>)
    ensures RouteWhere(field, operator, value).ToWhereNot? <==> value.Some? && operator == Some(NotEqual)
    ensures RouteWhere(field, operator, value).ToWhereNot? ==>
              RouteWhere(field, operator, value).criterion == Criterion(field, None, value.value)
    ensures RouteWhere(field, operator, value).ToWhere? ==>
              (RouteWhere(field, operator, value).criterion.operator.None? <==> value.Some? && operator.None?)
    ensures RouteWhere(field, operator, value).criterion.field == field
  {
  }

  /** The second argument of `whereIn`: a list, or a string or number that
      the call wraps into a one-element list (a number as its string form). */
  datatype InValues = List(items: seq<string>) | Single(item: string)

  /** PHP's `empty()` on the argument. */
  predicate IsEmptyArgument(values: InValues)
  {
    match values
    case List(items) => items == []
    case Single(s) => IsEmptyString(s)
  }

  /** The entry `whereIn(field, values)` appends, or None when the call is a
      no-op because the argument is empty. */
  function InclusionFor(field: string, values: InValues): (r: Option<Inclusion>)
    ensures r.None? <==> IsEmptyArgument(values)
    ensures r.Some? ==> r.value.field == field && r.value.values != []
    ensures r.Some? && values.Single? ==> r.value.values == [values.item]
    ensures r.Some? && values.List? ==> r.value.values == values.items
  {
    if IsEmptyArgument(values) then None
    else match values
      case List(items) => Some(Inclusion(field, items))
      case Single(s) => Some(Inclusion(field, [s]))
  }

  /** Every `$whereIn` entry has at least one value: `whereIn` never appends
      an empty list. */
  predicate NonEmptyInclusions(whereIn: seq<Inclusion>)
  {
    forall i :: 0 <= i < |whereIn| ==> whereIn[i].values != []
  }

  /** `evaluateEmptyValue`: a criterion with an operator is sent as the
      operator followed by the value, one without as the raw value. The
      branch that would send '=' for a null trimmed value can never fire,
      since trimming a string never yields null, so it is absent here. */
  function EvaluateEmptyValue(c: Criterion): string
  {
    if c.operator.Some? then c.operator.value + c.value else c.value
  }

  /** Each criterion's field with its encoded value, in list order. */
  function EvaluatedPairs(cs: seq<Criterion>): (r: seq<(string, string)>)
    ensures |r| == |cs|
    ensures forall i :: 0 <= i < |cs| ==> r[i] == (cs[i].field, EvaluateEmptyValue(cs[i]))
  {
    seq(|cs|, i requires 0 <= i < |cs| => (cs[i].field, EvaluateEmptyValue(cs[i])))
  }

  /** Encoding one more criterion extends the encoded list by one pair. */
  lemma EvaluatedPairsStep(cs: seq<Criterion>, i: nat)
    requires i < |cs|
    ensures EvaluatedPairs(cs[..i + 1]) == EvaluatedPairs(cs[..i]) + [(cs[i].field, EvaluateEmptyValue(cs[i]))]
  {
  }

  /** PHP's `empty()` on `$take`, which starts out null. */
  predicate IsEmptyTake(take: Option<int>)
  {
    take.None? || take.value == 0
  }

  /** Whether `formatResults` copies a property (both drivers): every property when no
      field is plucked (an empty pluck), otherwise only the plucked one. */
  predicate Keeps(pluck: string, key: string)
  {
    IsEmptyString(pluck) || key == pluck
  }

  /** A reordering of `n` items: the positions 0 .. n-1, each exactly once. */
  predicate IsPermutation(p: seq<nat>, n: nat)
  {
    |p| == n &&
    (forall i :: 0 <= i < n ==> p[i] < n) &&
    (forall i, j :: 0 <= i < j < n ==> p[i] != p[j])
  }

  /** The collection's `shuffle()`, a source of randomness, taken as a
      parameter: for each length, the positions in the order it lists them. */
  ghost predicate IsShuffle(shuffle: nat -> seq<nat>)
  {
    forall n: nat :: IsPermutation(shuffle(n), n)
  }

  /** The order in which `get` lists `n` normalised records: the shuffle's
      when random order is set, the backend's otherwise. */
  function Arrangement(randomOrder: bool, shuffle: nat -> seq<nat>, n: nat): (p: seq<nat>)
    requires IsShuffle(shuffle)
    ensures IsPermutation(p, n)
    ensures randomOrder ==> p == shuffle(n)
    ensures !randomOrder ==> forall i :: 0 <= i < n ==> p[i] == i
  {
    if randomOrder then shuffle(n) else seq(n, i requires 0 <= i < n => i)
  }

  /** `shuffle()` applied to a collection: its items listed in the order `p`.
      Distinct items stay distinct, since `p` names each position once. */
  method Listed<T(==)>(items: seq<T>, p: seq<nat>) returns (listed: seq<T>)
    requires IsPermutation(p, |items|)
    ensures |listed| == |items|
    ensures forall i :: 0 <= i < |items| ==> listed[i] == items[p[i]]
    ensures (forall i, j :: 0 <= i < j < |items| ==> items[i] != items[j]) ==>
              forall i, j :: 0 <= i < j < |items| ==> listed[i] != listed[j]
  {
    listed := [];
    for i := 0 to |items|
      invariant |listed| == i
      invariant forall k :: 0 <= k < i ==> listed[k] == items[p[k]]
    {
      listed := listed + [items[p[i]]];
    }
  }

  /** The number of (field, value) combinations the inclusions expand to. */
  function TotalValues(whereIn: seq<Inclusion>): nat
  {
    if whereIn == [] then 0
    else TotalValues(whereIn[..|whereIn| - 1]) + |whereIn[|whereIn| - 1].values|
  }

  /** TotalValues adds up over concatenation. */
  lemma {:induction false} TotalValuesAppend(a: seq<Inclusion>, b: seq<Inclusion>)
    ensures TotalValues(a + b) == TotalValues(a) + TotalValues(b)
    decreases |b|
  {
    if b == [] {
      assert a + b == a;
    } else {
      var n := |b| - 1;
      assert (a + b)[..|a + b| - 1] == a + b[..n];
      TotalValuesAppend(a, b[..n]);
    }
  }

  /** With every inclusion non-empty, the inclusions expand to at least one
      combination per entry. */
  lemma {:induction false} TotalValuesBound(whereIn: seq<Inclusion>)
    requires NonEmptyInclusions(whereIn)
    ensures TotalValues(whereIn) >= |whereIn|
    decreases |whereIn|
  {
    if whereIn != [] {
      TotalValuesBound(whereIn[..|whereIn| - 1]);
    }
  }

  /** One element of `insert`'s argument: a nested array (one record's
      fields) or a scalar (the argument is then a single record). */
  datatype Entry = Scalar(value: Value) | Nested(fields: seq<(string, Value)>)

  /** A field list with every value a scalar. */
  function AsEntries(fields: seq<(string, Value)>): (r: seq<(string, Entry)>)
    ensures |r| == |fields|
    ensures forall i :: 0 <= i < |fields| ==> r[i] == (fields[i].0, Scalar(fields[i].1))
  {
    seq(|fields|, i requires 0 <= i < |fields| => (fields[i].0, Scalar(fields[i].1)))
  }

  /** The single inserts `insert($data)` performs, in order: each nested
      array is one record; at the first scalar the whole argument is inserted
      as one record and the loop stops. */
  function InsertPlan(data: seq<(string, Entry)>): seq<seq<(string, Entry)>>
  {
    PlanFrom(data, data)
  }

  function PlanFrom(data: seq<(string, Entry)>, rest: seq<(string, Entry)>): seq<seq<(string, Entry)>>
    decreases |rest|
  {
    if rest == [] then []
    else match rest[0].1
      case Nested(fields) => [AsEntries(fields)] + PlanFrom(data, rest[1..])
      case Scalar(_) => [data]
  }

  /** When every element is a nested array, one insert per element, in order. */
  lemma {:induction false} InsertPlanOfRecordList(data: seq<(string, Entry)>)
    requires forall i :: 0 <= i < |data| ==> data[i].1.Nested?
    ensures |InsertPlan(data)| == |data|
    ensures forall i :: 0 <= i < |data| ==> InsertPlan(data)[i] == AsEntries(data[i].1.fields)
  {
    PlanFromRecords(data, data);
  }

  lemma {:induction false} PlanFromRecords(data: seq<(string, Entry)>, rest: seq<(string, Entry)>)
    requires forall i :: 0 <= i < |rest| ==> rest[i].1.Nested?
    ensures |PlanFrom(data, rest)| == |rest|
    ensures forall i :: 0 <= i < |rest| ==> PlanFrom(data, rest)[i] == AsEntries(rest[i].1.fields)
    decreases |rest|
  {
    if rest != [] {
      PlanFromRecords(data, rest[1..]);
    }
  }

  /** A single record (first element a scalar) is inserted once, whole. */
  lemma InsertPlanOfSingleRecord(data: seq<(string, Entry)>)
    requires data != [] && data[0].1.Scalar?
    ensures InsertPlan(data) == [data]
  {
  }

  /** There is never more than one insert per element, and an empty argument
      inserts nothing. */
  lemma {:induction false} InsertPlanBound(data: seq<(string, Entry)>)
    ensures |InsertPlan(data)| <= |data|
    ensures InsertPlan(data) == [] <==> data == []
  {
    PlanFromBound(data, data);
  }

  lemma {:induction false} PlanFromBound(data: seq<(string, Entry)>, rest: seq<(string, Entry)>)
    ensures |PlanFrom(data, rest)| <= |rest|
    ensures PlanFrom(data, rest) == [] <==> rest == []
    decreases |rest|
  {
    if rest != [] {
      PlanFromBound(data, rest[1..]);
    }
  }
}
