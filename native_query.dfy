/** The native driver's compiled command (src/Drivers/FMPHP.php): the choice
    between a simple and a compound find, the numbered sub-requests of a
    compound find, the range and the sort rules, as the driver hands them to
    the connector. The connector itself is not modelled: a command is the
    record of the calls made on it. */
module NativeQuery {
  import opened Wrappers
  import opened Common
  import opened Criteria

  /** The connector's "no records match" error code. */
  const NoRecordsCode := 401

  /** One `addFindCriterion(field, value)` call. */
  type FindCriterion = (string, string)

  /** A find request of a compound find: its criteria in call order, and
      whether `setOmit(true)` was called on it. */
  datatype FindRequest = FindRequest(criteria: seq<FindCriterion>, omit: bool)

  /** `$this->query->add($this->count, $find)`. */
  datatype NumberedRequest = NumberedRequest(index: nat, request: FindRequest)

  datatype Direction = SortAscend | SortDescend

  /** `addSortRule(field, precedence, direction)`. */
  datatype SortSpec = SortSpec(field: string, precedence: nat, direction: Direction)

  /** `setRange(skip, take)`. */
  datatype Range = Range(skip: int, take: Option<int>)

  /** The command `$this->query` holds: none yet, a simple find, a compound
      find, or an add command (left there by `insert`). */
  datatype Command =
    | NoCommand
    | FindCommand(layout: string, criteria: seq<FindCriterion>, range: Option<Range>, sorts: seq<SortSpec>)
    | CompoundFindCommand(layout: string, requests: seq<NumberedRequest>, range: Option<Range>, sorts: seq<SortSpec>)
    | AddCommand(layout: string, fields: seq<(string, Entry)>)

  /** `NEW_FIND_COMMAND` or `NEW_COMPOUND_FIND_COMMAND`. */
  datatype CommandKind = NewFind | NewCompoundFind

  /** `setCommand`: the simple find exactly when there is no exclusion and
      no inclusion, whatever the `where` list holds. */
  function CommandFor(whereNot: seq<Criterion>, whereIn: seq<Inclusion>): CommandKind
  {
    if whereNot == [] && whereIn == [] then NewFind else NewCompoundFind
  }

  /** The freshly created command of that kind, for the layout. */
  function NewCommand(kind: CommandKind, layout: string): Command
  {
    match kind
    case NewFind => FindCommand(layout, [], None, [])
    case NewCompoundFind => CompoundFindCommand(layout, [], None, [])
  }

  /** The request holding every `where` criterion. */
  function AndRequest(where: seq<Criterion>): FindRequest
  {
    FindRequest(EvaluatedPairs(where), false)
  }

  /** The request for one inclusion value: the raw value first, then every
      `where` criterion. */
  function InclusionRequest(field: string, value: string, where: seq<Criterion>): FindRequest
  {
    FindRequest([(field, value)] + EvaluatedPairs(where), false)
  }

  function ValueRequests(inc: Inclusion, where: seq<Criterion>): (r: seq<FindRequest>)
    ensures |r| == |inc.values|
    ensures forall k :: 0 <= k < |r| ==> r[k] == InclusionRequest(inc.field, inc.values[k], where)
  {
    seq(|inc.values|, k requires 0 <= k < |inc.values| => InclusionRequest(inc.field, inc.values[k], where))
  }

  /** The requests for every inclusion, in order. */
  function InclusionRequests(whereIn: seq<Inclusion>, where: seq<Criterion>): seq<FindRequest>
  {
    if whereIn == [] then []
    else InclusionRequests(whereIn[..|whereIn| - 1], where) + ValueRequests(whereIn[|whereIn| - 1], where)
  }

  /** The omitting request for one exclusion. */
  function OmitRequest(c: Criterion): FindRequest
  {
    FindRequest([(c.field, EvaluateEmptyValue(c))], true)
  }

  function OmitRequests(whereNot: seq<Criterion>): (r: seq<FindRequest>)
    ensures |r| == |whereNot|
    ensures forall k :: 0 <= k < |r| ==> r[k] == OmitRequest(whereNot[k])
  {
    seq(|whereNot|, k requires 0 <= k < |whereNot| => OmitRequest(whereNot[k]))
  }

  /** Whether `processWhereClauses` adds the request of all criteria to a
      compound find. */
  predicate HasAndRequest(where: seq<Criterion>, whereIn: seq<Inclusion>)
  {
    where != [] && whereIn == []
  }

  /** The requests `buildQuery` adds to a compound find, before numbering:
      the AND request, then the inclusion requests, then the omit requests. */
  function CompoundRequests(where: seq<Criterion>, whereNot: seq<Criterion>, whereIn: seq<Inclusion>): seq<FindRequest>
  {
    (if HasAndRequest(where, whereIn) then [AndRequest(where)] else [])
    + InclusionRequests(whereIn, where)
    + OmitRequests(whereNot)
  }

  /** The requests numbered consecutively from `start`. */
  function Numbered(requests: seq<FindRequest>, start: nat): (r: seq<NumberedRequest>)
    ensures |r| == |requests|
    ensures forall i :: 0 <= i < |r| ==> r[i] == NumberedRequest(start + i, requests[i])
  {
    seq(|requests|, i requires 0 <= i < |requests| => NumberedRequest(start + i, requests[i]))
  }

  /** Numbering continues where the previous numbering stopped: numbering two
      batches from a shared counter is numbering their concatenation. */
  lemma NumberedAppend(a: seq<FindRequest>, b: seq<FindRequest>, start: nat)
    ensures Numbered(a, start) + Numbered(b, start + |a|) == Numbered(a + b, start)
  {
    var lhs := Numbered(a, start) + Numbered(b, start + |a|);
    var rhs := Numbered(a + b, start);
    forall i | 0 <= i < |rhs|
      ensures lhs[i] == rhs[i]
    {
      if i >= |a| {
        assert lhs[i] == Numbered(b, start + |a|)[i - |a|];
      }
    }
  }

  /** Indices of successive requests are consecutive, so no two share one. */
  lemma NumberedIndicesDistinct(requests: seq<FindRequest>, start: nat)
    ensures forall i, j :: 0 <= i < j < |requests| ==>
              Numbered(requests, start)[j].index == Numbered(requests, start)[i].index + (j - i)
    ensures forall i, j :: 0 <= i < j < |requests| ==>
              Numbered(requests, start)[i].index != Numbered(requests, start)[j].index
  {
  }

  lemma {:induction false} InclusionRequestsLength(whereIn: seq<Inclusion>, where: seq<Criterion>)
    ensures |InclusionRequests(whereIn, where)| == TotalValues(whereIn)
    decreases |whereIn|
  {
    if whereIn != [] {
      InclusionRequestsLength(whereIn[..|whereIn| - 1], where);
    }
  }

  /** Taking one more inclusion adds its value requests and its values. */
  lemma InclusionRequestsStep(whereIn: seq<Inclusion>, where: seq<Criterion>, i: nat)
    requires i < |whereIn|
    ensures InclusionRequests(whereIn[..i + 1], where) == InclusionRequests(whereIn[..i], where) + ValueRequests(whereIn[i], where)
    ensures TotalValues(whereIn[..i + 1]) == TotalValues(whereIn[..i]) + |whereIn[i].values|
  {
    assert whereIn[..i + 1][..i] == whereIn[..i];
  }

  /** A compound find gets [one AND request if there are criteria and no
      inclusion] + (one request per inclusion value) + (one per exclusion). */
  lemma CompoundRequestsLength(where: seq<Criterion>, whereNot: seq<Criterion>, whereIn: seq<Inclusion>)
    ensures |CompoundRequests(where, whereNot, whereIn)|
            == (if HasAndRequest(where, whereIn) then 1 else 0) + TotalValues(whereIn) + |whereNot|
  {
    InclusionRequestsLength(whereIn, where);
  }

  /** Numbering one more inclusion's requests on from where the earlier
      inclusions' numbering stopped extends the numbering of them all. */
  lemma InclusionNumberingStep(whereIn: seq<Inclusion>, where: seq<Criterion>, i: nat, start: nat)
    requires i < |whereIn|
    ensures Numbered(InclusionRequests(whereIn[..i], where), start)
            + Numbered(ValueRequests(whereIn[i], where), start + TotalValues(whereIn[..i]))
            == Numbered(InclusionRequests(whereIn[..i + 1], where), start)
    ensures TotalValues(whereIn[..i + 1]) == TotalValues(whereIn[..i]) + |whereIn[i].values|
  {
    InclusionRequestsStep(whereIn, where, i);
    InclusionRequestsLength(whereIn[..i], where);
    NumberedAppend(InclusionRequests(whereIn[..i], where), ValueRequests(whereIn[i], where), start);
  }

  /** Numbering the AND request, the inclusion requests and the omit requests
      in three batches from a shared counter numbers the whole compound find. */
  lemma CompoundNumbering(where: seq<Criterion>, whereNot: seq<Criterion>, whereIn: seq<Inclusion>, start: nat)
    ensures var added := if HasAndRequest(where, whereIn) then [AndRequest(where)] else [];
            Numbered(added, start) + Numbered(InclusionRequests(whereIn, where), start + |added|)
            + Numbered(OmitRequests(whereNot), start + |added| + TotalValues(whereIn))
            == Numbered(CompoundRequests(where, whereNot, whereIn), start)
  {
    var added := if HasAndRequest(where, whereIn) then [AndRequest(where)] else [];
    var inclusions := InclusionRequests(whereIn, where);
    InclusionRequestsLength(whereIn, where);
    NumberedAppend(added, inclusions, start);
    NumberedAppend(added + inclusions, OmitRequests(whereNot), start);
  }

  /** No inclusion request omits. */
  lemma {:induction false} InclusionRequestsKeep(whereIn: seq<Inclusion>, where: seq<Criterion>)
    ensures forall k :: 0 <= k < |InclusionRequests(whereIn, where)| ==> !InclusionRequests(whereIn, where)[k].omit
    decreases |whereIn|
  {
    if whereIn != [] {
      InclusionRequestsKeep(whereIn[..|whereIn| - 1], where);
    }
  }

  /** A request omits exactly when it is one of the last |whereNot|: the
      exclusions come last, one each, in call order. */
  lemma CompoundOmitIffExclusion(where: seq<Criterion>, whereNot: seq<Criterion>, whereIn: seq<Inclusion>)
    ensures var rs := CompoundRequests(where, whereNot, whereIn);
            forall i :: 0 <= i < |rs| ==> (rs[i].omit <==> i >= |rs| - |whereNot|)
    ensures var rs := CompoundRequests(where, whereNot, whereIn);
            forall k :: 0 <= k < |whereNot| ==> rs[|rs| - |whereNot| + k] == OmitRequest(whereNot[k])
  {
    var rs := CompoundRequests(where, whereNot, whereIn);
    var inclusions := InclusionRequests(whereIn, where);
    var head := (if HasAndRequest(where, whereIn) then [AndRequest(where)] else []) + inclusions;
    var omits := OmitRequests(whereNot);
    assert rs == head + omits;
    InclusionRequestsKeep(whereIn, where);
    forall i | 0 <= i < |head|
      ensures !head[i].omit
    {
      if HasAndRequest(where, whereIn) && i == 0 {
        assert head[i] == AndRequest(where);
      } else {
        assert head[i] == inclusions[if HasAndRequest(where, whereIn) then i - 1 else i];
      }
    }
    forall i | 0 <= i < |rs|
      ensures rs[i].omit <==> i >= |rs| - |whereNot|
    {
      if i < |head| {
        assert rs[i] == head[i];
      } else {
        assert rs[i] == omits[i - |head|];
      }
    }
    forall k | 0 <= k < |whereNot|
      ensures rs[|rs| - |whereNot| + k] == OmitRequest(whereNot[k])
    {
      assert rs[|head| + k] == omits[k];
    }
  }

  /** Inclusion `j`'s value `k` is request number (values of the inclusions
      before `j`) + `k` among the inclusion requests, and holds that value
      followed by every encoded `where` criterion. */
  lemma {:induction false} InclusionRequestAt(whereIn: seq<Inclusion>, where: seq<Criterion>, j: nat, k: nat)
    requires j < |whereIn| && k < |whereIn[j].values|
    ensures TotalValues(whereIn[..j]) + k < |InclusionRequests(whereIn, where)|
    ensures InclusionRequests(whereIn, where)[TotalValues(whereIn[..j]) + k]
            == FindRequest([(whereIn[j].field, whereIn[j].values[k])] + EvaluatedPairs(where), false)
    decreases |whereIn|
  {
    var n := |whereIn| - 1;
    var init := whereIn[..n];
    InclusionRequestsLength(init, where);
    if j < n {
      assert init[..j] == whereIn[..j];
      InclusionRequestAt(init, where, j, k);
      TotalValuesAppend(init[..j], init[j..]);
      assert init[..j] + init[j..] == init;
    } else {
      assert whereIn[..j] == init;
    }
  }

  /** The direction `setOrder` gives a rule: 'desc' sorts descending and
      every other string ascending. */
  function DirectionOf(order: string): (d: Direction)
    ensures d == SortDescend <==> order == Descending
  {
    if order == Descending then SortDescend else SortAscend
  }

  /** `setOrder`: rule i (0-based) gets precedence `cursor + i`, so with the
      source's cursor of 1 the precedences are 1, 2, 3, ... in call order. */
  function SortSpecs(order: seq<SortRule>, cursor: nat): (r: seq<SortSpec>)
    ensures |r| == |order|
    ensures forall i :: 0 <= i < |order| ==>
              r[i].field == order[i].field && r[i].precedence == cursor + i &&
              (r[i].direction == SortDescend <==> order[i].order == Descending)
  {
    seq(|order|, i requires 0 <= i < |order| => SortSpec(order[i].field, cursor + i, DirectionOf(order[i].order)))
  }

  /** Adding one more rule adds one spec with the next precedence. */
  lemma SortSpecsStep(order: seq<SortRule>, cursor: nat, i: nat)
    requires i < |order|
    ensures SortSpecs(order[..i + 1], cursor)
            == SortSpecs(order[..i], cursor) + [SortSpec(order[i].field, cursor + i, DirectionOf(order[i].order))]
  {
  }

  /** The range applied: only when take or skip is not empty. */
  function RangeFor(skip: int, take: Option<int>): (r: Option<Range>)
    ensures r.Some? <==> !IsEmptyTake(take) || skip != 0
    ensures r.Some? ==> r.value == Range(skip, take)
  {
    if !IsEmptyTake(take) || skip != 0 then Some(Range(skip, take)) else None
  }

  /** The command `buildQuery` leaves in a fresh command of the kind
      `setCommand` chose: the simple find holds every encoded `where`
      criterion; the compound find holds its requests numbered from `start`. */
  function Compiled(layout: string, where: seq<Criterion>, whereNot: seq<Criterion>, whereIn: seq<Inclusion>,
                    start: nat): (c: Command)
    ensures c.FindCommand? || c.CompoundFindCommand?
    ensures c.range.None? && c.sorts == []
  {
    match CommandFor(whereNot, whereIn)
    case NewFind => FindCommand(layout, EvaluatedPairs(where), None, [])
    case NewCompoundFind => CompoundFindCommand(layout, Numbered(CompoundRequests(where, whereNot, whereIn), start), None, [])
  }

  /** How far `buildQuery` advances the counter. */
  function RequestCount(where: seq<Criterion>, whereNot: seq<Criterion>, whereIn: seq<Inclusion>): nat
  {
    if CommandFor(whereNot, whereIn) == NewFind then 0 else |CompoundRequests(where, whereNot, whereIn)|
  }

  /** The command `executeQuery` runs: the compiled one, with the range when
      take or skip is set and the sort rules from precedence 1. */
  function QueryCommand(layout: string, where: seq<Criterion>, whereNot: seq<Criterion>, whereIn: seq<Inclusion>,
                        take: Option<int>, skip: int, order: seq<SortRule>, start: nat): Command
  {
    var c := Compiled(layout, where, whereNot, whereIn, start);
    c.(range := RangeFor(skip, take), sorts := SortSpecs(order, 1))
  }

  /** The command run for a query, stated without the compiler's helpers:
      the simple find exactly when there is no exclusion and no inclusion,
      carrying the encoded `where` criteria in order; otherwise a compound
      find of (one AND request) + (one per inclusion value) + (one per
      exclusion) requests, numbered consecutively from the counter, of which
      exactly the last |whereNot| omit; in both, the range and the sorts. */
  lemma QueryCommandShape(layout: string, where: seq<Criterion>, whereNot: seq<Criterion>, whereIn: seq<Inclusion>,
                          take: Option<int>, skip: int, order: seq<SortRule>, start: nat)
    ensures var c := QueryCommand(layout, where, whereNot, whereIn, take, skip, order, start);
            c.layout == layout && c.range == RangeFor(skip, take) && c.sorts == SortSpecs(order, 1) &&
            (c.FindCommand? <==> whereNot == [] && whereIn == []) &&
            (c.FindCommand? ==> c.criteria == EvaluatedPairs(where)) &&
            (c.CompoundFindCommand? || c.FindCommand?)
    ensures var c := QueryCommand(layout, where, whereNot, whereIn, take, skip, order, start);
            c.CompoundFindCommand? ==>
              |c.requests| == RequestCount(where, whereNot, whereIn) &&
              |c.requests| == (if HasAndRequest(where, whereIn) then 1 else 0) + TotalValues(whereIn) + |whereNot| &&
              (forall i :: 0 <= i < |c.requests| ==> c.requests[i].index == start + i) &&
              (forall i :: 0 <= i < |c.requests| ==> (c.requests[i].request.omit <==> i >= |c.requests| - |whereNot|))
  {
    CompoundRequestsLength(where, whereNot, whereIn);
    CompoundOmitIffExclusion(where, whereNot, whereIn);
  }

  /** A record as the connector returns it: its identifier, the names of
      its layout's fields in order, and their values. */
  datatype NativeRow = NativeRow(recordId: Value, fieldNames: seq<string>, values: map<string, Value>)

  /** `getField(field)` on a connector record; a field the record lacks
      reads as null. */
  function FieldValue(row: NativeRow, field: string): Value
  {
    if field in row.values then row.values[field] else Null
  }

  /** The field list `formatResults` builds from the first row's names: all
      of them for an empty pluck, otherwise one copy of the pluck for each
      name equal to it. */
  function SelectedFields(names: seq<string>, pluck: string): (r: seq<string>)
    ensures |r| <= |names|
    ensures forall f :: f in r <==> f in names && Keeps(pluck, f)
    ensures IsEmptyString(pluck) ==> r == names
    ensures !IsEmptyString(pluck) ==> forall i :: 0 <= i < |r| ==> r[i] == pluck
    ensures !IsEmptyString(pluck) ==> |r| == multiset(names)[pluck]
    decreases |names|
  {
    if names == [] then []
    else
      var last := names[|names| - 1];
      var init := SelectedFields(names[..|names| - 1], pluck);
      assert names == names[..|names| - 1] + [last];
      if Keeps(pluck, last) then init + [last] else init
  }

  /** The properties set on a record from one row: each listed field with
      the row's value for it. */
  function RowFields(row: NativeRow, names: seq<string>): (m: map<string, Value>)
    ensures forall f :: f in m <==> f in names
    ensures forall f :: f in m ==> m[f] == FieldValue(row, f)
  {
    map f | f in names :: FieldValue(row, f)
  }

  /** What executing a command returned: its records, or the connector's
      error with message and code. */
  datatype Reply = Records(rows: seq<NativeRow>) | ConnectorError(message: string, code: int)

  /** The error mapping of `executeQuery` and `performOneInsert`: 'no
      records' (code 401) is an empty result, any other error is rethrown as
      a connection error with the same message and code. */
  function ResultOf(reply: Reply): (r: Result<seq<NativeRow>, Failure>)
    ensures reply.Records? ==> r == Success(reply.rows)
    ensures reply.ConnectorError? && reply.code == NoRecordsCode ==> r == Success([])
    ensures reply.ConnectorError? && reply.code != NoRecordsCode ==>
              r == Failure(ConnectionError(reply.message, reply.code))
    ensures r.Failure? ==> r.error.ConnectionError? && r.error.code != NoRecordsCode
  {
    match reply
    case Records(rows) => Success(rows)
    case ConnectorError(message, code) =>
      if code == NoRecordsCode then Success([]) else Failure(ConnectionError(message, code))
  }

  /** Creating the connector client: it may throw. */
  datatype OpenReply = Opened | OpenRefused(message: string, code: int)

  /** Committing an edited record: it may throw. */
  datatype CommitReply = Committed | CommitRefused(message: string, code: int)

  /** The native connector as an oracle: creating a client from file, host,
      user and password; executing a command; deleting a record by layout
      and identifier (true when no exception was thrown); committing an
      edited record. */
  datatype Connector = Connector(
    open: (Value, Value, Value, Value) -> OpenReply,
    execute: Command -> Reply,
    deleteRecord: (string, Value) -> bool,
    commit: NativeRow -> CommitReply)

  /** `updateRecord` before its commit: `setField` for each pair in turn. */
  function UpdatedRow(row: NativeRow, data: seq<(string, Value)>): NativeRow
  {
    row.(values := Assign(row.values, data))
  }

  /** Setting the fields leaves the identifier and the field list alone; a
      field given in the data reads as its last value there, every other
      field as before. */
  lemma UpdatedRowField(row: NativeRow, data: seq<(string, Value)>, field: string)
    ensures UpdatedRow(row, data).recordId == row.recordId
    ensures UpdatedRow(row, data).fieldNames == row.fieldNames
    ensures FieldValue(UpdatedRow(row, data), field)
            == if LastFor(data, field).Some? then LastFor(data, field).value else FieldValue(row, field)
  {
    AssignLookup(row.values, data, field);
  }

  /** The update loop of `update`: each matched record edited and committed
      in turn; the first commit that throws ends the call with that
      exception, the records committed before it staying committed. */
  function UpdateAll(rows: seq<NativeRow>, data: seq<(string, Value)>, commit: NativeRow -> CommitReply)
    : Result<seq<NativeRow>, Failure>
  {
    if rows == [] then Success([])
    else match UpdateAll(rows[..|rows| - 1], data, commit)
      case Failure(e) => Failure(e)
      case Success(done) =>
        var edited := UpdatedRow(rows[|rows| - 1], data);
        match commit(edited)
        case Committed => Success(done + [edited])
        case CommitRefused(message, code) => Failure(Uncaught(message, code))
  }

  /** The update succeeds exactly when every edited record commits, and then
      yields every record edited, in order. */
  lemma {:induction false} UpdateAllSuccess(rows: seq<NativeRow>, data: seq<(string, Value)>, commit: NativeRow -> CommitReply)
    ensures UpdateAll(rows, data, commit).Success? <==>
              forall i :: 0 <= i < |rows| ==> commit(UpdatedRow(rows[i], data)).Committed?
    ensures UpdateAll(rows, data, commit).Success? ==>
              |UpdateAll(rows, data, commit).value| == |rows| &&
              forall i :: 0 <= i < |rows| ==> UpdateAll(rows, data, commit).value[i] == UpdatedRow(rows[i], data)
    decreases |rows|
  {
    if rows != [] {
      var n := |rows| - 1;
      UpdateAllSuccess(rows[..n], data, commit);
      assert forall j :: 0 <= j < n ==> rows[..n][j] == rows[j];
    }
  }

  /** A failed update fails with the first refused commit's message and
      code, every earlier record having committed. */
  lemma {:induction false} UpdateAllFailure(rows: seq<NativeRow>, data: seq<(string, Value)>, commit: NativeRow -> CommitReply)
    ensures UpdateAll(rows, data, commit).Failure? ==>
              exists i :: 0 <= i < |rows| && commit(UpdatedRow(rows[i], data)).CommitRefused? &&
                (forall j :: 0 <= j < i ==> commit(UpdatedRow(rows[j], data)).Committed?) &&
                UpdateAll(rows, data, commit).error
                  == Uncaught(commit(UpdatedRow(rows[i], data)).message, commit(UpdatedRow(rows[i], data)).code)
    decreases |rows|
  {
    if rows != [] {
      var n := |rows| - 1;
      UpdateAllFailure(rows[..n], data, commit);
      UpdateAllSuccess(rows[..n], data, commit);
      var prev := UpdateAll(rows[..n], data, commit);
      if prev.Failure? {
        var i :| 0 <= i < n && commit(UpdatedRow(rows[..n][i], data)).CommitRefused? &&
                 (forall j :: 0 <= j < i ==> commit(UpdatedRow(rows[..n][j], data)).Committed?) &&
                 prev.error == Uncaught(commit(UpdatedRow(rows[..n][i], data)).message,
                                        commit(UpdatedRow(rows[..n][i], data)).code);
        assert rows[..n][i] == rows[i];
        assert forall j :: 0 <= j < i ==> rows[..n][j] == rows[j];
      } else {
        assert forall j :: 0 <= j < n ==> rows[..n][j] == rows[j];
      }
    }
  }

  /** The update succeeds exactly when every edited record commits, and then
      yields every record edited, in order; otherwise it fails with the
      first refused commit's message and code. */
  lemma UpdateAllOutcome(rows: seq<NativeRow>, data: seq<(string, Value)>, commit: NativeRow -> CommitReply)
    ensures UpdateAll(rows, data, commit).Success? <==>
              forall i :: 0 <= i < |rows| ==> commit(UpdatedRow(rows[i], data)).Committed?
    ensures UpdateAll(rows, data, commit).Success? ==>
              |UpdateAll(rows, data, commit).value| == |rows| &&
              forall i :: 0 <= i < |rows| ==> UpdateAll(rows, data, commit).value[i] == UpdatedRow(rows[i], data)
    ensures UpdateAll(rows, data, commit).Failure? ==>
              exists i :: 0 <= i < |rows| && commit(UpdatedRow(rows[i], data)).CommitRefused? &&
                (forall j :: 0 <= j < i ==> commit(UpdatedRow(rows[j], data)).Committed?) &&
                UpdateAll(rows, data, commit).error
                  == Uncaught(commit(UpdatedRow(rows[i], data)).message, commit(UpdatedRow(rows[i], data)).code)
  {
    UpdateAllSuccess(rows, data, commit);
    UpdateAllFailure(rows, data, commit);
  }

  /** One `performOneInsert` once the layout and client checks passed: an
      add command for the layout with the fields set in order, executed,
      with the same error mapping as a find. */
  function AddOutcome(connector: Connector, layout: string, fields: seq<(string, Entry)>): Result<seq<NativeRow>, Failure>
  {
    ResultOf(connector.execute(AddCommand(layout, fields)))
  }

  /** The single inserts in order, their rows concatenated (the collection's
      `flatten`); the first failure ends the loop with that failure. */
  function InsertAll(connector: Connector, layout: string, plan: seq<seq<(string, Entry)>>): Result<seq<NativeRow>, Failure>
  {
    if plan == [] then Success([])
    else match InsertAll(connector, layout, plan[..|plan| - 1])
      case Failure(e) => Failure(e)
      case Success(rows) =>
        match AddOutcome(connector, layout, plan[|plan| - 1])
        case Failure(e) => Failure(e)
        case Success(added) => Success(rows + added)
  }

  /** The inserts all succeed exactly when each add command does; otherwise
      the failure is that of the first add command that fails. */
  lemma {:induction false} InsertAllOutcome(connector: Connector, layout: string, plan: seq<seq<(string, Entry)>>)
    ensures InsertAll(connector, layout, plan).Success? <==>
              forall i :: 0 <= i < |plan| ==> AddOutcome(connector, layout, plan[i]).Success?
    ensures InsertAll(connector, layout, plan).Failure? ==>
              exists i :: 0 <= i < |plan| && AddOutcome(connector, layout, plan[i]).Failure? &&
                (forall j :: 0 <= j < i ==> AddOutcome(connector, layout, plan[j]).Success?) &&
                InsertAll(connector, layout, plan).error == AddOutcome(connector, layout, plan[i]).error
    decreases |plan|
  {
    if plan != [] {
      var n := |plan| - 1;
      InsertAllOutcome(connector, layout, plan[..n]);
      assert forall i :: 0 <= i < n ==> plan[..n][i] == plan[i];
      var prev := InsertAll(connector, layout, plan[..n]);
      if prev.Failure? {
        var i :| 0 <= i < n && AddOutcome(connector, layout, plan[..n][i]).Failure? &&
                 (forall j :: 0 <= j < i ==> AddOutcome(connector, layout, plan[..n][j]).Success?) &&
                 prev.error == AddOutcome(connector, layout, plan[..n][i]).error;
        assert plan[..n][i] == plan[i];
      }
    }
  }

  /** A worked query: one equality criterion, one inclusion of two regions
      and one exclusion give a compound find of three requests numbered on
      from the counter, the two inclusion requests first and the omit last. */
  lemma ThreeRequestScenario(start: nat)
    ensures var where := [Criterion("status", Some("=="), "active")];
            var whereIn := [Inclusion("region", ["east", "west"])];
            var whereNot := [Criterion("archived", None, "true")];
            CommandFor(whereNot, whereIn) == NewCompoundFind &&
            Numbered(CompoundRequests(where, whereNot, whereIn), start)
            == [ NumberedRequest(start, FindRequest([("region", "east"), ("status", "==active")], false)),
                 NumberedRequest(start + 1, FindRequest([("region", "west"), ("status", "==active")], false)),
                 NumberedRequest(start + 2, FindRequest([("archived", "true")], true)) ]
  {
    var where := [Criterion("status", Some("=="), "active")];
    var whereIn := [Inclusion("region", ["east", "west"])];
    assert EvaluateEmptyValue(where[0]) == "==" + "active" == "==active";
    assert EvaluatedPairs(where) == [("status", "==active")];
    assert whereIn[..0] == [];
    assert InclusionRequests(whereIn, where) == ValueRequests(whereIn[0], where);
    assert ValueRequests(whereIn[0], where)
           == [ InclusionRequest("region", "east", where), InclusionRequest("region", "west", where) ];
    assert InclusionRequest("region", "east", where) == FindRequest([("region", "east"), ("status", "==active")], false);
    assert InclusionRequest("region", "west", where) == FindRequest([("region", "west"), ("status", "==active")], false);
    assert !HasAndRequest(where, whereIn);
    var whereNot := [Criterion("archived", None, "true")];
    assert OmitRequests(whereNot) == [FindRequest([("archived", "true")], true)];
    var rs := CompoundRequests(where, whereNot, whereIn);
    assert rs == [ FindRequest([("region", "east"), ("status", "==active")], false),
                   FindRequest([("region", "west"), ("status", "==active")], false),
                   FindRequest([("archived", "true")], true) ];
  }
}
