/** The native-protocol driver (src/Drivers/FMPHP.php): the fluent builder
    state, the command it compiles into the connector, the request counter,
    the normaliser, and the delete, update and insert loops. */
module NativeDriver {
  import opened Wrappers
  import opened Common
  import opened Criteria
  import opened Records
  import opened NativeQuery

  /** The field list `formatResults` reads from the first row's names. */
  method SelectFields(names: seq<string>, pluck: string) returns (fields: seq<string>)
    ensures fields == SelectedFields(names, pluck)
  {
    fields := [];
    for j := 0 to |names|
      invariant fields == SelectedFields(names[..j], pluck)
    {
      assert names[..j + 1][..j] == names[..j];
      if Keeps(pluck, names[j]) {
        fields := fields + [names[j]];
      }
    }
    assert names[..|names|] == names;
  }

  /** The properties one row gives its record: each listed field, set in
      turn to the row's value for it. */
  method FillFields(row: NativeRow, fields: seq<string>) returns (values: map<string, Value>)
    ensures values == RowFields(row, fields)
  {
    values := map[];
    for k := 0 to |fields|
      invariant values == RowFields(row, fields[..k])
    {
      assert fields[..k + 1] == fields[..k] + [fields[k]];
      values := values[fields[k] := FieldValue(row, fields[k])];
    }
    assert fields[..|fields|] == fields;
  }

  /** One row's record: a fresh record holding the row's value for each
      listed field and the row's record identifier. */
  method RecordOf(row: NativeRow, fields: seq<string>) returns (record: FileMakerRecord)
    ensures fresh(record)
    ensures record.fields == RowFields(row, fields) && record.recordId == row.recordId
  {
    record := new FileMakerRecord();
    record.fields := FillFields(row, fields);
    record.SetRecordId(row.recordId);
  }

  /** The record holds exactly the fields `fields` as `row` has them, and
      the row's identifier. */
  ghost predicate HoldsRow(record: FileMakerRecord, row: NativeRow, fields: seq<string>)
    reads record
  {
    record.fields == RowFields(row, fields) && record.recordId == row.recordId
  }

  /** `formatResults`: nothing for no rows; otherwise the field list is read
      once from the first row and filtered by the pluck, and every row gives
      one fresh record with exactly those fields and its record identifier,
      in row order. */
  method FormatResults(rows: seq<NativeRow>, pluck: string) returns (records: seq<FileMakerRecord>)
    ensures |records| == |rows|
    ensures forall i :: 0 <= i < |rows| ==> fresh(records[i])
    ensures forall i, j :: 0 <= i < j < |records| ==> records[i] != records[j]
    ensures forall i :: 0 <= i < |rows| ==>
              records[i].fields == RowFields(rows[i], SelectedFields(rows[0].fieldNames, pluck)) &&
              records[i].recordId == rows[i].recordId
  {
    records := [];
    if rows == [] {
      return;
    }
    var fields := SelectFields(rows[0].fieldNames, pluck);
    for i := 0 to |rows|
      invariant |records| == i
      invariant forall k :: 0 <= k < i ==> fresh(records[k])
      invariant forall k, l :: 0 <= k < l < i ==> records[k] != records[l]
      invariant forall k :: 0 <= k < i ==> HoldsRow(records[k], rows[k], fields)
    {
      var record := RecordOf(rows[i], fields);
      assert HoldsRow(record, rows[i], fields);
      assert forall k :: 0 <= k < i ==> records[k] != record;
      records := records + [record];
    }
  }

  /** The loop of `delete`: one delete command per matched record, in
      order. Nothing matched is a failure; the first deletion that throws
      ends the loop with failure, and the deletions before it stand. */
  method DeleteEach(layout: string, rows: seq<NativeRow>, deleteRecord: (string, Value) -> bool)
    returns (ok: bool, attempted: nat)
    ensures ok <==> rows != [] && forall i :: 0 <= i < |rows| ==> deleteRecord(layout, rows[i].recordId)
    ensures attempted <= |rows|
    ensures ok ==> attempted == |rows|
    ensures rows == [] ==> attempted == 0
    ensures !ok && rows != [] ==>
              1 <= attempted && !deleteRecord(layout, rows[attempted - 1].recordId) &&
              forall j :: 0 <= j < attempted - 1 ==> deleteRecord(layout, rows[j].recordId)
  {
    attempted := 0;
    if |rows| == 0 {
      return false, 0;
    }
    for i := 0 to |rows|
      invariant attempted == i
      invariant forall j :: 0 <= j < i ==> deleteRecord(layout, rows[j].recordId)
    {
      attempted := attempted + 1;
      if !deleteRecord(layout, rows[i].recordId) {
        return false, attempted;
      }
    }
    ok := true;
  }

  /** `updateRecord`: `setField` for each pair in turn, then the commit;
      a commit that throws is not caught. */
  method UpdateRecord(row: NativeRow, data: seq<(string, Value)>, commit: NativeRow -> CommitReply)
    returns (r: Result<NativeRow, Failure>)
    ensures commit(UpdatedRow(row, data)).Committed? ==> r == Success(UpdatedRow(row, data))
    ensures commit(UpdatedRow(row, data)).CommitRefused? ==>
              r == Failure(Uncaught(commit(UpdatedRow(row, data)).message, commit(UpdatedRow(row, data)).code))
  {
    var values := row.values;
    for k := 0 to |data|
      invariant values == Assign(row.values, data[..k])
    {
      AssignSnoc(row.values, data[..k], data[k]);
      assert data[..k + 1] == data[..k] + [data[k]];
      values := values[data[k].0 := data[k].1];
    }
    assert data[..|data|] == data;
    var edited := row.(values := values);
    match commit(edited)
    case Committed =>
      r := Success(edited);
    case CommitRefused(message, code) =>
      r := Failure(Uncaught(message, code));
  }

  /** The loop of `update` over the matched records. */
  method UpdateRecords(rows: seq<NativeRow>, data: seq<(string, Value)>, commit: NativeRow -> CommitReply)
    returns (r: Result<seq<NativeRow>, Failure>)
    ensures r == UpdateAll(rows, data, commit)
  {
    var done: seq<NativeRow> := [];
    for i := 0 to |rows|
      invariant UpdateAll(rows[..i], data, commit) == Success(done)
    {
      assert rows[..i + 1][..i] == rows[..i];
      var edited := UpdateRecord(rows[i], data, commit);
      if edited.Failure? {
        UpdateAllStops(rows, data, commit, i + 1);
        return Failure(edited.error);
      }
      done := done + [edited.value];
    }
    assert rows[..|rows|] == rows;
    r := Success(done);
  }

  /** Once a prefix of the records fails to update, the whole update fails
      with the same error. */
  lemma {:induction false} UpdateAllStops(rows: seq<NativeRow>, data: seq<(string, Value)>,
                                          commit: NativeRow -> CommitReply, i: nat)
    requires i <= |rows|
    requires UpdateAll(rows[..i], data, commit).Failure?
    ensures UpdateAll(rows, data, commit) == UpdateAll(rows[..i], data, commit)
    decreases |rows| - i
  {
    if i < |rows| {
      assert rows[..i + 1][..i] == rows[..i];
      UpdateAllStops(rows, data, commit, i + 1);
    } else {
      assert rows[..i] == rows;
    }
  }

  /** Once a prefix of the single inserts fails, the whole insert fails
      with the same error. */
  lemma {:induction false} InsertAllStops(connector: Connector, layout: string, plan: seq<seq<(string, Entry)>>, i: nat)
    requires i <= |plan|
    requires InsertAll(connector, layout, plan[..i]).Failure?
    ensures InsertAll(connector, layout, plan) == InsertAll(connector, layout, plan[..i])
    decreases |plan| - i
  {
    if i < |plan| {
      assert plan[..i + 1][..i] == plan[..i];
      InsertAllStops(connector, layout, plan, i + 1);
    } else {
      assert plan[..i] == plan;
    }
  }

  /** `first()` over normalised rows listed in the order `p`: none exactly
      when there is no row, otherwise the record of row `p[0]`, holding the
      first returned row's fields as row `p[0]` has them, and its identifier. */
  ghost predicate IsFirstOf(r: Option<FileMakerRecord>, rows: seq<NativeRow>, p: seq<nat>)
    requires IsPermutation(p, |rows|)
    reads if r.Some? then {r.value} else {}
  {
    (r.None? <==> rows == []) &&
    (r.Some? ==> r.value.fields == RowFields(rows[p[0]], rows[0].fieldNames) &&
                 r.value.recordId == rows[p[0]].recordId)
  }

  class FMPHP {
    var connection: map<string, Value>
    var layout: string
    var where: seq<Criterion>
    var whereNot: seq<Criterion>
    var whereIn: seq<Inclusion>
    var take: Option<int>
    var skip: int
    var order: seq<SortRule>
    var randomOrder: bool
    /** The command last built on the connector. */
    var query: Command
    /** The kind `setCommand` chose last. */
    var command: Option<CommandKind>
    /** The number the next compound-find request gets; never reset. */
    var count: nat

    /** The state `new FMPHP()` leaves apart from the configuration: no
        layout, no criteria, no range or order, no command, counter at 1. */
    ghost predicate Unbuilt()
      reads this
    {
      layout == "" && where == [] && whereNot == [] && whereIn == [] &&
      take == None && skip == 0 && order == [] && !randomOrder &&
      query == NoCommand && command == None && count == 1
    }

    constructor ()
      ensures connection == map[] && layout == ""
      ensures where == [] && whereNot == [] && whereIn == []
      ensures take == None && skip == 0 && order == [] && !randomOrder
      ensures query == NoCommand && command == None && count == 1
    {
      connection := map[];
      layout := "";
      where, whereNot, whereIn := [], [], [];
      take, skip := None, 0;
      order, randomOrder := [], false;
      query, command, count := NoCommand, None, 1;
    }

    /** `setConnection`: stores the configuration; nothing is opened. */
    method SetConnection(config: map<string, Value>)
      modifies this`connection
      ensures connection == config
    {
      connection := config;
    }

    /** `layout` and its alias `table`. */
    method Layout(name: string)
      modifies this`layout
      ensures layout == name
    {
      layout := name;
    }

    method Table(name: string)
      modifies this`layout
      ensures layout == name
    {
      Layout(name);
    }

    method Where(field: string, operator: Option<string>, value: Option<string>)
      modifies this`where, this`whereNot
      ensures match RouteWhere(field, operator, value)
              case ToWhere(c) => where == old(where) + [c] && whereNot == old(whereNot)
              case ToWhereNot(c) => where == old(where) && whereNot == old(whereNot) + [c]
    {
      var op := operator;
      var v := if value.Some? then value.value else if operator.Some? then operator.value else "";
      if value.None? {
        op := Some(ExactMatch);
      }
      if op == Some(NotEqual) {
        WhereNot(field, v);
      } else {
        where := where + [Criterion(field, op, v)];
      }
    }

    method WhereNot(field: string, value: string)
      modifies this`whereNot
      ensures whereNot == old(whereNot) + [Criterion(field, None, value)]
    {
      whereNot := whereNot + [Criterion(field, None, value)];
    }

    method WhereIn(field: string, values: InValues)
      modifies this`whereIn
      ensures IsEmptyArgument(values) ==> whereIn == old(whereIn)
      ensures !IsEmptyArgument(values) ==> whereIn == old(whereIn) + [InclusionFor(field, values).value]
    {
      if IsEmptyArgument(values) {
        return;
      }
      var items := if values.Single? then [values.item] else values.items;
      whereIn := whereIn + [Inclusion(field, items)];
    }

    /** `take` and its alias `limit`. */
    method Take(n: int)
      modifies this`take
      ensures take == Some(n)
    {
      take := Some(n);
    }

    method Limit(n: int)
      modifies this`take
      ensures take == Some(n)
    {
      Take(n);
    }

    /** `skip` and its alias `offset`. */
    method Skip(n: int)
      modifies this`skip
      ensures skip == n
    {
      skip := n;
    }

    method Offset(n: int)
      modifies this`skip
      ensures skip == n
    {
      Skip(n);
    }

    /** `orderBy($field, $order = 'asc')` and the two shorthands. */
    method OrderBy(field: string, direction: string)
      modifies this`order
      ensures order == old(order) + [SortRule(field, direction)]
    {
      order := order + [SortRule(field, direction)];
    }

    method OrderByAscend(field: string)
      modifies this`order
      ensures order == old(order) + [SortRule(field, Ascending)]
    {
      OrderBy(field, Ascending);
    }

    method OrderByDescend(field: string)
      modifies this`order
      ensures order == old(order) + [SortRule(field, Descending)]
    {
      OrderBy(field, Descending);
    }

    method InRandomOrder()
      modifies this`randomOrder
      ensures randomOrder
    {
      randomOrder := true;
    }

    /** `reorder`: forgets the sort rules and the random flag only. */
    method Reorder()
      modifies this`order, this`randomOrder
      ensures order == [] && !randomOrder
    {
      order := [];
      randomOrder := false;
    }

    function Setting(key: string): Value
      reads this
    {
      if key in connection then connection[key] else Null
    }

    /** `initConnection`: creating the client from the stored file, host,
        user and password, in that order; a setting never stored is null. */
    function Open(connector: Connector): (reply: OpenReply)
      reads this
      ensures "file" in connection && "host" in connection && "user" in connection && "password" in connection ==>
                reply == connector.open(connection["file"], connection["host"], connection["user"], connection["password"])
      ensures "file" !in connection ==> reply == connector.open(Null, Setting("host"), Setting("user"), Setting("password"))
    {
      connector.open(Setting("file"), Setting("host"), Setting("user"), Setting("password"))
    }

    /** `setCommand`. */
    method SetCommand()
      modifies this`command
      ensures command == Some(CommandFor(whereNot, whereIn))
      ensures command == Some(NewFind) <==> whereNot == [] && whereIn == []
    {
      if whereNot == [] && whereIn == [] {
        command := Some(NewFind);
      } else {
        command := Some(NewCompoundFind);
      }
    }

    /** `$this->query->add($this->count, $find)` followed by `$this->count++`. */
    method AddRequest(find: FindRequest)
      requires query.CompoundFindCommand?
      modifies this`query, this`count
      ensures query == old(query).(requests := old(query).requests + [NumberedRequest(old(count), find)])
      ensures count == old(count) + 1
    {
      query := query.(requests := query.requests + [NumberedRequest(count, find)]);
      count := count + 1;
    }

    /** The inner loop that adds every `where` criterion, in order, each
        with its encoded value. */
    static method CriteriaOf(where: seq<Criterion>) returns (criteria: seq<FindCriterion>)
      ensures criteria == EvaluatedPairs(where)
    {
      criteria := [];
      for i := 0 to |where|
        invariant criteria == EvaluatedPairs(where[..i])
      {
        EvaluatedPairsStep(where, i);
        criteria := criteria + [(where[i].field, EvaluateEmptyValue(where[i]))];
      }
      assert where[..|where|] == where;
    }

    /** The command kind chosen matches the command under construction. */
    ghost predicate Building()
      reads this
    {
      command.Some? &&
      (command.value == NewFind ==> query.FindCommand?) &&
      (command.value == NewCompoundFind ==> query.CompoundFindCommand?)
    }

    /** `processWhereClauses`: on a simple find every criterion is added to
        the command itself and the counter stays; on a compound find with no
        inclusion one request holding every criterion is added under the
        counter, which then moves on by one. */
    method ProcessWhereClauses()
      requires Building()
      modifies this`query, this`count
      ensures Building()
      ensures command == Some(NewFind) ==>
                query == old(query).(criteria := old(query).criteria + EvaluatedPairs(where)) && count == old(count)
      ensures command == Some(NewCompoundFind) ==>
                var added := if HasAndRequest(where, whereIn) then [AndRequest(where)] else [];
                query == old(query).(requests := old(query).requests + Numbered(added, old(count))) &&
                count == old(count) + |added|
    {
      if where == [] {
        return;
      }
      if command == Some(NewFind) {
        var criteria := CriteriaOf(where);
        query := query.(criteria := query.criteria + criteria);
      } else if command == Some(NewCompoundFind) && whereIn == [] {
        var criteria := CriteriaOf(where);
        AddRequest(FindRequest(criteria, false));
      }
    }

    /** One inclusion's requests: per value, the raw value followed by every
        encoded `where` criterion, each under the next number. */
    method AddValueRequests(inc: Inclusion)
      requires query.CompoundFindCommand?
      modifies this`query, this`count
      ensures query == old(query).(requests := old(query).requests + Numbered(ValueRequests(inc, where), old(count)))
      ensures count == old(count) + |inc.values|
    {
      for k := 0 to |inc.values|
        invariant query == old(query).(requests := old(query).requests
                                                   + Numbered(ValueRequests(inc, where)[..k], old(count)))
        invariant count == old(count) + k
      {
        var criteria := CriteriaOf(where);
        var find := FindRequest([(inc.field, inc.values[k])] + criteria, false);
        assert ValueRequests(inc, where)[..k + 1] == ValueRequests(inc, where)[..k] + [find];
        NumberedAppend(ValueRequests(inc, where)[..k], [find], old(count));
        AddRequest(find);
      }
      assert ValueRequests(inc, where)[..|inc.values|] == ValueRequests(inc, where);
    }

    /** One pass of the loop of `processWhereInClauses`: the inclusion's
        requests, numbered on from the counter, follow the requests added so
        far. */
    method AddInclusion(inc: Inclusion, ghost q: Command, ghost done: seq<NumberedRequest>) returns (ghost extended: seq<NumberedRequest>)
      requires q.CompoundFindCommand?
      requires query == CompoundFindCommand(q.layout, q.requests + done, q.range, q.sorts)
      modifies this`query, this`count
      ensures extended == done + Numbered(ValueRequests(inc, where), old(count))
      ensures query == CompoundFindCommand(q.layout, q.requests + extended, q.range, q.sorts)
      ensures count == old(count) + |inc.values|
    {
      extended := done + Numbered(ValueRequests(inc, where), count);
      AddValueRequests(inc);
      assert q.requests + done + Numbered(ValueRequests(inc, where), old(count)) == q.requests + extended;
    }

    /** The loop of `processWhereInClauses`: the requests of each inclusion
        in turn, numbered on from the counter. */
    method AddInclusionRequests(inclusions: seq<Inclusion>)
      requires query.CompoundFindCommand?
      modifies this`query, this`count
      ensures query == old(query).(requests := old(query).requests + Numbered(InclusionRequests(inclusions, where), old(count)))
      ensures count == old(count) + TotalValues(inclusions)
    {
      ghost var q := query;
      assert inclusions[..0] == [];
      ghost var done: seq<NumberedRequest> := [];
      for i := 0 to |inclusions|
        invariant done == Numbered(InclusionRequests(inclusions[..i], where), old(count))
        invariant query == CompoundFindCommand(q.layout, q.requests + done, q.range, q.sorts)
        invariant count == old(count) + TotalValues(inclusions[..i])
      {
        InclusionNumberingStep(inclusions, where, i, old(count));
        done := AddInclusion(inclusions[i], q, done);
      }
      assert inclusions[..|inclusions|] == inclusions;
    }

    /** `processWhereInClauses`: on a compound find, the requests of every
        inclusion in order, numbered on from the counter. */
    method ProcessWhereInClauses()
      requires Building()
      modifies this`query, this`count
      ensures Building()
      ensures command == Some(NewFind) ==> query == old(query) && count == old(count)
      ensures command == Some(NewCompoundFind) ==>
                query == old(query).(requests := old(query).requests + Numbered(InclusionRequests(whereIn, where), old(count))) &&
                count == old(count) + TotalValues(whereIn)
    {
      if whereIn == [] {
        return;
      }
      if command != Some(NewCompoundFind) {
        return;
      }
      AddInclusionRequests(whereIn);
    }

    /** `processWhereNotClauses`: on a compound find, one omitting request
        per exclusion, numbered on from the counter. */
    method ProcessWhereNotClauses()
      requires Building()
      modifies this`query, this`count
      ensures Building()
      ensures command == Some(NewFind) ==> query == old(query) && count == old(count)
      ensures command == Some(NewCompoundFind) ==>
                query == old(query).(requests := old(query).requests + Numbered(OmitRequests(whereNot), old(count))) &&
                count == old(count) + |whereNot|
    {
      if whereNot == [] {
        return;
      }
      if command != Some(NewCompoundFind) {
        return;
      }
      for i := 0 to |whereNot|
        invariant query == old(query).(requests := old(query).requests
                                                   + Numbered(OmitRequests(whereNot[..i]), old(count)))
        invariant count == old(count) + i
      {
        var find := FindRequest([(whereNot[i].field, EvaluateEmptyValue(whereNot[i]))], true);
        assert OmitRequests(whereNot[..i + 1]) == OmitRequests(whereNot[..i]) + [find];
        NumberedAppend(OmitRequests(whereNot[..i]), [find], old(count));
        AddRequest(find);
      }
      assert whereNot[..|whereNot|] == whereNot;
    }

    /** `buildQuery` on the fresh command: the compiled command, and the
        counter moved past its requests. */
    method BuildQuery()
      requires command == Some(CommandFor(whereNot, whereIn))
      requires query == NewCommand(command.value, layout)
      modifies this`query, this`count
      ensures query == Compiled(layout, where, whereNot, whereIn, old(count))
      ensures count == old(count) + RequestCount(where, whereNot, whereIn)
    {
      if command == Some(NewFind) {
        ProcessWhereClauses();
        ProcessWhereInClauses();
        ProcessWhereNotClauses();
        assert query == FindCommand(layout, EvaluatedPairs(where), None, []);
      } else {
        BuildCompoundQuery();
        CompoundNumbering(where, whereNot, whereIn, old(count));
        CompoundRequestsLength(where, whereNot, whereIn);
      }
    }

    /** `buildQuery` on a fresh compound find: the AND request, the inclusion
        requests and the omit requests, each batch numbered on from the
        counter where the previous one stopped. */
    method BuildCompoundQuery()
      requires command == Some(NewCompoundFind)
      requires query == CompoundFindCommand(layout, [], None, [])
      modifies this`query, this`count
      ensures var added := if HasAndRequest(where, whereIn) then [AndRequest(where)] else [];
              var omitsFrom := old(count) + |added| + TotalValues(whereIn);
              query == CompoundFindCommand(layout, Numbered(added, old(count))
                                                   + Numbered(InclusionRequests(whereIn, where), old(count) + |added|)
                                                   + Numbered(OmitRequests(whereNot), omitsFrom), None, []) &&
              count == omitsFrom + |whereNot|
    {
      AddLeadingRequests();
      ProcessWhereNotClauses();
    }

    /** The requests a compound find holds before its omits: the AND request,
        then the inclusion requests, numbered on from the counter. */
    method AddLeadingRequests()
      requires command == Some(NewCompoundFind)
      requires query == CompoundFindCommand(layout, [], None, [])
      modifies this`query, this`count
      ensures var added := if HasAndRequest(where, whereIn) then [AndRequest(where)] else [];
              query == CompoundFindCommand(layout, Numbered(added, old(count))
                                                   + Numbered(InclusionRequests(whereIn, where), old(count) + |added|), None, []) &&
              count == old(count) + |added| + TotalValues(whereIn)
    {
      ProcessWhereClauses();
      ProcessWhereInClauses();
    }

    /** `setOrder`: the rules in call order, with precedences 1, 2, 3, ... */
    method SetOrder()
      requires query.FindCommand? || query.CompoundFindCommand?
      modifies this`query
      ensures query == old(query).(sorts := old(query).sorts + SortSpecs(order, 1))
    {
      if order == [] {
        return;
      }
      var cursor := 1;
      for i := 0 to |order|
        invariant query == old(query).(sorts := old(query).sorts + SortSpecs(order[..i], 1))
        invariant cursor == 1 + i
      {
        SortSpecsStep(order, 1, i);
        var direction := if order[i].order == Descending then SortDescend else SortAscend;
        query := query.(sorts := query.sorts + [SortSpec(order[i].field, cursor, direction)]);
        cursor := cursor + 1;
      }
      assert order[..|order|] == order;
    }

    /** Whether a query gets past the layout check and the client creation. */
    predicate Reaches(connector: Connector)
      reads this
    {
      !IsEmptyString(layout) && Open(connector).Opened?
    }

    /** What `executeQuery` yields from the current state: 'Layout not set'
        for an empty layout, the client's exception rethrown, or the reply
        to the compiled command under the error mapping. */
    function QueryOutcome(connector: Connector): Result<seq<NativeRow>, Failure>
      reads this
    {
      QueryOutcomeWith(connector, where)
    }

    /** The same outcome with `w` in place of the `where` list, for a query
        whose criteria a call extends before it runs (`find`). */
    function QueryOutcomeWith(connector: Connector, w: seq<Criterion>): Result<seq<NativeRow>, Failure>
      reads this
    {
      if IsEmptyString(layout) then Failure(ConnectionError(LayoutNotSet, 0))
      else match Open(connector)
        case OpenRefused(message, code) => Failure(ConnectionError(message, code))
        case Opened =>
          ResultOf(connector.execute(QueryCommand(layout, w, whereNot, whereIn, take, skip, order, count)))
    }

    /** The state a query run leaves behind: nothing changes when the query
        stops at the layout or client check; otherwise the chosen command
        kind, the compiled command numbered on from the old counter, and the
        counter advanced by the requests added (it is never reset). */
    twostate predicate QueryRan(connector: Connector)
      reads this
    {
      (!old(Reaches(connector)) ==> query == old(query) && command == old(command) && count == old(count)) &&
      (old(Reaches(connector)) ==>
         command == Some(CommandFor(whereNot, whereIn)) &&
         query == QueryCommand(layout, where, whereNot, whereIn, take, skip, order, old(count)) &&
         count == old(count) + RequestCount(where, whereNot, whereIn))
    }

    /** `executeQuery`. The command, the chosen kind and the counter change
        only once the layout and client checks passed. */
    method ExecuteQuery(connector: Connector) returns (r: Result<seq<NativeRow>, Failure>)
      modifies this`query, this`command, this`count
      ensures QueryRan(connector)
      ensures r == old(QueryOutcome(connector))
    {
      if IsEmptyString(layout) {
        return Failure(ConnectionError(LayoutNotSet, 0));
      }
      var client := Open(connector);
      if client.OpenRefused? {
        return Failure(ConnectionError(client.message, client.code));
      }
      CompileQuery();
      r := ResultOf(connector.execute(query));
    }

    /** The part of `executeQuery` past the checks: choose the command kind,
        create the command, build it, then set the range and the sorts. */
    method CompileQuery()
      modifies this`query, this`command, this`count
      ensures command == Some(CommandFor(whereNot, whereIn))
      ensures query == QueryCommand(layout, where, whereNot, whereIn, take, skip, order, old(count))
      ensures count == old(count) + RequestCount(where, whereNot, whereIn)
    {
      SetCommand();
      query := NewCommand(command.value, layout);
      BuildQuery();
      ghost var compiled := query;
      if !IsEmptyTake(take) || skip != 0 {
        query := query.(range := Some(Range(skip, take)));
      }
      assert query == compiled.(range := RangeFor(skip, take));
      SetOrder();
    }

    /** `get`: the normalised rows, listed in the shuffle's order when
        random order is set; every record has the first returned row's
        fields. */
    method Get(connector: Connector, shuffle: nat -> seq<nat>) returns (r: Result<seq<FileMakerRecord>, Failure>)
      requires IsShuffle(shuffle)
      modifies this`query, this`command, this`count
      ensures QueryRan(connector)
      ensures old(QueryOutcome(connector)).Failure? ==> r == Failure(old(QueryOutcome(connector)).error)
      ensures old(QueryOutcome(connector)).Success? ==>
                var rows := old(QueryOutcome(connector)).value;
                var p := Arrangement(randomOrder, shuffle, |rows|);
                r.Success? && |r.value| == |rows| &&
                (forall i, j :: 0 <= i < j < |rows| ==> r.value[i] != r.value[j]) &&
                forall i :: 0 <= i < |rows| ==>
                  fresh(r.value[i]) && r.value[i].fields == RowFields(rows[p[i]], rows[0].fieldNames) &&
                  r.value[i].recordId == rows[p[i]].recordId
    {
      var rows := ExecuteQuery(connector);
      if rows.Failure? {
        return Failure(rows.error);
      }
      var records := FormatResults(rows.value, "");
      var p := Arrangement(randomOrder, shuffle, |records|);
      var listed := Listed(records, p);
      r := Success(listed);
    }

    /** `first`: the first of the records `get` lists, or null when there is
        none. */
    method First(connector: Connector, shuffle: nat -> seq<nat>) returns (r: Result<Option<FileMakerRecord>, Failure>)
      requires IsShuffle(shuffle)
      modifies this`query, this`command, this`count
      ensures QueryRan(connector)
      ensures old(QueryOutcome(connector)).Failure? ==> r == Failure(old(QueryOutcome(connector)).error)
      ensures old(QueryOutcome(connector)).Success? ==>
                var rows := old(QueryOutcome(connector)).value;
                r.Success? && (r.value.Some? ==> fresh(r.value.value)) &&
                IsFirstOf(r.value, rows, Arrangement(randomOrder, shuffle, |rows|))
    {
      var all := Get(connector, shuffle);
      if all.Failure? {
        return Failure(all.error);
      }
      r := Success(if all.value == [] then None else Some(all.value[0]));
    }

    /** `count`, `exists` and `doesntExist`: the number of matching rows. */
    method Count(connector: Connector) returns (r: Result<nat, Failure>)
      modifies this`query, this`command, this`count
      ensures QueryRan(connector)
      ensures old(QueryOutcome(connector)).Failure? ==> r == Failure(old(QueryOutcome(connector)).error)
      ensures old(QueryOutcome(connector)).Success? ==> r == Success(|old(QueryOutcome(connector)).value|)
    {
      var rows := ExecuteQuery(connector);
      if rows.Failure? {
        return Failure(rows.error);
      }
      r := Success(|rows.value|);
    }

    method Exists(connector: Connector) returns (r: Result<bool, Failure>)
      modifies this`query, this`command, this`count
      ensures QueryRan(connector)
      ensures old(QueryOutcome(connector)).Failure? ==> r == Failure(old(QueryOutcome(connector)).error)
      ensures old(QueryOutcome(connector)).Success? ==> r == Success(old(QueryOutcome(connector)).value != [])
    {
      var n := Count(connector);
      if n.Failure? {
        return Failure(n.error);
      }
      r := Success(n.value != 0);
    }

    method DoesntExist(connector: Connector) returns (r: Result<bool, Failure>)
      modifies this`query, this`command, this`count
      ensures QueryRan(connector)
      ensures old(QueryOutcome(connector)).Failure? ==> r == Failure(old(QueryOutcome(connector)).error)
      ensures old(QueryOutcome(connector)).Success? ==> r == Success(old(QueryOutcome(connector)).value == [])
    {
      var n := Count(connector);
      if n.Failure? {
        return Failure(n.error);
      }
      r := Success(n.value == 0);
    }

    /** `find`: without a key field it throws; otherwise it adds an exact
        match on that field to the kept criteria and returns `first` of the
        query extended by it. */
    method Find(value: string, primaryKey: Option<string>, connector: Connector, shuffle: nat -> seq<nat>)
      returns (r: Result<Option<FileMakerRecord>, Failure>)
      requires IsShuffle(shuffle)
      modifies this`where, this`whereNot, this`query, this`command, this`count
      ensures primaryKey.None? ==>
                r == Failure(ConnectionError(PrimaryKeyNotSet, 0)) && where == old(where) &&
                query == old(query) && command == old(command) && count == old(count)
      ensures primaryKey.Some? ==> where == old(where) + [Criterion(primaryKey.value, Some(ExactMatch), value)]
      ensures whereNot == old(whereNot)
      ensures primaryKey.Some? ==> QueryRan(connector)
      ensures primaryKey.Some? ==>
                var outcome := old(QueryOutcomeWith(connector, where + [Criterion(primaryKey.value, Some(ExactMatch), value)]));
                (outcome.Failure? ==> r == Failure(outcome.error)) &&
                (outcome.Success? ==>
                   r.Success? && (r.value.Some? ==> fresh(r.value.value)) &&
                   IsFirstOf(r.value, outcome.value, Arrangement(randomOrder, shuffle, |outcome.value|)))
    {
      if primaryKey.None? {
        return Failure(ConnectionError(PrimaryKeyNotSet, 0));
      }
      ghost var extended := old(QueryOutcomeWith(connector, where + [Criterion(primaryKey.value, Some(ExactMatch), value)]));
      Where(primaryKey.value, Some(value), None);
      assert QueryOutcome(connector) == extended;
      r := First(connector, shuffle);
    }

    /** `value`: the first record's property when it is set and not null;
        otherwise it throws that the field was not found. */
    method Value(field: string, connector: Connector, shuffle: nat -> seq<nat>) returns (r: Result<Value, Failure>)
      requires IsShuffle(shuffle)
      modifies this`query, this`command, this`count
      ensures QueryRan(connector)
      ensures old(QueryOutcome(connector)).Failure? ==> r == Failure(old(QueryOutcome(connector)).error)
      ensures old(QueryOutcome(connector)).Success? ==>
                var rows := old(QueryOutcome(connector)).value;
                var p := Arrangement(randomOrder, shuffle, |rows|);
                if rows != [] && field in rows[0].fieldNames && IsSet(FieldValue(rows[p[0]], field))
                then r == Success(FieldValue(rows[p[0]], field))
                else r == Failure(ConnectionError(FieldNotFound(field), 0))
    {
      var first := First(connector, shuffle);
      if first.Failure? {
        return Failure(first.error);
      }
      if first.value.Some? && field in first.value.value.fields && IsSet(first.value.value.fields[field]) {
        return Success(first.value.value.fields[field]);
      }
      r := Failure(ConnectionError(FieldNotFound(field), 0));
    }

    /** `pluck`: the rows normalised with the field as pluck, then each
        record's value for it (null where the record lacks it or holds null). */
    method Pluck(field: string, connector: Connector) returns (r: Result<seq<Value>, Failure>)
      modifies this`query, this`command, this`count
      ensures QueryRan(connector)
      ensures old(QueryOutcome(connector)).Failure? ==> r == Failure(old(QueryOutcome(connector)).error)
      ensures old(QueryOutcome(connector)).Success? ==>
                var rows := old(QueryOutcome(connector)).value;
                r.Success? && |r.value| == |rows| &&
                forall i :: 0 <= i < |rows| ==>
                  r.value[i] == if field in rows[0].fieldNames && IsSet(FieldValue(rows[i], field))
                                then FieldValue(rows[i], field) else Null
    {
      var rows := ExecuteQuery(connector);
      if rows.Failure? {
        return Failure(rows.error);
      }
      var records := FormatResults(rows.value, field);
      var values := PluckValues(records, field);
      r := Success(values);
    }

    /** `delete`: the matching records, deleted one by one; false when
        nothing matched or at the first deletion that throws. */
    method Delete(connector: Connector) returns (r: Result<bool, Failure>)
      modifies this`query, this`command, this`count
      ensures QueryRan(connector)
      ensures old(QueryOutcome(connector)).Failure? ==> r == Failure(old(QueryOutcome(connector)).error)
      ensures old(QueryOutcome(connector)).Success? ==>
                var rows := old(QueryOutcome(connector)).value;
                r == Success(rows != [] && forall i :: 0 <= i < |rows| ==> connector.deleteRecord(layout, rows[i].recordId))
    {
      var rows := ExecuteQuery(connector);
      if rows.Failure? {
        return Failure(rows.error);
      }
      var ok, _ := DeleteEach(layout, rows.value, connector.deleteRecord);
      r := Success(ok);
    }

    /** `update`: every matching record edited and committed in turn, then
        normalised; the first commit that throws ends the call. */
    method Update(data: seq<(string, Value)>, connector: Connector) returns (r: Result<seq<FileMakerRecord>, Failure>)
      modifies this`query, this`command, this`count
      ensures QueryRan(connector)
      ensures old(QueryOutcome(connector)).Failure? ==> r == Failure(old(QueryOutcome(connector)).error)
      ensures old(QueryOutcome(connector)).Success? ==>
                var rows := old(QueryOutcome(connector)).value;
                var updated := UpdateAll(rows, data, connector.commit);
                (updated.Failure? ==> r == Failure(updated.error)) &&
                (updated.Success? ==>
                   r.Success? && |r.value| == |rows| &&
                   forall i :: 0 <= i < |rows| ==>
                     fresh(r.value[i]) &&
                     r.value[i].fields == RowFields(UpdatedRow(rows[i], data), rows[0].fieldNames) &&
                     r.value[i].recordId == rows[i].recordId)
    {
      var rows := ExecuteQuery(connector);
      if rows.Failure? {
        return Failure(rows.error);
      }
      var updated := UpdateRecords(rows.value, data, connector.commit);
      if updated.Failure? {
        return Failure(updated.error);
      }
      UpdateAllOutcome(rows.value, data, connector.commit);
      var records := FormatResults(updated.value, "");
      r := Success(records);
    }

    /** `performOneInsert`: the layout check, the client, then an add
        command with the fields set in order, executed under the error
        mapping of a find. */
    method PerformOneInsert(fields: seq<(string, Entry)>, connector: Connector)
      returns (r: Result<seq<NativeRow>, Failure>)
      modifies this`query
      ensures IsEmptyString(layout) ==> r == Failure(ConnectionError(LayoutNotSet, 0)) && query == old(query)
      ensures !IsEmptyString(layout) && Open(connector).OpenRefused? ==>
                r == Failure(ConnectionError(Open(connector).message, Open(connector).code)) && query == old(query)
      ensures Reaches(connector) ==>
                query == AddCommand(layout, fields) && r == AddOutcome(connector, layout, fields)
    {
      if IsEmptyString(layout) {
        return Failure(ConnectionError(LayoutNotSet, 0));
      }
      var client := Open(connector);
      if client.OpenRefused? {
        return Failure(ConnectionError(client.message, client.code));
      }
      query := AddCommand(layout, []);
      for i := 0 to |fields|
        invariant query == AddCommand(layout, fields[..i])
      {
        assert fields[..i + 1] == fields[..i] + [fields[i]];
        query := query.(fields := query.fields + [fields[i]]);
      }
      assert fields[..|fields|] == fields;
      r := ResultOf(connector.execute(query));
    }

    /** `insert`: the planned single inserts in order, their rows
        concatenated and normalised. */
    method Insert(data: seq<(string, Entry)>, connector: Connector) returns (r: Result<seq<FileMakerRecord>, Failure>)
      modifies this`query
      ensures InsertPlan(data) == [] ==> r == Success([]) && query == old(query)
      ensures InsertPlan(data) != [] && IsEmptyString(layout) ==>
                r == Failure(ConnectionError(LayoutNotSet, 0)) && query == old(query)
      ensures InsertPlan(data) != [] && !IsEmptyString(layout) && Open(connector).OpenRefused? ==>
                r == Failure(ConnectionError(Open(connector).message, Open(connector).code)) && query == old(query)
      ensures InsertPlan(data) != [] && Reaches(connector) ==>
                var all := InsertAll(connector, layout, InsertPlan(data));
                (all.Failure? ==>
                   r == Failure(all.error) &&
                   exists k :: 0 <= k < |InsertPlan(data)| &&
                     query == AddCommand(layout, InsertPlan(data)[k]) &&
                     InsertAll(connector, layout, InsertPlan(data)[..k]).Success? &&
                     AddOutcome(connector, layout, InsertPlan(data)[k]).Failure?) &&
                (all.Success? ==>
                   query == AddCommand(layout, InsertPlan(data)[|InsertPlan(data)| - 1]) &&
                   r.Success? && |r.value| == |all.value| &&
                   forall i :: 0 <= i < |all.value| ==>
                     fresh(r.value[i]) &&
                     r.value[i].fields == RowFields(all.value[i], all.value[0].fieldNames) &&
                     r.value[i].recordId == all.value[i].recordId)
    {
      var plan := InsertPlan(data);
      if plan == [] {
        return Success([]);
      }
      if IsEmptyString(layout) {
        return Failure(ConnectionError(LayoutNotSet, 0));
      }
      var client := Open(connector);
      if client.OpenRefused? {
        return Failure(ConnectionError(client.message, client.code));
      }
      var rows: seq<NativeRow> := [];
      for i := 0 to |plan|
        invariant InsertAll(connector, layout, plan[..i]) == Success(rows)
        invariant i > 0 ==> query == AddCommand(layout, plan[i - 1])
      {
        var added := PerformOneInsert(plan[i], connector);
        assert plan[..i + 1][..i] == plan[..i];
        if added.Failure? {
          assert query == AddCommand(layout, plan[i]);
          InsertAllStops(connector, layout, plan, i + 1);
          return Failure(added.error);
        }
        rows := rows + added.value;
      }
      assert plan[..|plan|] == plan;
      var records := FormatResults(rows, "");
      r := Success(records);
    }
  }
}
