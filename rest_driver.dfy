/** The Data API driver (src/Drivers/FMREST.php): the fluent builder state,
    the session token, the `_find` body it accumulates, and the normaliser. */
module RestDriver {
  import opened Wrappers
  import opened Common
  import opened Criteria
  import opened Records
  import opened RestQuery

  /** One row's record: a fresh record holding the row's properties that
      the pluck keeps, set in order, and the row's record identifier. */
  method RecordOf(row: RestRow, pluck: string) returns (record: FileMakerRecord)
    ensures fresh(record)
    ensures record.fields == Kept(row.fieldData, pluck) && record.recordId == row.recordId
  {
    record := new FileMakerRecord();
    var data := row.fieldData;
    var fields: map<string, Value> := map[];
    for j := 0 to |data|
      invariant fields == Kept(data[..j], pluck)
    {
      assert data[..j + 1][..j] == data[..j];
      if Keeps(pluck, data[j].0) {
        fields := fields[data[j].0 := data[j].1];
      }
    }
    assert data[..|data|] == data;
    record.fields := fields;
    record.SetRecordId(row.recordId);
  }

  /** `formatResults`: one fresh record per row, in order, holding the
      properties the pluck keeps and the row's record identifier. */
  method FormatResults(rows: seq<RestRow>, pluck: string) returns (records: seq<FileMakerRecord>)
    ensures |records| == |rows|
    ensures forall i :: 0 <= i < |rows| ==> fresh(records[i])
    ensures forall i, j :: 0 <= i < j < |records| ==> records[i] != records[j]
    ensures forall i :: 0 <= i < |rows| ==>
              records[i].fields == Kept(rows[i].fieldData, pluck) && records[i].recordId == rows[i].recordId
  {
    records := [];
    for i := 0 to |rows|
      invariant |records| == i
      invariant forall k :: 0 <= k < i ==> fresh(records[k])
      invariant forall k, l :: 0 <= k < l < i ==> records[k] != records[l]
      invariant forall k :: 0 <= k < i ==>
                  records[k].fields == Kept(rows[k].fieldData, pluck) && records[k].recordId == rows[k].recordId
    {
      var record := RecordOf(rows[i], pluck);
      records := records + [record];
    }
  }

  /** `first()` over normalised rows listed in the order `p`: none exactly
      when there is no row, otherwise the record of row `p[0]` with all its
      fields and its identifier. */
  ghost predicate IsFirstOf(r: Option<FileMakerRecord>, rows: seq<RestRow>, p: seq<nat>)
    requires IsPermutation(p, |rows|)
    reads if r.Some? then {r.value} else {}
  {
    (r.None? <==> rows == []) &&
    (r.Some? ==> r.value.fields == Kept(rows[p[0]].fieldData, "") && r.value.recordId == rows[p[0]].recordId)
  }

  class FMREST {
    var connection: map<string, Value>
    var layout: string
    var where: seq<Criterion>
    var whereNot: seq<Criterion>
    var whereIn: seq<Inclusion>
    var take: Option<int>
    var skip: int
    var order: seq<SortRule>
    var randomOrder: bool
    /** The criteria objects built so far; never cleared between queries. */
    var query: seq<QueryObject>
    /** The cached session token. */
    var token: Option<string>

    /** The state `new FMREST()` leaves apart from the configuration: no
        layout, no criteria, no limit or order, no kept query objects and
        no token. */
    ghost predicate Unbuilt()
      reads this
    {
      layout == "" && where == [] && whereNot == [] && whereIn == [] &&
      take == None && skip == 0 && order == [] && !randomOrder &&
      query == [] && token == None
    }

    /** Every `$whereIn` entry has a value. */
    ghost predicate Valid()
      reads this`whereIn
    {
      NonEmptyInclusions(whereIn)
    }

    constructor ()
      ensures Valid()
      ensures connection == map[] && layout == ""
      ensures where == [] && whereNot == [] && whereIn == []
      ensures take == None && skip == 0 && order == [] && !randomOrder
      ensures query == [] && token == None
    {
      connection := map[];
      layout := "";
      where, whereNot, whereIn := [], [], [];
      take, skip := None, 0;
      order, randomOrder := [], false;
      query, token := [], None;
    }

    /** `setConnection`: stores the configuration; nothing is opened. */
    method SetConnection(config: map<string, Value>)
      modifies this`connection
      ensures connection == config
    {
      connection := config;
    }

    /** `layout` and its alias `table`. */
    method Layout(name: string)
      modifies this`layout
      ensures layout == name
    {
      layout := name;
    }

    method Table(name: string)
      modifies this`layout
      ensures layout == name
    {
      Layout(name);
    }

    method Where(field: string, operator: Option<string>, value: Option<string>)
      modifies this`where, this`whereNot
      ensures match RouteWhere(field, operator, value)
              case ToWhere(c) => where == old(where) + [c] && whereNot == old(whereNot)
              case ToWhereNot(c) => where == old(where) && whereNot == old(whereNot) + [c]
    {
      var op := operator;
      var v := if value.Some? then value.value else if operator.Some? then operator.value else "";
      if value.None? {
        op := Some(ExactMatch);
      }
      if op == Some(NotEqual) {
        WhereNot(field, v);
      } else {
        where := where + [Criterion(field, op, v)];
      }
    }

    method WhereNot(field: string, value: string)
      modifies this`whereNot
      ensures whereNot == old(whereNot) + [Criterion(field, None, value)]
    {
      whereNot := whereNot + [Criterion(field, None, value)];
    }

    method WhereIn(field: string, values: InValues)
      requires Valid()
      modifies this`whereIn
      ensures Valid()
      ensures IsEmptyArgument(values) ==> whereIn == old(whereIn)
      ensures !IsEmptyArgument(values) ==> whereIn == old(whereIn) + [InclusionFor(field, values).value]
    {
      if IsEmptyArgument(values) {
        return;
      }
      var items := if values.Single? then [values.item] else values.items;
      whereIn := whereIn + [Inclusion(field, items)];
    }

    /** `take` and its alias `limit`. */
    method Take(n: int)
      modifies this`take
      ensures take == Some(n)
    {
      take := Some(n);
    }

    method Limit(n: int)
      modifies this`take
      ensures take == Some(n)
    {
      Take(n);
    }

    /** `skip` and its alias `offset`. */
    method Skip(n: int)
      modifies this`skip
      ensures skip == n
    {
      skip := n;
    }

    method Offset(n: int)
      modifies this`skip
      ensures skip == n
    {
      Skip(n);
    }

    /** `orderBy($field, $order = 'asc')` and the two shorthands. */
    method OrderBy(field: string, direction: string)
      modifies this`order
      ensures order == old(order) + [SortRule(field, direction)]
    {
      order := order + [SortRule(field, direction)];
    }

    method OrderByAscend(field: string)
      modifies this`order
      ensures order == old(order) + [SortRule(field, Ascending)]
    {
      OrderBy(field, Ascending);
    }

    method OrderByDescend(field: string)
      modifies this`order
      ensures order == old(order) + [SortRule(field, Descending)]
    {
      OrderBy(field, Descending);
    }

    method InRandomOrder()
      modifies this`randomOrder
      ensures randomOrder
    {
      randomOrder := true;
    }

    /** `reorder`: forgets the sort rules and the random flag; the filters,
        take and skip are outside its frame and stay as they are. */
    method Reorder()
      modifies this`order, this`randomOrder
      ensures order == [] && !randomOrder
    {
      order := [];
      randomOrder := false;
    }

    /** The base URI of every request, from the stored host and file. */
    function BaseUri(): string
      reads this
    {
      ConnectionURL(TextOf(Setting("host")), TextOf(Setting("file")))
    }

    function Setting(key: string): Value
      reads this
    {
      if key in connection then connection[key] else Null
    }

    /** `initConnection`: signs in only while no token is cached. */
    method InitConnection(signIn: SignInReply)
      modifies this`token
      ensures token == SignedIn(old(token), signIn)
    {
      if token.Some? {
        return;
      }
      if signIn.Token? {
        token := Some(signIn.token);
      }
    }

    /** `initQuery`: refuses an empty layout before any sign-in. */
    method InitQuery(signIn: SignInReply) returns (failure: Option<Failure>)
      modifies this`token
      ensures IsEmptyString(layout) ==> failure == Some(ConnectionError(LayoutNotSet, 0)) && token == old(token)
      ensures !IsEmptyString(layout) ==> failure == None && token == SignedIn(old(token), signIn)
    {
      if IsEmptyString(layout) {
        return Some(ConnectionError(LayoutNotSet, 0));
      }
      InitConnection(signIn);
      failure := None;
    }

    /** The inner loop both helpers share: sets every `where` criterion on
        the object, in order, each with its encoded value. */
    static method SetCriteria(obj: QueryObject, where: seq<Criterion>) returns (criteria: QueryObject)
      ensures criteria == Assign(obj, EvaluatedPairs(where))
    {
      criteria := obj;
      for i := 0 to |where|
        invariant criteria == Assign(obj, EvaluatedPairs(where[..i]))
      {
        EvaluatedPairsStep(where, i);
        AssignSnoc(obj, EvaluatedPairs(where[..i]), (where[i].field, EvaluateEmptyValue(where[i])));
        criteria := criteria[where[i].field := EvaluateEmptyValue(where[i])];
      }
      assert where[..|where|] == where;
    }

    /** `processWhereClauses`: appends the AND object when there are
        criteria and no inclusion. */
    method ProcessWhereClauses()
      modifies this`query
      ensures query == old(query) + (if HasAndObject(where, whereIn) then [AndObject(where)] else [])
    {
      if where == [] {
        return;
      }
      if whereIn == [] {
        var criteria := SetCriteria(map[], where);
        query := query + [criteria];
      }
    }

    /** One inclusion's objects: per value, the raw value with every `where`
        criterion set on top. */
    method AddValueObjects(inc: Inclusion)
      modifies this`query
      ensures query == old(query) + ValueObjects(inc, where)
    {
      for k := 0 to |inc.values|
        invariant query == old(query) + ValueObjects(Inclusion(inc.field, inc.values[..k]), where)
      {
        var criteria := SetCriteria(map[inc.field := inc.values[k]], where);
        assert ValueObjects(Inclusion(inc.field, inc.values[..k + 1]), where)
               == ValueObjects(Inclusion(inc.field, inc.values[..k]), where) + [criteria];
        query := query + [criteria];
      }
      assert inc.values[..|inc.values|] == inc.values;
    }

    /** `processWhereInClauses`: one object per inclusion value, each the
        raw value with every `where` criterion set on top. */
    method ProcessWhereInClauses()
      modifies this`query
      ensures query == old(query) + InclusionObjects(whereIn, where)
    {
      if whereIn == [] {
        return;
      }
      for i := 0 to |whereIn|
        invariant query == old(query) + InclusionObjects(whereIn[..i], where)
      {
        assert whereIn[..i + 1][..i] == whereIn[..i];
        AddValueObjects(whereIn[i]);
      }
      assert whereIn[..|whereIn|] == whereIn;
    }

    /** `processWhereNotClauses`: one omit object per exclusion. */
    method ProcessWhereNotClauses()
      modifies this`query
      ensures query == old(query) + OmitObjects(whereNot)
    {
      if whereNot == [] {
        return;
      }
      for i := 0 to |whereNot|
        invariant query == old(query) + OmitObjects(whereNot[..i])
      {
        var criteria: QueryObject := map[whereNot[i].field := EvaluateEmptyValue(whereNot[i])];
        criteria := criteria[OmitKey := OmitFlag];
        assert OmitObjects(whereNot[..i + 1]) == OmitObjects(whereNot[..i]) + [criteria];
        query := query + [criteria];
      }
      assert whereNot[..|whereNot|] == whereNot;
    }

    /** `buildFindQueryBody`: appends this query's objects to the ones kept
        from earlier builds and sends them all, with the limit. */
    method BuildFindQueryBody() returns (body: FindBody)
      modifies this`query
      ensures query == old(query) + FindQuery(where, whereNot, whereIn)
      ensures body == FindBody(query, LimitFor(take))
    {
      var and := if HasAndObject(where, whereIn) then [AndObject(where)] else [];
      ProcessWhereClauses();
      ProcessWhereInClauses();
      ProcessWhereNotClauses();
      assert query == old(query) + and + InclusionObjects(whereIn, where) + OmitObjects(whereNot);
      body := FindBody(query, if IsEmptyTake(take) then None else take);
    }

    /** What `executeQuery` yields from the current state: the layout check,
        then the list-all request or the `_find` request with the token
        held after sign-in. */
    function QueryOutcome(server: RestServer): Result<seq<RestRow>, Failure>
      reads this
    {
      QueryOutcomeWith(server, where)
    }

    /** The same outcome with `w` in place of the `where` list, for a query
        whose criteria a call extends before it runs (`find`). */
    function QueryOutcomeWith(server: RestServer, w: seq<Criterion>): Result<seq<RestRow>, Failure>
      reads this
    {
      if IsEmptyString(layout) then Failure(ConnectionError(LayoutNotSet, 0))
      else
        var bearer := SignedIn(token, server.signIn);
        match EndpointFor(w, whereNot, whereIn)
        case ListRecords =>
          RowsOf(server.respond(HttpRequest(BaseUri(), ListAll(layout), bearer)))
        case FindRecords =>
          var body := FindBody(query + FindQuery(w, whereNot, whereIn), LimitFor(take));
          RowsOf(server.respond(HttpRequest(BaseUri(), FindIn(layout, body), bearer)))
    }

    /** The state a query run leaves behind: past the layout check the
        token is the one held after sign-in, and on the `_find` path this
        query's objects are appended to those kept from earlier runs; an
        empty layout changes nothing. */
    twostate predicate QueryRan(server: RestServer)
      reads this
    {
      token == (if IsEmptyString(old(layout)) then old(token) else SignedIn(old(token), server.signIn)) &&
      query == if !IsEmptyString(old(layout)) && EndpointFor(where, whereNot, whereIn) == FindRecords
               then old(query) + FindQuery(where, whereNot, whereIn)
               else old(query)
    }

    /** `executeQuery`. The objects are appended only on the `_find` path
        and only after the layout check passed; a `_find` body always
        carries at least one object of this query. */
    method ExecuteQuery(server: RestServer) returns (r: Result<seq<RestRow>, Failure>)
      requires Valid()
      modifies this`query, this`token
      ensures r == old(QueryOutcome(server))
      ensures QueryRan(server)
      ensures EndpointFor(where, whereNot, whereIn) == FindRecords ==> FindQuery(where, whereNot, whereIn) != []
    {
      FindRequestIffNonEmptyQuery(where, whereNot, whereIn);
      if where == [] && whereNot == [] && whereIn == [] {
        var failure := InitQuery(server.signIn);
        if failure.Some? {
          return Failure(failure.value);
        }
        r := RowsOf(server.respond(HttpRequest(BaseUri(), ListAll(layout), token)));
      } else {
        var failure := InitQuery(server.signIn);
        if failure.Some? {
          return Failure(failure.value);
        }
        var body := BuildFindQueryBody();
        r := RowsOf(server.respond(HttpRequest(BaseUri(), FindIn(layout, body), token)));
      }
    }

    /** `get`: the normalised rows, listed in the shuffle's order when
        random order is set. */
    method Get(server: RestServer, shuffle: nat -> seq<nat>) returns (r: Result<seq<FileMakerRecord>, Failure>)
      requires IsShuffle(shuffle)
      requires Valid()
      modifies this`query, this`token
      ensures QueryRan(server)
      ensures old(QueryOutcome(server)).Failure? ==> r == Failure(old(QueryOutcome(server)).error)
      ensures old(QueryOutcome(server)).Success? ==>
                var rows := old(QueryOutcome(server)).value;
                var p := Arrangement(randomOrder, shuffle, |rows|);
                r.Success? && |r.value| == |rows| &&
                (forall i, j :: 0 <= i < j < |rows| ==> r.value[i] != r.value[j]) &&
                forall i :: 0 <= i < |rows| ==>
                  fresh(r.value[i]) && r.value[i].fields == Kept(rows[p[i]].fieldData, "") &&
                  r.value[i].recordId == rows[p[i]].recordId
    {
      var rows := ExecuteQuery(server);
      if rows.Failure? {
        return Failure(rows.error);
      }
      var records := FormatResults(rows.value, "");
      var p := Arrangement(randomOrder, shuffle, |records|);
      var listed := Listed(records, p);
      r := Success(listed);
    }

    /** `first`: the first of the records `get` lists, or null when there is
        none. */
    method First(server: RestServer, shuffle: nat -> seq<nat>) returns (r: Result<Option<FileMakerRecord>, Failure>)
      requires IsShuffle(shuffle)
      requires Valid()
      modifies this`query, this`token
      ensures QueryRan(server)
      ensures old(QueryOutcome(server)).Failure? ==> r == Failure(old(QueryOutcome(server)).error)
      ensures old(QueryOutcome(server)).Success? ==>
                var rows := old(QueryOutcome(server)).value;
                r.Success? && (r.value.Some? ==> fresh(r.value.value)) &&
                IsFirstOf(r.value, rows, Arrangement(randomOrder, shuffle, |rows|))
    {
      var all := Get(server, shuffle);
      if all.Failure? {
        return Failure(all.error);
      }
      r := Success(if all.value == [] then None else Some(all.value[0]));
    }

    /** `find`: without a key field it throws; otherwise it adds an exact
        match on that field to the kept criteria and returns `first` of the
        query extended by it. */
    method Find(value: string, primaryKey: Option<string>, server: RestServer, shuffle: nat -> seq<nat>)
      returns (r: Result<Option<FileMakerRecord>, Failure>)
      requires IsShuffle(shuffle)
      requires Valid()
      modifies this`where, this`whereNot, this`query, this`token
      ensures primaryKey.None? ==>
                r == Failure(ConnectionError(PrimaryKeyNotSet, 0)) && where == old(where) &&
                query == old(query) && token == old(token)
      ensures primaryKey.Some? ==> where == old(where) + [Criterion(primaryKey.value, Some(ExactMatch), value)]
      ensures whereNot == old(whereNot)
      ensures primaryKey.Some? ==> QueryRan(server)
      ensures primaryKey.Some? ==>
                var outcome := old(QueryOutcomeWith(server, where + [Criterion(primaryKey.value, Some(ExactMatch), value)]));
                (outcome.Failure? ==> r == Failure(outcome.error)) &&
                (outcome.Success? ==>
                   r.Success? && (r.value.Some? ==> fresh(r.value.value)) &&
                   IsFirstOf(r.value, outcome.value, Arrangement(randomOrder, shuffle, |outcome.value|)))
    {
      if primaryKey.None? {
        return Failure(ConnectionError(PrimaryKeyNotSet, 0));
      }
      ghost var extended := old(QueryOutcomeWith(server, where + [Criterion(primaryKey.value, Some(ExactMatch), value)]));
      Where(primaryKey.value, Some(value), None);
      assert QueryOutcome(server) == extended;
      r := First(server, shuffle);
    }

    /** `value`: the first record's property when it is set and not null;
        otherwise it throws that the field was not found. */
    method Value(field: string, server: RestServer, shuffle: nat -> seq<nat>) returns (r: Result<Value, Failure>)
      requires IsShuffle(shuffle)
      requires Valid()
      modifies this`query, this`token
      ensures QueryRan(server)
      ensures old(QueryOutcome(server)).Failure? ==> r == Failure(old(QueryOutcome(server)).error)
      ensures old(QueryOutcome(server)).Success? ==>
                var rows := old(QueryOutcome(server)).value;
                var p := Arrangement(randomOrder, shuffle, |rows|);
                var found := if rows == [] then None else Lookup(Kept(rows[p[0]].fieldData, ""), field);
                if found.Some? && IsSet(found.value) then r == Success(found.value)
                else r == Failure(ConnectionError(FieldNotFound(field), 0))
    {
      var first := First(server, shuffle);
      if first.Failure? {
        return Failure(first.error);
      }
      if first.value.Some? && field in first.value.value.fields && IsSet(first.value.value.fields[field]) {
        return Success(first.value.value.fields[field]);
      }
      r := Failure(ConnectionError(FieldNotFound(field), 0));
    }

    /** `pluck`: the rows normalised with the field as pluck, then each
        record's value for it (null where the record lacks it or holds null). */
    method Pluck(field: string, server: RestServer) returns (r: Result<seq<Value>, Failure>)
      requires Valid()
      modifies this`query, this`token
      ensures QueryRan(server)
      ensures old(QueryOutcome(server)).Failure? ==> r == Failure(old(QueryOutcome(server)).error)
      ensures old(QueryOutcome(server)).Success? ==>
                var rows := old(QueryOutcome(server)).value;
                r.Success? && |r.value| == |rows| &&
                forall i :: 0 <= i < |rows| ==>
                  var kept := Lookup(Kept(rows[i].fieldData, field), field);
                  r.value[i] == if kept.Some? && IsSet(kept.value) then kept.value else Null
    {
      var rows := ExecuteQuery(server);
      if rows.Failure? {
        return Failure(rows.error);
      }
      var records := FormatResults(rows.value, field);
      var values := PluckValues(records, field);
      r := Success(values);
    }

    /** `getRecordById`: signs in if needed (no layout check) and fetches. */
    method GetRecordById(recordId: Value, server: RestServer) returns (r: Result<Option<RestRow>, Failure>)
      modifies this`token
      ensures token == SignedIn(old(token), server.signIn)
      ensures r == Fetched(server.respond(HttpRequest(BaseUri(), Fetch(layout, recordId), token)))
    {
      InitConnection(server.signIn);
      r := Fetched(server.respond(HttpRequest(BaseUri(), Fetch(layout, recordId), token)));
    }

    /** `byRecordId`: the fetched row, wrapped and normalised; a missing row
        still yields a record, with no field and a null identifier. */
    method ByRecordId(recordId: Value, server: RestServer) returns (r: Result<FileMakerRecord, Failure>)
      modifies this`token
      ensures token == SignedIn(old(token), server.signIn)
      ensures var fetched := Fetched(server.respond(HttpRequest(BaseUri(), Fetch(layout, recordId), token)));
              (fetched.Failure? ==> r == Failure(fetched.error)) &&
              (fetched.Success? ==> r.Success? && fresh(r.value) &&
                                    r.value.fields == Kept(RowOrEmpty(fetched.value).fieldData, "") &&
                                    r.value.recordId == RowOrEmpty(fetched.value).recordId)
    {
      var row := GetRecordById(recordId, server);
      if row.Failure? {
        return Failure(row.error);
      }
      var data := WrapWithJsonStructure(SingleRow(row.value));
      var records := FormatResults([RowOrEmpty(data[0])], "");
      r := Success(records[0]);
    }

    /** `performOneInsert`: layout check and sign-in, then create and fetch. */
    method PerformOneInsert(fields: seq<(string, Entry)>, server: RestServer)
      returns (r: Result<Option<RestRow>, Failure>)
      modifies this`token
      ensures IsEmptyString(layout) ==> r == Failure(ConnectionError(LayoutNotSet, 0)) && token == old(token)
      ensures !IsEmptyString(layout) ==>
                token == SignedIn(old(token), server.signIn) &&
                r == InsertOne(server, BaseUri(), layout, token, fields)
    {
      var failure := InitQuery(server.signIn);
      if failure.Some? {
        return Failure(failure.value);
      }
      var created := server.respond(HttpRequest(BaseUri(), Create(layout, BuildInsertQueryBody(fields)), token));
      if created.HttpFailure? {
        return Failure(Halted(created.message));
      }
      var p := created.payload;
      if p.recordId.Some? && IsSet(p.recordId.value) {
        r := GetRecordById(p.recordId.value, server);
      } else {
        r := Success(None);
      }
    }

    /** The loop of `insert`: the planned single inserts in order, each
        signing in first; the first failure ends it. */
    method InsertRows(plan: seq<seq<(string, Entry)>>, server: RestServer)
      returns (r: Result<seq<Option<RestRow>>, Failure>)
      requires !IsEmptyString(layout) && plan != []
      modifies this`token
      ensures token == SignedIn(old(token), server.signIn)
      ensures r == InsertAll(server, BaseUri(), layout, token, plan)
    {
      var rows: seq<Option<RestRow>> := [];
      for i := 0 to |plan|
        invariant token == SignedIn(old(token), server.signIn) || (i == 0 && token == old(token))
        invariant InsertAll(server, BaseUri(), layout, SignedIn(old(token), server.signIn), plan[..i]) == Success(rows)
      {
        var one := PerformOneInsert(plan[i], server);
        assert plan[..i + 1][..i] == plan[..i];
        if one.Failure? {
          InsertAllStopsAtFailure(server, BaseUri(), layout, token, plan, i + 1);
          return Failure(one.error);
        }
        rows := rows + [one.value];
      }
      assert plan[..|plan|] == plan;
      r := Success(rows);
    }

    /** `insert`: the planned single inserts in order, then the normalised
        records (a failed fetch-back gives an empty record). */
    method Insert(data: seq<(string, Entry)>, server: RestServer) returns (r: Result<seq<FileMakerRecord>, Failure>)
      modifies this`token
      ensures InsertPlan(data) == [] ==> r.Success? && r.value == [] && token == old(token)
      ensures InsertPlan(data) != [] && IsEmptyString(layout) ==>
                r == Failure(ConnectionError(LayoutNotSet, 0)) && token == old(token)
      ensures InsertPlan(data) != [] && !IsEmptyString(layout) ==>
                token == SignedIn(old(token), server.signIn) &&
                var all := InsertAll(server, BaseUri(), layout, token, InsertPlan(data));
                (all.Failure? ==> r == Failure(all.error)) &&
                (all.Success? ==>
                  r.Success? && |r.value| == |all.value| &&
                  forall i :: 0 <= i < |all.value| ==>
                    fresh(r.value[i]) && r.value[i].fields == Kept(RowOrEmpty(all.value[i]).fieldData, "") &&
                    r.value[i].recordId == RowOrEmpty(all.value[i]).recordId)
    {
      var plan := InsertPlan(data);
      if plan == [] {
        return Success([]);
      }
      if IsEmptyString(layout) {
        return Failure(ConnectionError(LayoutNotSet, 0));
      }
      var all := InsertRows(plan, server);
      if all.Failure? {
        return Failure(all.error);
      }
      var rows := all.value;
      var normalised := seq(|rows|, i requires 0 <= i < |rows| => RowOrEmpty(rows[i]));
      var records := FormatResults(normalised, "");
      r := Success(records);
    }
  }
}
