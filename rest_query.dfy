/** The REST driver's compiled request: the choice between the list-all
    request and a `_find` request, and the `_find` body built from the
    accumulated criteria (src/Drivers/FMREST.php, buildFindQueryBody and the
    processWhere* helpers). */
module RestQuery {
  import opened Wrappers
  import opened Common
  import opened Criteria

  /** One criteria object of the `query` array: property name to value. */
  type QueryObject = map<string, string>

  const OmitKey := "omit"
  const OmitFlag := "true"

  /** The decoded `_find` body: the criteria objects and an optional limit. */
  datatype FindBody = FindBody(query: seq<QueryObject>, limit: Option<int>)

  /** The two request shapes a query can take. */
  datatype Endpoint = ListRecords | FindRecords

  /** `executeQuery`: the list-all request when there is no criterion of any
      kind, the `_find` request otherwise. */
  function EndpointFor(where: seq<Criterion>, whereNot: seq<Criterion>, whereIn: seq<Inclusion>): Endpoint
  {
    if where == [] && whereNot == [] && whereIn == [] then ListRecords else FindRecords
  }

  /** The body's limit: present exactly when `take` is not empty. Skip and
      sort order are never sent. */
  function LimitFor(take: Option<int>): (r: Option<int>)
    ensures r.Some? <==> !IsEmptyTake(take)
    ensures r.Some? ==> take == r
  {
    if IsEmptyTake(take) then None else take
  }

  /** The object holding every `where` criterion; a later criterion on a
      field overwrites an earlier one. */
  function AndObject(where: seq<Criterion>): QueryObject
  {
    Assign(map[], EvaluatedPairs(where))
  }

  /** The object for one inclusion value: the raw value on the inclusion
      field, then every `where` criterion on top of it. */
  function InclusionObject(field: string, value: string, where: seq<Criterion>): QueryObject
  {
    Assign(map[field := value], EvaluatedPairs(where))
  }

  /** The objects for one inclusion entry, one per value in order. */
  function ValueObjects(inc: Inclusion, where: seq<Criterion>): (r: seq<QueryObject>)
    ensures |r| == |inc.values|
    ensures forall k :: 0 <= k < |r| ==> r[k] == InclusionObject(inc.field, inc.values[k], where)
  {
    seq(|inc.values|, k requires 0 <= k < |inc.values| => InclusionObject(inc.field, inc.values[k], where))
  }

  /** `processWhereInClauses`: the objects for every inclusion, in order. */
  function InclusionObjects(whereIn: seq<Inclusion>, where: seq<Criterion>): seq<QueryObject>
  {
    if whereIn == [] then []
    else InclusionObjects(whereIn[..|whereIn| - 1], where) + ValueObjects(whereIn[|whereIn| - 1], where)
  }

  /** The object for one exclusion: its field and raw value, marked omit. */
  function OmitObject(c: Criterion): QueryObject
  {
    map[c.field := EvaluateEmptyValue(c)][OmitKey := OmitFlag]
  }

  /** `processWhereNotClauses`: one omit object per exclusion, in order. */
  function OmitObjects(whereNot: seq<Criterion>): (r: seq<QueryObject>)
    ensures |r| == |whereNot|
    ensures forall k :: 0 <= k < |r| ==> r[k] == OmitObject(whereNot[k])
  {
    seq(|whereNot|, k requires 0 <= k < |whereNot| => OmitObject(whereNot[k]))
  }

  /** Whether `processWhereClauses` emits the object of all `where`
      criteria: only when there are some and there is no inclusion (with
      inclusions, the criteria are folded into each inclusion object). */
  predicate HasAndObject(where: seq<Criterion>, whereIn: seq<Inclusion>)
  {
    where != [] && whereIn == []
  }

  /** The objects one `buildFindQueryBody` call appends to `$this->query`. */
  function FindQuery(where: seq<Criterion>, whereNot: seq<Criterion>, whereIn: seq<Inclusion>): seq<QueryObject>
  {
    (if HasAndObject(where, whereIn) then [AndObject(where)] else [])
    + InclusionObjects(whereIn, where)
    + OmitObjects(whereNot)
  }

  /** There is one inclusion object per (inclusion, value) combination. */
  lemma {:induction false} InclusionObjectsLength(whereIn: seq<Inclusion>, where: seq<Criterion>)
    ensures |InclusionObjects(whereIn, where)| == TotalValues(whereIn)
    decreases |whereIn|
  {
    if whereIn != [] {
      InclusionObjectsLength(whereIn[..|whereIn| - 1], where);
    }
  }

  /** A build appends [one AND object if there are criteria and no
      inclusion] + (one object per inclusion value) + (one per exclusion). */
  lemma FindQueryLength(where: seq<Criterion>, whereNot: seq<Criterion>, whereIn: seq<Inclusion>)
    ensures |FindQuery(where, whereNot, whereIn)|
            == (if HasAndObject(where, whereIn) then 1 else 0) + TotalValues(whereIn) + |whereNot|
  {
    InclusionObjectsLength(whereIn, where);
  }

  /** The objects come in the order the helpers run: the AND object first
      (when there is one), then the inclusion objects, then one omit object
      per exclusion at the end, in call order. */
  lemma FindQueryLayout(where: seq<Criterion>, whereNot: seq<Criterion>, whereIn: seq<Inclusion>)
    ensures HasAndObject(where, whereIn) ==> FindQuery(where, whereNot, whereIn)[0] == AndObject(where)
    ensures var q := FindQuery(where, whereNot, whereIn);
            forall k :: 0 <= k < |whereNot| ==> q[|q| - |whereNot| + k] == OmitObject(whereNot[k])
    ensures var q := FindQuery(where, whereNot, whereIn);
            var start := if HasAndObject(where, whereIn) then 1 else 0;
            forall k :: 0 <= k < |InclusionObjects(whereIn, where)| ==> q[start + k] == InclusionObjects(whereIn, where)[k]
  {
    InclusionObjectsLength(whereIn, where);
  }

  /** Inclusion `j`'s value `k` sits at position (values of the inclusions
      before `j`) + `k` of the inclusion objects. */
  lemma {:induction false} InclusionObjectAt(whereIn: seq<Inclusion>, where: seq<Criterion>, j: nat, k: nat)
    requires j < |whereIn| && k < |whereIn[j].values|
    ensures TotalValues(whereIn[..j]) + k < |InclusionObjects(whereIn, where)|
    ensures InclusionObjects(whereIn, where)[TotalValues(whereIn[..j]) + k]
            == InclusionObject(whereIn[j].field, whereIn[j].values[k], where)
    decreases |whereIn|
  {
    var n := |whereIn| - 1;
    var init := whereIn[..n];
    InclusionObjectsLength(init, where);
    if j < n {
      assert init[..j] == whereIn[..j];
      InclusionObjectAt(init, where, j, k);
      TotalValuesAppend(init[..j], init[j..]);
      assert init[..j] + init[j..] == init;
    } else {
      assert whereIn[..j] == init;
    }
  }

  /** In the AND object a field holds the encoded value of the last `where`
      criterion on it, and no other field is present. */
  lemma AndObjectLookup(where: seq<Criterion>, f: string)
    ensures Lookup(AndObject(where), f) == LastFor(EvaluatedPairs(where), f)
  {
    AssignLookup(map[], EvaluatedPairs(where), f);
  }

  /** In an inclusion object a field holds the encoded value of the last
      `where` criterion on it; the inclusion field keeps the raw inclusion
      value only when no `where` criterion names it; nothing else is present. */
  lemma InclusionObjectLookup(field: string, value: string, where: seq<Criterion>, f: string)
    ensures Lookup(InclusionObject(field, value, where), f)
            == if LastFor(EvaluatedPairs(where), f).Some? then LastFor(EvaluatedPairs(where), f)
               else if f == field then Some(value)
               else None
  {
    AssignLookup(map[field := value], EvaluatedPairs(where), f);
  }

  /** An omit object carries the exclusion's raw value and the omit marker
      (the marker wins if the excluded field is itself named 'omit'). */
  lemma OmitObjectLookup(c: Criterion, f: string)
    requires c.operator.None?
    ensures Lookup(OmitObject(c), OmitKey) == Some(OmitFlag)
    ensures f != OmitKey ==> Lookup(OmitObject(c), f) == if f == c.field then Some(c.value) else None
  {
  }

  /** When every inclusion has a value, the `_find` request is the one taken
      exactly when the body it sends has at least one criteria object: the
      list-all request is used precisely when nothing would be sent. */
  lemma FindRequestIffNonEmptyQuery(where: seq<Criterion>, whereNot: seq<Criterion>, whereIn: seq<Inclusion>)
    requires NonEmptyInclusions(whereIn)
    ensures EndpointFor(where, whereNot, whereIn) == FindRecords <==> FindQuery(where, whereNot, whereIn) != []
  {
    FindQueryLength(where, whereNot, whereIn);
    TotalValuesBound(whereIn);
  }

  /** A worked query: one equality criterion, one inclusion of two regions
      and one exclusion compile to three objects, one per region, each also
      holding the criterion, then the omit object. */
  lemma ThreeObjectScenario()
    ensures var where := [Criterion("status", Some("=="), "active")];
            var whereIn := [Inclusion("region", ["east", "west"])];
            var whereNot := [Criterion("archived", None, "true")];
            FindQuery(where, whereNot, whereIn)
            == [ map["region" := "east", "status" := "==active"],
                 map["region" := "west", "status" := "==active"],
                 map["archived" := "true", "omit" := "true"] ]
  {
    var where := [Criterion("status", Some("=="), "active")];
    var whereIn := [Inclusion("region", ["east", "west"])];
    assert EvaluateEmptyValue(where[0]) == "==" + "active" == "==active";
    assert EvaluatedPairs(where) == [("status", "==active")];
    assert whereIn[..0] == [];
    assert InclusionObjects(whereIn, where) == ValueObjects(whereIn[0], where);
  }

  /** One row of a Data API response: its `recordId` and its `fieldData`
      object, in property order. */
  datatype RestRow = RestRow(recordId: Value, fieldData: seq<(string, Value)>)

  /** The decoded `response` object of a reply: the `data` rows of a read, and
      the `recordId` of a create when present. */
  datatype Payload = Payload(data: seq<RestRow>, recordId: Option<Value>)

  /** What a request asks of the Data API. */
  datatype Target =
    | ListAll(layout: string)
    | FindIn(layout: string, body: FindBody)
    | Create(layout: string, fieldData: map<string, Entry>)
    | Fetch(layout: string, recordId: Value)

  /** A request: the client's base URI, its target and the bearer token sent
      (an absent token is sent as an empty one). */
  datatype HttpRequest = HttpRequest(baseUri: string, target: Target, bearer: Option<string>)

  datatype HttpReply = Ok(payload: Payload) | HttpFailure(message: string)

  /** The reply to the sign-in request: a token, a reply without one, or a
      failed request (whose message is echoed and otherwise ignored). */
  datatype SignInReply = Token(token: string) | NoToken | SignInFailed(message: string)

  /** The Data API as the driver sees it: the sign-in reply, and a reply for
      every other request. */
  datatype RestServer = RestServer(signIn: SignInReply, respond: HttpRequest -> HttpReply)

  const UrlScheme := "https://"
  const UrlDatabases := "/fmi/data/v2/databases/"

  /** `connectionURL`: the base URI built from the host and the file. */
  function ConnectionURL(host: string, file: string): string
  {
    UrlScheme + host + UrlDatabases + file + "/"
  }

  /** For hosts without a '/', the base URI determines host and file: two
      connections with different hosts or files never share a base URI. */
  lemma ConnectionURLInjective(h1: string, f1: string, h2: string, f2: string)
    requires '/' !in h1 && '/' !in h2
    requires ConnectionURL(h1, f1) == ConnectionURL(h2, f2)
    ensures h1 == h2 && f1 == f2
  {
    var u := ConnectionURL(h1, f1);
    var n := |UrlScheme|;
    assert u == UrlScheme + h1 + UrlDatabases + f1 + "/";
    assert u == UrlScheme + h2 + UrlDatabases + f2 + "/";
    assert u[n + |h1|] == '/' && u[n + |h2|] == '/';
    assert forall i :: 0 <= i < |h1| ==> u[n + i] == h1[i] != '/';
    assert forall i :: 0 <= i < |h2| ==> u[n + i] == h2[i] != '/';
    assert |h1| == |h2|;
    assert h1 == u[n..n + |h1|] == h2;
    var m := n + |h1| + |UrlDatabases|;
    assert f1 == u[m..|u| - 1] == f2;
  }

  /** `initConnection`: a cached token is kept; without one, the sign-in
      reply's token is stored when it has one. */
  function SignedIn(token: Option<string>, reply: SignInReply): (r: Option<string>)
    ensures token.Some? ==> r == token
    ensures token.None? ==> (r.Some? <==> reply.Token?)
    ensures token.None? && reply.Token? ==> r == Some(reply.token)
  {
    if token.Some? then token
    else if reply.Token? then Some(reply.token)
    else None
  }

  /** From no cached token, a sign-in reply carrying a token is stored, and
      it is the token every later request sends whatever later sign-in
      replies say; the other replies leave the driver without a token. */
  lemma FirstSignInStoresToken(reply: SignInReply, later: SignInReply)
    ensures reply.Token? ==> SignedIn(SignedIn(None, reply), later) == Some(reply.token)
    ensures !reply.Token? ==> SignedIn(None, reply) == None
  {
    if reply.Token? {
      SignInOnce(None, reply, later);
    }
  }

  /** Signing in again changes nothing: the token is obtained once per
      driver instance. */
  lemma SignInOnce(token: Option<string>, first: SignInReply, later: SignInReply)
    requires SignedIn(token, first).Some?
    ensures SignedIn(SignedIn(token, first), later) == SignedIn(token, first)
  {
  }

  /** A read request's outcome: its rows, or a halt with the error message. */
  function RowsOf(reply: HttpReply): Result<seq<RestRow>, Failure>
  {
    match reply
    case Ok(p) => Success(p.data)
    case HttpFailure(m) => Failure(Halted(m))
  }

  /** The properties `formatResults` sets on a record from one row. */
  function Kept(fieldData: seq<(string, Value)>, pluck: string): map<string, Value>
  {
    if fieldData == [] then map[]
    else
      var p := fieldData[|fieldData| - 1];
      var m := Kept(fieldData[..|fieldData| - 1], pluck);
      if Keeps(pluck, p.0) then m[p.0 := p.1] else m
  }

  /** A record holds a property exactly when the row has it and the pluck
      keeps it, with the row's (last) value for it. */
  lemma {:induction false} KeptLookup(fieldData: seq<(string, Value)>, pluck: string, key: string)
    ensures Lookup(Kept(fieldData, pluck), key) == if Keeps(pluck, key) then LastFor(fieldData, key) else None
    decreases |fieldData|
  {
    if fieldData != [] {
      KeptLookup(fieldData[..|fieldData| - 1], pluck, key);
    }
  }

  /** `buildInsertQueryBody`: the `fieldData` object, one property per key. */
  function BuildInsertQueryBody(data: seq<(string, Entry)>): map<string, Entry>
  {
    Assign(map[], data)
  }

  /** Every key of the data is sent with its (last) value, and nothing else. */
  lemma InsertBodyLookup(data: seq<(string, Entry)>, key: string)
    ensures Lookup(BuildInsertQueryBody(data), key) == LastFor(data, key)
  {
    AssignLookup(map[], data, key);
  }

  /** `getRecordById` after sign-in: the first row of the reply (PHP's null
      when there is none), or a halt. */
  function Fetched(reply: HttpReply): Result<Option<RestRow>, Failure>
  {
    match reply
    case HttpFailure(m) => Failure(Halted(m))
    case Ok(p) => Success(if p.data == [] then None else Some(p.data[0]))
  }

  /** `performOneInsert` after the layout check and sign-in: create the
      record, then fetch it back when the reply names its identifier. */
  function InsertOne(server: RestServer, base: string, layout: string, bearer: Option<string>,
                     fields: seq<(string, Entry)>): Result<Option<RestRow>, Failure>
  {
    match server.respond(HttpRequest(base, Create(layout, BuildInsertQueryBody(fields)), bearer))
    case HttpFailure(m) => Failure(Halted(m))
    case Ok(p) =>
      if p.recordId.Some? && IsSet(p.recordId.value)
      then Fetched(server.respond(HttpRequest(base, Fetch(layout, p.recordId.value), bearer)))
      else Success(None)
  }

  /** The planned inserts one after another, stopping at the first failure. */
  function InsertAll(server: RestServer, base: string, layout: string, bearer: Option<string>,
                     plan: seq<seq<(string, Entry)>>): Result<seq<Option<RestRow>>, Failure>
  {
    if plan == [] then Success([])
    else match InsertAll(server, base, layout, bearer, plan[..|plan| - 1])
      case Failure(e) => Failure(e)
      case Success(rows) =>
        match InsertOne(server, base, layout, bearer, plan[|plan| - 1])
        case Failure(e) => Failure(e)
        case Success(row) => Success(rows + [row])
  }

  /** A successful run of inserts yields one row per planned insert, each
      the outcome of that insert. */
  lemma {:induction false} InsertAllRows(server: RestServer, base: string, layout: string, bearer: Option<string>,
                                         plan: seq<seq<(string, Entry)>>)
    requires InsertAll(server, base, layout, bearer, plan).Success?
    ensures |InsertAll(server, base, layout, bearer, plan).value| == |plan|
    ensures forall i :: 0 <= i < |plan| ==>
              InsertOne(server, base, layout, bearer, plan[i]) == Success(InsertAll(server, base, layout, bearer, plan).value[i])
    decreases |plan|
  {
    if plan != [] {
      var init := plan[..|plan| - 1];
      InsertAllRows(server, base, layout, bearer, init);
    }
  }

  /** Once an insert fails, the later ones are not attempted: the whole run
      fails with that insert's failure. */
  lemma {:induction false} InsertAllStopsAtFailure(server: RestServer, base: string, layout: string,
                                                   bearer: Option<string>, plan: seq<seq<(string, Entry)>>, i: nat)
    requires i <= |plan|
    requires InsertAll(server, base, layout, bearer, plan[..i]).Failure?
    ensures InsertAll(server, base, layout, bearer, plan) == InsertAll(server, base, layout, bearer, plan[..i])
    decreases |plan| - i
  {
    if i < |plan| {
      assert plan[..i + 1][..i] == plan[..i];
      InsertAllStopsAtFailure(server, base, layout, bearer, plan, i + 1);
    } else {
      assert plan[..i] == plan;
    }
  }

  /** A missing row (PHP's null) normalises to a record with no field and a
      null identifier. */
  function RowOrEmpty(row: Option<RestRow>): RestRow
  {
    if row.Some? then row.value else RestRow(Null, [])
  }

  /** What `getRecordById` hands to `wrapWithJsonStructure`: a single row
      (or null), or an array of them. */
  datatype Decoded = SingleRow(row: Option<RestRow>) | RowArray(rows: seq<Option<RestRow>>)

  /** `wrapWithJsonStructure`: a non-array becomes a one-element `data`
      list; an array is used as the list. */
  function WrapWithJsonStructure(record: Decoded): (data: seq<Option<RestRow>>)
    ensures record.SingleRow? ==> |data| == 1 && data[0] == record.row
    ensures record.RowArray? ==> data == record.rows
  {
    match record
    case SingleRow(row) => [row]
    case RowArray(rows) => rows
  }
}
