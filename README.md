# FileMaker query builder — a verified model

This project models the core of a small PHP library that gives a fluent,
Laravel-style query builder over FileMaker databases. Two drivers are
modelled. `FMREST` talks to the FileMaker Data API. `FMPHP` talks through a
native connector. The model covers:

- the builder state both drivers keep (`where`, `whereNot`, `whereIn`,
  `take`, `skip`, `order`, `randomOrder`);
- how each driver compiles that state into a request. `FMREST` builds a
  `_find` body of criteria objects with an optional limit. `FMPHP` builds a
  simple find, or a compound find whose sub-requests are numbered by an
  instance counter, plus a range and sort rules;
- how backend rows become `FileMakerRecord` objects (`formatResults`);
- the REST session-token cache and the native driver's error mapping;
- the delete, update and insert loops;
- the `FileMaker` facade's configuration: defaults, merge, and driver
  selection that ignores case.

Layout:

- `common.dfy`: `Option`/`Result`, scalar values, PHP's `empty()`, ASCII
  `strtolower`, and a fold `Assign` that sets properties in order.
- `criteria.dfy`: the builder vocabulary both drivers share.
- `records.dfy`: the record class.
- `rest_query.dfy`: the pure REST compiler and transport.
- `rest_driver.dfy`: the `FMREST` class.
- `native_query.dfy`: the pure native compiler and connector oracle.
- `native_driver.dfy`: the `FMPHP` class.
- `facade.dfy`: the `FileMaker` class.

The HTTP server and the native connector are parameters. `RestServer`
gives the sign-in reply and the reply to each request. `Connector` gives
client creation, command execution, deletion and commit. Both are pure
functions of the request, so the backend is modelled as stateless: the same
request always gets the same reply. The collection's `shuffle()` is a
parameter too: for each length it gives the order in which `get` lists that
many records when random order is set.

Both `buildQuery` and `buildFindQueryBody` process `where` first, then
`whereIn`, then `whereNot`. So a compound find or `_find` body holds the
request of all criteria (if any), then the inclusion requests, then the
omit requests.

## Model

| member | source | states |
|---|---|---|
| Common.AssignLookup | src/Drivers/FMREST.php:510-513 | Setting properties one after another: a key holds the value of the last assignment to it, and otherwise keeps its earlier value. |
| Common.AssignSnoc | src/Drivers/FMREST.php:532-535 | One more assignment in the loop updates exactly that key. |
| Common.Lower | src/FileMaker.php:71 | `strtolower` lowers each ASCII capital by 32 and keeps every other character. |
| Common.LowerChar | src/FileMaker.php:71 | One character of `strtolower`: capitals A-Z move to a-z, everything else is unchanged. |
| Common.LowerIdempotent | src/FileMaker.php:71 | Lower-casing twice is lower-casing once, so the lower-case names are their own keys. |
| Common.Digits | src/Drivers/FMREST.php:749-754 | The string form of a natural number used in a URL is its decimal representation: digits that denote exactly n, with a leading '0' only for zero. |
| Criteria.TwoArgumentWhere | src/Drivers/FMREST.php:295-316 | `where(f, v)` stores operator '==' with value v. The encoded value is "==" + v, even when v is '!='. |
| Criteria.NullOperatorWhere | src/Drivers/FMREST.php:295-316 | `where(f, null, v)` stores the criterion with no operator, so the raw v is sent; `where(f, null)` sends '=='. |
| Criteria.WhereExclusionRouting | src/Drivers/FMREST.php:295-326 | A `where` call goes to `whereNot` iff a third argument was given and the operator is '!='. It then carries the raw value and no operator. A criterion kept in `where` has no operator iff a value came with a null operator. |
| Criteria.InclusionFor | src/Drivers/FMREST.php:328-340 | `whereIn` appends nothing iff its argument is empty. A scalar is wrapped into a one-element list; a list is kept as given. |
| Criteria.EvaluatedPairs | src/Drivers/FMREST.php:556-567 | Each criterion becomes (field, operator + value) when it has an operator, and (field, raw value) when it has none, in list order. |
| Criteria.EvaluatedPairsStep | src/Drivers/FMPHP.php:703-709 | Encoding one more criterion appends exactly one pair. |
| Criteria.TotalValuesAppend | src/Drivers/FMREST.php:523-539 | The number of (field, value) combinations adds up over concatenated inclusion lists. |
| Criteria.TotalValuesBound | src/Drivers/FMREST.php:328-340 | Since `whereIn` never stores an empty list, there are at least as many combinations as inclusions. |
| Criteria.Arrangement | src/Drivers/FMREST.php:53-58 | The order `get` lists n records in is a permutation of n: the shuffle's when random order is set, and the identity otherwise. |
| Criteria.Listed | src/Drivers/FMPHP.php:292-297 | `shuffle()` lists every item once, the i-th being item p[i], and keeps distinct items distinct. |
| Criteria.InsertPlanOfRecordList | src/Drivers/FMREST.php:569-583 | A list of nested arrays is inserted one record per element, in order. |
| Criteria.InsertPlanOfSingleRecord | src/Drivers/FMREST.php:578-582 | When the first element is a scalar, the whole argument is inserted once and the loop stops. |
| Criteria.InsertPlanBound | src/Drivers/FMREST.php:569-583 | `insert` never does more single inserts than its argument has elements, and does none iff the argument is empty. |
| Records.FileMakerRecord.constructor | src/FileMakerRecord.php:6-8 | A new record has no field and a null identifier. |
| Records.FileMakerRecord.GetField | src/FileMakerRecord.php:10-15 | A field that is set yields its value. An absent field yields null, and so does a field that holds null. The name 'recordId' reaches the private identifier. |
| Records.FileMakerRecord.SetRecordId | src/FileMakerRecord.php:17-20 | Replaces the identifier and changes no field. |
| Records.FileMakerRecord.GetRecordId | src/FileMakerRecord.php:22-25 | Returns the identifier last set, whatever its argument. |
| RestQuery.LimitFor | src/Drivers/FMREST.php:491-494 | The body has a limit iff `take` is not empty, and the limit is then `take`. |
| RestQuery.ValueObjects | src/Drivers/FMREST.php:525-538 | One criteria object per value of an inclusion, in value order. |
| RestQuery.OmitObjects | src/Drivers/FMREST.php:543-554 | One omit object per exclusion, in call order. |
| RestQuery.InclusionObjectsLength | src/Drivers/FMREST.php:519-541 | The inclusion objects number exactly the total count of inclusion values. |
| RestQuery.FindQueryLength | src/Drivers/FMREST.php:478-554 | The `_find` query gets [where non-empty and whereIn empty] + (sum of value counts) + \|whereNot\| objects. |
| RestQuery.FindQueryLayout | src/Drivers/FMREST.php:483-485 | The AND object, when present, comes first. The inclusion objects come next. The omit objects come last, one per exclusion, in order. |
| RestQuery.InclusionObjectAt | src/Drivers/FMREST.php:523-538 | Value k of inclusion j sits at position (values of earlier inclusions) + k among the inclusion objects. |
| RestQuery.AndObjectLookup | src/Drivers/FMREST.php:506-515 | In the AND object, a field holds the encoded value of the last `where` on it; a later `where` on the same field overwrites an earlier one. |
| RestQuery.InclusionObjectLookup | src/Drivers/FMREST.php:527-535 | In an inclusion object, a `where` on the inclusion's own field overwrites the raw inclusion value. Other fields hold their last `where` value. |
| RestQuery.OmitObjectLookup | src/Drivers/FMREST.php:547-552 | An omit object holds omit = 'true' and the excluded field with its raw value, and nothing else. |
| RestQuery.FindRequestIffNonEmptyQuery | src/Drivers/FMREST.php:342-352 | The `_find` path is taken iff the builder adds at least one criteria object; the list-all path is taken iff all three lists are empty. |
| RestQuery.ThreeObjectScenario | src/Drivers/FMREST.php:478-554 | One equality criterion, a two-value inclusion and one exclusion compile to three objects: two inclusion objects carrying the criterion, then one omit object. |
| RestQuery.ConnectionURLInjective | src/Drivers/FMREST.php:749-754 | Distinct (host, file) pairs give distinct base URLs, for hosts without '/'. |
| RestQuery.SignedIn | src/Drivers/FMREST.php:710-742 | A cached token is kept without signing in. With no token, one is cached iff the sign-in reply contains a token. |
| RestQuery.FirstSignInStoresToken | src/Drivers/FMREST.php:710-741 | Without a cached token, a sign-in reply carrying a token is stored and then kept whatever later replies say; a reply without one, or a failed request, leaves no token. |
| RestQuery.SignInOnce | src/Drivers/FMREST.php:715 | Once a token is cached, later sign-in replies never change it. |
| RestQuery.KeptLookup | src/Drivers/FMREST.php:274-279 | A record holds a property iff the row has it and the pluck keeps it (empty pluck: every key), with the row's value for it. |
| RestQuery.InsertBodyLookup | src/Drivers/FMREST.php:634-648 | The insert body holds each key with its last value from the data. |
| RestQuery.InsertAllRows | src/Drivers/FMREST.php:569-592 | When every single insert succeeds, there is one fetched row per planned insert, each the outcome of that insert. |
| RestQuery.InsertAllStopsAtFailure | src/Drivers/FMREST.php:624-631 | The first failing insert ends the whole insert with that failure. |
| RestQuery.WrapWithJsonStructure | src/Drivers/FMREST.php:121-134 | A single record is wrapped into a one-element list; a list is passed through. |
| RestDriver.FormatResults | src/Drivers/FMREST.php:264-292 | One fresh, distinct record per row, in order, holding the properties the pluck keeps and the row's record id. |
| RestDriver.RecordOf | src/Drivers/FMREST.php:272-287 | One fresh record from one row. It holds exactly the row properties the pluck keeps (all of them for an empty pluck), a later duplicate overriding an earlier one, and the row's record id. |
| RestDriver.FMREST.constructor | src/Drivers/FMREST.php:12-32 | The builder starts empty: no criteria, take null, skip 0, no order, no random order, no query objects, no token. |
| RestDriver.FMREST.SetConnection | src/Drivers/FMREST.php:34-39 | Stores the configuration and nothing else. |
| RestDriver.FMREST.Layout | src/Drivers/FMREST.php:41-46 | Sets the layout. |
| RestDriver.FMREST.Table | src/Drivers/FMREST.php:48-51 | Alias of `layout`. |
| RestDriver.FMREST.Where | src/Drivers/FMREST.php:295-316 | Appends the routed criterion to `where` (a null operator stays null), or to `whereNot` for '!=', leaving the other list unchanged. |
| RestDriver.FMREST.WhereNot | src/Drivers/FMREST.php:318-326 | Appends one exclusion with the raw value. |
| RestDriver.FMREST.WhereIn | src/Drivers/FMREST.php:328-340 | An empty argument changes nothing; otherwise exactly the wrapped inclusion is appended. |
| RestDriver.FMREST.Take | src/Drivers/FMREST.php:177-182 | Sets `take`. |
| RestDriver.FMREST.Limit | src/Drivers/FMREST.php:185-188 | Alias of `take`. |
| RestDriver.FMREST.Skip | src/Drivers/FMREST.php:195-200 | Sets `skip`. |
| RestDriver.FMREST.Offset | src/Drivers/FMREST.php:203-206 | Alias of `skip`. |
| RestDriver.FMREST.OrderBy | src/Drivers/FMREST.php:214-222 | Appends one {field, order} rule in call order. |
| RestDriver.FMREST.OrderByAscend | src/Drivers/FMREST.php:225-228 | Appends a rule with 'asc'. |
| RestDriver.FMREST.OrderByDescend | src/Drivers/FMREST.php:230-233 | Appends a rule with 'desc'. |
| RestDriver.FMREST.InRandomOrder | src/Drivers/FMREST.php:238-243 | Sets the random-order flag. |
| RestDriver.FMREST.Reorder | src/Drivers/FMREST.php:248-254 | Empties `order` and clears the random flag. Its frame leaves every filter, `take` and `skip` untouched. |
| RestDriver.FMREST.InitConnection | src/Drivers/FMREST.php:710-742 | Signs in only while no token is cached, and caches a token only when the reply has one. |
| RestDriver.FMREST.InitQuery | src/Drivers/FMREST.php:698-708 | An empty layout throws 'Layout not set' before any sign-in, with the token unchanged. Otherwise it signs in as above. |
| RestDriver.FMREST.SetCriteria | src/Drivers/FMREST.php:510-513 | The loop that sets every `where` criterion on an object equals the in-order fold of the encoded pairs. |
| RestDriver.FMREST.ProcessWhereClauses | src/Drivers/FMREST.php:501-517 | Appends the AND object iff there are criteria and no inclusion. |
| RestDriver.FMREST.ProcessWhereInClauses | src/Drivers/FMREST.php:519-541 | Appends every inclusion object, in inclusion then value order. |
| RestDriver.FMREST.AddValueObjects | src/Drivers/FMREST.php:525-538 | The inner loop over one inclusion's values appends one criteria object per value, in value order. Each holds the value under the inclusion field, overlaid with every encoded where. |
| RestDriver.FMREST.ProcessWhereNotClauses | src/Drivers/FMREST.php:543-554 | Appends one omit object per exclusion. |
| RestDriver.FMREST.BuildFindQueryBody | src/Drivers/FMREST.php:478-499 | The query list grows by this build's objects and is never cleared, so repeated builds accumulate. The body sends the whole list and the limit. |
| RestDriver.FMREST.ExecuteQuery | src/Drivers/FMREST.php:342-414 | Checks the layout first, then signs in. The list-all request goes when there are no criteria; otherwise the `_find` request goes with the body, which then holds at least one object. The new state (`QueryRan`): the token after sign-in, or unchanged for an empty layout; this query's objects appended to the kept ones only on the find path. |
| RestDriver.FMREST.Get | src/Drivers/FMREST.php:53-58 | The query's rows, each normalised with every field and its id into distinct fresh records, listed in the shuffle's order when random order is set and in the backend's order otherwise; a failure passes through. The token and kept query objects change as for `executeQuery`. |
| RestDriver.FMREST.First | src/Drivers/FMREST.php:140-143 | The first of the records `get` lists, so a random one under random order; none iff there are no rows. The token and kept query objects change as for `executeQuery`. |
| RestDriver.FMREST.Find | src/Drivers/FMREST.php:756-767 | Without a key field it throws 'Primary key field not set' and changes nothing. Otherwise an exact match on the key is appended to `where`, where it stays. The result is `first` of the query with that criterion added, or its failure. The token and kept query objects then change as for `executeQuery` on the extended query. |
| RestDriver.FMREST.Value | src/Drivers/FMREST.php:769-776 | The field of the first record `get` lists, shuffled or not, when it is set and not null. Otherwise, including when there is no row, it throws "Field '<f>' not found". The token and kept query objects change as for `executeQuery`. |
| RestDriver.FMREST.Pluck | src/Drivers/FMREST.php:778-781 | One value per row: the plucked field's value, or null where it is missing or null. The token and kept query objects change as for `executeQuery`. |
| RestDriver.FMREST.GetRecordById | src/Drivers/FMREST.php:650-681 | Signs in if needed, with no layout check, and returns the fetched row or the failure. |
| RestDriver.FMREST.ByRecordId | src/Drivers/FMREST.php:60-67 | The fetched row wrapped and normalised into one fresh record; a missing row gives an empty record. |
| RestDriver.FMREST.PerformOneInsert | src/Drivers/FMREST.php:594-632 | Checks the layout, signs in, creates, and fetches the created record back when the reply names its id. |
| RestDriver.FMREST.Insert | src/Drivers/FMREST.php:569-592 | Runs the planned single inserts in order. The first failure ends the call; otherwise one normalised record per insert. |
| RestDriver.FMREST.InsertRows | src/Drivers/FMREST.php:573-583 | With a layout and at least one planned insert, it runs the inserts in order and yields exactly `InsertAll`'s outcome: the first failure ends the loop. The token becomes the one signed in by the first insert. |
| NativeQuery.ValueRequests | src/Drivers/FMPHP.php:784-807 | One request per inclusion value: the raw value, then every encoded `where`. |
| NativeQuery.OmitRequests | src/Drivers/FMPHP.php:753-769 | One omitting request per exclusion, in call order. |
| NativeQuery.Numbered | src/Drivers/FMPHP.php:724-726 | The i-th request gets number start + i. |
| NativeQuery.NumberedAppend | src/Drivers/FMPHP.php:686-692 | Numbering successive batches from a shared counter equals numbering their concatenation. |
| NativeQuery.InclusionNumberingStep | src/Drivers/FMPHP.php:782-808 | Numbering one more inclusion's requests on from where the earlier ones stopped extends the numbering of all of them. The value count grows by that inclusion's values. |
| NativeQuery.CompoundNumbering | src/Drivers/FMPHP.php:686-692 | Numbering the AND request, the inclusion requests and the omit requests in three batches from a shared counter numbers the whole compound find consecutively. |
| NativeQuery.NumberedIndicesDistinct | src/Drivers/FMPHP.php:804-806 | Request numbers are consecutive, so no two requests share a number. |
| NativeQuery.InclusionRequestsLength | src/Drivers/FMPHP.php:775-809 | The inclusion requests number exactly the total count of inclusion values. |
| NativeQuery.InclusionRequestsStep | src/Drivers/FMPHP.php:782-808 | Processing one more inclusion adds exactly its value requests and its value count. |
| NativeQuery.CompoundRequestsLength | src/Drivers/FMPHP.php:686-692 | A compound find gets [where non-empty and whereIn empty] + (sum of value counts) + \|whereNot\| requests. |
| NativeQuery.InclusionRequestsKeep | src/Drivers/FMPHP.php:782-808 | No inclusion request omits. |
| NativeQuery.CompoundOmitIffExclusion | src/Drivers/FMPHP.php:746-770 | A request omits iff it is among the last \|whereNot\|. Those are the exclusions, in order. |
| NativeQuery.InclusionRequestAt | src/Drivers/FMPHP.php:782-808 | Value k of inclusion j is at position (values of earlier inclusions) + k. It holds that value followed by every encoded `where`. |
| NativeQuery.DirectionOf | src/Drivers/FMPHP.php:537-546 | 'desc' sorts descending; any other string sorts ascending. |
| NativeQuery.SortSpecs | src/Drivers/FMPHP.php:529-550 | Rule i, in call order, gets precedence cursor + i, its field, and descending iff 'desc'. |
| NativeQuery.SortSpecsStep | src/Drivers/FMPHP.php:535-549 | One more rule adds one sort spec with the next precedence. |
| NativeQuery.RangeFor | src/Drivers/FMPHP.php:573-576 | A range (skip, take) is set iff `take` or `skip` is not empty. |
| NativeQuery.Compiled | src/Drivers/FMPHP.php:686-692 | A freshly built command is a simple or a compound find with no range and no sort yet. |
| NativeQuery.QueryCommandShape | src/Drivers/FMPHP.php:146-154 | The simple find is chosen iff there are no exclusions and no inclusions, even with no criteria; it then holds the encoded `where` pairs in order. Otherwise the compound find holds the counted requests, numbered start, start+1, ..., and exactly the last \|whereNot\| omit. Both carry the range and the sorts. |
| NativeQuery.SelectedFields | src/Drivers/FMPHP.php:627-634 | The field list keeps a name iff the pluck keeps it. An empty pluck keeps the whole list in order. Otherwise the list holds one copy of the pluck per name equal to it. |
| NativeQuery.RowFields | src/Drivers/FMPHP.php:640-643 | A record gets exactly the listed fields, each with the row's value. |
| NativeQuery.ResultOf | src/Drivers/FMPHP.php:580-599 | Rows pass through and code 401 gives an empty list. Any other error is rethrown as a connection error with the same message and code. |
| NativeQuery.UpdatedRowField | src/Drivers/FMPHP.php:210-220 | `setField` in a loop leaves id and field list alone. Each field given in the data reads as its last value; every other field is unchanged. |
| NativeQuery.UpdateAllOutcome | src/Drivers/FMPHP.php:189-202 | The update succeeds iff every edited record commits, and then yields every record edited, in order. Otherwise it fails with the first refused commit's message and code, all earlier commits having succeeded. |
| NativeQuery.UpdateAllSuccess | src/Drivers/FMPHP.php:189-202 | The update succeeds iff every edited record commits, and then yields every record edited, in order. |
| NativeQuery.UpdateAllFailure | src/Drivers/FMPHP.php:189-202 | A failed update fails with the first refused commit's message and code; every earlier record committed. |
| NativeQuery.InsertAllOutcome | src/Drivers/FMPHP.php:162-181 | The inserts succeed iff every add command does. Otherwise the error is that of the first failing add, all earlier ones having succeeded. |
| NativeQuery.ThreeRequestScenario | src/Drivers/FMPHP.php:686-809 | One equality criterion, a two-value inclusion and one exclusion compile to a compound find of three consecutive requests from the counter: two inclusion requests carrying the criterion, then the omit request. |
| NativeDriver.SelectFields | src/Drivers/FMPHP.php:627-634 | The loop over the first row's names builds exactly the selected field list. |
| NativeDriver.FillFields | src/Drivers/FMPHP.php:640-643 | The loop that sets the listed fields yields exactly the row's values for them. |
| NativeDriver.FormatResults | src/Drivers/FMPHP.php:617-656 | No rows give no records. Otherwise the field list comes from the first row, filtered by the pluck. Each row gives one fresh, distinct record with exactly those fields and its id, in order. |
| NativeDriver.RecordOf | src/Drivers/FMPHP.php:636-652 | One fresh record from one row. It holds exactly the given fields, each with the row's value, and the row's record id. |
| Records.PluckValues | src/Drivers/FMPHP.php:479 | The collection's `pluck($field)`: one value per record, in order. It is the field's value when the record holds it set and not null, else null. |
| NativeDriver.DeleteEach | src/Drivers/FMPHP.php:222-241 | Succeeds iff something matched and every deletion succeeded. Otherwise it stops at the first failing deletion, after deleting every record before it; nothing matched means no deletion. |
| NativeDriver.UpdateRecord | src/Drivers/FMPHP.php:210-220 | Sets each pair in turn, then commits. A refused commit surfaces uncaught with its message and code. |
| NativeDriver.UpdateRecords | src/Drivers/FMPHP.php:196-199 | The loop over matched records equals the specified update outcome. |
| NativeDriver.UpdateAllStops | src/Drivers/FMPHP.php:196-199 | A failure in a prefix of the records is the failure of the whole update. |
| NativeDriver.InsertAllStops | src/Drivers/FMPHP.php:166-176 | A failure in a prefix of the single inserts is the failure of the whole insert. |
| NativeDriver.FMPHP.constructor | src/Drivers/FMPHP.php:12-36 | The builder starts empty, with no command and the counter at 1. |
| NativeDriver.FMPHP.SetConnection | src/Drivers/FMPHP.php:54-59 | Stores the configuration and nothing else. |
| NativeDriver.FMPHP.Layout | src/Drivers/FMPHP.php:66-71 | Sets the layout. |
| NativeDriver.FMPHP.Table | src/Drivers/FMPHP.php:78-81 | Alias of `layout`. |
| NativeDriver.FMPHP.Where | src/Drivers/FMPHP.php:90-111 | Appends the routed criterion to `where` (a null operator stays null), or to `whereNot` for '!=', leaving the other list unchanged. |
| NativeDriver.FMPHP.WhereNot | src/Drivers/FMPHP.php:113-121 | Appends one exclusion with the raw value. |
| NativeDriver.FMPHP.WhereIn | src/Drivers/FMPHP.php:129-141 | An empty argument changes nothing; otherwise exactly the wrapped inclusion is appended. |
| NativeDriver.FMPHP.Take | src/Drivers/FMPHP.php:340-345 | Sets `take`. |
| NativeDriver.FMPHP.Limit | src/Drivers/FMPHP.php:352-355 | Alias of `take`. |
| NativeDriver.FMPHP.Skip | src/Drivers/FMPHP.php:362-367 | Sets `skip`. |
| NativeDriver.FMPHP.Offset | src/Drivers/FMPHP.php:374-377 | Alias of `skip`. |
| NativeDriver.FMPHP.OrderBy | src/Drivers/FMPHP.php:385-393 | Appends one {field, order} rule in call order. |
| NativeDriver.FMPHP.OrderByAscend | src/Drivers/FMPHP.php:400-403 | Appends a rule with 'asc'. |
| NativeDriver.FMPHP.OrderByDescend | src/Drivers/FMPHP.php:410-413 | Appends a rule with 'desc'. |
| NativeDriver.FMPHP.InRandomOrder | src/Drivers/FMPHP.php:418-423 | Sets the random-order flag. |
| NativeDriver.FMPHP.Reorder | src/Drivers/FMPHP.php:428-434 | Empties `order` and clears the random flag, and nothing else. |
| NativeDriver.FMPHP.SetCommand | src/Drivers/FMPHP.php:146-154 | Chooses the simple find iff `whereNot` and `whereIn` are both empty. |
| NativeDriver.FMPHP.AddRequest | src/Drivers/FMPHP.php:724-726 | Adds the request under the current counter and advances the counter by exactly one. |
| NativeDriver.FMPHP.CriteriaOf | src/Drivers/FMPHP.php:716-722 | The inner loop adds every `where` criterion, encoded, in order. |
| NativeDriver.FMPHP.ProcessWhereClauses | src/Drivers/FMPHP.php:697-728 | On a simple find it adds every encoded criterion to the command, with the counter unchanged. On a compound find with no inclusion it adds one request of all criteria under the counter and advances it by one. |
| NativeDriver.FMPHP.AddValueRequests | src/Drivers/FMPHP.php:784-807 | One numbered request per value of an inclusion; the counter advances by the value count. |
| NativeDriver.FMPHP.AddInclusion | src/Drivers/FMPHP.php:784-807 | One pass of the outer loop. The inclusion's requests, numbered from the counter, follow the requests added so far. Layout, range and sorts are kept, and the counter advances by the value count. |
| NativeDriver.FMPHP.AddInclusionRequests | src/Drivers/FMPHP.php:782-808 | The loop over every inclusion. Their requests, in order, are numbered on from the counter, which advances by the total value count. The rest of the command is kept. |
| NativeDriver.FMPHP.ProcessWhereInClauses | src/Drivers/FMPHP.php:775-809 | On a compound find it adds every inclusion's requests, numbered on from the counter, which advances by the total value count. A simple find is unchanged. |
| NativeDriver.FMPHP.ProcessWhereNotClauses | src/Drivers/FMPHP.php:746-770 | On a compound find it adds one omitting request per exclusion, numbered on; the counter advances by \|whereNot\|. |
| NativeDriver.FMPHP.BuildQuery | src/Drivers/FMPHP.php:686-692 | The fresh command becomes the compiled command, and the counter moves past exactly its requests. |
| NativeDriver.FMPHP.AddLeadingRequests | src/Drivers/FMPHP.php:688-689 | On a fresh compound find: the AND request (iff there are criteria and no inclusion), then the inclusion requests, numbered consecutively from the counter, which moves past them. |
| NativeDriver.FMPHP.BuildCompoundQuery | src/Drivers/FMPHP.php:686-692 | On a fresh compound find: the AND request, the inclusion requests and the omit requests, numbered consecutively from the counter, which moves past all of them. |
| NativeDriver.FMPHP.CompileQuery | src/Drivers/FMPHP.php:567-578 | The kind is chosen from whereNot and whereIn. The command becomes the compiled one, with a range iff take or skip is set and the sort specs of every rule. The counter advances by exactly the requests added. |
| NativeDriver.FMPHP.Open | src/Drivers/FMPHP.php:666-681 | The client is created from the stored file, host, user and password, in that order; a setting never stored is passed as null. |
| NativeDriver.FMPHP.SetOrder | src/Drivers/FMPHP.php:529-550 | Adds the sort specs of all rules, with precedences 1, 2, 3, ... in call order. |
| NativeDriver.FMPHP.ExecuteQuery | src/Drivers/FMPHP.php:556-600 | An empty layout throws 'Layout not set' and a client failure is rethrown, both with no state change. Otherwise the compiled command is run with range and sorts under the 401 mapping. The new state (`QueryRan`): the command kind, the compiled command numbered from the old counter, and the counter advanced by the requests added, never reset. |
| NativeDriver.FMPHP.Get | src/Drivers/FMPHP.php:292-297 | The query's rows, each normalised with the first returned row's fields and its own id into distinct fresh records, listed in the shuffle's order when random order is set and in the backend's order otherwise. Command, compiled command and counter change as for `executeQuery`. |
| NativeDriver.FMPHP.First | src/Drivers/FMPHP.php:303-306 | The first of the records `get` lists, so a random one under random order; none iff there are no rows. Command, compiled command and counter change as for `executeQuery`. |
| NativeDriver.FMPHP.Count | src/Drivers/FMPHP.php:312-315 | The number of rows the query returns. Command, compiled command and counter change as for `executeQuery`. |
| NativeDriver.FMPHP.Exists | src/Drivers/FMPHP.php:321-324 | True iff the query returns a row. Command, compiled command and counter change as for `executeQuery`. |
| NativeDriver.FMPHP.DoesntExist | src/Drivers/FMPHP.php:330-333 | True iff the query returns no row. Command, compiled command and counter change as for `executeQuery`. |
| NativeDriver.FMPHP.Find | src/Drivers/FMPHP.php:443-454 | Without a key field it throws 'Primary key field not set' and changes nothing. Otherwise an exact match on the key is appended to `where`, where it stays. The result is `first` of the query with that criterion added, or its failure. Command, compiled command and counter then change as for `executeQuery` on the extended query. |
| NativeDriver.FMPHP.Value | src/Drivers/FMPHP.php:462-469 | The field of the first record `get` lists, shuffled or not, when the first returned row's layout has it and it is not null. Otherwise, including when there is no row, it throws "Field '<f>' not found". Command, compiled command and counter change as for `executeQuery`. |
| NativeDriver.FMPHP.Pluck | src/Drivers/FMPHP.php:477-480 | One value per row: the plucked field's value when the layout has it and it is not null, else null. Command, compiled command and counter change as for `executeQuery`. |
| NativeDriver.FMPHP.Delete | src/Drivers/FMPHP.php:222-241 | False when nothing matched or any deletion fails; true iff every matched record was deleted. Command, compiled command and counter change as for `executeQuery`. |
| NativeDriver.FMPHP.Update | src/Drivers/FMPHP.php:189-202 | Every matched record is edited and committed, then normalised with its new values; the first refused commit ends the call. Command, compiled command and counter change as for `executeQuery`. |
| NativeDriver.FMPHP.PerformOneInsert | src/Drivers/FMPHP.php:249-286 | Checks the layout, then creates the client. Then an add command with the fields set in order runs under the 401 mapping. |
| NativeDriver.FMPHP.Insert | src/Drivers/FMPHP.php:162-181 | Runs the planned single inserts in order, with their rows concatenated and normalised. The first failure ends the call. The add command left in `query` is that of the last insert run: the failing one, or the last planned. |
| Facade.Defaults | src/FileMaker.php:35-47 | Exactly the keys driver, host, file, user, password (all '') and verify_ssl (true). |
| Facade.DriverFor | src/FileMaker.php:64-85 | An empty or absent driver selects none. Otherwise the lower-cased name selects the native driver iff it is 'fmphp' and the REST driver iff it is 'fmrest'. |
| Facade.Merged | src/FileMaker.php:57-62 | A non-array leaves the configuration unchanged. Otherwise every old key stays and the supplied keys override. |
| Facade.CaseInsensitiveName | src/FileMaker.php:71 | A name lower-cases to 'fmphp' or 'fmrest' iff each of its characters is that letter or its capital. |
| Facade.MixedCaseDriverNames | src/FileMaker.php:71-84 | 'FMREST' and 'FmPhp' boot their drivers; 'fm-rest' is an unknown driver. |
| Facade.ConnectOutcomes | src/FileMaker.php:55-88 | A non-array throws 'Unable to load connection'. A supplied driver alone decides the outcome. Without one, an empty old driver throws 'No connection driver set'. |
| Facade.DefaultsNeedADriver | src/FileMaker.php:22-68 | From the defaults, a configuration without a driver throws 'No connection driver set', and verify_ssl stays true unless supplied. |
| Facade.FileMaker.constructor | src/FileMaker.php:22-47 | A facade built without configuration holds the defaults and no driver. |
| Facade.FileMaker.ResetConnection | src/FileMaker.php:35-47 | Sets the configuration to exactly the defaults. |
| Facade.FileMaker.Connection | src/FileMaker.php:55-88 | The merge happens first and persists even when the driver check throws. A driver is booted only on success: fresh, holding the merged configuration, and otherwise as constructed (`Unbuilt`). On failure the old driver stays. |
| Facade.FileMaker.BootNative | src/FileMaker.php:93-99 | A fresh native driver holding the configuration, otherwise as `new FMPHP()` leaves it (`Unbuilt`): no layout, no criteria, take null, skip 0, no order, no command, counter 1. |
| Facade.FileMaker.BootRest | src/FileMaker.php:104-110 | A fresh REST driver holding the configuration, otherwise as `new FMREST()` leaves it (`Unbuilt`): no layout, no criteria, take null, skip 0, no order, no kept query objects, no token. |
| Facade.FileMaker.Create | src/FileMaker.php:22-30 | Always resets. It calls `connection` only for a non-empty argument, and any exception there means no facade. On success the booted driver holds the merged configuration and is otherwise as constructed. |

## Left out

- The random generator behind `shuffle()`: the order is a parameter that may be any permutation of each length. Which permutation PHP picks is not modelled.
- HTTP transport: the Guzzle client, headers, TLS verification and JSON decoding are replaced by the `RestServer` oracle, and request bodies are structured values. The property order of JSON objects is not modelled: criteria objects are maps.
- Native connector internals: the connector's own commands are replaced by the `Connector` oracle and a record of the calls made (`Command`). The connector `client` object itself is not kept.
- The dump-and-die (`dd`) calls of the REST driver are modelled as a `Halted` failure. The sign-in `echo` on failure is not modelled beyond leaving the token unset.
- `sum`, `avg`, `min` and `max` in both drivers: numeric aggregation over collections.
- The REST driver's `count`, `exists` and `doesntExist`: they count the properties of a decoded response object, not records.
- The REST driver's `delete`, `deleteRecord` and `update`/`updateRecord` (src/Drivers/FMREST.php:69-119, 416-476): transport-only code around a PATCH or DELETE request, outside the modelled core.
- The empty stubs `FMPHP::byRecordId`, `executeInsertQuery`, `executeUpdateQuery` and `executeDeleteQuery`, and the facade's `__call` forwarding.
- The `'='` branch of `evaluateEmptyValue`: `trim` never returns null, so the branch is dead and is absent.
- Criterion values are strings. Numbers and booleans passed to `where`, and a boolean passed to `whereIn`, are not modelled.
- RestQuery.KeptLookup: compares a property name with the pluck by string equality. The source uses PHP's loose `==` (src/Drivers/FMREST.php:276), which compares two numeric strings as numbers, so "1" == "01" and "100" == "1e2" there. For numeric field names or plucks the source keeps more properties than stated.
- NativeQuery.SelectedFields: the same string equality replaces the loose `==` of src/Drivers/FMPHP.php:631, with the same gap for numeric field names or plucks.
- NativeDriver.SelectFields: the loop is proved to build `NativeQuery.SelectedFields`, so it shares that string-equality gap for the loose `==` of src/Drivers/FMPHP.php:631.
- RestDriver.FormatResults and NativeDriver.FormatResults inherit that gap through `Keeps`. Every other comparison the core makes has a non-numeric literal on one side ('!=', 'desc', 'fmphp', 'fmrest'), and there PHP's `==` is string equality.
- A backend field named `recordId`: PHP rejects setting it as a dynamic property, because the class has a private property of that name; the model stores it like any other field.
- `array_merge` with integer keys, which renumbers them: configuration keys are strings.
- `Collection::pluck` with dotted keys, which `data_get` splits into a path: the pluck is a single property name.
- A connector record missing one of the first row's fields reads as null; the connector's own exception for that case is not modelled.
