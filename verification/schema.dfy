/**
 * The static field registry (`dataSchema`) and the pure parts of `getData`: the
 * first-match lookup of each requested name, the fetcher list that holds one entry
 * per matched name, and the wrapping of each fetched value into a row.
 */
module Schema {
  import opened Wrappers

  datatype Semantics = Semantics(conceptType: string, semanticType: string, isReaggregatable: bool)

  datatype FieldDescriptor = FieldDescriptor(
    name: string,
    dataType: string,
    semantics: Semantics,
    defaultAggregationType: string)

  /** The one reportable field: the number of companies, a summable metric. */
  const CompanyCountField: FieldDescriptor :=
    FieldDescriptor("companyCount", "NUMBER", Semantics("METRIC", "NUMBER", true), "SUM")

  const DataSchema: seq<FieldDescriptor> := [CompanyCountField]

  datatype SchemaResponse = SchemaResponse(schema: seq<FieldDescriptor>)

  /** `getSchema`: the whole registry; looking any of its fields up by name gives that field back. */
  function GetSchema(): (r: SchemaResponse)
    ensures |r.schema| == 1 && r.schema[0].name == "companyCount"
    ensures forall k :: 0 <= k < |r.schema| ==> Resolve(r.schema[k].name, DataSchema) == Some(r.schema[k])
  {
    SchemaResponse(DataSchema)
  }

  /**
   * The callback of `request.fields.map`: the first field of `schema` whose name is
   * `name`, or `None` (the callback's `undefined`) when there is none.
   */
  function Resolve(name: string, schema: seq<FieldDescriptor>): (r: Option<FieldDescriptor>)
    ensures r.None? <==> forall k :: 0 <= k < |schema| ==> schema[k].name != name
    ensures forall k ::
              (0 <= k < |schema| && schema[k].name == name && forall j :: 0 <= j < k ==> schema[j].name != name)
              ==> r == Some(schema[k])
  {
    if schema == [] then None
    else if schema[0].name == name then Some(schema[0])
    else Resolve(name, schema[1..])
  }

  /** Names are distinct: each field of the schema is the one found for its name. */
  predicate NamesDistinct(schema: seq<FieldDescriptor>) {
    forall i, j :: 0 <= i < j < |schema| ==> schema[i].name != schema[j].name
  }

  lemma ResolveFindsEachField(schema: seq<FieldDescriptor>, k: nat)
    requires NamesDistinct(schema) && k < |schema|
    ensures Resolve(schema[k].name, schema) == Some(schema[k])
  {
  }

  /** The requested schema, built in request order. */
  function ResolveAll(fields: seq<string>): (r: seq<Option<FieldDescriptor>>)
    ensures |r| == |fields|
  {
    if fields == [] then []
    else ResolveAll(fields[..|fields| - 1]) + [Resolve(fields[|fields| - 1], DataSchema)]
  }

  /** One entry per requested name, in order, each the lookup of that name. */
  lemma {:induction false} ResolveAllAt(fields: seq<string>)
    ensures |ResolveAll(fields)| == |fields|
    ensures forall k :: 0 <= k < |fields| ==> ResolveAll(fields)[k] == Resolve(fields[k], DataSchema)
  {
    if fields != [] {
      var init := fields[..|fields| - 1];
      ResolveAllAt(init);
      assert forall k :: 0 <= k < |init| ==> init[k] == fields[k];
    }
  }

  /** Every field of the registry is fetched by `getCompanyCount`. */
  datatype Fetcher = CompanyCountFetcher

  /** The fetcher list `getData` builds: one entry pushed per matched name. */
  function Fetchers(fields: seq<string>): (r: seq<Fetcher>)
    ensures |r| <= |fields|
  {
    if fields == [] then []
    else
      Fetchers(fields[..|fields| - 1])
      + (if Resolve(fields[|fields| - 1], DataSchema).Some? then [CompanyCountFetcher] else [])
  }

  /** The descriptors of a requested schema with the unmatched entries left out, in order. */
  function Matched(schema: seq<Option<FieldDescriptor>>): seq<FieldDescriptor> {
    if schema == [] then []
    else
      Matched(schema[..|schema| - 1])
      + (match schema[|schema| - 1] case Some(d) => [d] case None => [])
  }

  /** The fetcher list is exactly as long as the list of matched fields. */
  lemma {:induction false} FetchersMatchSchema(fields: seq<string>)
    ensures |Fetchers(fields)| == |Matched(ResolveAll(fields))|
  {
    if fields != [] {
      var init := fields[..|fields| - 1];
      FetchersMatchSchema(init);
      var s := ResolveAll(fields);
      assert s[..|s| - 1] == ResolveAll(init);
    }
  }

  /**
   * The value a fetcher returns: the company count, the `{errorCode: 'User not logged in'}`
   * object, or the `Error('Data malformed')` object.
   */
  datatype FetchResult = Count(n: nat) | NotLoggedIn | DataMalformed

  datatype DataRow = DataRow(values: seq<FetchResult>)

  datatype DataResponse = DataResponse(schema: seq<Option<FieldDescriptor>>, rows: seq<DataRow>)

  /** The final `map` of `getData`: one row per fetched value, holding just that value. */
  function ToRows(results: seq<FetchResult>): (rows: seq<DataRow>)
    ensures |rows| == |results|
    ensures forall k :: 0 <= k < |rows| ==> rows[k].values == [results[k]]
  {
    seq(|results|, k requires 0 <= k < |results| => DataRow([results[k]]))
  }

  /** All values of the rows, in row order. */
  function RowValues(rows: seq<DataRow>): seq<FetchResult> {
    if rows == [] then [] else RowValues(rows[..|rows| - 1]) + rows[|rows| - 1].values
  }

  /** Reading the values back out of the rows gives the fetched values, in order. */
  lemma {:induction false} RowValuesOfRows(results: seq<FetchResult>)
    ensures RowValues(ToRows(results)) == results
  {
    if results != [] {
      var init := results[..|results| - 1];
      RowValuesOfRows(init);
      assert ToRows(results)[..|results| - 1] == ToRows(init);
    }
  }

  /** `n` copies of `v`. */
  function Repeat(v: FetchResult, n: nat): (r: seq<FetchResult>)
    ensures |r| == n
  {
    seq(n, _ => v)
  }

  /** What `getData` returns when every fetch yields `value`. */
  function ExpectedData(fields: seq<string>, value: FetchResult): DataResponse {
    DataResponse(ResolveAll(fields), ToRows(Repeat(value, |Fetchers(fields)|)))
  }

  /**
   * The shape of a `getData` reply: the schema has one entry per requested name, in
   * order, each the first registry field with that name or `None`; there is one row
   * per matched field, and each row holds exactly the fetched value.
   */
  lemma ExpectedDataShape(fields: seq<string>, value: FetchResult)
    ensures var resp := ExpectedData(fields, value);
            && |resp.schema| == |fields|
            && (forall k :: 0 <= k < |fields| ==> resp.schema[k] == Resolve(fields[k], DataSchema))
            && |resp.rows| == |Matched(resp.schema)|
            && (forall k :: 0 <= k < |resp.rows| ==> resp.rows[k].values == [value])
  {
    ResolveAllAt(fields);
    FetchersMatchSchema(fields);
  }

  /** A request for `companyCount` gets that descriptor and a single row. */
  lemma CompanyCountRequest(value: FetchResult)
    ensures ExpectedData(["companyCount"], value)
            == DataResponse([Some(CompanyCountField)], [DataRow([value])])
  {
  }

  /** An unknown name stays in the schema as `None` and yields no row. */
  lemma UnknownFieldRequest(value: FetchResult)
    ensures ExpectedData(["unknownField"], value) == DataResponse([None], [])
  {
  }
}
