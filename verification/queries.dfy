/** The query a ratings filter derives from its selection: `defaultQuery`,
    the `customQuery` override used by `updateQuery`, and what the derived
    query lets through. */
module Queries {
  import opened JsValues

  /** The Elasticsearch query fragments the filter builds.
      `Range` is `{ range: { [field]: { gte, lte, boost } } }`,
      `QueryOf` is `{ query: ... }` and `Nested` is `{ nested: { path, query } }`. */
  datatype Query =
    | Range(field: string, gte: Bound, lte: Bound, boost: real)
    | QueryOf(query: Query)
    | Nested(path: string, query: Query)

  /** What ends up in the `query` field of a commit: `null`, `undefined`, a
      fragment built here, or a query object of the caller's own making that
      the model does not look into (kept as its serialised text). */
  datatype QueryValue = QNull | QUndefined | Dsl(q: Query) | Foreign(text: string)

  /** The options a custom query carries besides its `query` key. */
  type QueryOptions = map<string, string>

  /** The object a `customQuery` callback returns: its `query` field and the
      rest of its keys. */
  datatype CustomResult = CustomResult(query: QueryValue, options: QueryOptions)

  /** The props the core reads. `nestedField`, `filterLabel` and `showFilter`
      may be left unset; the three `has...` flags say whether the
      `beforeValueChange`, `onChange` and `onValueChange` callbacks are given.
      `customQuery` is called with the value and the props' `dataField` and
      `nestedField`, and returns `None` when the callback returns nothing. */
  datatype Props = Props(
    componentId: string,
    dataField: string,
    nestedField: Option<string>,
    value: JsValue,
    defaultValue: JsValue,
    selectedValue: JsValue,
    filterLabel: Option<string>,
    showFilter: Option<bool>,
    urlParams: bool,
    hasBeforeValueChange: bool,
    hasOnChange: bool,
    hasOnValueChange: bool,
    customQuery: Option<(JsValue, string, Option<string>) -> Option<CustomResult>>)

  /** The boost every range clause carries. */
  const RangeBoost: real := 2.0

  /** `props.nestedField` is truthy: set and not the empty string. */
  predicate HasNested(props: Props) {
    props.nestedField.Some? && props.nestedField.value != ""
  }

  /** Whether a document whose rating (the value of the range's field) is `x`
      satisfies the fragment: both range bounds are inclusive and a bound
      that is `undefined` is dropped from the serialised query, so it puts no
      limit. Wrapping in `query` or `nested` does not change which ratings
      are let through. */
  predicate Selects(q: Query, x: int) {
    match q
    case Range(_, gte, lte, _) =>
      (gte.Missing? || gte.n <= x) && (lte.Missing? || x <= lte.n)
    case QueryOf(inner) => Selects(inner, x)
    case Nested(_, inner) => Selects(inner, x)
  }

  /** A `null` or `undefined` query applies no filter. */
  predicate Admits(qv: QueryValue, x: int)
    requires !qv.Foreign?
  {
    qv.QNull? || qv.QUndefined? || Selects(qv.q, x)
  }

  /** The range clause on `dataField` for `value[0]`..`value[1]`. */
  function RangeClause(value: JsValue, dataField: string): (r: Query)
    ensures r.Range? && r.field == dataField && r.boost == RangeBoost
    ensures value.Arr? && |value.items| >= 2 ==> r.gte == value.items[0] && r.lte == value.items[1]
    ensures !value.Arr? ==> forall x :: Selects(r, x)
  {
    Range(dataField, Index(value, 0), Index(value, 1), RangeBoost)
  }

  /** `defaultQuery`: `null` for a falsy value; otherwise the range clause,
      wrapped as `{ query: { nested: { path, query } } }` when `nestedField`
      is set. */
  function DefaultQuery(value: JsValue, props: Props): (r: QueryValue)
    ensures r.QNull? <==> !Truthy(value)
    ensures r.QNull? || r.Dsl?
    ensures r.Dsl? && !HasNested(props) ==> r.q.Range? && r.q.field == props.dataField && r.q.boost == RangeBoost
    ensures r.Dsl? && HasNested(props) ==> r.q.QueryOf? && r.q.query.Nested? && r.q.query.path == props.nestedField.value
  {
    var query := if Truthy(value) then Dsl(RangeClause(value, props.dataField)) else QNull;
    if query.Dsl? && HasNested(props) then
      Dsl(QueryOf(Nested(props.nestedField.value, query.q)))
    else
      query
  }

  /** What `customQuery(value, props)` returns, for a given `customQuery`. */
  function CustomResultFor(value: JsValue, props: Props): Option<CustomResult>
    requires props.customQuery.Some?
  {
    props.customQuery.value(value, props.dataField, props.nestedField)
  }

  /** The query `updateQuery` commits: the `query` field of the custom
      query's result when a `customQuery` is given (`undefined` when it
      returns nothing), the default query otherwise. */
  function CommittedQuery(value: JsValue, props: Props): (r: QueryValue)
    ensures props.customQuery.None? ==> r == DefaultQuery(value, props)
    ensures props.customQuery.Some? && CustomResultFor(value, props).None? ==> r.QUndefined?
    ensures props.customQuery.Some? && CustomResultFor(value, props).Some? ==> r == CustomResultFor(value, props).value.query
  {
    if props.customQuery.Some? then
      match CustomResultFor(value, props)
      case None => QUndefined
      case Some(result) => result.query
    else
      DefaultQuery(value, props)
  }

  /** `getOptionsFromQuery` on a custom query's result: the keys other than
      `query`, none when the callback returned nothing. */
  function OptionsFromQuery(result: Option<CustomResult>): Option<QueryOptions> {
    match result
    case None => None
    case Some(r) => Some(r.options)
  }

  /** The options `updateQuery` hands to `setQueryOptions`: unset without a
      `customQuery` or when it returns nothing, otherwise the options of its
      result. */
  function CustomOptions(value: JsValue, props: Props): (r: Option<QueryOptions>)
    ensures props.customQuery.None? ==> r.None?
    ensures props.customQuery.Some? && CustomResultFor(value, props).None? ==> r.None?
    ensures props.customQuery.Some? && CustomResultFor(value, props).Some? ==>
      r == Some(CustomResultFor(value, props).value.options)
  {
    if props.customQuery.Some? then OptionsFromQuery(CustomResultFor(value, props)) else None
  }

  /** Setting `nestedField` wraps the very clause built without it. */
  lemma NestingWrapsPlainQuery(value: JsValue, props: Props)
    requires HasNested(props) && Truthy(value)
    ensures DefaultQuery(value, props.(nestedField := None)).Dsl?
    ensures DefaultQuery(value, props)
         == Dsl(QueryOf(Nested(props.nestedField.value, DefaultQuery(value, props.(nestedField := None)).q)))
  {
  }

  /** For a selection `[a, b]` the plain query is the range clause
      `gte = a`, `lte = b`, `boost = 2.0` on `dataField`, and with or without
      nesting it lets through exactly the ratings from `a` to `b`. */
  lemma RangeSelectsInterval(value: JsValue, props: Props, a: int, b: int, x: int)
    requires value == Arr([Num(a), Num(b)])
    ensures !HasNested(props) ==> DefaultQuery(value, props) == Dsl(Range(props.dataField, Num(a), Num(b), 2.0))
    ensures Admits(DefaultQuery(value, props), x) <==> a <= x <= b
  {
    var clause := RangeClause(value, props.dataField);
    assert Selects(clause, x) <==> a <= x <= b;
    if HasNested(props) {
      assert Selects(QueryOf(Nested(props.nestedField.value, clause)), x) == Selects(clause, x);
    }
  }

  /** A custom query replaces the default one altogether: the default query
      plays no part, and `dataField` and `nestedField` matter only through
      what the callback makes of them. A callback that answers the same for
      two settings of those props commits the same query and options, even
      where the default query would differ. */
  lemma CustomQueryOverridesDefault(value: JsValue, props: Props, field: string, nested: Option<string>)
    requires props.customQuery.Some?
    requires CustomResultFor(value, props) == CustomResultFor(value, props.(dataField := field, nestedField := nested))
    ensures CommittedQuery(value, props) == CommittedQuery(value, props.(dataField := field, nestedField := nested))
    ensures CustomOptions(value, props) == CustomOptions(value, props.(dataField := field, nestedField := nested))
  {
  }
}
