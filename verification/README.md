# RatingsFilter core, modelled in Dafny

`RatingsFilter` is a star-rating range filter of the reactivesearch web
components. Its selection is a rating range `[start, end]`. It turns that
selection into an Elasticsearch `range` query and pushes the query into a
shared search-state store. This project models the logic underneath the UI:

- `parseValue` and `defaultQuery`, as pure functions over JavaScript values
  and query fragments (modules `JsValues` in `values.dfy`, `Queries` in
  `queries.dfy`);
- the selection state machine, meaning the constructor's choice of the first
  selection, `setValue` with its `locked` re-entrancy flag, `updateQuery`,
  `handleClick` and the value-adoption part of `componentDidUpdate`. Each is
  written as a pure transition over `FilterState` (module `Transitions` in
  `transitions.dfy`). Each is also written as a method of the class
  `RatingsFilter` (module `Component` in `component.dfy`), which updates
  `currentValue`, `locked` and `props` in place. Each method is proved to
  produce the state its transition function describes. The class follows
  the code as written, including line 73 (see Findings). The corrected
  update is the separate `DidUpdateStepCorrected`.

The store and the callback props are injected. The model records the calls the core
makes on them, in order, as a `Call` in the ghost field `calls`:
`setQueryOptions`, the store's `updateQuery`, `onValueChange` and `onChange`.
`checkValueChange` is a foreign helper, so it becomes a parameter `approved`.
`approved` is the `beforeValueChange` hook's verdict and is ignored when
there is no hook. `isEqual` and the prop comparison are structural
equality.

The values in play are `undefined`, `null`, arrays of bounds and
`{start, end}` objects (`JsValue`). Truthiness and `v[i]` are modelled on
those values. Empty arrays are truthy, and indexing an object or indexing
past the end of an array gives `undefined`. A range bound that is
`undefined` drops out of the serialised query, so it sets no limit. That
is how `Selects` reads a range clause.

Three behaviours of the code are worth noting:
- The lock drops a request only when a `beforeValueChange` hook is set
  (line 135). Without a hook, every `setValue` goes through.
- The options of a custom query go to the store in their own
  `setQueryOptions` call, made just before the commit (lines 169-171).
- A `beforeValueChange` hook that never lets an update through leaves
  `locked` set, because `locked` is cleared only inside the update (line 143).
  From then on every later `setValue` is dropped (`LockedForGood`).

## Model

| member | source | states |
|---|---|---|
| `JsValues.ParseValue` | packages/web/src/components/range/RatingsFilter.js:100-103 | the result is `null` or an array and is truthy exactly when the input is; an array or `null` comes back unchanged (so parsing twice changes nothing); an object gives `[start, end]`; a falsy value gives `null` |
| `JsValues.TierValue` | packages/web/src/components/range/RatingsFilter.js:210-212 | a click hands over an already-parsed, truthy value whose two slots are the tier's start and end |
| `JsValues.TierActive` | packages/web/src/components/range/RatingsFilter.js:206 | a tier is shown active exactly when the selection is a non-empty array whose slot 0 is the tier's start; `null`, `undefined` and an unparsed `{start, end}` object mark no tier |
| `JsValues.ClickedTierIsActive` | packages/web/src/components/range/RatingsFilter.js:206-210 | after a click on tier `t`, a tier is marked `active` exactly when it starts where `t` starts |
| `JsValues.ObjectActiveOnlyOnceParsed` | packages/web/src/components/range/RatingsFilter.js:206 | a `{start, end}` object marks a tier active only after `parseValue`; left as an object it marks no tier |
| `Queries.RangeClause` | packages/web/src/components/range/RatingsFilter.js:108-116 | the clause is a range on `dataField` with boost 2.0 whose `gte`/`lte` are the selection's slots 0 and 1; for anything that is not an array both bounds are `undefined` and it lets every rating through |
| `Queries.DefaultQuery` | packages/web/src/components/range/RatingsFilter.js:105-131 | the result is `null` exactly for a falsy value, otherwise a query; without nesting it is a range clause on `dataField` with boost 2.0, with `nestedField` set it is `{query: {nested: {path: nestedField, ...}}}` |
| `Queries.RangeSelectsInterval` | packages/web/src/components/range/RatingsFilter.js:108-116 | for `[a, b]` without nesting the query is exactly `range` on `dataField` with `gte = a`, `lte = b`, `boost = 2.0`; nested or not, it lets through exactly the ratings `a <= x <= b` |
| `Queries.NestingWrapsPlainQuery` | packages/web/src/components/range/RatingsFilter.js:119-127 | with `nestedField` set and a truthy value, the result is `{query: {nested: {path, query: q}}}` where `q` is the clause built without nesting |
| `Queries.CommittedQuery` | packages/web/src/components/range/RatingsFilter.js:161-166 | without `customQuery` the default query is committed; with one, the `query` field of its result, and `undefined` when it returns nothing |
| `Queries.CustomQueryOverridesDefault` | packages/web/src/components/range/RatingsFilter.js:163-166 | once a `customQuery` is given the default query plays no part: `dataField` and `nestedField` affect the committed query and options only through what the callback returns for them |
| `Queries.CustomOptions` | packages/web/src/components/range/RatingsFilter.js:164-169 | the options sent to `setQueryOptions` are unset without a `customQuery` or when it returns nothing, and otherwise are exactly the options of its result |
| `Transitions.CommitFor` | packages/web/src/components/range/RatingsFilter.js:171-179 | the commit carries the component id, the value itself and the ratings-filter type tag; without `customQuery` its query is `null` exactly when the value is falsy, and is never a foreign query |
| `Transitions.UpdateQueryCalls` | packages/web/src/components/range/RatingsFilter.js:161-180 | `updateQuery` makes two calls: first `setQueryOptions` on the component id with the custom options, then exactly one commit |
| `Transitions.SetValueStep` | packages/web/src/components/range/RatingsFilter.js:133-159 | locked with a `beforeValueChange` hook: nothing changes. Not approved by the hook: only the lock is set. Completed: unlocked, the selection is `value` (once mounted), the earlier calls are kept, exactly one commit of `value` with id, label, `showFilter` and `URLParams` from the props is appended, and `onValueChange(value)` follows it when given |
| `Transitions.HandleClickStep` | packages/web/src/components/range/RatingsFilter.js:182-190 | uncontrolled: the same as `setValue(item)`; controlled: selection, lock and commits untouched, with `onChange(item)` the only call added when `onChange` is given and nothing at all otherwise |
| `Transitions.InitialValue` | packages/web/src/components/range/RatingsFilter.js:37-39 | the first selection is `selectedValue`, else `defaultValue`, else `value` (the first truthy one), after `parseValue`, and `null` when none is truthy |
| `Transitions.Construct` | packages/web/src/components/range/RatingsFilter.js:37-59 | a new component holds the initial selection; a truthy one is committed exactly once (or leaves the lock set if the hook rejects it); a null one makes no call and leaves it unlocked |
| `Transitions.AdoptionAsWritten` | packages/web/src/components/range/RatingsFilter.js:72-86 | a new controlled `value` is adopted as it comes. With `value` unchanged, nothing happens exactly when the store's `selectedValue` did not change or equals the selection. Otherwise the store value (`null` when falsy) is adopted when uncontrolled, forwarded to `onChange` when controlled with `onChange`, and without `onChange` the current selection is adopted again |
| `Transitions.AdoptionFor` | packages/web/src/components/range/RatingsFilter.js:72-86 | the same decision, except that a new controlled `value` is adopted after `parseValue`: the correction of line 73 (see Findings) |
| `Transitions.RecommitOnFieldChange` | packages/web/src/components/range/RatingsFilter.js:68-70 | a change of `dataField` or `nestedField` appends exactly the `updateQuery` calls for the current selection under the new props; otherwise nothing changes |
| `Transitions.ApplyAdoption` | packages/web/src/components/range/RatingsFilter.js:72-86 | keep: nothing changes; adopt `v`: `setValue(v)` under the new props, once mounted; forward `v`: only `onChange(v)` is appended and the commits are unchanged |
| `Transitions.DidUpdateStep` | packages/web/src/components/range/RatingsFilter.js:68-86 | `componentDidUpdate` as written. An update that changes none of `dataField`, `nestedField`, `value`, `selectedValue` changes nothing. A forwarded store change only appends `onChange(selectedValue or null)`. A `dataField`/`nestedField` change with nothing to adopt recommits the current selection exactly once |
| `Transitions.DidUpdateStepCorrected` | packages/web/src/components/range/RatingsFilter.js:72-73 | the update with line 73 corrected; it is identical to `DidUpdateStep` whenever the controlled `value` did not change |
| `Transitions.StoreChangeAdoptedWhenUncontrolled` | packages/web/src/components/range/RatingsFilter.js:79-80 | uncontrolled, a new store selection that differs from the local one becomes the selection (`null` when falsy), unlocked, with exactly one commit of it, after the recommit of the current selection when `dataField` or `nestedField` also changed (lines 68-70) |
| `Transitions.StoreChangeForwardedWhenControlled` | packages/web/src/components/range/RatingsFilter.js:81-82 | controlled with `onChange`, a new store selection appends `onChange(selectedValue or null)` and nothing else, apart from the `updateQuery` calls of a `dataField`/`nestedField` change: the selection and lock are unchanged and no other commit is made |
| `Transitions.StoreChangeRecommitsWhenControlledWithoutOnChange` | packages/web/src/components/range/RatingsFilter.js:83-84 | controlled without `onChange`, a new store selection is not adopted; the current selection stays and is committed once more, after the recommit of a `dataField`/`nestedField` change if there is one |
| `Transitions.ControlledValueAdoptedAsWritten` | packages/web/src/components/range/RatingsFilter.js:72-73 | as written, a new controlled value becomes the selection exactly as given, unparsed, unlocked, with exactly one commit of it, after the recommit of a `dataField`/`nestedField` change if there is one |
| `Transitions.AsWrittenControlledRangeUnfiltered` | packages/web/src/components/range/RatingsFilter.js:73 | as written, after a controlled change to `{start: a, end: b}` the selection is the raw object, it marks no tier active, and the last committed query lets every rating through |
| `Transitions.ControlledValueAdopted` | packages/web/src/components/range/RatingsFilter.js:72-73 | with line 73 corrected, a new controlled value becomes the selection in parsed form, unlocked, with exactly one commit of it, after the recommit of a `dataField`/`nestedField` change if there is one |
| `Transitions.ControlledRangeFilters` | packages/web/src/components/range/RatingsFilter.js:72-73 | with line 73 corrected, after a controlled change to `{start: a, end: b}` exactly the tiers starting at `a` are active and the last committed query lets through exactly the ratings `a <= x <= b` |
| `Transitions.UncontrolledClicksCommitInOrder` | packages/web/src/components/range/RatingsFilter.js:182-186 | uncontrolled and without a hook, any run of clicks commits each clicked value once, in click order; afterwards the last click is the selection and the component is unlocked |
| `Transitions.LockedForGood` | packages/web/src/components/range/RatingsFilter.js:134-145 | once locked with a `beforeValueChange` hook, no run of clicks unlocks the component, changes the selection or commits anything |
| `Transitions.ControlledClicksForwarded` | packages/web/src/components/range/RatingsFilter.js:187-189 | controlled, a run of clicks never changes the selection, the lock or the commits; with `onChange` the clicked items reach it in order, and without it nothing happens |
| `Transitions.ClickActivatesTier` | packages/web/src/components/range/RatingsFilter.js:206-210 | an uncontrolled click on a tier that goes through marks active exactly the tiers that start where the clicked one does |
| `Component.RatingsFilter.constructor` | packages/web/src/components/range/RatingsFilter.js:34-60 | the new object's props, selection, lock and calls are those of `Construct` |
| `Component.RatingsFilter.SetValue` | packages/web/src/components/range/RatingsFilter.js:133-159 | the new selection, lock and calls are those of `SetValueStep` from the old ones |
| `Component.RatingsFilter.UpdateQuery` | packages/web/src/components/range/RatingsFilter.js:161-180 | exactly the two `updateQuery` calls are appended and nothing else changes |
| `Component.RatingsFilter.HandleClick` | packages/web/src/components/range/RatingsFilter.js:182-190 | the new selection, lock and calls are those of `HandleClickStep` under the current props |
| `Component.RatingsFilter.ComponentDidUpdate` | packages/web/src/components/range/RatingsFilter.js:62-87 | the props become the new ones, and selection, lock and calls follow `DidUpdateStep` (the code as written) from the former props |

## Left out

- Store registration and configuration are left out: `addComponent`, `setComponentProps`, `setQueryListener` and `watchComponent` in the constructor (lines 47-54). Their effects are inside the store.
- The other store calls of `componentDidUpdate` are left out: `updateComponentProps` and the resubscription through `setReact` (lines 63-66, 93-97). So is `removeComponent` in `componentWillUnmount` (lines 89-91).
- `render`, other than its click value and its `active` test (lines 192-227), is left out. It is presentation only.
- `propTypes`, `defaultProps` and the Redux wiring are left out (lines 230-302). `URLParams` is a plain boolean, as its default makes it. `selectedValue`, which `mapStateToProps` computes from the store (lines 269-274), is taken as an input.
- React's asynchronous `setState` and a promise-based `beforeValueChange` are not modelled. Each completed update is one atomic step, and a deferred approval is the `approved` parameter. So no request can arrive while an update is still pending.
- `checkValueChange` turns an empty array into `null` before passing it to the hook. That only affects what the hook sees, so it is left out.
- The source calls `customQuery` twice, once for the query and once for the options (lines 166-167). The model calls it once, as a pure function.
- `customQuery` receives only the value, `dataField` and `nestedField`. A callback that reads other props is not modelled.
- `getOptionsFromQuery` is treated as returning the custom query's keys other than `query`, and nothing when the custom query returns nothing. Its real code is not part of this model.
- A query object returned by `customQuery` is kept opaque (`Foreign`). `Admits` says nothing about it.
- Ratings are whole numbers. The falsy values `0`, `""` and `false` are outside the value domain.
- The text of `componentTypes.ratingsFilter` is not part of this model. It is the tag `RatingsFilterType`.

## Findings

| source | as written | input that shows it | evidently intended | confidence | as-written member | corrected member |
|---|---|---|---|---|---|---|
| packages/web/src/components/range/RatingsFilter.js:73 | `setValue(this.props.value)` adopts a new controlled value without `parseValue` | a controlled `value` (declared `types.range`, a `{start, end}` object) changing to `{start: 2, end: 5}`: the query has `gte`/`lte` `undefined`, lets a rating of 0 through and highlights no tier | adopt `parseValue(value)`, as the constructor does (line 39), so the query is the range 2..5 | medium, not executed (it depends on `types.range` being the object shape, which is defined outside this file) | `Transitions.AsWrittenControlledRangeUnfiltered` | `Transitions.ControlledRangeFilters` |
