/** The filter's selection state machine as pure transitions: what
    `setValue`, `updateQuery`, `handleClick`, the constructor and
    `componentDidUpdate` do to the selection, the re-entrancy lock and the
    calls made on the store and the callbacks. The class in module Component
    follows these step by step. */
module Transitions {
  import opened JsValues
  import opened Queries

  /** The component type tag every commit carries. */
  datatype ComponentType = RatingsFilterType

  /** The object handed to the store's `updateQuery`. */
  datatype Commit = Commit(
    componentId: string,
    query: QueryValue,
    value: JsValue,
    filterLabel: Option<string>,
    showFilter: Option<bool>,
    urlParams: bool,
    componentType: ComponentType)

  /** One call the component makes on the injected store or on a callback prop. */
  datatype Call =
    | SetQueryOptions(componentId: string, options: Option<QueryOptions>)
    | UpdateQuery(commit: Commit)
    | OnValueChange(value: JsValue)
    | OnChange(value: JsValue)

  /** `state.currentValue`, the `locked` flag and every call made so far, in order. */
  datatype FilterState = FilterState(currentValue: JsValue, locked: bool, calls: seq<Call>)

  /** The commits to the store among `calls`, in order. */
  function Commits(calls: seq<Call>): seq<Commit> {
    if calls == [] then []
    else (if calls[0].UpdateQuery? then [calls[0].commit] else []) + Commits(calls[1..])
  }

  lemma {:induction false} CommitsAppend(a: seq<Call>, b: seq<Call>)
    ensures Commits(a + b) == Commits(a) + Commits(b)
  {
    if a == [] {
      assert a + b == b;
    } else {
      var head := if a[0].UpdateQuery? then [a[0].commit] else [];
      assert (a + b)[0] == a[0];
      assert (a + b)[1..] == a[1..] + b;
      CommitsAppend(a[1..], b);
      calc {
        Commits(a + b);
        head + Commits(a[1..] + b);
        head + (Commits(a[1..]) + Commits(b));
        (head + Commits(a[1..])) + Commits(b);
      }
    }
  }

  /** The commit `updateQuery` builds for `value`. */
  function CommitFor(value: JsValue, props: Props): (r: Commit)
    ensures r.componentId == props.componentId && r.value == value && r.componentType == RatingsFilterType
    ensures props.customQuery.None? ==> (r.query.QNull? <==> !Truthy(value)) && !r.query.Foreign?
  {
    Commit(props.componentId, CommittedQuery(value, props), value,
           props.filterLabel, props.showFilter, props.urlParams, RatingsFilterType)
  }

  /** The calls `updateQuery` makes: `setQueryOptions`, then `updateQuery` on the store. */
  function UpdateQueryCalls(value: JsValue, props: Props): (r: seq<Call>)
    ensures Commits(r) == [CommitFor(value, props)]
    ensures |r| == 2 && r[0] == SetQueryOptions(props.componentId, CustomOptions(value, props))
  {
    var r := [SetQueryOptions(props.componentId, CustomOptions(value, props)), UpdateQuery(CommitFor(value, props))];
    assert Commits(r[1..]) == [CommitFor(value, props)];
    r
  }

  /** `setValue` ignores the request: a `beforeValueChange` hook is set and
      the component is locked. */
  predicate Dropped(s: FilterState, props: Props) {
    props.hasBeforeValueChange && s.locked
  }

  /** `checkValueChange` runs the update: there is no `beforeValueChange`
      hook, or the hook approved the value. */
  predicate Completes(props: Props, approved: bool) {
    !props.hasBeforeValueChange || approved
  }

  /** `setValue(value, props, hasMounted)`. A dropped request changes
      nothing. Otherwise the component locks; a completed update then sets the
      selection (only once mounted: before that the constructor has already
      set it), commits exactly one query for `value`, unlocks and finally
      calls `onValueChange(value)`. An update the hook never lets through
      leaves the lock set. */
  function SetValueStep(s: FilterState, value: JsValue, props: Props, hasMounted: bool, approved: bool): (r: FilterState)
    ensures Dropped(s, props) ==> r == s
    ensures !Dropped(s, props) && !Completes(props, approved) ==> r == s.(locked := true)
    ensures !Dropped(s, props) && Completes(props, approved) ==>
      && !r.locked
      && r.currentValue == (if hasMounted then value else s.currentValue)
      && Commits(r.calls) == Commits(s.calls) + [CommitFor(value, props)]
      && |r.calls| == |s.calls| + (if props.hasOnValueChange then 3 else 2)
      && r.calls[..|s.calls|] == s.calls
      && r.calls[|s.calls|..|s.calls| + 2] == UpdateQueryCalls(value, props)
      && r.calls[|s.calls| + 1] == UpdateQuery(CommitFor(value, props))
      && (props.hasOnValueChange ==> r.calls[|s.calls| + 2] == OnValueChange(value))
  {
    if Dropped(s, props) then s
    else if !Completes(props, approved) then s.(locked := true)
    else
      var updates := UpdateQueryCalls(value, props);
      var notify := if props.hasOnValueChange then [OnValueChange(value)] else [];
      CommitsAppend(s.calls, updates);
      CommitsAppend(s.calls + updates, notify);
      assert Commits(notify) == [];
      FilterState(if hasMounted then value else s.currentValue, false, s.calls + updates + notify)
  }

  /** `handleClick(item)`: uncontrolled (`value` is `undefined`) it is
      `setValue(item)`; controlled it hands the item to `onChange`, when
      given, and never touches the selection, the lock or the store. */
  function HandleClickStep(s: FilterState, props: Props, item: JsValue, approved: bool): (r: FilterState)
    ensures props.value.Undefined? ==> r == SetValueStep(s, item, props, true, approved)
    ensures !props.value.Undefined? ==>
      r.currentValue == s.currentValue && r.locked == s.locked && Commits(r.calls) == Commits(s.calls)
    ensures !props.value.Undefined? ==>
      r.calls == s.calls + (if props.hasOnChange then [OnChange(item)] else [])
  {
    if props.value.Undefined? then SetValueStep(s, item, props, true, approved)
    else if props.hasOnChange then
      CommitsAppend(s.calls, [OnChange(item)]);
      assert Commits([OnChange(item)]) == [];
      s.(calls := s.calls + [OnChange(item)])
    else
      assert s.calls + [] == s.calls;
      s
  }

  /** The constructor's first selection: `selectedValue`, else
      `defaultValue`, else `value`, else `null`, passed through `parseValue`. */
  function InitialValue(props: Props): (r: JsValue)
    ensures Parsed(r)
    ensures Truthy(props.selectedValue) ==> r == ParseValue(props.selectedValue)
    ensures !Truthy(props.selectedValue) && Truthy(props.defaultValue) ==> r == ParseValue(props.defaultValue)
    ensures !Truthy(props.selectedValue) && !Truthy(props.defaultValue) && Truthy(props.value) ==> r == ParseValue(props.value)
    ensures Truthy(r) <==> Truthy(props.selectedValue) || Truthy(props.defaultValue) || Truthy(props.value)
  {
    var defaultValue := Or(props.defaultValue, props.value);
    ParseValue(Or(props.selectedValue, Or(defaultValue, Null)))
  }

  /** The state right after construction: the initial selection, and, when
      it is not `null`, the `setValue` that commits it before mounting. */
  function Construct(props: Props, approved: bool): (r: FilterState)
    ensures r.currentValue == InitialValue(props)
    ensures !Truthy(InitialValue(props)) ==> r == FilterState(Null, false, [])
    ensures Truthy(InitialValue(props)) && Completes(props, approved) ==>
      !r.locked && Commits(r.calls) == [CommitFor(InitialValue(props), props)]
    ensures Truthy(InitialValue(props)) && !Completes(props, approved) ==> r.locked && r.calls == []
  {
    var current := InitialValue(props);
    var s := FilterState(current, false, []);
    assert Commits(s.calls) == [];
    if Truthy(current) then SetValueStep(s, current, props, false, approved) else s
  }

  /** What `componentDidUpdate` does about the selection. */
  datatype Adoption = AdoptValue(value: JsValue) | ForwardChange(value: JsValue) | KeepValue

  /** The store's `selectedValue` changed and differs from the selection,
      while the controlled `value` did not change. */
  predicate StoreChanged(prev: Props, next: Props, current: JsValue) {
    next.value == prev.value && current != next.selectedValue && next.selectedValue != prev.selectedValue
  }

  /** The value-adoption branch of `componentDidUpdate` as written: a new
      controlled `value` is set as it comes; otherwise a new store
      `selectedValue` that differs from the selection is adopted when
      uncontrolled, forwarded to `onChange` when controlled, or else the
      current selection is committed again. */
  function AdoptionAsWritten(prev: Props, next: Props, current: JsValue): (r: Adoption)
    ensures next.value != prev.value ==> r == AdoptValue(next.value)
    ensures next.value == prev.value ==> (r == KeepValue <==> !StoreChanged(prev, next, current))
    ensures StoreChanged(prev, next, current) && next.value.Undefined? ==>
      r == AdoptValue(Or(next.selectedValue, Null))
    ensures StoreChanged(prev, next, current) && !next.value.Undefined? && next.hasOnChange ==>
      r == ForwardChange(Or(next.selectedValue, Null))
    ensures StoreChanged(prev, next, current) && !next.value.Undefined? && !next.hasOnChange ==>
      r == AdoptValue(current)
    ensures r.ForwardChange? ==> !next.value.Undefined? && next.hasOnChange
  {
    if next.value != prev.value then AdoptValue(next.value)
    else if current != next.selectedValue && next.selectedValue != prev.selectedValue then
      if next.value.Undefined? then AdoptValue(Or(next.selectedValue, Null))
      else if next.hasOnChange then ForwardChange(Or(next.selectedValue, Null))
      else AdoptValue(current)
    else KeepValue
  }

  /** The value-adoption branch with the new controlled `value` passed
      through `parseValue`, as the constructor does with it. */
  function AdoptionFor(prev: Props, next: Props, current: JsValue): (r: Adoption)
    ensures next.value != prev.value ==> r == AdoptValue(ParseValue(next.value)) && Parsed(r.value)
    ensures next.value == prev.value ==> r == AdoptionAsWritten(prev, next, current)
  {
    if next.value != prev.value then AdoptValue(ParseValue(next.value))
    else AdoptionAsWritten(prev, next, current)
  }

  /** `dataField` or `nestedField` differs between the two props. */
  predicate FieldsChanged(prev: Props, next: Props) {
    next.dataField != prev.dataField || next.nestedField != prev.nestedField
  }

  /** The first part of `componentDidUpdate` modelled here: a change of
      `dataField` or `nestedField` recommits the current selection. */
  function RecommitOnFieldChange(s: FilterState, prev: Props, next: Props): (r: FilterState)
    ensures !FieldsChanged(prev, next) ==> r == s
    ensures FieldsChanged(prev, next) ==>
      r.currentValue == s.currentValue && r.locked == s.locked
      && r.calls == s.calls + UpdateQueryCalls(s.currentValue, next)
      && Commits(r.calls) == Commits(s.calls) + [CommitFor(s.currentValue, next)]
  {
    if FieldsChanged(prev, next) then
      CommitsAppend(s.calls, UpdateQueryCalls(s.currentValue, next));
      s.(calls := s.calls + UpdateQueryCalls(s.currentValue, next))
    else s
  }

  /** The commit a `dataField` or `nestedField` change adds before any
      adoption: the current selection under the new props. */
  function Recommits(prev: Props, next: Props, current: JsValue): seq<Commit> {
    if FieldsChanged(prev, next) then [CommitFor(current, next)] else []
  }

  /** Carrying out an adoption decision: `setValue` for an adopted value,
      `onChange` for a forwarded one. */
  function ApplyAdoption(s: FilterState, adoption: Adoption, next: Props, approved: bool): (r: FilterState)
    ensures adoption.KeepValue? ==> r == s
    ensures adoption.AdoptValue? ==> r == SetValueStep(s, adoption.value, next, true, approved)
    ensures adoption.ForwardChange? ==>
      r == s.(calls := s.calls + [OnChange(adoption.value)]) && Commits(r.calls) == Commits(s.calls)
  {
    match adoption
    case AdoptValue(v) => SetValueStep(s, v, next, true, approved)
    case ForwardChange(v) =>
      CommitsAppend(s.calls, [OnChange(v)]);
      assert Commits([OnChange(v)]) == [];
      s.(calls := s.calls + [OnChange(v)])
    case KeepValue => s
  }

  /** `componentDidUpdate(prev)` with `next` as the new props, as written: a
      change of `dataField` or `nestedField` recommits the current selection,
      then the selection is adopted, forwarded or kept. */
  function DidUpdateStep(s: FilterState, prev: Props, next: Props, approved: bool): (r: FilterState)
    ensures (!FieldsChanged(prev, next) && next.value == prev.value
             && next.selectedValue == prev.selectedValue) ==> r == s
    ensures (!FieldsChanged(prev, next) && StoreChanged(prev, next, s.currentValue)
             && !next.value.Undefined? && next.hasOnChange) ==>
      r == s.(calls := s.calls + [OnChange(Or(next.selectedValue, Null))])
    ensures (FieldsChanged(prev, next) && next.value == prev.value
             && !StoreChanged(prev, next, s.currentValue)) ==>
      r.currentValue == s.currentValue && r.locked == s.locked
      && Commits(r.calls) == Commits(s.calls) + [CommitFor(s.currentValue, next)]
  {
    var refreshed := RecommitOnFieldChange(s, prev, next);
    ApplyAdoption(refreshed, AdoptionAsWritten(prev, next, refreshed.currentValue), next, approved)
  }

  /** The same update with the new controlled `value` parsed first. */
  function DidUpdateStepCorrected(s: FilterState, prev: Props, next: Props, approved: bool): (r: FilterState)
    ensures next.value == prev.value ==> r == DidUpdateStep(s, prev, next, approved)
  {
    var refreshed := RecommitOnFieldChange(s, prev, next);
    ApplyAdoption(refreshed, AdoptionFor(prev, next, refreshed.currentValue), next, approved)
  }

  /** Uncontrolled, a new store selection that differs from the local one
      becomes the selection (`null` when falsy) and is committed exactly once,
      after the recommit a `dataField`/`nestedField` change makes. */
  lemma StoreChangeAdoptedWhenUncontrolled(s: FilterState, prev: Props, next: Props, approved: bool)
    requires StoreChanged(prev, next, s.currentValue) && next.value.Undefined?
    requires !Dropped(s, next) && Completes(next, approved)
    ensures DidUpdateStep(s, prev, next, approved).currentValue == Or(next.selectedValue, Null)
    ensures !DidUpdateStep(s, prev, next, approved).locked
    ensures Commits(DidUpdateStep(s, prev, next, approved).calls)
         == Commits(s.calls) + Recommits(prev, next, s.currentValue) + [CommitFor(Or(next.selectedValue, Null), next)]
  {
  }

  /** Controlled with `onChange`, a new store selection goes to `onChange`;
      besides the recommit a `dataField`/`nestedField` change makes, nothing
      else happens. */
  lemma StoreChangeForwardedWhenControlled(s: FilterState, prev: Props, next: Props, approved: bool)
    requires StoreChanged(prev, next, s.currentValue)
    requires !next.value.Undefined? && next.hasOnChange
    ensures DidUpdateStep(s, prev, next, approved)
         == s.(calls := s.calls + (if FieldsChanged(prev, next) then UpdateQueryCalls(s.currentValue, next) else [])
                                + [OnChange(Or(next.selectedValue, Null))])
    ensures DidUpdateStep(s, prev, next, approved).currentValue == s.currentValue
    ensures Commits(DidUpdateStep(s, prev, next, approved).calls) == Commits(s.calls) + Recommits(prev, next, s.currentValue)
  {
    assert !FieldsChanged(prev, next) ==> s.calls + [] == s.calls;
  }

  /** Controlled without `onChange`, a new store selection is not adopted:
      the current selection is committed once more instead. */
  lemma StoreChangeRecommitsWhenControlledWithoutOnChange(s: FilterState, prev: Props, next: Props, approved: bool)
    requires StoreChanged(prev, next, s.currentValue)
    requires !next.value.Undefined? && !next.hasOnChange
    requires !Dropped(s, next) && Completes(next, approved)
    ensures DidUpdateStep(s, prev, next, approved).currentValue == s.currentValue
    ensures !DidUpdateStep(s, prev, next, approved).locked
    ensures Commits(DidUpdateStep(s, prev, next, approved).calls)
         == Commits(s.calls) + Recommits(prev, next, s.currentValue) + [CommitFor(s.currentValue, next)]
  {
  }

  /** As written, a new controlled value becomes the selection exactly as
      given, unparsed, and is committed exactly once, after the recommit a
      `dataField`/`nestedField` change makes. */
  lemma ControlledValueAdoptedAsWritten(s: FilterState, prev: Props, next: Props, approved: bool)
    requires next.value != prev.value
    requires !Dropped(s, next) && Completes(next, approved)
    ensures DidUpdateStep(s, prev, next, approved).currentValue == next.value
    ensures !DidUpdateStep(s, prev, next, approved).locked
    ensures Commits(DidUpdateStep(s, prev, next, approved).calls)
         == Commits(s.calls) + Recommits(prev, next, s.currentValue) + [CommitFor(next.value, next)]
  {
  }

  /** Line 73 as written hands the `{start, end}` object itself to
      `setValue`: the selection becomes the object, which marks no tier
      active, and the committed query has `undefined` bounds and lets every
      rating through. */
  lemma AsWrittenControlledRangeUnfiltered(s: FilterState, prev: Props, next: Props, approved: bool, a: int, b: int, x: int, t: Tier)
    requires next.value == Obj(Num(a), Num(b)) && next.value != prev.value
    requires next.customQuery.None?
    requires !Dropped(s, next) && Completes(next, approved)
    ensures var r := DidUpdateStep(s, prev, next, approved);
      r.currentValue == Obj(Num(a), Num(b)) && !TierActive(r.currentValue, t)
      && |Commits(r.calls)| > 0 && Admits(Commits(r.calls)[|Commits(r.calls)| - 1].query, x)
  {
    ControlledValueAdoptedAsWritten(s, prev, next, approved);
    var clause := RangeClause(next.value, next.dataField);
    assert Selects(clause, x);
    assert Selects(QueryOf(Nested(if HasNested(next) then next.nestedField.value else "", clause)), x);
  }

  /** With the value parsed, a new controlled value becomes the selection in
      parsed form and is committed exactly once, after the recommit a
      `dataField`/`nestedField` change makes. */
  lemma ControlledValueAdopted(s: FilterState, prev: Props, next: Props, approved: bool)
    requires next.value != prev.value
    requires !Dropped(s, next) && Completes(next, approved)
    ensures DidUpdateStepCorrected(s, prev, next, approved).currentValue == ParseValue(next.value)
    ensures !DidUpdateStepCorrected(s, prev, next, approved).locked
    ensures Commits(DidUpdateStepCorrected(s, prev, next, approved).calls)
         == Commits(s.calls) + Recommits(prev, next, s.currentValue) + [CommitFor(ParseValue(next.value), next)]
  {
  }

  /** With the value parsed, a controlled change to `{start: a, end: b}`
      commits a default query that lets through exactly the ratings from `a`
      to `b`, and marks active exactly the tiers starting at `a`. */
  lemma ControlledRangeFilters(s: FilterState, prev: Props, next: Props, approved: bool, a: int, b: int, x: int, t: Tier)
    requires next.value == Obj(Num(a), Num(b)) && next.value != prev.value
    requires next.customQuery.None?
    requires !Dropped(s, next) && Completes(next, approved)
    ensures var r := DidUpdateStepCorrected(s, prev, next, approved);
      (TierActive(r.currentValue, t) <==> t.start == a)
      && |Commits(r.calls)| > 0 && (Admits(Commits(r.calls)[|Commits(r.calls)| - 1].query, x) <==> a <= x <= b)
  {
    ControlledValueAdopted(s, prev, next, approved);
    var parsed := ParseValue(next.value);
    assert parsed == Arr([Num(a), Num(b)]);
    RangeSelectsInterval(parsed, next, a, b, x);
  }

  /** A user's clicks on the list, each with the verdict of the
      `beforeValueChange` hook when there is one. */
  datatype Click = Click(item: JsValue, approved: bool)

  /** The state after the clicks, one `handleClick` each, in order. */
  function Clicks(s: FilterState, props: Props, clicks: seq<Click>): FilterState
    decreases |clicks|
  {
    if clicks == [] then s
    else Clicks(HandleClickStep(s, props, clicks[0].item, clicks[0].approved), props, clicks[1..])
  }

  /** Uncontrolled and without a hook, every click commits its value, in
      click order, and the last click is the selection. */
  lemma {:induction false} UncontrolledClicksCommitInOrder(s: FilterState, props: Props, clicks: seq<Click>)
    requires props.value.Undefined? && !props.hasBeforeValueChange
    ensures Commits(Clicks(s, props, clicks).calls)
         == Commits(s.calls) + seq(|clicks|, i requires 0 <= i < |clicks| => CommitFor(clicks[i].item, props))
    ensures clicks != [] ==>
      Clicks(s, props, clicks).currentValue == clicks[|clicks| - 1].item && !Clicks(s, props, clicks).locked
    decreases |clicks|
  {
    if clicks != [] {
      var s' := HandleClickStep(s, props, clicks[0].item, clicks[0].approved);
      UncontrolledClickCommits(s, props, clicks[0]);
      var rest := clicks[1..];
      UncontrolledClicksCommitInOrder(s', props, rest);
      ClickCommitsSplit(props, clicks);
      assert Clicks(s, props, clicks) == Clicks(s', props, rest);
      if rest != [] {
        assert clicks[|clicks| - 1] == rest[|rest| - 1];
      }
    }
  }

  /** One uncontrolled click without a hook commits its item and selects it. */
  lemma UncontrolledClickCommits(s: FilterState, props: Props, click: Click)
    requires props.value.Undefined? && !props.hasBeforeValueChange
    ensures var r := HandleClickStep(s, props, click.item, click.approved);
      r.currentValue == click.item && !r.locked && Commits(r.calls) == Commits(s.calls) + [CommitFor(click.item, props)]
  {
  }

  /** The commits of a run of clicks are the first click's, then the rest's. */
  lemma ClickCommitsSplit(props: Props, clicks: seq<Click>)
    requires clicks != []
    ensures seq(|clicks|, i requires 0 <= i < |clicks| => CommitFor(clicks[i].item, props))
         == [CommitFor(clicks[0].item, props)] + seq(|clicks| - 1, i requires 0 <= i < |clicks| - 1 => CommitFor(clicks[1..][i].item, props))
  {
  }

  /** Once locked with a `beforeValueChange` hook (a change the hook never
      let through), the component stays locked: no click changes the
      selection or commits anything again. */
  lemma {:induction false} LockedForGood(s: FilterState, props: Props, clicks: seq<Click>)
    requires props.hasBeforeValueChange && s.locked
    ensures Clicks(s, props, clicks).locked
    ensures Clicks(s, props, clicks).currentValue == s.currentValue
    ensures Commits(Clicks(s, props, clicks).calls) == Commits(s.calls)
    decreases |clicks|
  {
    if clicks != [] {
      LockedForGood(HandleClickStep(s, props, clicks[0].item, clicks[0].approved), props, clicks[1..]);
    }
  }

  /** Controlled, clicks never change the selection, the lock or the store;
      each goes to `onChange` in click order when it is given. */
  lemma {:induction false} ControlledClicksForwarded(s: FilterState, props: Props, clicks: seq<Click>)
    requires !props.value.Undefined?
    ensures Clicks(s, props, clicks).currentValue == s.currentValue
    ensures Clicks(s, props, clicks).locked == s.locked
    ensures Commits(Clicks(s, props, clicks).calls) == Commits(s.calls)
    ensures props.hasOnChange ==>
      Clicks(s, props, clicks).calls == s.calls + seq(|clicks|, i requires 0 <= i < |clicks| => OnChange(clicks[i].item))
    ensures !props.hasOnChange ==> Clicks(s, props, clicks) == s
    decreases |clicks|
  {
    if clicks != [] {
      var s' := HandleClickStep(s, props, clicks[0].item, clicks[0].approved);
      ControlledClicksForwarded(s', props, clicks[1..]);
      var rest := clicks[1..];
      if props.hasOnChange {
        assert seq(|clicks|, i requires 0 <= i < |clicks| => OnChange(clicks[i].item))
            == [OnChange(clicks[0].item)] + seq(|rest|, i requires 0 <= i < |rest| => OnChange(rest[i].item));
        assert s'.calls == s.calls + [OnChange(clicks[0].item)];
      }
    }
  }

  /** An uncontrolled click that goes through shows the clicked tier, and
      every tier with the same start, as active. */
  lemma ClickActivatesTier(s: FilterState, props: Props, t: Tier, u: Tier, approved: bool)
    requires props.value.Undefined? && !Dropped(s, props) && Completes(props, approved)
    ensures TierActive(HandleClickStep(s, props, TierValue(t), approved).currentValue, u) <==> u.start == t.start
  {
  }
}
