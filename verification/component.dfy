/** The `RatingsFilter` component object: its selection, its re-entrancy
    lock and its props, updated in place by the constructor, `setValue`,
    `updateQuery`, `handleClick` and `componentDidUpdate`. The calls it makes
    on the store and on its callback props are recorded in `calls`. */
module Component {
  import opened JsValues
  import opened Queries
  import opened Transitions

  class RatingsFilter {
    /** `this.props`, replaced by the host before `componentDidUpdate`. */
    var props: Props
    /** `this.state.currentValue`. */
    var currentValue: JsValue
    /** `this.locked`. */
    var locked: bool
    /** Every call made on the store and the callbacks, in order. */
    ghost var calls: seq<Call>

    ghost function State(): FilterState
      reads this
    {
      FilterState(currentValue, locked, calls)
    }

    /** `checkValueChange`'s verdict on the initial value is `approved`. */
    constructor (props: Props, approved: bool)
      ensures this.props == props
      ensures State() == Construct(props, approved)
    {
      this.props := props;
      var current := InitialValue(props);
      currentValue := current;
      locked := false;
      calls := [];
      new;
      if Truthy(current) {
        SetValue(current, props, false, approved);
      }
    }

    /** `setValue(value, props, hasMounted)`, with `approved` the verdict of
        `checkValueChange` (ignored when there is no `beforeValueChange`). */
    method SetValue(value: JsValue, p: Props, hasMounted: bool, approved: bool)
      modifies this`currentValue, this`locked, this`calls
      ensures State() == SetValueStep(old(State()), value, p, hasMounted, approved)
    {
      if p.hasBeforeValueChange && locked {
        return;
      }
      locked := true;
      if !p.hasBeforeValueChange || approved {
        if hasMounted {
          currentValue := value;
        }
        UpdateQuery(value, p);
        locked := false;
        if p.hasOnValueChange {
          calls := calls + [OnValueChange(value)];
        }
      }
    }

    /** `updateQuery(value, props)`: the query options, then the commit. */
    method UpdateQuery(value: JsValue, p: Props)
      modifies this`calls
      ensures calls == old(calls) + UpdateQueryCalls(value, p)
    {
      var query := CommittedQuery(value, p);
      var options := CustomOptions(value, p);
      calls := calls + [SetQueryOptions(p.componentId, options)];
      calls := calls + [Call.UpdateQuery(Commit(p.componentId, query, value, p.filterLabel, p.showFilter, p.urlParams, RatingsFilterType))];
    }

    /** `handleClick(selectedItem)`. */
    method HandleClick(item: JsValue, approved: bool)
      modifies this`currentValue, this`locked, this`calls
      ensures State() == HandleClickStep(old(State()), props, item, approved)
    {
      if props.value.Undefined? {
        SetValue(item, props, true, approved);
      } else if props.hasOnChange {
        calls := calls + [OnChange(item)];
      }
    }

    /** The host installs `next` as the props, then `componentDidUpdate`
        runs with the former props as `prevProps`. */
    method ComponentDidUpdate(next: Props, approved: bool)
      modifies this
      ensures props == next
      ensures State() == DidUpdateStep(old(State()), old(props), next, approved)
    {
      var prev := props;
      props := next;
      if next.dataField != prev.dataField || next.nestedField != prev.nestedField {
        UpdateQuery(currentValue, next);
      }
      match AdoptionAsWritten(prev, next, currentValue)
      case AdoptValue(v) =>
        SetValue(v, next, true, approved);
      case ForwardChange(v) =>
        calls := calls + [OnChange(v)];
      case KeepValue =>
    }
  }
}
