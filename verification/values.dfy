/** The JavaScript values a ratings filter holds as its selection, and the
    normalisation `parseValue` applies to them. */
module JsValues {

  datatype Option<+T> = None | Some(value: T)

  /** One bound of a rating range as JavaScript sees it: a number, or
      `undefined` when the array slot or object field is absent. */
  datatype Bound = Missing | Num(n: int)

  /** The values that reach `value`, `defaultValue`, `selectedValue` and the
      state's `currentValue`: `undefined`, `null`, an array of bounds, or a
      `{start, end}` object. */
  datatype JsValue =
    | Undefined
    | Null
    | Arr(items: seq<Bound>)
    | Obj(start: Bound, end: Bound)

  /** JavaScript truthiness on these values: arrays (even empty ones) and
      objects are truthy, `undefined` and `null` are not. */
  predicate Truthy(v: JsValue) {
    v.Arr? || v.Obj?
  }

  /** JavaScript's `a || b`. */
  function Or(a: JsValue, b: JsValue): JsValue {
    if Truthy(a) then a else b
  }

  /** JavaScript's `v[i]`: an array slot, or `undefined` past the end of an
      array and on anything that is not an array. */
  function Index(v: JsValue, i: nat): Bound {
    if v.Arr? && i < |v.items| then v.items[i] else Missing
  }

  /** The shapes `parseValue` produces: `null` or an array. */
  predicate Parsed(v: JsValue) {
    v.Null? || v.Arr?
  }

  /** `parseValue`: an array is kept as it is, an object becomes
      `[start, end]`, anything falsy becomes `null`. */
  function ParseValue(v: JsValue): (r: JsValue)
    ensures Parsed(r)
    ensures Truthy(r) <==> Truthy(v)
    ensures Parsed(v) ==> r == v
    ensures v.Obj? ==> |r.items| == 2 && Index(r, 0) == v.start && Index(r, 1) == v.end
    ensures !Truthy(v) ==> r == Null
  {
    if v.Arr? then v
    else if Truthy(v) then Arr([v.start, v.end])
    else Null
  }

  /** One clickable entry of the `data` list (its `label` is `caption` here). */
  datatype Tier = Tier(start: int, end: int, caption: Option<string>)

  /** The value a click on a tier hands to `handleClick`: `[item.start, item.end]`. */
  function TierValue(t: Tier): (r: JsValue)
    ensures Parsed(r) && Truthy(r) && |r.items| == 2
    ensures Index(r, 0) == Num(t.start) && Index(r, 1) == Num(t.end)
  {
    Arr([Num(t.start), Num(t.end)])
  }

  /** The `active` test of the list item: `currentValue && currentValue[0] === item.start`. */
  predicate TierActive(current: JsValue, t: Tier)
    ensures TierActive(current, t) <==> current.Arr? && |current.items| > 0 && current.items[0] == Num(t.start)
    ensures current.Obj? || !Truthy(current) ==> !TierActive(current, t)
  {
    Truthy(current) && Index(current, 0) == Num(t.start)
  }

  /** The tier just clicked is shown active, and so is every tier that starts
      at the same rating, and no other. */
  lemma ClickedTierIsActive(t: Tier, u: Tier)
    ensures TierActive(TierValue(t), u) <==> u.start == t.start
  {
  }

  /** A `{start, end}` object is shown active on the tier its start names
      only after `parseValue`; left unparsed it highlights no tier at all. */
  lemma ObjectActiveOnlyOnceParsed(s: int, e: int, u: Tier)
    ensures TierActive(ParseValue(Obj(Num(s), Num(e))), u) <==> u.start == s
    ensures !TierActive(Obj(Num(s), Num(e)), u)
  {
  }
}
