/** The shoe detail page of `src/front/pages/Shoe.jsx`: which sizes are sold
    out, which size buttons are disabled, and what "add to cart" dispatches. */
module ShoePage {
  import opened Js
  import Store

  /** `!shoe.stock || shoe.stock[size] === 0`: without a stock map every size
      is sold out; with one, only a size whose entry is exactly `0`. */
  predicate SoldOut(shoe: Value, size: Value)
    requires !Nullish(shoe)
  {
    var stock := Prop(shoe, "stock");
    !Truthy(stock) || Prop(stock, ToString(size)) == Num(0)
  }

  /** The `filter` callback of the unavailable-sizes computation. */
  function SoldOutIn(shoe: Value): Value -> bool
    requires !Nullish(shoe)
  {
    (size: Value) => SoldOut(shoe, size)
  }

  /** `shoe.sizes?.filter(...) || []`: reading `sizes` of a null shoe throws,
      an absent list gives `[]`, and a value without a `filter` method
      throws when it is called. The filtered array is always truthy. */
  function UnavailableSizes(shoe: Value): Result<seq<Value>> {
    if Nullish(shoe) then TypeError
    else
      var sizes := Prop(shoe, "sizes");
      if Nullish(sizes) then Ok([])
      else if sizes.Arr? then Ok(Filter(sizes.items, SoldOutIn(shoe)))
      else TypeError
  }

  /** `disabled={!isAvailable}` with `isAvailable = !unavailableSizes.includes(size)`. */
  predicate SizeDisabled(unavailable: seq<Value>, size: Value) {
    size in unavailable
  }

  /** `v > 0` for the values a `length` read can produce: numbers compare
      as themselves, booleans as 0 or 1, and null as 0; `undefined` is NaN. */
  predicate GreaterThanZero(v: Value) {
    match v
    case Num(n) => n > 0
    case Bool(b) => b
    case _ => false
  }

  /** `shoe.sizes?.length > 0` */
  predicate HasSizes(shoe: Value)
    requires !Nullish(shoe)
  {
    var sizes := Prop(shoe, "sizes");
    !Nullish(sizes) && GreaterThanZero(Prop(sizes, "length"))
  }

  /** The cart line: `selectedSize ? { ...shoe, selectedSize } : shoe`. */
  function CartPayload(shoe: Value, selectedSize: Value): Value {
    if Truthy(selectedSize) then Obj(SpreadObject(shoe)["selectedSize" := selectedSize]) else shoe
  }

  /** `handleAddToCart`: the action it dispatches, or `None` when it only
      asks for a size. A null shoe throws at `shoe.sizes`. */
  function HandleAddToCart(shoe: Value, selectedSize: Value): (r: Result<Option<Store.Action>>)
    ensures r.TypeError? <==> Nullish(shoe)
    ensures r.Ok? ==> (r.value.None? <==> HasSizes(shoe) && !Truthy(selectedSize))
    ensures r.Ok? && r.value.Some? ==>
      r.value.value == Store.Action(Str("add_to_cart"), CartPayload(shoe, selectedSize))
  {
    if Nullish(shoe) then TypeError
    else if HasSizes(shoe) && !Truthy(selectedSize) then Ok(None)
    else Ok(Some(Store.Action(Str("add_to_cart"), CartPayload(shoe, selectedSize))))
  }

  // ---- properties ----

  /** The unavailable sizes are `sizes` with the available ones dropped: a
      sub-list in the original order, with each kept size as often as it
      occurs in `sizes`. */
  lemma UnavailableIsOrderedSubList(shoe: Value, prefix: seq<Value>, suffix: seq<Value>)
    requires !Nullish(shoe) && Prop(shoe, "sizes") == Arr(prefix + suffix)
    ensures UnavailableSizes(shoe) == Ok(Filter(prefix, SoldOutIn(shoe)) + Filter(suffix, SoldOutIn(shoe)))
    ensures |UnavailableSizes(shoe).value| <= |prefix + suffix|
    ensures forall x ::
      multiset(UnavailableSizes(shoe).value)[x] == (if SoldOut(shoe, x) then multiset(prefix + suffix)[x] else 0)
  {
    FilterConcat(prefix, suffix, SoldOutIn(shoe));
    FilterCounts(prefix + suffix, SoldOutIn(shoe));
  }

  /** A size is unavailable exactly when it is listed and sold out. */
  lemma UnavailableMembership(shoe: Value, size: Value)
    requires !Nullish(shoe) && Prop(shoe, "sizes").Arr?
    ensures size in UnavailableSizes(shoe).value <==> size in Prop(shoe, "sizes").items && SoldOut(shoe, size)
  {
    FilterMembership(Prop(shoe, "sizes").items, SoldOutIn(shoe), size);
  }

  /** Without a stock map every listed size is unavailable. */
  lemma NoStockMeansAllUnavailable(shoe: Value)
    requires !Nullish(shoe) && Prop(shoe, "sizes").Arr? && !Truthy(Prop(shoe, "stock"))
    ensures UnavailableSizes(shoe) == Ok(Prop(shoe, "sizes").items)
  {
    var sizes := Prop(shoe, "sizes").items;
    FilterAllSatisfy(sizes, SoldOutIn(shoe));
  }

  /** With a stock map, the unavailable sizes are exactly the listed sizes
      whose stock entry is `0`. */
  lemma StockedSizesUnavailableIffZero(shoe: Value, size: Value)
    requires !Nullish(shoe) && Prop(shoe, "sizes").Arr? && Truthy(Prop(shoe, "stock"))
    ensures size in UnavailableSizes(shoe).value <==>
      size in Prop(shoe, "sizes").items && Prop(Prop(shoe, "stock"), ToString(size)) == Num(0)
  {
    UnavailableMembership(shoe, size);
  }

  /** A size the stock object has no entry for stays available: its entry
      reads `undefined`, which is not `0`. */
  lemma MissingStockEntryIsAvailable(shoe: Value, size: Value)
    requires !Nullish(shoe) && Prop(shoe, "sizes").Arr?
    requires Prop(shoe, "stock").Obj? && ToString(size) !in Prop(shoe, "stock").props
    ensures size !in UnavailableSizes(shoe).value
  {
    UnavailableMembership(shoe, size);
  }

  /** A shoe with no `sizes` has no unavailable sizes. */
  lemma NoSizesNoneUnavailable(shoe: Value)
    requires !Nullish(shoe) && Nullish(Prop(shoe, "sizes"))
    ensures UnavailableSizes(shoe) == Ok([])
  {
  }

  /** A listed size's button is disabled exactly when that size is sold out. */
  lemma DisabledIffSoldOut(shoe: Value, size: Value)
    requires !Nullish(shoe) && Prop(shoe, "sizes").Arr? && size in Prop(shoe, "sizes").items
    ensures SizeDisabled(UnavailableSizes(shoe).value, size) <==> SoldOut(shoe, size)
  {
    UnavailableMembership(shoe, size);
  }

  /** A shoe with a non-empty size list is never added without a size. */
  lemma NoDispatchWithoutSize(shoe: Value, selectedSize: Value)
    requires !Nullish(shoe) && Prop(shoe, "sizes").Arr? && |Prop(shoe, "sizes").items| > 0
    requires !Truthy(selectedSize)
    ensures HandleAddToCart(shoe, selectedSize) == Ok(None)
  {
  }

  /** A shoe that lists no sizes is added as it is, with no size needed. */
  lemma SizelessShoeAddedUnchanged(shoe: Value, selectedSize: Value)
    requires !Nullish(shoe) && Prop(shoe, "sizes") == Arr([]) && !Truthy(selectedSize)
    ensures HandleAddToCart(shoe, selectedSize) == Ok(Some(Store.Action(Str("add_to_cart"), shoe)))
  {
  }

  /** With a selected size the payload is the shoe's own properties plus
      `selectedSize`, which overrides any earlier field of that name. */
  lemma PayloadCarriesSelectedSize(shoe: Value, selectedSize: Value)
    requires shoe.Obj? && Truthy(selectedSize)
    ensures var p := CartPayload(shoe, selectedSize);
      && p.Obj? && "selectedSize" in p.props && p.props["selectedSize"] == selectedSize
      && p.props.Keys == shoe.props.Keys + {"selectedSize"}
      && forall k :: k in shoe.props && k != "selectedSize" ==> p.props[k] == shoe.props[k]
  {
  }

  /** Adding a shoe and reducing the dispatched action grows the cart by
      exactly that payload, and changes nothing else. */
  lemma AddThenReduceAppendsPayload(s: Store.State, shoe: Value, selectedSize: Value)
    requires HandleAddToCart(shoe, selectedSize).Ok? && HandleAddToCart(shoe, selectedSize).value.Some?
    ensures var a := HandleAddToCart(shoe, selectedSize).value.value;
      Store.Reduce(s, a) == Ok(s.(cart := s.cart + [CartPayload(shoe, selectedSize)]))
    ensures var a := HandleAddToCart(shoe, selectedSize).value.value;
      |Store.Reduce(s, a).value.cart| == |s.cart| + 1
  {
    var a := HandleAddToCart(shoe, selectedSize).value.value;
    assert Store.CaseOf(a.kind) == Store.AddToCart;
  }
}
