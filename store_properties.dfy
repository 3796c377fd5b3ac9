/** What each reducer case promises, stated over `Store.Reduce` and
    `Store.Persist`, and what a page reload restores after a session case. */
module StoreProperties {
  import opened Js
  import opened Store

  // ---- unrecognised actions ----

  /** An action type no case names leaves the state and the storage alone. */
  lemma UnrecognisedActionIsIgnored(s: State, a: Action, saved: map<string, Value>)
    requires CaseOf(a.kind) == Unrecognised
    ensures Reduce(s, a) == Ok(s)
    ensures Persist(saved, s, a) == saved
  {
  }

  /** Only the twelve names of the `switch` are recognised. */
  lemma RecognisedNames(kind: Value)
    ensures CaseOf(kind) != Unrecognised <==>
      kind.Str? && kind.s in {"signup_success", "signup_failed", "login_success", "update_user",
                              "logout", "set_message", "load_products", "add_to_cart",
                              "remove_from_cart", "admin_add_product", "admin_delete_product",
                              "admin_update_product"}
  {
  }

  /** The missing action (the default `{}`) and the `load_shoes` action the
      home page dispatches both fall through to `default`. */
  lemma MissingAndLoadShoesAreIgnored(s: State, payload: Value)
    ensures Reduce(s, NoAction) == Ok(s)
    ensures Reduce(s, Action(Str("load_shoes"), payload)) == Ok(s)
  {
    RecognisedNames(Str("load_shoes"));
  }

  // ---- signup flag and message ----

  lemma SignupFlagAndMessage(s: State, p: Value)
    ensures Reduce(s, Action(Str("signup_success"), p)) == Ok(s.(signup := true))
    ensures Reduce(s, Action(Str("signup_failed"), p)) == Ok(s.(signup := false))
    ensures Reduce(s, Action(Str("set_message"), p)) == Ok(s.(message := p))
  {
  }

  // ---- cart ----

  /** `add_to_cart` appends the payload as one new line and changes nothing else. */
  lemma AddToCartAppends(s: State, p: Value)
    ensures Reduce(s, Action(Str("add_to_cart"), p)) == Ok(s.(cart := s.cart + [p]))
    ensures var t := Reduce(s, Action(Str("add_to_cart"), p)).value;
      |t.cart| == |s.cart| + 1 && t.cart[|s.cart|] == p && t.cart[..|s.cart|] == s.cart
  {
    assert (s.cart + [p])[..|s.cart|] == s.cart;
  }

  function AddToCartActions(ps: seq<Value>): (r: seq<Action>)
    ensures |r| == |ps|
    ensures forall i :: 0 <= i < |ps| ==> r[i] == Action(Str("add_to_cart"), ps[i])
  {
    seq(|ps|, i requires 0 <= i < |ps| => Action(Str("add_to_cart"), ps[i]))
  }

  /** Adding the items `ps` one after another appends all of them, in order,
      without merging duplicates. */
  lemma {:induction false} AddingAllAppendsAll(s: State, ps: seq<Value>)
    ensures ReduceAll(s, AddToCartActions(ps)) == Ok(s.(cart := s.cart + ps))
    decreases |ps|
  {
    if ps == [] {
      assert s.cart + ps == s.cart;
    } else {
      var next := s.(cart := s.cart + [ps[0]]);
      AddToCartAppends(s, ps[0]);
      assert AddToCartActions(ps)[1..] == AddToCartActions(ps[1..]);
      AddingAllAppendsAll(next, ps[1..]);
      assert next.cart + ps[1..] == s.cart + ps;
    }
  }

  /** After N `add_to_cart` dispatches from the initial state the cart holds N lines. */
  lemma CartLengthCountsAdds(saved: map<string, Value>, ps: seq<Value>)
    ensures var r := ReduceAll(InitialStore(saved), AddToCartActions(ps));
      r.Ok? && |r.value.cart| == |ps|
  {
    AddingAllAppendsAll(InitialStore(saved), ps);
  }

  /** Filtering by "has another id" keeps exactly the entries whose id is
      not `id`, each as often as before, so no entry with that id remains
      and the length does not grow. */
  lemma FilterByIdKeepsOthers(xs: seq<Value>, id: Value)
    ensures var kept := Filter(xs, HasOtherId(id));
      && |kept| <= |xs|
      && (forall x :: x in kept <==> x in xs && IdOf(x) != id)
      && (forall x :: IdOf(x) == id ==> multiset(kept)[x] == 0)
      && (forall x :: IdOf(x) != id ==> multiset(kept)[x] == multiset(xs)[x])
  {
    FilterCounts(xs, HasOtherId(id));
    forall x ensures x in Filter(xs, HasOtherId(id)) <==> x in xs && IdOf(x) != id {
      FilterMembership(xs, HasOtherId(id), x);
    }
  }

  /** The `remove_from_cart` filter over lines and a payload that all have
      properties is the filter by the payload's id. */
  lemma CartAfterRemoveFiltersById(cart: seq<Value>, p: Value)
    requires !Nullish(p)
    requires forall i :: 0 <= i < |cart| ==> !Nullish(cart[i])
    ensures CartAfterRemove(cart, p) == Ok(Filter(cart, HasOtherId(IdOf(p))))
  {
    var keep, p' := KeepLine(p), HasOtherId(IdOf(p));
    forall i | 0 <= i < |cart| ensures keep(cart[i]) == Ok(p'(cart[i])) {
      KeepLineAt(p, cart[i]);
    }
    FilterResultIsFilter(cart, keep, p');
  }

  lemma KeepLineAt(p: Value, x: Value)
    requires !Nullish(p) && !Nullish(x)
    ensures KeepLine(p)(x) == Ok(HasOtherId(IdOf(p))(x))
  {
  }

  /** `remove_from_cart` replaces the cart by that filter and changes
      nothing else. */
  lemma RemoveFromCartFiltersById(s: State, p: Value)
    requires !Nullish(p)
    requires forall i :: 0 <= i < |s.cart| ==> !Nullish(s.cart[i])
    ensures Reduce(s, Action(Str("remove_from_cart"), p)) ==
      Ok(s.(cart := Filter(s.cart, HasOtherId(IdOf(p)))))
  {
    var a := Action(Str("remove_from_cart"), p);
    assert CaseOf(a.kind) == RemoveFromCart;
    CartAfterRemoveFiltersById(s.cart, p);
    assert Reduce(s, a) == Ok(s.(cart := CartAfterRemove(s.cart, p).value));
  }

  /** `remove_from_cart` throws exactly when the cart is not empty and the
      payload or some line is null or undefined; an empty cart never calls
      the callback. */
  lemma RemoveFromCartThrows(s: State, p: Value)
    ensures Reduce(s, Action(Str("remove_from_cart"), p)).TypeError? <==>
      s.cart != [] && (Nullish(p) || exists i :: 0 <= i < |s.cart| && Nullish(s.cart[i]))
  {
    var a := Action(Str("remove_from_cart"), p);
    if s.cart != [] && Nullish(p) {
      assert KeepLine(p)(s.cart[0]).TypeError?;
    }
    if exists i :: 0 <= i < |s.cart| && Nullish(s.cart[i]) {
      var i :| 0 <= i < |s.cart| && Nullish(s.cart[i]);
      assert KeepLine(p)(s.cart[i]).TypeError?;
    }
  }

  /** A number has no `id`, so filtering lines that all carry an id by a
      number's id keeps every line. */
  lemma FilterByIndexIdKeepsAll(cart: seq<Value>, index: int)
    requires forall i :: 0 <= i < |cart| ==> cart[i].Obj? && "id" in cart[i].props
    requires forall i :: 0 <= i < |cart| ==> cart[i].props["id"] != Undefined
    ensures Filter(cart, HasOtherId(IdOf(Num(index)))) == cart
  {
    var keep := HasOtherId(IdOf(Num(index)));
    assert IdOf(Num(index)) == Undefined;
    forall i | 0 <= i < |cart| ensures keep(cart[i]) {
      DefinedIdIsOther(cart[i]);
    }
    FilterAllSatisfy(cart, keep);
  }

  lemma DefinedIdIsOther(x: Value)
    requires x.Obj? && "id" in x.props && x.props["id"] != Undefined
    ensures HasOtherId(Undefined)(x)
  {
  }

  /** The cart page dispatches a line's index as the payload. The reducer
      then keeps exactly the lines that have an id: on a cart whose lines
      all carry ids, nothing is removed. */
  lemma IndexPayloadRemovesNothing(s: State, index: int)
    requires forall i :: 0 <= i < |s.cart| ==> s.cart[i].Obj? && "id" in s.cart[i].props
    requires forall i :: 0 <= i < |s.cart| ==> s.cart[i].props["id"] != Undefined
    ensures Reduce(s, Action(Str("remove_from_cart"), Num(index))) == Ok(s)
  {
    assert forall i :: 0 <= i < |s.cart| ==> !Nullish(s.cart[i]);
    RemoveFromCartFiltersById(s, Num(index));
    FilterByIndexIdKeepsAll(s.cart, index);
  }

  // ---- session ----

  /** `logout` clears the session and the cart and removes both persisted
      keys; catalogue, signup flag, message and every other key stay. */
  lemma LogoutClearsSession(s: State, p: Value, saved: map<string, Value>)
    ensures Reduce(s, Action(Str("logout"), p)) ==
      Ok(State(s.products, Null, Null, [], s.signup, s.message))
    ensures var after := Persist(saved, s, Action(Str("logout"), p));
      "token" !in after && "user" !in after &&
      forall k :: k in saved && k != "token" && k != "user" ==> k in after && after[k] == saved[k]
  {
  }

  /** `login_success` takes token and user from the payload into the state
      and into storage. */
  lemma LoginStoresSession(s: State, p: Value, saved: map<string, Value>)
    requires !Nullish(p)
    ensures Reduce(s, Action(Str("login_success"), p)) ==
      Ok(s.(token := Prop(p, "token"), user := Prop(p, "user")))
    ensures var after := Persist(saved, s, Action(Str("login_success"), p));
      "token" in after && after["token"] == Prop(p, "token") &&
      "user" in after && after["user"] == Prop(p, "user")
  {
  }

  /** Only `token` and `user` of a `login_success` payload matter: the
      `profile` the signup page sends along, or any other field, is ignored. */
  lemma LoginIgnoresOtherFields(s: State, p: Value, q: Value, saved: map<string, Value>)
    requires !Nullish(p) && !Nullish(q)
    requires Prop(p, "token") == Prop(q, "token") && Prop(p, "user") == Prop(q, "user")
    ensures Reduce(s, Action(Str("login_success"), p)) == Reduce(s, Action(Str("login_success"), q))
    ensures Persist(saved, s, Action(Str("login_success"), p)) ==
            Persist(saved, s, Action(Str("login_success"), q))
  {
  }

  /** A `login_success` without a payload throws before touching storage. */
  lemma LoginWithoutPayloadThrows(s: State, p: Value, saved: map<string, Value>)
    requires Nullish(p)
    ensures Reduce(s, Action(Str("login_success"), p)) == TypeError
    ensures Persist(saved, s, Action(Str("login_success"), p)) == saved
  {
  }

  /** The login example: token `"t1"` and a user with email `"a@b.com"`. */
  lemma LoginExample(s: State, saved: map<string, Value>)
    ensures var user := Obj(map["id" := Num(1), "email" := Str("a@b.com")]);
      var a := Action(Str("login_success"), Obj(map["token" := Str("t1"), "user" := user]));
      var r := Reduce(s, a);
      r.Ok? && r.value.token == Str("t1") && Prop(r.value.user, "email") == Str("a@b.com") &&
      Persist(saved, s, a)["token"] == Str("t1") && Persist(saved, s, a)["user"] == user
  {
  }

  /** `update_user` merges the payload's properties over the prior user's
      (over nothing when there is no user) and persists the merged user. */
  lemma UpdateUserMerges(s: State, p: Value, saved: map<string, Value>)
    ensures var a := Action(Str("update_user"), p);
      var r := Reduce(s, a);
      r.Ok? && r.value.user.Obj? &&
      var merged := r.value.user.props;
      && merged.Keys == SpreadObject(s.user).Keys + SpreadObject(p).Keys
      && (forall k :: k in SpreadObject(p) ==> merged[k] == SpreadObject(p)[k])
      && (forall k :: k in SpreadObject(s.user) && k !in SpreadObject(p) ==>
            merged[k] == SpreadObject(s.user)[k])
      && (Nullish(s.user) ==> merged == SpreadObject(p))
      && Persist(saved, s, a)["user"] == r.value.user
  {
    SpreadOfDefault(s.user);
    SpreadOfDefault(p);
  }

  // ---- catalogue ----

  /** `load_products` replaces the catalogue by the payload exactly. */
  lemma LoadProductsReplaces(s: State, p: Value)
    ensures Reduce(s, Action(Str("load_products"), p)) == Ok(s.(products := p))
  {
  }

  /** `admin_add_product` appends to an array catalogue; a catalogue that is
      not iterable makes the spread throw. */
  lemma AdminAddAppends(s: State, p: Value)
    ensures s.products.Arr? ==>
      Reduce(s, Action(Str("admin_add_product"), p)) == Ok(s.(products := Arr(s.products.items + [p])))
    ensures Reduce(s, Action(Str("admin_add_product"), p)).TypeError? <==> !(s.products.Arr? || s.products.Str?)
  {
  }

  /** The `admin_delete_product` filter over an array catalogue whose
      products all have properties is the filter by the payload's id. */
  lemma CatalogueAfterDeleteFiltersById(items: seq<Value>, p: Value)
    requires !Nullish(p)
    requires forall i :: 0 <= i < |items| ==> !Nullish(items[i])
    ensures CatalogueAfterDelete(Arr(items), p) == Ok(Arr(Filter(items, HasOtherId(IdOf(p)))))
  {
    KeepProductIsHasOtherId(items, Prop(p, "id"));
    assert IdOf(p) == Prop(p, "id");
  }

  /** The `admin_delete_product` callback cannot throw on products that
      have properties, and then answers whether the id differs. */
  lemma KeepProductIsHasOtherId(items: seq<Value>, id: Value)
    requires forall i :: 0 <= i < |items| ==> !Nullish(items[i])
    ensures FilterResult(items, KeepProduct(id)) == Ok(Filter(items, HasOtherId(id)))
  {
    var keep, p' := KeepProduct(id), HasOtherId(id);
    forall i | 0 <= i < |items| ensures keep(items[i]) == Ok(p'(items[i])) {
      KeepProductAt(id, items[i]);
    }
    FilterResultIsFilter(items, keep, p');
  }

  lemma KeepProductAt(id: Value, x: Value)
    requires !Nullish(x)
    ensures KeepProduct(id)(x) == Ok(HasOtherId(id)(x))
  {
  }

  /** `admin_delete_product` replaces the catalogue by that filter and
      changes nothing else. */
  lemma AdminDeleteFiltersById(s: State, p: Value)
    requires !Nullish(p) && s.products.Arr?
    requires forall i :: 0 <= i < |s.products.items| ==> !Nullish(s.products.items[i])
    ensures Reduce(s, Action(Str("admin_delete_product"), p)) ==
      Ok(s.(products := Arr(Filter(s.products.items, HasOtherId(IdOf(p))))))
  {
    var a := Action(Str("admin_delete_product"), p);
    assert CaseOf(a.kind) == AdminDeleteProduct;
    CatalogueAfterDeleteFiltersById(s.products.items, p);
    assert Reduce(s, a) == Ok(s.(products := CatalogueAfterDelete(s.products, p).value));
  }

  /** `admin_delete_product` reads `action.payload.id` first, so it throws on
      a missing payload even when the catalogue is empty. */
  lemma AdminDeleteWithoutPayloadThrows(s: State, p: Value)
    requires Nullish(p)
    ensures Reduce(s, Action(Str("admin_delete_product"), p)) == TypeError
  {
  }

  /** The `admin_update_product` map keeps the catalogue's length and
      positions, puts the payload exactly where the id matches and leaves
      every other entry as it was. */
  lemma CatalogueAfterUpdateReplacesById(items: seq<Value>, p: Value)
    requires !Nullish(p)
    requires forall i :: 0 <= i < |items| ==> !Nullish(items[i])
    ensures var r := CatalogueAfterUpdate(Arr(items), p);
      r.Ok? && r.value.Arr? && |r.value.items| == |items| &&
      forall i :: 0 <= i < |items| ==>
        r.value.items[i] == if IdOf(items[i]) == IdOf(p) then p else items[i]
  {
    assert forall i :: 0 <= i < |items| ==> ReplaceProduct(p)(items[i]).Ok?;
  }

  /** `admin_update_product` replaces the catalogue by that map and changes
      nothing else. */
  lemma AdminUpdateReplacesById(s: State, p: Value)
    requires !Nullish(p) && s.products.Arr?
    requires forall i :: 0 <= i < |s.products.items| ==> !Nullish(s.products.items[i])
    ensures var r := Reduce(s, Action(Str("admin_update_product"), p));
      r.Ok? && r.value == s.(products := CatalogueAfterUpdate(s.products, p).value)
  {
    var a := Action(Str("admin_update_product"), p);
    assert CaseOf(a.kind) == AdminUpdateProduct;
    CatalogueAfterUpdateReplacesById(s.products.items, p);
    assert Reduce(s, a) == Ok(s.(products := CatalogueAfterUpdate(s.products, p).value));
  }

  // ---- what a reload restores ----

  /** Reloading after `login_success` restores the user, and the token
      whenever it is non-empty. */
  lemma ReloadAfterLogin(s: State, p: Value, saved: map<string, Value>)
    requires !Nullish(p)
    ensures var restored := InitialStore(Persist(saved, s, Action(Str("login_success"), p)));
      restored.user == Prop(p, "user") &&
      restored.token == (if Truthy(Prop(p, "token")) then Prop(p, "token") else Null)
  {
  }

  /** Reloading after `logout` restores no session, whatever was stored. */
  lemma ReloadAfterLogout(s: State, p: Value, saved: map<string, Value>)
    ensures var restored := InitialStore(Persist(saved, s, Action(Str("logout"), p)));
      restored.token == Null && restored.user == Null
  {
  }

  /** Reloading after `update_user` restores the merged user. */
  lemma ReloadAfterUpdateUser(s: State, p: Value, saved: map<string, Value>)
    ensures var a := Action(Str("update_user"), p);
      InitialStore(Persist(saved, s, a)).user == Reduce(s, a).value.user
  {
  }
}
