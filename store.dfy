/** The global state container of `src/front/store.js`: the initial record
    restored from `localStorage`, and the reducer that maps a state and a
    dispatched action to the next state, writing the session through to
    `localStorage` on login, user update and logout. */
module Store {
  import opened Js
  import Browser

  /** The single state record. `cart` is always an array (every case that
      sets it builds one); `products` is whatever `load_products` was given. */
  datatype State = State(
    products: Value,
    token: Value,
    user: Value,
    cart: seq<Value>,
    signup: bool,
    message: Value)

  /** A dispatched action `{ type, payload }`; an absent field reads as
      `undefined`. */
  datatype Action = Action(kind: Value, payload: Value)

  /** The default argument `action = {}` of the reducer. */
  const NoAction: Action := Action(Undefined, Undefined)

  /** The `switch` labels of the reducer. */
  datatype Case =
    | SignupSuccess | SignupFailed | LoginSuccess | UpdateUser | Logout
    | SetMessage | LoadProducts | AddToCart | RemoveFromCart
    | AdminAddProduct | AdminDeleteProduct | AdminUpdateProduct
    | Unrecognised

  /** `switch (action.type)`: a label matches only the identical string. */
  function CaseOf(kind: Value): Case {
    if kind == Str("signup_success") then SignupSuccess
    else if kind == Str("signup_failed") then SignupFailed
    else if kind == Str("login_success") then LoginSuccess
    else if kind == Str("update_user") then UpdateUser
    else if kind == Str("logout") then Logout
    else if kind == Str("set_message") then SetMessage
    else if kind == Str("load_products") then LoadProducts
    else if kind == Str("add_to_cart") then AddToCart
    else if kind == Str("remove_from_cart") then RemoveFromCart
    else if kind == Str("admin_add_product") then AdminAddProduct
    else if kind == Str("admin_delete_product") then AdminDeleteProduct
    else if kind == Str("admin_update_product") then AdminUpdateProduct
    else Unrecognised
  }

  /** `initialStore()`: empty catalogue and cart, no signup, no message, and
      the session restored from storage. `getItem` answers null for an
      absent key, and `token || null` turns an empty token into null. */
  function InitialStore(saved: map<string, Value>): (s: State)
    ensures s.products == Arr([]) && s.cart == [] && !s.signup && s.message == Str("")
    ensures s.token == (if "token" in saved && Truthy(saved["token"]) then saved["token"] else Null)
    ensures s.user == (if "user" in saved then saved["user"] else Null)
  {
    var token := if "token" in saved then saved["token"] else Null;
    var user := if "user" in saved then saved["user"] else Null;
    State(Arr([]), Or(token, Null), user, [], false, Str(""))
  }

  /** `{ ...(store.user || {}), ...(action.payload || {}) }` */
  function MergedUser(user: Value, payload: Value): Value {
    Obj(SpreadObject(Or(user, EmptyObject)) + SpreadObject(Or(payload, EmptyObject)))
  }

  /** The `remove_from_cart` callback `item => item.id !== action.payload.id`. */
  function KeepLine(payload: Value): Value -> Result<bool> {
    (item: Value) =>
      match Get(item, "id")
      case TypeError => TypeError
      case Ok(itemId) =>
        match Get(payload, "id")
        case TypeError => TypeError
        case Ok(payloadId) => Ok(itemId != payloadId)
  }

  /** The `admin_delete_product` callback `p => p.id !== idToDelete`. */
  function KeepProduct(idToDelete: Value): Value -> Result<bool> {
    (p: Value) =>
      match Get(p, "id")
      case TypeError => TypeError
      case Ok(id) => Ok(id != idToDelete)
  }

  /** The `admin_update_product` callback
      `p => p.id === updatedProduct.id ? updatedProduct : p`. */
  function ReplaceProduct(updated: Value): Value -> Result<Value> {
    (p: Value) =>
      match Get(p, "id")
      case TypeError => TypeError
      case Ok(id) =>
        match Get(updated, "id")
        case TypeError => TypeError
        case Ok(updatedId) => Ok(if id == updatedId then updated else p)
  }

  /** Does an entry carry an id other than `id`? */
  function HasOtherId(id: Value): Value -> bool {
    (x: Value) => IdOf(x) != id
  }

  /** `store.cart.filter(item => item.id !== action.payload.id)` */
  function CartAfterRemove(cart: seq<Value>, payload: Value): Result<seq<Value>> {
    FilterResult(cart, KeepLine(payload))
  }

  /** `[...store.products, action.payload]` */
  function CatalogueAfterAdd(products: Value, payload: Value): Result<Value> {
    match SpreadArray(products)
    case TypeError => TypeError
    case Ok(ps) => Ok(Arr(ps + [payload]))
  }

  /** `const idToDelete = action.payload.id;` then
      `store.products.filter(p => p.id !== idToDelete)`, which throws
      unless the catalogue is an array. */
  function CatalogueAfterDelete(products: Value, payload: Value): Result<Value> {
    match Get(payload, "id")
    case TypeError => TypeError
    case Ok(idToDelete) =>
      if !products.Arr? then TypeError
      else
        match FilterResult(products.items, KeepProduct(idToDelete))
        case TypeError => TypeError
        case Ok(ps) => Ok(Arr(ps))
  }

  /** `store.products.map(p => p.id === updatedProduct.id ? updatedProduct : p)` */
  function CatalogueAfterUpdate(products: Value, payload: Value): Result<Value> {
    if !products.Arr? then TypeError
    else
      match MapResult(products.items, ReplaceProduct(payload))
      case TypeError => TypeError
      case Ok(ps) => Ok(Arr(ps))
  }

  /** The next state `storeReducer(store, action)` returns, or the TypeError
      it throws. Each case starts from `...store`, so it changes only the
      fields it names, and only the cases that read a property of the
      payload, of a cart line or of the catalogue can throw. */
  function Reduce(s: State, a: Action): (r: Result<State>)
    ensures r.TypeError? ==>
      CaseOf(a.kind) in {LoginSuccess, RemoveFromCart, AdminAddProduct, AdminDeleteProduct, AdminUpdateProduct}
    ensures r.Ok? && CaseOf(a.kind) !in {LoginSuccess, UpdateUser, Logout} ==>
      r.value.token == s.token && r.value.user == s.user
    ensures r.Ok? && CaseOf(a.kind) !in {AddToCart, RemoveFromCart, Logout} ==> r.value.cart == s.cart
    ensures r.Ok? && CaseOf(a.kind) !in {LoadProducts, AdminAddProduct, AdminDeleteProduct, AdminUpdateProduct} ==>
      r.value.products == s.products
    ensures r.Ok? && CaseOf(a.kind) !in {SignupSuccess, SignupFailed} ==> r.value.signup == s.signup
    ensures r.Ok? && CaseOf(a.kind) != SetMessage ==> r.value.message == s.message
  {
    match CaseOf(a.kind)
    case SignupSuccess => Ok(s.(signup := true))
    case SignupFailed => Ok(s.(signup := false))
    case LoginSuccess =>
      // destructuring `token` and `user` from a null or undefined payload throws
      if Nullish(a.payload) then TypeError
      else Ok(s.(token := Prop(a.payload, "token"), user := Prop(a.payload, "user")))
    case UpdateUser => Ok(s.(user := MergedUser(s.user, a.payload)))
    case Logout => Ok(s.(token := Null, user := Null, cart := []))
    case SetMessage => Ok(s.(message := a.payload))
    case LoadProducts => Ok(s.(products := a.payload))
    case AddToCart => Ok(s.(cart := s.cart + [a.payload]))
    case RemoveFromCart =>
      (match CartAfterRemove(s.cart, a.payload)
       case TypeError => TypeError
       case Ok(cart) => Ok(s.(cart := cart)))
    case AdminAddProduct =>
      (match CatalogueAfterAdd(s.products, a.payload)
       case TypeError => TypeError
       case Ok(ps) => Ok(s.(products := ps)))
    case AdminDeleteProduct =>
      (match CatalogueAfterDelete(s.products, a.payload)
       case TypeError => TypeError
       case Ok(ps) => Ok(s.(products := ps)))
    case AdminUpdateProduct =>
      (match CatalogueAfterUpdate(s.products, a.payload)
       case TypeError => TypeError
       case Ok(ps) => Ok(s.(products := ps)))
    case Unrecognised => Ok(s)
  }

  /** The storage contents after `storeReducer(store, action)`, starting
      from `saved`. Only the `token` and `user` keys are ever written, and
      only by the three session cases; a case that throws writes nothing. */
  function Persist(saved: map<string, Value>, s: State, a: Action): (r: map<string, Value>)
    ensures forall k :: k != "token" && k != "user" ==> (k in r <==> k in saved)
    ensures forall k :: k != "token" && k != "user" && k in r ==> r[k] == saved[k]
    ensures CaseOf(a.kind) !in {LoginSuccess, UpdateUser, Logout} ==> r == saved
  {
    match CaseOf(a.kind)
    case LoginSuccess =>
      if Nullish(a.payload) then saved
      else saved["token" := Prop(a.payload, "token")]["user" := Prop(a.payload, "user")]
    case UpdateUser => saved["user" := MergedUser(s.user, a.payload)]
    case Logout => saved - {"token", "user"}
    case _ => saved
  }

  /** `storeReducer` itself: computes the next state and performs the
      `localStorage` writes of its case, in the source's order. */
  method Reducer(s: State, a: Action, storage: Browser.LocalStorage) returns (r: Result<State>)
    modifies storage
    ensures r == Reduce(s, a)
    ensures storage.items == Persist(old(storage.items), s, a)
  {
    match CaseOf(a.kind)
    case LoginSuccess =>
      if Nullish(a.payload) {
        r := TypeError;
      } else {
        var token, user := Prop(a.payload, "token"), Prop(a.payload, "user");
        storage.SetItem("token", token);
        storage.SetItem("user", user);
        r := Ok(s.(token := token, user := user));
      }
    case UpdateUser =>
      var updatedUser := MergedUser(s.user, a.payload);
      storage.SetItem("user", updatedUser);
      r := Ok(s.(user := updatedUser));
    case Logout =>
      storage.RemoveItem("token");
      storage.RemoveItem("user");
      assert storage.items == old(storage.items) - {"token", "user"};
      r := Ok(s.(token := Null, user := Null, cart := []));
    case _ =>
      r := Reduce(s, a);
  }

  /** Dispatching a sequence of actions in order, stopping at a throw. */
  function ReduceAll(s: State, actions: seq<Action>): Result<State>
    decreases |actions|
  {
    if actions == [] then Ok(s)
    else
      match Reduce(s, actions[0])
      case TypeError => TypeError
      case Ok(next) => ReduceAll(next, actions[1..])
  }
}
