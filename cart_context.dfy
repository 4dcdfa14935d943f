/** The cart state of the storefront's client
    (frontend/src/context/CartContext.js): the reducer over tagged actions,
    the initial state and `clearError`. The cart itself arrives from the
    server; `now` stands for `new Date()`. */
module CartContext {
  import opened Common

  datatype CartItem = CartItem(id: string, product: string, size: string, quantity: int, price: int)

  /** The cart summary the client holds. */
  datatype Cart = Cart(items: seq<CartItem>, itemCount: int, subtotal: int, updatedAt: int)

  datatype CartState = CartState(cart: Cart, loading: bool, error: Option<string>)

  /** The dispatched actions; `Unrecognised` is any other `type`. */
  datatype CartAction =
    | SetLoading(loading: bool)
    | SetError(error: Option<string>)
    | SetCart(cart: Cart)
    | ClearCart(now: int)
    | Unrecognised(kind: string)

  function EmptyCart(now: int): Cart
  {
    Cart([], 0, 0, now)
  }

  /** The sum of the quantities of the lines. */
  function Quantities(items: seq<CartItem>): int
  {
    if items == [] then 0 else items[0].quantity + Quantities(items[1..])
  }

  /** The sum of price times quantity over the lines. */
  function Subtotal(items: seq<CartItem>): int
  {
    if items == [] then 0 else items[0].price * items[0].quantity + Subtotal(items[1..])
  }

  /** A cart whose counters agree with its lines. */
  predicate Consistent(c: Cart)
  {
    c.itemCount == Quantities(c.items) && c.subtotal == Subtotal(c.items)
  }

  /** `initialState`: an empty cart, not loading, without an error. Its
      counters agree with its (absent) lines. */
  function InitialState(now: int): (s: CartState)
    ensures s.cart.items == [] && s.cart.itemCount == 0 && s.cart.subtotal == 0
    ensures !s.loading && s.error.None?
    ensures Consistent(s.cart)
  {
    CartState(EmptyCart(now), false, None)
  }

  /** `cartReducer`. SET_LOADING touches only `loading`; SET_ERROR sets the
      error and ends loading, keeping the cart; SET_CART replaces the cart,
      ends loading and clears the error; CLEAR_CART installs an empty cart,
      ends loading and clears the error; any other action changes nothing. */
  function Reduce(state: CartState, action: CartAction): (r: CartState)
    ensures action.SetLoading? ==> r.loading == action.loading && r.cart == state.cart && r.error == state.error
    ensures action.SetError? ==> r.error == action.error && !r.loading && r.cart == state.cart
    ensures action.SetCart? ==> r.cart == action.cart && !r.loading && r.error.None?
    ensures action.ClearCart? ==>
              r.cart.items == [] && r.cart.itemCount == 0 && r.cart.subtotal == 0
              && !r.loading && r.error.None?
    ensures action.Unrecognised? ==> r == state
  {
    match action
    case SetLoading(loading) => state.(loading := loading)
    case SetError(error) => state.(error := error, loading := false)
    case SetCart(cart) => state.(cart := cart, loading := false, error := None)
    case ClearCart(now) => state.(cart := EmptyCart(now), loading := false, error := None)
    case Unrecognised(_) => state
  }

  /** `clearError`: dispatches SET_ERROR with null. */
  function ClearError(state: CartState): (r: CartState)
    ensures r.error.None? && !r.loading && r.cart == state.cart
  {
    Reduce(state, SetError(None))
  }

  /** The state after dispatching `actions` in order. */
  function Run(state: CartState, actions: seq<CartAction>): CartState
    decreases |actions|
  {
    if actions == [] then state else Run(Reduce(state, actions[0]), actions[1..])
  }

  /** An action whose cart payload, if any, is consistent. */
  predicate ConsistentPayload(action: CartAction)
  {
    action.SetCart? ==> Consistent(action.cart)
  }

  /** The reducer never makes a consistent cart inconsistent: it only ever
      installs the carts it is given or an empty one. */
  lemma {:induction false} RunKeepsConsistent(state: CartState, actions: seq<CartAction>)
    requires Consistent(state.cart)
    requires forall i :: 0 <= i < |actions| ==> ConsistentPayload(actions[i])
    ensures Consistent(Run(state, actions).cart)
    decreases |actions|
  {
    if actions != [] {
      assert ConsistentPayload(actions[0]);
      RunKeepsConsistent(Reduce(state, actions[0]), actions[1..]);
    }
  }

  /** A successful request (SET_LOADING true, then SET_CART) leaves exactly
      the server's cart, not loading and without an error, whatever the
      state before. */
  lemma SuccessfulRequest(state: CartState, cart: Cart)
    ensures Run(state, [SetLoading(true), SetCart(cart)]) == CartState(cart, false, None)
  {
    var s1 := Reduce(state, SetLoading(true));
    assert [SetLoading(true), SetCart(cart)][1..] == [SetCart(cart)];
    assert Run(s1, [SetCart(cart)]) == Run(Reduce(s1, SetCart(cart)), []);
  }

  /** `loadCart` answered with 401 (not logged in): only SET_LOADING true is
      dispatched, so the cart and the error are kept and the state stays
      loading. */
  lemma UnauthorisedLoad(state: CartState)
    ensures Run(state, [SetLoading(true)]) == state.(loading := true)
  {
    assert Run(state, [SetLoading(true)]) == Run(Reduce(state, SetLoading(true)), []);
  }

  /** A failed request (SET_LOADING true, then SET_ERROR) keeps the cart,
      ends loading and records the message. */
  lemma FailedRequest(state: CartState, message: string)
    ensures Run(state, [SetLoading(true), SetError(Some(message))]) == CartState(state.cart, false, Some(message))
  {
    var s1 := Reduce(state, SetLoading(true));
    assert [SetLoading(true), SetError(Some(message))][1..] == [SetError(Some(message))];
    assert Run(s1, [SetError(Some(message))]) == Run(Reduce(s1, SetError(Some(message))), []);
  }
}
