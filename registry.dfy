/**
 * The product registry of the template pallet, as values: its storage map
 * `ProductInformation`, its events and errors, and the two dispatchables
 * `add_product` and `LocationUpdate` as functions from a state to the
 * dispatch result and the next state.
 */
module Registry {

  /** A byte of a `Vec<u8>`. */
  newtype byte = b: int | 0 <= b < 256

  type Bytes = seq<byte>

  /** The runtime's `AccountId`; the pallet only stores it, compares it and puts it in events. */
  type AccountId = nat

  datatype Option<T> = None | Some(value: T)

  /** The value stored under a product id, in the storage order `(location, name, account)`. */
  datatype Info = Info(location: Bytes, name: Bytes, owner: AccountId)

  /** The pallet's events. */
  datatype Event =
    | ProductAdded(who: AccountId, id: Bytes)
    | LocationUpdated(location: Bytes)

  /** `BadOrigin` comes from `ensure_signed`; the other three are the pallet's own `Error` enum. */
  datatype Error = BadOrigin | ProductAlreadyExists | NoSuchProduct | NoMatchFound

  /** `DispatchResultWithPostInfo`, without the post-dispatch information. */
  datatype DispatchResult = Ok | Err(error: Error)

  /**
   * What the pallet can change: the `ProductInformation` map and the host's
   * event log, to which `deposit_event` appends.
   */
  datatype State = State(products: map<Bytes, Info>, events: seq<Event>)

  /** The result of dispatching one call and the state it leaves behind. */
  datatype Applied = Applied(result: DispatchResult, state: State)

  /** Empty storage and an empty log. */
  const Genesis: State := State(map[], [])

  /**
   * `add_product`: an unsigned origin is rejected, a known id is rejected, and
   * otherwise the id is bound to `(location, productname, sender)` and one
   * `ProductAdded(sender, productid)` event is emitted.
   */
  function AddProduct(s: State, origin: Option<AccountId>, productid: Bytes, productname: Bytes, location: Bytes): (o: Applied)
    ensures origin.None? ==> o == Applied(Err(BadOrigin), s)
    ensures origin.Some? && productid in s.products ==> o == Applied(Err(ProductAlreadyExists), s)
    ensures o.result.Ok? <==> origin.Some? && productid !in s.products
    ensures o.result.Err? ==> o.state == s
    ensures o.result.Ok? ==>
      && o.state.products.Keys == s.products.Keys + {productid}
      && o.state.products[productid] == Info(location, productname, origin.value)
      && (forall k :: k in s.products ==> o.state.products[k] == s.products[k])
      && o.state.events == s.events + [ProductAdded(origin.value, productid)]
  {
    match origin
    case None => Applied(Err(BadOrigin), s)
    case Some(sender) =>
      if productid in s.products then
        Applied(Err(ProductAlreadyExists), s)
      else
        var products := s.products[productid := Info(location, productname, sender)];
        Applied(Ok, State(products, s.events + [ProductAdded(sender, productid)]))
  }

  /**
   * `LocationUpdate`, as written: the id must be a key, the supplied name must
   * itself be a key, then the entry keyed by `location` is removed and the id is
   * bound to `(location, productname, sender)`; one `LocationUpdated(location)`
   * event is emitted.
   */
  function LocationUpdate(s: State, origin: Option<AccountId>, productid: Bytes, productname: Bytes, location: Bytes): (o: Applied)
    ensures origin.None? ==> o == Applied(Err(BadOrigin), s)
    ensures origin.Some? && productid !in s.products ==> o == Applied(Err(NoSuchProduct), s)
    ensures o.result == Err(NoMatchFound) <==> origin.Some? && productid in s.products && productname !in s.products
    ensures o.result.Ok? <==> origin.Some? && productid in s.products && productname in s.products
    ensures o.result.Err? ==> o.state == s
    ensures o.result.Ok? ==>
      && o.state.products.Keys == (s.products.Keys - {location}) + {productid}
      && o.state.products[productid] == Info(location, productname, origin.value)
      && (forall k :: k in s.products && k != productid && k != location ==> o.state.products[k] == s.products[k])
      && o.state.events == s.events + [LocationUpdated(location)]
  {
    match origin
    case None => Applied(Err(BadOrigin), s)
    case Some(sender) =>
      if productid !in s.products then
        Applied(Err(NoSuchProduct), s)
      else if productname !in s.products then
        Applied(Err(NoMatchFound), s)
      else
        var products := (s.products - {location})[productid := Info(location, productname, sender)];
        Applied(Ok, State(products, s.events + [LocationUpdated(location)]))
  }
}
