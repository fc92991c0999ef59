/**
 * The pallet as the runtime runs it: storage that the two dispatchables update
 * in place, and the host's event log that `deposit_event` appends to.
 */
module Pallet {
  import opened Registry

  class ProductRegistry {
    /** The `ProductInformation` storage map. */
    var productInformation: map<Bytes, Info>
    /** The events deposited so far. */
    var events: seq<Event>

    /** The pallet's storage and log as a value. */
    function Snapshot(): State
      reads this
    {
      State(productInformation, events)
    }

    /** Fresh chain state: nothing stored, nothing deposited. */
    constructor ()
      ensures Snapshot() == Genesis
    {
      productInformation := map[];
      events := [];
    }

    method AddProduct(origin: Option<AccountId>, productid: Bytes, productname: Bytes, location: Bytes) returns (r: DispatchResult)
      modifies this
      ensures Applied(r, Snapshot()) == Registry.AddProduct(old(Snapshot()), origin, productid, productname, location)
      ensures r.Err? ==> productInformation == old(productInformation) && events == old(events)
      ensures r.Ok? ==> productInformation == old(productInformation)[productid := Info(location, productname, origin.value)]
      ensures r.Ok? ==> events == old(events) + [ProductAdded(origin.value, productid)]
    {
      if origin.None? {
        return Err(BadOrigin);
      }
      var sender := origin.value;
      if productid in productInformation {
        return Err(ProductAlreadyExists);
      }
      productInformation := productInformation[productid := Info(location, productname, sender)];
      events := events + [ProductAdded(sender, productid)];
      return Ok;
    }

    method LocationUpdate(origin: Option<AccountId>, productid: Bytes, productname: Bytes, location: Bytes) returns (r: DispatchResult)
      modifies this
      ensures Applied(r, Snapshot()) == Registry.LocationUpdate(old(Snapshot()), origin, productid, productname, location)
      ensures r.Err? ==> productInformation == old(productInformation) && events == old(events)
      ensures r.Ok? ==> productInformation == (old(productInformation) - {location})[productid := Info(location, productname, origin.value)]
      ensures r.Ok? ==> events == old(events) + [LocationUpdated(location)]
    {
      if origin.None? {
        return Err(BadOrigin);
      }
      var sender := origin.value;
      if productid !in productInformation {
        return Err(NoSuchProduct);
      }
      if productname !in productInformation {
        return Err(NoMatchFound);
      }
      productInformation := productInformation - {location};
      productInformation := productInformation[productid := Info(location, productname, sender)];
      events := events + [LocationUpdated(location)];
      return Ok;
    }
  }
}
