# Supply-chain product registry pallet, in Dafny

This project models the template pallet of the supply-chain runtime. The pallet keeps one storage map,
`ProductInformation`, from a product id (`Vec<u8>`) to the triple `(location, name, AccountId)`. Two
dispatchables change it:

- `add_product` registers a new id.
- `LocationUpdate` rewrites an existing id.

Each successful call deposits one event. Each rejected call returns an error before it touches storage.

Files:

- `registry.dfy` (module `Registry`): the storage value, the events and errors, and both dispatchables
  as functions from a state to the dispatch result and the next state. Their contracts state every
  branch.
- `pallet.dfy` (module `Pallet`): the class `ProductRegistry`. It holds the storage map and the event log
  as fields, and its two methods update them in place in the order the Rust code does. Each method is
  proved equal to the corresponding `Registry` function.
- `traces.dfy` (module `Traces`): any sequence of calls, and the properties that hold across one. The
  event log is append-only. Every stored id was announced by a `ProductAdded` event. An entry changes only
  through a successful `LocationUpdate` that names it. Custody goes to the most recent successful writer.
- `scenarios.dfy` (module `Scenarios`): two concrete runs that show how the update handler behaves as
  written.

Three details of the update handler in `pallets/template/src/lib.rs` shape the model:

- The update handler checks that the supplied *name* is itself a key of the map
  (`pallets/template/src/lib.rs:95`). It does not compare it with the stored name. The error is
  `NoMatchFound`. An update that passes the stored name therefore
  fails unless some entry happens to be keyed by that name (`Scenarios.UpdateWithStoredNameRejected`).
- Before inserting, the update handler removes the entry keyed by the new *location*
  (`pallets/template/src/lib.rs:97`). If that location is another live id, the entry is deleted. That id
  can then be registered again, so the log can announce the same id twice
  (`Scenarios.UpdateEvictsEntryNamedByLocation`). A registered id therefore does not stay registered
  for good.
- The update stores the *supplied* name, not the previously stored one (`pallets/template/src/lib.rs:99`).

The signed origin is an `Option<AccountId>`: `None` stands for an unsigned extrinsic, which
`ensure_signed` rejects with `BadOrigin`. Account ids are natural numbers. The pallet only stores them,
compares them and puts them in events.

## Model

| member | source | states |
|---|---|---|
| `Registry.AddProduct` | pallets/template/src/lib.rs:57-79 | An unsigned origin gives `BadOrigin`. A known id gives `ProductAlreadyExists`. Success holds exactly when the origin is signed and the id is new. A rejection changes neither storage nor log. On success the keys gain exactly the id, the id maps to `(location, name, sender)`, every old entry keeps its value, and exactly one `ProductAdded(sender, id)` is appended. |
| `Registry.LocationUpdate` | pallets/template/src/lib.rs:81-105 | An unsigned origin gives `BadOrigin`. An unknown id gives `NoSuchProduct`, whatever the name. `NoMatchFound` holds exactly when the id is a key and the name is not a key. Success holds exactly when the origin is signed and both id and name are keys. A rejection changes nothing. On success the keys are the old keys minus `location`, plus the id. The id maps to `(location, name, sender)`. Every entry other than the id and `location` keeps its value. Exactly one `LocationUpdated(location)` is appended. |
| `Pallet.ProductRegistry.constructor` | pallets/template/src/lib.rs:45-46 | Storage starts empty and the log starts empty. |
| `Pallet.ProductRegistry.AddProduct` | pallets/template/src/lib.rs:57-79 | The in-place update returns the result of `Registry.AddProduct` and leaves the state it computes. On success the map is the old map with the id bound to `(location, name, sender)`, and the log gains `ProductAdded(sender, id)`. On error both are unchanged. |
| `Pallet.ProductRegistry.LocationUpdate` | pallets/template/src/lib.rs:81-105 | The in-place update returns the result of `Registry.LocationUpdate` and leaves the state it computes. On success the map is the old map with key `location` removed and then the id bound to `(location, name, sender)`, and the log gains `LocationUpdated(location)`. On error both are unchanged. |
| `Traces.LogAppendOnly` | pallets/template/src/lib.rs:73-102 | Over any sequence of calls, the old log is a prefix of the new log, and the log grows by at most one event per call. |
| `Traces.StepJournaled` | pallets/template/src/lib.rs:70-99 | If every stored id is announced by a `ProductAdded` event in the log, one more call keeps that true. |
| `Traces.RunJournaled` | pallets/template/src/lib.rs:70-99 | The same holds across any sequence of calls. |
| `Traces.GenesisJournaled` | pallets/template/src/lib.rs:70-99 | Starting from empty storage, every id in storage has a `ProductAdded` event in the log. |
| `Traces.EntryStable` | pallets/template/src/lib.rs:91-99 | Across calls none of which is a *successful* `LocationUpdate` naming `k` as its id or its location, the entry under `k` stays present with the same location, name and account. Rejected calls of either kind, including updates of `k` itself, leave it alone. |
| `Traces.LastWriterIsCustodian` | pallets/template/src/lib.rs:91-99 | After a successful call that wrote id `k`, and later calls none of which is a successful `LocationUpdate` naming `k`, the entry under `k` holds that call's location and name, and its sender as the account. The custodian is the last successful writer; rejected calls in between do not matter. |
| `Scenarios.UpdateWithStoredNameRejected` | pallets/template/src/lib.rs:95 | Registering "1234" with name "DELL" and then updating it with name "DELL" fails with `NoMatchFound` and changes nothing, because "DELL" is not a key. |
| `Scenarios.UpdateEvictsEntryNamedByLocation` | pallets/template/src/lib.rs:97 | With "1234", "DELL" and "Blr" registered, moving "1234" to location "Blr" leaves only "1234" and "DELL" stored. "Blr" can then be registered again successfully, and the log then holds `ProductAdded(Alice, "Blr")` twice, as its third and fifth events. |

## Left out

- FRAME plumbing (the `Config` trait, `generate_store`, `generate_deposit`, event metadata, the empty
  `Hooks` impl): this is generated code. The model keeps only the map and the appended events.
- Weights `1_000` and `10_000`: they are fee accounting and do not change behaviour.
- The `Blake2_128Concat` hasher and SCALE encoding of keys and values: the map is an abstract finite
  map keyed by byte sequences.
- `ValueQuery` default values: neither dispatchable reads a stored value; they only test, insert and
  remove keys.
- Signature checking in `ensure_signed`: the origin is given as an `Option<AccountId>`.
- Block-level rollback: every guard fires before the first write, so a rejected call never has
  anything to roll back.
- Replaying the event log to rebuild storage: `LocationUpdated` carries only the location, not the id
  or the name, so the log does not determine storage. The model proves the weaker
  `Traces.RunJournaled` instead.
- `pallets/template/src/tests.rs`: it depends on a `mock` module that is not part of this model, and it
  calls the pallet with argument types that do not match. Its update step would fail with
  `NoMatchFound` under the code as written (`Scenarios.UpdateWithStoredNameRejected`).
