/**
 * Sequences of dispatched calls, in the order the host executes them, and the
 * properties of the registry that hold across any such sequence.
 */
module Traces {
  import opened Registry

  /** One extrinsic addressed to the pallet, with the arguments it is dispatched with. */
  datatype Call =
    | AddProductCall(origin: Option<AccountId>, productid: Bytes, productname: Bytes, location: Bytes)
    | LocationUpdateCall(origin: Option<AccountId>, productid: Bytes, productname: Bytes, location: Bytes)

  /** Dispatches one call. */
  function Step(s: State, c: Call): Applied
  {
    match c
    case AddProductCall(origin, id, name, loc) => AddProduct(s, origin, id, name, loc)
    case LocationUpdateCall(origin, id, name, loc) => LocationUpdate(s, origin, id, name, loc)
  }

  /** The state after dispatching `calls` one after the other from `s`. */
  function Run(s: State, calls: seq<Call>): State
  {
    if calls == [] then s else Step(Run(s, calls[..|calls| - 1]), calls[|calls| - 1]).state
  }

  /** The ids announced by the `ProductAdded` events of a log. */
  function AddedIds(events: seq<Event>): set<Bytes>
  {
    if events == [] then {}
    else
      var last := events[|events| - 1];
      AddedIds(events[..|events| - 1]) + (if last.ProductAdded? then {last.id} else {})
  }

  /** Every registered id has been announced by a `ProductAdded` event. */
  ghost predicate Journaled(s: State)
  {
    s.products.Keys <= AddedIds(s.events)
  }

  /**
   * A call that can change or remove the entry stored under `k`: a
   * `LocationUpdate` whose id is `k`, or whose location is `k`.
   */
  predicate Names(c: Call, k: Bytes)
  {
    c.LocationUpdateCall? && (c.productid == k || c.location == k)
  }

  /** Dispatching `a` and then `b` is dispatching `a + b`. */
  lemma {:induction false} RunConcat(s: State, a: seq<Call>, b: seq<Call>)
    ensures Run(s, a + b) == Run(Run(s, a), b)
    decreases |b|
  {
    if b == [] {
      assert a + b == a;
    } else {
      var b' := b[..|b| - 1];
      assert (a + b)[..|a + b| - 1] == a + b';
      RunConcat(s, a, b');
    }
  }

  /** The event log is append-only and grows by at most one event per call. */
  lemma {:induction false} LogAppendOnly(s: State, calls: seq<Call>)
    ensures s.events <= Run(s, calls).events
    ensures |Run(s, calls).events| <= |s.events| + |calls|
  {
    if calls != [] {
      LogAppendOnly(s, calls[..|calls| - 1]);
    }
  }

  lemma AddedIdsAppend(events: seq<Event>, e: Event)
    ensures AddedIds(events + [e]) == AddedIds(events) + (if e.ProductAdded? then {e.id} else {})
  {
    assert (events + [e])[..|events|] == events;
  }

  /** One call keeps every registered id announced in the log. */
  lemma StepJournaled(s: State, c: Call)
    requires Journaled(s)
    ensures Journaled(Step(s, c).state)
  {
    var o := Step(s, c);
    if o.result.Ok? {
      AddedIdsAppend(s.events, o.state.events[|o.state.events| - 1]);
    }
  }

  /** Any sequence of calls keeps every registered id announced in the log. */
  lemma {:induction false} RunJournaled(s: State, calls: seq<Call>)
    requires Journaled(s)
    ensures Journaled(Run(s, calls))
  {
    if calls != [] {
      RunJournaled(s, calls[..|calls| - 1]);
      StepJournaled(Run(s, calls[..|calls| - 1]), calls[|calls| - 1]);
    }
  }

  /** From empty storage, every id in storage has a `ProductAdded` event in the log. */
  lemma GenesisJournaled(calls: seq<Call>, k: Bytes)
    requires k in Run(Genesis, calls).products
    ensures k in AddedIds(Run(Genesis, calls).events)
  {
    RunJournaled(Genesis, calls);
  }

  /**
   * Call `j` of `calls`, dispatched from `s`, succeeded and named `k` as its id
   * or its location. Rejected calls write nothing, so they never count.
   */
  ghost predicate RewritesAt(s: State, calls: seq<Call>, j: nat, k: Bytes)
    requires j < |calls|
  {
    Names(calls[j], k) && Step(Run(s, calls[..j]), calls[j]).result.Ok?
  }

  /**
   * An entry keeps its value (location, name and custodian) through any
   * sequence of calls in which no successful `LocationUpdate` names it as id
   * or location; rejected calls of either kind leave it alone.
   */
  lemma {:induction false} EntryStable(s: State, calls: seq<Call>, k: Bytes)
    requires k in s.products
    requires forall j :: 0 <= j < |calls| ==> !RewritesAt(s, calls, j, k)
    ensures k in Run(s, calls).products && Run(s, calls).products[k] == s.products[k]
  {
    if calls != [] {
      var p := calls[..|calls| - 1];
      forall j | 0 <= j < |p|
        ensures !RewritesAt(s, p, j, k)
      {
        assert p[..j] == calls[..j];
        assert !RewritesAt(s, calls, j, k);
      }
      EntryStable(s, p, k);
      assert !RewritesAt(s, calls, |p|, k);
    }
  }

  /**
   * Custody goes to the most recent successful writer: after a successful
   * call that wrote id `k`, and later calls none of which succeeds in naming
   * `k`, the entry under `k` is the one that call wrote, with its sender as
   * the stored account.
   */
  lemma LastWriterIsCustodian(s: State, calls: seq<Call>, i: nat, k: Bytes)
    requires i < |calls| && calls[i].productid == k
    requires Step(Run(s, calls[..i]), calls[i]).result.Ok?
    requires forall j :: i < j < |calls| ==> !RewritesAt(s, calls, j, k)
    ensures k in Run(s, calls).products
    ensures Run(s, calls).products[k] == Info(calls[i].location, calls[i].productname, calls[i].origin.value)
  {
    var before, rest := calls[..i + 1], calls[i + 1..];
    assert calls == before + rest;
    assert before[..i] == calls[..i];
    RunConcat(s, before, rest);
    forall j | 0 <= j < |rest|
      ensures !RewritesAt(Run(s, before), rest, j, k)
    {
      RunConcat(s, before, rest[..j]);
      assert before + rest[..j] == calls[..i + 1 + j];
      assert rest[j] == calls[i + 1 + j];
      assert !RewritesAt(s, calls, i + 1 + j, k);
    }
    EntryStable(Run(s, before), rest, k);
  }
}
