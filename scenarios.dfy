/**
 * Concrete runs of the registry that show how the update handler, as written,
 * treats the name check and the removal of the key equal to the new location.
 */
module Scenarios {
  import opened Registry
  import opened Traces

  const Alice: AccountId := 1

  const Id1234: Bytes := [0x31, 0x32, 0x33, 0x34]           // "1234"
  const Dell: Bytes := [0x44, 0x45, 0x4C, 0x4C]             // "DELL"
  const Hyd: Bytes := [0x48, 0x79, 0x64]                    // "Hyd"
  const Blr: Bytes := [0x42, 0x6C, 0x72]                    // "Blr"

  /**
   * Registering "1234" as ("Hyd", "DELL") and then updating it with the same
   * name fails with `NoMatchFound`, because "DELL" is not itself a key.
   */
  lemma UpdateWithStoredNameRejected()
    ensures var s1 := AddProduct(Genesis, Some(Alice), Id1234, Dell, Hyd);
            && s1.result == Ok
            && LocationUpdate(s1.state, Some(Alice), Id1234, Dell, Blr) == Applied(Err(NoMatchFound), s1.state)
  {
    var s1 := AddProduct(Genesis, Some(Alice), Id1234, Dell, Hyd);
    assert Dell != Id1234 by { assert Dell[0] != Id1234[0]; }
  }

  /**
   * With "1234", "DELL" and "Blr" all registered, moving "1234" to location
   * "Blr" succeeds, deletes the unrelated entry "Blr", and afterwards "Blr" can
   * be registered a second time, so the log announces it twice.
   */
  lemma UpdateEvictsEntryNamedByLocation()
    ensures var calls := [
              AddProductCall(Some(Alice), Id1234, Dell, Hyd),
              AddProductCall(Some(Alice), Dell, Dell, Hyd),
              AddProductCall(Some(Alice), Blr, Dell, Hyd),
              LocationUpdateCall(Some(Alice), Id1234, Dell, Blr)];
            && Run(Genesis, calls).products.Keys == {Id1234, Dell}
            && var again := AddProduct(Run(Genesis, calls), Some(Alice), Blr, Dell, Hyd);
            && again.result == Ok
            && |again.state.events| == 5
            && again.state.events[2] == again.state.events[4] == ProductAdded(Alice, Blr)
  {
    assert Dell != Id1234 by { assert Dell[0] != Id1234[0]; }
    assert Blr != Id1234 by { assert Blr[0] != Id1234[0]; }
    assert Blr != Dell by { assert Blr[0] != Dell[0]; }
    var calls := [
      AddProductCall(Some(Alice), Id1234, Dell, Hyd),
      AddProductCall(Some(Alice), Dell, Dell, Hyd),
      AddProductCall(Some(Alice), Blr, Dell, Hyd),
      LocationUpdateCall(Some(Alice), Id1234, Dell, Blr)];
    var s1 := AddProduct(Genesis, Some(Alice), Id1234, Dell, Hyd).state;
    var s2 := AddProduct(s1, Some(Alice), Dell, Dell, Hyd).state;
    var s3 := AddProduct(s2, Some(Alice), Blr, Dell, Hyd).state;
    assert s3.products.Keys == {Id1234, Dell, Blr};
    assert calls[..1][..0] == [];
    assert Run(Genesis, calls[..1]) == s1;
    assert calls[..2][..1] == calls[..1];
    assert Run(Genesis, calls[..2]) == s2;
    assert calls[..3][..2] == calls[..2];
    assert Run(Genesis, calls[..3]) == s3;
  }
}
