/**
 * The unit tests of the contract, stated as methods whose postconditions are
 * the tests' expectations. Each test starts from the same world state,
 * which holds the assets 1001 and 1002; the last method runs the whole life of
 * one asset from an empty world state.
 */
module MyCarAssetContractTests {
  import opened Json
  import opened Ledger
  import opened MyCarAssetContract

  /** The world state every test block starts from. */
  const Fixture: map<string, Buffer> := map[
    "1001" := "{\"value\":\"my car asset 1001 value\"}",
    "1002" := "{\"value\":\"my car asset 1002 value\"}"
  ]

  // The bytes the tests expect for the three values they store. Each value
  // needs no escaping, so its record is the value between the fixed prefix and
  // suffix; the comparison with the expected text is kept in a lemma of its own.

  lemma Text1001()
    ensures Prefix + "my car asset 1001 value" + Suffix == "{\"value\":\"my car asset 1001 value\"}"
  {
  }

  lemma Stored1001()
    ensures Stringify(MyCarAsset("my car asset 1001 value")) == "{\"value\":\"my car asset 1001 value\"}"
  {
    EscapePlain("my car asset 1001 value");
    Text1001();
  }

  lemma Text1003()
    ensures Prefix + "my car asset 1003 value" + Suffix == "{\"value\":\"my car asset 1003 value\"}"
  {
  }

  lemma Stored1003()
    ensures Stringify(MyCarAsset("my car asset 1003 value")) == "{\"value\":\"my car asset 1003 value\"}"
  {
    EscapePlain("my car asset 1003 value");
    Text1003();
  }

  lemma Text1001New()
    ensures Prefix + "my car asset 1001 new value" + Suffix == "{\"value\":\"my car asset 1001 new value\"}"
  {
  }

  lemma Stored1001New()
    ensures Stringify(MyCarAsset("my car asset 1001 new value")) == "{\"value\":\"my car asset 1001 new value\"}"
  {
    EscapePlain("my car asset 1001 new value");
    Text1001New();
  }

  method NewTestContext() returns (stub: WorldState)
    ensures fresh(stub) && stub.state == Fixture
  {
    stub := new WorldState(Fixture);
  }

  /** `#myCarAssetExists`: 1001 exists. */
  method ExistingAssetExists() returns (found: bool)
    ensures found
  {
    var stub := NewTestContext();
    found := MyCarAssetExists(stub, "1001");
  }

  /** `#myCarAssetExists`: 1003 does not exist. */
  method MissingAssetDoesNotExist() returns (found: bool)
    ensures !found
  {
    var stub := NewTestContext();
    found := MyCarAssetExists(stub, "1003");
  }

  /** `#createMyCarAsset`: creating 1003 writes exactly its serialised record and nothing else. */
  method CreateWritesRecord() returns (after: map<string, Buffer>)
    ensures after == Fixture["1003" := "{\"value\":\"my car asset 1003 value\"}"]
  {
    var stub := NewTestContext();
    assert "1003" !in stub.state;
    Stored1003();
    var r := CreateMyCarAsset(stub, "1003", "my car asset 1003 value");
    assert stub.state == Fixture["1003" := Stringify(MyCarAsset("my car asset 1003 value"))];
    after := stub.state;
  }

  /** `#createMyCarAsset`: creating 1001 fails with the message naming it. */
  method CreateExistingFails() returns (failure: string)
    ensures failure == "The my car asset 1001 already exists"
  {
    var stub := NewTestContext();
    var r := CreateMyCarAsset(stub, "1001", "myvalue");
    failure := Message(r.error);
  }

  /** `#readMyCarAsset`: 1001 reads back as its record. */
  method ReadReturnsRecord() returns (found: Result<MyCarAsset>)
    ensures found == Ok(MyCarAsset("my car asset 1001 value"))
  {
    var stub := NewTestContext();
    Stored1001();
    ReadAfterWrite(stub, "1001", MyCarAsset("my car asset 1001 value"));
    found := ReadMyCarAsset(stub, "1001");
  }

  /** `#readMyCarAsset`: reading 1003 fails with the message naming it. */
  method ReadMissingFails() returns (failure: string)
    ensures failure == "The my car asset 1003 does not exist"
  {
    var stub := NewTestContext();
    var r := ReadMyCarAsset(stub, "1003");
    failure := Message(r.error);
  }

  /** `#updateMyCarAsset`: updating 1001 writes exactly its new record and nothing else. */
  method UpdateWritesRecord() returns (after: map<string, Buffer>)
    ensures after == Fixture["1001" := "{\"value\":\"my car asset 1001 new value\"}"]
  {
    var stub := NewTestContext();
    assert stub.state["1001"] == "{\"value\":\"my car asset 1001 value\"}";
    Stored1001New();
    var r := UpdateMyCarAsset(stub, "1001", "my car asset 1001 new value");
    after := stub.state;
  }

  /** `#updateMyCarAsset`: updating 1003 fails with the message naming it. */
  method UpdateMissingFails() returns (failure: string)
    ensures failure == "The my car asset 1003 does not exist"
  {
    var stub := NewTestContext();
    var r := UpdateMyCarAsset(stub, "1003", "my car asset 1003 new value");
    failure := Message(r.error);
  }

  /** `#deleteMyCarAsset`: deleting 1001 removes exactly that key. */
  method DeleteRemovesKey() returns (after: map<string, Buffer>)
    ensures after == map["1002" := "{\"value\":\"my car asset 1002 value\"}"]
  {
    var stub := NewTestContext();
    var r := DeleteMyCarAsset(stub, "1001");
    after := stub.state;
  }

  /** `#deleteMyCarAsset`: deleting 1003 fails with the message naming it. */
  method DeleteMissingFails() returns (failure: string)
    ensures failure == "The my car asset 1003 does not exist"
  {
    var stub := NewTestContext();
    var r := DeleteMyCarAsset(stub, "1003");
    failure := Message(r.error);
  }

  /**
   * One asset from creation to deletion: a second create fails and keeps the
   * first record, reads return what was last written, and after the delete
   * the asset no longer exists.
   */
  method LifecycleScenario() returns (stored: Buffer, second: Result<()>, first: Result<MyCarAsset>,
                                      updated: Result<MyCarAsset>, existsAfterDelete: bool)
    ensures stored == "{\"value\":\"my car asset 1001 value\"}"
    ensures second == Err(AlreadyExists("1001"))
    ensures first == Ok(MyCarAsset("my car asset 1001 value"))
    ensures updated == Ok(MyCarAsset("new value"))
    ensures !existsAfterDelete
  {
    var stub := new WorldState(map[]);
    Stored1001();
    var r := CreateMyCarAsset(stub, "1001", "my car asset 1001 value");
    second := CreateMyCarAsset(stub, "1001", "another value");
    stored := stub.state["1001"];
    first := ReadMyCarAsset(stub, "1001");
    r := UpdateMyCarAsset(stub, "1001", "new value");
    updated := ReadMyCarAsset(stub, "1001");
    r := DeleteMyCarAsset(stub, "1001");
    existsAfterDelete := MyCarAssetExists(stub, "1001");
  }
}
