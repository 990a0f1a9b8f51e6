/**
 * `MyCarAssetContract`: existence-checked create, read, update and delete of
 * asset records keyed by asset id, over the world state of module Ledger.
 *
 * An id exists when the world state holds a non-empty buffer for it; an entry
 * holding an empty buffer counts as absent, so `CreateMyCarAsset` may overwrite
 * it and the other three operations reject it. Every failed check returns before
 * any write. The two queries are functions of the world state (they are the
 * source's read-only transactions); the three updates are methods that change
 * the one key they name.
 */
module MyCarAssetContract {
  import opened Json
  import opened Ledger

  /** The errors the operations raise, each naming the asset id. */
  datatype ContractError =
    | AlreadyExists(id: string)
    | DoesNotExist(id: string)
      /** `JSON.parse` rejected the stored buffer of `id`. */
    | SyntaxError(id: string)

  datatype Result<T> = Ok(value: T) | Err(error: ContractError)

  /** The text of the errors the contract itself throws. */
  function Message(e: ContractError): string
    requires !e.SyntaxError?
  {
    match e
    case AlreadyExists(id) => "The my car asset " + id + " already exists"
    case DoesNotExist(id) => "The my car asset " + id + " does not exist"
  }

  /** Different errors have different messages: a message names its id and its kind. */
  lemma MessageIdentifiesError(e1: ContractError, e2: ContractError)
    requires !e1.SyntaxError? && !e2.SyntaxError?
    requires Message(e1) == Message(e2)
    ensures e1 == e2
  {
    var m := Message(e1);
    // the last letter tells the two kinds apart
    assert m[|m| - 1] == (if e1.AlreadyExists? then 's' else 't');
    assert m[|m| - 1] == (if e2.AlreadyExists? then 's' else 't');
    // within one kind, the fixed text around the id has the same length
    assert |e1.id| == |e2.id|;
    assert e1.id == m[17..17 + |e1.id|] == e2.id;
  }

  /** `myCarAssetExists`: the world state holds a non-empty buffer for `id`. */
  function MyCarAssetExists(stub: WorldState, id: string): (r: bool)
    reads stub
    ensures r <==> id in stub.state && stub.state[id] != []
  {
    var buffer := stub.GetState(id);
    |buffer| > 0
  }

  /** `readMyCarAsset`: the record stored under `id`. */
  function ReadMyCarAsset(stub: WorldState, id: string): (r: Result<MyCarAsset>)
    reads stub
    ensures r == Err(DoesNotExist(id)) <==> !MyCarAssetExists(stub, id)
    ensures r.Ok? ==> id in stub.state && stub.state[id] == Stringify(r.value)
    ensures forall a :: id in stub.state && stub.state[id] == Stringify(a) ==> r == Ok(a)
    ensures r.Err? ==> r.error.id == id && !r.error.AlreadyExists?
  {
    var assetExists := MyCarAssetExists(stub, id);
    if !assetExists then Err(DoesNotExist(id))
    else
      var buffer := stub.GetState(id);
      ParseIffStringify(buffer);
      match Parse(buffer)
      case Some(myCarAsset) => Ok(myCarAsset)
      case None => Err(SyntaxError(id))
  }

  /**
   * Round trip through the world state: a buffer that create or update wrote
   * for `a` makes the id exist and reads back as `a`.
   */
  lemma ReadAfterWrite(stub: WorldState, id: string, a: MyCarAsset)
    requires id in stub.state && stub.state[id] == Stringify(a)
    ensures MyCarAssetExists(stub, id) && ReadMyCarAsset(stub, id) == Ok(a)
  {
  }

  /** `createMyCarAsset`: stores a new record under an id that does not exist yet. */
  method CreateMyCarAsset(stub: WorldState, id: string, value: string) returns (r: Result<()>)
    modifies stub
    ensures old(MyCarAssetExists(stub, id)) ==> r == Err(AlreadyExists(id)) && stub.state == old(stub.state)
    ensures !old(MyCarAssetExists(stub, id)) ==>
      r == Ok(()) && stub.state == old(stub.state)[id := Stringify(MyCarAsset(value))]
    ensures MyCarAssetExists(stub, id)
    ensures r.Ok? ==> ReadMyCarAsset(stub, id) == Ok(MyCarAsset(value))
  {
    var assetExists := MyCarAssetExists(stub, id);
    if assetExists {
      return Err(AlreadyExists(id));
    }
    var myCarAsset := MyCarAsset(value);
    var buffer := Stringify(myCarAsset);
    stub.PutState(id, buffer);
    r := Ok(());
  }

  /** `updateMyCarAsset`: replaces the whole record of an existing id. */
  method UpdateMyCarAsset(stub: WorldState, id: string, newValue: string) returns (r: Result<()>)
    modifies stub
    ensures !old(MyCarAssetExists(stub, id)) ==> r == Err(DoesNotExist(id)) && stub.state == old(stub.state)
    ensures old(MyCarAssetExists(stub, id)) ==>
      r == Ok(()) && stub.state == old(stub.state)[id := Stringify(MyCarAsset(newValue))]
    ensures r.Ok? ==> MyCarAssetExists(stub, id) && ReadMyCarAsset(stub, id) == Ok(MyCarAsset(newValue))
  {
    var assetExists := MyCarAssetExists(stub, id);
    if !assetExists {
      return Err(DoesNotExist(id));
    }
    var myCarAsset := MyCarAsset(newValue);
    var buffer := Stringify(myCarAsset);
    stub.PutState(id, buffer);
    r := Ok(());
  }

  /** `deleteMyCarAsset`: removes an existing id. */
  method DeleteMyCarAsset(stub: WorldState, id: string) returns (r: Result<()>)
    modifies stub
    ensures !old(MyCarAssetExists(stub, id)) ==> r == Err(DoesNotExist(id)) && stub.state == old(stub.state)
    ensures old(MyCarAssetExists(stub, id)) ==> r == Ok(()) && stub.state == old(stub.state) - {id}
    ensures !MyCarAssetExists(stub, id)
  {
    var assetExists := MyCarAssetExists(stub, id);
    if !assetExists {
      return Err(DoesNotExist(id));
    }
    stub.DeleteState(id);
    r := Ok(());
  }
}
