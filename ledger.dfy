/**
 * The world state the contract reaches through `ctx.stub`: a key-value table
 * from keys to byte buffers. Only the three calls the contract makes are
 * modelled. A key that was never written reads back as an empty buffer.
 */
module Ledger {

  /** A stored value; the conversion between strings and UTF-8 bytes is not modelled. */
  type Buffer = seq<char>

  class WorldState {
    var state: map<string, Buffer>

    constructor (initial: map<string, Buffer>)
      ensures state == initial
    {
      state := initial;
    }

    /** `getState`: the stored buffer, or an empty one for a key with no entry. */
    function GetState(key: string): (b: Buffer)
      reads this
      ensures key in state ==> b == state[key]
      ensures key !in state ==> b == []
    {
      if key in state then state[key] else []
    }

    /** `putState`: writes one key and leaves every other key as it was. */
    method PutState(key: string, value: Buffer)
      modifies this
      ensures state == old(state)[key := value]
    {
      state := state[key := value];
    }

    /** `deleteState`: removes one key and leaves every other key as it was. */
    method DeleteState(key: string)
      modifies this
      ensures state == old(state) - {key}
    {
      state := state - {key};
    }
  }
}
