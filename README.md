# MyCarAssetContract in Dafny

A model of `MyCarAssetContract`, the Hyperledger Fabric chaincode in
`blockchainclass/src/my-car-asset-contract.ts`. It keeps car asset records in the
ledger's world state, keyed by asset id. It has five transactions:

- `myCarAssetExists` tells whether an id holds a non-empty buffer.
- `createMyCarAsset` stores a new record and refuses an id that already exists.
- `readMyCarAsset` returns the stored record, and refuses an id that does not exist.
- `updateMyCarAsset` replaces the record of an existing id.
- `deleteMyCarAsset` removes an existing id.

A record has a single string field `value`. It is stored as the bytes of its
`JSON.stringify` text and read back with `JSON.parse`.

The project has four modules:

- `Json` (`json.dfy`) holds the record type and its serialised form.
  - `Stringify` writes `{"value":"..."}` with the string escaped as
    `JSON.stringify` does (section 7 of RFC 8259, ECMAScript QuoteJSONString).
  - `Parse` is a decoder that accepts exactly the texts `Stringify` produces.
  - The two are proved inverse in both directions.
- `Ledger` (`ledger.dfy`) is the world state behind `ctx.stub`. It is a class
  whose map field `PutState` and `DeleteState` update in place.
  - `GetState` returns the empty buffer for a key with no entry.
- `MyCarAssetContract` (`contract.dfy`) holds the five transactions.
  - The two read-only ones are functions of the world state.
  - The three that write are methods.
  - Each has a contract covering its error path and its new state.
- `MyCarAssetContractTests` (`contract_tests.dfy`) holds the unit tests of
  `my-car-asset-contract.spec.ts`. Each test is a method whose postcondition
  is the test's expectation, and a life-cycle scenario follows one asset
  from creation to deletion.

## Model

| member | source | states |
|---|---|---|
| MyCarAssetContract.MyCarAssetExists | blockchainclass/src/my-car-asset-contract.ts:11-16 | an id exists exactly when the world state maps it to a non-empty buffer; a missing key reads as the empty buffer and so does not exist |
| MyCarAssetContract.CreateMyCarAsset | blockchainclass/src/my-car-asset-contract.ts:18-28 | on an existing id, it fails with AlreadyExists(id) and leaves the world state unchanged; otherwise it writes the serialised record under id and changes no other key; afterwards the id exists, and on success it reads back as the new record |
| MyCarAssetContract.ReadMyCarAsset | blockchainclass/src/my-car-asset-contract.ts:30-40 | fails with DoesNotExist(id) exactly when the id does not exist; returns record a exactly when the stored buffer is the serialised form of a; any other stored buffer fails with SyntaxError(id); every error names the id |
| MyCarAssetContract.ReadAfterWrite | blockchainclass/src/my-car-asset-contract.ts:26-38 | a buffer that create or update wrote for record a makes the id exist and reads back as a |
| MyCarAssetContract.UpdateMyCarAsset | blockchainclass/src/my-car-asset-contract.ts:42-52 | on a missing id, it fails with DoesNotExist(id) and leaves the world state unchanged; otherwise it replaces the id's buffer with the serialised new record and changes no other key; on success the id exists and reads back as the new record |
| MyCarAssetContract.DeleteMyCarAsset | blockchainclass/src/my-car-asset-contract.ts:54-61 | on a missing id, it fails with DoesNotExist(id) and leaves the world state unchanged; otherwise it removes exactly that key; afterwards the id does not exist |
| MyCarAssetContract.MessageIdentifiesError | blockchainclass/src/my-car-asset-contract.ts:20-23 | two thrown errors with the same message text are the same error: the message determines both the kind and the asset id |
| Ledger.WorldState.GetState | blockchainclass/src/my-car-asset-contract.ts:14 | the stored buffer of a key, or the empty buffer when the key has no entry |
| Ledger.WorldState.PutState | blockchainclass/src/my-car-asset-contract.ts:27 | the key now maps to the given buffer and every other key is as before |
| Ledger.WorldState.DeleteState | blockchainclass/src/my-car-asset-contract.ts:60 | the key is removed and every other key is as before |
| Json.Stringify | blockchainclass/src/my-car-asset-contract.ts:24-26 | the serialised record is at least as long as the fixed prefix, the value and the suffix together |
| Json.ParseStringify | blockchainclass/src/my-car-asset-contract.ts:26-38 | parsing the serialised form of a record gives the record back |
| Json.StringifyParse | blockchainclass/src/my-car-asset-contract.ts:26-38 | a buffer that parses to record a is the serialised form of a, so the decoder accepts no other text |
| Json.ParseIffStringify | blockchainclass/src/my-car-asset-contract.ts:26-38 | for every buffer b and record a, parsing b gives a if and only if b is the serialised form of a |
| Json.StringifyInjective | blockchainclass/src/my-car-asset-contract.ts:24-26 | two different records never have the same serialised form |
| Json.UnescapeEscape | blockchainclass/src/my-car-asset-contract.ts:26-38 | unescaping the escaped form of a string gives the string back |
| Json.EscapeUnescape | blockchainclass/src/my-car-asset-contract.ts:26-38 | a text that unescapes to s is the escaped form of s |
| Json.EscapeAppend | blockchainclass/src/my-car-asset-contract.ts:26 | escaping distributes over concatenation |
| Json.EscapePlain | blockchainclass/src/my-car-asset-contract.ts:26 | a string without quotes, backslashes or control characters is written verbatim |
| Json.TokenRoundTrip | blockchainclass/src/my-car-asset-contract.ts:26-38 | reading the escaped form of one character gives that character and consumes exactly its escaped form |
| Json.TokenCanonical | blockchainclass/src/my-car-asset-contract.ts:26-38 | a token the decoder accepts is exactly the escaped form of the character it reads as |
| Json.UnicodeRoundTrip | blockchainclass/src/my-car-asset-contract.ts:26-38 | the `\u00XX` form of a control character without a short escape reads back as that character |
| Json.UnicodeCanonical | blockchainclass/src/my-car-asset-contract.ts:26-38 | a six-character escape that the decoder accepts is the encoder's `\u00XX` form of the character |
| Json.ShortUnescape | blockchainclass/src/my-car-asset-contract.ts:26-38 | the two-character escapes are decoded by exactly the inverse of the encoder's table |
| Json.HexDigitValue | blockchainclass/src/my-car-asset-contract.ts:26-38 | the value of the hex digit written for n is n |
| MyCarAssetContractTests.ExistingAssetExists | blockchainclass/src/my-car-asset-contract.spec.ts:42-44 | asset 1001 of the fixture exists |
| MyCarAssetContractTests.MissingAssetDoesNotExist | blockchainclass/src/my-car-asset-contract.spec.ts:46-48 | asset 1003 does not exist |
| MyCarAssetContractTests.CreateWritesRecord | blockchainclass/src/my-car-asset-contract.spec.ts:54-57 | creating 1003 writes exactly `{"value":"my car asset 1003 value"}` under 1003 and nothing else |
| MyCarAssetContractTests.CreateExistingFails | blockchainclass/src/my-car-asset-contract.spec.ts:59-61 | creating 1001 fails with "The my car asset 1001 already exists" |
| MyCarAssetContractTests.ReadReturnsRecord | blockchainclass/src/my-car-asset-contract.spec.ts:67-69 | reading 1001 returns the record with value "my car asset 1001 value" |
| MyCarAssetContractTests.ReadMissingFails | blockchainclass/src/my-car-asset-contract.spec.ts:71-73 | reading 1003 fails with "The my car asset 1003 does not exist" |
| MyCarAssetContractTests.UpdateWritesRecord | blockchainclass/src/my-car-asset-contract.spec.ts:79-82 | updating 1001 writes exactly `{"value":"my car asset 1001 new value"}` under 1001 and nothing else |
| MyCarAssetContractTests.UpdateMissingFails | blockchainclass/src/my-car-asset-contract.spec.ts:84-86 | updating 1003 fails with "The my car asset 1003 does not exist" |
| MyCarAssetContractTests.DeleteRemovesKey | blockchainclass/src/my-car-asset-contract.spec.ts:92-95 | deleting 1001 removes exactly that key |
| MyCarAssetContractTests.DeleteMissingFails | blockchainclass/src/my-car-asset-contract.spec.ts:97-99 | deleting 1003 fails with "The my car asset 1003 does not exist" |
| MyCarAssetContractTests.Stored1001 | blockchainclass/src/my-car-asset-contract.spec.ts:36 | the fixture's buffer for 1001 is the serialised form of its record |
| MyCarAssetContractTests.LifecycleScenario | blockchainclass/src/my-car-asset-contract.ts:18-61 | from an empty world state: create stores the serialised record; a second create fails with AlreadyExists; reads return what was last written; after delete the id no longer exists |

## Left out

- Fabric's `Contract` base class and its `@Info`, `@Transaction` and `@Returns` decorators are left out. A transaction marked read-only is a function that only reads the world state; the others are methods that modify it.
- `async`/`await` is left out: each call completes before the next, as it does within one transaction.
- The transaction context is left out. `ctx.stub` is replaced by the `WorldState` class with its three calls; client identity and logging are not used by the contract.
- The conversion between strings and UTF-8 bytes (`Buffer.from`, `buffer.toString()`) is not modelled: a buffer is a sequence of characters.
- Lone UTF-16 surrogates, which `JSON.stringify` writes as `\uXXXX`, are not modelled: a Dafny `char` is a Unicode scalar value, so a value cannot hold one.
- ReadMyCarAsset: a stored buffer that `Stringify` did not produce fails with `SyntaxError(id)`, even where `JSON.parse` would accept it (extra whitespace, `\/`, upper-case hex digits, other `\u` escapes, extra or missing fields, a non-object). Such buffers are never written by this contract; only another chaincode or a manual write could store them.
- The message text of `SyntaxError` is not modelled; `Message` covers only the errors the contract itself throws.
- `MyCarAsset` is defined in `my-car-asset.ts`, which is not part of this model. Its class is taken to have the single string field `value` that the contract sets.
- The test harness (sinon stubs, chai assertions, `calledOnceWithExactly`) is left out. Each test's expected call is stated as the resulting world state instead.
