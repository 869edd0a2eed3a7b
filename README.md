# blokhain ledger model

A Dafny model of the ledger crate `blokhain/` of the blokhain repository:

- the `Block` value: its hash over the block's fields, the fixed genesis block and "mining";
- the `Blokhain` container: appending, validation and longest-chain replacement.

Files:

- `wrappers.dfy`: `Option` and `Result`.
- `bytes.dfy`: the `byte` type (`u8`), plus the ASCII decimal rendering that `to_string()` produces for the millisecond count, and its inverse.
- `block.dfy` (module `Blocks`): `blokhain/src/block.rs`. Rust's `Block::new` is the datatype constructor `Block(...)`.
- `blokhain.dfy` (module `Ledger`): `blokhain/src/blokhain.rs`, with `Blokhain` as a class whose `chain` field is a `seq<Block>` that the methods reassign.
- `blokhain_tests.dfy` (module `LedgerTests`): the unit tests of `blokhain.rs`. They are methods, and their postconditions are the tests' assertions.

Two outside inputs become parameters:

- SHA-256 is the parameter `sha: Sha256`. It can be any function from bytes to bytes whose result is always 32 bytes long. Nothing else about the digest is assumed: no collision resistance and no particular bytes.
- `SystemTime::now()` is a parameter `now`: a `Timestamp`, counted in nanoseconds since `UNIX_EPOCH`. Block equality is structural, so it compares the full timestamp, as the derived `PartialEq` does. The hash sees only the timestamp's whole milliseconds.

The model follows the code as written, including where it differs from a textbook blockchain:

- **No proof-of-work.** Mining computes one hash and copies the previous block's nonce. `DIFFICULTY` is declared and never read. No block is required to have leading zero bytes (`NoProofOfWork`).
- **Nonce and errors.** The nonce is one byte. The replacement errors are the two exact strings the code returns, not typed errors.
- **Validation skips the first window.** After checking that the first block is genesis, validation looks only at windows of the chain with block 0 skipped. So:
  - the link from genesis to block 1 is never checked;
  - block 1's own hash is never checked;
  - block 1 is constrained only through its hash field, which block 2 must name (`FirstBlockOnlyBoundByItsHash`, `ShortChainIsValid`).

  Changing the hash or the previous hash of a block at index 2 or later is always detected. Changing its payload is detected exactly when the digest does not collide (`TamperedDataIsDetectedUnlessCollision`).
- **The hash input has no separators.** The digits of the milliseconds can run into the previous hash (`HashInputAmbiguous`). When the length of the previous hash is known, the fields can be read back (`HashInputRoundTrip`).

## Model

| member | source | states |
|---|---|---|
| `Bytes.DecimalString` | blokhain/src/block.rs:52-56 | The rendering of the millisecond count is non-empty and all ASCII digits. It starts with '0' iff the count is zero, and it is one digit iff the count is below ten. |
| `Bytes.DecimalRoundTrip` | blokhain/src/block.rs:55-56 | Reading the rendered digits back as a decimal number gives the number that was rendered. |
| `Bytes.DecimalInjective` | blokhain/src/block.rs:55-56 | Distinct millisecond counts render as distinct strings. |
| `Blocks.Genesis` | blokhain/src/block.rs:29-31 | The genesis block is timestamp UNIX_EPOCH, previous hash [0], hash [0], data 0 and nonce 0. |
| `Blocks.CalculateHash` | blokhain/src/block.rs:51-65 | Every computed hash is 32 bytes long. The computation cannot fail, because timestamps cannot precede the epoch. |
| `Blocks.RecalculateHash` | blokhain/src/block.rs:42-49 | A block's hash is recomputed from its own fields and is 32 bytes long. |
| `Blocks.RecalculateIgnoresStoredHash` | blokhain/src/block.rs:42-49 | The recomputed hash does not depend on the hash the block stores. |
| `Blocks.MineBlock` | blokhain/src/block.rs:33-40 | A mined block carries the clock reading and the given data. Its previous hash is the previous block's hash, and its nonce is the previous block's nonce, unchanged. Its hash is 32 bytes and equals the hash recomputed from its own fields (the quickcheck property at lines 88-94). |
| `Blocks.MinedOnGenesis` | blokhain/src/block.rs:81-86 | A block mined on genesis names genesis's hash as its previous hash and is itself different from genesis. |
| `Blocks.HashInputRoundTrip` | blokhain/src/block.rs:58-62 | The digest input is laid out as the millisecond digits, then the previous hash, then the data byte, then the nonce byte. Given the previous hash's length, decoding it returns exactly these fields. |
| `Blocks.HashInputInjective` | blokhain/src/block.rs:58-62 | Two equal digest inputs whose previous hashes have the same length agree on milliseconds, previous hash, data and nonce. |
| `Blocks.DistinctMillisDistinctInput` | blokhain/src/block.rs:52-56 | Timestamps in different milliseconds give different digest inputs when the other fields are equal. |
| `Blocks.SameMilliSameHash` | blokhain/src/block.rs:52-55 | Timestamps in the same millisecond give the same hash when the other fields are equal. |
| `Blocks.HashInputAmbiguous` | blokhain/src/block.rs:58-62 | Two sets of fields give the same hash: 1 ms with previous hash "2", and 12 ms with an empty previous hash. The input has no separator between the digits and the previous hash. |
| `Blocks.CalculatedHashIsNotGenesisHash` | blokhain/src/block.rs:58-64 | No computed hash equals the one-byte genesis hash. |
| `Blocks.NoProofOfWork` | blokhain/src/block.rs:33-40 | For some 32-byte digest function, the mined hash's first byte is not zero, so mining promises no leading zeros. |
| `Ledger.ExtendValid` | blokhain/src/blokhain.rs:22-35 | Appending a block keeps a valid chain valid when the block is linked to the last block. After a lone genesis block, any block may follow. |
| `Ledger.AddBlockTo` | blokhain/src/blokhain.rs:17-20 | Appending grows the chain by exactly one block and keeps every earlier block. The new block's previous hash is the old last block's hash. A valid chain stays valid. |
| `Ledger.BuildPreservesValid` | blokhain/src/blokhain.rs:17-35 | Any number of appends to a valid chain adds that many blocks and leaves the chain valid. |
| `Ledger.GrownFromGenesisIsValid` | blokhain/src/blokhain.rs:17-35 | Every chain that starts at genesis and grows only by appending is valid. |
| `Ledger.WrongGenesisIsInvalid` | blokhain/src/blokhain.rs:23-24 | A chain whose first block is not genesis is invalid. |
| `Ledger.ShortChainIsValid` | blokhain/src/blokhain.rs:26-34 | Every chain of one or two blocks that starts at genesis is valid, including `[genesis]`. |
| `Ledger.FirstBlockOnlyBoundByItsHash` | blokhain/src/blokhain.rs:26 | In a valid chain, block 1 may be replaced by any block with the same hash field and the chain stays valid, because the first window is skipped. |
| `Ledger.TamperedHashIsDetected` | blokhain/src/blokhain.rs:28-29 | Changing the stored hash of a block at index 2 or later makes a valid chain invalid. |
| `Ledger.TamperedLinkIsDetected` | blokhain/src/blokhain.rs:27-29 | Changing the previous hash of a block at index 2 or later makes a valid chain invalid. |
| `Ledger.TamperedDataIsDetectedUnlessCollision` | blokhain/src/blokhain.rs:28-29 | After the data of a block at index 2 or later is changed, the chain is valid iff the digest of the changed fields equals the stored hash. |
| `Ledger.SiblingsOnGenesisAreInvalid` | blokhain/src/blokhain.rs:66-75 | `[genesis, mine(genesis, d1), mine(genesis, d2)]` is invalid for all payloads and clock readings. |
| `Ledger.Blokhain.New` | blokhain/src/blokhain.rs:11-15 | `new(None)` holds `[genesis]` and `new(Some(b))` holds `[b]`, so the new chain has one block either way. |
| `Ledger.Blokhain.FromChain` | blokhain/src/blokhain.rs:5-8 | The struct literal holds exactly the given blocks. |
| `Ledger.Blokhain.AddBlock` | blokhain/src/blokhain.rs:17-20 | The chain becomes the old chain plus the block mined on its last block, and nothing else changes. A valid chain stays valid. |
| `Ledger.Blokhain.IsValidChain` | blokhain/src/blokhain.rs:22-35 | The result is true iff block 0 is genesis and, for every index i from 2 on, block i names block i-1's hash and carries its own recomputed hash. |
| `Ledger.Blokhain.ReplaceChain` | blokhain/src/blokhain.rs:37-42 | If the candidate is not longer, the result is `Err("New chain is NOT longer than the current one")` and the chain is unchanged; this is checked first. Otherwise, if the candidate is invalid, the result is `Err("New chain is NOT valid")` and the chain is unchanged. Otherwise the result is `Ok(())` and the chain becomes the candidate's blocks. After `Ok`, the chain is non-empty and valid. |
| `LedgerTests.TestIsValidChain` | blokhain/src/blokhain.rs:52-55 | A fresh chain is valid. |
| `LedgerTests.TestChainIsNotValidIfGenesisBlockIsWrong` | blokhain/src/blokhain.rs:57-63 | A chain led by a mined block is invalid. |
| `LedgerTests.TestChainIsNotValidIfSomePartOfChainIsWrong` | blokhain/src/blokhain.rs:65-75 | A chain of genesis and two blocks both mined on genesis is invalid. |
| `LedgerTests.TestReplaceChain` | blokhain/src/blokhain.rs:77-85 | A fresh chain is replaced by a fresh chain with one block added. |
| `LedgerTests.TestReplaceRejectsInvalidChain` | blokhain/src/blokhain.rs:87-100 | A longer chain of two siblings on genesis is refused with "New chain is NOT valid". |
| `LedgerTests.TestReplaceRejectsShortChain` | blokhain/src/blokhain.rs:102-111 | A fresh chain cannot replace a chain with one block added; it is refused with "New chain is NOT longer than the current one". |

## Left out

- SHA-256 internals are left out. The digest is the parameter `sha`, and only its 32-byte output length is assumed.
- `SystemTime::now()` is left out because it is a clock read. Each reading is a `now` parameter.
- Timestamps before `UNIX_EPOCH` cannot be represented, because `Timestamp` is a `nat`. In the source, such a timestamp makes `calculate_hash` panic with "Time went backwards".
- The `expect` panics on an empty chain in `add_block` and `is_valid_chain` are left out. They are preconditions (`chain != []`) of `AddBlock` and `IsValidChain`. `ReplaceChain` has none, because its length check rules out an empty candidate.
- Ownership is left out. `replace_chain` consumes its argument, but here the argument object stays allocated and unchanged, and the method copies its sequence.
- `Clone` and `Debug`, the `DIFFICULTY` constant's type, and the quickcheck `Arbitrary` instance are left out. They do not affect behaviour.
- The server's subscriber table and broadcast hub (`app/src/server.rs`) are outside this crate and not modelled: its locks, channels, forwarder task and gRPC handlers are concurrency and network plumbing. The same holds for the server's parse of the payload digit.
- `frontend/src/client.rs` is not part of this model. It is an HTTP/gRPC-web client call.
- `src/block.rs` and `src/blokhain.rs` are an earlier snapshot that does not compile against its own `Block`. They are not part of this model.
