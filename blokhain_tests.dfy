/**
 * The unit tests of blokhain/src/blokhain.rs, as methods on the class whose
 * postconditions are the tests' assertions. Each reading of the wall clock is
 * a parameter.
 */
module LedgerTests {
  import opened Wrappers
  import opened Blocks
  import opened Ledger

  /** `test_is_valid_chain`: a fresh chain is valid. */
  method TestIsValidChain(sha: Sha256) returns (valid: bool)
    ensures valid
  {
    var bc := new Blokhain.New(None);
    valid := bc.IsValidChain(sha);
  }

  /** `test_chain_is_not_valid_if_genesis_block_is_wrong`: a chain led by a mined block is invalid. */
  method TestChainIsNotValidIfGenesisBlockIsWrong(sha: Sha256, now: Timestamp) returns (valid: bool)
    ensures !valid
  {
    var notGenesis := MineBlock(sha, Genesis(), 1, now);
    MinedOnGenesis(sha, 1, now);
    var bc := new Blokhain.New(Some(notGenesis));
    valid := bc.IsValidChain(sha);
  }

  /** `test_chain_is_not_valid_if_some_part_of_chain_is_wrong`: two siblings on genesis are invalid. */
  method TestChainIsNotValidIfSomePartOfChainIsWrong(sha: Sha256, t1: Timestamp, t2: Timestamp)
    returns (valid: bool)
    ensures !valid
  {
    var genesis := Genesis();
    var secondBlock := MineBlock(sha, genesis, 1, t1);
    var alternativeSecondBlock := MineBlock(sha, genesis, 2, t2);
    var bc := new Blokhain.FromChain([genesis, secondBlock, alternativeSecondBlock]);
    SiblingsOnGenesisAreInvalid(sha, 1, t1, 2, t2);
    valid := bc.IsValidChain(sha);
  }

  /** `test_replace_chain`: a fresh chain is replaced by one grown by a block. */
  method TestReplaceChain(sha: Sha256, now: Timestamp) returns (r: Result<()>)
    ensures r == Ok(())
  {
    var bc1 := new Blokhain.New(None);
    var bc2 := new Blokhain.New(None);
    bc2.AddBlock(sha, 1, now);
    r := bc1.ReplaceChain(sha, bc2);
  }

  /** `test_replace_rejects_invalid_chain`: a longer but invalid chain is refused. */
  method TestReplaceRejectsInvalidChain(sha: Sha256, t1: Timestamp, t2: Timestamp) returns (r: Result<()>)
    ensures r == Err("New chain is NOT valid")
  {
    var bc1 := new Blokhain.New(None);
    var bc2 := new Blokhain.FromChain([Genesis(), MineBlock(sha, Genesis(), 1, t1), MineBlock(sha, Genesis(), 2, t2)]);
    SiblingsOnGenesisAreInvalid(sha, 1, t1, 2, t2);
    r := bc1.ReplaceChain(sha, bc2);
  }

  /** `test_replace_rejects_short_chain`: a chain no longer than the current one is refused. */
  method TestReplaceRejectsShortChain(sha: Sha256, now: Timestamp) returns (r: Result<()>)
    ensures r == Err("New chain is NOT longer than the current one")
  {
    var bc1 := new Blokhain.New(None);
    var bc2 := new Blokhain.New(None);
    bc1.AddBlock(sha, 1, now);
    r := bc1.ReplaceChain(sha, bc2);
  }
}
