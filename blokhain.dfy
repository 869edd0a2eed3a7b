/**
 * The chain of blokhain/src/blokhain.rs: a container holding a sequence of
 * blocks, appended to by mining on its last block, checked by a validation
 * pass and replaced wholesale by a strictly longer valid chain.
 *
 * The validation pass, as written, checks that the first block is genesis and
 * then checks only the windows of the chain with its first block skipped:
 * the link from genesis to block 1 and block 1's own hash are never looked at.
 */
module Ledger {
  import opened Bytes
  import opened Wrappers
  import opened Blocks

  const NOT_LONGER: string := "New chain is NOT longer than the current one"
  const NOT_VALID: string := "New chain is NOT valid"

  /** `next` names `prev`'s hash as its previous hash and carries its own recomputed hash. */
  predicate Linked(sha: Sha256, prev: Block, next: Block) {
    next.lastHash == prev.hash && next.hash == RecalculateHash(sha, next)
  }

  /**
   * What the validation pass accepts: a chain led by genesis in which every
   * block from index 2 on is linked to its predecessor.
   */
  predicate ValidChain(sha: Sha256, chain: seq<Block>)
    requires chain != []
  {
    chain[0] == Genesis() && forall i :: 2 <= i < |chain| ==> Linked(sha, chain[i - 1], chain[i])
  }

  /**
   * Extending a valid chain by one block keeps it valid when the block is
   * linked to the last one; onto a lone genesis block anything may follow.
   */
  lemma ExtendValid(sha: Sha256, chain: seq<Block>, b: Block)
    requires chain != [] && ValidChain(sha, chain)
    requires |chain| >= 2 ==> Linked(sha, chain[|chain| - 1], b)
    ensures ValidChain(sha, chain + [b])
  {
    var grown := chain + [b];
    forall i | 2 <= i < |grown|
      ensures Linked(sha, grown[i - 1], grown[i])
    {
      if i < |chain| {
        assert Linked(sha, chain[i - 1], chain[i]);
        assert grown[i - 1] == chain[i - 1] && grown[i] == chain[i];
      } else {
        assert grown[i - 1] == chain[|chain| - 1] && grown[i] == b;
      }
    }
  }

  /** The chain after mining `data` at time `now` onto its last block. */
  function AddBlockTo(sha: Sha256, chain: seq<Block>, data: byte, now: Timestamp): (grown: seq<Block>)
    requires chain != []
    ensures |grown| == |chain| + 1 && grown[..|chain|] == chain
    ensures grown[|chain|].lastHash == chain[|chain| - 1].hash && grown[|chain|].data == data
    ensures ValidChain(sha, chain) ==> ValidChain(sha, grown)
  {
    chain + [MineBlock(sha, chain[|chain| - 1], data, now)]
  }

  /** One call of `add_block`: its payload and the clock reading it sees. */
  datatype Append = Append(data: byte, now: Timestamp)

  /** The chain after the calls `appends` of `add_block`, in order. */
  function Build(sha: Sha256, chain: seq<Block>, appends: seq<Append>): seq<Block>
    requires chain != []
    decreases |appends|
  {
    if appends == [] then chain
    else Build(sha, AddBlockTo(sha, chain, appends[0].data, appends[0].now), appends[1..])
  }

  /** Appending never invalidates a valid chain and keeps what was there. */
  lemma {:induction false} BuildPreservesValid(sha: Sha256, chain: seq<Block>, appends: seq<Append>)
    requires chain != [] && ValidChain(sha, chain)
    ensures |Build(sha, chain, appends)| == |chain| + |appends|
    ensures ValidChain(sha, Build(sha, chain, appends))
    decreases |appends|
  {
    if appends != [] {
      var next := AddBlockTo(sha, chain, appends[0].data, appends[0].now);
      BuildPreservesValid(sha, next, appends[1..]);
    }
  }

  /** Every chain grown from genesis by `add_block` alone is valid. */
  lemma GrownFromGenesisIsValid(sha: Sha256, appends: seq<Append>)
    ensures |Build(sha, [Genesis()], appends)| == 1 + |appends|
    ensures ValidChain(sha, Build(sha, [Genesis()], appends))
  {
    BuildPreservesValid(sha, [Genesis()], appends);
  }

  /** A chain whose first block is not genesis is rejected. */
  lemma WrongGenesisIsInvalid(sha: Sha256, chain: seq<Block>)
    requires chain != [] && chain[0] != Genesis()
    ensures !ValidChain(sha, chain)
  {
  }

  /** A genesis-led chain of at most two blocks is accepted, whatever its second block is. */
  lemma ShortChainIsValid(sha: Sha256, chain: seq<Block>)
    requires 1 <= |chain| <= 2 && chain[0] == Genesis()
    ensures ValidChain(sha, chain)
  {
  }

  /**
   * Block 1 is constrained only through its hash (which block 2 must name):
   * any block with that hash may stand in for it, whether or not it links to
   * genesis or its hash matches its fields.
   */
  lemma FirstBlockOnlyBoundByItsHash(sha: Sha256, chain: seq<Block>, b: Block)
    requires 2 <= |chain| && ValidChain(sha, chain)
    requires b.hash == chain[1].hash
    ensures ValidChain(sha, chain[1 := b])
  {
    var tampered := chain[1 := b];
    forall i | 2 <= i < |tampered|
      ensures Linked(sha, tampered[i - 1], tampered[i])
    {
      assert Linked(sha, chain[i - 1], chain[i]);
    }
  }

  /** Replacing the stored hash of a block from index 2 on is detected. */
  lemma TamperedHashIsDetected(sha: Sha256, chain: seq<Block>, i: nat, h: seq<byte>)
    requires 2 <= i < |chain| && ValidChain(sha, chain)
    requires h != chain[i].hash
    ensures !ValidChain(sha, chain[i := chain[i].(hash := h)])
  {
    var tampered := chain[i := chain[i].(hash := h)];
    RecalculateIgnoresStoredHash(sha, chain[i], h);
    assert !Linked(sha, tampered[i - 1], tampered[i]);
  }

  /** Replacing the previous hash of a block from index 2 on is detected. */
  lemma TamperedLinkIsDetected(sha: Sha256, chain: seq<Block>, i: nat, h: seq<byte>)
    requires 2 <= i < |chain| && ValidChain(sha, chain)
    requires h != chain[i].lastHash
    ensures !ValidChain(sha, chain[i := chain[i].(lastHash := h)])
  {
    var tampered := chain[i := chain[i].(lastHash := h)];
    assert Linked(sha, chain[i - 1], chain[i]);
    assert !Linked(sha, tampered[i - 1], tampered[i]);
  }

  /**
   * Replacing the payload of a block from index 2 on is accepted exactly when
   * the digest of the changed fields collides with the stored hash.
   */
  lemma TamperedDataIsDetectedUnlessCollision(sha: Sha256, chain: seq<Block>, i: nat, d: byte)
    requires 2 <= i < |chain| && ValidChain(sha, chain)
    ensures ValidChain(sha, chain[i := chain[i].(data := d)])
        <==> CalculateHash(sha, chain[i].lastHash, chain[i].timestamp, d, chain[i].nonce) == chain[i].hash
  {
    var tampered := chain[i := chain[i].(data := d)];
    assert Linked(sha, chain[i - 1], chain[i]);
    if CalculateHash(sha, chain[i].lastHash, chain[i].timestamp, d, chain[i].nonce) == chain[i].hash {
      forall j | 2 <= j < |tampered|
        ensures Linked(sha, tampered[j - 1], tampered[j])
      {
        assert Linked(sha, chain[j - 1], chain[j]);
      }
    } else {
      assert !Linked(sha, tampered[i - 1], tampered[i]);
    }
  }

  /**
   * Two blocks mined on genesis side by side do not form a chain: the third
   * names genesis's one-byte hash, the second carries a 32-byte digest.
   */
  lemma SiblingsOnGenesisAreInvalid(sha: Sha256, d1: byte, t1: Timestamp, d2: byte, t2: Timestamp)
    ensures !ValidChain(sha, [Genesis(), MineBlock(sha, Genesis(), d1, t1), MineBlock(sha, Genesis(), d2, t2)])
  {
    var chain := [Genesis(), MineBlock(sha, Genesis(), d1, t1), MineBlock(sha, Genesis(), d2, t2)];
    assert chain[2].lastHash != chain[1].hash;
    assert !Linked(sha, chain[1], chain[2]);
  }

  /** The ledger: a container of blocks that the source never lets become empty. */
  class Blokhain {
    var chain: seq<Block>

    /** `Blokhain::new`: one block, the one given or else genesis. */
    constructor New(genesis: Option<Block>)
      ensures chain == [genesis.GetOr(Genesis())]
      ensures genesis.None? ==> chain == [Genesis()]
      ensures genesis.Some? ==> chain == [genesis.value]
    {
      chain := [genesis.GetOr(Genesis())];
    }

    /** The struct literal `Blokhain { chain }`, which sets the field directly. */
    constructor FromChain(chain: seq<Block>)
      ensures this.chain == chain
    {
      this.chain := chain;
    }

    /** `add_block`: mines `data` at time `now` onto the last block and pushes the result. */
    method AddBlock(sha: Sha256, data: byte, now: Timestamp)
      requires chain != []
      modifies this
      ensures chain == AddBlockTo(sha, old(chain), data, now)
      ensures |chain| == |old(chain)| + 1 && chain[..|old(chain)|] == old(chain)
      ensures chain[|old(chain)|] == MineBlock(sha, old(chain)[|old(chain)| - 1], data, now)
      ensures ValidChain(sha, old(chain)) ==> ValidChain(sha, chain)
    {
      var block := MineBlock(sha, chain[|chain| - 1], data, now);
      chain := chain + [block];
    }

    /**
     * `is_valid_chain`: genesis first, then each window of the chain with its
     * first block skipped, stopping at the first broken window.
     */
    method IsValidChain(sha: Sha256) returns (valid: bool)
      requires chain != []
      ensures valid == ValidChain(sha, chain)
    {
      if chain[0] != Genesis() {
        return false;
      }
      var k := 1;
      while k + 1 < |chain|
        invariant 1 <= k <= |chain|
        invariant forall j :: 2 <= j <= k && j < |chain| ==> Linked(sha, chain[j - 1], chain[j])
      {
        var prev, next := chain[k], chain[k + 1];
        var wrongBlockSequence := next.lastHash != prev.hash;
        var wrongHashInBlock := next.hash != RecalculateHash(sha, next);
        if wrongBlockSequence || wrongHashInBlock {
          return false;
        }
        k := k + 1;
      }
      return true;
    }

    /**
     * `replace_chain`: installs `newChain`'s blocks if they are strictly more
     * and valid; otherwise reports why and changes nothing.
     */
    method ReplaceChain(sha: Sha256, newChain: Blokhain) returns (r: Result<()>)
      modifies this
      ensures |old(newChain.chain)| <= |old(chain)| ==>
        r == Err(NOT_LONGER) && chain == old(chain)
      ensures |old(newChain.chain)| > |old(chain)| && !ValidChain(sha, old(newChain.chain)) ==>
        r == Err(NOT_VALID) && chain == old(chain)
      ensures |old(newChain.chain)| > |old(chain)| && ValidChain(sha, old(newChain.chain)) ==>
        r == Ok(()) && chain == old(newChain.chain)
      ensures r.Ok? ==> chain != [] && ValidChain(sha, chain)
    {
      if |newChain.chain| <= |chain| {
        return Err(NOT_LONGER);
      }
      var valid := newChain.IsValidChain(sha);
      if !valid {
        return Err(NOT_VALID);
      }
      chain := newChain.chain;
      return Ok(());
    }
  }
}
