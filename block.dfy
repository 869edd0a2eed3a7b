/**
 * The ledger entry of blokhain/src/block.rs: a `Block` value, the fixed
 * genesis block, the hash over a block's fields and "mining", which in this
 * code computes a single hash (there is no proof-of-work search).
 *
 * SHA-256 is a foreign library call and is not modelled: every operation that
 * hashes takes the digest function as a parameter `sha`, of which only the
 * output length (32 bytes) is known. The wall clock is likewise a parameter.
 */
module Blocks {
  import opened Bytes
  import opened Wrappers

  /** Nanoseconds since UNIX_EPOCH: the model of `SystemTime`. */
  type Timestamp = nat

  const UNIX_EPOCH: Timestamp := 0
  const NANOS_PER_MILLI: nat := 1_000_000
  const DIGEST_LENGTH: nat := 32

  /** Declared by the source and never read: nothing below depends on it. */
  const DIFFICULTY: int := 3

  /** A digest function with 32-byte output, such as SHA-256. */
  type Sha256 = f: seq<byte> -> seq<byte> | forall m :: |f(m)| == DIGEST_LENGTH
    witness (m: seq<byte>) => seq(DIGEST_LENGTH, _ => 0)

  datatype Block = Block(
    timestamp: Timestamp,
    lastHash: seq<byte>,
    hash: seq<byte>,
    data: byte,
    nonce: byte)

  /** The fixed first block of every chain. */
  function Genesis(): (g: Block)
    ensures g.timestamp == UNIX_EPOCH && g.data == 0 && g.nonce == 0
    ensures g.lastHash == g.hash == [0]
  {
    Block(UNIX_EPOCH, [0], [0], 0, 0)
  }

  /** Whole milliseconds since UNIX_EPOCH (`Duration::as_millis` truncates). */
  function Millis(t: Timestamp): nat {
    t / NANOS_PER_MILLI
  }

  /**
   * The bytes fed to the digest: the decimal rendering of the milliseconds,
   * then the previous hash, then the data byte, then the nonce byte.
   */
  function HashInput(millis: nat, lastHash: seq<byte>, data: byte, nonce: byte): seq<byte> {
    DecimalString(millis) + lastHash + [data] + [nonce]
  }

  /** The fields a hash input commits to. */
  datatype HashFields = HashFields(millis: nat, lastHash: seq<byte>, data: byte, nonce: byte)

  /**
   * Splits a hash input back into its fields, given the length of the
   * previous hash; `None` when the input cannot have that layout.
   */
  function DecodeHashInput(input: seq<byte>, lastHashLength: nat): Option<HashFields> {
    if |input| < lastHashLength + 3 then None
    else
      var k := |input| - lastHashLength - 2;
      if !AllDigits(input[..k]) then None
      else Some(HashFields(DigitsValue(input[..k]), input[k..k + lastHashLength],
                           input[k + lastHashLength], input[k + lastHashLength + 1]))
  }

  /** The hash over a block's fields; the timestamp enters only as whole milliseconds. */
  function CalculateHash(sha: Sha256, lastHash: seq<byte>, timestamp: Timestamp, data: byte, nonce: byte): (h: seq<byte>)
    ensures |h| == DIGEST_LENGTH
  {
    sha(HashInput(Millis(timestamp), lastHash, data, nonce))
  }

  /** The hash a block should carry, recomputed from every other field. */
  function RecalculateHash(sha: Sha256, b: Block): (h: seq<byte>)
    ensures |h| == DIGEST_LENGTH
  {
    CalculateHash(sha, b.lastHash, b.timestamp, b.data, b.nonce)
  }

  /** The recomputed hash does not read the stored hash. */
  lemma RecalculateIgnoresStoredHash(sha: Sha256, b: Block, stored: seq<byte>)
    ensures RecalculateHash(sha, b.(hash := stored)) == RecalculateHash(sha, b)
  {
  }

  /**
   * The block mined on top of `last` with payload `data` at time `now`: it
   * links to `last`'s hash, reuses `last`'s nonce and hashes once.
   */
  function MineBlock(sha: Sha256, last: Block, data: byte, now: Timestamp): (b: Block)
    ensures b.timestamp == now && b.data == data
    ensures b.lastHash == last.hash
    ensures b.nonce == last.nonce
    ensures RecalculateHash(sha, b) == b.hash
    ensures |b.hash| == DIGEST_LENGTH
  {
    var hash := CalculateHash(sha, last.hash, now, data, last.nonce);
    Block(now, last.hash, hash, data, last.nonce)
  }

  /** The hash input is read back field by field when the previous hash's length is known. */
  lemma HashInputRoundTrip(millis: nat, lastHash: seq<byte>, data: byte, nonce: byte)
    ensures DecodeHashInput(HashInput(millis, lastHash, data, nonce), |lastHash|)
         == Some(HashFields(millis, lastHash, data, nonce))
  {
    var input := HashInput(millis, lastHash, data, nonce);
    var k := |DecimalString(millis)|;
    assert |input| - |lastHash| - 2 == k;
    assert input[..k] == DecimalString(millis);
    assert input[k..k + |lastHash|] == lastHash;
    DecimalRoundTrip(millis);
  }

  /** Equal hash inputs over equally long previous hashes have equal fields. */
  lemma HashInputInjective(m1: nat, h1: seq<byte>, d1: byte, n1: byte,
                           m2: nat, h2: seq<byte>, d2: byte, n2: byte)
    requires |h1| == |h2|
    requires HashInput(m1, h1, d1, n1) == HashInput(m2, h2, d2, n2)
    ensures m1 == m2 && h1 == h2 && d1 == d2 && n1 == n2
  {
    HashInputRoundTrip(m1, h1, d1, n1);
    HashInputRoundTrip(m2, h2, d2, n2);
  }

  /** Timestamps in different milliseconds give different hash inputs, all else equal. */
  lemma DistinctMillisDistinctInput(lastHash: seq<byte>, t1: Timestamp, t2: Timestamp, data: byte, nonce: byte)
    requires Millis(t1) != Millis(t2)
    ensures HashInput(Millis(t1), lastHash, data, nonce) != HashInput(Millis(t2), lastHash, data, nonce)
  {
    if HashInput(Millis(t1), lastHash, data, nonce) == HashInput(Millis(t2), lastHash, data, nonce) {
      HashInputInjective(Millis(t1), lastHash, data, nonce, Millis(t2), lastHash, data, nonce);
    }
  }

  /** Timestamps within the same millisecond give the same hash, all else equal. */
  lemma SameMilliSameHash(sha: Sha256, lastHash: seq<byte>, t1: Timestamp, t2: Timestamp, data: byte, nonce: byte)
    requires Millis(t1) == Millis(t2)
    ensures CalculateHash(sha, lastHash, t1, data, nonce) == CalculateHash(sha, lastHash, t2, data, nonce)
  {
  }

  /**
   * Without a separator, the digits of the milliseconds can run into the
   * previous hash: at 1 ms with previous hash "2" and at 12 ms with an empty
   * previous hash the digest sees the same bytes.
   */
  lemma HashInputAmbiguous(sha: Sha256, data: byte, nonce: byte)
    ensures CalculateHash(sha, [ZERO_DIGIT + 2], 1 * NANOS_PER_MILLI, data, nonce)
         == CalculateHash(sha, [], 12 * NANOS_PER_MILLI, data, nonce)
  {
    assert DecimalString(12) == DecimalString(1) + [Digit(2)];
    assert HashInput(1, [ZERO_DIGIT + 2], data, nonce) == HashInput(12, [], data, nonce);
  }

  /** A computed hash is never the one-byte genesis hash. */
  lemma CalculatedHashIsNotGenesisHash(sha: Sha256, lastHash: seq<byte>, t: Timestamp, data: byte, nonce: byte)
    ensures CalculateHash(sha, lastHash, t, data, nonce) != Genesis().hash
  {
  }

  /** Mining puts no constraint on the digest: for some 32-byte digest function its first byte is not zero. */
  lemma NoProofOfWork(last: Block, data: byte, now: Timestamp)
    ensures exists sha: Sha256 :: MineBlock(sha, last, data, now).hash[0] != 0
  {
    var ones: Sha256 := (m: seq<byte>) => seq(DIGEST_LENGTH, _ => 1);
    assert MineBlock(ones, last, data, now).hash[0] == 1;
  }

  /** The block test: a block mined on genesis links to genesis's hash and is not genesis. */
  lemma MinedOnGenesis(sha: Sha256, data: byte, now: Timestamp)
    ensures MineBlock(sha, Genesis(), data, now).lastHash == Genesis().hash
    ensures MineBlock(sha, Genesis(), data, now) != Genesis()
  {
    CalculatedHashIsNotGenesisHash(sha, Genesis().hash, now, data, Genesis().nonce);
  }
}
