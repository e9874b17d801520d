/**
 * The limits of a block: what a proposer keeps and what the verifiers accept (pkg/core/blockchain.go,
 * pkg/consensus/consensus.go).
 */
module BlockLimits {
  import opened BinaryIO

  datatype Tx = Tx(size: nat, systemFee: nat)

  /** Protocol limits; numberOfTransactions zero means none to the proposer. */
  datatype Limits = Limits(maxTransactions: nat, maxBlockSize: nat, maxSystemFee: nat)

  /** Lengths of the two scripts of a witness. */
  datatype Witness = Witness(invocation: nat, verification: nat)

  const UINT256_SIZE := 32

  function WitnessSize(w: Witness): nat {
    EstimatedSize(w.invocation) + w.invocation + EstimatedSize(w.verification) + w.verification
  }

  /** headerSize is the size of a header with an empty witness, which takes two bytes. */
  function SizeWithoutTransactions(headerSize: nat, w: Witness, count: nat, stateRoot: bool): int {
    headerSize - 2 + WitnessSize(w) + EstimatedSize(count) + if stateRoot then UINT256_SIZE else 0
  }

  function TotalSize(txes: seq<Tx>): nat {
    if txes == [] then 0 else TotalSize(txes[..|txes| - 1]) + txes[|txes| - 1].size
  }

  function TotalFee(txes: seq<Tx>): nat {
    if txes == [] then 0 else TotalFee(txes[..|txes| - 1]) + txes[|txes| - 1].systemFee
  }

  /** The witness a proposer reckons with: 66 bytes for each of m signatures. */
  function ExpectedWitness(m: nat, verification: nat): Witness { Witness(66 * m, verification) }

  /** What a prefix of n transactions weighs for the proposer, who counts all candidates. */
  predicate Fits(limits: Limits, base: int, txes: seq<Tx>, n: nat)
    requires n <= |txes|
  {
    base + TotalSize(txes[..n]) <= limits.maxBlockSize && TotalFee(txes[..n]) <= limits.maxSystemFee
  }

  function Candidates(limits: Limits, txes: seq<Tx>): seq<Tx> {
    if limits.maxTransactions != 0 && |txes| > limits.maxTransactions then txes[..limits.maxTransactions] else txes
  }

  /** How many candidates from number i on are kept: up to the first that no longer fits. */
  function Keep(limits: Limits, base: int, cs: seq<Tx>, i: nat): (n: nat)
    requires i <= |cs|
    ensures i <= n <= |cs| && (n < |cs| ==> !Fits(limits, base, cs, n + 1))
    ensures forall k :: i < k <= n ==> Fits(limits, base, cs, k)
    decreases |cs| - i
  {
    if i == |cs| || !Fits(limits, base, cs, i + 1) then i else Keep(limits, base, cs, i + 1)
  }

  /** The proposer's base size: all candidates counted, signatures included, no state root. */
  function Base(limits: Limits, headerSize: nat, w: Witness, txes: seq<Tx>): int {
    SizeWithoutTransactions(headerSize, w, |Candidates(limits, txes)|, false)
  }

  function Kept(limits: Limits, headerSize: nat, w: Witness, txes: seq<Tx>): seq<Tx> {
    var cs := Candidates(limits, txes);
    cs[..Keep(limits, Base(limits, headerSize, w, txes), cs, 0)]
  }

  /** The candidates are the first transactions, as many as the limit admits, and weigh what those weigh. */
  lemma CandidatesFit(limits: Limits, txes: seq<Tx>)
    ensures var cs := Candidates(limits, txes);
            && cs <= txes
            && |cs| == (if limits.maxTransactions == 0 || |txes| < limits.maxTransactions then |txes|
                        else limits.maxTransactions)
            && forall base, n :: 0 <= n <= |cs| ==> (Fits(limits, base, cs, n) <==> Fits(limits, base, txes, n))
  {
    var cs := Candidates(limits, txes);
    forall n | 0 <= n <= |cs| ensures cs[..n] == txes[..n] {}
  }

  /** The longest prefix within the count, all of whose own prefixes fit together with a header for the full count. */
  predicate IsLongest(limits: Limits, headerSize: nat, w: Witness, txes: seq<Tx>, kept: seq<Tx>) {
    var limited := limits.maxTransactions != 0 && limits.maxTransactions <= |txes|;
    var max := if limited then limits.maxTransactions else |txes|;
    var base := SizeWithoutTransactions(headerSize, w, max, false);
    && kept <= txes && |kept| <= max && (forall n :: 0 < n <= |kept| ==> Fits(limits, base, txes, n))
    && (|kept| < max ==> !Fits(limits, base, txes, |kept| + 1))
  }

  lemma KeptIsLongest(limits: Limits, headerSize: nat, w: Witness, txes: seq<Tx>)
    ensures IsLongest(limits, headerSize, w, txes, Kept(limits, headerSize, w, txes))
  {
    hide Fits;
    CandidatesFit(limits, txes);
  }

  /** The longest prefix all of whose own prefixes fit. */
  method ApplyPolicyToTxSet(limits: Limits, headerSize: nat, w: Witness, txes: seq<Tx>) returns (kept: seq<Tx>)
    ensures kept == Kept(limits, headerSize, w, txes)
    ensures var cs, base := Candidates(limits, txes), Base(limits, headerSize, w, txes);
            && kept <= cs && (forall n :: 0 < n <= |kept| ==> Fits(limits, base, cs, n))
            && (|kept| < |cs| ==> !Fits(limits, base, cs, |kept| + 1))
    ensures IsLongest(limits, headerSize, w, txes, kept)
  {
    hide IsLongest;
    KeptIsLongest(limits, headerSize, w, txes);
    var cs := txes;
    if limits.maxTransactions != 0 && |txes| > limits.maxTransactions {
      cs := txes[..limits.maxTransactions];
    }
    ghost var base := Base(limits, headerSize, w, txes);
    var blockSize := SizeWithoutTransactions(headerSize, w, |cs|, false);
    var blockSysFee := 0;
    assert cs[..|cs|] == cs;
    for i := 0 to |cs|
      invariant blockSize == base + TotalSize(cs[..i]) && blockSysFee == TotalFee(cs[..i])
      invariant Keep(limits, base, cs, 0) == Keep(limits, base, cs, i)
    {
      assert cs[..i + 1][..i] == cs[..i];
      blockSize := blockSize + cs[i].size;
      blockSysFee := blockSysFee + cs[i].systemFee;
      if blockSize > limits.maxBlockSize || blockSysFee > limits.maxSystemFee {
        return cs[..i];
      }
    }
    kept := cs;
  }

  /** What the verifiers ask of a block's count, size and system fee. */
  predicate Acceptable(limits: Limits, headerSize: nat, w: Witness, stateRoot: bool, txes: seq<Tx>) {
    && |txes| <= limits.maxTransactions
    && SizeWithoutTransactions(headerSize, w, |txes|, stateRoot) + TotalSize(txes) <= limits.maxBlockSize
    && TotalFee(txes) <= limits.maxSystemFee
  }

  /** verifyRequest and verifyBlock: the checks of count, size and system fee. */
  method VerifyLimits(limits: Limits, headerSize: nat, w: Witness, stateRoot: bool, txes: seq<Tx>) returns (ok: bool)
    ensures ok <==> Acceptable(limits, headerSize, w, stateRoot, txes)
  {
    var size, fee := 0, 0;
    for i := 0 to |txes|
      invariant size == TotalSize(txes[..i]) && fee == TotalFee(txes[..i])
    {
      assert txes[..i + 1][..i] == txes[..i];
      size := size + txes[i].size;
      fee := fee + txes[i].systemFee;
    }
    assert txes[..|txes|] == txes;
    ok := |txes| <= limits.maxTransactions
          && SizeWithoutTransactions(headerSize, w, |txes|, stateRoot) + size <= limits.maxBlockSize
          && fee <= limits.maxSystemFee;
  }

  /** When a proposal will pass, told from what the proposer is given. */
  predicate Sound(limits: Limits, headerSize: nat, w: Witness, stateRoot: bool, txes: seq<Tx>) {
    var cs := Candidates(limits, txes);
    if cs == [] || !Fits(limits, Base(limits, headerSize, w, txes), cs, 1)
    then headerSize + 1 + (if stateRoot then UINT256_SIZE else 0) <= limits.maxBlockSize
    else limits.maxTransactions != 0
  }

  /**
   * The proposed block passes the verifiers' checks, although they see it without signatures, count only what was kept
   * and may add a state root: exactly if the transaction limit is set or nothing fits, and in that case an empty block
   * would fit.
   */
  lemma ProposalPasses(limits: Limits, headerSize: nat, m: nat, verification: nat, stateRoot: bool, txes: seq<Tx>)
    requires m >= 1
    ensures var w := ExpectedWitness(m, verification);
            Acceptable(limits, headerSize, Witness(0, 0), stateRoot, Kept(limits, headerSize, w, txes)) <==>
            Sound(limits, headerSize, w, stateRoot, txes)
  {
    var w := ExpectedWitness(m, verification);
    var cs, base := Candidates(limits, txes), Base(limits, headerSize, w, txes);
    var kept := Kept(limits, headerSize, w, txes);
    if kept != [] {
      assert Fits(limits, base, cs, |kept|);
      VerifierCountsLess(headerSize, m, verification, |kept|, |cs|, stateRoot);
    }
  }

  method ProposeAndVerify(limits: Limits, headerSize: nat, m: nat, verification: nat, stateRoot: bool, txes: seq<Tx>)
    returns (kept: seq<Tx>, ok: bool)
    requires m >= 1
    ensures kept == Kept(limits, headerSize, ExpectedWitness(m, verification), txes)
    ensures ok <==> Sound(limits, headerSize, ExpectedWitness(m, verification), stateRoot, txes)
  {
    kept := ApplyPolicyToTxSet(limits, headerSize, ExpectedWitness(m, verification), txes);
    ok := VerifyLimits(limits, headerSize, Witness(0, 0), stateRoot, kept);
    ProposalPasses(limits, headerSize, m, verification, stateRoot, txes);
  }

  /** Without a transaction limit the proposer keeps a transaction and the verifiers refuse the block. */
  lemma UnlimitedProposalRefused()
    ensures var limits, w, txes := Limits(0, 1000, 10), ExpectedWitness(1, 40), [Tx(100, 10)];
            && Kept(limits, 100, w, txes) == txes
            && !Acceptable(limits, 100, Witness(0, 0), false, Kept(limits, 100, w, txes))
  {
    var limits, w, txes := Limits(0, 1000, 10), ExpectedWitness(1, 40), [Tx(100, 10)];
    assert txes[..1] == txes && txes[..0] == [];
    assert TotalSize(txes) == 100 && TotalFee(txes) == 10;
    assert Fits(limits, Base(limits, 100, w, txes), txes, 1);
    assert Keep(limits, Base(limits, 100, w, txes), txes, 1) == 1;
  }

  /** And an empty block that is larger than allowed is proposed without being measured. */
  lemma EmptyProposalRefused()
    ensures var limits, w := Limits(10, 50, 10), ExpectedWitness(1, 40);
            Kept(limits, 100, w, []) == [] && !Acceptable(limits, 100, Witness(0, 0), false, [])
  {}

  /** The signatures reckoned with outweigh the state root and the larger count. */
  lemma VerifierCountsLess(headerSize: nat, m: nat, verification: nat, kept: nat, all: nat, stateRoot: bool)
    requires m >= 1 && kept <= all
    ensures SizeWithoutTransactions(headerSize, Witness(0, 0), kept, stateRoot)
         <= SizeWithoutTransactions(headerSize, ExpectedWitness(m, verification), all, false)
  {
    assert WitnessSize(ExpectedWitness(m, verification)) >= 66 + 2;
  }
}
