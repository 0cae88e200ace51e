/** The three public-input formulas, as hashers compute them, and what each commits to. */
module PublicInputs {
  import opened Wrappers
  import opened ProofProtocol
  import opened Bytes
  import opened JobIdentity

  const HASH_SIZE := 32
  const RETURN_OUTPUT_SIZE := 48
  const MANUAL_CLAIM_INPUT_SIZE := HASH_SIZE * 7 + 8 + 8

  type U64 = n: int | 0 <= n < 0x1_0000_0000_0000_0000

  type ReturnOutput = b: seq<Byte> | |b| == RETURN_OUTPUT_SIZE witness seq(RETURN_OUTPUT_SIZE, i => 0)

  // ---------------------------------------------------------------- block transition

  function BlockTransition(c: Crypto, previous: Digest, next: Digest, config: Digest, custodian: Digest): Digest {
    c.sha256(c.sha256(previous + next) + config + custodian)
  }

  method BlockTransitionPublicInputs(c: Crypto, previous: Digest, next: Digest, config: Digest, custodian: Digest)
    returns (publicInputs: Digest)
    ensures publicInputs == BlockTransition(c, previous, next, config, custodian)
    ensures publicInputs == c.sha256(c.sha256(previous + next) + config + custodian)
  {
    var hasher := new Hasher();
    hasher.Update(previous);
    hasher.Update(next);
    var transition := c.sha256(hasher.absorbed);
    assert hasher.absorbed == previous + next;
    hasher := new Hasher();
    hasher.Update(transition);
    hasher.Update(config);
    hasher.Update(custodian);
    assert hasher.absorbed == transition + config + custodian;
    publicInputs := c.sha256(hasher.absorbed);
  }

  lemma BlockTransitionCommits(c: Crypto, previous: Digest, next: Digest, config: Digest, custodian: Digest,
                               previous': Digest, next': Digest, config': Digest, custodian': Digest)
    requires BlockTransition(c, previous, next, config, custodian)
          == BlockTransition(c, previous', next', config', custodian')
    ensures (previous == previous' && next == next' && config == config' && custodian == custodian')
            || Collide(c, previous + next, previous' + next')
            || Collide(c, c.sha256(previous + next) + config + custodian, c.sha256(previous' + next') + config' + custodian')
  {
    var (t, t') := (c.sha256(previous + next), c.sha256(previous' + next'));
    if t + config + custodian == t' + config' + custodian' {
      SplitEqual(t + config, custodian, t' + config', custodian');
      SplitEqual(t, config, t', config');
      if previous + next == previous' + next' { SplitEqual(previous, next, previous', next'); }
    }
  }

  // ---------------------------------------------------------------- custodian transition

  function Sha2to1(c: Crypto, a: Digest, b: Digest): Digest { c.sha256(a + b) }

  function CustodianTransition(c: Crypto, oldOut: ReturnOutput, newOut: ReturnOutput, oldConfig: Digest, newConfig: Digest)
    : Digest
  {
    Sha2to1(c, Sha2to1(c, c.sha256(oldOut), c.sha256(newOut)), Sha2to1(c, oldConfig, newConfig))
  }

  /** `sha256_2to1`: two updates of one hasher. */
  method HashPair(c: Crypto, a: Digest, b: Digest) returns (d: Digest)
    ensures d == Sha2to1(c, a, b) == c.sha256(a + b)
  {
    var hasher := new Hasher();
    hasher.Update(a);
    hasher.Update(b);
    assert hasher.absorbed == a + b;
    d := c.sha256(hasher.absorbed);
  }

  method CustodianTransitionPublicInputs(c: Crypto, oldOut: ReturnOutput, newOut: ReturnOutput, oldConfig: Digest,
                                         newConfig: Digest) returns (publicInputs: Digest)
    ensures publicInputs == CustodianTransition(c, oldOut, newOut, oldConfig, newConfig)
    ensures publicInputs == c.sha256(c.sha256(c.sha256(oldOut) + c.sha256(newOut)) + c.sha256(oldConfig + newConfig))
  {
    var outputs := HashPair(c, c.sha256(oldOut), c.sha256(newOut));
    var configs := HashPair(c, oldConfig, newConfig);
    publicInputs := HashPair(c, outputs, configs);
  }

  /** Equal pair hashes have equal pairs, or the pairs collide. */
  lemma PairCommits(c: Crypto, a: Digest, b: Digest, a': Digest, b': Digest)
    requires Sha2to1(c, a, b) == Sha2to1(c, a', b')
    ensures (a == a' && b == b') || Collide(c, a + b, a' + b')
  {
    if a + b == a' + b' { SplitEqual(a, b, a', b'); }
  }

  lemma CustodianTransitionCommits(c: Crypto, oldOut: ReturnOutput, newOut: ReturnOutput, oldConfig: Digest,
                                   newConfig: Digest, oldOut': ReturnOutput, newOut': ReturnOutput,
                                   oldConfig': Digest, newConfig': Digest)
    requires CustodianTransition(c, oldOut, newOut, oldConfig, newConfig)
          == CustodianTransition(c, oldOut', newOut', oldConfig', newConfig')
    ensures (oldOut == oldOut' && newOut == newOut' && oldConfig == oldConfig' && newConfig == newConfig')
            || Collide(c, oldOut, oldOut') || Collide(c, newOut, newOut')
            || Collide(c, c.sha256(oldOut) + c.sha256(newOut), c.sha256(oldOut') + c.sha256(newOut'))
            || Collide(c, oldConfig + newConfig, oldConfig' + newConfig')
            || Collide(c, Sha2to1(c, c.sha256(oldOut), c.sha256(newOut)) + Sha2to1(c, oldConfig, newConfig),
                          Sha2to1(c, c.sha256(oldOut'), c.sha256(newOut')) + Sha2to1(c, oldConfig', newConfig'))
  {
    var (r, k) := (Sha2to1(c, c.sha256(oldOut), c.sha256(newOut)), Sha2to1(c, oldConfig, newConfig));
    var (r', k') := (Sha2to1(c, c.sha256(oldOut'), c.sha256(newOut')), Sha2to1(c, oldConfig', newConfig'));
    PairCommits(c, r, k, r', k');
    if r == r' && k == k' {
      PairCommits(c, c.sha256(oldOut), c.sha256(newOut), c.sha256(oldOut'), c.sha256(newOut'));
      PairCommits(c, oldConfig, newConfig, oldConfig', newConfig');
    }
  }

  // ---------------------------------------------------------------- manual claim

  datatype ManualClaim = ManualClaim(
    recentBlockRoot: Digest,
    recentAutoClaimRoot: Digest,
    oldManualRoot: Digest,
    newManualRoot: Digest,
    txHash: Digest,
    userAta: Digest,
    custodian: Digest,
    combinedIndex: U64,
    amountSats: U64)
  {
    function RecentInfo(c: Crypto): Digest { Sha2to1(c, recentBlockRoot, recentAutoClaimRoot) }

    function Transition(c: Crypto): Digest { Sha2to1(c, oldManualRoot, newManualRoot) }

    function Roots(c: Crypto): Digest { Sha2to1(c, RecentInfo(c), Transition(c)) }

    /** What is hashed into the transaction info. */
    function TxPreimage(): seq<Byte> { txHash + userAta + LeBytes(combinedIndex, 8) + LeBytes(amountSats, 8) }

    function TopPreimage(c: Crypto): seq<Byte> { Roots(c) + c.sha256(TxPreimage()) + custodian }

    function PublicInputs(c: Crypto): Digest { c.sha256(TopPreimage(c)) }
  }

  /** The four hashers: the roots in two pairs and the pair of those; the transaction, the user's account, the
      index and then the amount, both little-endian; and those two with the custodian. */
  method ManualClaimPublicInputs(c: Crypto, m: ManualClaim) returns (publicInputs: Digest)
    ensures publicInputs == m.PublicInputs(c)
    ensures publicInputs ==
              c.sha256(c.sha256(c.sha256(m.recentBlockRoot + m.recentAutoClaimRoot) + c.sha256(m.oldManualRoot + m.newManualRoot))
                       + c.sha256(m.txHash + m.userAta + LeBytes(m.combinedIndex, 8) + LeBytes(m.amountSats, 8))
                       + m.custodian)
  {
    var recentInfo := HashPair(c, m.recentBlockRoot, m.recentAutoClaimRoot);
    var transition := HashPair(c, m.oldManualRoot, m.newManualRoot);
    var roots := HashPair(c, recentInfo, transition);
    var hasher := new Hasher();
    hasher.Update(m.txHash);
    hasher.Update(m.userAta);
    hasher.Update(LeBytes(m.combinedIndex, 8));
    hasher.Update(LeBytes(m.amountSats, 8));
    assert hasher.absorbed == m.TxPreimage();
    var txInfo := c.sha256(hasher.absorbed);
    hasher := new Hasher();
    hasher.Update(roots);
    hasher.Update(txInfo);
    hasher.Update(m.custodian);
    assert hasher.absorbed == m.TopPreimage(c);
    publicInputs := c.sha256(hasher.absorbed);
  }

  lemma EightBytes(b: seq<Byte>)
    requires |b| == 8
    ensures FromLe(b) < 0x1_0000_0000_0000_0000 && LeBytes(FromLe(b), 8) == b
  {
    LeInverse(b);
    assert Pow256(8) == 0x1_0000_0000_0000_0000;
  }

  lemma SameU64(m: U64, n: U64)
    requires LeBytes(m, 8) == LeBytes(n, 8)
    ensures m == n
  {
    assert Pow256(8) == 0x1_0000_0000_0000_0000;
    LeRoundTrip(m, 8);
    LeRoundTrip(n, 8);
  }

  lemma TxPreimageInjective(m: ManualClaim, n: ManualClaim)
    requires m.TxPreimage() == n.TxPreimage()
    ensures m.txHash == n.txHash && m.userAta == n.userAta
    ensures m.combinedIndex == n.combinedIndex && m.amountSats == n.amountSats
  {
    var (mi, ni) := (LeBytes(m.combinedIndex, 8), LeBytes(n.combinedIndex, 8));
    SplitEqual(m.txHash + m.userAta + mi, LeBytes(m.amountSats, 8), n.txHash + n.userAta + ni, LeBytes(n.amountSats, 8));
    SplitEqual(m.txHash + m.userAta, mi, n.txHash + n.userAta, ni);
    SplitEqual(m.txHash, m.userAta, n.txHash, n.userAta);
    SameU64(m.combinedIndex, n.combinedIndex);
    SameU64(m.amountSats, n.amountSats);
  }

  /** Equal outputs have equal claims, or two preimages at one of the five nodes collide. */
  lemma ManualClaimCommits(c: Crypto, m: ManualClaim, n: ManualClaim)
    requires m.PublicInputs(c) == n.PublicInputs(c)
    ensures
      || m == n
      || Collide(c, m.recentBlockRoot + m.recentAutoClaimRoot, n.recentBlockRoot + n.recentAutoClaimRoot)
      || Collide(c, m.oldManualRoot + m.newManualRoot, n.oldManualRoot + n.newManualRoot)
      || Collide(c, c.sha256(m.recentBlockRoot + m.recentAutoClaimRoot) + c.sha256(m.oldManualRoot + m.newManualRoot),
                    c.sha256(n.recentBlockRoot + n.recentAutoClaimRoot) + c.sha256(n.oldManualRoot + n.newManualRoot))
      || Collide(c, m.txHash + m.userAta + LeBytes(m.combinedIndex, 8) + LeBytes(m.amountSats, 8),
                    n.txHash + n.userAta + LeBytes(n.combinedIndex, 8) + LeBytes(n.amountSats, 8))
      || Collide(c, m.Roots(c) + c.sha256(m.TxPreimage()) + m.custodian, n.Roots(c) + c.sha256(n.TxPreimage()) + n.custodian)
  {
    if m.TopPreimage(c) == n.TopPreimage(c) {
      var (mt, nt) := (c.sha256(m.TxPreimage()), c.sha256(n.TxPreimage()));
      SplitEqual(m.Roots(c) + mt, m.custodian, n.Roots(c) + nt, n.custodian);
      SplitEqual(m.Roots(c), mt, n.Roots(c), nt);
      if m.TxPreimage() == n.TxPreimage() { TxPreimageInjective(m, n); }
      PairCommits(c, m.RecentInfo(c), m.Transition(c), n.RecentInfo(c), n.Transition(c));
      if m.RecentInfo(c) == n.RecentInfo(c) && m.Transition(c) == n.Transition(c) {
        PairCommits(c, m.recentBlockRoot, m.recentAutoClaimRoot, n.recentBlockRoot, n.recentAutoClaimRoot);
        PairCommits(c, m.oldManualRoot, m.newManualRoot, n.oldManualRoot, n.newManualRoot);
      }
    }
  }

  // ---------------------------------------------------------------- the manual-claim guest

  /** The 240-byte layout. */
  function Layout(m: ManualClaim): seq<Byte> {
    m.recentBlockRoot + m.recentAutoClaimRoot + m.oldManualRoot + m.newManualRoot + m.txHash + m.userAta + m.custodian
    + LeBytes(m.combinedIndex, 8) + LeBytes(m.amountSats, 8)
  }

  /** The guest's input and the shared offset that `take_array` advances. */
  class Cursor {
    const input: seq<Byte>
    var offset: nat

    constructor (input: seq<Byte>)
      ensures this.input == input && offset == 0
    {
      this.input, offset := input, 0;
    }

    method TakeArray(n: nat) returns (value: seq<Byte>)
      requires offset + n <= |input|
      modifies this
      ensures offset == old(offset) + n && |value| == n
      ensures value == input[old(offset)..offset]
    {
      var end := offset + n;
      value := input[offset..end];
      offset := end;
    }
  }

  /** The claim an input of the right length lays out. */
  function ReadLayout(input: seq<Byte>): ManualClaim
    requires |input| == MANUAL_CLAIM_INPUT_SIZE
  {
    EightBytes(input[224..232]); EightBytes(input[232..]);
    ManualClaim(input[..32], input[32..64], input[64..96], input[96..128], input[128..160], input[160..192],
                input[192..224], FromLe(input[224..232]), FromLe(input[232..]))
  }

  /** The nodes of the claim that an input lays out, by the bytes of the input. */
  lemma NodesOfRead(c: Crypto, input: seq<Byte>)
    requires |input| == 240
    ensures var m := ReadLayout(input);
            && m.recentBlockRoot + m.recentAutoClaimRoot == input[..64]
            && m.oldManualRoot + m.newManualRoot == input[64..128]
            && m.txHash + m.userAta + LeBytes(m.combinedIndex, 8) + LeBytes(m.amountSats, 8) == input[128..192] + input[224..]
            && m.TxPreimage() == input[128..192] + input[224..] && m.custodian == input[192..224]
            && m.Roots(c) == c.sha256(c.sha256(input[..64]) + c.sha256(input[64..128]))
  {
    var m := ReadLayout(input);
    TxOfRead(input);
    Adjacent(input, 0, 32, 64);
    Adjacent(input, 64, 96, 128);
    assert m.recentBlockRoot == input[0..32] && input[..64] == input[0..64];
    assert m.RecentInfo(c) == c.sha256(input[..64]) && m.Transition(c) == c.sha256(input[64..128]);
  }

  lemma Adjacent(input: seq<Byte>, a: nat, b: nat, d: nat)
    requires a <= b <= d <= |input|
    ensures input[a..b] + input[b..d] == input[a..d]
  {
  }

  lemma TwoPairs(a: seq<Byte>, b: seq<Byte>, x: seq<Byte>, y: seq<Byte>)
    ensures a + b + x + y == (a + b) + (x + y)
  {
  }

  lemma TailsAlike(input: seq<Byte>)
    requires |input| == 240
    ensures input[232..240] == input[232..] && input[224..240] == input[224..]
  {
  }

  lemma TxOfRead(input: seq<Byte>)
    requires |input| == 240
    ensures var m := ReadLayout(input);
            m.txHash + m.userAta + LeBytes(m.combinedIndex, 8) + LeBytes(m.amountSats, 8) == input[128..192] + input[224..]
  {
    EightBytes(input[224..232]);
    EightBytes(input[232..]);
    Adjacent(input, 128, 160, 192);
    Adjacent(input, 224, 232, 240);
    TailsAlike(input);
    TwoPairs(input[128..160], input[160..192], input[224..232], input[232..]);
  }

  lemma EndsAlike(input: seq<Byte>)
    requires |input| == 240
    ensures input[0..32] == input[..32] && input[232..240] == input[232..]
  {
  }

  /** What the guest hashes, by the bytes of its input: the four roots in pairs, the transaction and the user's
      account with the last sixteen bytes, and the custodian last. */
  lemma CommittedBytes(c: Crypto, input: seq<Byte>)
    requires |input| == 240
    ensures ReadLayout(input).PublicInputs(c) ==
              c.sha256(c.sha256(c.sha256(input[..64]) + c.sha256(input[64..128]))
                       + c.sha256(input[128..192] + input[224..240]) + input[192..224])
  {
    NodesOfRead(c, input);
    assert input[224..] == input[224..240];
  }

  /** `main`; None is the failed length assertion. */
  method Guest(c: Crypto, input: seq<Byte>) returns (committed: Option<Digest>)
    ensures |input| != 240 ==> committed == None
    ensures |input| == 240 ==>
              committed == Some(c.sha256(c.sha256(c.sha256(input[..64]) + c.sha256(input[64..128]))
                                         + c.sha256(input[128..192] + input[224..240]) + input[192..224]))
    ensures |input| == 240 ==> committed == Some(ReadLayout(input).PublicInputs(c))
  {
    if |input| != MANUAL_CLAIM_INPUT_SIZE { return None; }
    var cursor := new Cursor(input);
    var recentBlockRoot := cursor.TakeArray(HASH_SIZE);
    var recentAutoClaimRoot := cursor.TakeArray(HASH_SIZE);
    var oldManualRoot := cursor.TakeArray(HASH_SIZE);
    var newManualRoot := cursor.TakeArray(HASH_SIZE);
    var txHash := cursor.TakeArray(HASH_SIZE);
    var userAta := cursor.TakeArray(HASH_SIZE);
    var custodian := cursor.TakeArray(HASH_SIZE);
    var index := cursor.TakeArray(8);
    var amount := cursor.TakeArray(8);
    assert cursor.offset == |input|;
    EightBytes(index);
    EightBytes(amount);
    var m := ManualClaim(recentBlockRoot, recentAutoClaimRoot, oldManualRoot, newManualRoot, txHash, userAta, custodian,
                         FromLe(index), FromLe(amount));
    EndsAlike(input);
    assert m == ReadLayout(input);
    CommittedBytes(c, input);
    var publicInputs := ManualClaimPublicInputs(c, m);
    return Some(publicInputs);
  }

  /** The cursor loses nothing: laying out what it read gives the input back. */
  lemma LayoutOfRead(input: seq<Byte>)
    requires |input| == MANUAL_CLAIM_INPUT_SIZE
    ensures Layout(ReadLayout(input)) == input
  {
    EightBytes(input[224..232]);
    EightBytes(input[232..]);
    assert input == input[..32] + input[32..64] + input[64..96] + input[96..128] + input[128..160] + input[160..192]
                    + input[192..224] + input[224..232] + input[232..];
  }

  lemma ReadOfLayout(m: ManualClaim)
    ensures ReadLayout(Layout(m)) == m
  {
    var a := Layout(m);
    assert a[..32] == m.recentBlockRoot && a[32..64] == m.recentAutoClaimRoot && a[64..96] == m.oldManualRoot;
    assert a[96..128] == m.newManualRoot && a[128..160] == m.txHash && a[160..192] == m.userAta;
    assert a[192..224] == m.custodian && a[224..232] == LeBytes(m.combinedIndex, 8);
    assert a[232..] == LeBytes(m.amountSats, 8);
    assert Pow256(8) == 0x1_0000_0000_0000_0000;
    LeRoundTrip(m.combinedIndex, 8);
    LeRoundTrip(m.amountSats, 8);
  }

  /** Two accepted inputs with one committed value are the same 240 bytes, or bytes of theirs collide. */
  lemma GuestCommits(c: Crypto, input: seq<Byte>, input': seq<Byte>)
    requires |input| == |input'| == 240
    requires ReadLayout(input).PublicInputs(c) == ReadLayout(input').PublicInputs(c)
    ensures var roots := c.sha256(input[..64]) + c.sha256(input[64..128]);
            var roots' := c.sha256(input'[..64]) + c.sha256(input'[64..128]);
            var (tx, tx') := (input[128..192] + input[224..], input'[128..192] + input'[224..]);
            || input == input'
            || Collide(c, input[..64], input'[..64]) || Collide(c, input[64..128], input'[64..128])
            || Collide(c, roots, roots') || Collide(c, tx, tx')
            || Collide(c, c.sha256(roots) + c.sha256(tx) + input[192..224], c.sha256(roots') + c.sha256(tx') + input'[192..224])
  {
    var (m, n) := (ReadLayout(input), ReadLayout(input'));
    ManualClaimCommits(c, m, n);
    LayoutOfRead(input);
    LayoutOfRead(input');
    NodesOfRead(c, input);
    NodesOfRead(c, input');
  }
}
