/** The keys of a sequence's blocks (vllm/sequence.py): `get_prefix_token_ids` and `hash_of_block`. */
module BlockKeys {
  import opened Prelude
  import opened TokenState

  datatype Key = Key(prompt: seq<Token>, output: Option<seq<Token>>)

  function PrefixTokenIds(d: Data, n: nat): Key {
    if n > |d.prompt| then Key(d.prompt, Some(Take(d.output, n - |d.prompt|))) else Key(d.prompt[..n], None)
  }

  function HashedTokens(block: nat, blockSize: nat): nat {
    block * blockSize + blockSize
  }

  /** What is hashed for a block, together with the LoRA id. */
  function BlockKey(d: Data, block: nat, blockSize: nat): Key {
    PrefixTokenIds(d, HashedTokens(block, blockSize))
  }

  /** Keys are equal exactly when the tokens are, as far as there are any, and neither prompt ends within the
      prefix unless both end at the same place: a prefix split differently between prompt and output gets another
      key. */
  lemma {:induction false} KeysEqualIff(a: Data, b: Data, n: nat)
    ensures PrefixTokenIds(a, n) == PrefixTokenIds(b, n) <==>
            && Take(a.prompt + a.output, n) == Take(b.prompt + b.output, n)
            && (|a.prompt| == |b.prompt| || (n <= |a.prompt| && n <= |b.prompt|))
  {
    PrefixSplits(a, n);
    PrefixSplits(b, n);
    if |a.prompt| == |b.prompt| < n {
      var ta, tb, m := Take(a.prompt + a.output, n), Take(b.prompt + b.output, n), |a.prompt|;
      assert ta == tb <==> ta[..m] == tb[..m] && ta[m..] == tb[m..] by {
        assert ta == ta[..m] + ta[m..] && tb == tb[..m] + tb[m..];
      }
    }
  }

  lemma {:induction false} PrefixSplits(d: Data, n: nat)
    ensures var t := Take(d.prompt + d.output, n);
            if n > |d.prompt| then
              |t| >= |d.prompt| && PrefixTokenIds(d, n) == Key(t[..|d.prompt|], Some(t[|d.prompt|..]))
            else PrefixTokenIds(d, n) == Key(t, None)
  {
    var t := Take(d.prompt + d.output, n);
    if n > |d.prompt| {
      assert t[|d.prompt|..] == Take(d.output, n - |d.prompt|);
    }
  }

  lemma {:induction false} EarlierPrefix(a: Data, b: Data, n: nat, n': nat)
    requires n' <= n && PrefixTokenIds(a, n) == PrefixTokenIds(b, n)
    ensures PrefixTokenIds(a, n') == PrefixTokenIds(b, n')
  {
    if n' > |a.prompt| {
      TakeTwice(a.output, n - |a.prompt|, n' - |a.prompt|);
      TakeTwice(b.output, n - |a.prompt|, n' - |a.prompt|);
    }
  }

  lemma {:induction false} TakeTwice<T>(xs: seq<T>, n: nat, n': nat)
    requires n' <= n
    ensures Take(Take(xs, n), n') == Take(xs, n')
  {
  }

  lemma {:induction false} EarlierBlock(blockSize: nat, k: nat, j: nat)
    requires j <= k
    ensures HashedTokens(j, blockSize) <= HashedTokens(k, blockSize)
  {
    assert (k - j) * blockSize >= 0;
  }

  /** The key of a block tells apart exactly the sequences that differ in the tokens up to the end of that block, as far
      as there are any, or in where the prompt ends among them. */
  lemma {:induction false} BlockKeysEqualIff(a: Data, b: Data, blockSize: nat, k: nat)
    ensures var n := (k + 1) * blockSize;
            BlockKey(a, k, blockSize) == BlockKey(b, k, blockSize) <==>
            && Take(a.prompt + a.output, n) == Take(b.prompt + b.output, n)
            && (|a.prompt| == |b.prompt| || (n <= |a.prompt| && n <= |b.prompt|))
  {
    assert HashedTokens(k, blockSize) == (k + 1) * blockSize;
    KeysEqualIff(a, b, (k + 1) * blockSize);
  }

  /** Equal keys at a block mean equal keys and equal tokens at every earlier block, whole or not. */
  lemma {:induction false} KeysArePrefixClosed(a: Data, b: Data, blockSize: nat, k: nat, j: nat)
    requires j <= k && BlockKey(a, k, blockSize) == BlockKey(b, k, blockSize)
    ensures BlockKey(a, j, blockSize) == BlockKey(b, j, blockSize)
    ensures Take(a.prompt + a.output, (j + 1) * blockSize) == Take(b.prompt + b.output, (j + 1) * blockSize)
  {
    EarlierBlock(blockSize, k, j);
    EarlierPrefix(a, b, HashedTokens(k, blockSize), HashedTokens(j, blockSize));
    BlockKeysEqualIff(a, b, blockSize, j);
  }
}
