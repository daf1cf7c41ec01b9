/** The streaming n-gram hash that picks the table rows for each token: eight heads over the
    current and previous token, eight more that also look at the one before. */
module NgramHash {
  import opened Contracts

  const HEADS: nat := 16
  const HEADS_PER_NGRAM: nat := 8

  /** `bigram` mixes a token with its predecessor, `trigram` mixes that value with the token before. */
  datatype HashConfig = HashConfig(
    vocabulary: nat, eos: nat, headSizes: seq<nat>, headOffsets: seq<nat>,
    bigram: (int, int) -> nat, trigram: (nat, int) -> nat)

  /** One nonempty row range per head. */
  predicate Sized(c: HashConfig) {
    |c.headSizes| == HEADS && |c.headOffsets| == HEADS && forall h :: 0 <= h < HEADS ==> 0 < c.headSizes[h]
  }

  /** The last two tokens seen. */
  datatype Context = Context(older: Token, newer: Token)

  function Start(c: HashConfig): Context { Context(c.eos, c.eos) }

  function After(h: Context, tokens: seq<Token>): Context {
    if tokens == [] then h
    else Context(After(h, tokens[..|tokens| - 1]).newer, tokens[|tokens| - 1])
  }

  /** Row of one head for `token` in context `h`. Behind an end-of-sequence token the context is cut. */
  function RowAt(c: HashConfig, h: Context, token: Token, head: nat): nat
    requires Sized(c) && head < HEADS
  {
    var pair := c.bigram(token, h.newer);
    var value := if head < HEADS_PER_NGRAM then pair else c.trigram(pair, if h.newer == c.eos then c.eos else h.older);
    value % c.headSizes[head] + c.headOffsets[head]
  }

  function TokenRows(c: HashConfig, h: Context, token: Token): (rows: seq<nat>)
    requires Sized(c)
    ensures |rows| == HEADS
    ensures forall i :: 0 <= i < HEADS ==> rows[i] == RowAt(c, h, token, i)
  {
    seq(HEADS, i requires 0 <= i < HEADS => RowAt(c, h, token, i))
  }

  function RowsOf(c: HashConfig, h: Context, tokens: seq<Token>): (rows: seq<nat>)
    requires Sized(c)
    ensures |rows| == HEADS * |tokens|
  {
    if tokens == [] then []
    else
      var n := |tokens| - 1;
      RowsOf(c, h, tokens[..n]) + TokenRows(c, After(h, tokens[..n]), tokens[n])
  }

  // ---------------------------------------------------------------------------
  // Laws of the stream.
  // ---------------------------------------------------------------------------

  lemma {:induction false} AfterConcat(h: Context, a: seq<Token>, b: seq<Token>)
    ensures After(h, a + b) == After(After(h, a), b)
  {
    if b == [] {
      assert a + b == a;
    } else {
      assert (a + b)[..|a + b| - 1] == a + b[..|b| - 1];
      AfterConcat(h, a, b[..|b| - 1]);
    }
  }

  /** Hashing a history in pieces gives the rows of hashing it at once. */
  lemma {:induction false} RowsConcat(c: HashConfig, h: Context, a: seq<Token>, b: seq<Token>)
    requires Sized(c)
    ensures RowsOf(c, h, a + b) == RowsOf(c, h, a) + RowsOf(c, After(h, a), b)
  {
    if b == [] {
      assert a + b == a;
    } else {
      var n := |b| - 1;
      assert (a + b)[..|a + b| - 1] == a + b[..n];
      RowsConcat(c, h, a, b[..n]);
      AfterConcat(h, a, b[..n]);
    }
  }

  /** Only the last two tokens matter. */
  lemma ContextIsLastTwo(h: Context, tokens: seq<Token>)
    requires 2 <= |tokens|
    ensures After(h, tokens) == Context(tokens[|tokens| - 2], tokens[|tokens| - 1])
  {
    assert tokens[..|tokens| - 1][|tokens| - 2] == tokens[|tokens| - 2];
  }

  /** Contexts the hash cannot tell apart. */
  predicate Alike(c: HashConfig, a: Context, b: Context) {
    a.newer == b.newer && (a.newer == c.eos || a.older == b.older)
  }

  lemma {:induction false} AlikeRows(c: HashConfig, a: Context, b: Context, tokens: seq<Token>)
    requires Sized(c) && Alike(c, a, b)
    ensures RowsOf(c, a, tokens) == RowsOf(c, b, tokens) && Alike(c, After(a, tokens), After(b, tokens))
  {
    if tokens != [] {
      var n := |tokens| - 1;
      AlikeRows(c, a, b, tokens[..n]);
      var x, y := After(a, tokens[..n]), After(b, tokens[..n]);
      assert TokenRows(c, x, tokens[n]) == TokenRows(c, y, tokens[n]);
    }
  }

  /** Whatever came before an end-of-sequence token, the tokens behind it hash as in a new session. */
  lemma EosIsolates(c: HashConfig, h: Context, before: seq<Token>, behind: seq<Token>)
    requires Sized(c)
    ensures RowsOf(c, h, before + [c.eos] + behind) == RowsOf(c, h, before + [c.eos]) + RowsOf(c, Start(c), behind)
  {
    RowsConcat(c, h, before + [c.eos], behind);
    AlikeRows(c, After(h, before + [c.eos]), Start(c), behind);
  }

  /** Where each row of a batch comes from. */
  lemma {:induction false} RowOfBatch(c: HashConfig, h: Context, tokens: seq<Token>, k: nat)
    requires Sized(c) && k < HEADS * |tokens|
    ensures RowsOf(c, h, tokens)[k] == RowAt(c, After(h, tokens[..k / HEADS]), tokens[k / HEADS], k % HEADS)
    decreases |tokens|
  {
    var n := |tokens| - 1;
    if k < HEADS * n {
      RowOfBatch(c, h, tokens[..n], k);
      assert tokens[..n][..k / HEADS] == tokens[..k / HEADS];
    }
  }

  /** Said of the tokens alone: token `t` of a batch stands behind the two before it, those of
      the context first. Heads 0 to 7 hash it with its predecessor, heads 8 to 15 also with the
      token before that, unless the predecessor ends a sequence. */
  lemma RowValue(c: HashConfig, h: Context, tokens: seq<Token>, t: nat, head: nat)
    requires Sized(c) && t < |tokens| && head < HEADS
    ensures var seen := [h.older, h.newer] + tokens;
            var pair := c.bigram(seen[t + 2], seen[t + 1]);
            var far := if seen[t + 1] == c.eos then c.eos else seen[t];
            && HEADS * t + head < |RowsOf(c, h, tokens)|
            && RowsOf(c, h, tokens)[HEADS * t + head]
               == c.headOffsets[head] + (if head < 8 then pair else c.trigram(pair, far)) % c.headSizes[head]
  {
    var seen := [h.older, h.newer] + tokens;
    RowOfBatch(c, h, tokens, HEADS * t + head);
    assert (HEADS * t + head) / HEADS == t && (HEADS * t + head) % HEADS == head;
    SeenBefore(h, tokens, t);
  }

  lemma SeenBefore(h: Context, tokens: seq<Token>, t: nat)
    requires t < |tokens|
    ensures var seen := [h.older, h.newer] + tokens; After(h, tokens[..t]) == Context(seen[t], seen[t + 1])
  {
    if t == 1 {
      assert tokens[..1] == [tokens[0]];
    } else if t >= 2 {
      ContextIsLastTwo(h, tokens[..t]);
    }
  }

  /** Heads 0 to 7 do not see the token two back. */
  lemma NearHeadsIgnoreFar(c: HashConfig, h: Context, a: Token, b: Token, newer: Token, token: Token, head: nat)
    requires Sized(c) && head < 8
    ensures RowsOf(c, h, [a, newer, token])[HEADS * 2 + head] == RowsOf(c, h, [b, newer, token])[HEADS * 2 + head]
  {
    RowValue(c, h, [a, newer, token], 2, head);
    RowValue(c, h, [b, newer, token], 2, head);
  }

  /** Heads 8 to 15 do, where the predecessor is no end of sequence: two tokens there give the
      same row exactly if the third mixing step cannot tell them apart modulo the head's size. */
  lemma FarHeadsSeeFar(c: HashConfig, h: Context, a: Token, b: Token, newer: Token, token: Token, head: nat)
    requires Sized(c) && 8 <= head < HEADS && newer != c.eos
    ensures var pair := c.bigram(token, newer);
            RowsOf(c, h, [a, newer, token])[HEADS * 2 + head] == RowsOf(c, h, [b, newer, token])[HEADS * 2 + head]
            <==> c.trigram(pair, a) % c.headSizes[head] == c.trigram(pair, b) % c.headSizes[head]
  {
    RowValue(c, h, [a, newer, token], 2, head);
    RowValue(c, h, [b, newer, token], 2, head);
  }

  /** And there are configurations that tell them apart. */
  lemma SomeConfigurationSeesFar(h: Context, head: nat) returns (c: HashConfig)
    requires 8 <= head < HEADS
    ensures Sized(c) && c.eos != 5
    ensures RowsOf(c, h, [1, 5, 7])[HEADS * 2 + head] != RowsOf(c, h, [2, 5, 7])[HEADS * 2 + head]
  {
    c := HashConfig(10, 0, seq(HEADS, i => 10), seq(HEADS, i => 10 * i),
                    (t, n) => 0, (pair, o) => if o < 0 then 0 else o);
    FarHeadsSeeFar(c, h, 1, 2, 5, 7, head);
  }

  // ---------------------------------------------------------------------------
  // The object.
  // ---------------------------------------------------------------------------

  class PleHashState {
    const config: HashConfig
    var previous: Context

    constructor (config: HashConfig, previous: Context)
      ensures this.config == config && this.previous == previous
    {
      this.config, this.previous := config, previous;
    }

    method Reset()
      modifies this
      ensures previous == Start(config)
    {
      previous := Context(config.eos, config.eos);
    }

    /** Hashes a batch, or refuses it whole: one bad token and nothing is hashed. */
    method Rows(tokens: seq<Token>) returns (r: Result<seq<nat>>)
      requires Sized(config)
      modifies this
      ensures r.Ok? <==> InVocabulary(tokens, config.vocabulary)
      ensures r.Ok? ==> r.value == RowsOf(config, old(previous), tokens) && previous == After(old(previous), tokens)
      ensures r.Ok? ==>
                var seen := [old(previous).older, old(previous).newer] + tokens;
                previous == Context(seen[|tokens|], seen[|tokens| + 1])
      ensures r.Err? ==> previous == old(previous)
    {
      for i := 0 to |tokens|
        invariant previous == old(previous) && InVocabulary(tokens[..i], config.vocabulary)
      {
        if tokens[i] < 0 || tokens[i] >= config.vocabulary { return Err(RuntimeError); }
      }
      var result: seq<nat> := [];
      var older, newer := previous.older, previous.newer;
      for i := 0 to |tokens|
        invariant previous == old(previous) && result == RowsOf(config, previous, tokens[..i])
        invariant Context(older, newer) == After(previous, tokens[..i])
      {
        var rows := HeadRows(tokens[i], older, newer);
        assert tokens[..i + 1][..i] == tokens[..i];
        result := result + rows;
        older, newer := newer, tokens[i];
      }
      assert tokens[..|tokens|] == tokens;
      if tokens != [] { SeenBefore(old(previous), tokens + [0], |tokens|); }
      assert (tokens + [0])[..|tokens|] == tokens;
      previous := Context(older, newer);
      r := Ok(result);
    }

    method HeadRows(current: Token, older: Token, newer: Token) returns (rows: seq<nat>)
      requires Sized(config)
      ensures rows == TokenRows(config, Context(older, newer), current)
    {
      var previous2 := if newer == config.eos then config.eos else older;
      var bigram := config.bigram(current, newer);
      var trigram := config.trigram(bigram, previous2);
      rows := [];
      for head := 0 to HEADS_PER_NGRAM
        invariant |rows| == head && forall i :: 0 <= i < head ==>
                    rows[i] == RowAt(config, Context(older, newer), current, i)
      {
        rows := rows + [bigram % config.headSizes[head] + config.headOffsets[head]];
      }
      for head := HEADS_PER_NGRAM to HEADS
        invariant |rows| == head && forall i :: 0 <= i < head ==>
                    rows[i] == RowAt(config, Context(older, newer), current, i)
      {
        rows := rows + [trigram % config.headSizes[head] + config.headOffsets[head]];
      }
    }
  }
}
