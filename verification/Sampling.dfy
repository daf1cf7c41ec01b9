/** The sampler's transactional state: a decision is prepared without touching it and
    committed only after both stages have. */
module Sampling {
  import opened Contracts

  /** Everything floating point: which candidate wins, stepping the generator, mixing the
      running checksum. `choose` gives nothing when no candidate is finite. */
  datatype SamplerModel = SamplerModel(
    vocabulary: Positive, sampled: bool, seed: U64,
    choose: (Token, seq<nat>, seq<Token>, nat) -> Option<nat>,
    nextRng: nat -> U64,
    mixPenalty: (nat, Token, nat) -> U64)
  {
    /** Candidates are enumerated from the vocabulary, so a pick lies inside it. */
    function Pick(logits: Token, counts: seq<nat>, extra: seq<Token>, rng: nat): (r: Option<Token>)
      ensures r.Some? ==> 0 <= r.value < vocabulary
    {
      match choose(logits, counts, extra, rng)
      case None => None
      case Some(i) => Some(i % vocabulary)
    }
  }

  datatype Decision = Decision(token: Token, rngBefore: U64, rngAfter: U64)

  datatype SamplerState = SamplerState(
    rng: U64, sampledTokens: nat, canonicalTokens: nat, penalty: U64, counts: seq<nat>)

  function Initial(m: SamplerModel): SamplerState {
    SamplerState(m.seed, 0, 0, 0, seq(m.vocabulary, i => 0))
  }

  function Counted(m: SamplerModel, s: SamplerState, token: Token): SamplerState
    requires 0 <= token < |s.counts|
  {
    s.(counts := s.counts[token := s.counts[token] + 1],
       canonicalTokens := s.canonicalTokens + 1,
       penalty := m.mixPenalty(s.penalty, token, s.canonicalTokens + 1))
  }

  /** The penalty state is a fold over the canonical tokens. */
  function CountedAll(m: SamplerModel, s: SamplerState, tokens: seq<Token>): (r: SamplerState)
    requires |s.counts| == m.vocabulary && InVocabulary(tokens, m.vocabulary)
    ensures |r.counts| == m.vocabulary && r.canonicalTokens == s.canonicalTokens + |tokens|
    ensures r.rng == s.rng && r.sampledTokens == s.sampledTokens
  {
    if tokens == [] then s
    else Counted(m, CountedAll(m, s, tokens[..|tokens| - 1]), tokens[|tokens| - 1])
  }

  lemma {:induction false} CountedAllConcat(m: SamplerModel, s: SamplerState, a: seq<Token>, b: seq<Token>)
    requires |s.counts| == m.vocabulary && InVocabulary(a, m.vocabulary) && InVocabulary(b, m.vocabulary)
    ensures InVocabulary(a + b, m.vocabulary)
    ensures CountedAll(m, s, a + b) == CountedAll(m, CountedAll(m, s, a), b)
  {
    if b == [] {
      assert a + b == a;
    } else {
      assert (a + b)[..|a + b| - 1] == a + b[..|b| - 1];
      CountedAllConcat(m, s, a, b[..|b| - 1]);
    }
  }

  /** The generator moves independently of the penalties. */
  lemma {:induction false} CountedAllRng(m: SamplerModel, s: SamplerState, tokens: seq<Token>, rng: U64, sampled: nat)
    requires |s.counts| == m.vocabulary && InVocabulary(tokens, m.vocabulary)
    ensures CountedAll(m, s.(rng := rng, sampledTokens := sampled), tokens)
         == CountedAll(m, s, tokens).(rng := rng, sampledTokens := sampled)
  {
    if tokens != [] { CountedAllRng(m, s, tokens[..|tokens| - 1], rng, sampled); }
  }

  /** Each counter ends at the number of occurrences of its token. */
  lemma {:induction false} CountsAreOccurrences(m: SamplerModel, s: SamplerState, tokens: seq<Token>, t: Token)
    requires |s.counts| == m.vocabulary && InVocabulary(tokens, m.vocabulary) && 0 <= t < m.vocabulary
    ensures CountedAll(m, s, tokens).counts[t] == s.counts[t] + multiset(tokens)[t]
  {
    if tokens != [] {
      CountsAreOccurrences(m, s, tokens[..|tokens| - 1], t);
      assert tokens == tokens[..|tokens| - 1] + [tokens[|tokens| - 1]];
    }
  }

  /** The checksum of the penalties takes in every token with its number. */
  lemma {:induction false} PenaltyTakesIn(m: SamplerModel, s: SamplerState, tokens: seq<Token>, t: Token)
    requires |s.counts| == m.vocabulary && InVocabulary(tokens, m.vocabulary) && 0 <= t < m.vocabulary
    ensures InVocabulary(tokens + [t], m.vocabulary)
    ensures CountedAll(m, s, tokens + [t]).penalty
         == m.mixPenalty(CountedAll(m, s, tokens).penalty, t, s.canonicalTokens + |tokens| + 1)
  {
    var all := tokens + [t];
    assert all[..|all| - 1] == tokens && all[|all| - 1] == t;
  }

  class TransactionalSampler {
    const m: SamplerModel
    var rngState: U64
    var sampledTokens: nat
    var canonicalTokens: nat
    var penaltyChecksum: U64
    var counts: seq<nat>

    function View(): SamplerState reads this {
      SamplerState(rngState, sampledTokens, canonicalTokens, penaltyChecksum, counts)
    }

    ghost predicate Valid() reads this { |counts| == m.vocabulary }

    constructor (m: SamplerModel)
      ensures this.m == m && Valid() && View() == Initial(m)
    {
      this.m := m;
      rngState, sampledTokens, canonicalTokens, penaltyChecksum := m.seed, 0, 0, 0;
      counts := seq(m.vocabulary, i => 0);
    }

    /** Chooses a token; nothing is consumed until the decision is committed. */
    method Prepare(logits: Option<Token>, extra: seq<Token>) returns (r: Result<Decision>)
      requires Valid()
      ensures r.Ok? ==> logits.Some? && m.Pick(logits.value, counts, extra, rngState) == Some(r.value.token)
                        && r.value == Decision(r.value.token, rngState, m.nextRng(rngState))
      ensures r.Err? <==> !m.sampled || logits.None? || !InVocabulary(extra, m.vocabulary)
                          || m.Pick(logits.value, counts, extra, rngState).None?
      ensures r.Err? && m.sampled ==>
                r.failure == if logits.None? || !InVocabulary(extra, m.vocabulary) then InvalidArgument
                             else RuntimeError
    {
      if !m.sampled { return Err(LogicError); }
      if logits.None? { return Err(InvalidArgument); }
      for i := 0 to |extra|
        invariant InVocabulary(extra[..i], m.vocabulary)
      {
        if extra[i] < 0 || extra[i] >= m.vocabulary { return Err(InvalidArgument); }
      }
      assert extra[..|extra|] == extra;
      var picked := m.Pick(logits.value, counts, extra, rngState);
      r := if picked.None? then Err(RuntimeError)
           else Ok(Decision(picked.value, rngState, m.nextRng(rngState)));
    }

    method Commit(d: Decision) returns (r: Result<()>)
      requires Valid()
      modifies this
      ensures Valid()
      ensures r.Ok? <==> m.sampled && 0 <= d.token < m.vocabulary
                         && d.rngBefore == old(rngState) && d.rngAfter == m.nextRng(d.rngBefore)
      ensures View() == if r.Ok? then old(View()).(rng := d.rngAfter, sampledTokens := old(sampledTokens) + 1)
                        else old(View())
    {
      if !m.sampled || d.token < 0 || d.token >= m.vocabulary || d.rngBefore != rngState
         || d.rngAfter != m.nextRng(d.rngBefore) {
        return Err(LogicError);
      }
      rngState, sampledTokens := d.rngAfter, sampledTokens + 1;
      r := Ok(());
    }

    method CommitToken(token: Token) returns (r: Result<()>)
      requires Valid()
      modifies this
      ensures Valid()
      ensures r.Ok? <==> 0 <= token < m.vocabulary
      ensures View() == if r.Ok? then Counted(m, old(View()), token) else old(View())
    {
      if token < 0 || token >= m.vocabulary { return Err(InvalidArgument); }
      counts := counts[token := counts[token] + 1];
      canonicalTokens := canonicalTokens + 1;
      penaltyChecksum := m.mixPenalty(penaltyChecksum, token, canonicalTokens);
      r := Ok(());
    }

    method CommitTokens(tokens: seq<Token>) returns (r: Result<()>)
      requires Valid()
      modifies this
      ensures Valid()
      ensures r.Ok? <==> InVocabulary(tokens, m.vocabulary)
      ensures r.Ok? ==> View() == CountedAll(m, old(View()), tokens)
      ensures r.Err? ==>
                exists k ::
                  0 <= k < |tokens| && InVocabulary(tokens[..k], m.vocabulary) && !(0 <= tokens[k] < m.vocabulary)
                            && View() == CountedAll(m, old(View()), tokens[..k])
    {
      for i := 0 to |tokens|
        invariant Valid() && InVocabulary(tokens[..i], m.vocabulary)
        invariant View() == CountedAll(m, old(View()), tokens[..i])
      {
        assert tokens[..i + 1][..i] == tokens[..i];
        r := CommitToken(tokens[i]);
        if r.Err? { return; }
      }
      assert tokens[..|tokens|] == tokens;
      r := Ok(());
    }

    method Reset()
      modifies this
      ensures Valid() && View() == Initial(m)
    {
      rngState, sampledTokens, canonicalTokens, penaltyChecksum := m.seed, 0, 0, 0;
      counts := seq(m.vocabulary, i => 0);
    }
  }
}
