/** How many matrix tiles the grouped expert kernel can need: tokens are routed to their top
    experts, and each expert's rows are cut into tiles of sixteen. */
module MoeTasks {
  import opened Contracts

  const EXPERTS: nat := 512
  const TOP_K: nat := 10
  const TILE_ROWS: nat := 16

  function Sum(counts: seq<nat>): nat {
    if counts == [] then 0 else Sum(counts[..|counts| - 1]) + counts[|counts| - 1]
  }

  function TilesOf(count: nat): nat { (count + TILE_ROWS - 1) / TILE_ROWS }

  function Tasks(counts: seq<nat>): nat {
    if counts == [] then 0 else Tasks(counts[..|counts| - 1]) + TilesOf(counts[|counts| - 1])
  }

  function Routes(tokens: U32): U32 { (tokens * TOP_K) % (U32_MAX + 1) }

  /** The closed form. */
  function MaxTasks(tokens: U32): nat { Bound(Routes(tokens), EXPERTS) }

  function Bound(routes: nat, experts: nat): nat {
    var active := if routes < experts then routes else experts;
    active + (routes - active) / TILE_ROWS
  }

  function Active(counts: seq<nat>): (n: nat)
    ensures n <= |counts|
  {
    if counts == [] then 0 else Active(counts[..|counts| - 1]) + if counts[|counts| - 1] == 0 then 0 else 1
  }

  lemma {:induction false} TasksByActive(counts: seq<nat>)
    ensures Active(counts) <= Sum(counts)
    ensures Tasks(counts) <= Active(counts) + (Sum(counts) - Active(counts)) / TILE_ROWS
  {
    if counts != [] { TasksByActive(counts[..|counts| - 1]); }
  }

  /** No distribution of the routes needs more tasks. */
  lemma NeverMore(counts: seq<nat>)
    ensures Tasks(counts) <= Bound(Sum(counts), |counts|)
  {
    TasksByActive(counts);
  }

  // ---------------------------------------------------------------------------
  // A distribution that needs as many.
  // ---------------------------------------------------------------------------

  /** One row for everybody, `q` full tiles handed out evenly, and `r` rows left for the last. */
  function CountAt(q: nat, r: nat, i: nat): nat {
    1 + TILE_ROWS * (q / EXPERTS + if i < q % EXPERTS then 1 else 0) + if i == EXPERTS - 1 then r else 0
  }

  function Spread(q: nat, r: nat): (counts: seq<nat>)
    ensures |counts| == EXPERTS && forall i :: 0 <= i < EXPERTS ==> counts[i] == CountAt(q, r, i)
  {
    seq(EXPERTS, i requires 0 <= i < EXPERTS => CountAt(q, r, i))
  }

  lemma CountFacts(q: nat, r: nat, i: nat, share: nat, extra: nat)
    requires share == q / EXPERTS && extra == q % EXPERTS && i < EXPERTS - 1
    ensures CountAt(q, r, i) == 1 + TILE_ROWS * (share + if i < extra then 1 else 0)
    ensures TilesOf(CountAt(q, r, i)) == 1 + share + if i < extra then 1 else 0
  {
  }

  /** `rows` is n times the share. */
  lemma {:induction false} SpreadPrefix(counts: seq<nat>, q: nat, r: nat, n: nat, share: nat, extra: nat, rows: nat)
    requires counts == Spread(q, r) && n < EXPERTS && share == q / EXPERTS && extra == q % EXPERTS && rows == n * share
    ensures Sum(counts[..n]) == n + TILE_ROWS * (rows + Min(n, extra))
    ensures Tasks(counts[..n]) == n + rows + Min(n, extra)
  {
    if n > 0 {
      assert (n - 1) * share == rows - share;
      SpreadPrefix(counts, q, r, n - 1, share, extra, rows - share);
      CountFacts(q, r, n - 1, share, extra);
      SumOneMore(counts, n);
    }
  }

  lemma SumOneMore(counts: seq<nat>, n: nat)
    requires 0 < n <= |counts|
    ensures Sum(counts[..n]) == Sum(counts[..n - 1]) + counts[n - 1]
    ensures Tasks(counts[..n]) == Tasks(counts[..n - 1]) + TilesOf(counts[n - 1])
  {
    assert counts[..n][..n - 1] == counts[..n - 1];
  }

  lemma SpreadTotals(q: nat, r: nat)
    requires r < TILE_ROWS
    ensures Sum(Spread(q, r)) == EXPERTS + TILE_ROWS * q + r && Tasks(Spread(q, r)) == EXPERTS + q
  {
    var counts := Spread(q, r);
    SpreadPrefix(counts, q, r, EXPERTS - 1, q / EXPERTS, q % EXPERTS, (EXPERTS - 1) * (q / EXPERTS));
    assert counts[..EXPERTS - 1] == counts[..|counts| - 1];
  }

  function Ones(n: nat): (counts: seq<nat>)
    requires n <= EXPERTS
    ensures |counts| == EXPERTS && forall i :: 0 <= i < EXPERTS ==> counts[i] == if i < n then 1 else 0
  {
    seq(EXPERTS, i => if i < n then 1 else 0)
  }

  lemma {:induction false} OnesPrefix(counts: seq<nat>, n: nat, k: nat)
    requires n <= EXPERTS && counts == Ones(n) && k <= EXPERTS
    ensures Sum(counts[..k]) == Min(k, n) == Tasks(counts[..k])
  {
    if k > 0 {
      OnesPrefix(counts, n, k - 1);
      assert counts[..k][..k - 1] == counts[..k - 1];
    }
  }

  lemma SpreadIsFair(tokens: nat, q: nat, r: nat, i: nat)
    requires tokens * TOP_K >= EXPERTS && q == (tokens * TOP_K - EXPERTS) / TILE_ROWS && r < TILE_ROWS && i < EXPERTS
    ensures CountAt(q, r, i) <= tokens
  {
    var share := q / EXPERTS;
    assert CountAt(q, r, i) <= 1 + TILE_ROWS * (share + 1) + TILE_ROWS;
  }

  /** A distribution of any number of routes that needs as many tasks as the bound says. */
  lemma Worst(routes: nat) returns (counts: seq<nat>)
    ensures |counts| == EXPERTS && Sum(counts) == routes && Tasks(counts) == Bound(routes, EXPERTS)
    ensures counts == if routes < EXPERTS then Ones(routes)
                      else Spread((routes - EXPERTS) / TILE_ROWS, (routes - EXPERTS) % TILE_ROWS)
  {
    if routes < EXPERTS {
      counts := Ones(routes);
      OnesPrefix(counts, routes, EXPERTS);
      assert counts[..EXPERTS] == counts;
    } else {
      counts := Spread((routes - EXPERTS) / TILE_ROWS, (routes - EXPERTS) % TILE_ROWS);
      SpreadTotals((routes - EXPERTS) / TILE_ROWS, (routes - EXPERTS) % TILE_ROWS);
    }
  }

  /** For the route count the kernel works with, 32-bit wrap included, the closed form is the
      exact maximum over all distributions. */
  lemma TaskBoundIsExact(tokens: U32)
    ensures forall counts: seq<nat> ::
              |counts| == EXPERTS && Sum(counts) == Routes(tokens) ==> Tasks(counts) <= MaxTasks(tokens)
    ensures exists worst: seq<nat> ::
              |worst| == EXPERTS && Sum(worst) == Routes(tokens) && Tasks(worst) == MaxTasks(tokens)
  {
    forall counts: seq<nat> | |counts| == EXPERTS && Sum(counts) == Routes(tokens)
      ensures Tasks(counts) <= MaxTasks(tokens)
    {
      NeverMore(counts);
    }
    var worst := Worst(Routes(tokens));
  }

  /** It bounds the tasks of the tokens' true routes exactly if their number fits in 32 bits. */
  lemma TaskBoundCoversTokens(tokens: U32)
    ensures (forall counts: seq<nat> ::
               |counts| == EXPERTS && Sum(counts) == tokens * TOP_K ==> Tasks(counts) <= MaxTasks(tokens))
            <==> tokens * TOP_K <= U32_MAX
  {
    if tokens * TOP_K <= U32_MAX {
      TaskBoundIsExact(tokens);
    } else {
      var worst := Worst(tokens * TOP_K);
      WrapLoses(tokens * TOP_K, Routes(tokens));
    }
  }

  lemma WrapLoses(routes: nat, wrapped: nat)
    requires wrapped + U32_MAX < routes
    ensures Bound(wrapped, EXPERTS) < Bound(routes, EXPERTS)
  {
  }

  /** The worst case needs no expert with more rows than there are tokens. */
  lemma WorstIsFair(tokens: U32) returns (counts: seq<nat>)
    requires tokens * TOP_K <= U32_MAX
    ensures |counts| == EXPERTS && Sum(counts) == tokens * TOP_K && Tasks(counts) == MaxTasks(tokens)
    ensures forall i :: 0 <= i < EXPERTS ==> counts[i] <= tokens
  {
    var routes := tokens * TOP_K;
    assert Routes(tokens) == routes;
    counts := Worst(routes);
    if routes >= EXPERTS {
      var q, r := (routes - EXPERTS) / TILE_ROWS, (routes - EXPERTS) % TILE_ROWS;
      forall i | 0 <= i < EXPERTS ensures counts[i] <= tokens { SpreadIsFair(tokens, q, r, i); }
    }
  }
}
