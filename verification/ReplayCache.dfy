/** The service's memory of finished writer requests: at most 4096 of them, in the order of
    their ever-growing ids, forgotten together at a session reset. */
module ReplayCache {
  import opened Contracts

  const CAPACITY: nat := 4096

  /** `C` is what a request says besides its id; `R` is the response it got. */
  datatype Cached<C, R> = Cached(contents: C, response: R)

  datatype Cache<C, R> = Cache(highest: nat, order: seq<nat>, responses: map<nat, Cached<C, R>>)

  function Fresh<C, R>(): Cache<C, R> { Cache(0, [], map[]) }

  /** What becomes of a writer request. */
  datatype Verdict<R> = Replay(response: R) | Conflict | Stale | Execute

  function Judge<C(==), R>(c: Cache<C, R>, id: nat, contents: C): Verdict<R> {
    if id in c.responses then
      if c.responses[id].contents == contents then Replay(c.responses[id].response) else Conflict
    else if id <= c.highest then Stale
    else Execute
  }

  /** Remembers a finished request; a reset forgets the rest, a full cache its oldest entry. */
  function Store<C, R>(c: Cache<C, R>, id: nat, contents: C, isReset: bool, response: R): Cache<C, R> {
    var order := (if isReset then [] else c.order) + [id];
    var kept := if isReset then map[] else c.responses;
    var responses := if id in kept then kept else kept[id := Cached(contents, response)];
    if |order| > CAPACITY
    then Cache(c.highest, order[1..], responses - {order[0]})
    else Cache(c.highest, order, responses)
  }

  // ---------------------------------------------------------------------------
  // Every sequence of writer requests.
  // ---------------------------------------------------------------------------

  /** A request, and the response the executor would give if it gets that far. */
  datatype Writer<C, R> = Writer(id: nat, contents: C, isReset: bool, outcome: R)

  /** The service after some requests, and those among them that were let through. */
  datatype Past<C, R> = Past(cache: Cache<C, R>, executed: seq<Writer<C, R>>)

  function Handle<C(==), R>(p: Past<C, R>, w: Writer<C, R>): Past<C, R> {
    if Judge(p.cache, w.id, w.contents).Execute?
    then Past(Store(p.cache.(highest := w.id), w.id, w.contents, w.isReset, w.outcome), p.executed + [w])
    else p
  }

  function HandleAll<C(==), R>(requests: seq<Writer<C, R>>): Past<C, R> {
    if requests == [] then Past(Fresh(), [])
    else Handle(HandleAll(requests[..|requests| - 1]), requests[|requests| - 1])
  }

  /** How many of the latest executed requests are retained: those since the last reset, that
      one included, and no more than fit. */
  function Retained<C, R>(executed: seq<Writer<C, R>>): (n: nat)
    ensures n <= |executed| && n <= CAPACITY && (executed != [] ==> 0 < n)
  {
    if executed == [] then 0
    else if executed[|executed| - 1].isReset then 1
    else
      var before := Retained(executed[..|executed| - 1]);
      if before == CAPACITY then CAPACITY else before + 1
  }

  ghost predicate Increasing<C, R>(ws: seq<Writer<C, R>>) {
    forall i, j :: 0 <= i < j < |ws| ==> ws[i].id < ws[j].id
  }

  /** `order` names the latest `n` executed requests. */
  ghost predicate Lists<C, R>(order: seq<nat>, executed: seq<Writer<C, R>>, n: nat) {
    && |order| == n <= |executed|
    && forall i :: 0 <= i < n ==> order[i] == executed[|executed| - n + i].id
  }

  /** `responses` has an entry for each of the latest `n` executed requests. */
  ghost predicate Answers<C, R>(responses: map<nat, Cached<C, R>>, executed: seq<Writer<C, R>>, n: nat) {
    && n <= |executed|
    && forall k :: |executed| - n <= k < |executed| ==>
         && executed[k].id in responses
         && responses[executed[k].id] == Cached(executed[k].contents, executed[k].outcome)
  }

  ghost predicate Named<C, R>(responses: map<nat, Cached<C, R>>, order: seq<nat>) {
    forall id :: id in responses ==> id in order
  }

  ghost predicate HoldsLatest<C, R>(c: Cache<C, R>, executed: seq<Writer<C, R>>, n: nat) {
    && Increasing(executed)
    && c.highest == (if executed == [] then 0 else executed[|executed| - 1].id)
    && Lists(c.order, executed, n) && Answers(c.responses, executed, n) && Named(c.responses, c.order)
  }

  /** The cache holds exactly the retained requests, in order, each with its own response. */
  ghost predicate Holds<C, R>(c: Cache<C, R>, executed: seq<Writer<C, R>>) {
    HoldsLatest(c, executed, Retained(executed))
  }

  lemma RetainedOneMore<C, R>(executed: seq<Writer<C, R>>, w: Writer<C, R>)
    ensures Retained(executed + [w])
         == if w.isReset then 1 else if Retained(executed) == CAPACITY then CAPACITY else Retained(executed) + 1
  {
    assert (executed + [w])[..|executed + [w]| - 1] == executed;
  }

  lemma IncreasingOneMore<C, R>(executed: seq<Writer<C, R>>, w: Writer<C, R>)
    requires Increasing(executed) && (executed != [] ==> executed[|executed| - 1].id < w.id)
    ensures Increasing(executed + [w])
  {
    forall i | 0 <= i < |executed| - 1 ensures executed[i].id < w.id {
      assert executed[i].id < executed[|executed| - 1].id;
    }
  }

  /** Adding the newest request to what is retained. */
  lemma OneMore<C, R>(order: seq<nat>, responses: map<nat, Cached<C, R>>, executed: seq<Writer<C, R>>, n: nat,
                      w: Writer<C, R>)
    requires Lists(order, executed, n) && Answers(responses, executed, n) && Named(responses, order)
    requires Increasing(executed + [w])
    ensures Lists(order + [w.id], executed + [w], n + 1)
    ensures Answers(responses[w.id := Cached(w.contents, w.outcome)], executed + [w], n + 1)
    ensures Named(responses[w.id := Cached(w.contents, w.outcome)], order + [w.id])
  {
    var all := executed + [w];
    assert all[|executed|] == w && w.id in order + [w.id];
    forall k | |all| - (n + 1) <= k < |executed| ensures all[k].id != w.id && all[k].id in responses {
      assert all[k] == executed[k] && all[k].id < all[|executed|].id;
    }
  }

  /** Dropping the oldest one. */
  lemma WithoutOldest<C, R>(order: seq<nat>, responses: map<nat, Cached<C, R>>, executed: seq<Writer<C, R>>, n: nat)
    requires Lists(order, executed, n) && Answers(responses, executed, n) && Named(responses, order)
    requires Increasing(executed)
    requires 0 < n
    ensures Lists(order[1..], executed, n - 1)
    ensures Answers(responses - {order[0]}, executed, n - 1)
    ensures Named(responses - {order[0]}, order[1..])
  {
    assert order[0] == executed[|executed| - n].id;
    forall k | |executed| - n < k < |executed| ensures executed[k].id != order[0] {
      assert executed[|executed| - n].id < executed[k].id;
    }
    forall id | id in responses - {order[0]} ensures id in order[1..] {
      assert id in order && id != order[0];
    }
  }

  lemma StoreHoldsLatest<C, R>(c: Cache<C, R>, executed: seq<Writer<C, R>>, n: nat, w: Writer<C, R>)
    requires HoldsLatest(c, executed, n) && n <= CAPACITY && c.highest < w.id && w.id !in c.responses
    ensures HoldsLatest(Store(c.(highest := w.id), w.id, w.contents, w.isReset, w.outcome), executed + [w],
                        if w.isReset then 1 else if n == CAPACITY then CAPACITY else n + 1)
  {
    IncreasingOneMore(executed, w);
    if w.isReset {
      OneMore([], map[], executed, 0, w);
    } else {
      OneMore(c.order, c.responses, executed, n, w);
      if n == CAPACITY {
        WithoutOldest(c.order + [w.id], c.responses[w.id := Cached(w.contents, w.outcome)], executed + [w], n + 1);
      }
    }
  }

  lemma StoreHolds<C, R>(p: Past<C, R>, w: Writer<C, R>)
    requires Holds(p.cache, p.executed) && Judge(p.cache, w.id, w.contents).Execute?
    ensures Holds(Handle(p, w).cache, Handle(p, w).executed)
  {
    RetainedOneMore(p.executed, w);
    StoreHoldsLatest(p.cache, p.executed, Retained(p.executed), w);
  }

  lemma {:induction false} EverySequenceHolds<C, R>(requests: seq<Writer<C, R>>)
    ensures Holds(HandleAll(requests).cache, HandleAll(requests).executed)
  {
    if requests != [] {
      EverySequenceHolds(requests[..|requests| - 1]);
      var p, w := HandleAll(requests[..|requests| - 1]), requests[|requests| - 1];
      if Judge(p.cache, w.id, w.contents).Execute? { StoreHolds(p, w); }
    }
  }

  /** No id is let through twice, in any sequence of requests. */
  lemma AtMostOnce<C, R>(requests: seq<Writer<C, R>>, i: nat, j: nat)
    requires i < j < |HandleAll(requests).executed|
    ensures HandleAll(requests).executed[i].id < HandleAll(requests).executed[j].id
  {
    EverySequenceHolds(requests);
  }

  /** A repeated id gets the stored response, a refusal for different contents, or, once its
      entry has left the cache, a refusal as stale. It is never executed again. */
  lemma RepeatedIdVerdict<C, R>(requests: seq<Writer<C, R>>, k: nat, contents: C)
    requires k < |HandleAll(requests).executed|
    ensures var p := HandleAll(requests); var w := p.executed[k];
            var verdict := Judge(p.cache, w.id, contents);
            if k < |p.executed| - Retained(p.executed) then verdict == Stale
            else if contents == w.contents then verdict == Replay(w.outcome)
            else verdict == Conflict
  {
    EverySequenceHolds(requests);
    var p := HandleAll(requests);
    var first := |p.executed| - Retained(p.executed);
    if k < first {
      forall i | 0 <= i < |p.cache.order| ensures p.cache.order[i] != p.executed[k].id {
        assert p.cache.order[i] == p.executed[first + i].id;
      }
    }
  }
}
