/** The token supply of one inference instance (autoscaler-py/instance_client.py): a FIFO queue of
    access tokens, refilled from the instance's /tokens route when it runs low. The HTTP call is an
    oracle: its answer is a parameter, None standing for a non-200 response. */
module Tokens {
  import opened Wrappers

  type Token = string

  /** The low-water mark below which a refill is fetched. */
  const RefillBelow: nat := 10

  class InstanceClient {
    const instanceAddr: string
    const mtoken: string
    var tokenQueue: seq<Token>

    /** A new client starts with an empty queue and refills it once; `fetched` is the batch the
        first fetch returned. */
    constructor (instanceAddr: string, mtoken: string, fetched: seq<Token>)
      ensures this.instanceAddr == instanceAddr && this.mtoken == mtoken
      ensures tokenQueue == fetched
    {
      this.instanceAddr := instanceAddr;
      this.mtoken := mtoken;
      tokenQueue := [];
      new;
      var failed := MonitorTokenQueue(Some(fetched));
    }

    /** `monitor_token_queue`: below the low-water mark, fetch a batch and put every token of it
        behind the queued ones, in fetched order. A failed fetch (`get_tokens` returns None, and
        iterating over it raises) is `failed`, and leaves the queue as it was. */
    method MonitorTokenQueue(fetched: Option<seq<Token>>) returns (failed: bool)
      modifies this`tokenQueue
      ensures failed <==> |old(tokenQueue)| < RefillBelow && fetched.None?
      ensures tokenQueue == Refilled(old(tokenQueue), fetched)
    {
      failed := false;
      if |tokenQueue| < RefillBelow {
        if fetched.None? {
          failed := true;
          return;
        }
        var newTokens := fetched.value;
        ghost var before := tokenQueue;
        for i := 0 to |newTokens|
          invariant tokenQueue == before + newTokens[..i]
        {
          assert newTokens[..i + 1] == newTokens[..i] + [newTokens[i]];
          tokenQueue := tokenQueue + [newTokens[i]];
        }
        assert newTokens[..|newTokens|] == newTokens;
      }
    }

    /** `token_queue.get()`: the oldest token. On an empty queue the call blocks until a refill,
        which the model reports as None without changing anything. */
    method Take() returns (t: Option<Token>)
      modifies this`tokenQueue
      ensures old(tokenQueue) == [] ==> t.None? && tokenQueue == []
      ensures old(tokenQueue) != [] ==> t == Some(old(tokenQueue)[0]) && tokenQueue == old(tokenQueue)[1..]
    {
      if tokenQueue == [] {
        t := None;
      } else {
        t := Some(tokenQueue[0]);
        tokenQueue := tokenQueue[1..];
      }
    }
  }

  /** The queue after a refill attempt, on values. */
  function Refilled(q: seq<Token>, fetched: Option<seq<Token>>): seq<Token> {
    if |q| < RefillBelow && fetched.Some? then q + fetched.value else q
  }

  /** A refill never removes or reorders a queued token: the old queue is a prefix of the new one,
      the new tokens follow in fetched order, and a queue at the mark is left alone. */
  lemma RefillKeepsOrder(q: seq<Token>, fetched: Option<seq<Token>>)
    ensures q <= Refilled(q, fetched)
    ensures |q| >= RefillBelow ==> Refilled(q, fetched) == q
    ensures |q| < RefillBelow && fetched.Some? ==>
              |Refilled(q, fetched)| == |q| + |fetched.value| && Refilled(q, fetched)[|q|..] == fetched.value
  {
  }
}
