/** The queue of products that are to be matched: first in, first out, and no trigger queues a product twice. */
module Queues {
  import opened Exchanges

  /** Only the dispatcher takes products out; every other step leaves what is queued where it is. */
  lemma {:induction false} StepKeepsQueue(s: Exchange, step: Step)
    requires Enabled(s, step) && step != Dequeue
    ensures s.pending <= Next(s, step).pending
  {
  }

  /** startMatchingProduct: the product waits afterwards, at the back if it did not wait before, and as often as
      before if it did. */
  lemma {:induction false} TriggerQueues(s: Exchange, product: string)
    requires Enabled(s, Trigger(product))
    ensures var queue := Next(s, Trigger(product)).pending;
      && s.pending <= queue && product in queue
      && (product in s.pending ==> |queue| == |s.pending|)
      && (product !in s.pending ==> |queue| == |s.pending| + 1 && queue[|s.pending|] == product)
  {
  }

  /** The start-up puts the products it read behind those already triggered, in the order read. */
  lemma {:induction false} StartUpQueues(s: Exchange)
    requires Enabled(s, FillQueue)
    ensures var queue, products := Next(s, FillQueue).pending, s.startUp.products;
      && s.pending <= queue && |queue| == |s.pending| + |products|
      && forall k | 0 <= k < |products| :: queue[|s.pending| + k] == products[k]
  {
  }

  /** The dispatcher takes the front product into a pass; the others move up. */
  lemma {:induction false} DequeueServes(s: Exchange)
    requires Enabled(s, Dequeue)
    ensures var s' := Next(s, Dequeue);
      && s'.passes == s.passes + multiset{s.pending[0]} && |s'.pending| == |s.pending| - 1
      && forall k | 0 <= k < |s'.pending| :: s'.pending[k] == s.pending[k + 1]
  {
  }

  /** How often the dispatcher takes a product. */
  function Dequeues(steps: seq<Step>): nat {
    if steps == [] then 0 else (if steps[0] == Dequeue then 1 else 0) + Dequeues(steps[1..])
  }

  lemma {:induction false} StepMovesUp(s: Exchange, step: Step)
    requires Enabled(s, step)
    ensures var n := if step == Dequeue then 1 else 0;
      n <= |s.pending| && s.pending[n..] <= Next(s, step).pending
  {
    if step != Dequeue {
      StepKeepsQueue(s, step);
    }
  }

  lemma {:induction false} MovesUpTwice(a: seq<string>, b: seq<string>, c: seq<string>, m: nat, n: nat)
    requires m + n <= |a| && a[m..] <= b && n <= |b| && b[n..] <= c
    ensures a[m + n..] <= c
  {
    assert a[m + n..] == a[m..][n..];
  }

  /** Over every run the queue moves up by one place with every Dequeue, whatever is triggered meanwhile: what stood
      further back is now in front, in the same order. */
  lemma {:induction false} QueueMovesUp(s: Exchange, steps: seq<Step>, s': Exchange)
    requires Run(s, steps, s') && Dequeues(steps) <= |s.pending|
    ensures s.pending[Dequeues(steps)..] <= s'.pending
    decreases |steps|
  {
    if steps != [] {
      var s1, n := Next(s, steps[0]), Dequeues(steps[1..]);
      StepMovesUp(s, steps[0]);
      QueueMovesUp(s1, steps[1..], s');
      MovesUpTwice(s.pending, s1.pending, s'.pending, if steps[0] == Dequeue then 1 else 0, n);
    } else {
      assert s.pending[0..] == s.pending;
    }
  }

  lemma {:induction false} StaysStarted(s: Exchange, steps: seq<Step>, s': Exchange)
    requires Run(s, steps, s') && s.startUp.Started?
    ensures s'.startUp.Started?
    decreases |steps|
  {
    if steps != [] {
      StepStaysStarted(s, steps[0]);
      StaysStarted(Next(s, steps[0]), steps[1..], s');
    }
  }

  lemma {:induction false} StepStaysStarted(s: Exchange, step: Step)
    requires Enabled(s, step) && s.startUp.Started?
    ensures Next(s, step).startUp.Started?
  {
  }

  /** So the product at place k goes into a pass at exactly the (k+1)-th Dequeue, in every run: after k of them
      the next one is possible, and takes it. */
  lemma {:induction false} QueuedIsServed(s: Exchange, steps: seq<Step>, s': Exchange, k: nat)
    requires s.startUp.Started? && Run(s, steps, s') && Dequeues(steps) == k < |s.pending|
    ensures Enabled(s', Dequeue)
    ensures Next(s', Dequeue).passes == s'.passes + multiset{s.pending[k]}
  {
    QueueMovesUp(s, steps, s');
    assert s.pending[k..][0] == s.pending[k];
    StaysStarted(s, steps, s');
    DequeueServes(s');
  }
}
