module Reach {
  import opened Seqs

  type Key = string

  /** A chain of references in a graph, built up from its last step. */
  ghost predicate IsPath(g: map<Key, seq<Key>>, p: seq<Key>)
    decreases |p|
  {
    && |p| > 0
    && (|p| > 1 ==> IsPath(g, p[..|p| - 1]) && p[|p| - 2] in g && p[|p| - 1] in g[p[|p| - 2]])
  }

  ghost predicate Reachable(g: map<Key, seq<Key>>, from: Key, to: Key) {
    exists p :: IsPath(g, p) && p[0] == from && p[|p| - 1] == to
  }

  lemma ReachableStep(g: map<Key, seq<Key>>, from: Key, k: Key, c: Key)
    requires Reachable(g, from, k) && k in g && c in g[k]
    ensures Reachable(g, from, c)
  {
    var p :| IsPath(g, p) && p[0] == from && p[|p| - 1] == k;
    var q := p + [c];
    assert q[..|q| - 1] == p;
    assert IsPath(g, q) && q[0] == from && q[|q| - 1] == c;
  }

  lemma ReachableChildren(g: map<Key, seq<Key>>, from: Key, k: Key)
    requires Reachable(g, from, k) && k in g
    ensures forall c :: c in g[k] ==> Reachable(g, from, c)
  {
    forall c | c in g[k]
      ensures Reachable(g, from, c)
    {
      ReachableStep(g, from, k, c);
    }
  }

  /** A path that starts inside a set closed under the graph's edges ends inside it. */
  lemma {:induction false} ClosedHoldsPath(g: map<Key, seq<Key>>, s: set<Key>, p: seq<Key>)
    requires IsPath(g, p) && p[0] in s
    requires forall k, c :: k in s && k in g && c in g[k] ==> c in s
    ensures p[|p| - 1] in s
    decreases |p|
  {
    if |p| > 1 {
      var q := p[..|p| - 1];
      assert IsPath(g, q);
      ClosedHoldsPath(g, s, q);
    }
  }

  /** Every queued id is the start or a referenced id, and is reachable from the start. */
  ghost predicate Queued(g: map<Key, seq<Key>>, from: Key, queue: seq<Key>) {
    forall q :: q in queue ==> Reachable(g, from, q)
  }

  lemma QueuedPop(g: map<Key, seq<Key>>, from: Key, queue: seq<Key>)
    requires |queue| > 0 && Queued(g, from, queue)
    ensures Queued(g, from, queue[1..])
    ensures Reachable(g, from, queue[0])
  {
  }

  lemma QueuedPush(g: map<Key, seq<Key>>, from: Key, queue: seq<Key>, k: Key)
    requires Queued(g, from, queue) && Reachable(g, from, k) && k in g
    ensures Queued(g, from, queue + g[k])
  {
    ReachableChildren(g, from, k);
  }

  /** Every child of a key in `keys` is empty, already visited or still queued. */
  ghost predicate Covered(g: map<Key, seq<Key>>, keys: set<Key>, visited: set<Key>, queue: seq<Key>) {
    forall k, c :: k in keys && k in g && c in g[k] ==> c == "" || c in visited || c in queue
  }

  lemma CoveredSkip(g: map<Key, seq<Key>>, keys: set<Key>, visited: set<Key>, queue: seq<Key>)
    requires |queue| > 0 && Covered(g, keys, visited, queue)
    requires queue[0] == "" || queue[0] in visited
    ensures Covered(g, keys, visited, queue[1..])
  {
    assert forall c :: c in queue ==> c == queue[0] || c in queue[1..];
  }

  lemma CoveredVisit(g: map<Key, seq<Key>>, keys: set<Key>, visited: set<Key>, queue: seq<Key>)
    requires |queue| > 0 && Covered(g, keys, visited, queue)
    ensures queue[0] in g ==> Covered(g, keys + {queue[0]}, visited + {queue[0]}, queue[1..] + g[queue[0]])
    ensures queue[0] !in g ==> Covered(g, keys, visited + {queue[0]}, queue[1..])
  {
    assert forall c :: c in queue ==> c == queue[0] || c in queue[1..];
  }

  /**
   * Once the queue is empty, every id reachable from the start is visited:
   * the visited set (with the empty id, which is never a key) is closed under the edges.
   */
  lemma CoveredReach(g: map<Key, seq<Key>>, keys: set<Key>, visited: set<Key>, from: Key, k: Key)
    requires Covered(g, keys, visited, [])
    requires "" !in g && from in visited
    requires forall v :: v in visited && v in g ==> v in keys
    requires Reachable(g, from, k) && k != ""
    ensures k in visited
  {
    var p :| IsPath(g, p) && p[0] == from && p[|p| - 1] == k;
    ClosedHoldsPath(g, visited + {""}, p);
  }

  /** The copied blocks: distinct keys in visiting order, each one unchanged. */
  ghost predicate Copied<B>(present: map<Key, B>, order: seq<Key>, blocks: map<Key, B>) {
    && Distinct(order)
    && (forall k :: k in order <==> k in blocks)
    && (forall k :: k in blocks ==> k in present && blocks[k] == present[k])
  }

  /** Visited ids are non-empty, and the present ones have been copied. */
  ghost predicate Entered<B>(present: map<Key, B>, blocks: map<Key, B>, visited: set<Key>) {
    && blocks.Keys <= visited
    && (forall v :: v in visited ==> v != "" && (v in present ==> v in blocks))
  }

  /** The start is entered first, and the queue starts out as just the start. */
  ghost predicate StartsAt<B>(present: map<Key, B>, id: Key, order: seq<Key>, queue: seq<Key>, visited: set<Key>) {
    && (visited == {} ==> order == [] && (queue == [id] || id == ""))
    && (id != "" && visited != {} ==> id in visited)
    && (id in present && id in visited ==> |order| > 0 && order[0] == id)
  }

  /** What the walk keeps true between two steps. */
  ghost predicate WalkInv<B>(present: map<Key, B>, g: map<Key, seq<Key>>, id: Key,
                             order: seq<Key>, blocks: map<Key, B>, queue: seq<Key>, visited: set<Key>)
  {
    && Copied(present, order, blocks)
    && Entered(present, blocks, visited)
    && StartsAt(present, id, order, queue, visited)
    && Queued(g, id, queue)
    && (forall v :: v in visited ==> Reachable(g, id, v))
    && Covered(g, blocks.Keys, visited, queue)
  }

  lemma WalkStart<B>(present: map<Key, B>, g: map<Key, seq<Key>>, id: Key)
    ensures WalkInv(present, g, id, [], map[], [id], {})
  {
    assert IsPath(g, [id]);
  }

  lemma WalkSkip<B>(present: map<Key, B>, g: map<Key, seq<Key>>, id: Key,
                    order: seq<Key>, blocks: map<Key, B>, queue: seq<Key>, visited: set<Key>)
    requires WalkInv(present, g, id, order, blocks, queue, visited)
    requires |queue| > 0 && (queue[0] == "" || queue[0] in visited)
    ensures WalkInv(present, g, id, order, blocks, queue[1..], visited)
  {
    CoveredSkip(g, blocks.Keys, visited, queue);
    QueuedPop(g, id, queue);
  }

  lemma WalkMissing<B>(present: map<Key, B>, g: map<Key, seq<Key>>, id: Key,
                       order: seq<Key>, blocks: map<Key, B>, queue: seq<Key>, visited: set<Key>)
    requires forall k :: k in g <==> k in present && k != ""
    requires WalkInv(present, g, id, order, blocks, queue, visited)
    requires |queue| > 0 && queue[0] != "" && queue[0] !in visited && queue[0] !in present
    ensures WalkInv(present, g, id, order, blocks, queue[1..], visited + {queue[0]})
  {
    CoveredVisit(g, blocks.Keys, visited, queue);
    QueuedPop(g, id, queue);
  }

  lemma WalkVisit<B>(present: map<Key, B>, g: map<Key, seq<Key>>, id: Key,
                     order: seq<Key>, blocks: map<Key, B>, queue: seq<Key>, visited: set<Key>)
    requires forall k :: k in g <==> k in present && k != ""
    requires WalkInv(present, g, id, order, blocks, queue, visited)
    requires |queue| > 0 && queue[0] != "" && queue[0] !in visited && queue[0] in present
    ensures WalkInv(present, g, id, order + [queue[0]], blocks[queue[0] := present[queue[0]]],
                    queue[1..] + g[queue[0]], visited + {queue[0]})
  {
    var c := queue[0];
    CoveredVisit(g, blocks.Keys, visited, queue);
    QueuedPop(g, id, queue);
    QueuedPush(g, id, queue[1..], c);
  }

  lemma WalkDone<B>(present: map<Key, B>, g: map<Key, seq<Key>>, id: Key,
                    order: seq<Key>, blocks: map<Key, B>, visited: set<Key>)
    requires forall k :: k in g <==> k in present && k != ""
    requires WalkInv(present, g, id, order, blocks, [], visited)
    ensures forall k :: k in present && k != "" ==> (k in blocks <==> Reachable(g, id, k))
    ensures id in present && id != "" ==> |order| > 0 && order[0] == id
  {
    forall k | k in present && k != "" && Reachable(g, id, k)
      ensures k in blocks
    {
      if id == "" {
        var p :| IsPath(g, p) && p[0] == id && p[|p| - 1] == k;
        ClosedHoldsPath(g, {""}, p);
      }
      CoveredReach(g, blocks.Keys, visited, id, k);
    }
  }

  lemma Shrinks(all: set<Key>, done: set<Key>, x: Key)
    requires x in all && x !in done
    ensures |all - (done + {x})| < |all - done|
  {
    assert all - (done + {x}) == (all - done) - {x};
  }

}
