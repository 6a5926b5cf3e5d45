/** What the recursive-chain loop does at run time.  The chain hanging off
    self's link is a finite list of nodes `0, 1, …, n-1`, node `j`'s link
    pointing to node `j+1` and the last node's link being `nil`; `rc[j]` is the
    strong reference count of node `j`.  Every live node is referenced at least
    by its predecessor's link, so each count starts at one or more. */
module ChainRuntime {

  /** Chains whose every node is alive. */
  ghost predicate Live(rc: seq<nat>) {
    forall j :: 0 <= j < |rc| ==> rc[j] >= 1
  }

  /** Releasing one strong reference to node `k`, as the runtime does it: the
      count drops, and a node whose last reference goes is deallocated, which
      releases its own link in turn — one nested release per dead node.
      `k == |rc|` is the `nil` link. */
  function Release(rc: seq<nat>, k: nat): seq<nat>
    decreases |rc| - k
  {
    if k >= |rc| then rc
    else if rc[k] > 1 then rc[k := rc[k] - 1]
    else Release(rc[k := 0], k + 1)
  }

  /** How many deallocations are nested inside that release: the stack depth
      the runtime needs for it. */
  function ReleaseDepth(rc: seq<nat>, k: nat): nat
    decreases |rc| - k
  {
    if k >= |rc| || rc[k] > 1 then 0
    else 1 + ReleaseDepth(rc[k := 0], k + 1)
  }

  /** The nodes from `k` on that hold their last reference. */
  function UniqueRun(rc: seq<nat>, k: nat): nat
    decreases |rc| - k
  {
    if k < |rc| && rc[k] == 1 then 1 + UniqueRun(rc, k + 1) else 0
  }

  /** Left alone, the destruction of self releases its link and every uniquely
      referenced node releases the next one from inside its own deinit: the
      nesting is as deep as the run of unique nodes — linear in the chain. */
  lemma {:induction false} NaiveDepth(rc: seq<nat>, k: nat)
    requires forall j :: k <= j < |rc| ==> rc[j] >= 1
    ensures ReleaseDepth(rc, k) == UniqueRun(rc, k)
    decreases |rc| - k
  {
    if k < |rc| && rc[k] == 1 {
      NaiveDepthFrom(rc[k := 0], k + 1, rc);
      NaiveDepth(rc[k := 0], k + 1);
    }
  }

  /** Zeroing a count below `k` changes nothing from `k` on. */
  lemma {:induction false} NaiveDepthFrom(rc: seq<nat>, k: nat, orig: seq<nat>)
    requires |rc| == |orig| && forall j :: k <= j < |rc| ==> rc[j] == orig[j]
    ensures UniqueRun(rc, k) == UniqueRun(orig, k)
    decreases |rc| - k
  {
    if k < |rc| {
      NaiveDepthFrom(rc, k + 1, orig);
    }
  }

  /** The result of a release of node `k` when the nodes from `k` on are
      alive: the unique run starting at `k` is deallocated, the first shared
      node after it loses one reference, and nothing else changes. */
  lemma {:induction false} ReleaseResult(rc: seq<nat>, k: nat)
    requires forall j :: k <= j < |rc| ==> rc[j] >= 1
    ensures var r, u := Release(rc, k), k + UniqueRun(rc, k);
      && |r| == |rc|
      && (forall j :: 0 <= j < k && j < |rc| ==> r[j] == rc[j])
      && (forall j :: k <= j < u && j < |rc| ==> r[j] == 0)
      && (u < |rc| ==> r[u] == rc[u] - 1)
      && (forall j :: u < j < |rc| ==> r[j] == rc[j])
    decreases |rc| - k
  {
    if k < |rc| && rc[k] == 1 {
      var rc' := rc[k := 0];
      NaiveDepthFrom(rc', k + 1, rc);
      ReleaseResult(rc', k + 1);
    }
  }

  function Max(a: nat, b: nat): nat {
    if a < b then b else a
  }

  /** The loop of `emitRecursiveChainDestruction`, run on a chain: the link is
      moved out of self into the iterator (no count changes); while the iterator
      holds a uniquely referenced node, the next link is copied into a temporary
      (`load [copy]`: one more reference on the next node) and assigned to the
      iterator, which releases the current node; the loop stops at `nil` or at
      a shared node, and `clean` releases what the iterator holds.  Returns the
      final counts, how many nodes the loop unlinked, and the deepest nesting of
      deallocations any single release needed, the one in `clean` included:
      one when the loop unlinked a node, none otherwise. */
  method UnlinkChain(chain: seq<nat>) returns (rc: seq<nat>, unlinked: nat, maxDepth: nat)
    requires Live(chain)
    ensures rc == Release(chain, 0)
    ensures unlinked == UniqueRun(chain, 0)
    ensures maxDepth <= 1
    ensures maxDepth == if unlinked == 0 then 0 else 1
  {
    rc := chain;
    var iter := 0;
    unlinked, maxDepth := 0, 0;
    while iter < |rc| && rc[iter] == 1
      invariant iter <= |rc| == |chain|
      invariant forall j :: iter <= j < |rc| ==> rc[j] == chain[j]
      invariant Release(rc, iter) == Release(chain, 0)
      invariant unlinked == iter && iter + UniqueRun(rc, iter) == UniqueRun(chain, 0)
      invariant maxDepth == if iter == 0 then 0 else 1
      decreases |rc| - iter
    {
      var before := rc;
      if iter + 1 < |rc| {
        rc := rc[iter + 1 := rc[iter + 1] + 1];
      }
      var depth := ReleaseDepth(rc, iter);
      ghost var copied := rc;
      rc := Release(rc, iter);
      assert rc == before[iter := 0] && depth == 1 by {
        assert Release(copied, iter) == Release(copied[iter := 0], iter + 1);
        assert ReleaseDepth(copied, iter) == 1 + ReleaseDepth(copied[iter := 0], iter + 1);
        if iter + 1 < |before| {
          assert chain[iter + 1] >= 1;
          assert copied[iter := 0][iter + 1] > 1;
          assert copied[iter := 0][iter + 1 := copied[iter := 0][iter + 1] - 1] == before[iter := 0];
        } else {
          assert copied == before;
        }
      }
      NaiveDepthFrom(rc, iter + 1, before);
      maxDepth := Max(maxDepth, depth);
      iter := iter + 1;
      unlinked := unlinked + 1;
    }
    var depth := ReleaseDepth(rc, iter);
    rc := Release(rc, iter);
    assert depth == 0;
    maxDepth := Max(maxDepth, depth);
  }
}
