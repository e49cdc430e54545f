/** Progress of the scanner against a chain that stands still and a node that answers. */
module CatchUp {
  import opened Prelude
  import opened BigInt
  import opened Classifier
  import opened SyncClient
  import opened Synchronizer

  /** The node serves every header up to its newest one, and nothing in a block stops the classification. */
  ghost predicate Serving(policy: Policy, p: Provider, node: Node, depth: nat) {
    && p.latest.Reported? && depth <= p.latest.header.number < TWO_63
    && Honest(p)
    && (forall h: nat | h <= p.latest.header.number :: h in p.headers)
    && (forall header | header in p.headers.Values :: HeaderStop(policy, node, header) == Go)
    && !node.storeFails
  }

  /** Between ticks: nothing retained, and the cursor at or past every stored height, not past the confirmed head. */
  predicate Resting(v: View, end: int) {
    && v.headers == [] && v.cursor.Some? && v.cursor.value.number <= end
    && forall i | 0 <= i < |v.blocks| :: v.blocks[i].number <= v.cursor.value.number
  }

  lemma {:induction false} AllGo(policy: Policy, node: Node, headers: seq<Header>)
    requires forall header | header in headers :: HeaderStop(policy, node, header) == Go
    ensures HeadersStop(policy, node, headers) == Go
  {
    if headers != [] {
      AllGo(policy, node, headers[..|headers| - 1]);
    }
  }

  /** What a tick below the confirmed head fetches. */
  lemma FetchAdvances(policy: Policy, p: Provider, node: Node, depth: nat, maxSize: nat, v: View)
    requires 1 <= maxSize < TWO_64 && Serving(policy, p, node, depth)
    requires v.headers == [] && v.cursor.Some? && v.cursor.value.number < p.latest.header.number - depth
    ensures var fetched := AfterFetch(p, depth, maxSize, v);
            && fetched.headers != [] && fetched.blocks == v.blocks
            && fetched.cursor.Some?
            && fetched.cursor.value.number == Min(v.cursor.value.number + maxSize, p.latest.header.number - depth)
            && Numbers(fetched.headers) == Heights(v.cursor.value.number + 1, fetched.cursor.value.number + 1)
            && forall header | header in fetched.headers :: header in p.headers.Values
  {
    hide Wrap64, Uint64, Clamp, ToInt64;
    var last := v.cursor.value.number;
    PlanIsNextWindow(Some(last), p.latest.header.number, depth, maxSize);
    var plan := PlanWindow(Some(last), p.latest.header.number, depth, maxSize);
    FetchAllSucceeds(p, plan.lo, plan.count);
    ReplyIsNextHeights(v.cursor, p, depth, maxSize);
  }

  /** What processing a batch of new heights stores. */
  lemma BatchStores(policy: Policy, node: Node, v: View, last: nat, top: nat)
    requires v.headers != [] && HeadersStop(policy, node, v.headers) == Go && !node.storeFails
    requires last <= top && Numbers(v.headers) == Heights(last + 1, top + 1)
    requires forall i | 0 <= i < |v.blocks| :: v.blocks[i].number <= last
    ensures var (after, result) := AfterBatch(policy, node, v);
            && result == Nil && after.cursor == v.cursor
            && Numbers(after.blocks) == Numbers(v.blocks) + Heights(last + 1, top + 1)
            && forall i | 0 <= i < |after.blocks| :: after.blocks[i].number <= top
  {
    hide HeadersStop, Collect;
    assert |v.headers| == |Numbers(v.headers)| == top - last;
    NewHeightsStore(node, v.blocks, v.headers, last);
    StoredUpTo(v.blocks, v.headers, last, top);
    assert Numbers(v.blocks + v.headers) == Numbers(v.blocks) + Numbers(v.headers);
  }

  /** One tick moves the cursor by a full window, or to the confirmed head, and stores exactly the heights between. */
  lemma TickAdvances(policy: Policy, p: Provider, node: Node, depth: nat, maxSize: nat, v: View)
    requires 1 <= maxSize < TWO_64 && Serving(policy, p, node, depth)
    requires Resting(v, p.latest.header.number - depth)
    ensures var end := p.latest.header.number - depth;
            var last := v.cursor.value.number;
            var (after, result) := AfterTick(policy, p, node, depth, maxSize, v);
            && result == Nil && Resting(after, end)
            && after.cursor.value.number == Min(last + maxSize, end)
            && Numbers(after.blocks) == Numbers(v.blocks) + Heights(last + 1, after.cursor.value.number + 1)
  {
    var end := p.latest.header.number - depth;
    hide AfterTick, Serving, Heights, Numbers;
    if v.cursor.value.number == end {
      TickAtHead(policy, p, node, depth, maxSize, v);
    } else {
      TickBelowHead(policy, p, node, depth, maxSize, v);
    }
  }

  lemma TickAtHead(policy: Policy, p: Provider, node: Node, depth: nat, maxSize: nat, v: View)
    requires 1 <= maxSize < TWO_64 && Serving(policy, p, node, depth)
    requires Resting(v, p.latest.header.number - depth) && v.cursor.value.number == p.latest.header.number - depth
    ensures var end := p.latest.header.number - depth;
            var last := v.cursor.value.number;
            var (after, result) := AfterTick(policy, p, node, depth, maxSize, v);
            && result == Nil && Resting(after, end)
            && after.cursor.value.number == Min(last + maxSize, end)
            && Numbers(after.blocks) == Numbers(v.blocks) + Heights(last + 1, after.cursor.value.number + 1)
  {
    hide AfterFetch, HeadersStop, HeaderStop;
    var last := v.cursor.value.number;
    NothingToFetch(p, depth, maxSize, v);
    assert Heights(last + 1, last + 1) == [];
  }

  lemma TickBelowHead(policy: Policy, p: Provider, node: Node, depth: nat, maxSize: nat, v: View)
    requires 1 <= maxSize < TWO_64 && Serving(policy, p, node, depth)
    requires Resting(v, p.latest.header.number - depth) && v.cursor.value.number < p.latest.header.number - depth
    ensures var end := p.latest.header.number - depth;
            var last := v.cursor.value.number;
            var (after, result) := AfterTick(policy, p, node, depth, maxSize, v);
            && result == Nil && Resting(after, end)
            && after.cursor.value.number == Min(last + maxSize, end)
            && Numbers(after.blocks) == Numbers(v.blocks) + Heights(last + 1, after.cursor.value.number + 1)
  {
    hide AfterFetch, AfterBatch, HeadersStop, HeaderStop, Heights, Numbers;
    var fetched := AfterFetch(p, depth, maxSize, v);
    FetchAdvances(policy, p, node, depth, maxSize, v);
    AllGo(policy, node, fetched.headers);
    BatchStores(policy, node, fetched, v.cursor.value.number, fetched.cursor.value.number);
  }

  lemma NothingToFetch(p: Provider, depth: nat, maxSize: nat, v: View)
    requires 1 <= maxSize < TWO_64 && p.latest.Reported? && p.latest.header.number < TWO_63
    requires v.headers == [] && v.cursor.Some? && v.cursor.value.number == p.latest.header.number - depth
    ensures AfterFetch(p, depth, maxSize, v) == v
  {
    hide Wrap64, Uint64, Clamp, ToInt64;
    ReplyWithoutHeaders(v.cursor, p, depth, maxSize);
  }

  lemma NewHeightsStore(node: Node, blocks: seq<Header>, headers: seq<Header>, last: nat)
    requires !node.storeFails
    requires forall i | 0 <= i < |blocks| :: blocks[i].number <= last
    requires Numbers(headers) == Heights(last + 1, last + 1 + |headers|)
    ensures StoreSucceeds(node, blocks, headers)
  {
    forall h | h in headers ensures h.number !in Numbers(blocks) {
      var i :| 0 <= i < |headers| && headers[i] == h;
      assert Numbers(headers)[i] == last + 1 + i;
    }
  }

  lemma StoredUpTo(blocks: seq<Header>, headers: seq<Header>, last: nat, top: nat)
    requires last <= top
    requires forall i | 0 <= i < |blocks| :: blocks[i].number <= last
    requires Numbers(headers) == Heights(last + 1, top + 1)
    ensures forall i | 0 <= i < |blocks + headers| :: (blocks + headers)[i].number <= top
  {
    forall j | 0 <= j < |headers| ensures headers[j].number <= top {
      assert Numbers(headers)[j] == last + 1 + j;
    }
  }

  /** The view after k ticks. */
  function Ticks(policy: Policy, p: Provider, node: Node, depth: nat, maxSize: nat, v: View, k: nat): View
    requires maxSize < TWO_64
  {
    if k == 0 then v else AfterTick(policy, p, node, depth, maxSize, Ticks(policy, p, node, depth, maxSize, v, k - 1)).0
  }

  function Product(k: nat, d: nat): nat {
    if k == 0 then 0 else Product(k - 1, d) + d
  }

  lemma {:induction false} ProductIsMul(k: nat, d: nat)
    ensures Product(k, d) == k * d
  {
    if k > 0 {
      ProductIsMul(k - 1, d);
      assert k * d == (k - 1) * d + d;
    }
  }

  lemma BlocksJoin(blocks: seq<nat>, lo: nat, mid: nat, hi: nat)
    requires lo <= mid <= hi
    ensures (blocks + Heights(lo, mid)) + Heights(mid, hi) == blocks + Heights(lo, hi)
  {
    HeightsJoin(lo, mid, hi);
  }

  /** After k ticks the scanner is k windows further, or at the confirmed head, with no height left out. */
  lemma {:induction false} TicksAdvance(policy: Policy, p: Provider, node: Node, depth: nat, maxSize: nat, v: View,
                                        k: nat)
    requires 1 <= maxSize < TWO_64 && Serving(policy, p, node, depth)
    requires Resting(v, p.latest.header.number - depth)
    ensures var end := p.latest.header.number - depth;
            var last := v.cursor.value.number;
            var after := Ticks(policy, p, node, depth, maxSize, v, k);
            && Resting(after, end)
            && after.cursor.value.number == Min(last + Product(k, maxSize), end)
            && Numbers(after.blocks) == Numbers(v.blocks) + Heights(last + 1, after.cursor.value.number + 1)
  {
    hide AfterTick, Serving, Numbers, Heights;
    var last := v.cursor.value.number;
    if k == 0 {
      BlocksJoin(Numbers(v.blocks), last + 1, last + 1, last + 1);
      assert |Heights(last + 1, last + 1)| == 0;
    } else {
      TicksAdvance(policy, p, node, depth, maxSize, v, k - 1);
      var before := Ticks(policy, p, node, depth, maxSize, v, k - 1);
      TickAdvances(policy, p, node, depth, maxSize, before);
      var after := Ticks(policy, p, node, depth, maxSize, v, k);
      var mid := before.cursor.value.number;
      hide Ticks;
      BlocksJoin(Numbers(v.blocks), last + 1, mid + 1, after.cursor.value.number + 1);
    }
  }

  function CeilDiv(n: nat, d: nat): nat
    requires d >= 1
  {
    (n + d - 1) / d
  }

  lemma CeilDivBounds(n: nat, d: nat, k: nat)
    requires d >= 1
    ensures k >= CeilDiv(n, d) <==> k * d >= n
  {
    var c := CeilDiv(n, d);
    assert c * d <= n + d - 1 < c * d + d;
    if k >= c {
      assert k * d >= c * d;
    } else {
      assert (k + 1) * d <= c * d;
    }
  }

  /** The scanner is at the confirmed head after ceil((latest - depth - last) / window) ticks, not before, and stays. */
  lemma CatchesUpExactly(policy: Policy, p: Provider, node: Node, depth: nat, maxSize: nat, v: View, k: nat)
    requires 1 <= maxSize < TWO_64 && Serving(policy, p, node, depth)
    requires Resting(v, p.latest.header.number - depth)
    ensures var end := p.latest.header.number - depth;
            var after := Ticks(policy, p, node, depth, maxSize, v, k);
            after.cursor.Some? && (after.cursor.value.number == end
            <==> k >= CeilDiv(end - v.cursor.value.number, maxSize))
  {
    hide AfterTick, Heights, Numbers, Ticks, CeilDiv, Product;
    TicksAdvance(policy, p, node, depth, maxSize, v, k);
    ProductIsMul(k, maxSize);
    CeilDivBounds(p.latest.header.number - depth - v.cursor.value.number, maxSize, k);
  }
}
