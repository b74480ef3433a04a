/** One block of the single-producer, single-consumer queue: a ring buffer with
    the two indices each thread owns and the two shadow copies.  A block of
    `Size()` slots holds at most `Size() - 1` elements, so that `front == tail`
    always means empty. */
module RingBlock {
  import opened SeqFacts

  datatype Block<T> = Block(
    front: nat,       // consumer's index
    localTail: nat,   // consumer's shadow copy of `tail`
    tail: nat,        // producer's index
    localFront: nat,  // producer's shadow copy of `front`
    next: nat,        // the following block of the circular list
    data: seq<T>)
  {
    function Size(): nat { |data| }

    /** Index after `i`; the source writes `(i + 1) & sizeMask`
        (see `Pow2.MaskedStepIsModular`). */
    function After(i: nat): nat
      requires i < Size()
    {
      if i + 1 == Size() then 0 else i + 1
    }

    /** Number of forward steps from index `a` to index `b`. */
    function Dist(a: nat, b: nat): (d: int)
      requires a < Size() && b < Size()
      ensures 0 <= d < Size()
      ensures d == 0 <==> a == b
    {
      if a <= b then b - a else b - a + Size()
    }

    predicate InRange() {
      2 <= Size() && front < Size() && tail < Size() && localFront < Size() && localTail < Size()
    }

    /** Each shadow copy lags behind its original. */
    predicate Shadows()
      requires InRange()
    {
      Dist(front, localTail) <= Dist(front, tail) && Dist(localFront, front) <= Dist(localFront, tail)
    }

    predicate Valid() { InRange() && Shadows() }

    function Count(): nat
      requires front < Size() && tail < Size()
    {
      Dist(front, tail)
    }

    predicate Empty() { front == tail }

    predicate Full()
      requires front < Size() && tail < Size()
    {
      Count() == Size() - 1
    }

    /** The elements held, oldest first. */
    function Content(): (c: seq<T>)
      requires front < Size() && tail < Size()
      ensures |c| == Count()
    {
      Arc(data, front, tail)
    }
  }

  /** The slots from index `a` up to, not including, index `b`, wrapping round. */
  function Arc<T>(data: seq<T>, a: nat, b: nat): seq<T>
    requires a < |data| && b < |data|
  {
    if a <= b then data[a..b] else data[a..] + data[..b]
  }

  lemma ArcPush<T>(data: seq<T>, a: nat, b: nat, b': nat)
    requires a < |data| && b < |data|
    requires b' == if b + 1 == |data| then 0 else b + 1
    requires b' != a
    ensures Arc(data, a, b') == Arc(data, a, b) + [data[b]]
  {
    if a <= b < b' {
      assert data[a..b'] == data[a..b] + [data[b]];
    } else if a <= b {
      assert data[a..] + data[..0] == data[a..b] + [data[b]];
    } else {
      assert data[..b'] == data[..b] + [data[b]];
    }
  }

  lemma ArcPop<T>(data: seq<T>, a: nat, b: nat, a': nat)
    requires a < |data| && b < |data| && a != b
    requires a' == if a + 1 == |data| then 0 else a + 1
    ensures Arc(data, a, b) == [data[a]] + Arc(data, a', b)
  {
    var l, r := Arc(data, a, b), [data[a]] + Arc(data, a', b);
    assert |l| == |r|;
    assert forall k :: 0 <= k < |l| ==> l[k] == r[k];
  }

  /** Publishing a slot just past `tail` appends its value. */
  lemma PublishAppends<T>(b: Block<T>, x: T)
    requires b.Valid() && b.data[b.tail] == x
    requires b.After(b.tail) != b.localFront
    ensures b.Count() < b.Size() - 1
    ensures b.(tail := b.After(b.tail)).Valid()
    ensures b.(tail := b.After(b.tail)).Content() == b.Content() + [x]
  {
    ArcPush(b.data, b.front, b.tail, b.After(b.tail));
  }

  /** Releasing the slot at `front` removes exactly the oldest value. */
  lemma ReleaseRemovesOldest<T>(b: Block<T>)
    requires b.Valid() && b.front != b.localTail
    ensures b.(front := b.After(b.front)).Valid()
    ensures b.Content() == [b.data[b.front]] + b.(front := b.After(b.front)).Content()
  {
    ArcPop(b.data, b.front, b.tail, b.After(b.front));
  }

  /** Writing the slot at `tail` of a block does not disturb what it holds. */
  lemma ConstructKeepsContent<T>(b: Block<T>, x: T)
    requires b.Valid()
    ensures b.(data := b.data[b.tail := x]).Valid()
    ensures b.(data := b.data[b.tail := x]).Content() == b.Content()
  {
  }

  predicate AllValid<T>(blocks: seq<Block<T>>) {
    && (forall k :: 0 <= k < |blocks| ==> blocks[k].InRange())
    && (forall k {:trigger blocks[k].Shadows()} :: 0 <= k < |blocks| ==> blocks[k].Shadows())
  }

  predicate Within(ids: seq<nat>, n: nat) {
    forall j :: 0 <= j < |ids| ==> ids[j] < n
  }

  /** Concatenated contents of the listed blocks. */
  function Flat<T>(blocks: seq<Block<T>>, ids: seq<nat>): seq<T>
    requires AllValid(blocks)
    requires Within(ids, |blocks|)
  {
    if ids == [] then [] else blocks[ids[0]].Content() + Flat(blocks, ids[1..])
  }

  lemma {:induction false} FlatAppend<T>(blocks: seq<Block<T>>, a: seq<nat>, b: seq<nat>)
    requires AllValid(blocks)
    requires Within(a, |blocks|)
    requires Within(b, |blocks|)
    ensures Within(a + b, |blocks|)
    ensures Flat(blocks, a + b) == Flat(blocks, a) + Flat(blocks, b)
  {
    if a == [] {
      assert a + b == b;
    } else {
      var head := blocks[a[0]].Content();
      assert (a + b)[1..] == a[1..] + b;
      assert Flat(blocks, a + b) == head + Flat(blocks, a[1..] + b);
      FlatAppend(blocks, a[1..], b);
      SeqAssoc(head, Flat(blocks, a[1..]), Flat(blocks, b));
    }
  }

  lemma {:induction false} FlatFrame<T>(blocks: seq<Block<T>>, blocks': seq<Block<T>>, ids: seq<nat>)
    requires AllValid(blocks)
    requires AllValid(blocks')
    requires Within(ids, |blocks|) && Within(ids, |blocks'|)
    requires forall j :: 0 <= j < |ids| ==> blocks[ids[j]].Content() == blocks'[ids[j]].Content()
    ensures Flat(blocks, ids) == Flat(blocks', ids)
  {
    if ids != [] {
      FlatFrame(blocks, blocks', ids[1..]);
    }
  }

  lemma FlatOne<T>(blocks: seq<Block<T>>, i: nat)
    requires AllValid(blocks)
    requires i < |blocks|
    ensures Flat(blocks, [i]) == blocks[i].Content()
  {
    assert Flat(blocks, [i][1..]) == [];
  }

  function Times(n: nat, d: nat): nat { n * d }

  lemma OneRowMore(n: nat, d: nat)
    ensures Times(0, d) == 0
    ensures 1 <= n ==> Times(n, d) == Times(n - 1, d) + d
  {
    assert 1 <= n ==> n * d == (n - 1) * d + d;
  }

  lemma FullHolds<T>(b: Block<T>, size: nat)
    requires b.Valid() && b.Full() && 1 <= size <= b.Size()
    ensures size - 1 <= |b.Content()|
  {
  }

  /** Full blocks of at least `size` slots hold at least `size - 1` elements each. */
  lemma {:induction false} FullBlocksHold<T>(blocks: seq<Block<T>>, ids: seq<nat>, size: nat)
    requires AllValid(blocks)
    requires Within(ids, |blocks|)
    requires forall j :: 0 <= j < |ids| ==> blocks[ids[j]].Full() && size <= blocks[ids[j]].Size()
    requires 1 <= size
    ensures |Flat(blocks, ids)| >= Times(|ids|, size - 1)
  {
    hide Times;
    OneRowMore(|ids|, size - 1);
    if ids != [] {
      assert blocks[ids[0]].Shadows();
      FullHolds(blocks[ids[0]], size);
      FullBlocksHold(blocks, ids[1..], size);
    }
  }

  lemma {:induction false} BlocksHoldAtMost<T>(blocks: seq<Block<T>>, ids: seq<nat>, size: nat)
    requires AllValid(blocks) && Within(ids, |blocks|) && 1 <= size
    requires forall k :: 0 <= k < |blocks| ==> blocks[k].Size() <= size
    ensures |Flat(blocks, ids)| <= Times(|ids|, size - 1)
  {
    hide Times;
    OneRowMore(|ids|, size - 1);
    if ids != [] {
      assert blocks[ids[0]].InRange();
      BlocksHoldAtMost(blocks, ids[1..], size);
    }
  }

  /** Different numbers below `n` are at most `n`. */
  lemma {:induction false} Pigeonhole(ids: seq<nat>, n: nat)
    requires forall i :: 0 <= i < |ids| ==> ids[i] < n
    requires forall i, j :: 0 <= i < j < |ids| ==> ids[i] != ids[j]
    ensures |ids| <= n
    decreases n
  {
    if ids != [] {
      assert ids[0] < n;
      var last := n - 1;
      if k :| 0 <= k < |ids| && ids[k] == last {
        Pigeonhole(ids[..k] + ids[k + 1..], last);
      } else {
        Pigeonhole(ids, last);
      }
    }
  }
}
