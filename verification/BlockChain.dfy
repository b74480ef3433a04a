/** The shared memory of the queue: a circular list of ring-buffer blocks with a
    front and a tail pointer.  Each store of the source is one operation here,
    and each operation is shown to keep the chain well formed and to change the
    queue's contents in exactly the intended way. */
module BlockChain {
  import opened SeqFacts
  import opened RingBlock

  datatype Chain<T> = Chain(
    blocks: seq<Block<T>>,
    frontBlock: nat,
    tailBlock: nat,
    // history: never read by the code
    ring: seq<nat>,    // the circular list, starting at the front block
    tpos: nat,         // position of the tail block in `ring`
    ahead: nat,        // 1 while the block after the tail already holds an unpublished element
    minSize: nat)      // lower bound on the block sizes
  {
    predicate InBounds() {
      && AllValid(blocks)
      && (forall k :: 0 <= k < |blocks| ==> blocks[k].next < |blocks|)
      && frontBlock < |blocks| && tailBlock < |blocks|
      && Within(ring, |blocks|)
      && tpos < |ring|
    }

    /** The queue's elements, oldest first: the blocks from front to tail. */
    function Held(): seq<T>
      requires InBounds()
    {
      Flat(blocks, ring[..tpos + 1])
    }

    function Put(i: nat, b: Block<T>): Chain<T>
      requires i < |blocks|
    {
      this.(blocks := blocks[i := b])
    }

    predicate Consecutive(i: nat, j: nat) {
      j == i + 1 || (i + 1 == |ring| && j == 0)
    }

    /** `ring` lists the circle of `next` pointers, front block first. */
    predicate Circle()
      requires InBounds()
    {
      && (forall i, j :: 0 <= i < j < |ring| ==> ring[i] != ring[j])
      && (forall i, j {:trigger ring[i], ring[j]} ::
            0 <= i < |ring| && 0 <= j < |ring| && Consecutive(i, j) ==> blocks[ring[i]].next == ring[j])
      && ring[0] == frontBlock
      && ring[tpos] == tailBlock
    }

    /** Blocks strictly between front and tail are full, the tail block is not
        empty once the consumer is elsewhere, and the blocks ahead of the tail
        are empty, except for one holding an element about to be published. */
    predicate Shape()
      requires InBounds()
    {
      && ahead <= 1 && tpos + ahead < |ring|
      && (forall i :: 0 < i < tpos ==> blocks[ring[i]].Full())
      && (0 < tpos ==> !blocks[ring[tpos]].Empty())
      && (forall i :: tpos + ahead < i < |ring| ==> blocks[ring[i]].Empty())
    }

    predicate Sizes() {
      2 <= minSize && forall k :: 0 <= k < |blocks| ==> minSize <= blocks[k].Size()
    }

    predicate Inv() {
      InBounds() && Circle() && Shape() && Sizes()
    }
  }

  // --- Changes that keep what is held ----------------------------------------

  /** Replacing a block by one with the same successor, size, indices and content. */
  lemma PutKeeps<T>(m: Chain<T>, i: nat, b: Block<T>)
    requires m.Inv() && i < |m.blocks|
    requires b.Valid() && b.next == m.blocks[i].next && b.Size() == m.blocks[i].Size()
    requires b.front == m.blocks[i].front && b.tail == m.blocks[i].tail
    requires b.Content() == m.blocks[i].Content()
    ensures m.Put(i, b).Inv() && m.Put(i, b).Held() == m.Held()
  {
    PutShape(m, i, b);
    FlatFrame(m.blocks, m.Put(i, b).blocks, m.ring[..m.tpos + 1]);
  }

  lemma PutCircle<T>(m: Chain<T>, i: nat, b: Block<T>)
    requires m.Inv() && i < |m.blocks|
    requires b.Valid() && b.next == m.blocks[i].next && b.Size() == m.blocks[i].Size()
    ensures m.Put(i, b).InBounds() && m.Put(i, b).Circle() && m.Put(i, b).Sizes()
  {
  }

  lemma PutShape<T>(m: Chain<T>, i: nat, b: Block<T>)
    requires m.Inv() && i < |m.blocks|
    requires b.Valid() && b.next == m.blocks[i].next && b.Size() == m.blocks[i].Size()
    requires b.front == m.blocks[i].front && b.tail == m.blocks[i].tail
    ensures m.Put(i, b).Inv()
  {
    PutCircle(m, i, b);
  }

  /** A new block outside the circle. */
  lemma AddKeeps<T>(m: Chain<T>, b: Block<T>)
    requires m.Inv() && b.Valid() && b.next <= |m.blocks| && m.minSize <= b.Size()
    ensures m.(blocks := m.blocks + [b]).Inv() && m.(blocks := m.blocks + [b]).Held() == m.Held()
  {
    AddCircle(m, b);
    FlatFrame(m.blocks, m.blocks + [b], m.ring[..m.tpos + 1]);
  }

  lemma AddCircle<T>(m: Chain<T>, b: Block<T>)
    requires m.Inv() && b.Valid() && b.next <= |m.blocks| && m.minSize <= b.Size()
    ensures m.(blocks := m.blocks + [b]).Inv()
  {
    var m' := m.(blocks := m.blocks + [b]);
    assert m'.InBounds();
    assert forall j :: 0 <= j < |m.ring| ==> m'.blocks[m.ring[j]] == m.blocks[m.ring[j]];
  }

  /** Setting the successor of a block outside the circle. */
  lemma AimKeeps<T>(m: Chain<T>, i: nat, next: nat)
    requires m.Inv() && i < |m.blocks| && i !in m.ring && next < |m.blocks|
    ensures m.Put(i, m.blocks[i].(next := next)).Inv()
    ensures m.Put(i, m.blocks[i].(next := next)).Held() == m.Held()
  {
    AimBounds(m, i, next);
    AimShape(m, i, next);
    FlatFrame(m.blocks, m.Put(i, m.blocks[i].(next := next)).blocks, m.ring[..m.tpos + 1]);
  }

  lemma AimBounds<T>(m: Chain<T>, i: nat, next: nat)
    requires m.Inv() && i < |m.blocks| && next < |m.blocks|
    ensures var m' := m.Put(i, m.blocks[i].(next := next)); m'.InBounds() && m'.Sizes()
  {
    assert m.blocks[i].Shadows();
  }

  lemma AimShape<T>(m: Chain<T>, i: nat, next: nat)
    requires m.Inv() && i < |m.blocks| && i !in m.ring && m.Put(i, m.blocks[i].(next := next)).InBounds()
    ensures var m' := m.Put(i, m.blocks[i].(next := next)); m'.Circle() && m'.Shape()
  {
    var m' := m.Put(i, m.blocks[i].(next := next));
    assert forall j :: 0 <= j < |m.ring| ==> m'.blocks[m.ring[j]] == m.blocks[m.ring[j]];
  }

  // --- Enqueue ---------------------------------------------------------------

  /** Storing the tail index of the tail block appends the constructed element. */
  lemma PublishAtTail<T>(m: Chain<T>, b: Block<T>, x: T)
    requires m.Inv() && b == m.blocks[m.tailBlock]
    requires b.data[b.tail] == x && b.After(b.tail) != b.localFront
    ensures var m' := m.Put(m.tailBlock, b.(tail := b.After(b.tail)));
            m'.Inv() && m'.Held() == m.Held() + [x]
  {
    var b' := b.(tail := b.After(b.tail));
    assert b.Shadows();
    PublishAppends(b, x);
    PutCircle(m, m.tailBlock, b');
    PublishShape(m, b, b');
    PublishHeld(m, b, b', x);
  }

  lemma PublishShape<T>(m: Chain<T>, b: Block<T>, b': Block<T>)
    requires m.Inv() && b == m.blocks[m.tailBlock] && b' == b.(tail := b.After(b.tail))
    requires b'.Valid() && b'.Content() == b.Content() + [b.data[b.tail]] && m.Put(m.tailBlock, b').InBounds()
    ensures m.Put(m.tailBlock, b').Shape()
  {
    var m' := m.Put(m.tailBlock, b');
    assert |b'.Content()| == |b.Content()| + 1;
    assert forall j :: 0 <= j < |m.ring| && j != m.tpos ==> m'.blocks[m.ring[j]] == m.blocks[m.ring[j]];
  }

  lemma PublishHeld<T>(m: Chain<T>, b: Block<T>, b': Block<T>, x: T)
    requires m.InBounds() && m.Circle() && b == m.blocks[m.tailBlock]
    requires b'.Valid() && b'.Content() == b.Content() + [x] && m.Put(m.tailBlock, b').InBounds()
    ensures m.Put(m.tailBlock, b').Held() == m.Held() + [x]
  {
    var m' := m.Put(m.tailBlock, b');
    TailLast(m);
    TailLast(m');
    FlatFrame(m.blocks, m'.blocks, m.ring[..m.tpos]);
    SeqAssoc(Flat(m.blocks, m.ring[..m.tpos]), b.Content(), [x]);
  }

  /** The tail block's elements are the youngest. */
  lemma TailLast<T>(m: Chain<T>)
    requires m.InBounds() && m.ring[m.tpos] == m.tailBlock
    ensures m.Held() == Flat(m.blocks, m.ring[..m.tpos]) + m.blocks[m.tailBlock].Content()
  {
    assert m.ring[..m.tpos + 1] == m.ring[..m.tpos] + [m.tailBlock];
    FlatAppend(m.blocks, m.ring[..m.tpos], [m.tailBlock]);
    FlatOne(m.blocks, m.tailBlock);
  }

  /** Storing the tail index of the free block after the tail block. */
  lemma PublishAhead<T>(m: Chain<T>, nb: nat, b: Block<T>, x: T)
    requires m.Inv() && m.ahead == 0 && m.tpos + 1 < |m.ring| && nb == m.ring[m.tpos + 1]
    requires b == m.blocks[nb] && b.Empty() && b.localFront == b.tail && b.data[b.tail] == x
    ensures var m' := m.Put(nb, b.(tail := b.After(b.tail))).(ahead := 1);
            m'.Inv() && m'.Held() == m.Held() && m'.blocks[nb].Content() == [x]
  {
    var b' := b.(tail := b.After(b.tail));
    assert b.Shadows();
    PublishAppends(b, x);
    PutCircle(m, nb, b');
    AheadShape(m, nb, b');
    PutAheadHeld(m, nb, b');
  }

  lemma AheadShape<T>(m: Chain<T>, nb: nat, b: Block<T>)
    requires m.Inv() && m.ahead == 0 && m.tpos + 1 < |m.ring| && nb == m.ring[m.tpos + 1]
    requires b.Valid() && m.Put(nb, b).InBounds()
    ensures m.Put(nb, b).(ahead := 1).Shape()
  {
    var m' := m.Put(nb, b);
    assert forall j :: 0 <= j < |m.ring| && j != m.tpos + 1 ==> m'.blocks[m.ring[j]] == m.blocks[m.ring[j]];
  }

  lemma PutAheadHeld<T>(m: Chain<T>, nb: nat, b: Block<T>)
    requires m.InBounds() && m.Circle() && m.tpos + 1 < |m.ring| && nb == m.ring[m.tpos + 1]
    requires b.Valid() && m.Put(nb, b).InBounds()
    ensures m.Put(nb, b).Held() == m.Held()
  {
    FlatFrame(m.blocks, m.Put(nb, b).blocks, m.ring[..m.tpos + 1]);
  }

  /** The chain after linking block `nb` between the tail block and its successor. */
  function Linked<T>(m: Chain<T>, tb: nat, nb: nat): Chain<T>
    requires m.InBounds() && tb < |m.blocks|
  {
    m.Put(tb, m.blocks[tb].(next := nb)).(
      ring := m.ring[..m.tpos + 1] + [nb] + m.ring[m.tpos + 1..], ahead := 1)
  }

  lemma LinkAhead<T>(m: Chain<T>, nb: nat)
    requires m.Inv() && m.ahead == 0 && nb < |m.blocks| && nb !in m.ring
    requires m.blocks[nb].next == if m.tpos + 1 == |m.ring| then m.ring[0] else m.ring[m.tpos + 1]
    ensures Linked(m, m.tailBlock, nb).Inv() && Linked(m, m.tailBlock, nb).Held() == m.Held()
  {
    LinkBounds(m, nb);
    LinkCircle(m, nb);
    LinkShape(m, nb);
    var m' := Linked(m, m.tailBlock, nb);
    assert m'.ring[..m'.tpos + 1] == m.ring[..m.tpos + 1];
    FlatFrame(m.blocks, m'.blocks, m.ring[..m.tpos + 1]);
  }

  lemma LinkBounds<T>(m: Chain<T>, nb: nat)
    requires m.Inv() && nb < |m.blocks|
    ensures Linked(m, m.tailBlock, nb).InBounds() && Linked(m, m.tailBlock, nb).Sizes()
  {
    assert m.blocks[m.tailBlock].Shadows();
  }

  /** Where the entries of the enlarged circle come from. */
  lemma LinkedRing<T>(m: Chain<T>, nb: nat, i: nat)
    requires m.InBounds() && i <= |m.ring|
    ensures Linked(m, m.tailBlock, nb).ring[i] ==
              if i <= m.tpos then m.ring[i] else if i == m.tpos + 1 then nb else m.ring[i - 1]
  {
  }

  lemma LinkCircle<T>(m: Chain<T>, nb: nat)
    requires m.Inv() && nb < |m.blocks| && nb !in m.ring && Linked(m, m.tailBlock, nb).InBounds()
    requires m.blocks[nb].next == if m.tpos + 1 == |m.ring| then m.ring[0] else m.ring[m.tpos + 1]
    ensures Linked(m, m.tailBlock, nb).Circle()
  {
    var m' := Linked(m, m.tailBlock, nb);
    LinkedRing(m, nb, 0);
    LinkedRing(m, nb, m.tpos);
    forall i, j | 0 <= i < j < |m'.ring|
      ensures m'.ring[i] != m'.ring[j]
    {
      LinkedRing(m, nb, i);
      LinkedRing(m, nb, j);
    }
    forall i, j | 0 <= i < |m'.ring| && 0 <= j < |m'.ring| && m'.Consecutive(i, j)
      ensures m'.blocks[m'.ring[i]].next == m'.ring[j]
    {
      LinkNext(m, nb, i, j);
    }
  }

  lemma LinkNext<T>(m: Chain<T>, nb: nat, i: nat, j: nat)
    requires m.InBounds() && m.Circle() && nb < |m.blocks| && nb !in m.ring
    requires m.blocks[nb].next == if m.tpos + 1 == |m.ring| then m.ring[0] else m.ring[m.tpos + 1]
    requires i <= |m.ring| && j <= |m.ring| && Linked(m, m.tailBlock, nb).Consecutive(i, j)
    requires Linked(m, m.tailBlock, nb).InBounds()
    ensures var m' := Linked(m, m.tailBlock, nb); m'.blocks[m'.ring[i]].next == m'.ring[j]
  {
    LinkedRing(m, nb, i);
    LinkedRing(m, nb, j);
    var i0 := if i <= m.tpos then i else i - 1;
    var j0 := if j <= m.tpos then j else j - 1;
    if i != m.tpos && i != m.tpos + 1 {
      assert m.blocks[m.ring[i0]].next == m.ring[j0];
    }
  }

  lemma LinkShape<T>(m: Chain<T>, nb: nat)
    requires m.Inv() && m.ahead == 0 && nb < |m.blocks| && nb !in m.ring && Linked(m, m.tailBlock, nb).InBounds()
    ensures Linked(m, m.tailBlock, nb).Shape()
  {
    var m' := Linked(m, m.tailBlock, nb);
    assert forall j :: 0 <= j <= m.tpos ==> m'.ring[j] == m.ring[j];
    assert forall j :: m.tpos + 1 < j < |m'.ring| ==> m'.ring[j] == m.ring[j - 1];
  }

  /** Storing the tail block pointer publishes the element waiting ahead. */
  lemma AdvanceTail<T>(m: Chain<T>, nb: nat, x: T)
    requires m.Inv() && m.ahead == 1 && nb == m.ring[m.tpos + 1] && m.blocks[nb].Content() == [x]
    requires 0 < m.tpos ==> m.blocks[m.tailBlock].Full()
    ensures var m' := m.(tailBlock := nb, tpos := m.tpos + 1, ahead := 0);
            m'.Inv() && m'.Held() == m.Held() + [x]
  {
    var m' := m.(tailBlock := nb, tpos := m.tpos + 1, ahead := 0);
    assert m'.InBounds() && m'.Circle();
    assert |m.blocks[nb].Content()| == 1;
    TailLast(m');
  }

  // --- Dequeue ---------------------------------------------------------------

  /** Storing the front index of the front block removes the oldest element. */
  lemma ReleaseAtFront<T>(m: Chain<T>, b: Block<T>)
    requires m.Inv() && b == m.blocks[m.frontBlock] && b.front != b.localTail
    ensures var m' := m.Put(m.frontBlock, b.(front := b.After(b.front)));
            m'.Inv() && m.Held() == [b.data[b.front]] + m'.Held()
  {
    var b' := b.(front := b.After(b.front));
    assert b.Shadows();
    ReleaseRemovesOldest(b);
    PutCircle(m, m.frontBlock, b');
    ReleaseShape(m, b, b');
    ReleaseHeld(m, b, b', b.data[b.front]);
  }

  lemma ReleaseShape<T>(m: Chain<T>, b: Block<T>, b': Block<T>)
    requires m.Inv() && b == m.blocks[m.frontBlock] && b.front != b.localTail
    requires b' == b.(front := b.After(b.front)) && m.Put(m.frontBlock, b').InBounds()
    ensures m.Put(m.frontBlock, b').Shape()
  {
    var m' := m.Put(m.frontBlock, b');
    assert forall j :: 0 < j < |m.ring| ==> m'.blocks[m.ring[j]] == m.blocks[m.ring[j]];
  }

  lemma ReleaseHeld<T>(m: Chain<T>, b: Block<T>, b': Block<T>, x: T)
    requires m.InBounds() && m.Circle() && b == m.blocks[m.frontBlock]
    requires b'.Valid() && b.Content() == [x] + b'.Content() && m.Put(m.frontBlock, b').InBounds()
    ensures m.Held() == [x] + m.Put(m.frontBlock, b').Held()
  {
    var m' := m.Put(m.frontBlock, b');
    var ids := m.ring[..m.tpos + 1];
    FlatFrame(m.blocks, m'.blocks, ids[1..]);
    SeqAssoc([x], b'.Content(), Flat(m.blocks, ids[1..]));
  }

  /** The chain after the front pointer has moved on to the next block. */
  function Rotated<T>(m: Chain<T>, nb: nat): Chain<T>
    requires 0 < m.tpos < |m.ring|
  {
    m.(frontBlock := nb, ring := m.ring[1..] + [m.ring[0]], tpos := m.tpos - 1)
  }

  /** Storing the front block pointer leaves a drained block behind. */
  lemma AdvanceFront<T>(m: Chain<T>)
    requires m.Inv() && 0 < m.tpos && m.blocks[m.frontBlock].Empty()
    ensures Rotated(m, m.ring[1]).Inv() && Rotated(m, m.ring[1]).Held() == m.Held()
  {
    var m' := Rotated(m, m.ring[1]);
    RotatedCircle(m);
    RotatedShape(m);
    assert m.ring[..m.tpos + 1][1..] == m'.ring[..m'.tpos + 1];
  }

  lemma RotatedCircle<T>(m: Chain<T>)
    requires m.Inv() && 0 < m.tpos
    ensures Rotated(m, m.ring[1]).InBounds() && Rotated(m, m.ring[1]).Circle() && Rotated(m, m.ring[1]).Sizes()
  {
    var m' := Rotated(m, m.ring[1]);
    forall i, j | 0 <= i < |m'.ring| && 0 <= j < |m'.ring| && m'.Consecutive(i, j)
      ensures m'.blocks[m'.ring[i]].next == m'.ring[j]
    {
      assert m'.ring[i] == m.ring[if i + 1 == |m.ring| then 0 else i + 1];
      assert m'.ring[j] == m.ring[if j + 1 == |m.ring| then 0 else j + 1];
    }
  }

  lemma RotatedShape<T>(m: Chain<T>)
    requires m.Inv() && 0 < m.tpos && m.blocks[m.frontBlock].Empty() && Rotated(m, m.ring[1]).InBounds()
    ensures Rotated(m, m.ring[1]).Shape()
  {
    var m' := Rotated(m, m.ring[1]);
    assert forall j :: 0 <= j < |m.ring| - 1 ==> m'.ring[j] == m.ring[j + 1];
  }
}
