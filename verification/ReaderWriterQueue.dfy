/** The lock-free single-producer, single-consumer queue as a state machine.
    Each thread is a program counter that carries its live locals, and every
    atomic load and store of the source is one step, so a schedule is any
    interleaving of the two threads. */
module ReaderWriterQueue {
  import opened SeqFacts
  import opened Wrappers
  import opened RingBlock
  import opened BlockChain
  import Pow2

  /** Program counter of `innerEnqueue`. */
  datatype Producer<T> =
    | PIdle
    | PReadTailBlock(x: T, alloc: bool)
    | PReadTail(x: T, alloc: bool, tb: nat, bf: nat)
    | PReadFront(x: T, alloc: bool, tb: nat, bt: nat, nt: nat)
    | PConstruct(x: T, tb: nat, bt: nat, nt: nat)
    | PStoreTail(x: T, tb: nat, nt: nat)
    | PReadNext(x: T, alloc: bool, tb: nat)
    | PReadFrontBlock(x: T, alloc: bool, tb: nat, nb: nat)
    | PReadNextAgain(x: T, tb: nat)
    | PReadNextFront(x: T, nb: nat)
    | PReadNextTail(x: T, nb: nat, nbf: nat)
    | PConstructNext(x: T, nb: nat, nbt: nat)
    | PStoreNextTail(x: T, nb: nat, nbt: nat)
    | PAllocate(x: T, tb: nat)
    | PReadNextForNew(x: T, tb: nat, nb: nat)
    | PLink(x: T, tb: nat, nb: nat)
    | PStoreTailBlock(x: T, nb: nat)
    | PDone(ok: bool)

  /** Program counter of `tryDequeue`. */
  datatype Consumer<T> =
    | CIdle
    | CReadFrontBlock
    | CReadFront(fb: nat, bt: nat)
    | CReadTail(fb: nat, bf: nat)
    | CReadTailBlock(fb: nat)
    | CReadFrontBlockAgain
    | CRereadTail(fb: nat)
    | CRereadFront(fb: nat, bt: nat)
    | CReadNext(fb: nat)
    | CReadNextFront(nb: nat)
    | CReadNextTail(nb: nat, nbf: nat)
    | CStoreFrontBlock(nb: nat, nbf: nat)
    | CTake(fb: nat, bf: nat)
    | CStoreFront(fb: nat, bf: nat, res: T)
    | CDone(result: Option<T>)

  datatype State<T> = State(
    m: Chain<T>,       // the shared memory
    largest: nat,      // largest_block_size_
    maxBlock: nat,     // MAX_BLOCK_SIZE
    p: Producer<T>,
    c: Consumer<T>,
    // history: never read by a step
    accepted: seq<T>,  // successful enqueues, in order
    taken: seq<T>,     // successful dequeues, in order
    pSaw: nat,         // elements held when the producer last found its block full
    cSaw: nat,         // elements held when the consumer last found its block empty
    capacity: nat)     // max_size of the constructor

  /** What the environment decides in a step: the element and mode of a new
      call, whether an allocation succeeds, and what fresh memory contains. */
  datatype Env<T> = Env(x: T, alloc: bool, granted: bool, junk: nat -> T)

  // --- Steps ---------------------------------------------------------------

  /** Every block and slot the next step touches exists. */
  predicate ProducerDefined<T>(m: Chain<T>, p: Producer<T>) {
    match p
    case PIdle => true
    case PReadTailBlock(_, _) => true
    case PReadTail(_, _, tb, _) => tb < |m.blocks|
    case PReadFront(_, _, tb, _, _) => tb < |m.blocks|
    case PConstruct(_, tb, bt, _) => tb < |m.blocks| && bt < m.blocks[tb].Size()
    case PStoreTail(_, tb, _) => tb < |m.blocks|
    case PReadNext(_, _, tb) => tb < |m.blocks|
    case PReadFrontBlock(_, _, _, _) => true
    case PReadNextAgain(_, tb) => tb < |m.blocks|
    case PReadNextFront(_, nb) => nb < |m.blocks|
    case PReadNextTail(_, nb, _) => nb < |m.blocks|
    case PConstructNext(_, nb, nbt) => nb < |m.blocks| && nbt < m.blocks[nb].Size()
    case PStoreNextTail(_, nb, nbt) => nb < |m.blocks| && nbt < m.blocks[nb].Size()
    case PAllocate(_, _) => true
    case PReadNextForNew(_, tb, nb) => tb < |m.blocks| && nb < |m.blocks|
    case PLink(_, tb, _) => tb < |m.blocks|
    case PStoreTailBlock(_, _) => true
    case PDone(_) => true
  }

  predicate ConsumerDefined<T>(m: Chain<T>, c: Consumer<T>) {
    match c
    case CIdle => true
    case CReadFrontBlock => true
    case CReadFront(fb, _) => fb < |m.blocks|
    case CReadTail(fb, _) => fb < |m.blocks|
    case CReadTailBlock(_) => true
    case CReadFrontBlockAgain => true
    case CRereadTail(fb) => fb < |m.blocks|
    case CRereadFront(fb, _) => fb < |m.blocks|
    case CReadNext(fb) => fb < |m.blocks|
    case CReadNextFront(nb) => nb < |m.blocks|
    case CReadNextTail(nb, _) => nb < |m.blocks|
    case CStoreFrontBlock(_, _) => 0 < m.tpos
    case CTake(fb, bf) => fb < |m.blocks| && bf < m.blocks[fb].Size()
    case CStoreFront(fb, bf, _) => fb < |m.blocks| && bf < m.blocks[fb].Size()
    case CDone(_) => true
  }

  predicate Defined<T>(s: State<T>) {
    && s.m.InBounds() && 2 <= s.largest
    && ProducerDefined(s.m, s.p) && ConsumerDefined(s.m, s.c)
  }

  /** A block of `size` slots of uninitialised memory. */
  function MakeBlock<T>(size: nat, junk: nat -> T): Block<T> {
    Block(0, 0, 0, 0, 0, seq(size, i requires 0 <= i < size => junk(i)))
  }

  function NewBlockSize<T>(s: State<T>): nat {
    if s.largest >= s.maxBlock then s.largest else s.largest * 2
  }

  /** One atomic step of `innerEnqueue`. */
  function ProducerStep<T>(s: State<T>, e: Env<T>): State<T>
    requires Defined(s)
  {
    var m := s.m;
    match s.p
    case PIdle => s.(p := PReadTailBlock(e.x, e.alloc))
    case PReadTailBlock(x, alloc) =>
      s.(p := PReadTail(x, alloc, m.tailBlock, m.blocks[m.tailBlock].localFront))
    case PReadTail(x, alloc, tb, bf) =>
      var bt := m.blocks[tb].tail;
      var nt := m.blocks[tb].After(bt);
      s.(p := if nt != bf then PConstruct(x, tb, bt, nt) else PReadFront(x, alloc, tb, bt, nt))
    case PReadFront(x, alloc, tb, bt, nt) =>
      var front := m.blocks[tb].front;
      var s' := s.(m := m.Put(tb, m.blocks[tb].(localFront := front)));
      if nt != front then s'.(p := PConstruct(x, tb, bt, nt))
      else s'.(p := PReadNext(x, alloc, tb), pSaw := |m.Held()|)
    case PConstruct(x, tb, bt, nt) =>
      s.(m := m.Put(tb, m.blocks[tb].(data := m.blocks[tb].data[bt := x])), p := PStoreTail(x, tb, nt))
    case PStoreTail(x, tb, nt) =>
      s.(m := m.Put(tb, m.blocks[tb].(tail := nt)), p := PDone(true), accepted := s.accepted + [x])
    case PReadNext(x, alloc, tb) =>
      s.(p := PReadFrontBlock(x, alloc, tb, m.blocks[tb].next))
    case PReadFrontBlock(x, alloc, tb, nb) =>
      s.(p := if nb != m.frontBlock then PReadNextAgain(x, tb) else if alloc then PAllocate(x, tb) else PDone(false))
    case PReadNextAgain(x, tb) =>
      s.(p := PReadNextFront(x, m.blocks[tb].next))
    case PReadNextFront(x, nb) =>
      s.(m := m.Put(nb, m.blocks[nb].(localFront := m.blocks[nb].front)), p := PReadNextTail(x, nb, m.blocks[nb].front))
    case PReadNextTail(x, nb, nbf) =>
      s.(m := m.Put(nb, m.blocks[nb].(localFront := nbf)), p := PConstructNext(x, nb, m.blocks[nb].tail))
    case PConstructNext(x, nb, nbt) =>
      s.(m := m.Put(nb, m.blocks[nb].(data := m.blocks[nb].data[nbt := x])), p := PStoreNextTail(x, nb, nbt))
    case PStoreNextTail(x, nb, nbt) =>
      s.(m := m.Put(nb, m.blocks[nb].(tail := m.blocks[nb].After(nbt))).(ahead := 1), p := PStoreTailBlock(x, nb))
    case PAllocate(x, tb) =>
      if !e.granted then s.(p := PDone(false))
      else
        var size := NewBlockSize(s);
        var raw := MakeBlock(size, e.junk);
        var b := raw.(data := raw.data[0 := x], tail := 1, localTail := 1);
        s.(m := m.(blocks := m.blocks + [b]), largest := size, p := PReadNextForNew(x, tb, |m.blocks|))
    case PReadNextForNew(x, tb, nb) =>
      s.(m := m.Put(nb, m.blocks[nb].(next := m.blocks[tb].next)), p := PLink(x, tb, nb))
    case PLink(x, tb, nb) => s.(m := Linked(m, tb, nb), p := PStoreTailBlock(x, nb))
    case PStoreTailBlock(x, nb) =>
      s.(m := m.(tailBlock := nb, tpos := m.tpos + 1, ahead := 0), p := PDone(true), accepted := s.accepted + [x])
    case PDone(_) => s.(p := PIdle)
  }

  /** One atomic step of `tryDequeue`. */
  function ConsumerStep<T>(s: State<T>): State<T>
    requires Defined(s)
  {
    var m := s.m;
    match s.c
    case CIdle => s.(c := CReadFrontBlock)
    case CReadFrontBlock =>
      s.(c := CReadFront(m.frontBlock, m.blocks[m.frontBlock].localTail))
    case CReadFront(fb, bt) =>
      var bf := m.blocks[fb].front;
      s.(c := if bf != bt then CTake(fb, bf) else CReadTail(fb, bf))
    case CReadTail(fb, bf) =>
      var tail := m.blocks[fb].tail;
      var s' := s.(m := m.Put(fb, m.blocks[fb].(localTail := tail)));
      if bf != tail then s'.(c := CTake(fb, bf))
      else s'.(c := CReadTailBlock(fb), cSaw := |m.Held()|)
    case CReadTailBlock(fb) =>
      s.(c := if fb != m.tailBlock then CReadFrontBlockAgain else CDone(None))
    case CReadFrontBlockAgain => s.(c := CRereadTail(m.frontBlock))
    case CRereadTail(fb) =>
      s.(m := m.Put(fb, m.blocks[fb].(localTail := m.blocks[fb].tail)), c := CRereadFront(fb, m.blocks[fb].tail))
    case CRereadFront(fb, bt) =>
      var bf := m.blocks[fb].front;
      s.(c := if bf != bt then CTake(fb, bf) else CReadNext(fb))
    case CReadNext(fb) => s.(c := CReadNextFront(m.blocks[fb].next))
    case CReadNextFront(nb) => s.(c := CReadNextTail(nb, m.blocks[nb].front))
    case CReadNextTail(nb, nbf) =>
      s.(m := m.Put(nb, m.blocks[nb].(localTail := m.blocks[nb].tail)), c := CStoreFrontBlock(nb, nbf))
    case CStoreFrontBlock(nb, nbf) => s.(m := Rotated(m, nb), c := CTake(nb, nbf))
    case CTake(fb, bf) => s.(c := CStoreFront(fb, bf, m.blocks[fb].data[bf]))
    case CStoreFront(fb, bf, res) =>
      s.(m := m.Put(fb, m.blocks[fb].(front := m.blocks[fb].After(bf))), c := CDone(Some(res)),
         taken := s.taken + [res])
    case CDone(_) => s.(c := CIdle)
  }

  // --- Invariant -----------------------------------------------------------

  /** Fewest elements that can occupy a circle of `n` blocks of at least `size`
      slots, the front block not counted unless it is the only one. */
  function Slots(n: nat, size: nat): nat
    requires 1 <= size
  {
    (if n <= 1 then 1 else n - 1) * (size - 1)
  }

  /** Unless the consumer has caught up with it, the tail block is still full. */
  ghost predicate TailStillFull<T>(m: Chain<T>)
    requires m.InBounds()
  {
    0 < m.tpos ==> m.blocks[m.tailBlock].Full()
  }

  /** Block `nb` follows the tail block and is not the front block. */
  ghost predicate NextIsFree<T>(m: Chain<T>, nb: nat)
    requires m.InBounds()
  {
    m.ahead == 0 && TailStillFull(m) && m.tpos + 1 < |m.ring| && nb == m.blocks[m.tailBlock].next
  }

  /** A block not yet linked into the circle, holding only `x`. */
  ghost predicate FreshBlock<T>(m: Chain<T>, x: T, nb: nat)
    requires m.InBounds()
  {
    nb < |m.blocks| && nb !in m.ring && m.blocks[nb].Content() == [x]
  }

  /** If the front block is still the one after the tail, then the whole circle
      was occupied when the producer found its block full. */
  ghost predicate SawFull<T>(m: Chain<T>, pSaw: nat) {
    m.tpos + 1 == |m.ring| && 1 <= m.minSize ==> Slots(|m.ring|, m.minSize) <= pSaw
  }

  ghost predicate ProducerInv<T>(m: Chain<T>, p: Producer<T>, pSaw: nat, capacity: nat)
    requires m.InBounds()
  {
    match p
    case PIdle => m.ahead == 0
    case PReadTailBlock(_, _) => m.ahead == 0
    case PReadTail(_, _, tb, bf) => m.ahead == 0 && tb == m.tailBlock && bf == m.blocks[tb].localFront
    case PReadFront(_, _, tb, bt, nt) =>
      && m.ahead == 0 && tb == m.tailBlock
      && bt == m.blocks[tb].tail && nt == m.blocks[tb].After(bt)
    case PConstruct(_, tb, bt, nt) =>
      && m.ahead == 0 && tb == m.tailBlock
      && bt == m.blocks[tb].tail && nt == m.blocks[tb].After(bt) && nt != m.blocks[tb].localFront
    case PStoreTail(x, tb, nt) =>
      && m.ahead == 0 && tb == m.tailBlock
      && nt == m.blocks[tb].After(m.blocks[tb].tail) && nt != m.blocks[tb].localFront
      && m.blocks[tb].data[m.blocks[tb].tail] == x
    case PReadNext(_, _, tb) => m.ahead == 0 && tb == m.tailBlock && TailStillFull(m) && SawFull(m, pSaw)
    case PReadFrontBlock(_, _, tb, nb) =>
      && m.ahead == 0 && tb == m.tailBlock && TailStillFull(m) && SawFull(m, pSaw)
      && nb == m.blocks[m.tailBlock].next
    case PReadNextAgain(_, tb) => tb == m.tailBlock && NextIsFree(m, m.blocks[tb].next)
    case PReadNextFront(_, nb) => NextIsFree(m, nb)
    case PReadNextTail(_, nb, nbf) => NextIsFree(m, nb) && nbf == m.blocks[nb].front == m.blocks[nb].localFront
    case PConstructNext(_, nb, nbt) => NextIsFree(m, nb) && nbt == m.blocks[nb].tail == m.blocks[nb].localFront
    case PStoreNextTail(x, nb, nbt) =>
      && NextIsFree(m, nb) && nbt == m.blocks[nb].tail == m.blocks[nb].localFront
      && m.blocks[nb].data[nbt] == x
    case PAllocate(_, tb) => m.ahead == 0 && tb == m.tailBlock && TailStillFull(m) && capacity <= pSaw
    case PReadNextForNew(x, tb, nb) =>
      m.ahead == 0 && tb == m.tailBlock && TailStillFull(m) && FreshBlock(m, x, nb)
    case PLink(x, tb, nb) =>
      && m.ahead == 0 && tb == m.tailBlock && TailStillFull(m) && FreshBlock(m, x, nb)
      && m.blocks[nb].next == m.blocks[tb].next
    case PStoreTailBlock(x, nb) =>
      && m.ahead == 1 && TailStillFull(m) && nb == m.blocks[m.tailBlock].next
      && m.blocks[nb].Content() == [x]
    case PDone(ok) => m.ahead == 0 && (!ok ==> capacity <= pSaw)
  }

  /** The consumer's block is drained and there is another one ahead. */
  ghost predicate FrontDrained<T>(m: Chain<T>)
    requires m.InBounds()
  {
    0 < m.tpos && m.blocks[m.frontBlock].Empty()
  }

  ghost predicate ConsumerInv<T>(m: Chain<T>, c: Consumer<T>, cSaw: nat)
    requires m.InBounds()
  {
    match c
    case CIdle => true
    case CReadFrontBlock => true
    case CReadFront(fb, bt) => fb == m.frontBlock && bt == m.blocks[fb].localTail
    case CReadTail(fb, bf) => fb == m.frontBlock && bf == m.blocks[fb].front
    case CReadTailBlock(fb) => fb == m.frontBlock && (m.tpos == 0 ==> cSaw == 0)
    case CReadFrontBlockAgain => 0 < m.tpos
    case CRereadTail(fb) => fb == m.frontBlock && 0 < m.tpos
    case CRereadFront(fb, bt) =>
      fb == m.frontBlock && 0 < m.tpos && bt == m.blocks[fb].tail == m.blocks[fb].localTail
    case CReadNext(fb) => fb == m.frontBlock && FrontDrained(m)
    case CReadNextFront(nb) => FrontDrained(m) && nb == m.blocks[m.frontBlock].next
    case CReadNextTail(nb, nbf) =>
      FrontDrained(m) && nb == m.blocks[m.frontBlock].next && nbf == m.blocks[nb].front
    case CStoreFrontBlock(nb, nbf) =>
      && FrontDrained(m) && nb == m.blocks[m.frontBlock].next
      && nbf == m.blocks[nb].front && nbf != m.blocks[nb].localTail
    case CTake(fb, bf) =>
      fb == m.frontBlock && bf == m.blocks[fb].front && bf != m.blocks[fb].localTail
    case CStoreFront(fb, bf, res) =>
      && fb == m.frontBlock && bf == m.blocks[fb].front && bf != m.blocks[fb].localTail
      && res == m.blocks[fb].data[bf]
    case CDone(result) => result.None? ==> cSaw == 0
  }

  ghost predicate Capacity<T>(m: Chain<T>, capacity: nat) {
    1 <= m.minSize && capacity <= Slots(|m.ring|, m.minSize)
  }

  ghost predicate Inv<T>(s: State<T>) {
    && s.m.Inv()
    && s.m.minSize <= s.largest && Capacity(s.m, s.capacity)
    && ProducerInv(s.m, s.p, s.pSaw, s.capacity)
    && ConsumerInv(s.m, s.c, s.cSaw)
    && s.accepted == s.taken + s.m.Held()
  }

  lemma InvIsDefined<T>(s: State<T>)
    requires Inv(s)
    ensures Defined(s)
  {
  }

  // --- What one thread may do under the other's feet -------------------------

  ghost predicate SameForProducer<T>(b: Block<T>, b': Block<T>) {
    b'.tail == b.tail && b'.localFront == b.localFront && b'.data == b.data && b'.next == b.next
  }

  /** Effect of a consumer store, as far as the producer can tell. */
  ghost predicate ConsumerMay<T>(m: Chain<T>, m': Chain<T>)
    requires m.InBounds() && m'.InBounds()
  {
    && m'.tailBlock == m.tailBlock && |m'.blocks| == |m.blocks| && |m'.ring| == |m.ring|
    && m'.tpos <= m.tpos && m'.ahead == m.ahead && m'.minSize == m.minSize
    && SameForProducer(m.blocks[m.tailBlock], m'.blocks[m.tailBlock])
    && (0 < m'.tpos ==> m'.blocks[m.tailBlock].front == m.blocks[m.tailBlock].front)
    && (m.tpos + 1 < |m.ring| ==>
          var nb := m.blocks[m.tailBlock].next;
          SameForProducer(m.blocks[nb], m'.blocks[nb]) && m'.blocks[nb].front == m.blocks[nb].front)
    && (forall k :: 0 <= k < |m.blocks| && k !in m.ring ==> k !in m'.ring && m'.blocks[k] == m.blocks[k])
  }

  lemma ProducerUndisturbed<T>(m: Chain<T>, m': Chain<T>, p: Producer<T>, pSaw: nat, capacity: nat)
    requires m.Inv() && m'.Inv() && ConsumerMay(m, m') && ProducerInv(m, p, pSaw, capacity)
    ensures ProducerInv(m', p, pSaw, capacity)
  {
  }

  /** Effect of a producer store, as far as the consumer can tell. */
  ghost predicate ProducerMay<T>(m: Chain<T>, m': Chain<T>)
    requires m.InBounds() && m'.InBounds()
  {
    && m'.frontBlock == m.frontBlock && m.tpos <= m'.tpos && |m.blocks| <= |m'.blocks|
    && (0 < m.tpos ==>
          && m'.blocks[m.frontBlock] == m.blocks[m.frontBlock]
          && var nb := m.blocks[m.frontBlock].next;
             m'.blocks[nb].front == m.blocks[nb].front && m'.blocks[nb].localTail == m.blocks[nb].localTail)
    && var b, b' := m.blocks[m.frontBlock], m'.blocks[m.frontBlock];
       && b'.front == b.front && b'.localTail == b.localTail
       && (b.front != b.localTail ==> b'.data[b.front] == b.data[b.front])
  }

  lemma ConsumerUndisturbed<T>(m: Chain<T>, m': Chain<T>, c: Consumer<T>, cSaw: nat)
    requires m.Inv() && m'.Inv() && ProducerMay(m, m') && ConsumerInv(m, c, cSaw)
    ensures ConsumerInv(m', c, cSaw)
  {
  }

  /** Where the two pointers' successors sit in the circle. */
  lemma Successors<T>(m: Chain<T>)
    requires m.Inv()
    ensures m.blocks[m.tailBlock].next == if m.tpos + 1 < |m.ring| then m.ring[m.tpos + 1] else m.frontBlock
    ensures m.tpos + 1 < |m.ring| ==> m.blocks[m.tailBlock].next != m.frontBlock
    ensures 0 < m.tpos ==> m.blocks[m.frontBlock].next == m.ring[1]
    ensures m.tailBlock == m.frontBlock <==> m.tpos == 0
    ensures m.ring[0] == m.frontBlock && m.ring[m.tpos] == m.tailBlock && m.tpos + m.ahead < |m.ring|
    ensures m.ahead == 0 && m.tpos + 1 < |m.ring| ==> m.blocks[m.ring[m.tpos + 1]].Empty()
  {
  }

  // --- Stores, seen from both sides --------------------------------------------

  lemma RefreshFront<T>(m: Chain<T>, i: nat, b: Block<T>)
    requires m.Inv() && i < |m.blocks| && b == m.blocks[i] && (i == m.frontBlock ==> m.tpos == 0)
    ensures m.Put(i, b.(localFront := b.front)).Inv()
    ensures m.Put(i, b.(localFront := b.front)).Held() == m.Held()
    ensures ProducerMay(m, m.Put(i, b.(localFront := b.front)))
  {
    assert b.Shadows();
    PutKeeps(m, i, b.(localFront := b.front));
  }

  lemma RefreshTail<T>(m: Chain<T>, i: nat, b: Block<T>)
    requires m.Inv() && i < |m.blocks| && b == m.blocks[i] && i in m.ring
    ensures m.Put(i, b.(localTail := b.tail)).Inv()
    ensures m.Put(i, b.(localTail := b.tail)).Held() == m.Held()
    ensures ConsumerMay(m, m.Put(i, b.(localTail := b.tail)))
  {
    assert b.Shadows();
    PutKeeps(m, i, b.(localTail := b.tail));
  }

  lemma Construct<T>(m: Chain<T>, i: nat, b: Block<T>, x: T)
    requires m.Inv() && i < |m.blocks| && b == m.blocks[i] && (i == m.frontBlock ==> m.tpos == 0)
    ensures m.Put(i, b.(data := b.data[b.tail := x])).Inv()
    ensures m.Put(i, b.(data := b.data[b.tail := x])).Held() == m.Held()
    ensures ProducerMay(m, m.Put(i, b.(data := b.data[b.tail := x])))
  {
    assert b.Shadows();
    ConstructKeepsContent(b, x);
    PutKeeps(m, i, b.(data := b.data[b.tail := x]));
  }

  lemma PutTailMay<T>(m: Chain<T>, i: nat, b: Block<T>, t: nat, ahead: nat)
    requires m.InBounds() && i < |m.blocks| && b == m.blocks[i] && (i == m.frontBlock ==> m.tpos == 0)
    requires m.Put(i, b.(tail := t)).(ahead := ahead).InBounds()
    ensures ProducerMay(m, m.Put(i, b.(tail := t)).(ahead := ahead))
  {
  }

  lemma AddMay<T>(m: Chain<T>, b: Block<T>)
    requires m.InBounds() && m.(blocks := m.blocks + [b]).InBounds()
    ensures ProducerMay(m, m.(blocks := m.blocks + [b]))
  {
  }

  lemma PutNextMay<T>(m: Chain<T>, i: nat, next: nat, ring: seq<nat>, ahead: nat)
    requires m.InBounds() && i < |m.blocks| && (i == m.frontBlock ==> m.tpos == 0)
    requires m.Put(i, m.blocks[i].(next := next)).(ring := ring, ahead := ahead).InBounds()
    ensures ProducerMay(m, m.Put(i, m.blocks[i].(next := next)).(ring := ring, ahead := ahead))
  {
  }

  lemma AdvanceTailMay<T>(m: Chain<T>, nb: nat)
    requires m.InBounds() && m.(tailBlock := nb, tpos := m.tpos + 1, ahead := 0).InBounds()
    ensures ProducerMay(m, m.(tailBlock := nb, tpos := m.tpos + 1, ahead := 0))
  {
  }

  lemma RotatedMay<T>(m: Chain<T>)
    requires m.Inv() && 0 < m.tpos && Rotated(m, m.ring[1]).InBounds()
    ensures ConsumerMay(m, Rotated(m, m.ring[1]))
  {
    assert forall k :: k in Rotated(m, m.ring[1]).ring ==> k in m.ring;
  }

  lemma ReleaseMay<T>(m: Chain<T>, b: Block<T>, front: nat)
    requires m.Inv() && b == m.blocks[m.frontBlock] && m.Put(m.frontBlock, b.(front := front)).InBounds()
    ensures ConsumerMay(m, m.Put(m.frontBlock, b.(front := front)))
  {
    Successors(m);
  }

  /** With the tail block full and the front block next in the circle, every
      block but the front one is full. */
  lemma FullCircle<T>(m: Chain<T>)
    requires m.Inv() && m.blocks[m.tailBlock].Full() && m.tpos + 1 == |m.ring|
    ensures Slots(|m.ring|, m.minSize) <= |m.Held()|
  {
    if |m.ring| == 1 {
      OnlyBlock(m);
    } else {
      OuterFull(m);
      OuterHeld(m.blocks, m.ring, m.minSize);
      assert m.ring[..|m.ring|] == m.ring;
    }
  }

  lemma OuterHeld<T>(blocks: seq<Block<T>>, ids: seq<nat>, size: nat)
    requires AllValid(blocks) && Within(ids, |blocks|) && 2 <= |ids| && 1 <= size
    requires forall j :: 0 <= j < |ids| - 1 ==> blocks[ids[1..][j]].Full() && size <= blocks[ids[1..][j]].Size()
    ensures Slots(|ids|, size) <= |Flat(blocks, ids)|
  {
    FullBlocksHold(blocks, ids[1..], size);
  }

  lemma OuterFull<T>(m: Chain<T>)
    requires m.Inv() && m.blocks[m.tailBlock].Full() && m.tpos + 1 == |m.ring|
    ensures forall j :: 0 <= j < |m.ring| - 1 ==>
              m.blocks[m.ring[1..][j]].Full() && m.minSize <= m.blocks[m.ring[1..][j]].Size()
  {
    forall j | 0 <= j < |m.ring| - 1
      ensures m.blocks[m.ring[1..][j]].Full() && m.minSize <= m.blocks[m.ring[1..][j]].Size()
    {
      assert m.ring[1..][j] == m.ring[j + 1];
    }
  }

  // --- Producer steps --------------------------------------------------------

  /** What is left to show once a producer step's effect on memory is known. */
  lemma ProducerConcludes<T>(s: State<T>, s': State<T>)
    requires Inv(s) && s'.m.Inv() && ProducerMay(s.m, s'.m)
    requires s'.c == s.c && s'.cSaw == s.cSaw && s'.capacity == s.capacity
    requires s'.m.minSize <= s'.largest && Capacity(s'.m, s'.capacity)
    requires ProducerInv(s'.m, s'.p, s'.pSaw, s'.capacity)
    requires s'.accepted == s'.taken + s'.m.Held()
    ensures Inv(s')
  {
    ConsumerUndisturbed(s.m, s'.m, s.c, s.cSaw);
  }

  lemma ProducerLoads<T>(s: State<T>, e: Env<T>)
    requires Inv(s)
    requires s.p.PIdle? || s.p.PReadTailBlock? || s.p.PReadTail? || s.p.PReadNext? || s.p.PReadNextAgain? || s.p.PDone?
    ensures Defined(s) && Inv(ProducerStep(s, e))
  {
  }

  lemma ProducerComparesFrontBlock<T>(s: State<T>, e: Env<T>)
    requires Inv(s) && s.p.PReadFrontBlock?
    ensures Defined(s) && Inv(ProducerStep(s, e))
  {
    Successors(s.m);
  }

  lemma ProducerRefreshes<T>(s: State<T>, e: Env<T>)
    requires Inv(s) && s.p.PReadFront?
    ensures Defined(s) && Inv(ProducerStep(s, e))
  {
    hide Chain.Circle, Chain.Shape, Flat;
    InvIsDefined(s);
    var b := s.m.blocks[s.p.tb];
    Successors(s.m);
    RefreshFront(s.m, s.p.tb, b);
    if s.p.nt == b.front {
      assert b.Full();
      if s.m.tpos + 1 == |s.m.ring| {
        FullCircle(s.m);
      }
    }
    ProducerConcludes(s, ProducerStep(s, e));
  }

  lemma ProducerConstructs<T>(s: State<T>, e: Env<T>)
    requires Inv(s) && s.p.PConstruct?
    ensures Defined(s) && Inv(ProducerStep(s, e))
  {
    hide Chain.Circle, Chain.Shape, Flat;
    InvIsDefined(s);
    Successors(s.m);
    Construct(s.m, s.p.tb, s.m.blocks[s.p.tb], s.p.x);
    ProducerConcludes(s, ProducerStep(s, e));
  }

  lemma ProducerPublishes<T>(s: State<T>, e: Env<T>)
    requires Inv(s) && s.p.PStoreTail?
    ensures Defined(s) && Inv(ProducerStep(s, e))
  {
    hide Chain.Circle, Chain.Shape, Flat;
    InvIsDefined(s);
    var b := s.m.blocks[s.p.tb];
    Successors(s.m);
    PublishAtTail(s.m, b, s.p.x);
    PutTailMay(s.m, s.p.tb, b, s.p.nt, s.m.ahead);
    SeqAssoc(s.taken, s.m.Held(), [s.p.x]);
    ProducerConcludes(s, ProducerStep(s, e));
  }

  lemma ProducerPreparesNext<T>(s: State<T>, e: Env<T>)
    requires Inv(s) && (s.p.PReadNextFront? || s.p.PReadNextTail?)
    ensures Defined(s) && Inv(ProducerStep(s, e))
  {
    Successors(s.m);
    RefreshFront(s.m, s.p.nb, s.m.blocks[s.p.nb]);
    ProducerConcludes(s, ProducerStep(s, e));
  }

  lemma ProducerConstructsNext<T>(s: State<T>, e: Env<T>)
    requires Inv(s) && s.p.PConstructNext?
    ensures Defined(s) && Inv(ProducerStep(s, e))
  {
    hide Chain.Circle, Chain.Shape, Flat;
    InvIsDefined(s);
    Successors(s.m);
    Construct(s.m, s.p.nb, s.m.blocks[s.p.nb], s.p.x);
    ProducerConcludes(s, ProducerStep(s, e));
  }

  lemma ProducerFillsNext<T>(s: State<T>, e: Env<T>)
    requires Inv(s) && s.p.PStoreNextTail?
    ensures Defined(s) && Inv(ProducerStep(s, e))
  {
    hide Chain.Circle, Chain.Shape, Flat;
    InvIsDefined(s);
    var b := s.m.blocks[s.p.nb];
    Successors(s.m);
    PublishAhead(s.m, s.p.nb, b, s.p.x);
    PutTailMay(s.m, s.p.nb, b, b.After(b.tail), 1);
    ProducerConcludes(s, ProducerStep(s, e));
  }

  lemma ProducerAllocates<T>(s: State<T>, e: Env<T>)
    requires Inv(s) && s.p.PAllocate?
    ensures Defined(s) && Inv(ProducerStep(s, e))
  {
    if e.granted {
      var s' := ProducerStep(s, e);
      var b := s'.m.blocks[|s.m.blocks|];
      assert b.Valid() && b.Content() == [s.p.x];
      AddKeeps(s.m, b);
      AddMay(s.m, b);
      ProducerConcludes(s, s');
    }
  }

  lemma ProducerAimsNew<T>(s: State<T>, e: Env<T>)
    requires Inv(s) && s.p.PReadNextForNew?
    ensures Defined(s) && Inv(ProducerStep(s, e))
  {
    AimKeeps(s.m, s.p.nb, s.m.blocks[s.p.tb].next);
    PutNextMay(s.m, s.p.nb, s.m.blocks[s.p.tb].next, s.m.ring, s.m.ahead);
    ProducerConcludes(s, ProducerStep(s, e));
  }

  lemma ProducerLinks<T>(s: State<T>, e: Env<T>)
    requires Inv(s) && s.p.PLink?
    ensures Defined(s) && Inv(ProducerStep(s, e))
  {
    hide Chain.Circle, Chain.Shape, Flat;
    InvIsDefined(s);
    Successors(s.m);
    LinkAhead(s.m, s.p.nb);
    PutNextMay(s.m, s.p.tb, s.p.nb, Linked(s.m, s.p.tb, s.p.nb).ring, 1);
    SlotsGrow(|s.m.ring|, s.m.minSize);
    assert s.m.blocks[s.p.nb].Valid();
    ProducerConcludes(s, ProducerStep(s, e));
  }

  lemma SlotsGrow(n: nat, size: nat)
    requires 1 <= size
    ensures Slots(n, size) <= Slots(n + 1, size)
  {
    if 2 <= n {
      assert n * (size - 1) == (n - 1) * (size - 1) + (size - 1);
    }
  }

  lemma ProducerMovesOn<T>(s: State<T>, e: Env<T>)
    requires Inv(s) && s.p.PStoreTailBlock?
    ensures Defined(s) && Inv(ProducerStep(s, e))
  {
    hide Chain.Circle, Chain.Shape, Flat;
    InvIsDefined(s);
    Successors(s.m);
    AdvanceTail(s.m, s.p.nb, s.p.x);
    AdvanceTailMay(s.m, s.p.nb);
    SeqAssoc(s.taken, s.m.Held(), [s.p.x]);
    ProducerConcludes(s, ProducerStep(s, e));
  }

  // --- Consumer steps --------------------------------------------------------

  /** What is left to show once a consumer step's effect on memory is known. */
  lemma ConsumerConcludes<T>(s: State<T>, s': State<T>)
    requires Inv(s) && s'.m.Inv() && ConsumerMay(s.m, s'.m)
    requires s'.p == s.p && s'.pSaw == s.pSaw && s'.capacity == s.capacity && s'.largest == s.largest
    requires ConsumerInv(s'.m, s'.c, s'.cSaw)
    requires s'.accepted == s'.taken + s'.m.Held()
    ensures Inv(s')
  {
    ProducerUndisturbed(s.m, s'.m, s.p, s.pSaw, s.capacity);
  }

  lemma ConsumerLoads<T>(s: State<T>)
    requires Inv(s)
    requires s.c.CIdle? || s.c.CReadFrontBlock? || s.c.CReadFront? || s.c.CReadTailBlock? || s.c.CDone?
    ensures Defined(s) && Inv(ConsumerStep(s))
  {
    Successors(s.m);
  }

  lemma ConsumerLoadsPastFront<T>(s: State<T>)
    requires Inv(s)
    requires s.c.CReadFrontBlockAgain? || s.c.CRereadFront? || s.c.CReadNext? || s.c.CReadNextFront? || s.c.CTake?
    ensures Defined(s) && Inv(ConsumerStep(s))
  {
  }

  lemma ConsumerRefreshes<T>(s: State<T>)
    requires Inv(s) && s.c.CReadTail?
    ensures Defined(s) && Inv(ConsumerStep(s))
  {
    hide Chain.Circle, Chain.Shape, Flat;
    Successors(s.m);
    InvIsDefined(s);
    RefreshTail(s.m, s.c.fb, s.m.blocks[s.c.fb]);
    if s.m.tpos == 0 {
      OnlyBlock(s.m);
    }
    ConsumerConcludes(s, ConsumerStep(s));
  }

  lemma ConsumerRereads<T>(s: State<T>)
    requires Inv(s) && s.c.CRereadTail?
    ensures Defined(s) && Inv(ConsumerStep(s))
  {
    hide Chain.Circle, Chain.Shape, Flat;
    Successors(s.m);
    InvIsDefined(s);
    RefreshTail(s.m, s.c.fb, s.m.blocks[s.c.fb]);
    ConsumerConcludes(s, ConsumerStep(s));
  }

  lemma OnlyBlock<T>(m: Chain<T>)
    requires m.Inv() && m.tpos == 0
    ensures m.Held() == m.blocks[m.frontBlock].Content()
  {
    assert m.ring[..1] == [m.frontBlock];
    FlatOne(m.blocks, m.frontBlock);
  }

  lemma ConsumerReadsNextTail<T>(s: State<T>)
    requires Inv(s) && s.c.CReadNextTail?
    ensures Defined(s) && Inv(ConsumerStep(s))
  {
    hide Chain.Circle, Chain.Shape, Flat;
    InvIsDefined(s);
    Successors(s.m);
    NextNotEmpty(s.m);
    RefreshTail(s.m, s.c.nb, s.m.blocks[s.c.nb]);
    ConsumerConcludes(s, ConsumerStep(s));
  }

  /** The block the consumer is about to advance to holds an element. */
  lemma NextNotEmpty<T>(m: Chain<T>)
    requires m.Inv() && 0 < m.tpos
    ensures !m.blocks[m.ring[1]].Empty()
  {
  }

  lemma ConsumerMovesOn<T>(s: State<T>)
    requires Inv(s) && s.c.CStoreFrontBlock?
    ensures Defined(s) && Inv(ConsumerStep(s))
  {
    Successors(s.m);
    AdvanceFront(s.m);
    RotatedMay(s.m);
    ConsumerConcludes(s, ConsumerStep(s));
  }

  lemma ConsumerReleases<T>(s: State<T>)
    requires Inv(s) && s.c.CStoreFront?
    ensures Defined(s) && Inv(ConsumerStep(s))
  {
    var b := s.m.blocks[s.c.fb];
    var s' := ConsumerStep(s);
    ReleaseAtFront(s.m, b);
    ReleaseMay(s.m, b, b.After(b.front));
    SeqAssoc(s.taken, [s.c.res], s'.m.Held());
    ConsumerConcludes(s, s');
  }

  // --- Construction ------------------------------------------------------------

  function FirstSize(maxSize: nat): nat { Pow2.LeastPower(maxSize + 1) }

  /** How many blocks the constructor makes, and of what size. */
  function InitialCount(maxSize: nat, maxBlock: nat): nat
    requires 2 <= maxBlock
  {
    if FirstSize(maxSize) > maxBlock * 2 then (maxSize + maxBlock * 2 - 3) / (maxBlock - 1) else 1
  }

  function InitialSize(maxSize: nat, maxBlock: nat): nat {
    if FirstSize(maxSize) > maxBlock * 2 then maxBlock else FirstSize(maxSize)
  }

  /** `count` fresh blocks linked into a circle. */
  ghost predicate FreshCircle<T>(blocks: seq<Block<T>>, count: nat, size: nat) {
    && |blocks| == count
    && forall i :: 0 <= i < count ==>
         && blocks[i].Size() == size && blocks[i].next == (if i + 1 == count then 0 else i + 1)
         && blocks[i].front == blocks[i].tail == blocks[i].localFront == blocks[i].localTail == 0
  }

  /** The constructor's loop: each new block closes the circle behind it. */
  method MakeCircle<T>(count: nat, size: nat, junk: (nat, nat) -> T) returns (blocks: seq<Block<T>>)
    ensures FreshCircle(blocks, count, size)
  {
    blocks := [];
    for i := 0 to count
      invariant FreshCircle(blocks, i, size)
    {
      var block := MakeBlock(size, k => junk(i, k));
      if i != 0 {
        blocks := blocks[i - 1 := blocks[i - 1].(next := i)];
      }
      blocks := blocks + [block.(next := 0)];
    }
  }

  /** The state the constructor leaves behind. */
  ghost predicate Init<T>(s: State<T>, maxSize: nat, maxBlock: nat)
    requires 2 <= maxBlock
  {
    var count, size := InitialCount(maxSize, maxBlock), InitialSize(maxSize, maxBlock);
    && FreshCircle(s.m.blocks, count, size)
    && s.m.frontBlock == s.m.tailBlock == 0
    && s.largest == size && s.maxBlock == maxBlock
    && s.p == PIdle && s.c == CIdle
    && s.m.ring == seq(count, i requires 0 <= i < count => i) && s.m.tpos == 0 && s.m.ahead == 0 && s.m.minSize == size
    && s.accepted == [] && s.taken == [] && s.capacity == maxSize
  }

  /** The constructor: one block, or as many maximal ones as `maxSize` takes. */
  method NewQueue<T>(maxSize: nat, maxBlock: nat, junk: (nat, nat) -> T) returns (s: State<T>)
    requires 1 <= maxSize && 2 <= maxBlock
    ensures Init(s, maxSize, maxBlock)
  {
    var largest := Pow2.LeastPower(maxSize + 1);
    var count := 1;
    if largest > maxBlock * 2 {
      count := (maxSize + maxBlock * 2 - 3) / (maxBlock - 1);
      largest := maxBlock;
    }
    var blocks := MakeCircle(count, largest, junk);
    var ring := seq(count, i requires 0 <= i < count => i);
    s := State(Chain(blocks, 0, 0, ring, 0, 0, largest), largest, maxBlock, PIdle, CIdle, [], [], 0, 0, maxSize);
  }

  /** The block-count formula leaves at least `maxSize` slots outside one block. */
  lemma InitialSlots(maxSize: nat, maxBlock: nat)
    requires 1 <= maxSize && 2 <= maxBlock
    ensures 1 <= InitialCount(maxSize, maxBlock) && 2 <= InitialSize(maxSize, maxBlock)
    ensures maxSize <= Slots(InitialCount(maxSize, maxBlock), InitialSize(maxSize, maxBlock))
  {
    FirstSizeFits(maxSize);
    hide FirstSize;
    if FirstSize(maxSize) > maxBlock * 2 {
      BlocksSuffice(maxSize, maxBlock - 1, InitialCount(maxSize, maxBlock));
    }
  }

  lemma FirstSizeFits(maxSize: nat)
    ensures maxSize + 1 <= FirstSize(maxSize)
  {
  }

  /** Rounding up the number of blocks, one more than the elements take. */
  lemma BlocksSuffice(m: nat, d: nat, q: nat)
    requires 1 <= d && q == (m + 2 * d - 1) / d
    ensures 1 <= q && m <= (q - 1) * d
  {
    var n := m + 2 * d - 1;
    assert n == q * d + n % d;
    assert (q - 1) * d == q * d - d;
  }

  lemma InitKeeps<T>(s: State<T>, maxSize: nat, maxBlock: nat)
    requires 1 <= maxSize && 2 <= maxBlock && Init(s, maxSize, maxBlock)
    ensures Inv(s)
  {
    InitialSlots(maxSize, maxBlock);
    assert s.m.InBounds();
    OnlyBlock(s.m);
  }

  // --- Runs ---------------------------------------------------------------------

  /** A schedule entry: which thread moves, and what the environment decides. */
  datatype Move<T> = Produce(e: Env<T>) | Consume

  function Step<T>(s: State<T>, move: Move<T>): State<T>
    requires Defined(s)
  {
    match move
    case Produce(e) => ProducerStep(s, e)
    case Consume => ConsumerStep(s)
  }

  lemma ProducerKeeps<T>(s: State<T>, e: Env<T>)
    requires Inv(s)
    ensures Defined(s) && Inv(ProducerStep(s, e))
  {
    match s.p
    case PReadFront(_, _, _, _, _) => ProducerRefreshes(s, e);
    case PConstruct(_, _, _, _) => ProducerConstructs(s, e);
    case PStoreTail(_, _, _) => ProducerPublishes(s, e);
    case PReadFrontBlock(_, _, _, _) => ProducerComparesFrontBlock(s, e);
    case PReadNextFront(_, _) => ProducerPreparesNext(s, e);
    case PReadNextTail(_, _, _) => ProducerPreparesNext(s, e);
    case PConstructNext(_, _, _) => ProducerConstructsNext(s, e);
    case PStoreNextTail(_, _, _) => ProducerFillsNext(s, e);
    case PAllocate(_, _) => ProducerAllocates(s, e);
    case PReadNextForNew(_, _, _) => ProducerAimsNew(s, e);
    case PLink(_, _, _) => ProducerLinks(s, e);
    case PStoreTailBlock(_, _) => ProducerMovesOn(s, e);
    case _ => ProducerLoads(s, e);
  }

  lemma ConsumerKeeps<T>(s: State<T>)
    requires Inv(s)
    ensures Defined(s) && Inv(ConsumerStep(s))
  {
    match s.c
    case CReadTail(_, _) => ConsumerRefreshes(s);
    case CRereadTail(_) => ConsumerRereads(s);
    case CReadNextTail(_, _) => ConsumerReadsNextTail(s);
    case CStoreFrontBlock(_, _) => ConsumerMovesOn(s);
    case CStoreFront(_, _, _) => ConsumerReleases(s);
    case CReadFrontBlockAgain => ConsumerLoadsPastFront(s);
    case CRereadFront(_, _) => ConsumerLoadsPastFront(s);
    case CReadNext(_) => ConsumerLoadsPastFront(s);
    case CReadNextFront(_) => ConsumerLoadsPastFront(s);
    case CTake(_, _) => ConsumerLoadsPastFront(s);
    case _ => ConsumerLoads(s);
  }

  lemma StepKeeps<T>(s: State<T>, move: Move<T>)
    requires Inv(s)
    ensures Defined(s) && Inv(Step(s, move))
  {
    match move
    case Produce(e) => ProducerKeeps(s, e);
    case Consume => ConsumerKeeps(s);
  }

  /** The state after a schedule. */
  ghost function Run<T>(s: State<T>, moves: seq<Move<T>>): (s': State<T>)
    requires Inv(s)
    ensures Inv(s')
    decreases |moves|
  {
    if moves == [] then s
    else
      StepKeeps(s, moves[0]);
      Run(Step(s, moves[0]), moves[1..])
  }

  // --- Results -------------------------------------------------------------------

  /** The source's assertions: the block the producer enters is empty and the
      block the consumer advances to is not. */
  ghost predicate AssertionsHold<T>(s: State<T>)
    requires Defined(s)
  {
    && (s.p.PReadNextTail? ==> s.m.blocks[s.p.nb].tail == s.p.nbf)
    && (s.c.CReadNextTail? ==> s.m.blocks[s.c.nb].tail != s.c.nbf)
  }

  /** The two threads are not about to touch the same slot. */
  ghost predicate NoSlotRace<T>(s: State<T>) {
    && (s.p.PConstruct? && s.c.CTake? ==> (s.p.tb, s.p.bt) != (s.c.fb, s.c.bf))
    && (s.p.PConstructNext? && s.c.CTake? ==> (s.p.nb, s.p.nbt) != (s.c.fb, s.c.bf))
  }

  lemma InvGivesAssertions<T>(s: State<T>)
    requires Inv(s)
    ensures Defined(s) && AssertionsHold(s)
  {
    Successors(s.m);
    if 0 < s.m.tpos {
      NextNotEmpty(s.m);
    }
  }

  lemma InvExcludesRaces<T>(s: State<T>)
    requires Inv(s)
    ensures NoSlotRace(s)
  {
    Successors(s.m);
    assert s.m.blocks[s.m.frontBlock].Shadows();
  }

  /** For every schedule of the two threads from a constructed queue: what was
      dequeued followed by what the blocks hold is what was enqueued, in order;
      an enqueue fails only if at least `maxSize` elements were held when it
      found its block full; a dequeue fails only if nothing was held when it
      found its block empty; the assertions hold and no slot is raced on. */
  lemma EveryInterleaving<T>(s: State<T>, moves: seq<Move<T>>, maxSize: nat, maxBlock: nat)
    requires 1 <= maxSize && 2 <= maxBlock && Init(s, maxSize, maxBlock)
    ensures Inv(s)
    ensures var s' := Run(s, moves);
            && s'.accepted == s'.taken + s'.m.Held()
            && (s'.p == PDone(false) ==> maxSize <= s'.pSaw)
            && (s'.c == CDone(None) ==> s'.cSaw == 0)
            && Defined(s') && AssertionsHold(s') && NoSlotRace(s')
  {
    InitKeeps(s, maxSize, maxBlock);
    CapacityFixed(s, moves);
    InvGivesAssertions(Run(s, moves));
    InvExcludesRaces(Run(s, moves));
  }

  lemma {:induction false} CapacityFixed<T>(s: State<T>, moves: seq<Move<T>>)
    requires Inv(s)
    ensures Run(s, moves).capacity == s.capacity
    decreases |moves|
  {
    if moves != [] {
      StepKeeps(s, moves[0]);
      CapacityFixed(Step(s, moves[0]), moves[1..]);
    }
  }

  // --- Calls that may allocate and calls that may not ------------------------------------

  /** The call under way is of the given kind; one that may not allocate never gets there, and one
      that may and can is never refused. */
  predicate Kind<T>(p: Producer<T>, alloc: bool) {
    match p
    case PReadTailBlock(_, a) => a == alloc
    case PReadTail(_, a, _, _) => a == alloc
    case PReadFront(_, a, _, _, _) => a == alloc
    case PReadNext(_, a, _) => a == alloc
    case PReadFrontBlock(_, a, _, _) => a == alloc
    case PAllocate(_, _) => alloc
    case PReadNextForNew(_, _, _) => alloc
    case PLink(_, _, _) => alloc
    case PDone(ok) => alloc ==> ok
    case _ => true
  }

  lemma ProducerKind<T>(s: State<T>, e: Env<T>, alloc: bool)
    requires Defined(s) && Kind(s.p, alloc) && e.alloc == alloc && (alloc ==> e.granted)
    ensures Kind(ProducerStep(s, e).p, alloc)
    ensures !alloc ==> |ProducerStep(s, e).m.blocks| == |s.m.blocks|
  {
    match s.p {
      case PReadFrontBlock(_, _, _, _) =>
      case PAllocate(_, _) =>
      case PReadFront(_, _, _, _, _) =>
      case PLink(_, _, _) =>
      case _ =>
    }
  }

  lemma ConsumerKind<T>(s: State<T>)
    requires Defined(s)
    ensures ConsumerStep(s).p == s.p && |ConsumerStep(s).m.blocks| == |s.m.blocks|
  {
  }

  /** All calls of the producer in the schedule are of the given kind, and memory suffices. */
  predicate AllOfKind<T>(moves: seq<Move<T>>, alloc: bool) {
    forall k :: 0 <= k < |moves| && moves[k].Produce? ==> moves[k].e.alloc == alloc && (alloc ==> moves[k].e.granted)
  }

  lemma {:induction false} RunKind<T>(s: State<T>, moves: seq<Move<T>>, alloc: bool)
    requires Inv(s) && Kind(s.p, alloc) && AllOfKind(moves, alloc)
    ensures Kind(Run(s, moves).p, alloc)
    ensures !alloc ==> |Run(s, moves).m.blocks| == |s.m.blocks|
    decreases |moves|
  {
    hide Inv, Kind, ProducerStep, ConsumerStep, Defined;
    if moves != [] {
      StepKeeps(s, moves[0]);
      match moves[0] {
        case Produce(e) => ProducerKind(s, e, alloc);
        case Consume => ConsumerKind(s);
      }
      RunKind(Step(s, moves[0]), moves[1..], alloc);
    }
  }

  /** `enqueue` with memory available is never refused. */
  lemma EnqueueNeverRefused<T>(s: State<T>, moves: seq<Move<T>>, maxSize: nat, maxBlock: nat)
    requires 1 <= maxSize && 2 <= maxBlock && Init(s, maxSize, maxBlock) && AllOfKind(moves, true)
    ensures Inv(s) && Run(s, moves).p != PDone(false)
  {
    InitKeeps(s, maxSize, maxBlock);
    RunKind(s, moves, true);
  }

  ghost predicate AllSized<T>(blocks: seq<Block<T>>, size: nat) {
    forall k :: 0 <= k < |blocks| ==> blocks[k].Size() == size
  }

  lemma StepSizes<T>(s: State<T>, move: Move<T>, size: nat)
    requires Defined(s) && Kind(s.p, false) && AllOfKind([move], false) && AllSized(s.m.blocks, size)
    ensures AllSized(Step(s, move).m.blocks, size) && Kind(Step(s, move).p, false)
  {
    assert [move][0] == move;
    hide Kind, ProducerStep, ConsumerStep, Defined;
    match move {
      case Produce(e) =>
        ProducerKind(s, e, false);
        ProducerSizes(s, e);
      case Consume =>
        ConsumerKind(s);
        ConsumerSizes(s);
    }
  }

  lemma {:induction false} RunSizes<T>(s: State<T>, moves: seq<Move<T>>, size: nat)
    requires Inv(s) && Kind(s.p, false) && AllOfKind(moves, false) && AllSized(s.m.blocks, size)
    ensures AllSized(Run(s, moves).m.blocks, size)
    decreases |moves|
  {
    hide Inv, Kind, Step, Defined, AllSized;
    if moves != [] {
      StepKeeps(s, moves[0]);
      StepSizes(s, moves[0], size);
      RunSizes(Step(s, moves[0]), moves[1..], size);
    }
  }

  /** A queue used through `tryEnqueue` only keeps the blocks it was built with, so that it never
      holds more than their slots. */
  lemma TryEnqueueNeverGrows<T>(s: State<T>, moves: seq<Move<T>>, maxSize: nat, maxBlock: nat)
    requires 1 <= maxSize && 2 <= maxBlock && Init(s, maxSize, maxBlock) && AllOfKind(moves, false)
    ensures Inv(s)
    ensures var m, count, size := Run(s, moves).m, InitialCount(maxSize, maxBlock), InitialSize(maxSize, maxBlock);
            && |m.blocks| == |s.m.blocks| == count && 1 <= size
            && (forall k :: 0 <= k < count ==> m.blocks[k].Size() == size)
            && m.InBounds() && |m.Held()| <= count * (size - 1)
  {
    hide Inv, Init, Kind, InitialCount, InitialSize;
    InitKeeps(s, maxSize, maxBlock);
    InitialSlots(maxSize, maxBlock);
    InitSized(s, maxSize, maxBlock);
    RunKind(s, moves, false);
    RunSizes(s, moves, InitialSize(maxSize, maxBlock));
    HeldAtMost(Run(s, moves), InitialSize(maxSize, maxBlock));
  }

  lemma InitSized<T>(s: State<T>, maxSize: nat, maxBlock: nat)
    requires 2 <= maxBlock && Init(s, maxSize, maxBlock)
    ensures |s.m.blocks| == InitialCount(maxSize, maxBlock)
    ensures AllSized(s.m.blocks, InitialSize(maxSize, maxBlock)) && Kind(s.p, false)
  {
    hide InitialCount, InitialSize;
  }

  lemma HeldAtMost<T>(s: State<T>, size: nat)
    requires Inv(s) && 1 <= size && AllSized(s.m.blocks, size)
    ensures s.m.InBounds() && |s.m.Held()| <= |s.m.blocks| * (size - 1)
  {
    var ids := s.m.ring[..s.m.tpos + 1];
    BlocksHoldAtMost(s.m.blocks, ids, size);
    Pigeonhole(ids, |s.m.blocks|);
    RowsGrow(|ids|, |s.m.blocks|, size - 1);
  }

  lemma RowsGrow(a: nat, b: nat, d: nat)
    requires a <= b
    ensures Times(a, d) <= b * d
  {
    assert b * d == a * d + (b - a) * d;
  }

  /** The constructor makes no more blocks than needed: one fewer would not leave `maxSize` slots
      outside the front block. */
  lemma InitialTight(maxSize: nat, maxBlock: nat)
    requires 1 <= maxSize && 2 <= maxBlock && 1 < InitialCount(maxSize, maxBlock)
    ensures (InitialCount(maxSize, maxBlock) - 2) * (InitialSize(maxSize, maxBlock) - 1) < maxSize
  {
    hide FirstSize;
    BlocksNeeded(maxSize, maxBlock - 1, InitialCount(maxSize, maxBlock));
  }

  lemma BlocksNeeded(m: nat, d: nat, q: nat)
    requires 1 <= m && 1 <= d && 2 <= q && q == (m + 2 * d - 1) / d
    ensures (q - 2) * d < m
  {
    var n := m + 2 * d - 1;
    assert n == q * d + n % d;
    assert (q - 2) * d == q * d - 2 * d;
  }

  // --- Block sizes ---------------------------------------------------------------

  /** No step resizes a block, and a new one is twice as large as the largest so far until that
      has reached MAX_BLOCK_SIZE. */
  ghost predicate SizesMay<T>(s: State<T>, s': State<T>) {
    var n := |s.m.blocks|;
    && (forall k :: 0 <= k < n ==> k < |s'.m.blocks| && s'.m.blocks[k].Size() == s.m.blocks[k].Size())
    && (if |s'.m.blocks| == n then s'.largest == s.largest
        else |s'.m.blocks| == n + 1 && s'.m.blocks[n].Size() == s'.largest
             && s'.largest == if s.largest < s.maxBlock then 2 * s.largest else s.largest)
  }

  lemma ProducerSizes<T>(s: State<T>, e: Env<T>)
    requires Defined(s)
    ensures SizesMay(s, ProducerStep(s, e))
  {
    if s.p.PAllocate? {
      AllocateSizes(s, e);
    } else {
      OtherSizes(s, e);
    }
  }

  lemma AllocateSizes<T>(s: State<T>, e: Env<T>)
    requires Defined(s) && s.p.PAllocate?
    ensures SizesMay(s, ProducerStep(s, e))
  {
  }

  lemma OtherSizes<T>(s: State<T>, e: Env<T>)
    requires Defined(s) && !s.p.PAllocate?
    ensures SizesMay(s, ProducerStep(s, e))
  {
    match s.p {
      case PLink(_, _, _) =>
      case PConstruct(_, _, _, _) =>
      case PConstructNext(_, _, _) =>
      case _ =>
    }
  }

  lemma ConsumerSizes<T>(s: State<T>)
    requires Defined(s)
    ensures SizesMay(s, ConsumerStep(s))
  {
  }

  ghost predicate PowerSizes<T>(s: State<T>) {
    Pow2.IsPower(s.largest) && forall k :: 0 <= k < |s.m.blocks| ==> Pow2.IsPower(s.m.blocks[k].Size())
  }

  lemma StepKeepsPowers<T>(s: State<T>, move: Move<T>)
    requires Defined(s) && PowerSizes(s)
    ensures PowerSizes(Step(s, move))
  {
    match move {
      case Produce(e) => ProducerSizes(s, e);
      case Consume => ConsumerSizes(s);
    }
    Pow2.DoubleIsPower(s.largest);
    hide Step, Pow2.IsPower;
  }

  lemma {:induction false} RunKeepsPowers<T>(s: State<T>, moves: seq<Move<T>>)
    requires Inv(s) && PowerSizes(s)
    ensures PowerSizes(Run(s, moves))
    decreases |moves|
  {
    if moves != [] {
      StepKeeps(s, moves[0]);
      StepKeepsPowers(s, moves[0]);
      RunKeepsPowers(Step(s, moves[0]), moves[1..]);
    }
  }

  /** MAX_BLOCK_SIZE being a power of two, every block of every reachable state has a power of
      two for its size, so that masking an index is what `Block.After` computes. */
  lemma BlocksArePowers<T>(s: State<T>, moves: seq<Move<T>>, maxSize: nat, maxBlock: nat)
    requires 1 <= maxSize && 2 <= maxBlock && Init(s, maxSize, maxBlock) && Pow2.IsPower(maxBlock)
    ensures Inv(s)
    ensures var s' := Run(s, moves);
            forall k :: 0 <= k < |s'.m.blocks| ==> Pow2.IsPower(s'.m.blocks[k].Size())
  {
    InitKeeps(s, maxSize, maxBlock);
    RunKeepsPowers(s, moves);
  }

  /** On the words the code computes with, masking the next index is `Block.After`. */
  lemma MaskedStepIsAfter<T>(b: Block<T>, i: bv64, size: bv64)
    requires Pow2.SingleBit(size) && b.Size() == Pow2.Number(size) && i < size
    ensures Pow2.Number(i) < b.Size() && Pow2.Number((i + 1) & (size - 1)) == b.After(Pow2.Number(i))
  {
    hide Pow2.SingleBit, Pow2.Number;
    Pow2.MaskedStepCounts(i, size);
  }

  // --- Wait freedom ----------------------------------------------------------------

  /** Steps a producer call still needs, whatever the consumer does. */
  function ProducerRank<T>(p: Producer<T>): nat {
    match p
    case PIdle => 0
    case PDone(_) => 0
    case PReadTailBlock(_, _) => 12
    case PReadTail(_, _, _, _) => 11
    case PReadFront(_, _, _, _, _) => 10
    case PConstruct(_, _, _, _) => 2
    case PStoreTail(_, _, _) => 1
    case PReadNext(_, _, _) => 8
    case PReadFrontBlock(_, _, _, _) => 7
    case PReadNextAgain(_, _) => 6
    case PReadNextFront(_, _) => 5
    case PReadNextTail(_, _, _) => 4
    case PConstructNext(_, _, _) => 3
    case PStoreNextTail(_, _, _) => 2
    case PAllocate(_, _) => 4
    case PReadNextForNew(_, _, _) => 3
    case PLink(_, _, _) => 2
    case PStoreTailBlock(_, _) => 1
  }

  function ConsumerRank<T>(c: Consumer<T>): nat {
    match c
    case CIdle => 0
    case CDone(_) => 0
    case CReadFrontBlock => 13
    case CReadFront(_, _) => 12
    case CReadTail(_, _) => 11
    case CReadTailBlock(_) => 10
    case CReadFrontBlockAgain => 9
    case CRereadTail(_) => 8
    case CRereadFront(_, _) => 7
    case CReadNext(_) => 6
    case CReadNextFront(_) => 5
    case CReadNextTail(_, _) => 4
    case CStoreFrontBlock(_, _) => 3
    case CTake(_, _) => 2
    case CStoreFront(_, _, _) => 1
  }

  /** A call in progress needs fewer steps after each of its own steps and no
      more after a step of the other thread. */
  lemma EnqueueRankFalls<T>(s: State<T>, move: Move<T>)
    requires Defined(s) && 0 < ProducerRank(s.p)
    ensures var p' := Step(s, move).p;
            if move.Consume? then p' == s.p
            else ProducerRank(p') < ProducerRank(s.p) && (p'.PDone? || 0 < ProducerRank(p'))
  {
    if move.Produce? {
      match s.p {
        case PReadTail(_, _, _, _) =>
        case PReadFront(_, _, _, _, _) =>
        case PReadFrontBlock(_, _, _, _) =>
        case PAllocate(_, _) =>
        case _ =>
      }
    } else {
      KeepsProducer(s);
    }
  }

  lemma KeepsProducer<T>(s: State<T>)
    requires Defined(s)
    ensures ConsumerStep(s).p == s.p
  {
  }

  lemma DequeueRankFalls<T>(s: State<T>, move: Move<T>)
    requires Defined(s) && 0 < ConsumerRank(s.c)
    ensures var c' := Step(s, move).c;
            if move.Produce? then c' == s.c
            else ConsumerRank(c') < ConsumerRank(s.c) && (c'.CDone? || 0 < ConsumerRank(c'))
  {
    if move.Produce? {
      KeepsConsumer(s, move.e);
    }
  }

  lemma KeepsConsumer<T>(s: State<T>, e: Env<T>)
    requires Defined(s)
    ensures ProducerStep(s, e).c == s.c
  {
  }

  function ProducerMoves<T>(moves: seq<Move<T>>): nat {
    if moves == [] then 0 else (if moves[0].Produce? then 1 else 0) + ProducerMoves(moves[1..])
  }

  function ConsumerMoves<T>(moves: seq<Move<T>>): nat {
    if moves == [] then 0 else (if moves[0].Consume? then 1 else 0) + ConsumerMoves(moves[1..])
  }

  /** Peeling off the first move of a schedule. */
  lemma RunPeels<T>(s: State<T>, moves: seq<Move<T>>, k: nat, s': State<T>)
    requires Inv(s) && k < |moves| && Defined(s) && s' == Step(s, moves[0]) && Inv(s')
    ensures Run(s, moves[..k + 1]) == Run(s', moves[1..][..k])
  {
    assert moves[..k + 1][1..] == moves[1..][..k];
  }

  /** Within twelve moves of its own the producer returns, whatever the consumer does. */
  lemma {:induction false} EnqueueReturns<T>(s: State<T>, moves: seq<Move<T>>) returns (k: nat)
    requires Inv(s) && 0 < ProducerRank(s.p) <= ProducerMoves(moves)
    ensures k <= |moves| && Run(s, moves[..k]).p.PDone?
    decreases |moves|
  {
    hide Step, Inv, ProducerRank;
    var s' := EnqueueAdvances(s, moves[0]);
    RunPeels(s, moves, 0, s');
    if s'.p.PDone? {
      k := 1;
    } else {
      k := EnqueueReturns(s', moves[1..]);
      RunPeels(s, moves, k, s');
      k := k + 1;
    }
  }

  lemma EnqueueAdvances<T>(s: State<T>, move: Move<T>) returns (s': State<T>)
    requires Inv(s) && 0 < ProducerRank(s.p)
    ensures Defined(s) && s' == Step(s, move) && Inv(s')
    ensures s'.p.PDone? || 0 < ProducerRank(s'.p)
    ensures ProducerRank(s'.p) + (if move.Produce? then 1 else 0) <= ProducerRank(s.p)
  {
    StepKeeps(s, move);
    EnqueueRankFalls(s, move);
    s' := Step(s, move);
  }

  /** Within thirteen moves of its own the consumer returns, whatever the producer does. */
  lemma {:induction false} DequeueReturns<T>(s: State<T>, moves: seq<Move<T>>) returns (k: nat)
    requires Inv(s) && 0 < ConsumerRank(s.c) <= ConsumerMoves(moves)
    ensures k <= |moves| && Run(s, moves[..k]).c.CDone?
    decreases |moves|
  {
    hide Step, Inv, ConsumerRank;
    var s' := DequeueAdvances(s, moves[0]);
    RunPeels(s, moves, 0, s');
    if s'.c.CDone? {
      k := 1;
    } else {
      k := DequeueReturns(s', moves[1..]);
      RunPeels(s, moves, k, s');
      k := k + 1;
    }
  }

  lemma DequeueAdvances<T>(s: State<T>, move: Move<T>) returns (s': State<T>)
    requires Inv(s) && 0 < ConsumerRank(s.c)
    ensures Defined(s) && s' == Step(s, move) && Inv(s')
    ensures s'.c.CDone? || 0 < ConsumerRank(s'.c)
    ensures ConsumerRank(s'.c) + (if move.Consume? then 1 else 0) <= ConsumerRank(s.c)
  {
    StepKeeps(s, move);
    DequeueRankFalls(s, move);
    s' := Step(s, move);
  }
}
