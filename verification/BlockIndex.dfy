/**
 concurrentqueue.h, ImplicitProducer: the circular index from the base of a block
 of elements to the block.  Slots are reused once their block is released, and the
 ring doubles when the next slot is still in use, sharing its entries with the
 smaller ring, which consumers may go on using.  The plain list of blocks that the
 ring stands for is kept in a ghost field; looking up an element of any block on that
 list finds the block's entry, through any ring it was put into, from any tail ever
 read there, also when the 64-bit bases have wrapped.
 */
module BlockIndex {
  import opened Words

  const BLOCK_SIZE: int := 32
  const INITIAL_INDEX_SIZE: nat := 32
  const INVALID_BLOCK_BASE: nat := 1
  const MAX_EXPONENT: nat := 59

  datatype BlockPtr = Null | Block(id: nat)

  // One slot of the ring, and one element of the plain list it stands for: the
  // base is the true index of the block's first element, the key its word.
  datatype Cell = Cell(key: nat, value: BlockPtr)
  datatype Live = Live(base: nat, block: BlockPtr)

  // ---------- the ring as a value ----------

  // (x + 1) & (capacity - 1) and (x - 1) & (capacity - 1) for a power of two.
  function Next(x: nat, capacity: nat): (y: nat)
    requires x < capacity
    ensures y < capacity
  {
    if x + 1 == capacity then 0 else x + 1
  }

  function Prev(x: nat, capacity: nat): (y: nat)
    requires x < capacity
    ensures y < capacity
  {
    if x == 0 then capacity - 1 else x - 1
  }

  // The slot d steps back from the tail.
  function Back(tail: nat, d: nat, capacity: nat): (y: nat)
    requires tail < capacity && d < capacity
    ensures y < capacity
  {
    if d <= tail then tail - d else tail + capacity - d
  }

  predicate Free(c: Cell) {
    c.key == INVALID_BLOCK_BASE || c.value == Null
  }

  // The blocks are consecutive.
  ghost predicate Consecutive(list: seq<Live>) {
    && (forall i :: 0 <= i < |list| ==> list[i].base % BLOCK_SIZE == 0)
    && (forall i :: 0 <= i < |list| ==> list[i].base == list[0].base + i * BLOCK_SIZE)
  }

  ghost predicate CellOk(c: Cell, list: seq<Live>, d: nat) {
    if d < |list| then c == Cell(Word(list[|list| - 1 - d].base), list[|list| - 1 - d].block)
    else Free(c)
  }

  // The latest block of the list is at the tail, earlier ones behind it.
  ghost predicate RingOk(cells: seq<Cell>, tail: nat, list: seq<Live>) {
    && tail < |cells| && |list| <= |cells|
    && Consecutive(list)
    && forall d :: 0 <= d < |cells| ==> CellOk(cells[Back(tail, d, |cells|)], list, d)
  }

  // What is left when the slot of a released oldest block is taken.
  function Kept(list: seq<Live>, capacity: nat): seq<Live> {
    if list != [] && |list| == capacity then list[1..] else list
  }

  lemma RingInsert(cells: seq<Cell>, tail: nat, list: seq<Live>, start: nat)
    requires RingOk(cells, tail, list) && Free(cells[Next(tail, |cells|)])
    requires start % BLOCK_SIZE == 0 && (list != [] ==> start == list[|list| - 1].base + BLOCK_SIZE)
    ensures var next := Next(tail, |cells|); var value := cells[next].value;
      RingOk(cells[next := Cell(Word(start), value)], next, Kept(list, |cells|) + [Live(start, value)])
    ensures |list| == |cells| ==> list[0].block == Null
  {
    var cap := |cells|;
    var next := Next(tail, cap);
    var value := cells[next].value;
    var cells' := cells[next := Cell(Word(start), value)];
    var list' := Kept(list, cap) + [Live(start, value)];
    assert Back(tail, cap - 1, cap) == next;
    assert CellOk(cells[Back(tail, cap - 1, cap)], list, cap - 1);
    KeptConsecutive(list, cap, start, value);
    forall d | 0 <= d < cap
      ensures CellOk(cells'[Back(next, d, cap)], list', d)
    {
      if d > 0 {
        assert Back(next, d, cap) == Back(tail, d - 1, cap) != next;
        assert CellOk(cells[Back(tail, d - 1, cap)], list, d - 1);
      }
    }
  }

  lemma KeptConsecutive(list: seq<Live>, capacity: nat, start: nat, value: BlockPtr)
    requires Consecutive(list)
    requires start % BLOCK_SIZE == 0 && (list != [] ==> start == list[|list| - 1].base + BLOCK_SIZE)
    ensures Consecutive(Kept(list, capacity) + [Live(start, value)])
  {
  }

  lemma RingRewind(cells: seq<Cell>, tail: nat, list: seq<Live>)
    requires RingOk(cells, tail, list) && list != []
    ensures RingOk(cells[tail := cells[tail].(value := Null)], Prev(tail, |cells|), list[..|list| - 1])
  {
    var cap := |cells|;
    var prev := Prev(tail, cap);
    var cells' := cells[tail := cells[tail].(value := Null)];
    forall d | 0 <= d < cap
      ensures CellOk(cells'[Back(prev, d, cap)], list[..|list| - 1], d)
    {
      if d + 1 < cap {
        assert Back(prev, d, cap) == Back(tail, d + 1, cap) != tail;
        assert CellOk(cells[Back(tail, d + 1, cap)], list, d + 1);
      } else {
        assert Back(prev, d, cap) == tail;
      }
    }
  }

  // Storing a block, or its release, in the slot of list[i].
  lemma RingStore(cells: seq<Cell>, tail: nat, list: seq<Live>, i: nat, value: BlockPtr)
    requires RingOk(cells, tail, list) && i < |list|
    ensures var k := Back(tail, |list| - 1 - i, |cells|);
      RingOk(cells[k := cells[k].(value := value)], tail, list[i := list[i].(block := value)])
  {
  }

  // new_block_index: the old ring, oldest slot first, then as many unused slots.
  lemma RingGrow(cells: seq<Cell>, tail: nat, list: seq<Live>, grown: seq<Cell>)
    requires RingOk(cells, tail, list) && |grown| == 2 * |cells|
    requires forall d :: 0 <= d < |cells| ==> grown[|cells| - 1 - d] == cells[Back(tail, d, |cells|)]
    requires forall i :: |cells| <= i < |grown| ==> grown[i].key == INVALID_BLOCK_BASE
    ensures RingOk(grown, |cells| - 1, list)
  {
    var cap := |cells|;
    var last: nat := cap - 1;
    forall d | 0 <= d < |grown|
      ensures CellOk(grown[Back(last, d, |grown|)], list, d)
    {
      if d < cap {
        assert grown[last - d] == cells[Back(tail, d, cap)];
        assert CellOk(cells[Back(tail, d, cap)], list, d);
      }
    }
  }

  lemma FirstRing(cells: seq<Cell>)
    requires |cells| == INITIAL_INDEX_SIZE && forall i :: 0 <= i < |cells| ==> cells[i].key == INVALID_BLOCK_BASE
    ensures RingOk(cells, |cells| - 1, []) && IsCapacity(|cells|)
  {
    assert Pow2(5) == INITIAL_INDEX_SIZE;
  }

  // ---------- the position of a base, in words ----------

  // 64-bit two's complement.
  function Signed(w: nat): int {
    if w < HALF then w else w - WORD
  }

  // C++ division truncates toward zero.
  function Truncated(a: int, b: int): int
    requires b > 0
  {
    if a >= 0 then a / b else -((-a) / b)
  }

  // index & ~(BLOCK_SIZE - 1) for a power of two.
  function BlockBase(index: nat): nat {
    index - index % BLOCK_SIZE
  }

  // (tail + offset) & (capacity - 1), offset the signed distance in blocks.
  function Position(index: nat, tailBase: nat, tail: nat, capacity: nat): (y: nat)
    requires capacity > 0
    ensures y < capacity
  {
    var offset := Word(Truncated(Signed(Word(BlockBase(index) - tailBase)), BLOCK_SIZE));
    Word(tail + offset) % capacity
  }

  function Pow2(j: nat): (p: nat)
    ensures p > 0
  {
    if j == 0 then 1 else 2 * Pow2(j - 1)
  }

  ghost predicate IsCapacity(capacity: nat) {
    exists j: nat :: j <= MAX_EXPONENT && capacity == Pow2(j)
  }

  lemma {:induction false} PowProduct(i: nat, j: nat)
    ensures Pow2(i) * Pow2(j) == Pow2(i + j)
  {
    if i > 0 {
      PowProduct(i - 1, j);
    }
  }

  lemma PowOfByte()
    ensures Pow2(8) == 256
  {
    PowProduct(4, 4);
    assert Pow2(4) == 16;
  }

  lemma PowOfWord()
    ensures Pow2(64) == WORD
  {
    hide Pow2;
    PowOfByte();
    PowProduct(8, 8);
    PowProduct(16, 16);
    PowProduct(32, 32);
  }

  lemma CapacityDoubles(capacity: nat)
    requires IsCapacity(capacity) && 2 * capacity <= Pow2(MAX_EXPONENT)
    ensures IsCapacity(2 * capacity)
  {
    var j: nat :| j <= MAX_EXPONENT && capacity == Pow2(j);
    assert 2 * capacity == Pow2(j + 1);
  }

  // 2^64 is a whole number of blocks, so a block does not straddle the wrap.
  lemma WordInBlock(base: nat, r: nat)
    requires base % BLOCK_SIZE == 0 && r < BLOCK_SIZE
    ensures Word(base + r) == Word(base) + r && Word(base) % BLOCK_SIZE == 0 && BlockBase(Word(base + r)) == Word(base)
  {
    var q, w := base / WORD, Word(base);
    var blocks := base / BLOCK_SIZE - q * (WORD / BLOCK_SIZE);
    assert w == blocks * BLOCK_SIZE;
    assert w + r < WORD;
    DivisionIsUnique(base + r, WORD, q, w + r);
    DivisionIsUnique(w + r, BLOCK_SIZE, blocks, r);
    DivisionIsUnique(w, BLOCK_SIZE, blocks, 0);
  }

  // ---------- congruences ----------

  ghost predicate Cong(x: int, y: int, c: nat) {
    c > 0 && (x - y) % c == 0
  }

  lemma CongIs(x: int, y: int, c: nat, k: int)
    requires c > 0 && x - y == k * c
    ensures Cong(x, y, c)
  {
    DivisionIsUnique(x - y, c, k, 0);
  }

  lemma CongFactor(x: int, y: int, c: nat) returns (k: int)
    requires Cong(x, y, c)
    ensures x - y == k * c
  {
    k := (x - y) / c;
  }

  lemma CongDifference(x: int, y: int, z: int, w: int, c: nat)
    requires Cong(x, y, c) && Cong(z, w, c)
    ensures Cong(x - z, y - w, c)
  {
    hide Cong;
    var k := CongFactor(x, y, c);
    var l := CongFactor(z, w, c);
    assert (k - l) * c == k * c - l * c;
    CongPositive(x, y, c);
    CongIs(x - z, y - w, c, k - l);
  }

  lemma CongPositive(x: int, y: int, c: nat)
    requires Cong(x, y, c)
    ensures c > 0
  {
  }

  lemma CongShift(x: int, y: int, d: int, c: nat)
    requires Cong(x, y, c)
    ensures Cong(x + d, y + d, c)
  {
  }

  lemma CongTrans(x: int, y: int, z: int, c: nat)
    requires Cong(x, y, c) && Cong(y, z, c)
    ensures Cong(x, z, c)
  {
    hide Cong;
    var k := CongFactor(x, y, c);
    var l := CongFactor(y, z, c);
    assert (k + l) * c == k * c + l * c;
    CongPositive(x, y, c);
    CongIs(x, z, c, k + l);
  }

  lemma CongDown(x: int, y: int, c: nat, m: nat)
    requires c > 0 && m > 0 && Cong(x, y, m * c)
    ensures Cong(x, y, c)
  {
    hide Cong;
    var k := CongFactor(x, y, m * c);
    assert k * (m * c) == (k * m) * c;
    CongIs(x, y, c, k * m);
  }

  lemma CongSmall(x: nat, y: nat, c: nat)
    requires Cong(x, y, c) && x < c && y < c
    ensures x == y
  {
    var k := CongFactor(x, y, c);
    Multiples(k, c);
  }

  // ---------- the position, in words ----------

  function Blocks(x: int): int {
    x / BLOCK_SIZE
  }

  const BLOCKS_IN_WORD: int := 0x800_0000_0000_0000

  lemma CapacityInBlocks(capacity: nat) returns (m: nat)
    requires IsCapacity(capacity)
    ensures 0 < capacity && m > 0 && BLOCKS_IN_WORD == m * capacity
  {
    hide Pow2;
    var j: nat :| j <= MAX_EXPONENT && capacity == Pow2(j);
    m := Pow2(59 - j);
    PowProduct(59 - j, j);
    PowProduct(59, 5);
    PowOfWord();
    PowOfFive();
  }

  lemma PowOfFive()
    ensures Pow2(5) == BLOCK_SIZE
  {
  }

  // Reducing a multiple of the block size to a word changes nothing about its block
  // number, as far as positions in a ring are concerned.
  lemma WordKeepsBlock(x: int, capacity: nat)
    requires x % BLOCK_SIZE == 0 && IsCapacity(capacity)
    ensures Word(x) % BLOCK_SIZE == 0 && Cong(Blocks(Word(x)), Blocks(x), capacity)
  {
    var q := x / WORD;
    var m := CapacityInBlocks(capacity);
    var n := Blocks(x);
    assert x == n * BLOCK_SIZE;
    assert Word(x) == (n - q * BLOCKS_IN_WORD) * BLOCK_SIZE;
    DivisionIsUnique(Word(x), BLOCK_SIZE, n - q * BLOCKS_IN_WORD, 0);
    assert q * BLOCKS_IN_WORD == (q * m) * capacity;
    assert (0 - q * m) * capacity == 0 - (q * m) * capacity;
    CongIs(Blocks(Word(x)), n, capacity, 0 - q * m);
  }

  // The signed distance in blocks is exact, and congruent to the distance of the words.
  lemma SignedOffset(x: int, capacity: nat)
    requires x % BLOCK_SIZE == 0 && IsCapacity(capacity)
    ensures Cong(Truncated(Signed(Word(x)), BLOCK_SIZE), Blocks(x), capacity)
  {
    hide Cong;
    var w := Word(x);
    WordKeepsBlock(x, capacity);
    if w < HALF {
      assert Truncated(Signed(w), BLOCK_SIZE) == Blocks(w);
    } else {
      var m := CapacityInBlocks(capacity);
      var n := Blocks(w);
      assert WORD - w == (BLOCKS_IN_WORD - n) * BLOCK_SIZE;
      DivisionIsUnique(WORD - w, BLOCK_SIZE, BLOCKS_IN_WORD - n, 0);
      assert Truncated(Signed(w), BLOCK_SIZE) == n - BLOCKS_IN_WORD;
      assert (0 - m) * capacity == 0 - m * capacity;
      CongIs(n - BLOCKS_IN_WORD, n, capacity, 0 - m);
      CongTrans(n - BLOCKS_IN_WORD, n, Blocks(x), capacity);
    }
  }

  lemma WordCong(x: int, capacity: nat)
    requires IsCapacity(capacity)
    ensures Cong(Word(x), x, capacity)
  {
    var m := CapacityInBlocks(capacity);
    var q := x / WORD;
    assert Word(x) - x == (0 - q) * WORD;
    assert WORD == (BLOCK_SIZE * m) * capacity;
    assert (0 - q) * ((BLOCK_SIZE * m) * capacity) == ((0 - q) * (BLOCK_SIZE * m)) * capacity;
    CongIs(Word(x), x, capacity, (0 - q) * (BLOCK_SIZE * m));
  }

  lemma ModCong(x: nat, c: nat)
    requires c > 0
    ensures Cong(x % c, x, c)
  {
    var q := x / c;
    assert (0 - q) * c == 0 - q * c;
    CongIs(x % c, x, c, 0 - q);
  }

  // From any slot t and any key found there, the computed slot is the one that is as
  // many steps away as the keys are blocks apart.
  lemma PositionOf(base: nat, r: nat, key: nat, t: nat, slot: nat, capacity: nat)
    requires IsCapacity(capacity) && t < capacity && slot < capacity
    requires base % BLOCK_SIZE == 0 && key % BLOCK_SIZE == 0 && key < WORD && r < BLOCK_SIZE
    requires Cong(Blocks(Word(base)) - Blocks(key), slot - t, capacity)
    ensures BlockBase(Word(base + r)) == Word(base)
    ensures Position(Word(base + r), key, t, capacity) == slot
  {
    hide Cong, IsCapacity, Truncated, Signed, BlockBase, Word;
    WordInBlock(base, r);
    var x := Word(base) - key;
    DifferenceInBlocks(Word(base), key);
    SignedOffset(x, capacity);
    var offset := Truncated(Signed(Word(x)), BLOCK_SIZE);
    CongTrans(offset, Blocks(x), slot - t, capacity);
    WordCong(offset, capacity);
    CongTrans(Word(offset), offset, slot - t, capacity);
    CongShift(Word(offset), slot - t, t, capacity);
    var sum := t + Word(offset);
    WordCong(sum, capacity);
    CongTrans(Word(sum), sum, slot, capacity);
    ModCong(Word(sum), capacity);
    CongTrans(Word(sum) % capacity, Word(sum), slot, capacity);
    CongSmall(Word(sum) % capacity, slot, capacity);
  }

  lemma DifferenceInBlocks(a: int, b: int)
    requires a % BLOCK_SIZE == 0 && b % BLOCK_SIZE == 0
    ensures (a - b) % BLOCK_SIZE == 0 && Blocks(a - b) == Blocks(a) - Blocks(b)
  {
  }

  // ---------- keys stay in step with slots ----------

  // steps slots before the one that start will get.
  ghost predicate KeyAt(key: nat, start: nat, steps: int, capacity: nat) {
    key < WORD && key % BLOCK_SIZE == 0 && Cong(Blocks(start) - Blocks(key), steps, capacity)
  }

  // Every key, in use or left over, is in step with the next one.
  ghost predicate Anchored(cells: seq<Cell>, tail: nat, start: nat) {
    forall j :: 0 <= j < |cells| && cells[j].key != INVALID_BLOCK_BASE ==> KeyAt(cells[j].key, start, tail + 1 - j, |cells|)
  }

  // Any two keys are as many blocks apart as their slots.
  ghost predicate Aligned(cells: seq<Cell>) {
    && (forall i :: 0 <= i < |cells| && cells[i].key != INVALID_BLOCK_BASE ==> cells[i].key < WORD && cells[i].key % BLOCK_SIZE == 0)
    && (forall i, j :: 0 <= i < |cells| && 0 <= j < |cells| && cells[i].key != INVALID_BLOCK_BASE && cells[j].key != INVALID_BLOCK_BASE ==>
          Cong(Blocks(cells[i].key) - Blocks(cells[j].key), i - j, |cells|))
  }

  lemma AnchoredIsAligned(cells: seq<Cell>, tail: nat, start: nat)
    requires Anchored(cells, tail, start)
    ensures Aligned(cells)
  {
    hide Cong;
    forall i, j | 0 <= i < |cells| && 0 <= j < |cells| && cells[i].key != INVALID_BLOCK_BASE && cells[j].key != INVALID_BLOCK_BASE
      ensures Cong(Blocks(cells[i].key) - Blocks(cells[j].key), i - j, |cells|)
    {
      var a, b := Blocks(cells[i].key), Blocks(cells[j].key);
      CongDifference(Blocks(start) - b, tail + 1 - j, Blocks(start) - a, tail + 1 - i, |cells|);
    }
  }

  lemma NextCong(tail: nat, capacity: nat)
    requires tail < capacity
    ensures Cong(tail + 1, Next(tail, capacity), capacity)
  {
  }

  lemma PrevCong(tail: nat, capacity: nat)
    requires tail < capacity
    ensures Cong(tail - 1, Prev(tail, capacity), capacity)
  {
    if tail == 0 {
      CongIs(tail - 1, Prev(tail, capacity), capacity, -1);
    }
  }

  lemma StartAt(start: nat, capacity: nat)
    requires start % BLOCK_SIZE == 0 && IsCapacity(capacity)
    ensures KeyAt(Word(start), start, 0, capacity) && KeyAt(Word(start), start + BLOCK_SIZE, 1, capacity)
  {
    hide Cong;
    WordKeepsBlock(start, capacity);
    CongSelf(Blocks(start), capacity);
    CongDifference(Blocks(start), Blocks(start), Blocks(Word(start)), Blocks(start), capacity);
    CongShift(Blocks(start) - Blocks(Word(start)), 0, 1, capacity);
  }

  lemma CongSelf(x: int, c: nat)
    requires c > 0
    ensures Cong(x, x, c)
  {
  }

  // A later key of the same slot.
  ghost predicate Replaces(key: nat, key': nat, capacity: nat) {
    key' < WORD && key' % BLOCK_SIZE == 0 && Cong(Blocks(key'), Blocks(key), capacity)
  }

  // The slot after the tail gets the next key.
  lemma AnchorNext(cells: seq<Cell>, tail: nat, start: nat, value: BlockPtr)
    requires Anchored(cells, tail, start) && tail < |cells| && start % BLOCK_SIZE == 0 && IsCapacity(|cells|)
    ensures var next := Next(tail, |cells|);
      && Anchored(cells[next := Cell(Word(start), value)], next, start + BLOCK_SIZE)
      && (cells[next].key != INVALID_BLOCK_BASE ==> Replaces(cells[next].key, Word(start), |cells|))
  {
    hide Cong, IsCapacity;
    var cap := |cells|;
    var next := Next(tail, cap);
    var cells' := cells[next := Cell(Word(start), value)];
    StartAt(start, cap);
    NextCong(tail, cap);
    forall j | 0 <= j < cap && cells'[j].key != INVALID_BLOCK_BASE && j != next
      ensures KeyAt(cells'[j].key, start + BLOCK_SIZE, next + 1 - j, cap)
    {
      assert KeyAt(cells[j].key, start, tail + 1 - j, cap);
      CongShift(Blocks(start) - Blocks(cells[j].key), tail + 1 - j, 1, cap);
      CongShift(tail + 1, next, 1 - j, cap);
      CongTrans(Blocks(start) - Blocks(cells[j].key) + 1, tail + 1 - j + 1, next + 1 - j, cap);
      assert Blocks(start + BLOCK_SIZE) == Blocks(start) + 1;
    }
    if cells[next].key != INVALID_BLOCK_BASE {
      CongShift(tail + 1, next, 0 - next, cap);
      var a, b := Blocks(start), Blocks(cells[next].key);
      CongTrans(a - b, tail + 1 - next, 0, cap);
      CongDifference(a - b, 0, a - Blocks(Word(start)), 0, cap);
      CongShift(Blocks(Word(start)) - b, 0, b, cap);
    }
  }

  // Stepping the tail back.
  lemma AnchorBack(cells: seq<Cell>, tail: nat, start: nat, cells': seq<Cell>)
    requires Anchored(cells, tail, start) && tail < |cells| && start % BLOCK_SIZE == 0 && start >= BLOCK_SIZE
    requires |cells'| == |cells| && forall j :: 0 <= j < |cells| ==> cells'[j].key == cells[j].key
    ensures Anchored(cells', Prev(tail, |cells|), start - BLOCK_SIZE)
  {
    hide Cong;
    var cap := |cells|;
    PrevCong(tail, cap);
    forall j | 0 <= j < cap && cells[j].key != INVALID_BLOCK_BASE
      ensures KeyAt(cells[j].key, start - BLOCK_SIZE, Prev(tail, cap) + 1 - j, cap)
    {
      CongShift(Blocks(start) - Blocks(cells[j].key), tail + 1 - j, -1, cap);
      CongShift(tail - 1, Prev(tail, cap), 1 - j, cap);
      CongTrans(Blocks(start) - Blocks(cells[j].key) - 1, tail + 1 - j - 1, Prev(tail, cap) + 1 - j, cap);
      assert Blocks(start - BLOCK_SIZE) == Blocks(start) - 1;
    }
  }

  // A full ring, unrolled into one of twice its size.
  lemma AnchorGrow(cells: seq<Cell>, tail: nat, list: seq<Live>, grown: seq<Cell>, start: nat)
    requires RingOk(cells, tail, list) && |list| == |cells| && |grown| == 2 * |cells| && IsCapacity(|grown|)
    requires FollowsOn(list, start)
    requires forall d :: 0 <= d < |cells| ==> grown[|cells| - 1 - d] == cells[Back(tail, d, |cells|)]
    requires forall i :: |cells| <= i < |grown| ==> grown[i].key == INVALID_BLOCK_BASE
    ensures Anchored(grown, |cells| - 1, start)
  {
    hide Cong, IsCapacity;
    var cap := |cells|;
    forall j: nat | j < cap
      ensures KeyAt(grown[j].key, start, cap - j, |grown|)
    {
      var d := cap - 1 - j;
      assert grown[cap - 1 - d] == cells[Back(tail, d, cap)];
      assert CellOk(cells[Back(tail, d, cap)], list, d);
      var base := list[cap - 1 - d].base;
      assert start == base + (d + 1) * BLOCK_SIZE;
      StartAt(base, |grown|);
      CongShift(Blocks(base) - Blocks(Word(base)), 0, d + 1, |grown|);
      DifferenceInBlocks(start, base);
      MultipleOfBlock(d + 1);
    }
  }

  lemma MultipleOfBlock(n: nat)
    ensures Blocks(n * BLOCK_SIZE) == n
  {
  }

  // The ring is full when the slot after its tail is in use.
  lemma NoRoomIsFull(cells: seq<Cell>, tail: nat, list: seq<Live>)
    requires RingOk(cells, tail, list) && !Free(cells[Next(tail, |cells|)])
    ensures |list| == |cells|
    ensures forall j :: 0 <= j < |cells| ==> cells[j].key != INVALID_BLOCK_BASE
  {
    var cap := |cells|;
    assert Back(tail, cap - 1, cap) == Next(tail, cap);
    assert CellOk(cells[Back(tail, cap - 1, cap)], list, cap - 1);
    forall j: nat | j < cap
      ensures cells[j].key != INVALID_BLOCK_BASE
    {
      var d := if j <= tail then tail - j else tail + cap - j;
      assert Back(tail, d, cap) == j;
      assert CellOk(cells[Back(tail, d, cap)], list, d);
      KeyIsBase(list[cap - 1 - d].base);
    }
  }

  lemma {:induction false} PowLess(i: nat, j: nat)
    requires i < j
    ensures Pow2(i) < Pow2(j)
  {
    if j > i + 1 {
      PowLess(i, j - 1);
    }
  }

  lemma CapacityFactor(small: nat, large: nat) returns (m: nat)
    requires IsCapacity(small) && IsCapacity(large) && small <= large
    ensures m > 0 && large == m * small && small > 0
  {
    hide Pow2;
    var i: nat :| i <= MAX_EXPONENT && small == Pow2(i);
    var j: nat :| j <= MAX_EXPONENT && large == Pow2(j);
    if i > j {
      PowLess(j, i);
      assert false;
    }
    m := Pow2(j - i);
    PowProduct(j - i, i);
  }

  // A ring all of whose keys are replaced, if at all, by congruent ones stays aligned.
  lemma AlignedAgain(cells: seq<Cell>, cells': seq<Cell>)
    requires Aligned(cells) && |cells'| == |cells|
    requires forall j :: 0 <= j < |cells| ==> cells[j].key != INVALID_BLOCK_BASE
    requires forall j :: 0 <= j < |cells| ==> Replaces(cells[j].key, cells'[j].key, |cells|)
    ensures Aligned(cells') && forall j :: 0 <= j < |cells'| ==> cells'[j].key != INVALID_BLOCK_BASE
  {
    hide Cong;
    forall i, j | 0 <= i < |cells'| && 0 <= j < |cells'|
      ensures Cong(Blocks(cells'[i].key) - Blocks(cells'[j].key), i - j, |cells'|)
    {
      assert Replaces(cells[i].key, cells'[i].key, |cells|) && Replaces(cells[j].key, cells'[j].key, |cells|);
      CongDifference(Blocks(cells'[i].key), Blocks(cells[i].key), Blocks(cells'[j].key), Blocks(cells[j].key), |cells|);
      CongTrans(Blocks(cells'[i].key) - Blocks(cells'[j].key), Blocks(cells[i].key) - Blocks(cells[j].key), i - j, |cells|);
    }
    forall j | 0 <= j < |cells'|
      ensures cells'[j].key != INVALID_BLOCK_BASE && cells'[j].key < WORD && cells'[j].key % BLOCK_SIZE == 0
    {
      assert Replaces(cells[j].key, cells'[j].key, |cells|);
    }
  }

  // ---------- the producer ----------

  class BlockIndexEntry {
    var key: nat
    var value: BlockPtr

    // The value of a new entry is whatever the memory held.
    constructor ()
      ensures key == INVALID_BLOCK_BASE
    {
      key := INVALID_BLOCK_BASE;
      value := *;
    }
  }

  // The array of entry pointers is written once, before the header is published.
  class BlockIndexHeader {
    const capacity: nat
    var tail: nat
    const index: seq<BlockIndexEntry>

    constructor (capacity: nat, tail: nat, index: seq<BlockIndexEntry>)
      ensures this.capacity == capacity && this.tail == tail && this.index == index
    {
      this.capacity, this.tail, this.index := capacity, tail, index;
    }
  }

  ghost function CellsOf(index: seq<BlockIndexEntry>): (cells: seq<Cell>)
    reads index
    ensures |cells| == |index|
    ensures forall i :: 0 <= i < |index| ==> cells[i] == Cell(index[i].key, index[i].value)
  {
    if index == [] then [] else CellsOf(index[..|index| - 1]) + [Cell(index[|index| - 1].key, index[|index| - 1].value)]
  }

  // Nothing but a released oldest block is forgotten.
  ghost predicate Trimmed(before: seq<Live>, after: seq<Live>) {
    after == before || (before != [] && before[0].block == Null && after == before[1..])
  }

  lemma TrimmedSelf(list: seq<Live>)
    ensures Trimmed(list, list)
  {
  }

  // The entries of the listed blocks.
  ghost predicate SlotsOk(index: seq<BlockIndexEntry>, tail: nat, slots: seq<BlockIndexEntry>) {
    && tail < |index| && |slots| <= |index|
    && forall d :: 0 <= d < |slots| ==> slots[|slots| - 1 - d] == index[Back(tail, d, |index|)]
  }

  ghost predicate AllDifferent(index: seq<BlockIndexEntry>) {
    forall i, j :: 0 <= i < j < |index| ==> index[i] != index[j]
  }

  // The current ring: next is the base of the next block.
  ghost predicate RingState(index: seq<BlockIndexEntry>, cells: seq<Cell>, tail: nat, list: seq<Live>, slots: seq<BlockIndexEntry>, next: nat) {
    && |index| == |cells| && |slots| == |list|
    && IsCapacity(|cells|) && AllDifferent(index)
    && RingOk(cells, tail, list) && FollowsOn(list, next) && Anchored(cells, tail, next)
    && SlotsOk(index, tail, slots)
  }

  ghost predicate Within(h: BlockIndexHeader, index: seq<BlockIndexEntry>) {
    forall e :: e in h.index ==> e in index
  }

  ghost predicate KeysOk(cells: seq<Cell>) {
    Aligned(cells) && forall j :: 0 <= j < |cells| ==> cells[j].key != INVALID_BLOCK_BASE
  }

  // The listed blocks below the limit are among these entries.
  ghost predicate FoundIn(index: seq<BlockIndexEntry>, limit: nat, list: seq<Live>, slots: seq<BlockIndexEntry>) {
    |slots| == |list| && forall i :: 0 <= i < |list| && list[i].base < limit ==> slots[i] in index
  }

  // A ring that has been replaced: its keys are aligned, and the blocks below its limit
  // are found in it while they are listed.
  ghost predicate FormerOk(h: BlockIndexHeader, cells: seq<Cell>, limit: nat, capacity: nat, list: seq<Live>, slots: seq<BlockIndexEntry>, next: nat) {
    && |h.index| == h.capacity == |cells| <= capacity && IsCapacity(h.capacity)
    && KeysOk(cells) && limit <= next && FoundIn(h.index, limit, list, slots)
  }

  ghost function Pos(index: seq<BlockIndexEntry>, e: BlockIndexEntry): nat
    requires e in index
  {
    var k: nat :| k < |index| && index[k] == e;
    k
  }

  // What a replaced ring, whose entries live on in the current one, holds now.
  ghost function Through(h: BlockIndexHeader, index: seq<BlockIndexEntry>, cells: seq<Cell>): seq<Cell>
    requires Within(h, index) && |index| == |cells|
  {
    seq(|h.index|, j requires 0 <= j < |h.index| => cells[Pos(index, h.index[j])])
  }

  ghost predicate AllFormerOk(former: map<BlockIndexHeader, nat>, index: seq<BlockIndexEntry>, cells: seq<Cell>,
                           list: seq<Live>, slots: seq<BlockIndexEntry>, next: nat) {
    && |index| == |cells|
    && forall h :: h in former ==> Within(h, index) && FormerOk(h, Through(h, index, cells), former[h], |index|, list, slots, next)
  }

  ghost function LimitsOf(former: map<BlockIndexHeader, nat>, blockIndex: BlockIndexHeader?, next: nat): map<BlockIndexHeader, nat> {
    if blockIndex == null then former else former[blockIndex := next]
  }

  // A later base of the next block, with or without a new ring.
  lemma LimitsGrow(former: map<BlockIndexHeader, nat>, h: BlockIndexHeader, next: nat, former': map<BlockIndexHeader, nat>, h': BlockIndexHeader, next': nat)
    requires next <= next' && forall x :: x in former ==> former[x] <= next
    requires if h' == h then former' == former else former' == former[h := next]
    ensures forall x :: x in LimitsOf(former, h, next) ==> x in LimitsOf(former', h', next') && LimitsOf(former, h, next)[x] <= LimitsOf(former', h', next')[x]
  {
  }

  class ImplicitProducer {
    var nextBlockIndexCapacity: nat
    var blockIndex: BlockIndexHeader?
    ghost var cells: seq<Cell>
    ghost var list: seq<Live>
    ghost var slots: seq<BlockIndexEntry>        // the entry of each listed block
    ghost var nextStart: nat                     // the base of the next block
    ghost var former: map<BlockIndexHeader, nat>  // replaced rings, and the next base then

    ghost function Entries(): set<BlockIndexEntry>
      reads this`blockIndex
    {
      if blockIndex == null then {} else set e | e in blockIndex.index
    }

    ghost predicate Valid()
      reads this, blockIndex, Entries()
    {
      if blockIndex == null then list == [] && slots == [] && former == map[] && nextStart % BLOCK_SIZE == 0 && nextBlockIndexCapacity == INITIAL_INDEX_SIZE
      else
        && |blockIndex.index| == blockIndex.capacity && nextBlockIndexCapacity == 2 * blockIndex.capacity
        && cells == CellsOf(blockIndex.index)
        && RingState(blockIndex.index, cells, blockIndex.tail, list, slots, nextStart)
        && blockIndex !in former && AllFormerOk(former, blockIndex.index, cells, list, slots, nextStart)
    }

    // All rings a consumer may hold; a block is found in one if its base is below the
    // ring's limit.
    ghost function Limits(): map<BlockIndexHeader, nat>
      reads this`former, this`blockIndex, this`nextStart
    {
      LimitsOf(former, blockIndex, nextStart)
    }

    // The entries that have a key.
    ghost function Keyed(): set<BlockIndexEntry>
      reads this, Entries()
    {
      set e | e in Entries() && e.key != INVALID_BLOCK_BASE
    }

    constructor (memory: bool)
      ensures Valid() && list == [] && nextStart == 0 && (blockIndex != null <==> memory)
    {
      nextBlockIndexCapacity, blockIndex := INITIAL_INDEX_SIZE, null;
      cells, list, slots, nextStart, former := [], [], [], 0, map[];
      new;
      PowProduct(5, MAX_EXPONENT - 5);
      assert Pow2(5) == INITIAL_INDEX_SIZE;
      Multiples(Pow2(MAX_EXPONENT - 5), Pow2(5));
      var ok := NewBlockIndex(memory);
    }

    // The slot after the tail can be used.
    ghost predicate HasRoom()
      requires Valid() && blockIndex != null
      reads this, blockIndex, Entries()
    {
      Free(cells[Next(blockIndex.tail, blockIndex.capacity)])
    }

    // Allocates a ring of the next capacity, if memory allows; no allocation that
    // exceeds the address space succeeds.
    method NewBlockIndex(memory: bool) returns (ok: bool)
      requires Valid() && (memory ==> nextBlockIndexCapacity <= Pow2(MAX_EXPONENT))
      requires blockIndex != null ==> !HasRoom()
      modifies this
      ensures Valid() && ok == memory && list == old(list) && slots == old(slots) && nextStart == old(nextStart)
      ensures ok ==> blockIndex != null && fresh(blockIndex) && fresh(Entries() - old(Entries())) && old(Entries()) <= Entries()
      ensures ok ==> former == if old(blockIndex) == null then map[] else old(former)[old(blockIndex) := nextStart]
      ensures ok ==> cells[Next(blockIndex.tail, blockIndex.capacity)].key == INVALID_BLOCK_BASE
      ensures !ok ==> unchanged(this)
    {
      hide IsCapacity, RingState, AllFormerOk, CellsOf, KeysOk, FoundIn, Free;
      if !memory {
        return false;
      }
      var prev := blockIndex;
      if prev == null {
        var index := WithNewEntries([], nextBlockIndexCapacity);
        FirstRing(CellsOf(index));
        FirstState(index, CellsOf(index), nextStart);
        NoneOlder(index, CellsOf(index), list, slots, nextStart);
        Publish(index, nextBlockIndexCapacity - 1, map[]);
      } else {
        StateParts(prev.index, cells, prev.tail, list, slots, nextStart);
        CapacityDoubles(prev.capacity);
        FullRing(prev.index, cells, prev.tail, list, slots, nextStart);
        var index := Doubled(prev, cells, list, slots, nextStart);
        FormerMore(former, prev, cells, index, CellsOf(index), list, slots, nextStart);
        Publish(index, prev.capacity - 1, former[prev := nextStart]);
      }
      ok := true;
    }

    static method Doubled(prev: BlockIndexHeader, ghost cells: seq<Cell>, ghost list: seq<Live>, ghost slots: seq<BlockIndexEntry>, ghost next: nat)
      returns (index: seq<BlockIndexEntry>)
      requires |prev.index| == prev.capacity && cells == CellsOf(prev.index)
      requires RingState(prev.index, cells, prev.tail, list, slots, next) && |list| == prev.capacity && IsCapacity(2 * prev.capacity)
      ensures |index| == 2 * prev.capacity && RingState(index, CellsOf(index), prev.capacity - 1, list, slots, next)
      ensures forall i :: 0 <= i < |index| ==> index[i] in prev.index || fresh(index[i])
      ensures forall e :: e in prev.index ==> e in index && cells[Pos(prev.index, e)] == CellsOf(index)[Pos(index, e)]
      ensures index[prev.capacity].key == INVALID_BLOCK_BASE
    {
      hide RingState, IsCapacity;
      StateParts(prev.index, cells, prev.tail, list, slots, next);
      var copied := Unrolled(prev);
      index := WithNewEntries(copied, prev.capacity);
      assert forall i :: 0 <= i < |copied| ==> index[i] == index[..|copied|][i];
      StateGrow(prev.index, cells, prev.tail, list, slots, next, index, CellsOf(index));
    }

    // Stores the new header.
    method Publish(index: seq<BlockIndexEntry>, tail: nat, ghost replaced: map<BlockIndexHeader, nat>)
      requires |index| == nextBlockIndexCapacity && RingState(index, CellsOf(index), tail, list, slots, nextStart)
      requires AllFormerOk(replaced, index, CellsOf(index), list, slots, nextStart)
      modifies this
      ensures Valid() && list == old(list) && slots == old(slots) && nextStart == old(nextStart) && former == replaced
      ensures blockIndex != null && fresh(blockIndex) && blockIndex.index == index && blockIndex.tail == tail
      ensures cells == CellsOf(index) && forall i :: 0 <= i < |index| ==> cells[i].key == old(index[i].key)
    {
      hide RingState, AllFormerOk, CellsOf, SlotsOk, IsCapacity, AllDifferent;
      cells := CellsOf(index);
      blockIndex := new BlockIndexHeader(nextBlockIndexCapacity, tail, index);
      former := replaced;
      nextBlockIndexCapacity := nextBlockIndexCapacity * 2;
    }

    // The loop that copies the old ring, oldest slot first.
    static method Unrolled(prev: BlockIndexHeader) returns (index: seq<BlockIndexEntry>)
      requires |prev.index| == prev.capacity && prev.tail < prev.capacity
      requires AllDifferent(prev.index)
      ensures |index| == prev.capacity && forall i :: 0 <= i < |index| ==> index[i] in prev.index
      ensures AllDifferent(index)
      ensures forall d :: 0 <= d < prev.capacity ==> index[prev.capacity - 1 - d] == prev.index[Back(prev.tail, d, prev.capacity)]
    {
      var prevPos := prev.tail;
      index := [];
      while |index| < prev.capacity
        invariant |index| <= prev.capacity && prevPos < prev.capacity
        invariant |index| < prev.capacity ==> prevPos == (if |index| == 0 then prev.tail else Back(prev.tail, prev.capacity - |index|, prev.capacity))
        invariant forall i :: 0 <= i < |index| ==> index[i] == prev.index[Back(prev.tail, prev.capacity - 1 - i, prev.capacity)]
      {
        prevPos := Next(prevPos, prev.capacity);
        index := index + [prev.index[prevPos]];
      }
    }

    // The loop that appends unused entries.
    static method WithNewEntries(start: seq<BlockIndexEntry>, count: nat) returns (index: seq<BlockIndexEntry>)
      requires AllDifferent(start)
      ensures |index| == |start| + count && index[..|start|] == start
      ensures forall i :: |start| <= i < |index| ==> fresh(index[i]) && index[i].key == INVALID_BLOCK_BASE
      ensures AllDifferent(index)
    {
      index := start;
      for i: nat := 0 to count
        invariant |index| == |start| + i && index[..|start|] == start
        invariant forall k :: |start| <= k < |index| ==> fresh(index[k]) && index[k].key == INVALID_BLOCK_BASE
        invariant AllDifferent(index)
      {
        var entry := new BlockIndexEntry();
        index := index + [entry];
      }
    }

    // Uses the slot after the tail for the next block.
    method TakeSlot(start: nat) returns (idxEntry: BlockIndexEntry)
      requires Valid() && blockIndex != null && HasRoom() && start == nextStart
      modifies this`cells, this`list, this`slots, this`nextStart, blockIndex`tail, Entries()
      ensures Valid() && blockIndex == old(blockIndex) && nextStart == start + BLOCK_SIZE
      ensures list != [] && Trimmed(old(list), list[..|list| - 1]) && list[|list| - 1].base == start
      ensures idxEntry == blockIndex.index[blockIndex.tail] && old(Keyed()) <= Keyed()
    {
      hide RingState, AllFormerOk, Carried, Replaces, IsCapacity, CellsOf, SlotsOk;
      StateParts(blockIndex.index, cells, blockIndex.tail, list, slots, nextStart);
      var newTail := Next(blockIndex.tail, blockIndex.capacity);
      idxEntry := blockIndex.index[newTail];
      ghost var cell := Cell(Word(start), idxEntry.value);
      ghost var list' := Kept(list, |cells|) + [Live(start, idxEntry.value)];
      ghost var slots' := KeptSlots(slots, |cells|) + [idxEntry];
      StateNext(blockIndex.index, cells, blockIndex.tail, list, slots, start);
      CarriedNext(former, list, slots, |cells|, start, idxEntry.value, idxEntry);
      FormerKept(former, blockIndex.index, cells, newTail, cell, list, slots, nextStart, list', slots', start + BLOCK_SIZE);
      KeyIsBase(start);
      idxEntry.key := Word(start);
      cells := cells[newTail := cell];
      CellsNow(blockIndex.index, cells);
      blockIndex.tail := newTail;
      list := list';
      slots := slots';
      nextStart := start + BLOCK_SIZE;
      assert list[..|list| - 1] == Kept(old(list), |cells|);
    }

    method InsertBlockIndexEntry(start: nat, canAlloc: bool, memory: bool) returns (ok: bool, idxEntry: BlockIndexEntry?)
      requires Valid() && start == nextStart && (memory ==> nextBlockIndexCapacity <= Pow2(MAX_EXPONENT))
      modifies this, blockIndex, Entries()
      ensures Valid() && ok == (old(blockIndex) != null && (old(HasRoom()) || (canAlloc && memory)))
      ensures ok ==> blockIndex != null && idxEntry == blockIndex.index[blockIndex.tail]
      ensures ok ==> list != [] && Trimmed(old(list), list[..|list| - 1]) && list[|list| - 1].base == start && nextStart == start + BLOCK_SIZE
      ensures ok ==> fresh(Entries() - old(Entries())) && (blockIndex == old(blockIndex) || fresh(blockIndex))
      ensures old(Keyed()) <= Keyed()
      ensures blockIndex == old(blockIndex) ==> former == old(former)
      ensures blockIndex != old(blockIndex) && old(blockIndex) != null ==> former == old(former)[old(blockIndex) := start]
      ensures !ok ==> list == old(list) && nextStart == old(nextStart) && blockIndex == old(blockIndex) && unchanged(Entries())
    {
      hide RingState, AllFormerOk, CellsOf, SlotsOk, IsCapacity, AllDifferent, Trimmed, Pow2;
      if blockIndex == null {
        return false, null;
      }
      StateParts(blockIndex.index, cells, blockIndex.tail, list, slots, nextStart);
      var newTail := Next(blockIndex.tail, blockIndex.capacity);
      idxEntry := blockIndex.index[newTail];
      if idxEntry.key == INVALID_BLOCK_BASE || idxEntry.value == Null {
        idxEntry := TakeSlot(start);
        return true, idxEntry;
      }
      if !canAlloc {
        return false, idxEntry;
      }
      ok := NewBlockIndex(memory);
      if ok {
        idxEntry := TakeSlot(start);
      }
    }

    // Takes back the latest insertion, whose entry's value is then cleared.
    method RewindBlockIndexTail(idxEntry: BlockIndexEntry)
      requires Valid() && blockIndex != null && list != [] && idxEntry == blockIndex.index[blockIndex.tail]
      requires forall h :: h in former ==> former[h] + BLOCK_SIZE <= nextStart
      modifies this`cells, this`list, this`slots, this`nextStart, blockIndex`tail, idxEntry`value
      ensures Valid() && list == old(list[..|list| - 1]) && nextStart == old(nextStart) - BLOCK_SIZE
      ensures Keyed() == old(Keyed())
    {
      hide RingState, AllFormerOk, Carried, Replaces, IsCapacity, CellsOf, SlotsOk;
      StateParts(blockIndex.index, cells, blockIndex.tail, list, slots, nextStart);
      ghost var cell := cells[blockIndex.tail].(value := Null);
      StateBack(blockIndex.index, cells, blockIndex.tail, list, slots, nextStart);
      CarriedBack(former, list, slots, nextStart);
      FormerKept(former, blockIndex.index, cells, blockIndex.tail, cell, list, slots, nextStart, list[..|list| - 1], slots[..|slots| - 1], nextStart - BLOCK_SIZE);
      idxEntry.value := Null;
      cells := cells[blockIndex.tail := cell];
      CellsNow(blockIndex.index, cells);
      blockIndex.tail := Prev(blockIndex.tail, blockIndex.capacity);
      list := list[..|list| - 1];
      slots := slots[..|slots| - 1];
      nextStart := nextStart - BLOCK_SIZE;
    }

    // Stores a block, or its release, in the entry of list[i].
    method StoreValue(idxEntry: BlockIndexEntry, ghost i: nat, value: BlockPtr)
      requires Valid() && blockIndex != null && i < |list| && idxEntry == slots[i]
      modifies this`cells, this`list, idxEntry`value
      ensures Valid() && list == old(list)[i := old(list)[i].(block := value)]
      ensures Keyed() == old(Keyed())
    {
      hide RingState, AllFormerOk, Carried, Replaces, IsCapacity, CellsOf, SlotsOk;
      StateParts(blockIndex.index, cells, blockIndex.tail, list, slots, nextStart);
      ghost var k := Back(blockIndex.tail, |list| - 1 - i, |cells|);
      ghost var cell, list' := cells[k].(value := value), list[i := list[i].(block := value)];
      StateStore(blockIndex.index, cells, blockIndex.tail, list, slots, nextStart, i, value);
      CarriedStore(former, list, slots, nextStart, i, value);
      FormerKept(former, blockIndex.index, cells, k, cell, list, slots, nextStart, list', slots, nextStart);
      idxEntry.value := value;
      cells := cells[k := cell];
      CellsNow(blockIndex.index, cells);
      list := list';
    }

    // The part of enqueue that starts a block at the tail index.  Where it fails,
    // because no slot, no memory for a larger ring or no block is to be had, the list
    // is as before, but for a released oldest block that may be forgotten.
    method StartBlock(start: nat, canAlloc: bool, memory: bool, newBlock: BlockPtr) returns (ok: bool)
      requires Valid() && start == nextStart && (memory ==> nextBlockIndexCapacity <= Pow2(MAX_EXPONENT))
      modifies this, blockIndex, Entries()
      ensures Valid() && nextStart == if ok then start + BLOCK_SIZE else start
      ensures ok == (old(blockIndex) != null && (old(HasRoom()) || (canAlloc && memory)) && newBlock != Null)
      ensures ok ==> list != [] && list[|list| - 1] == Live(start, newBlock) && Trimmed(old(list), list[..|list| - 1])
      ensures !ok ==> Trimmed(old(list), list)
      ensures old(Keyed()) <= Keyed()
      ensures forall h :: h in old(Limits()) ==> h in Limits() && old(Limits())[h] <= Limits()[h]
    {
      hide RingState, AllFormerOk, CellsOf, SlotsOk, IsCapacity, AllDifferent, Trimmed, Pow2, Free, Back, LimitsOf;
      TrimmedSelf(list);
      if blockIndex != null {
        LimitsBelow(former, blockIndex.index, cells, list, slots, nextStart);
      }
      var inserted, idxEntry := InsertBlockIndexEntry(start, canAlloc, memory);
      if !inserted {
        return false;
      }
      StateParts(blockIndex.index, cells, blockIndex.tail, list, slots, nextStart);
      LatestSlot(blockIndex.index, blockIndex.tail, slots);
      if newBlock == Null {
        RewindBlockIndexTail(idxEntry);
        LimitsGrow(old(former), old(blockIndex), start, former, blockIndex, start);
        return false;
      }
      StoreValue(idxEntry, |list| - 1, newBlock);
      LimitsGrow(old(former), old(blockIndex), start, former, blockIndex, start + BLOCK_SIZE);
      return true;
    }

    // The entry of an element: index is any element of the listed block list[i].  The
    // header and the tail may have been loaded long before: whatever ring has a limit
    // above the block, and whatever slot of it has a key, the block's entry is found.
    method GetBlockIndexIndexForIndex(localBlockIndex: BlockIndexHeader, tail: nat, index: nat, ghost e: nat, ghost i: nat) returns (idx: nat)
      requires Valid() && localBlockIndex in Limits() && |localBlockIndex.index| == localBlockIndex.capacity
      requires tail < localBlockIndex.capacity && localBlockIndex.index[tail] in Keyed()
      requires i < |list| && list[i].base <= e < list[i].base + BLOCK_SIZE && index == Word(e)
      requires list[i].base < Limits()[localBlockIndex]
      ensures idx < localBlockIndex.capacity && localBlockIndex.index[idx] == slots[i]
      ensures slots[i].key == Word(list[i].base) == BlockBase(index) && slots[i].value == list[i].block
    {
      ghost var keys, slot := RingFor(this, localBlockIndex, i);
      EntryOf(this, i);
      var tailBase := localBlockIndex.index[tail].key;
      idx := Position(index, tailBase, tail, localBlockIndex.capacity);
      AlignedPosition(keys, tail, slot, list[i].base, e);
    }

    // A consumer that has emptied a block: look it up, then clear its entry.
    method ReleaseBlock(localBlockIndex: BlockIndexHeader, tail: nat, index: nat, ghost e: nat, ghost i: nat)
      requires Valid() && localBlockIndex in Limits() && |localBlockIndex.index| == localBlockIndex.capacity
      requires tail < localBlockIndex.capacity && localBlockIndex.index[tail] in Keyed()
      requires i < |list| && list[i].base <= e < list[i].base + BLOCK_SIZE && index == Word(e)
      requires list[i].base < Limits()[localBlockIndex]
      modifies this`cells, this`list, Entries()
      ensures Valid() && list == old(list)[i := old(list)[i].(block := Null)]
      ensures Keyed() == old(Keyed()) && Limits() == old(Limits())
    {
      hide RingState, AllFormerOk, CellsOf, SlotsOk, IsCapacity, AllDifferent, Pow2, Back, Word, BlockBase, LimitsOf;
      StateParts(blockIndex.index, cells, blockIndex.tail, list, slots, nextStart);
      var idx := GetBlockIndexIndexForIndex(localBlockIndex, tail, index, e, i);
      SlotListed(blockIndex.index, blockIndex.tail, slots, i);
      StoreValue(localBlockIndex.index[idx], i, Null);
    }
  }

  // ---------- looking a block up ----------

  // There is room exactly if the ring is not full or its oldest block is released.
  lemma RoomMeans(p: ImplicitProducer)
    requires p.Valid() && p.blockIndex != null
    ensures p.HasRoom() <==> |p.list| < p.blockIndex.capacity || p.list[0].block == Null
  {
    hide IsCapacity, Anchored, AllFormerOk, CellsOf, SlotsOk;
    RingTail(p.cells, p.blockIndex.tail, p.list);
    OldestSlot(p.cells, p.blockIndex.tail, p.list);
  }

  lemma OldestSlot(cells: seq<Cell>, tail: nat, list: seq<Live>)
    requires RingOk(cells, tail, list)
    ensures Free(cells[Next(tail, |cells|)]) <==> |list| < |cells| || list[0].block == Null
  {
    var cap := |cells|;
    assert Back(tail, cap - 1, cap) == Next(tail, cap);
    assert CellOk(cells[Back(tail, cap - 1, cap)], list, cap - 1);
    if |list| == cap {
      KeyIsBase(list[0].base);
    }
  }

  // What a consumer loads meets the requirements of the lookup, for every block
  // listed then; StartBlock and ReleaseBlock keep it so.
  lemma LoadedNow(p: ImplicitProducer, i: nat)
    requires p.Valid() && i < |p.list|
    ensures p.blockIndex != null && p.blockIndex in p.Limits() && p.list[i].base < p.Limits()[p.blockIndex]
    ensures p.blockIndex.tail < |p.blockIndex.index| == p.blockIndex.capacity && p.blockIndex.index[p.blockIndex.tail] in p.Keyed()
  {
    hide IsCapacity, Anchored, AllFormerOk, CellsOf;
    RingTail(p.cells, p.blockIndex.tail, p.list);
    CellIs(p.cells, p.blockIndex.tail, p.list, |p.list| - 1);
    KeyIsBase(p.list[|p.list| - 1].base);
  }

  // What a ring with a limit above a listed block holds, and where the block sits.
  lemma RingFor(p: ImplicitProducer, h: BlockIndexHeader, i: nat) returns (keys: seq<Cell>, slot: nat)
    requires p.Valid() && h in p.Limits() && i < |p.list| && p.list[i].base < p.Limits()[h]
    ensures slot < |h.index| == h.capacity == |keys| && IsCapacity(h.capacity) && h.index[slot] == p.slots[i]
    ensures Aligned(keys) && forall j :: 0 <= j < |keys| ==> h.index[j] in p.Entries() && keys[j] == Cell(h.index[j].key, h.index[j].value)
  {
    hide IsCapacity, RingOk, Anchored, Aligned, SlotsOk, CellsOf;
    if h == p.blockIndex {
      keys := p.cells;
      RingTail(p.cells, h.tail, p.list);
      AnchoredIsAligned(p.cells, h.tail, p.nextStart);
      SlotIs(h.index, h.tail, p.slots, i);
      slot := Back(h.tail, |p.list| - 1 - i, |p.cells|);
    } else {
      assert Within(h, p.blockIndex.index);
      keys := Through(h, p.blockIndex.index, p.cells);
      assert FormerOk(h, keys, p.former[h], |p.cells|, p.list, p.slots, p.nextStart);
      slot :| slot < |h.index| && h.index[slot] == p.slots[i];
    }
  }

  // What the entry of a listed block holds.
  lemma EntryOf(p: ImplicitProducer, i: nat)
    requires p.Valid() && i < |p.list|
    ensures p.slots[i].key == Word(p.list[i].base) && p.slots[i].value == p.list[i].block && p.list[i].base % BLOCK_SIZE == 0
  {
    hide RingOk, IsCapacity, Anchored, Aligned, SlotsOk;
    RingTail(p.cells, p.blockIndex.tail, p.list);
    SlotIs(p.blockIndex.index, p.blockIndex.tail, p.slots, i);
    CellIs(p.cells, p.blockIndex.tail, p.list, i);
  }

  ghost predicate FollowsOn(list: seq<Live>, start: nat) {
    start % BLOCK_SIZE == 0 && (list != [] ==> start == list[|list| - 1].base + BLOCK_SIZE)
  }

  lemma FollowsOnBack(list: seq<Live>, start: nat)
    requires FollowsOn(list, start) && Consecutive(list) && list != []
    ensures start >= BLOCK_SIZE && FollowsOn(list[..|list| - 1], start - BLOCK_SIZE)
  {
  }

  lemma FollowsOnStore(list: seq<Live>, start: nat, i: nat, value: BlockPtr)
    requires FollowsOn(list, start) && i < |list|
    ensures FollowsOn(list[i := list[i].(block := value)], start)
  {
  }

  lemma RingTail(cells: seq<Cell>, tail: nat, list: seq<Live>)
    requires RingOk(cells, tail, list)
    ensures tail < |cells| && |list| <= |cells| && Back(tail, 0, |cells|) == tail && Consecutive(list)
  {
  }

  lemma CellIs(cells: seq<Cell>, tail: nat, list: seq<Live>, i: nat)
    requires RingOk(cells, tail, list) && i < |list|
    ensures cells[Back(tail, |list| - 1 - i, |cells|)] == Cell(Word(list[i].base), list[i].block) && list[i].base % BLOCK_SIZE == 0
  {
    assert CellOk(cells[Back(tail, |list| - 1 - i, |cells|)], list, |list| - 1 - i);
  }

  lemma KeyIsBase(base: nat)
    requires base % BLOCK_SIZE == 0
    ensures Word(base) != INVALID_BLOCK_BASE
  {
  }

  // ---------- the entries of the listed blocks ----------

  lemma SlotIs(index: seq<BlockIndexEntry>, tail: nat, slots: seq<BlockIndexEntry>, i: nat)
    requires SlotsOk(index, tail, slots) && i < |slots|
    ensures tail < |index| && |slots| <= |index| && slots[i] == index[Back(tail, |slots| - 1 - i, |index|)]
  {
    assert slots[|slots| - 1 - (|slots| - 1 - i)] == slots[i];
  }

  lemma SlotListed(index: seq<BlockIndexEntry>, tail: nat, slots: seq<BlockIndexEntry>, i: nat)
    requires SlotsOk(index, tail, slots) && i < |slots|
    ensures slots[i] in index
  {
    SlotIs(index, tail, slots, i);
  }

  lemma LatestSlot(index: seq<BlockIndexEntry>, tail: nat, slots: seq<BlockIndexEntry>)
    requires SlotsOk(index, tail, slots) && slots != []
    ensures tail < |index| && slots[|slots| - 1] == index[tail]
  {
    SlotIs(index, tail, slots, |slots| - 1);
  }

  lemma SlotsNext(index: seq<BlockIndexEntry>, tail: nat, slots: seq<BlockIndexEntry>)
    requires SlotsOk(index, tail, slots)
    ensures var next := Next(tail, |index|);
      SlotsOk(index, next, (if |slots| == |index| then slots[1..] else slots) + [index[next]])
  {
    var cap := |index|;
    var next := Next(tail, cap);
    var slots' := (if |slots| == cap then slots[1..] else slots) + [index[next]];
    forall d | 0 <= d < |slots'|
      ensures slots'[|slots'| - 1 - d] == index[Back(next, d, cap)]
    {
      if d > 0 {
        assert Back(next, d, cap) == Back(tail, d - 1, cap);
        assert slots[|slots| - 1 - (d - 1)] == index[Back(tail, d - 1, cap)];
      }
    }
  }

  lemma SlotsBack(index: seq<BlockIndexEntry>, tail: nat, slots: seq<BlockIndexEntry>)
    requires SlotsOk(index, tail, slots) && slots != []
    ensures SlotsOk(index, Prev(tail, |index|), slots[..|slots| - 1])
  {
    var cap := |index|;
    forall d | 0 <= d < |slots| - 1
      ensures slots[..|slots| - 1][|slots| - 2 - d] == index[Back(Prev(tail, cap), d, cap)]
    {
      assert Back(Prev(tail, cap), d, cap) == Back(tail, d + 1, cap);
      assert slots[|slots| - 1 - (d + 1)] == index[Back(tail, d + 1, cap)];
    }
  }

  lemma SlotsGrow(index: seq<BlockIndexEntry>, tail: nat, slots: seq<BlockIndexEntry>, grown: seq<BlockIndexEntry>)
    requires SlotsOk(index, tail, slots) && |grown| == 2 * |index|
    requires forall d :: 0 <= d < |index| ==> grown[|index| - 1 - d] == index[Back(tail, d, |index|)]
    ensures SlotsOk(grown, |index| - 1, slots)
    ensures forall e :: e in index ==> e in grown
  {
    var cap := |index|;
    forall j | 0 <= j < cap
      ensures index[j] in grown
    {
      var d := if j <= tail then tail - j else tail + cap - j;
      assert Back(tail, d, cap) == j;
      assert grown[cap - 1 - d] == index[j];
    }
    var last: nat := cap - 1;
    forall d | 0 <= d < |slots|
      ensures slots[|slots| - 1 - d] == grown[Back(last, d, |grown|)]
    {
      assert grown[cap - 1 - d] == index[Back(tail, d, cap)];
    }
  }

  // ---------- the current ring ----------

  function KeptSlots(slots: seq<BlockIndexEntry>, capacity: nat): seq<BlockIndexEntry> {
    if slots != [] && |slots| == capacity then slots[1..] else slots
  }

  lemma StateParts(index: seq<BlockIndexEntry>, cells: seq<Cell>, tail: nat, list: seq<Live>, slots: seq<BlockIndexEntry>, next: nat)
    requires RingState(index, cells, tail, list, slots, next)
    ensures |index| == |cells| && tail < |cells| && |slots| == |list| <= |cells| && next % BLOCK_SIZE == 0
    ensures IsCapacity(|cells|) && AllDifferent(index) && SlotsOk(index, tail, slots)
    ensures forall i :: 0 <= i < |list| ==> index[Back(tail, |list| - 1 - i, |cells|)] == slots[i]
  {
    forall i | 0 <= i < |list|
      ensures index[Back(tail, |list| - 1 - i, |cells|)] == slots[i]
    {
      SlotIs(index, tail, slots, i);
    }
  }

  lemma FirstState(index: seq<BlockIndexEntry>, cells: seq<Cell>, next: nat)
    requires |index| == |cells| && AllDifferent(index) && IsCapacity(|cells|) && next % BLOCK_SIZE == 0
    requires RingOk(cells, |cells| - 1, []) && forall i :: 0 <= i < |cells| ==> cells[i].key == INVALID_BLOCK_BASE
    ensures RingState(index, cells, |cells| - 1, [], [], next)
  {
  }

  lemma FullRing(index: seq<BlockIndexEntry>, cells: seq<Cell>, tail: nat, list: seq<Live>, slots: seq<BlockIndexEntry>, next: nat)
    requires RingState(index, cells, tail, list, slots, next) && tail < |cells| && !Free(cells[Next(tail, |cells|)])
    ensures |list| == |cells| && KeysOk(cells) && FoundIn(index, next, list, slots)
  {
    hide IsCapacity, RingOk, Anchored, Aligned, SlotsOk;
    NoRoomIsFull(cells, tail, list);
    AnchoredIsAligned(cells, tail, next);
    forall i | 0 <= i < |list|
      ensures slots[i] in index
    {
      SlotListed(index, tail, slots, i);
    }
  }

  lemma StateGrow(index: seq<BlockIndexEntry>, cells: seq<Cell>, tail: nat, list: seq<Live>, slots: seq<BlockIndexEntry>, next: nat,
                  index': seq<BlockIndexEntry>, cells': seq<Cell>)
    requires RingState(index, cells, tail, list, slots, next) && tail < |cells| && |list| == |cells| && IsCapacity(2 * |cells|)
    requires AllDifferent(index') && |index'| == |cells'| == 2 * |cells|
    requires forall d :: 0 <= d < |cells| ==> index'[|cells| - 1 - d] == index[Back(tail, d, |cells|)]
    requires forall d :: 0 <= d < |cells| ==> cells'[|cells| - 1 - d] == cells[Back(tail, d, |cells|)]
    requires forall i :: |cells| <= i < |cells'| ==> cells'[i].key == INVALID_BLOCK_BASE
    ensures RingState(index', cells', |cells| - 1, list, slots, next)
    ensures forall e :: e in index ==> e in index'
  {
    hide IsCapacity, RingOk, Anchored, SlotsOk;
    RingGrow(cells, tail, list, cells');
    AnchorGrow(cells, tail, list, cells', next);
    SlotsGrow(index, tail, slots, index');
  }

  // The slot after the tail gets the next block.
  lemma StateNext(index: seq<BlockIndexEntry>, cells: seq<Cell>, tail: nat, list: seq<Live>, slots: seq<BlockIndexEntry>, start: nat)
    requires RingState(index, cells, tail, list, slots, start) && tail < |cells| && Free(cells[Next(tail, |cells|)])
    ensures var next := Next(tail, |cells|);
      var value := cells[next].value;
      && RingState(index, cells[next := Cell(Word(start), value)], next, Kept(list, |cells|) + [Live(start, value)],
                   KeptSlots(slots, |cells|) + [index[next]], start + BLOCK_SIZE)
      && (cells[next].key != INVALID_BLOCK_BASE ==> Replaces(cells[next].key, Word(start), |cells|))
      && Trimmed(list, Kept(list, |cells|))
  {
    hide IsCapacity, RingOk, Anchored, SlotsOk, Replaces, Word;
    var next := Next(tail, |cells|);
    RingTail(cells, tail, list);
    RingInsert(cells, tail, list, start);
    AnchorNext(cells, tail, start, cells[next].value);
    SlotsNext(index, tail, slots);
  }

  lemma StateBack(index: seq<BlockIndexEntry>, cells: seq<Cell>, tail: nat, list: seq<Live>, slots: seq<BlockIndexEntry>, next: nat)
    requires RingState(index, cells, tail, list, slots, next) && tail < |cells| && list != []
    ensures next >= BLOCK_SIZE
    ensures RingState(index, cells[tail := cells[tail].(value := Null)], Prev(tail, |cells|), list[..|list| - 1], slots[..|slots| - 1], next - BLOCK_SIZE)
  {
    hide IsCapacity, RingOk, Anchored, SlotsOk;
    RingTail(cells, tail, list);
    RingRewind(cells, tail, list);
    FollowsOnBack(list, next);
    AnchorBack(cells, tail, next, cells[tail := cells[tail].(value := Null)]);
    SlotsBack(index, tail, slots);
  }

  lemma StateStore(index: seq<BlockIndexEntry>, cells: seq<Cell>, tail: nat, list: seq<Live>, slots: seq<BlockIndexEntry>, next: nat, i: nat, value: BlockPtr)
    requires RingState(index, cells, tail, list, slots, next) && i < |list| <= |cells| && tail < |cells|
    ensures var k := Back(tail, |list| - 1 - i, |cells|);
      RingState(index, cells[k := cells[k].(value := value)], tail, list[i := list[i].(block := value)], slots, next)
  {
    hide IsCapacity, RingOk, Anchored, SlotsOk;
    var k := Back(tail, |list| - 1 - i, |cells|);
    RingStore(cells, tail, list, i, value);
    SameKeysAnchored(cells, tail, next, cells[k := cells[k].(value := value)]);
    FollowsOnStore(list, next, i, value);
  }

  lemma CellsNow(index: seq<BlockIndexEntry>, cells: seq<Cell>)
    requires |index| == |cells| && forall j :: 0 <= j < |index| ==> cells[j] == Cell(index[j].key, index[j].value)
    ensures CellsOf(index) == cells
  {
  }

  // ---------- the replaced rings ----------

  lemma NoneOlder(index: seq<BlockIndexEntry>, cells: seq<Cell>, list: seq<Live>, slots: seq<BlockIndexEntry>, next: nat)
    requires |index| == |cells|
    ensures AllFormerOk(map[], index, cells, list, slots, next)
  {
  }

  lemma LimitsBelow(former: map<BlockIndexHeader, nat>, index: seq<BlockIndexEntry>, cells: seq<Cell>, list: seq<Live>, slots: seq<BlockIndexEntry>, next: nat)
    requires AllFormerOk(former, index, cells, list, slots, next)
    ensures forall h :: h in former ==> former[h] <= next
  {
  }

  // The ring prev joins them.
  lemma FormerMore(former: map<BlockIndexHeader, nat>, prev: BlockIndexHeader, cells: seq<Cell>, index: seq<BlockIndexEntry>, cells': seq<Cell>,
                   list: seq<Live>, slots: seq<BlockIndexEntry>, next: nat)
    requires AllFormerOk(former, prev.index, cells, list, slots, next) && IsCapacity(prev.capacity) && AllDifferent(prev.index)
    requires |prev.index| == prev.capacity == |cells| <= |index| == |cells'|
    requires KeysOk(cells) && FoundIn(prev.index, next, list, slots)
    requires forall e :: e in prev.index ==> e in index && cells[Pos(prev.index, e)] == cells'[Pos(index, e)]
    ensures AllFormerOk(former[prev := next], index, cells', list, slots, next)
  {
    hide KeysOk, FoundIn, IsCapacity;
    assert Through(prev, index, cells') == cells;
    forall h | h in former && h != prev
      ensures Within(h, index) && FormerOk(h, Through(h, index, cells'), former[h], |index|, list, slots, next)
    {
      assert Within(h, prev.index);
      assert Through(h, index, cells') == Through(h, prev.index, cells);
    }
  }

  // A change of the list loses no block that a replaced ring is to find.
  ghost predicate Carried(former: map<BlockIndexHeader, nat>, list: seq<Live>, slots: seq<BlockIndexEntry>, next: nat,
                          list': seq<Live>, slots': seq<BlockIndexEntry>, next': nat) {
    forall h :: h in former && former[h] <= next && FoundIn(h.index, former[h], list, slots) ==>
                  former[h] <= next' && FoundIn(h.index, former[h], list', slots')
  }

  lemma CarriedNext(former: map<BlockIndexHeader, nat>, list: seq<Live>, slots: seq<BlockIndexEntry>, capacity: nat, start: nat, value: BlockPtr, entry: BlockIndexEntry)
    requires |slots| == |list|
    ensures Carried(former, list, slots, start, Kept(list, capacity) + [Live(start, value)], KeptSlots(slots, capacity) + [entry], start + BLOCK_SIZE)
  {
  }

  lemma CarriedBack(former: map<BlockIndexHeader, nat>, list: seq<Live>, slots: seq<BlockIndexEntry>, next: nat)
    requires |slots| == |list| > 0 && next >= BLOCK_SIZE && forall h :: h in former ==> former[h] + BLOCK_SIZE <= next
    ensures Carried(former, list, slots, next, list[..|list| - 1], slots[..|slots| - 1], next - BLOCK_SIZE)
  {
  }

  lemma CarriedStore(former: map<BlockIndexHeader, nat>, list: seq<Live>, slots: seq<BlockIndexEntry>, next: nat, i: nat, value: BlockPtr)
    requires |slots| == |list| && i < |list|
    ensures Carried(former, list, slots, next, list[i := list[i].(block := value)], slots, next)
  {
  }

  // They are as before when one entry gets a congruent key or another value.
  lemma FormerKept(former: map<BlockIndexHeader, nat>, index: seq<BlockIndexEntry>, cells: seq<Cell>, k: nat, cell: Cell,
                   list: seq<Live>, slots: seq<BlockIndexEntry>, next: nat, list': seq<Live>, slots': seq<BlockIndexEntry>, next': nat)
    requires AllFormerOk(former, index, cells, list, slots, next) && IsCapacity(|index|) && k < |cells|
    requires cell.key == cells[k].key || cells[k].key == INVALID_BLOCK_BASE || Replaces(cells[k].key, cell.key, |index|)
    requires Carried(former, list, slots, next, list', slots', next')
    ensures AllFormerOk(former, index, cells[k := cell], list', slots', next')
  {
    hide FoundIn, IsCapacity, Replaces, Aligned;
    forall h | h in former
      ensures Within(h, index) && FormerOk(h, Through(h, index, cells[k := cell]), former[h], |index|, list', slots', next')
    {
      var ring, ring' := Through(h, index, cells), Through(h, index, cells[k := cell]);
      if cell.key == cells[k].key || cells[k].key == INVALID_BLOCK_BASE {
        AlignedKeys(ring, ring');
      } else {
        FormerAligned(ring, ring', |index|, cells[k].key, cell.key);
      }
    }
  }

  // ---------- keys that stay ----------

  lemma SameKeysAnchored(cells: seq<Cell>, tail: nat, start: nat, cells': seq<Cell>)
    requires Anchored(cells, tail, start) && |cells'| == |cells| && forall j :: 0 <= j < |cells| ==> cells'[j].key == cells[j].key
    ensures Anchored(cells', tail, start)
  {
    hide KeyAt;
  }

  lemma AlignedKeys(cells: seq<Cell>, cells': seq<Cell>)
    requires Aligned(cells) && |cells'| == |cells| && forall j :: 0 <= j < |cells| ==> cells'[j].key == cells[j].key
    ensures Aligned(cells')
  {
    hide Cong, Blocks;
  }

  // A replaced ring when an entry of the current one gets its next key.
  lemma FormerAligned(cells: seq<Cell>, cells': seq<Cell>, capacity: nat, key: nat, key': nat)
    requires Aligned(cells) && |cells'| == |cells| <= capacity && IsCapacity(|cells|) && IsCapacity(capacity)
    requires forall j :: 0 <= j < |cells| ==> cells[j].key != INVALID_BLOCK_BASE
    requires key != INVALID_BLOCK_BASE ==> Replaces(key, key', capacity)
    requires forall j :: 0 <= j < |cells| ==> cells'[j].key == cells[j].key || (cells[j].key == key && cells'[j].key == key')
    ensures Aligned(cells') && forall j :: 0 <= j < |cells'| ==> cells'[j].key != INVALID_BLOCK_BASE
  {
    hide Cong, IsCapacity;
    var m := CapacityFactor(|cells|, capacity);
    forall j | 0 <= j < |cells|
      ensures Replaces(cells[j].key, cells'[j].key, |cells|)
    {
      if cells'[j].key == cells[j].key {
        CongSelf(Blocks(cells[j].key), |cells|);
      } else {
        CongDown(Blocks(key'), Blocks(key), |cells|, m);
      }
    }
    AlignedAgain(cells, cells');
  }

  // The slot computed from any keyed slot of an aligned ring.
  lemma AlignedPosition(cells: seq<Cell>, tail: nat, slot: nat, base: nat, e: nat)
    requires Aligned(cells) && IsCapacity(|cells|) && tail < |cells| && slot < |cells|
    requires cells[tail].key != INVALID_BLOCK_BASE && cells[slot].key == Word(base)
    requires base % BLOCK_SIZE == 0 && base <= e < base + BLOCK_SIZE
    ensures Position(Word(e), cells[tail].key, tail, |cells|) == slot && BlockBase(Word(e)) == Word(base)
  {
    hide Cong, IsCapacity, Position, BlockBase, Blocks;
    KeyIsBase(base);
    PositionOf(base, e - base, cells[tail].key, tail, slot, |cells|);
  }
}
