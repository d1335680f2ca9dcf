/**
 concurrentqueue.h: the optimistic dequeue protocol of a producer's sub-queue.
 A dequeue takes a ticket from dequeueOptimisticCount, passes if the ticket minus
 an older value of dequeueOvercommit is below tailIndex, and only then advances
 headIndex; otherwise it increments dequeueOvercommit.  One producer and any number
 of consumers interleave these atomic operations.
 */
module DequeueCounters {
  import opened Words

  const BLOCK_SIZE: int := 32

  // The counters are 64-bit words; the state keeps their true values.  This is
  // (T)(a - b) > (T)1 << 63, on words.
  predicate CircularLessThan(a: nat, b: nat) {
    Word(a - b) > HALF
  }

  predicate Less(a: int, b: int) {
    CircularLessThan(Word(a), Word(b))
  }

  // Word comparison is exact between values less than 2^63 apart.
  lemma LessIsLess(a: int, b: int)
    requires -HALF < a - b < HALF
    ensures Less(a, b) <==> a < b
  {
  }

  // It errs on one side only as long as a is not more than 2^63 above b.
  lemma LessIsBelow(a: int, b: int)
    requires a - b <= HALF && Less(a, b)
    ensures a < b
  {
    assert a - b == HALF ==> Word(Word(a) - Word(b)) == HALF;
    if 0 <= a - b < HALF {
      LessIsLess(a, b);
    }
  }

  lemma FarAboveIsLess(a: nat, d: nat)
    requires HALF < d < WORD
    ensures Less(a + d, a)
  {
    DifferenceOfWords(a + d, a);
    assert Word(d) == d;
  }

  lemma DifferenceOfWords(a: nat, b: nat)
    ensures Word(Word(a) - Word(b)) == Word(a - b)
  {
    var q := a / WORD - b / WORD;
    assert a - b == q * WORD + (Word(a) - Word(b));
    var r := Word(Word(a) - Word(b));
    var k := (Word(a) - Word(b)) / WORD;
    assert a - b == (q + k) * WORD + r;
    DivisionIsUnique(a - b, WORD, q + k, r);
  }

  datatype Pc =
    | Idle
    | LoadOvercommit(tail: nat)
    | LoadCount(tail: nat, over: nat)
    | TakeTicket(over: nat)
    | Check(over: nat, ticket: nat)
    | TakeHead(ticket: nat)
    | GiveUp(ticket: nat)

  // What became of a ticket: passed and took an index, or failed and gave it back.
  datatype Status = Checking | Passed | Took | Failed | Gave

  // status and owner, one entry per ticket, are history.
  datatype State = State(
    tail: nat, head: nat, optimistic: nat, overcommit: nat, pcs: seq<Pc>,
    status: seq<Status>, owner: seq<nat>)

  function Init(consumers: nat): State {
    State(0, 0, 0, 0, seq(consumers, _ => Idle), [], [])
  }

  // ---------- the steps ----------

  function At(s: State, t: nat, pc: Pc): State
    requires t < |s.pcs|
  {
    s.(pcs := s.pcs[t := pc])
  }

  function Mark(s: State, m: nat, status: Status): State {
    if m < |s.status| then s.(status := s.status[m := status]) else s
  }

  // At the end of a block the producer gives up unless a whole further block
  // leaves headIndex recognisably behind; otherwise it publishes one more element.
  function Enqueue(s: State): State {
    if s.tail % BLOCK_SIZE == 0 && !Less(s.head, s.tail + BLOCK_SIZE) then s
    else s.(tail := s.tail + 1)
  }

  // The next atomic operation of consumer t.
  function Dequeue(s: State, t: nat): State
    requires t < |s.pcs|
  {
    match s.pcs[t]
    case Idle => At(s, t, LoadOvercommit(s.tail))
    case LoadOvercommit(tail) => At(s, t, LoadCount(tail, s.overcommit))
    case LoadCount(tail, over) => At(s, t, if Less(s.optimistic - over, tail) then TakeTicket(over) else Idle)
    case TakeTicket(over) =>
      At(s, t, Check(over, s.optimistic))
      .(optimistic := s.optimistic + 1, status := s.status + [Checking], owner := s.owner + [t])
    case Check(over, m) =>
      if Less(m - over, s.tail) then Mark(At(s, t, TakeHead(m)), m, Passed) else Mark(At(s, t, GiveUp(m)), m, Failed)
    case TakeHead(m) => Mark(At(s, t, Idle).(head := s.head + 1), m, Took)
    case GiveUp(m) => Mark(At(s, t, Idle).(overcommit := s.overcommit + 1), m, Gave)
  }

  // The value about to be checked against tailIndex is not more than 2^63 above it.
  // The test before it may go wrong either way, and the check may fail wrongly.
  ghost predicate Near(s: State) {
    forall t :: 0 <= t < |s.pcs| && s.pcs[t].Check? ==> s.pcs[t].ticket - s.pcs[t].over - s.tail <= HALF
  }

  datatype Actor = Producer | Consumer(t: nat)

  ghost predicate Step(s: State, a: Actor, s': State) {
    && Near(s)
    && match a
       case Producer => s' == Enqueue(s)
       case Consumer(t) => t < |s.pcs| && s' == Dequeue(s, t)
  }

  ghost predicate Run(consumers: nat, run: seq<State>, who: seq<Actor>) {
    && |run| == |who| + 1 && run[0] == Init(consumers)
    && forall i :: 0 <= i < |who| ==> Step(run[i], who[i], run[i + 1])
  }

  // ---------- counting tickets ----------

  function Count(ts: seq<Status>, which: set<Status>): (c: nat)
    ensures c <= |ts|
  {
    if ts == [] then 0 else Count(ts[..|ts| - 1], which) + if ts[|ts| - 1] in which then 1 else 0
  }

  function Lost(ts: seq<Status>): nat {
    Count(ts, {Failed, Gave})
  }

  function Won(ts: seq<Status>): nat {
    Count(ts, {Passed, Took})
  }

  lemma {:induction false} CountUpdate(ts: seq<Status>, m: nat, x: Status, which: set<Status>)
    requires m < |ts|
    ensures Count(ts[m := x], which) ==
            Count(ts, which) - (if ts[m] in which then 1 else 0) + (if x in which then 1 else 0)
  {
    var k := |ts| - 1;
    if m == k {
      assert ts[m := x][..k] == ts[..k];
    } else {
      assert ts[m := x][..k] == ts[..k][m := x];
      CountUpdate(ts[..k], m, x, which);
    }
  }

  lemma CountAppend(ts: seq<Status>, x: Status, which: set<Status>)
    ensures Count(ts + [x], which) == Count(ts, which) + if x in which then 1 else 0
  {
  }

  lemma {:induction false} CountSubset(ts: seq<Status>, a: set<Status>, b: set<Status>)
    requires a <= b
    ensures Count(ts, a) <= Count(ts, b)
  {
    if ts != [] {
      CountSubset(ts[..|ts| - 1], a, b);
    }
  }

  lemma {:induction false} CountSplit(ts: seq<Status>)
    ensures Won(ts) + Lost(ts) + Count(ts, {Checking}) == |ts|
    ensures Won(ts) == Count(ts, {Passed}) + Count(ts, {Took})
    ensures Lost(ts) == Count(ts, {Failed}) + Count(ts, {Gave})
  {
    if ts != [] {
      CountSplit(ts[..|ts| - 1]);
      match ts[|ts| - 1] {
        case Checking =>
        case Passed =>
        case Took =>
        case Failed =>
        case Gave =>
      }
    }
  }

  lemma {:induction false} CountNone(ts: seq<Status>, which: set<Status>)
    requires forall m :: 0 <= m < |ts| ==> ts[m] !in which
    ensures Count(ts, which) == 0
  {
    if ts != [] {
      CountNone(ts[..|ts| - 1], which);
    }
  }

  // ---------- the invariant ----------

  // A winning ticket has enough losing tickets below it.
  ghost predicate WinOk(ts: seq<Status>, tail: nat, m: nat)
    requires m < |ts|
  {
    ts[m] in {Passed, Took} ==> m + 1 <= tail + Lost(ts[..m])
  }

  // Who holds a ticket that is still in play.
  ghost predicate OwnerOk(s: State, m: nat)
    requires m < |s.status| == |s.owner|
  {
    && (s.status[m] in {Checking, Passed, Failed} ==> s.owner[m] < |s.pcs|)
    && (s.status[m] == Checking ==> s.pcs[s.owner[m]].Check? && s.pcs[s.owner[m]].ticket == m)
    && (s.status[m] == Passed ==> s.pcs[s.owner[m]] == TakeHead(m))
    && (s.status[m] == Failed ==> s.pcs[s.owner[m]] == GiveUp(m))
  }

  ghost predicate PcOk(s: State, t: nat, pc: Pc)
    requires |s.status| == |s.owner|
  {
    match pc
    case Idle => true
    case LoadOvercommit(tail) => tail <= s.tail
    case LoadCount(tail, over) => tail <= s.tail && over <= s.overcommit
    case TakeTicket(over) => over <= s.overcommit
    case Check(over, m) => m < |s.status| && s.status[m] == Checking && s.owner[m] == t && over <= Lost(s.status[..m])
    case TakeHead(m) => m < |s.status| && s.status[m] == Passed && s.owner[m] == t
    case GiveUp(m) => m < |s.status| && s.status[m] == Failed && s.owner[m] == t
  }

  // The end of the block that tail is in, or at the end of which it stands.
  function BlockEnd(tail: nat): int {
    (tail + BLOCK_SIZE - 1) / BLOCK_SIZE * BLOCK_SIZE
  }

  ghost predicate Inv(s: State) {
    && BlockEnd(s.tail) - s.head < HALF
    && s.optimistic == |s.status| == |s.owner|
    && s.head == Count(s.status, {Took}) && s.overcommit == Count(s.status, {Gave})
    && (forall m :: 0 <= m < |s.status| ==> WinOk(s.status, s.tail, m))
    && (forall m :: 0 <= m < |s.status| ==> OwnerOk(s, m))
    && (forall t :: 0 <= t < |s.pcs| ==> PcOk(s, t, s.pcs[t]))
  }

  // ---------- preservation ----------

  // No more tickets win than there are elements: the highest winner has enough
  // losers below it.
  lemma {:induction false} WinnersBound(ts: seq<Status>, tail: nat, k: nat)
    requires k <= |ts| && forall m :: 0 <= m < |ts| ==> WinOk(ts, tail, m)
    ensures Won(ts[..k]) <= tail
    decreases k
  {
    if k > 0 {
      assert ts[..k][..k - 1] == ts[..k - 1];
      if ts[k - 1] in {Passed, Took} {
        assert WinOk(ts, tail, k - 1);
        CountSplit(ts[..k - 1]);
      } else {
        WinnersBound(ts, tail, k - 1);
      }
    }
  }

  lemma NotPast(s: State)
    requires Inv(s)
    ensures s.head + Count(s.status, {Passed}) <= s.tail
  {
    hide Count;
    assert s.status[..|s.status|] == s.status;
    WinnersBound(s.status, s.tail, |s.status|);
    CountSplit(s.status);
  }

  lemma EnqueueRoom(s: State)
    requires BlockEnd(s.tail) - s.head < HALF && s.head <= s.tail
    ensures BlockEnd(Enqueue(s).tail) - s.head < HALF
  {
    hide Less;
    BlockEnds(s.tail);
    if s.tail % BLOCK_SIZE == 0 {
      RoomTest(s.head, s.tail);
    }
  }

  lemma BlockEnds(tail: nat)
    ensures tail % BLOCK_SIZE == 0 ==> BlockEnd(tail) == tail && BlockEnd(tail + 1) == tail + BLOCK_SIZE
    ensures tail % BLOCK_SIZE != 0 ==> BlockEnd(tail + 1) == BlockEnd(tail)
    ensures tail <= BlockEnd(tail)
  {
  }

  // The producer's test is exact: it passes when another block keeps tailIndex
  // less than 2^63 ahead.
  lemma RoomTest(head: nat, tail: nat)
    requires head <= tail && tail - head < HALF
    ensures Less(head, tail + BLOCK_SIZE) <==> tail + BLOCK_SIZE - head < HALF
  {
  }

  lemma EnqueueKeeps(s: State)
    requires Inv(s)
    ensures Inv(Enqueue(s))
  {
    hide Count, Lost, Less;
    var s' := Enqueue(s);
    NotPast(s);
    EnqueueRoom(s);
    forall m | 0 <= m < |s.status|
      ensures WinOk(s'.status, s'.tail, m) && OwnerOk(s', m)
    {
      assert WinOk(s.status, s.tail, m) && OwnerOk(s, m);
    }
    forall t | 0 <= t < |s.pcs|
      ensures PcOk(s', t, s'.pcs[t])
    {
      assert PcOk(s, t, s.pcs[t]);
    }
  }

  // Steps that change no ticket.
  lemma MoveKeeps(s: State, t: nat)
    requires Inv(s) && t < |s.pcs| && (s.pcs[t].Idle? || s.pcs[t].LoadOvercommit? || s.pcs[t].LoadCount?)
    ensures Inv(Dequeue(s, t))
  {
    hide Count, Lost, WinOk, Less;
    var s' := Dequeue(s, t);
    assert PcOk(s, t, s.pcs[t]);
    forall m | 0 <= m < |s.status|
      ensures OwnerOk(s', m)
    {
      assert OwnerOk(s, m);
    }
    forall u | 0 <= u < |s.pcs|
      ensures PcOk(s', u, s'.pcs[u])
    {
      assert PcOk(s, u, s.pcs[u]);
    }
  }

  lemma TicketKeeps(s: State, t: nat)
    requires Inv(s) && t < |s.pcs| && s.pcs[t].TakeTicket?
    ensures Inv(Dequeue(s, t))
  {
    hide Count, Less;
    var s' := Dequeue(s, t);
    var n := |s.status|;
    assert PcOk(s, t, s.pcs[t]);
    CountAppend(s.status, Checking, {Took});
    CountAppend(s.status, Checking, {Gave});
    CountSubset(s.status, {Gave}, {Failed, Gave});
    assert s'.status[..n] == s.status;
    forall m | 0 <= m < |s'.status|
      ensures WinOk(s'.status, s'.tail, m) && OwnerOk(s', m)
    {
      if m < n {
        assert WinOk(s.status, s.tail, m) && OwnerOk(s, m);
        assert s'.status[..m] == s.status[..m];
      }
    }
    forall u | 0 <= u < |s.pcs|
      ensures PcOk(s', u, s'.pcs[u])
    {
      assert PcOk(s, u, s.pcs[u]);
      if s'.pcs[u].Check? && s'.pcs[u].ticket < n {
        assert s'.status[..s'.pcs[u].ticket] == s.status[..s'.pcs[u].ticket];
      }
    }
  }

  // A change of one ticket's status never lowers the losing tickets of a prefix.
  lemma PrefixLost(ts: seq<Status>, m: nat, x: Status, k: nat)
    requires m < |ts| && k <= |ts| && (ts[m] in {Failed, Gave} ==> x in {Failed, Gave})
    ensures Lost(ts[m := x][..k]) >= Lost(ts[..k])
    ensures k <= m ==> ts[m := x][..k] == ts[..k]
  {
    if k <= m {
      assert ts[m := x][..k] == ts[..k];
    } else {
      assert ts[m := x][..k] == ts[..k][m := x];
      CountUpdate(ts[..k], m, x, {Failed, Gave});
    }
  }

  // A change of ticket m, held by t, leaves the rest of the invariant.
  lemma MarkKeeps(s: State, t: nat, m: nat, x: Status, s': State)
    requires Inv(s) && t < |s.pcs| && m < |s.status| && s.owner[m] == t && s.status[m] !in {Took, Gave}
    requires s.status[m] in {Failed, Gave} ==> x in {Failed, Gave}
    requires s'.status == s.status[m := x] && s'.owner == s.owner && s'.optimistic == s.optimistic
    requires s'.tail == s.tail && s'.head >= s.head && s'.overcommit >= s.overcommit && |s'.pcs| == |s.pcs|
    requires forall u :: 0 <= u < |s.pcs| && u != t ==> s'.pcs[u] == s.pcs[u]
    requires x in {Passed, Took} ==> s.status[m] == Passed || m + 1 <= s.tail + Lost(s.status[..m])
    requires OwnerOk(s', m) && PcOk(s', t, s'.pcs[t])
    requires s'.head == Count(s'.status, {Took}) && s'.overcommit == Count(s'.status, {Gave})
    ensures Inv(s')
  {
    hide Count, Lost;
    assert OwnerOk(s, m) && WinOk(s.status, s.tail, m);
    forall k | 0 <= k < |s.status|
      ensures WinOk(s'.status, s'.tail, k) && OwnerOk(s', k)
    {
      assert WinOk(s.status, s.tail, k) && OwnerOk(s, k);
      PrefixLost(s.status, m, x, k);
    }
    forall u | 0 <= u < |s.pcs| && u != t
      ensures PcOk(s', u, s'.pcs[u])
    {
      assert PcOk(s, u, s.pcs[u]);
      if s.pcs[u].Check? {
        PrefixLost(s.status, m, x, s.pcs[u].ticket);
      }
    }
  }

  lemma CheckKeeps(s: State, t: nat)
    requires Inv(s) && Near(s) && t < |s.pcs| && s.pcs[t].Check?
    ensures Inv(Dequeue(s, t))
  {
    hide Count, Lost, Less;
    var s', m := Dequeue(s, t), s.pcs[t].ticket;
    assert PcOk(s, t, s.pcs[t]);
    var x := if Less(m - s.pcs[t].over, s.tail) then Passed else Failed;
    if x == Passed {
      LessIsBelow(m - s.pcs[t].over, s.tail);
    }
    CountUpdate(s.status, m, x, {Took});
    CountUpdate(s.status, m, x, {Gave});
    MarkKeeps(s, t, m, x, s');
  }

  lemma EndKeeps(s: State, t: nat)
    requires Inv(s) && t < |s.pcs| && (s.pcs[t].TakeHead? || s.pcs[t].GiveUp?)
    ensures Inv(Dequeue(s, t))
  {
    hide Count, Lost, Less;
    var s', m := Dequeue(s, t), s.pcs[t].ticket;
    assert PcOk(s, t, s.pcs[t]);
    var x := if s.pcs[t].TakeHead? then Took else Gave;
    CountUpdate(s.status, m, x, {Took});
    CountUpdate(s.status, m, x, {Gave});
    MarkKeeps(s, t, m, x, s');
  }

  // Which is so while at most 2^63 tickets have been taken.
  lemma NearWhileFew(s: State)
    requires Inv(s) && s.optimistic <= HALF
    ensures Near(s)
  {
    forall t | 0 <= t < |s.pcs| && s.pcs[t].Check?
      ensures s.pcs[t].ticket < s.optimistic
    {
      assert PcOk(s, t, s.pcs[t]);
    }
  }

  lemma StepKeeps(s: State, a: Actor, s': State)
    requires Inv(s) && Step(s, a, s')
    ensures Inv(s')
  {
    hide Inv, Dequeue, Near;
    match a {
      case Producer => EnqueueKeeps(s);
      case Consumer(t) =>
        match s.pcs[t] {
          case TakeTicket(_) => TicketKeeps(s, t);
          case Check(_, _) => CheckKeeps(s, t);
          case TakeHead(_) => EndKeeps(s, t);
          case GiveUp(_) => EndKeeps(s, t);
          case _ => MoveKeeps(s, t);
        }
    }
  }

  lemma {:induction false} RunInv(consumers: nat, run: seq<State>, who: seq<Actor>, i: nat)
    requires Run(consumers, run, who) && i < |run|
    ensures Inv(run[i])
    decreases i
  {
    hide Step;
    if i > 0 {
      RunInv(consumers, run, who, i - 1);
      assert Step(run[i - 1], who[i - 1], run[i - 1 + 1]);
      StepKeeps(run[i - 1], who[i - 1], run[i]);
    }
  }

  // ---------- the properties ----------

  // headIndex never passes tailIndex, and a consumer that is about to take an index
  // takes one that has been produced: however many consumers are past the check.
  lemma HeadBehindTail(consumers: nat, run: seq<State>, who: seq<Actor>, i: nat)
    requires Run(consumers, run, who) && i < |run|
    ensures run[i].head <= run[i].tail && run[i].tail - run[i].head < HALF
    ensures !Less(run[i].tail, run[i].head)
    ensures run[i].head + Count(run[i].status, {Passed}) <= run[i].tail
    ensures (exists t :: 0 <= t < |run[i].pcs| && run[i].pcs[t].TakeHead?) ==> run[i].head < run[i].tail
  {
    hide Count;
    RunInv(consumers, run, who, i);
    var s := run[i];
    NotPast(s);
    BlockEnds(s.tail);
    LessIsLess(s.tail, s.head);
    if t :| 0 <= t < |s.pcs| && s.pcs[t].TakeHead? {
      assert PcOk(s, t, s.pcs[t]);
      CountUpdate(s.status, s.pcs[t].ticket, Took, {Passed});
    }
  }

  // Step i is a successful dequeue of the element at index.
  ghost predicate Takes(run: seq<State>, who: seq<Actor>, i: nat, index: nat) {
    && i < |who| && i < |run| && who[i].Consumer? && who[i].t < |run[i].pcs|
    && run[i].pcs[who[i].t].TakeHead? && run[i].head == index
  }

  lemma {:induction false} HeadGrows(consumers: nat, run: seq<State>, who: seq<Actor>, i: nat, j: nat)
    requires Run(consumers, run, who) && i <= j < |run|
    ensures run[i].head <= run[j].head && run[i].tail <= run[j].tail
    decreases j
  {
    if i < j {
      HeadGrows(consumers, run, who, i, j - 1);
      assert Step(run[j - 1], who[j - 1], run[j - 1 + 1]);
    }
  }

  // No index is dequeued twice, and only indices already produced are.
  lemma EachIndexOnce(consumers: nat, run: seq<State>, who: seq<Actor>, i: nat, j: nat, index: nat)
    requires Run(consumers, run, who) && Takes(run, who, i, index)
    ensures index < run[i].tail
    ensures i < j ==> !Takes(run, who, j, index)
  {
    HeadBehindTail(consumers, run, who, i);
    if i < j && Takes(run, who, j, index) {
      assert Step(run[i], who[i], run[i + 1]);
      HeadGrows(consumers, run, who, i + 1, j);
      assert false;
    }
  }

  // Every index below the head was dequeued by some step.
  lemma {:induction false} EachIndexTaken(consumers: nat, run: seq<State>, who: seq<Actor>, j: nat, index: nat)
    requires Run(consumers, run, who) && j < |run| && index < run[j].head
    ensures exists i: nat :: i < j && Takes(run, who, i, index)
    decreases j
  {
    hide Less, Near;
    assert Step(run[j - 1], who[j - 1], run[j - 1 + 1]);
    if index < run[j - 1].head {
      EachIndexTaken(consumers, run, who, j - 1, index);
    } else {
      assert Takes(run, who, j - 1, index);
    }
  }

  // The producer publishes one more element, unless it stands at the end of a block and
  // another block would put tailIndex 2^63 or more ahead of headIndex.
  lemma EnqueuePublishes(consumers: nat, run: seq<State>, who: seq<Actor>, i: nat)
    requires Run(consumers, run, who) && i < |who| && who[i].Producer?
    ensures var s, s' := run[i], run[i + 1];
      && s'.head == s.head && s'.pcs == s.pcs && s'.optimistic == s.optimistic && s'.overcommit == s.overcommit
      && s'.tail == if s.tail % BLOCK_SIZE == 0 && s.tail + BLOCK_SIZE - s.head >= HALF then s.tail else s.tail + 1
  {
    hide Less;
    assert Step(run[i], who[i], run[i + 1]);
    HeadBehindTail(consumers, run, who, i);
    RoomTest(run[i].head, run[i].tail);
  }

  // With no dequeue in progress the counters account for every ticket.
  lemma QuiescentCounters(consumers: nat, run: seq<State>, who: seq<Actor>, i: nat)
    requires Run(consumers, run, who) && i < |run|
    requires forall t :: 0 <= t < |run[i].pcs| ==> run[i].pcs[t] == Idle
    ensures run[i].optimistic - run[i].overcommit == run[i].head
  {
    hide Count;
    RunInv(consumers, run, who, i);
    var s := run[i];
    forall m | 0 <= m < |s.status|
      ensures s.status[m] !in {Checking, Passed, Failed}
    {
      assert OwnerOk(s, m);
    }
    CountNone(s.status, {Checking});
    CountNone(s.status, {Passed});
    CountNone(s.status, {Failed});
    CountSplit(s.status);
  }

  function Solo(s: State, t: nat, steps: nat): State
    requires t < |s.pcs|
    ensures |Solo(s, t, steps).pcs| == |s.pcs|
  {
    if steps == 0 then s else Dequeue(Solo(s, t, steps - 1), t)
  }

  lemma NoSteps(s: State, t: nat)
    requires t < |s.pcs|
    ensures Solo(s, t, 0) == s
  {
  }

  lemma SoloNext(s: State, t: nat, steps: nat)
    requires t < |s.pcs|
    ensures Solo(s, t, steps + 1) == Dequeue(Solo(s, t, steps), t)
  {
  }

  // The first three operations of a dequeue that runs alone: two loads and the test.
  lemma SoloTest(s: State, t: nat)
    requires t < |s.pcs| && s.pcs[t] == Idle && s.optimistic - s.overcommit == s.head
    ensures var pc := if Less(s.head, s.tail) then TakeTicket(s.overcommit) else Idle;
      Solo(s, t, 3) == At(s, t, pc)
  {
    hide Less, Solo;
    NoSteps(s, t);
    SoloNext(s, t, 0);
    SoloNext(s, t, 1);
    SoloNext(s, t, 2);
    var s1 := Dequeue(s, t);
    assert Solo(s, t, 1) == s1;
    var s2 := Dequeue(s1, t);
    assert Solo(s, t, 2) == s2;
    assert Solo(s, t, 3) == Dequeue(s2, t);
  }

  lemma SoloTake(s: State, t: nat, over: nat)
    requires t < |s.pcs| && s.pcs[t] == TakeTicket(over) && Less(s.optimistic - over, s.tail) && |s.status| == s.optimistic
    ensures Solo(s, t, 3).head == s.head + 1 && Solo(s, t, 3).pcs == s.pcs[t := Idle]
  {
    hide Less, Solo;
    NoSteps(s, t);
    SoloNext(s, t, 0);
    SoloNext(s, t, 1);
    SoloNext(s, t, 2);
    var s1 := Dequeue(s, t);
    assert Solo(s, t, 1) == s1;
    var s2 := Dequeue(s1, t);
    assert Solo(s, t, 2) == s2;
    assert Solo(s, t, 3) == Dequeue(s2, t);
  }

  lemma {:induction false} SoloSplit(s: State, t: nat, m: nat, n: nat)
    requires t < |s.pcs|
    ensures Solo(s, t, m + n) == Solo(Solo(s, t, m), t, n)
  {
    hide Dequeue;
    if n > 0 {
      SoloSplit(s, t, m, n - 1);
      assert Solo(s, t, m + n) == Dequeue(Solo(s, t, m + n - 1), t);
    }
  }

  // A dequeue that runs alone from a quiet state succeeds exactly when the queue is
  // not empty, and leaves an empty one as it was.
  lemma SoloDequeue(consumers: nat, run: seq<State>, who: seq<Actor>, i: nat, t: nat)
    requires Run(consumers, run, who) && i < |run| && t < |run[i].pcs|
    requires forall u :: 0 <= u < |run[i].pcs| ==> run[i].pcs[u] == Idle
    ensures run[i].head == run[i].tail ==> Solo(run[i], t, 3) == run[i]
    ensures run[i].head < run[i].tail ==>
              Solo(run[i], t, 6).head == run[i].head + 1 && Solo(run[i], t, 6).pcs == run[i].pcs
  {
    hide Less, Solo, Count;
    var s := run[i];
    RunInv(consumers, run, who, i);
    QuiescentCounters(consumers, run, who, i);
    HeadBehindTail(consumers, run, who, i);
    LessIsLess(s.head, s.tail);
    SoloTest(s, t);
    assert At(s, t, Idle) == s;
    if s.head < s.tail {
      SoloTake(At(s, t, TakeTicket(s.overcommit)), t, s.overcommit);
      SoloSplit(s, t, 3, 3);
    }
  }

  // ---------- where the protocol ends ----------

  ghost predicate Reached(consumers: nat, s: State) {
    exists run, who :: Run(consumers, run, who) && run[|who|] == s
  }

  lemma ReachedMore(consumers: nat, s: State, a: Actor, s': State)
    requires Reached(consumers, s) && Step(s, a, s')
    ensures Reached(consumers, s')
  {
    hide Step;
    var run, who :| Run(consumers, run, who) && run[|who|] == s;
    var run', who' := run + [s'], who + [a];
    forall i | 0 <= i < |who'|
      ensures Step(run'[i], who'[i], run'[i + 1])
    {
      assert i < |who| ==> Step(run[i], who[i], run[i + 1]);
    }
    assert Run(consumers, run', who');
  }

  // One more operation of consumer t.
  lemma Operation(s: State, t: nat) returns (s': State)
    requires Reached(3, s) && t < |s.pcs| && Near(s)
    ensures s' == Dequeue(s, t) && Reached(3, s')
  {
    hide Near, Dequeue, Reached;
    s' := Dequeue(s, t);
    ReachedMore(3, s, Consumer(t), s');
  }

  // n elements have come and gone; consumers 1 and 2 have raced for each of them,
  // while consumer 0 has stood before its ticket.
  ghost predicate Raced(s: State, n: nat, enqueued: nat) {
    && s.tail == n + enqueued && s.head == n && s.optimistic == 2 * n && s.overcommit == n
    && s.pcs == [TakeTicket(0), Idle, Idle]
  }

  // The first three operations of both racing consumers.
  lemma BothTest(s: State, n: nat) returns (s': State)
    requires Reached(3, s) && Raced(s, n, 1)
    ensures Reached(3, s') && s' == s.(pcs := [TakeTicket(0), TakeTicket(n), TakeTicket(n)])
  {
    hide Less, Reached;
    LessIsLess(2 * n - n, n + 1);
    s' := Operation(s, 1);
    assert s'.pcs == [TakeTicket(0), LoadOvercommit(n + 1), Idle];
    s' := Operation(s', 1);
    assert s'.pcs == [TakeTicket(0), LoadCount(n + 1, n), Idle];
    s' := Operation(s', 1);
    assert s'.pcs == [TakeTicket(0), TakeTicket(n), Idle];
    s' := Operation(s', 2);
    assert s'.pcs == [TakeTicket(0), TakeTicket(n), LoadOvercommit(n + 1)];
    s' := Operation(s', 2);
    assert s'.pcs == [TakeTicket(0), TakeTicket(n), LoadCount(n + 1, n)];
    s' := Operation(s', 2);
  }

  // One of them gets the element, the other gives its ticket back.
  lemma Race(s: State, n: nat) returns (s': State)
    requires Reached(3, s) && Raced(s, n, 1)
    ensures Reached(3, s') && Raced(s', n + 1, 0)
  {
    hide Less, Reached;
    LessIsLess(2 * n - n, n + 1);
    LessIsLess(2 * n + 1 - n, n + 1);
    s' := BothTest(s, n);
    s' := Operation(s', 1);
    assert s'.pcs == [TakeTicket(0), Check(n, 2 * n), TakeTicket(n)];
    s' := Operation(s', 2);
    assert s'.pcs == [TakeTicket(0), Check(n, 2 * n), Check(n, 2 * n + 1)];
    s' := Operation(s', 1);
    assert s'.pcs == [TakeTicket(0), TakeHead(2 * n), Check(n, 2 * n + 1)];
    s' := Operation(s', 2);
    assert s'.pcs == [TakeTicket(0), TakeHead(2 * n), GiveUp(2 * n + 1)];
    s' := Operation(s', 1);
    assert s'.pcs == [TakeTicket(0), Idle, GiveUp(2 * n + 1)];
    s' := Operation(s', 2);
  }

  lemma FirstElement() returns (s: State)
    ensures Reached(3, s) && Raced(s, 0, 1)
  {
    hide Less;
    LessIsLess(0, BLOCK_SIZE);
    LessIsLess(0, 1);
    s := Init(3);
    assert Run(3, [s], []);
    ReachedMore(3, s, Producer, Enqueue(s));
    s := Operation(Enqueue(s), 0);
    assert s.pcs == [LoadOvercommit(1), Idle, Idle];
    s := Operation(s, 0);
    assert s.pcs == [LoadCount(1, 0), Idle, Idle];
    s := Operation(s, 0);
  }

  lemma NextElement(s: State, n: nat) returns (s': State)
    requires Reached(3, s) && Raced(s, n, 0)
    ensures Reached(3, s') && Raced(s', n, 1)
  {
    hide Less, Reached;
    LessIsLess(n, n + BLOCK_SIZE);
    s' := Enqueue(s);
    ReachedMore(3, s, Producer, s');
  }

  lemma {:induction false} RacedIsReached(n: nat) returns (s: State)
    requires n > 0
    ensures Reached(3, s) && Raced(s, n, 0)
  {
    hide Reached;
    if n == 1 {
      s := FirstElement();
    } else {
      s := RacedIsReached(n - 1);
      s := NextElement(s, n - 1);
    }
    s := Race(s, n - 1);
  }

  // The bound of Near is the largest that does: consumer 0 stalls before its ticket
  // while 2^63 + 1 tickets are given back, finds the value it checks one beyond the
  // bound, passes, and headIndex passes tailIndex.
  lemma BeyondTheBound() returns (s: State)
    ensures Reached(3, s) && |s.pcs| == 3 && s.head == s.tail
    ensures s.pcs[0].Check? && s.pcs[0].ticket - s.pcs[0].over - s.tail == HALF + 1
    ensures var s' := Dequeue(Dequeue(s, 0), 0); s'.head > s'.tail
  {
    hide Less, Reached;
    var n: nat := HALF + 1;
    s := RacedIsReached(n);
    s := Operation(s, 0);
    FarAboveIsLess(n, n);
  }
}
