/**
 concurrentqueue.h, struct FreeList: a lock-free stack of nodes whose 32-bit
 freeListRefs word holds a reference count and, in its top bit, the wish to be on
 the list.  Every atomic operation of add, try_get and
 add_knowing_refcount_is_zero is one step, and any number of threads interleave
 their steps.  add's comment "we know the bit is 0", the assertion of try_get and
 the absence of ABA are consequences of one invariant.
 */
module FreeList {
  type Node = nat

  const NULL: Node := 0
  const SHOULD_BE_ON_FREELIST: nat := 0x8000_0000
  const WORD: nat := 0x1_0000_0000
  const MAX_THREADS: nat := 0x3FFF_FFFE

  function RefsMask(word: nat): nat {
    word % SHOULD_BE_ON_FREELIST
  }

  // What add_knowing_refcount_is_zero returns to: add, or the loop of try_get.
  datatype After = Return | Retry(head: Node)

  // The next atomic operation of a thread, with its local variables.
  datatype Pc =
    | Idle
    | AddFlag(node: Node)
    | AkLoad(node: Node, after: After)
    | AkNext(node: Node, head: Node, after: After)
    | AkRefs(node: Node, head: Node, after: After)
    | AkCas(node: Node, head: Node, after: After)
    | AkAgain(node: Node, head: Node, after: After)
    | GetLoad
    | GetRefs(node: Node)
    | GetCas(node: Node, refs: nat)
    | GetNext(node: Node)
    | GetTake(node: Node, next: Node)
    | GetUndo(node: Node, head: Node)
    | GetDrop(node: Node)

  // Where a node is.  This is history: no step reads it.
  datatype Place = Owned | Adding(t: nat) | Listed | Taken(t: nat) | Pending

  // list and place are history variables; the rest is the program's.
  datatype State = State(
    head: Node, refs: map<Node, nat>, next: map<Node, Node>, pcs: seq<Pc>,
    list: seq<Node>, place: map<Node, Place>)

  function Init(nodes: set<Node>, threads: nat): State {
    State(NULL, map n | n in nodes :: 0, map n | n in nodes :: NULL, seq(threads, _ => Idle),
          [], map n | n in nodes :: Owned)
  }

  // ---------- the steps ----------

  function Loop(head: Node): Pc {
    if head == NULL then Idle else GetRefs(head)
  }

  function Resume(after: After): Pc {
    match after
    case Return => Idle
    case Retry(head) => Loop(head)
  }

  function FetchAdd(word: nat, k: nat): nat {
    (word + k) % WORD
  }

  function FetchSub(word: nat, k: nat): nat
    requires k <= WORD
  {
    (word + (WORD - k)) % WORD
  }

  function At(s: State, t: nat, pc: Pc): State
    requires t < |s.pcs|
  {
    s.(pcs := s.pcs[t := pc])
  }

  // A client that owns a node gives it back, or asks for one.
  ghost predicate Call(s: State, t: nat, s': State) {
    && t < |s.pcs| && s.pcs[t] == Idle
    && (|| s' == At(s, t, GetLoad)
        || exists n :: n in s.place && s.place[n] == Owned && s' == StartAdd(s, t, n))
  }

  function StartAdd(s: State, t: nat, n: Node): State
    requires t < |s.pcs|
  {
    At(s, t, AddFlag(n)).(place := s.place[n := Adding(t)])
  }

  ghost predicate NodesKnown(s: State) {
    s.refs.Keys == s.next.Keys == s.place.Keys && NULL !in s.refs
  }

  ghost predicate Enabled(s: State, t: nat) {
    && NodesKnown(s)
    && t < |s.pcs| && s.pcs[t] != Idle
    && (s.pcs[t] != GetLoad ==> s.pcs[t].node in s.refs)
  }

  // add: announce that the node should be on the list.
  function SetFlag(s: State, t: nat, n: Node): State
    requires t < |s.pcs| && n in s.refs
  {
    if s.refs[n] == 0 then
      At(s, t, AkLoad(n, Return)).(refs := s.refs[n := FetchAdd(s.refs[n], SHOULD_BE_ON_FREELIST)])
    else
      At(s, t, Idle).(refs := s.refs[n := FetchAdd(s.refs[n], SHOULD_BE_ON_FREELIST)], place := s.place[n := Pending])
  }

  // add_knowing_refcount_is_zero: install the node, or withdraw.
  function Install(s: State, t: nat, n: Node, head: Node, after: After): State
    requires t < |s.pcs| && n in s.refs
  {
    if s.head == head then
      At(s, t, Resume(after)).(head := n, list := [n] + s.list, place := s.place[n := Listed])
    else At(s, t, AkAgain(n, s.head, after))
  }

  function Withdraw(s: State, t: nat, n: Node, head: Node, after: After): State
    requires t < |s.pcs| && n in s.refs
  {
    if s.refs[n] == 1 then
      At(s, t, AkNext(n, head, after)).(refs := s.refs[n := FetchAdd(s.refs[n], SHOULD_BE_ON_FREELIST - 1)])
    else
      At(s, t, Resume(after)).(refs := s.refs[n := FetchAdd(s.refs[n], SHOULD_BE_ON_FREELIST - 1)], place := s.place[n := Pending])
  }

  // try_get: count a reference to the head, unhook it, or give the reference up.
  function Acquire(s: State, t: nat, h: Node, refs: nat): State
    requires t < |s.pcs| && h in s.refs
  {
    if s.refs[h] == refs then At(s, t, GetNext(h)).(refs := s.refs[h := FetchAdd(refs, 1)])
    else At(s, t, GetLoad)
  }

  function Unhook(s: State, t: nat, h: Node, next: Node): State
    requires t < |s.pcs| && h in s.refs
  {
    if s.head == h then
      At(s, t, GetDrop(h)).(head := next, list := if s.list == [] then [] else s.list[1..], place := s.place[h := Taken(t)])
    else At(s, t, GetUndo(h, s.head))
  }

  function Release(s: State, t: nat, h: Node, head: Node): State
    requires t < |s.pcs| && h in s.refs
  {
    if s.refs[h] == SHOULD_BE_ON_FREELIST + 1 then
      At(s, t, AkLoad(h, Retry(head))).(refs := s.refs[h := FetchSub(s.refs[h], 1)], place := s.place[h := Adding(t)])
    else
      At(s, t, Loop(head)).(refs := s.refs[h := FetchSub(s.refs[h], 1)])
  }

  // The atomic operation at which thread t stands.
  function Atomic(s: State, t: nat): State
    requires Enabled(s, t)
  {
    match s.pcs[t]
    case AddFlag(n) => SetFlag(s, t, n)
    case AkLoad(n, after) => At(s, t, AkNext(n, s.head, after))
    case AkNext(n, head, after) => At(s, t, AkRefs(n, head, after)).(next := s.next[n := head])
    case AkRefs(n, head, after) => At(s, t, AkCas(n, head, after)).(refs := s.refs[n := 1])
    case AkCas(n, head, after) => Install(s, t, n, head, after)
    case AkAgain(n, head, after) => Withdraw(s, t, n, head, after)
    case GetLoad => At(s, t, Loop(s.head))
    case GetRefs(h) => At(s, t, if RefsMask(s.refs[h]) == 0 then GetLoad else GetCas(h, s.refs[h]))
    case GetCas(h, refs) => Acquire(s, t, h, refs)
    case GetNext(h) => At(s, t, GetTake(h, s.next[h]))
    case GetTake(h, next) => Unhook(s, t, h, next)
    case GetUndo(h, head) => Release(s, t, h, head)
    case GetDrop(h) => At(s, t, Idle).(refs := s.refs[h := FetchSub(s.refs[h], 2)], place := s.place[h := Owned])
  }

  ghost predicate Step(s: State, t: nat, s': State) {
    || Call(s, t, s')
    || (Enabled(s, t) && s' == Atomic(s, t))
  }

  ghost predicate Run(nodes: set<Node>, threads: nat, run: seq<State>, who: seq<nat>) {
    && |run| == |who| + 1 && run[0] == Init(nodes, threads)
    && forall i :: 0 <= i < |who| ==> Step(run[i], who[i], run[i + 1])
  }

  // ---------- the invariant ----------

  // The references to n that a thread at pc has counted in n's word; the one that
  // takes n off the list has the list's reference as well.
  function Weight(pc: Pc, n: Node): nat {
    if !HoldsRef(pc) || pc.node != n then 0
    else if pc.GetDrop? then 2
    else 1
  }

  predicate HoldsRef(pc: Pc) {
    pc.AkCas? || pc.AkAgain? || pc.GetNext? || pc.GetTake? || pc.GetUndo? || pc.GetDrop?
  }

  function Count(pcs: seq<Pc>, n: Node): nat {
    if pcs == [] then 0 else Count(pcs[..|pcs| - 1], n) + Weight(pcs[|pcs| - 1], n)
  }

  ghost predicate IsAdder(pc: Pc, n: Node) {
    (pc.AddFlag? || pc.AkLoad? || pc.AkNext? || pc.AkRefs? || pc.AkCas? || pc.AkAgain?) && pc.node == n
  }

  // The adder has the node to itself: its word is exactly the flag.
  ghost predicate Resting(pc: Pc) {
    pc.AkLoad? || pc.AkNext? || pc.AkRefs?
  }

  ghost predicate Flagged(pcs: seq<Pc>, place: Place) {
    place == Pending || (place.Adding? && place.t < |pcs| && Resting(pcs[place.t]))
  }

  function Word(flagged: bool, count: nat): nat {
    (if flagged then SHOULD_BE_ON_FREELIST else 0) + count
  }

  ghost predicate NodeOk(pcs: seq<Pc>, n: Node, refs: nat, place: Place) {
    && refs == Word(Flagged(pcs, place), Count(pcs, n) + if place == Listed then 1 else 0)
    && (place == Pending ==> Count(pcs, n) > 0)
    && (place.Adding? ==> place.t < |pcs| && IsAdder(pcs[place.t], n) && (Resting(pcs[place.t]) ==> Count(pcs, n) == 0))
    && (place.Taken? ==> place.t < |pcs| && pcs[place.t] == GetDrop(n))
  }

  ghost predicate KnownNode(s: State, n: Node) {
    n == NULL || n in s.refs
  }

  ghost predicate AfterOk(s: State, after: After) {
    after.Retry? ==> KnownNode(s, after.head)
  }

  // Local variables of thread t against the shared words.
  ghost predicate PcOk(s: State, t: nat, pc: Pc)
    requires NodesKnown(s)
  {
    || pc.Idle? || pc.GetLoad?
    || (&& pc.node in s.refs
        && (IsAdder(pc, pc.node) ==> s.place[pc.node] == Adding(t))
        && (pc.AkLoad? || pc.AkNext? || pc.AkRefs? || pc.AkCas? || pc.AkAgain? ==> AfterOk(s, pc.after))
        && (pc.AkNext? || pc.AkRefs? || pc.AkCas? || pc.AkAgain? || pc.GetUndo? ==> KnownNode(s, pc.head))
        && (pc.AkRefs? || pc.AkCas? ==> s.next[pc.node] == pc.head)
        && (pc.GetCas? ==> RefsMask(pc.refs) != 0)
        && (pc.GetTake? ==> s.next[pc.node] == pc.next)
        && (pc.GetDrop? ==> s.place[pc.node] == Taken(t)))
  }

  function ListAt(list: seq<Node>, i: nat): Node {
    if i < |list| then list[i] else NULL
  }

  // The nodes reached from the head along freeListNext are list, without repetition.
  ghost predicate IsChain(head: Node, next: map<Node, Node>, list: seq<Node>) {
    && head == ListAt(list, 0)
    && (forall i :: 0 <= i < |list| ==> list[i] in next && next[list[i]] == ListAt(list, i + 1))
    && (forall i, j :: 0 <= i < j < |list| ==> list[i] != list[j])
  }

  ghost predicate ListOk(s: State)
    requires NodesKnown(s)
  {
    && IsChain(s.head, s.next, s.list)
    && (forall n :: n in s.place ==> (s.place[n] == Listed <==> n in s.list))
    && (forall n :: n in s.next ==> KnownNode(s, s.next[n]))
  }

  ghost predicate Inv(s: State) {
    && NodesKnown(s) && |s.pcs| <= MAX_THREADS
    && ListOk(s)
    && (forall n :: n in s.refs ==> NodeOk(s.pcs, n, s.refs[n], s.place[n]))
    && (forall t :: 0 <= t < |s.pcs| ==> PcOk(s, t, s.pcs[t]))
  }

  // ---------- words and counts ----------

  lemma WordSteps(flagged: bool, c: nat, k: nat)
    requires c + 1 < SHOULD_BE_ON_FREELIST
    ensures RefsMask(Word(flagged, c)) == c
    ensures FetchAdd(Word(flagged, c), 1) == Word(flagged, c + 1)
    ensures k <= c ==> FetchSub(Word(flagged, c), k) == Word(flagged, c - k)
    ensures FetchAdd(Word(false, c), SHOULD_BE_ON_FREELIST) == Word(true, c)
    ensures c >= 1 ==> FetchAdd(Word(false, c), SHOULD_BE_ON_FREELIST - 1) == Word(true, c - 1)
  {
  }

  lemma {:induction false} CountUpdate(pcs: seq<Pc>, t: nat, pc: Pc, n: Node)
    requires t < |pcs|
    ensures Count(pcs[t := pc], n) == Count(pcs, n) - Weight(pcs[t], n) + Weight(pc, n)
    ensures Weight(pcs[t], n) <= Count(pcs, n)
  {
    var k := |pcs| - 1;
    if t == k {
      assert pcs[t := pc][..k] == pcs[..k];
    } else {
      assert pcs[t := pc][..k] == pcs[..k][t := pc];
      CountUpdate(pcs[..k], t, pc, n);
    }
  }

  lemma {:induction false} CountBound(pcs: seq<Pc>, n: Node)
    ensures Count(pcs, n) <= 2 * |pcs|
  {
    if pcs != [] {
      CountBound(pcs[..|pcs| - 1], n);
    }
  }

  lemma {:induction false} CountIdle(pcs: seq<Pc>, n: Node)
    requires forall t :: 0 <= t < |pcs| ==> pcs[t] == Idle
    ensures Count(pcs, n) == 0
  {
    if pcs != [] {
      CountIdle(pcs[..|pcs| - 1], n);
    }
  }

  // ---------- preservation ----------

  // A step of thread t that concerns node n alone.
  ghost predicate Local(s: State, t: nat, n: Node, s': State) {
    && NodesKnown(s) && NodesKnown(s') && s'.refs.Keys == s.refs.Keys
    && t < |s.pcs| && |s'.pcs| == |s.pcs| && (forall u :: 0 <= u < |s.pcs| && u != t ==> s'.pcs[u] == s.pcs[u])
    && (forall m :: m in s.refs && m != n ==> s'.refs[m] == s.refs[m] && s'.next[m] == s.next[m] && s'.place[m] == s.place[m])
    && (s.pcs[t].Idle? || s.pcs[t].GetLoad? || s.pcs[t].node == n)
    && (s'.pcs[t].Idle? || s'.pcs[t].GetLoad? || s'.pcs[t].node == n || s'.pcs[t].GetRefs?)
  }

  lemma OtherNode(s: State, t: nat, n: Node, s': State, m: Node)
    requires Local(s, t, n, s') && m in s.refs && m != n && NodeOk(s.pcs, m, s.refs[m], s.place[m])
    ensures NodeOk(s'.pcs, m, s'.refs[m], s'.place[m])
  {
    hide Count;
    assert s'.pcs == s.pcs[t := s'.pcs[t]];
    CountUpdate(s.pcs, t, s'.pcs[t], m);
  }

  // Another thread u notices neither a change of n's place nor a write to n's next:
  // it does not own n's place, and holds no reference to n if next changes.
  lemma OtherThread(s: State, t: nat, n: Node, s': State, u: nat)
    requires Local(s, t, n, s') && u < |s.pcs| && u != t && PcOk(s, u, s.pcs[u])
    requires n in s.refs && s'.place[n] != s.place[n] ==> s.place[n] != Adding(u) && s.place[n] != Taken(u)
    requires n in s.refs && s'.next[n] != s.next[n] ==> s.place[n] != Adding(u) && Count(s.pcs, n) == 0
    ensures PcOk(s', u, s'.pcs[u])
  {
    hide Count;
    CountUpdate(s.pcs, u, s.pcs[u], n);
  }

  // What remains for a step of thread t at node n.
  lemma LocalKeeps(s: State, t: nat, n: Node, s': State)
    requires Inv(s) && Local(s, t, n, s') && ListOk(s')
    requires n in s.refs ==> NodeOk(s'.pcs, n, s'.refs[n], s'.place[n])
    requires n in s.refs && s'.place[n] != s.place[n] ==> s.place[n] !in {Adding(t), Taken(t)} ==> !s.place[n].Adding? && !s.place[n].Taken?
    requires n in s.refs && s'.next[n] != s.next[n] ==> s.place[n] == Adding(t) && Count(s.pcs, n) == 0
    requires PcOk(s', t, s'.pcs[t])
    ensures Inv(s')
  {
    hide ListOk, NodeOk, PcOk, Count;
    forall m | m in s.refs && m != n
      ensures NodeOk(s'.pcs, m, s'.refs[m], s'.place[m])
    {
      OtherNode(s, t, n, s', m);
    }
    forall u | 0 <= u < |s.pcs| && u != t
      ensures PcOk(s', u, s'.pcs[u])
    {
      OtherThread(s, t, n, s', u);
    }
  }

  lemma ListSame(s: State, s': State)
    requires NodesKnown(s) && NodesKnown(s') && ListOk(s) && s'.refs.Keys == s.refs.Keys
    requires s'.head == s.head && s'.list == s.list && s'.next == s.next
    requires forall n :: n in s.place ==> (s'.place[n] == Listed <==> s.place[n] == Listed)
    ensures ListOk(s')
  {
  }

  lemma ListPushed(s: State, n: Node, s': State)
    requires NodesKnown(s) && NodesKnown(s') && ListOk(s) && s'.refs.Keys == s.refs.Keys && s'.next == s.next
    requires n in s.refs && s.place[n] != Listed && s.next[n] == s.head
    requires s'.head == n && s'.list == [n] + s.list && s'.place == s.place[n := Listed]
    ensures ListOk(s')
  {
    assert n !in s.list;
    forall i | 0 <= i < |s'.list|
      ensures s'.list[i] in s'.next && s'.next[s'.list[i]] == ListAt(s'.list, i + 1)
    {
      if i > 0 {
        assert s'.list[i] == s.list[i - 1];
      }
    }
  }

  lemma ChainTail(head: Node, next: map<Node, Node>, list: seq<Node>)
    requires IsChain(head, next, list) && head in next && head != NULL
    ensures list != [] && list == [head] + list[1..] && IsChain(next[head], next, list[1..]) && head !in list[1..]
  {
  }

  lemma ListPopped(s: State, h: Node, s': State, t: nat)
    requires NodesKnown(s) && NodesKnown(s') && ListOk(s) && s'.refs.Keys == s.refs.Keys && s'.next == s.next
    requires h in s.refs && s.head == h
    requires s'.head == s.next[h] && s'.list == (if s.list == [] then [] else s.list[1..]) && s'.place == s.place[h := Taken(t)]
    ensures ListOk(s') && s.place[h] == Listed
  {
    hide IsChain;
    ChainTail(s.head, s.next, s.list);
    forall n
      ensures n in s.list <==> n == h || n in s'.list
    {
    }
  }

  lemma ListRelinked(s: State, n: Node, s': State)
    requires NodesKnown(s) && NodesKnown(s') && ListOk(s) && s'.refs.Keys == s.refs.Keys
    requires s'.head == s.head && s'.list == s.list && s'.place == s.place
    requires n in s.refs && s.place[n] != Listed && s'.next.Keys == s.next.Keys
    requires forall m :: m in s.next && m != n ==> s'.next[m] == s.next[m]
    requires KnownNode(s, s'.next[n])
    ensures ListOk(s')
  {
    forall i | 0 <= i < |s.list|
      ensures s'.next[s.list[i]] == s.next[s.list[i]]
    {
      assert s.list[i] in s.list;
    }
  }

  // The facts a step of t at node n starts from.
  lemma StepFacts(s: State, t: nat)
    requires Inv(s) && Enabled(s, t)
    ensures PcOk(s, t, s.pcs[t])
    ensures !s.pcs[t].GetLoad? ==>
              var n := s.pcs[t].node;
              && NodeOk(s.pcs, n, s.refs[n], s.place[n])
              && Count(s.pcs, n) + 1 < SHOULD_BE_ON_FREELIST && Weight(s.pcs[t], n) <= Count(s.pcs, n)
    ensures ListOk(s) && NodesKnown(s) && KnownNode(s, s.head)
  {
    hide NodeOk, PcOk, Count;
    if !s.pcs[t].GetLoad? {
      CountUpdate(s.pcs, t, s.pcs[t], s.pcs[t].node);
      CountBound(s.pcs, s.pcs[t].node);
    }
  }

  // How the atomic operations change the word of the node of thread t.
  lemma NodeWord(s: State, t: nat)
    requires Inv(s) && Enabled(s, t) && !s.pcs[t].GetLoad?
    ensures var n := s.pcs[t].node;
      var flagged, c := Flagged(s.pcs, s.place[n]), Count(s.pcs, n) + if s.place[n] == Listed then 1 else 0;
      && s.refs[n] == Word(flagged, c) && RefsMask(s.refs[n]) == c
      && FetchAdd(s.refs[n], 1) == Word(flagged, c + 1)
      && (c >= 1 ==> FetchSub(s.refs[n], 1) == Word(flagged, c - 1))
      && (c >= 2 ==> FetchSub(s.refs[n], 2) == Word(flagged, c - 2))
      && (!flagged ==> FetchAdd(s.refs[n], SHOULD_BE_ON_FREELIST) == Word(true, c))
      && (!flagged && c >= 1 ==> FetchAdd(s.refs[n], SHOULD_BE_ON_FREELIST - 1) == Word(true, c - 1))
  {
    hide Count, ListOk, PcOk, Word, FetchAdd, FetchSub, RefsMask, Flagged;
    var n := s.pcs[t].node;
    assert NodeOk(s.pcs, n, s.refs[n], s.place[n]);
    var c := Count(s.pcs, n) + if s.place[n] == Listed then 1 else 0;
    CountBound(s.pcs, n);
    WordSteps(Flagged(s.pcs, s.place[n]), c, 1);
    WordSteps(Flagged(s.pcs, s.place[n]), c, 2);
  }

  // A thread that has no claim on n's place changes its references to n.
  lemma NodeRecount(s: State, t: nat, n: Node, pc: Pc, refs: nat)
    requires t < |s.pcs| && n in s.refs && n in s.place && NodeOk(s.pcs, n, s.refs[n], s.place[n])
    requires s.place[n] != Adding(t) && s.place[n] != Taken(t)
    requires var c := Count(s.pcs, n) - Weight(s.pcs[t], n) + Weight(pc, n);
      && c >= 0 && refs == Word(Flagged(s.pcs, s.place[n]), c + if s.place[n] == Listed then 1 else 0)
      && (Flagged(s.pcs, s.place[n]) ==> if s.place[n] == Pending then c > 0 else c == 0)
    ensures NodeOk(s.pcs[t := pc], n, refs, s.place[n])
  {
    hide Count, Weight, Word;
    CountUpdate(s.pcs, t, pc, n);
  }

  lemma SetFlagAlone(s: State, t: nat)
    requires Inv(s) && Enabled(s, t) && s.pcs[t].AddFlag? && s.refs[s.pcs[t].node] == 0
    ensures Inv(SetFlag(s, t, s.pcs[t].node))
  {
    hide Count, Inv, ListOk, FetchAdd, FetchSub, RefsMask;
    var n := s.pcs[t].node;
    var s' := SetFlag(s, t, n);
    StepFacts(s, t);
    NodeWord(s, t);
    CountUpdate(s.pcs, t, s'.pcs[t], n);
    ListSame(s, s');
    LocalKeeps(s, t, n, s');
  }

  lemma SetFlagShared(s: State, t: nat)
    requires Inv(s) && Enabled(s, t) && s.pcs[t].AddFlag? && s.refs[s.pcs[t].node] != 0
    ensures Inv(SetFlag(s, t, s.pcs[t].node))
  {
    hide Count, Inv, ListOk, FetchAdd, FetchSub, RefsMask;
    var n := s.pcs[t].node;
    var s' := SetFlag(s, t, n);
    StepFacts(s, t);
    NodeWord(s, t);
    CountUpdate(s.pcs, t, s'.pcs[t], n);
    ListSame(s, s');
    LocalKeeps(s, t, n, s');
  }

  lemma SetFlagKeeps(s: State, t: nat)
    requires Inv(s) && Enabled(s, t) && s.pcs[t].AddFlag?
    ensures Inv(SetFlag(s, t, s.pcs[t].node))
  {
    hide Inv, SetFlag;
    if s.refs[s.pcs[t].node] == 0 {
      SetFlagAlone(s, t);
    } else {
      SetFlagShared(s, t);
    }
  }

  lemma WriteNextKeeps(s: State, t: nat)
    requires Inv(s) && Enabled(s, t) && s.pcs[t].AkNext?
    ensures Inv(Atomic(s, t))
  {
    hide Count, Inv, ListOk, FetchAdd, FetchSub, RefsMask;
    var n := s.pcs[t].node;
    var s' := Atomic(s, t);
    StepFacts(s, t);
    NodeWord(s, t);
    CountUpdate(s.pcs, t, s'.pcs[t], n);
    ListRelinked(s, n, s');
    LocalKeeps(s, t, n, s');
  }

  lemma WriteRefsKeeps(s: State, t: nat)
    requires Inv(s) && Enabled(s, t) && s.pcs[t].AkRefs?
    ensures Inv(Atomic(s, t))
  {
    hide Count, Inv, ListOk, FetchAdd, FetchSub, RefsMask;
    var n := s.pcs[t].node;
    var s' := Atomic(s, t);
    StepFacts(s, t);
    NodeWord(s, t);
    CountUpdate(s.pcs, t, s'.pcs[t], n);
    ListSame(s, s');
    LocalKeeps(s, t, n, s');
  }

  lemma InstallKeeps(s: State, t: nat)
    requires Inv(s) && Enabled(s, t) && s.pcs[t].AkCas?
    ensures Inv(Atomic(s, t))
  {
    hide Count, Inv, ListOk, FetchAdd, FetchSub, RefsMask;
    var n := s.pcs[t].node;
    var s' := Install(s, t, n, s.pcs[t].head, s.pcs[t].after);
    StepFacts(s, t);
    NodeWord(s, t);
    CountUpdate(s.pcs, t, s'.pcs[t], n);
    if s.head == s.pcs[t].head {
      ListPushed(s, n, s');
    } else {
      ListSame(s, s');
    }
    LocalKeeps(s, t, n, s');
  }

  lemma WithdrawKeeps(s: State, t: nat)
    requires Inv(s) && Enabled(s, t) && s.pcs[t].AkAgain?
    ensures Inv(Withdraw(s, t, s.pcs[t].node, s.pcs[t].head, s.pcs[t].after))
  {
    hide Count, Inv, ListOk, FetchAdd, FetchSub, RefsMask;
    var n := s.pcs[t].node;
    var s' := Withdraw(s, t, n, s.pcs[t].head, s.pcs[t].after);
    StepFacts(s, t);
    NodeWord(s, t);
    CountUpdate(s.pcs, t, s'.pcs[t], n);
    ListSame(s, s');
    LocalKeeps(s, t, n, s');
  }

  lemma AcquireKeeps(s: State, t: nat)
    requires Inv(s) && Enabled(s, t) && s.pcs[t].GetCas?
    ensures Inv(Acquire(s, t, s.pcs[t].node, s.pcs[t].refs))
  {
    hide Count, Inv, ListOk, NodeOk, FetchAdd, FetchSub, RefsMask;
    var n := s.pcs[t].node;
    var s' := Acquire(s, t, n, s.pcs[t].refs);
    StepFacts(s, t);
    NodeWord(s, t);
    PlaceIsNotMine(s, t);
    NodeRecount(s, t, n, s'.pcs[t], s'.refs[n]);
    ListSame(s, s');
    LocalKeeps(s, t, n, s');
  }

  // A thread in try_get that has not unhooked its node has no claim on its place.
  lemma PlaceIsNotMine(s: State, t: nat)
    requires Inv(s) && Enabled(s, t)
    requires s.pcs[t].GetRefs? || s.pcs[t].GetCas? || s.pcs[t].GetNext? || s.pcs[t].GetTake? || s.pcs[t].GetUndo?
    ensures var place := s.place[s.pcs[t].node];
      && place != Adding(t) && place != Taken(t)
      && (Flagged(s.pcs, place) ==> if place == Pending then Count(s.pcs, s.pcs[t].node) > 0 else Count(s.pcs, s.pcs[t].node) == 0)
  {
    hide Count, ListOk, PcOk;
    var n := s.pcs[t].node;
    assert NodeOk(s.pcs, n, s.refs[n], s.place[n]);
  }

  lemma UnhookKeeps(s: State, t: nat)
    requires Inv(s) && Enabled(s, t) && s.pcs[t].GetTake?
    ensures Inv(Unhook(s, t, s.pcs[t].node, s.pcs[t].next))
  {
    hide Count, Inv, ListOk, FetchAdd, FetchSub, RefsMask;
    var n := s.pcs[t].node;
    var s' := Unhook(s, t, n, s.pcs[t].next);
    StepFacts(s, t);
    NodeWord(s, t);
    CountUpdate(s.pcs, t, s'.pcs[t], n);
    if s.head == n {
      ListPopped(s, n, s', t);
    } else {
      ListSame(s, s');
    }
    LocalKeeps(s, t, n, s');
  }

  lemma ReleaseKeeps(s: State, t: nat)
    requires Inv(s) && Enabled(s, t) && s.pcs[t].GetUndo?
    ensures Inv(Release(s, t, s.pcs[t].node, s.pcs[t].head))
  {
    hide Inv, Release;
    if s.refs[s.pcs[t].node] == SHOULD_BE_ON_FREELIST + 1 {
      ReleaseLast(s, t);
    } else {
      ReleaseOne(s, t);
    }
  }

  // The last reference to a pending node: its holder adds it.
  lemma ReleaseLast(s: State, t: nat)
    requires Inv(s) && Enabled(s, t) && s.pcs[t].GetUndo? && s.refs[s.pcs[t].node] == SHOULD_BE_ON_FREELIST + 1
    ensures Inv(Release(s, t, s.pcs[t].node, s.pcs[t].head))
  {
    hide Count, Inv, ListOk, FetchAdd, FetchSub, RefsMask;
    var n := s.pcs[t].node;
    var s' := Release(s, t, n, s.pcs[t].head);
    StepFacts(s, t);
    NodeWord(s, t);
    CountUpdate(s.pcs, t, s'.pcs[t], n);
    ListSame(s, s');
    LocalKeeps(s, t, n, s');
  }

  lemma ReleaseOne(s: State, t: nat)
    requires Inv(s) && Enabled(s, t) && s.pcs[t].GetUndo? && s.refs[s.pcs[t].node] != SHOULD_BE_ON_FREELIST + 1
    ensures Inv(Release(s, t, s.pcs[t].node, s.pcs[t].head))
  {
    hide Count, Inv, ListOk, NodeOk, FetchAdd, FetchSub, RefsMask;
    var n := s.pcs[t].node;
    var s' := Release(s, t, n, s.pcs[t].head);
    StepFacts(s, t);
    NodeWord(s, t);
    PlaceIsNotMine(s, t);
    NodeRecount(s, t, n, s'.pcs[t], s'.refs[n]);
    ListSame(s, s');
    LocalKeeps(s, t, n, s');
  }

  lemma DropKeeps(s: State, t: nat)
    requires Inv(s) && Enabled(s, t) && s.pcs[t].GetDrop?
    ensures Inv(Atomic(s, t))
  {
    hide Count, Inv, ListOk, FetchAdd, FetchSub, RefsMask;
    var n := s.pcs[t].node;
    var s' := Atomic(s, t);
    StepFacts(s, t);
    NodeWord(s, t);
    CountUpdate(s.pcs, t, s'.pcs[t], n);
    ListSame(s, s');
    LocalKeeps(s, t, n, s');
  }

  // The steps that only move a thread.
  lemma MoveKeeps(s: State, t: nat)
    requires Inv(s) && Enabled(s, t)
    requires var pc := s.pcs[t]; pc.AkLoad? || pc.GetLoad? || pc.GetRefs? || pc.GetNext?
    ensures Inv(Atomic(s, t))
  {
    hide Count, Inv, ListOk, FetchAdd, FetchSub, RefsMask;
    var n := if s.pcs[t].GetLoad? then NULL else s.pcs[t].node;
    var s' := Atomic(s, t);
    StepFacts(s, t);
    CountUpdate(s.pcs, t, s'.pcs[t], n);
    ListSame(s, s');
    LocalKeeps(s, t, n, s');
  }

  lemma AtomicKeeps(s: State, t: nat)
    requires Inv(s) && Enabled(s, t)
    ensures Inv(Atomic(s, t))
  {
    hide Inv, SetFlag, Install, Withdraw, Acquire, Unhook, Release;
    match s.pcs[t] {
      case AddFlag(_) => SetFlagKeeps(s, t);
      case AkNext(_, _, _) => WriteNextKeeps(s, t);
      case AkRefs(_, _, _) => WriteRefsKeeps(s, t);
      case AkCas(_, _, _) => InstallKeeps(s, t);
      case AkAgain(_, _, _) => WithdrawKeeps(s, t);
      case GetCas(_, _) => AcquireKeeps(s, t);
      case GetTake(_, _) => UnhookKeeps(s, t);
      case GetUndo(_, _) => ReleaseKeeps(s, t);
      case GetDrop(_) => DropKeeps(s, t);
      case _ => MoveKeeps(s, t);
    }
  }

  lemma StartGetKeeps(s: State, t: nat)
    requires Inv(s) && t < |s.pcs| && s.pcs[t] == Idle
    ensures Inv(At(s, t, GetLoad))
  {
    hide Count, ListOk;
    ListSame(s, At(s, t, GetLoad));
    LocalKeeps(s, t, NULL, At(s, t, GetLoad));
  }

  lemma StartAddKeeps(s: State, t: nat, n: Node)
    requires Inv(s) && t < |s.pcs| && s.pcs[t] == Idle && n in s.place && s.place[n] == Owned
    ensures Inv(StartAdd(s, t, n))
  {
    hide Count, Inv, ListOk;
    var s' := StartAdd(s, t, n);
    CountUpdate(s.pcs, t, s'.pcs[t], n);
    OwnedFacts(s, n);
    ListSame(s, s');
    LocalKeeps(s, t, n, s');
  }

  lemma OwnedFacts(s: State, n: Node)
    requires Inv(s) && n in s.place
    ensures NodesKnown(s) && ListOk(s) && NodeOk(s.pcs, n, s.refs[n], s.place[n])
  {
  }

  lemma CallKeeps(s: State, t: nat, s': State)
    requires Inv(s) && Call(s, t, s')
    ensures Inv(s')
  {
    hide Inv, At, StartAdd;
    if s' == At(s, t, GetLoad) {
      StartGetKeeps(s, t);
    } else {
      var n :| n in s.place && s.place[n] == Owned && s' == StartAdd(s, t, n);
      StartAddKeeps(s, t, n);
    }
  }

  lemma StepKeeps(s: State, t: nat, s': State)
    requires Inv(s) && Step(s, t, s')
    ensures Inv(s')
  {
    hide Inv, Call, Atomic;
    if Call(s, t, s') {
      CallKeeps(s, t, s');
    } else {
      AtomicKeeps(s, t);
    }
  }

  lemma InitInv(nodes: set<Node>, threads: nat)
    requires NULL !in nodes && threads <= MAX_THREADS
    ensures Inv(Init(nodes, threads))
  {
    hide Count;
    var s := Init(nodes, threads);
    forall n | n in nodes
      ensures NodeOk(s.pcs, n, s.refs[n], s.place[n])
    {
      CountIdle(s.pcs, n);
    }
  }

  lemma {:induction false} RunInv(nodes: set<Node>, threads: nat, run: seq<State>, who: seq<nat>, i: nat)
    requires NULL !in nodes && threads <= MAX_THREADS && Run(nodes, threads, run, who) && i < |run|
    ensures Inv(run[i])
    decreases i
  {
    hide Inv, Step;
    if i == 0 {
      InitInv(nodes, threads);
    } else {
      RunInv(nodes, threads, run, who, i - 1);
      assert Step(run[i - 1], who[i - 1], run[i - 1 + 1]);
      StepKeeps(run[i - 1], who[i - 1], run[i]);
    }
  }

  // ---------- the properties ----------

  // At every moment the nodes linked from the head form a list without repetition,
  // and whoever is about to unhook the head knows its current successor: a
  // successful compare-and-swap in try_get is never an ABA, and the node it takes
  // has its flag clear, as the assertion there says.
  lemma NoAba(nodes: set<Node>, threads: nat, run: seq<State>, who: seq<nat>, i: nat)
    requires NULL !in nodes && threads <= MAX_THREADS && Run(nodes, threads, run, who) && i < |run|
    ensures IsChain(run[i].head, run[i].next, run[i].list)
    ensures forall t :: 0 <= t < |run[i].pcs| && run[i].pcs[t].GetTake? && run[i].head == run[i].pcs[t].node ==>
              var s := run[i];
              && Enabled(s, t) && s.list != [] && s.head in s.next
              && s.next[s.head] == s.pcs[t].next == ListAt(s.list, 1)
              && s.refs[s.head] < SHOULD_BE_ON_FREELIST
              && Atomic(s, t).list == s.list[1..]
    ensures forall t :: 0 <= t < |run[i].pcs| && run[i].pcs[t].GetDrop? ==>
              run[i].pcs[t].node in run[i].refs && 2 <= run[i].refs[run[i].pcs[t].node] < SHOULD_BE_ON_FREELIST
  {
    hide Count;
    RunInv(nodes, threads, run, who, i);
    var s := run[i];
    forall t | 0 <= t < |s.pcs| && s.pcs[t].GetTake? && s.head == s.pcs[t].node
      ensures Enabled(s, t) && s.list != [] && s.head in s.next && s.next[s.head] == s.pcs[t].next == ListAt(s.list, 1)
      ensures s.refs[s.head] < SHOULD_BE_ON_FREELIST && Atomic(s, t).list == s.list[1..]
    {
      assert PcOk(s, t, s.pcs[t]);
      StepFacts(s, t);
      HeadIsListed(s);
    }
    forall t | 0 <= t < |s.pcs| && s.pcs[t].GetDrop?
      ensures s.pcs[t].node in s.refs && 2 <= s.refs[s.pcs[t].node] < SHOULD_BE_ON_FREELIST
    {
      assert PcOk(s, t, s.pcs[t]);
      StepFacts(s, t);
    }
  }

  // add may set the flag with an addition: it is clear.
  lemma FlagIsClear(nodes: set<Node>, threads: nat, run: seq<State>, who: seq<nat>, i: nat, t: nat)
    requires NULL !in nodes && threads <= MAX_THREADS && Run(nodes, threads, run, who) && i < |run|
    requires t < |run[i].pcs| && run[i].pcs[t].AddFlag?
    ensures run[i].pcs[t].node in run[i].refs && run[i].refs[run[i].pcs[t].node] < SHOULD_BE_ON_FREELIST
  {
    hide Count;
    RunInv(nodes, threads, run, who, i);
    var s := run[i];
    assert PcOk(s, t, s.pcs[t]);
    StepFacts(s, t);
  }

  // Step i of the run hands node n to its thread; step i gives node n back.
  ghost predicate HandsOut(run: seq<State>, who: seq<nat>, i: nat, n: Node) {
    i + 1 < |run| && i < |who| && who[i] < |run[i].pcs| && run[i].pcs[who[i]] == GetDrop(n)
  }

  ghost predicate GivesBack(run: seq<State>, who: seq<nat>, i: nat, n: Node) {
    i + 1 < |run| && i < |who| && who[i] < |run[i].pcs| && who[i] < |run[i + 1].pcs|
    && run[i].pcs[who[i]] == Idle && run[i + 1].pcs[who[i]] == AddFlag(n)
  }

  ghost predicate IsOwned(s: State, n: Node) {
    n in s.place && s.place[n] == Owned
  }

  lemma OwnedStaysAtomic(s: State, t: nat, n: Node)
    requires Inv(s) && Enabled(s, t) && IsOwned(s, n)
    ensures IsOwned(Atomic(s, t), n)
  {
    hide Inv, Count, ListOk, FetchAdd, FetchSub, RefsMask;
    StepFacts(s, t);
    if s.head != NULL {
      HeadIsListed(s);
    }
  }

  lemma HeadIsListed(s: State)
    requires Inv(s) && s.head != NULL
    ensures s.head in s.place && s.place[s.head] == Listed
  {
    assert s.head == s.list[0];
    assert s.head in s.list;
  }

  lemma OwnedStays(s: State, t: nat, s': State, n: Node)
    requires Inv(s) && Step(s, t, s') && IsOwned(s, n)
    ensures IsOwned(s', n) || (t < |s.pcs| && t < |s'.pcs| && s.pcs[t] == Idle && s'.pcs[t] == AddFlag(n))
  {
    hide Inv, Atomic, Count, ListOk, FetchAdd, FetchSub, RefsMask;
    if !Call(s, t, s') {
      OwnedStaysAtomic(s, t, n);
    } else if s' != At(s, t, GetLoad) {
      var m :| m in s.place && s.place[m] == Owned && s' == StartAdd(s, t, m);
      assert s'.pcs[t] == AddFlag(m);
    }
  }

  lemma {:induction false} OwnedUntilAdded(nodes: set<Node>, threads: nat, run: seq<State>, who: seq<nat>, i: nat, j: nat, n: Node)
    requires NULL !in nodes && threads <= MAX_THREADS && Run(nodes, threads, run, who)
    requires i <= j < |run| && IsOwned(run[i], n) && forall k :: i <= k < j ==> !GivesBack(run, who, k, n)
    ensures IsOwned(run[j], n)
    decreases j
  {
    hide Inv, Step, IsOwned;
    if i < j {
      var k := j - 1;
      OwnedUntilAdded(nodes, threads, run, who, i, k, n);
      RunInv(nodes, threads, run, who, k);
      assert Step(run[k], who[k], run[k + 1]);
      OwnedStays(run[k], who[k], run[j], n);
      assert !GivesBack(run, who, k, n);
    }
  }

  // A node is handed to one thread at a time: it is given back in between.
  lemma HandedOutOnce(nodes: set<Node>, threads: nat, run: seq<State>, who: seq<nat>, i: nat, j: nat, n: Node)
    requires NULL !in nodes && threads <= MAX_THREADS && Run(nodes, threads, run, who)
    requires i < j && HandsOut(run, who, i, n) && HandsOut(run, who, j, n)
    ensures exists k :: i < k < j && GivesBack(run, who, k, n)
  {
    hide Count, ListOk;
    RunInv(nodes, threads, run, who, i);
    RunInv(nodes, threads, run, who, j);
    assert Step(run[i], who[i], run[i + 1]);
    assert PcOk(run[i], who[i], run[i].pcs[who[i]]) && PcOk(run[j], who[j], run[j].pcs[who[j]]);
    if forall k :: i < k < j ==> !GivesBack(run, who, k, n) {
      OwnedUntilAdded(nodes, threads, run, who, i + 1, j, n);
    }
  }

  // Nothing is lost: when every thread is idle each node is either with a client,
  // its word zero, or on the list exactly once, its word one.
  lemma Conservation(nodes: set<Node>, threads: nat, run: seq<State>, who: seq<nat>, i: nat, n: Node)
    requires NULL !in nodes && threads <= MAX_THREADS && Run(nodes, threads, run, who) && i < |run|
    requires forall t :: 0 <= t < |run[i].pcs| ==> run[i].pcs[t] == Idle
    requires n in run[i].refs
    ensures IsChain(run[i].head, run[i].next, run[i].list)
    ensures n in run[i].list <==> !IsOwned(run[i], n)
    ensures run[i].refs[n] == if n in run[i].list then 1 else 0
  {
    hide Count;
    RunInv(nodes, threads, run, who, i);
    CountIdle(run[i].pcs, n);
    assert NodeOk(run[i].pcs, n, run[i].refs[n], run[i].place[n]);
  }
}
