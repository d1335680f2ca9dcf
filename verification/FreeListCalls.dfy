/**
 concurrentqueue.h, struct FreeList: what the calls of add and try_get achieve.  Alone,
 add puts its node in front of the list and try_get takes the first node off it; among
 others, try_get answers null only if the list was empty at some moment of the call.
 */
module FreeListCalls {
  import opened FreeList

  // ---------- a call that runs alone ----------

  // The next atomic operation of thread t, if it has one.
  ghost function Stepped(s: State, t: nat): State {
    if Enabled(s, t) then Atomic(s, t) else s
  }

  ghost function Solo(s: State, t: nat, steps: nat): State {
    if steps == 0 then s else Stepped(Solo(s, t, steps - 1), t)
  }

  ghost predicate AllIdle(s: State) {
    forall t :: 0 <= t < |s.pcs| ==> s.pcs[t] == Idle
  }

  lemma SoloNext(s: State, t: nat, steps: nat, now: State)
    requires Solo(s, t, steps) == now && Enabled(now, t)
    ensures Solo(s, t, steps + 1) == Atomic(now, t)
  {
  }

  // Words and places when nobody is at work.
  lemma RestingNode(s: State, n: Node)
    requires Inv(s) && AllIdle(s) && n in s.refs
    ensures NodesKnown(s) && s.refs[n] == (if n in s.list then 1 else 0) && s.place[n] == (if n in s.list then Listed else Owned)
  {
    hide Count;
    CountIdle(s.pcs, n);
    assert NodeOk(s.pcs, n, s.refs[n], s.place[n]);
  }

  lemma FirstOfList(s: State)
    requires Inv(s)
    ensures NodesKnown(s) && (s.head == NULL <==> s.list == [])
    ensures s.list != [] ==> s.head == s.list[0] && s.head in s.refs && s.next[s.head] == ListAt(s.list, 1) && s.head !in s.list[1..]
  {
    if s.list != [] {
      assert s.list[0] in s.next;
      assert forall j :: 0 < j < |s.list| ==> s.list[j] != s.list[0];
    }
  }

  lemma OneReference()
    ensures RefsMask(1) == 1 && FetchAdd(1, 1) == 2 && FetchSub(2, 2) == 0
    ensures FetchAdd(0, SHOULD_BE_ON_FREELIST) == SHOULD_BE_ON_FREELIST
  {
  }

  // try_get on an empty list answers null and leaves everything as it was.
  lemma TryGetEmpty(s: State, t: nat)
    requires Inv(s) && AllIdle(s) && t < |s.pcs| && s.list == []
    ensures Solo(At(s, t, GetLoad), t, 1) == s
  {
    FirstOfList(s);
    var s0 := At(s, t, GetLoad);
    assert Solo(s0, t, 0) == s0;
    SoloNext(s0, t, 0, s0);
    assert s.pcs[t := Idle] == s.pcs;
  }

  // The first half of try_get: it counts a reference to the first node.
  lemma TryGetCounts(s: State, t: nat)
    requires Inv(s) && AllIdle(s) && t < |s.pcs| && s.list != []
    ensures s.list[0] in s.refs
    ensures Solo(At(s, t, GetLoad), t, 3) == At(s, t, GetNext(s.list[0])).(refs := s.refs[s.list[0] := 2])
  {
    hide Inv, RefsMask, FetchAdd, FetchSub, Solo;
    FirstOfList(s);
    OneReference();
    var h := s.list[0];
    RestingNode(s, h);
    var s0 := At(s, t, GetLoad);
    NoSteps(s0, t);
    SoloNext(s0, t, 0, s0);
    var s1 := At(s, t, GetRefs(h));
    assert Atomic(s0, t) == s1;
    SoloNext(s0, t, 1, s1);
    var s2 := At(s, t, GetCas(h, 1));
    assert Atomic(s1, t) == s2;
    SoloNext(s0, t, 2, s2);
  }

  // The second half: it takes the node off the list and drops both references.
  lemma TryGetUnhooks(s: State, t: nat)
    requires NodesKnown(s) && t < |s.pcs| && s.list != [] && s.head == s.list[0] && s.head in s.refs && s.refs[s.head] == 2
    requires s.pcs[t] == GetNext(s.head)
    ensures var s' := Solo(s, t, 3);
      && s'.pcs == s.pcs[t := Idle] && s'.list == s.list[1..] && s'.place == s.place[s.head := Owned]
      && s'.head == s.next[s.head] && s'.refs == s.refs[s.head := 0] && s'.next == s.next
  {
    hide RefsMask, FetchAdd, FetchSub, Solo;
    OneReference();
    var h := s.head;
    NoSteps(s, t);
    SoloNext(s, t, 0, s);
    var s1 := At(s, t, GetTake(h, s.next[h]));
    assert Atomic(s, t) == s1;
    SoloNext(s, t, 1, s1);
    var s2 := At(s, t, GetDrop(h)).(head := s.next[h], list := s.list[1..], place := s.place[h := Taken(t)]);
    assert Atomic(s1, t) == s2;
    SoloNext(s, t, 2, s2);
    var s3 := Atomic(s2, t);
    assert s3.pcs == s.pcs[t := Idle] && s3.place == s.place[h := Owned];
  }

  lemma {:induction false} SoloSplit(s: State, t: nat, m: nat, n: nat)
    ensures Solo(s, t, m + n) == Solo(Solo(s, t, m), t, n)
  {
    hide Stepped;
    if n > 0 {
      SoloSplit(s, t, m, n - 1);
    }
  }

  // Otherwise it takes the first node off, which its client then has.
  lemma TryGetTakesFirst(s: State, t: nat)
    requires Inv(s) && AllIdle(s) && t < |s.pcs| && s.list != []
    ensures var s' := Solo(At(s, t, GetLoad), t, 6);
      && s'.pcs == s.pcs && s'.list == s.list[1..] && s'.place == s.place[s.list[0] := Owned]
      && s'.head == ListAt(s.list, 1) && s'.refs == s.refs[s.list[0] := 0] && s'.next == s.next
  {
    hide Inv, Solo;
    FirstOfList(s);
    TryGetCounts(s, t);
    var mid := At(s, t, GetNext(s.list[0])).(refs := s.refs[s.list[0] := 2]);
    TryGetUnhooks(mid, t);
    SoloSplit(At(s, t, GetLoad), t, 3, 3);
    assert s.refs[s.list[0] := 2][s.list[0] := 0] == s.refs[s.list[0] := 0];
    assert s.pcs[t := GetNext(s.list[0])][t := Idle] == s.pcs;
  }

  lemma NoSteps(s: State, t: nat)
    ensures Solo(s, t, 0) == s
  {
  }

  // The first half of add: the flag is set, and the node comes to belong to its adder.
  lemma AddFlags(s: State, t: nat, n: Node)
    requires NodesKnown(s) && t < |s.pcs| && s.pcs[t] == AddFlag(n) && n in s.refs && s.refs[n] == 0
    ensures Solo(s, t, 2) == At(s, t, AkNext(n, s.head, Return)).(refs := s.refs[n := SHOULD_BE_ON_FREELIST])
  {
    hide RefsMask, FetchAdd, FetchSub, Solo;
    OneReference();
    NoSteps(s, t);
    SoloNext(s, t, 0, s);
    var s1 := At(s, t, AkLoad(n, Return)).(refs := s.refs[n := SHOULD_BE_ON_FREELIST]);
    assert Atomic(s, t) == s1;
    SoloNext(s, t, 1, s1);
    assert s.pcs[t := AkLoad(n, Return)][t := AkNext(n, s.head, Return)] == s.pcs[t := AkNext(n, s.head, Return)];
  }

  // The second half: link, count the list's reference, install.
  lemma AddInstalls(s: State, t: nat, n: Node)
    requires NodesKnown(s) && t < |s.pcs| && s.pcs[t] == AkNext(n, s.head, Return) && n in s.refs
    ensures var s' := Solo(s, t, 3);
      && s'.pcs == s.pcs[t := Idle] && s'.list == [n] + s.list && s'.place == s.place[n := Listed]
      && s'.head == n && s'.refs == s.refs[n := 1] && s'.next == s.next[n := s.head]
  {
    hide RefsMask, FetchAdd, FetchSub, Solo;
    NoSteps(s, t);
    SoloNext(s, t, 0, s);
    var s1 := At(s, t, AkRefs(n, s.head, Return)).(next := s.next[n := s.head]);
    assert Atomic(s, t) == s1;
    SoloNext(s, t, 1, s1);
    var s2 := At(s1, t, AkCas(n, s.head, Return)).(refs := s.refs[n := 1]);
    assert Atomic(s1, t) == s2;
    SoloNext(s, t, 2, s2);
    assert s2.pcs[t := Idle] == s.pcs[t := Idle];
  }

  // add puts a client's node in front.
  lemma AddPutsFirst(s: State, t: nat, n: Node)
    requires Inv(s) && AllIdle(s) && t < |s.pcs| && IsOwned(s, n)
    ensures var s' := Solo(StartAdd(s, t, n), t, 5);
      && s'.pcs == s.pcs && s'.list == [n] + s.list && s'.place == s.place[n := Listed]
      && s'.head == n && s'.refs == s.refs[n := 1] && s'.next == s.next[n := s.head]
  {
    hide Inv, Solo;
    FirstOfList(s);
    RestingNode(s, n);
    var s0 := StartAdd(s, t, n);
    AddFlags(s0, t, n);
    AddInstalls(Solo(s0, t, 2), t, n);
    SoloSplit(s0, t, 2, 3);
    assert s.pcs[t := AddFlag(n)][t := AkNext(n, s.head, Return)][t := Idle] == s.pcs;
  }

  // In every reachable state at rest the calls behave so: an add and a try_get undo
  // each other, and a try_get answers null exactly if the list is empty.
  lemma CallsAlone(nodes: set<Node>, threads: nat, run: seq<State>, who: seq<nat>, i: nat, t: nat)
    requires NULL !in nodes && threads <= MAX_THREADS && Run(nodes, threads, run, who) && i < |run|
    requires AllIdle(run[i]) && t < |run[i].pcs|
    ensures run[i].list == [] ==> Solo(At(run[i], t, GetLoad), t, 1) == run[i]
    ensures run[i].list != [] ==>
              var s' := Solo(At(run[i], t, GetLoad), t, 6);
              AllIdle(s') && s'.list == run[i].list[1..] && IsOwned(s', run[i].list[0])
    ensures forall n :: IsOwned(run[i], n) ==>
              var s' := Solo(StartAdd(run[i], t, n), t, 5);
              AllIdle(s') && s'.list == [n] + run[i].list
  {
    hide Inv, Solo, Atomic;
    RunInv(nodes, threads, run, who, i);
    if run[i].list == [] {
      TryGetEmpty(run[i], t);
    } else {
      TryGetTakesFirst(run[i], t);
    }
    forall n | IsOwned(run[i], n)
      ensures var s' := Solo(StartAdd(run[i], t, n), t, 5); AllIdle(s') && s'.list == [n] + run[i].list
    {
      AddPutsFirst(run[i], t, n);
    }
  }

  // ---------- a call among others ----------

  ghost predicate InAdder(pc: Pc) {
    pc.AkLoad? || pc.AkNext? || pc.AkRefs? || pc.AkCas? || pc.AkAgain?
  }

  // The thread is in try_get, perhaps adding a node on the way.
  ghost predicate InTryGet(pc: Pc) {
    || pc.GetLoad? || pc.GetRefs? || pc.GetCas? || pc.GetNext? || pc.GetTake? || pc.GetUndo? || pc.GetDrop?
    || (InAdder(pc) && pc.after.Retry?)
  }

  // The thread will find the loop's head null.
  ghost predicate HoldsNull(pc: Pc) {
    || (pc.GetUndo? && pc.head == NULL)
    || (InAdder(pc) && pc.after == Retry(NULL))
  }

  // Step i ends a try_get without a node.
  ghost predicate AnswersNull(run: seq<State>, who: seq<nat>, i: nat) {
    && i < |who| && i + 1 < |run| && who[i] < |run[i].pcs| == |run[i + 1].pcs|
    && InTryGet(run[i].pcs[who[i]]) && !run[i].pcs[who[i]].GetDrop? && run[i + 1].pcs[who[i]] == Idle
  }

  // At moment k of the run, within the call that thread t is in at moment i, the list
  // was empty.
  ghost predicate WasEmpty(run: seq<State>, t: nat, k: nat, i: nat) {
    && k <= i < |run| && run[k].list == []
    && forall j :: k <= j <= i ==> t < |run[j].pcs| && InTryGet(run[j].pcs[t])
  }

  // What one step does to a thread that is to hold null.
  lemma OwnStep(s: State, t: nat)
    requires Enabled(s, t) && (s.head == NULL <==> s.list == []) && t < |Atomic(s, t).pcs| && HoldsNull(Atomic(s, t).pcs[t])
    ensures InTryGet(s.pcs[t]) && (HoldsNull(s.pcs[t]) || s.list == [])
  {
    hide RefsMask, FetchAdd, FetchSub;
  }

  lemma OthersStay(s: State, u: nat, t: nat)
    requires Enabled(s, u) && t < |s.pcs| && t != u
    ensures |Atomic(s, u).pcs| == |s.pcs| && Atomic(s, u).pcs[t] == s.pcs[t]
  {
    hide RefsMask, FetchAdd, FetchSub;
  }

  lemma CallHoldsNothing(s: State, u: nat, s': State, t: nat)
    requires Call(s, u, s') && t < |s'.pcs|
    ensures t < |s.pcs| && if t == u then !HoldsNull(s'.pcs[t]) else s'.pcs[t] == s.pcs[t]
  {
  }

  lemma SameThreads(s: State, t: nat)
    requires Enabled(s, t)
    ensures |Atomic(s, t).pcs| == |s.pcs|
  {
    hide RefsMask, FetchAdd, FetchSub;
  }

  lemma NullComesFrom(s: State, u: nat, s': State, t: nat)
    requires Inv(s) && Step(s, u, s') && t < |s'.pcs| && HoldsNull(s'.pcs[t])
    ensures t < |s.pcs| && InTryGet(s.pcs[t]) && (HoldsNull(s.pcs[t]) || s.list == [])
  {
    hide Inv, Call, Atomic;
    FirstOfList(s);
    HeldInTryGet(s'.pcs[t]);
    if Call(s, u, s') {
      CallHoldsNothing(s, u, s', t);
    } else {
      SameThreads(s, u);
      if u == t {
        OwnStep(s, t);
      } else {
        OthersStay(s, u, t);
      }
    }
  }

  lemma HeldInTryGet(pc: Pc)
    requires HoldsNull(pc)
    ensures InTryGet(pc)
  {
  }

  lemma {:induction false} NullWasSeen(nodes: set<Node>, threads: nat, run: seq<State>, who: seq<nat>, i: nat, t: nat)
    requires NULL !in nodes && threads <= MAX_THREADS && Run(nodes, threads, run, who) && i < |run|
    requires t < |run[i].pcs| && HoldsNull(run[i].pcs[t])
    ensures exists k :: 0 <= k && WasEmpty(run, t, k, i)
    decreases i
  {
    hide Inv, Step;
    if i > 0 {
      var p := i - 1;
      RunInv(nodes, threads, run, who, p);
      assert Step(run[p], who[p], run[p + 1]);
      NullComesFrom(run[p], who[p], run[i], t);
      if HoldsNull(run[p].pcs[t]) {
        NullWasSeen(nodes, threads, run, who, p, t);
        var k: nat :| WasEmpty(run, t, k, p);
        assert WasEmpty(run, t, k, i);
      } else {
        assert WasEmpty(run, t, p, i);
      }
    }
  }

  lemma NullIsHeldOrSeen(s: State, t: nat, s': State)
    requires Inv(s) && Step(s, t, s') && t < |s.pcs| && t < |s'.pcs|
    requires InTryGet(s.pcs[t]) && !s.pcs[t].GetDrop? && s'.pcs[t] == Idle
    ensures HoldsNull(s.pcs[t]) || s.list == []
  {
    hide Inv, RefsMask, FetchAdd, FetchSub;
    FirstOfList(s);
  }

  // try_get answers null only if, at some moment of the call, the list was empty.
  lemma NullMeansEmpty(nodes: set<Node>, threads: nat, run: seq<State>, who: seq<nat>, i: nat)
    requires NULL !in nodes && threads <= MAX_THREADS && Run(nodes, threads, run, who) && AnswersNull(run, who, i)
    ensures exists k :: 0 <= k && WasEmpty(run, who[i], k, i)
  {
    hide Inv, Step;
    RunInv(nodes, threads, run, who, i);
    assert Step(run[i], who[i], run[i + 1]);
    NullIsHeldOrSeen(run[i], who[i], run[i + 1]);
    if HoldsNull(run[i].pcs[who[i]]) {
      NullWasSeen(nodes, threads, run, who, i, who[i]);
    } else {
      assert WasEmpty(run, who[i], i, i);
    }
  }
}
