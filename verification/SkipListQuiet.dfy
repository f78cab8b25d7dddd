/** The skip list when nobody interferes: the lists while no call is under way, and the progress of a
    call that has the list to itself. */
module SkipListQuiet {
  import opened Counting
  import opened LazySkipList
  import opened SkipListAnswers

  // ----- who is responsible for a node in between -----

  /** Thread th is linking node u. */
  predicate Adds(th: Thread, u: nat) {
    IsAdding(th) && th.node == u
  }

  /** Thread th has marked node u and not yet unlinked it everywhere. */
  predicate Removes(th: Thread, u: nat) {
    th.isMarked && th.node == u && (th.pc.Find? || LockPhase(th.pc) || th.pc.ReadNext? || th.pc.Unlink?)
  }

  /** A node that is not fully linked is being added. */
  ghost predicate AddOk(s: State, u: nat) {
    1 < u < |s.nodes| && !Linked(s, u) ==> exists t: nat :: t < |s.threads| && Adds(s.threads[t], u)
  }

  /** A marked node that is still linked is being removed. */
  ghost predicate RemoveOk(s: State, u: nat, l: nat)
    requires Sized(s) && l <= MAX_LEVEL
  {
    u in s.lists[l] && Marked(s, u) ==> exists t: nat :: t < |s.threads| && Removes(s.threads[t], u)
  }

  ghost predicate Owned(s: State)
    requires Sized(s)
  {
    (forall u: nat :: AddOk(s, u)) && (forall u: nat, l: nat :: l <= MAX_LEVEL ==> RemoveOk(s, u, l))
  }

  lemma OthersStay(s: State, s': State, t: nat)
    requires Sized(s) && t < |s.threads| && Step(s, s', t)
    ensures |s'.threads| == |s.threads| && forall v :: 0 <= v < |s.threads| && v != t ==> s'.threads[v] == s.threads[v]
  {
    hide FindStep, Begin, Again, Wanted, Free, Goal, Return;
  }

  /** A thread goes on linking its node until it is fully linked, and a new node is its own. */
  lemma AddsStep(s: State, s': State, t: nat, u: nat)
    requires Sized(s) && t < |s.threads| && Step(s, s', t) && |s'.threads| == |s.threads| && 1 < u
    ensures Adds(s.threads[t], u) ==> Adds(s'.threads[t], u) || Linked(s', u)
    ensures u == |s.nodes| < |s'.nodes| ==> Adds(s'.threads[t], u)
    ensures |s'.nodes| <= |s.nodes| + 1
  {
    hide FindStep, Begin, Again, Wanted, Free, Goal, Return, Key, Next;
  }

  lemma ListsStep(s: State, s': State, t: nat, u: nat, l: nat)
    requires Sized(s) && t < |s.threads| && Step(s, s', t) && Sized(s') && l <= MAX_LEVEL
    ensures u in s'.lists[l] && u !in s.lists[l] ==> s.threads[t].pc.Link? && s.threads[t].node == u
    ensures s.threads[t].pc.Unlink? && s.threads[t].pc.level == l && s.threads[t].victim == u ==> u !in s'.lists[l]
  {
    hide FindStep, Begin, Again, Wanted, Free, Goal, Return, Key, Next, SetNext;
  }

  lemma RemoverPc(s: State, s': State, t: nat, u: nat)
    requires Sized(s) && t < |s.threads| && Step(s, s', t) && |s'.threads| == |s.threads|
    requires Removes(s.threads[t], u) && s.threads[t].op.Remove?
    ensures Removes(s'.threads[t], u) || (s.threads[t].pc.Unlink? && s.threads[t].pc.level == 0)
  {
    hide Wanted, Free, Goal, Key, Next;
  }

  lemma RemoverIs(s: State, t: nat, u: nat)
    requires Inv(s) && t < |s.threads| && Removes(s.threads[t], u)
    ensures s.threads[t].op.Remove?
    ensures s.threads[t].pc.Unlink? ==> Removing(s, s.threads[t], s.threads[t].pc.level)
  {
    At(s, t);
    hide Inv, ListsOk, NodeOk, Searched, VictimOk, Removing;
  }

  /** A thread goes on removing its node until it is linked nowhere. */
  lemma RemovesStep(s: State, s': State, t: nat, u: nat, l: nat)
    requires Inv(s) && t < |s.threads| && Step(s, s', t) && Sized(s') && |s'.threads| == |s.threads| && l <= MAX_LEVEL
    requires Removes(s.threads[t], u)
    ensures Removes(s'.threads[t], u) || u !in s'.lists[l]
  {
    RemoverIs(s, t, u);
    RemoverPc(s, s', t, u);
    ListsStep(s, s', t, u, l);
    assert MemberOk(s, l, u);
    hide Inv, Step, Searched;
  }

  /** A marked node is linked nowhere anew, and a node that is marked has its remover. */
  lemma RemovedAfter(s: State, s': State, t: nat, u: nat, l: nat)
    requires Inv(s) && t < |s.threads| && Step(s, s', t) && Sized(s') && |s'.threads| == |s.threads| && l <= MAX_LEVEL
    requires u in s'.lists[l] && Marked(s', u)
    ensures (u in s.lists[l] && Marked(s, u)) || Removes(s'.threads[t], u)
  {
    ListsStep(s, s', t, u, l);
    if u >= |s.nodes| {
      NewNodes(s, s', t, u);
    } else {
      FlagStep(s, s', t, u);
      if s.threads[t].pc.Link? { LinkedUnmarked(s, t); }
    }
    hide Inv, FindStep, Begin, Again, Found, Return, Wanted, Free, Goal, Key, Next, SetNext;
  }

  lemma LinkedUnmarked(s: State, t: nat)
    requires Inv(s) && t < |s.threads| && s.threads[t].pc.Link?
    ensures !Marked(s, s.threads[t].node)
  {
    At(s, t);
    hide Inv;
  }

  lemma OwnedStep(s: State, s': State, t: nat)
    requires Inv(s) && Inv(s') && Owned(s) && t < |s.threads| && Step(s, s', t)
    ensures Owned(s')
  {
    assert Sized(s) && Sized(s');
    OthersStay(s, s', t);
    hide Inv, Step, Adds, Removes;
    forall u: nat ensures AddOk(s', u) { AddOkStep(s, s', t, u); }
    forall u: nat, l: nat | l <= MAX_LEVEL ensures RemoveOk(s', u, l) {
      if u in s'.lists[l] && Marked(s', u) {
        RemovedAfter(s, s', t, u, l);
        if !Removes(s'.threads[t], u) {
          assert RemoveOk(s, u, l);
          var v: nat :| v < |s.threads| && Removes(s.threads[v], u);
          if v == t { RemovesStep(s, s', t, u, l); }
          assert Removes(s'.threads[v], u);
        }
      }
    }
  }

  lemma AddOkStep(s: State, s': State, t: nat, u: nat)
    requires Inv(s) && AddOk(s, u) && t < |s.threads| && Step(s, s', t)
    requires |s'.threads| == |s.threads|
    requires forall v :: 0 <= v < |s.threads| && v != t ==> s'.threads[v] == s.threads[v]
    ensures AddOk(s', u)
  {
    assert Sized(s);
    if 1 < u < |s'.nodes| && !Linked(s', u) {
      AddsStep(s, s', t, u);
      if u < |s.nodes| {
        FlagStep(s, s', t, u);
        hide Inv, Step, Adds;
        var v: nat :| v < |s.threads| && Adds(s.threads[v], u);
        assert Adds(s'.threads[v], u);
      } else {
        assert Adds(s'.threads[t], u);
      }
    }
  }

  lemma {:induction false} RunOwned(tr: seq<State>, r: nat)
    requires Run(tr) && r < |tr|
    ensures Inv(tr[r]) && Sized(tr[r]) && Owned(tr[r])
  {
    RunInv(tr, r);
    if r == 0 {
      assert Init(tr[0]);
      forall u: nat ensures AddOk(tr[0], u) {}
      forall u: nat, l: nat | l <= MAX_LEVEL ensures RemoveOk(tr[0], u, l) {}
    } else {
      RunOwned(tr, r - 1);
      assert Moves(tr[r - 1], tr[r - 1 + 1]);
      var t: nat :| t < |tr[r - 1].threads| && Step(tr[r - 1], tr[r], t);
      hide Inv, Step, Owned;
      OwnedStep(tr[r - 1], tr[r], t);
    }
  }

  // ----- while no call is under way -----

  ghost predicate AllIdle(s: State) {
    forall t :: 0 <= t < |s.threads| ==> s.threads[t].pc == Idle
  }

  /** While no call is under way, the list of each level links exactly the nodes of the set that have
      this level: nothing that was removed is still linked, and nothing that was added is missing. */
  lemma QuietLists(tr: seq<State>, r: nat, l: nat, u: nat)
    requires Run(tr) && r < |tr| && l <= MAX_LEVEL && AllIdle(tr[r]) && Sized(tr[r]) && 1 < u < |tr[r].nodes|
    ensures u in Level(tr[r], l) <==> !Marked(tr[r], u) && l <= tr[r].nodes[u].Top()
    ensures Linked(tr[r], u)
  {
    var s := tr[r];
    RunOwned(tr, r);
    LevelIsList(s, l);
    assert u in Level(s, l) <==> u in Elements(Level(s, l));
    hide Level;
    assert AddOk(s, u) && RemoveOk(s, u, l);
    assert NodeOk(s, u) && MemberOk(s, l, u);
    assert l <= s.nodes[u].Top() ==> Known(s, u, l);
  }

  // ----- a call that has the list to itself -----

  /** No other thread is inside a call. */
  ghost predicate Alone(s: State, t: nat) {
    forall u :: 0 <= u < |s.threads| && u != t ==> s.threads[u].pc == Idle
  }

  /** What the search recorded from this level up is how the lists are now. */
  ghost predicate FreshFrom(s: State, th: Thread, from: nat)
    requires Sized(s) && |th.preds| == |th.succs| == MAX_LEVEL + 1
  {
    forall j: nat :: from <= j <= MAX_LEVEL ==> th.preds[j] in s.lists[j] && Next(s, th.preds[j], j) == th.succs[j]
  }

  /** Nothing changed since the search began, so that it need not be repeated. */
  ghost predicate Fresh(s: State, th: Thread)
    requires Sized(s) && |th.preds| == |th.succs| == MAX_LEVEL + 1
  {
    match th.pc
    case Find(level, pred) => level <= MAX_LEVEL && pred in s.lists[level] && FreshFrom(s, th, level + 1)
    case Retry(_, _) => false
    case _ => FreshFrom(s, th, 0) && (LockPhase(th.pc) && th.isMarked ==> th.victim == th.node)
  }

  /** The thread may still have to search again. */
  predicate Unsure(pc: Pc) {
    pc.Find? || pc.AddCheck? || LockPhase(pc) || VictimPhase(pc)
  }

  /** The nodes to the right of u. */
  function Above(s: State, u: nat): set<nat> {
    set v | v in Below(|s.nodes|) && Key(s, v) > Key(s, u)
  }

  /** The steps to the return if nothing has to be repeated. */
  function PcWork(s: State, th: Thread): int {
    match th.pc
    case Idle => 0
    case Find(level, pred) => 130 + |Above(s, pred)| + level
    case CheckLinked => 129
    case CheckMarked => 128
    case LockVictim => 127
    case TestVictim => 126
    case Mark => 125
    case Lock(level) => 60 + 4 * (MAX_LEVEL + 1 - level)
    case TestPred(level) => 59 + 4 * (MAX_LEVEL + 1 - level)
    case TestSucc(level) => 58 + 4 * (MAX_LEVEL + 1 - level)
    case TestLink(level) => 57 + 4 * (MAX_LEVEL + 1 - level)
    case Retry(level, high) => 21 + high - level
    case ReadNext(level) => 22 + 2 * level
    case Unlink(level, _) => 21 + 2 * level
    case Link(level) => 22 + th.top - level
    case SetLinked => 20
    case UnlockVictim => 20
    case Unlock(level) => 2 + th.top - level
    case AddCheck => 2
    case AddAwait => 1
    case HasLinked => 2
    case HasMarked => 1
  }

  /** A bound on the steps of a thread that has the list to itself: one more search when what it
      recorded is out of date. */
  ghost function Work(s: State, th: Thread): int
    requires Sized(s) && |th.preds| == |th.succs| == MAX_LEVEL + 1
  {
    PcWork(s, th) + if Unsure(th.pc) && !Fresh(s, th) then |s.nodes| + 170 else 0
  }

  lemma AboveShrinks(s: State, u: nat, v: nat)
    requires v < |s.nodes| && Key(s, u) < Key(s, v)
    ensures |Above(s, v)| < |Above(s, u)| <= |s.nodes|
  {
    assert v in Above(s, u) && v !in Above(s, v);
    SubsetSize(Above(s, v), Above(s, u) - {v});
    SubsetSize(Above(s, u), Below(|s.nodes|));
  }

  lemma WorkBounds(s: State, t: nat)
    requires Inv(s) && t < |s.threads|
    ensures 0 <= Work(s, s.threads[t]) <= 2 * |s.nodes| + 320
    ensures Work(s, s.threads[t]) == 0 <==> s.threads[t].pc == Idle
  {
    var th := s.threads[t];
    At(s, t);
    if th.pc.Find? { SubsetSize(Above(s, th.pc.pred), Below(|s.nodes|)); }
    hide Inv, ListsOk, NodeOk, Searched, Owns, InAll, Fresh, Above;
  }

  /** A linked node that is marked is the thread's own. */
  lemma OwnOrUnmarked(s: State, t: nat, u: nat, l: nat)
    requires Sized(s) && Owned(s) && t < |s.threads| && Alone(s, t) && l <= MAX_LEVEL && u in s.lists[l] && Marked(s, u)
    ensures Removes(s.threads[t], u)
  {
    assert RemoveOk(s, u, l);
  }

  lemma SuccLinked(s: State, l: nat, u: nat)
    requires Sized(s) && ListsOk(s) && NodeOk(s, TAIL) && l <= MAX_LEVEL && u in s.lists[l]
    ensures Next(s, u, l) == TAIL || Next(s, u, l) in s.lists[l]
    ensures l > 0 ==> u in s.lists[l - 1]
    ensures TAIL < |s.nodes| && !Marked(s, TAIL) && Key(s, TAIL) == INT64_MAX
  {
    assert MemberOk(s, l, u);
  }

  lemma {:induction false} InBelow(s: State, l: nat, u: nat)
    requires Sized(s) && ListsOk(s) && l <= MAX_LEVEL && u in s.lists[l]
    ensures u in s.lists[0]
  {
    assert MemberOk(s, l, u);
    if l > 0 { InBelow(s, l - 1, u); }
  }

  /** A fresh record next to the thread's own marked node points to it. */
  lemma FreshMeets(s: State, th: Thread, l: nat)
    requires Sized(s) && ListsOk(s) && NodeOk(s, TAIL) && |th.preds| == |th.succs| == MAX_LEVEL + 1
    requires OpOk(th) && l <= MAX_LEVEL && RecOk(s, th, l) && th.preds[l] in s.lists[l]
    requires Next(s, th.preds[l], l) == th.succs[l] && th.node in s.lists[l] && Key(s, th.node) == th.op.x
    ensures th.succs[l] == th.node
  {
    assert LinkOk(s, l, th.preds[l], th.node);
    SuccLinked(s, l, th.preds[l]);
    assert LinkOk(s, l, th.succs[l], th.node);
  }

  // ----- searching -----

  lemma FindRightFalls(s: State, t: nat, level: nat, pred: nat)
    requires Inv(s) && t < |s.threads| && s.threads[t].pc == Find(level, pred)
    requires level <= MAX_LEVEL && s.threads[t].op.x > Key(s, Next(s, pred, level))
    ensures Work(s, s.threads[t].(pc := Find(level, Next(s, pred, level)))) < Work(s, s.threads[t])
  {
    var th, curr := s.threads[t], Next(s, pred, level);
    At(s, t);
    assert NodeOk(s, pred) && PtrOk(s, pred, level);
    AboveShrinks(s, pred, curr);
    if Fresh(s, th) { SuccLinked(s, level, pred); }
    hide Inv, ListsOk, NodeOk, Searched, Owns, InAll, Above;
    assert Fresh(s, th) ==> Fresh(s, th.(pc := Find(level, curr)));
  }

  lemma FindDownFalls(s: State, t: nat, level: nat, pred: nat)
    requires Inv(s) && t < |s.threads| && s.threads[t].pc == Find(level, pred) && 0 < level <= MAX_LEVEL
    ensures Work(s, Recorded(s, s.threads[t], level, pred).(pc := Find(level - 1, pred))) < Work(s, s.threads[t])
  {
    var th := s.threads[t];
    At(s, t);
    if Fresh(s, th) { SuccLinked(s, level, pred); }
    hide Inv, ListsOk, NodeOk, Searched, Owns, InAll, Above;
    assert Fresh(s, th) ==> Fresh(s, Recorded(s, th, level, pred).(pc := Find(level - 1, pred)));
  }

  /** A fresh search of a thread that has marked its node finds that node again. */
  lemma FoundAgain(s: State, th: Thread)
    requires Sized(s) && ListsOk(s) && NodeOk(s, TAIL) && |th.preds| == |th.succs| == MAX_LEVEL + 1
    requires OpOk(th) && Searched(s, th, 0) && FreshFrom(s, th, 0) && Owns(s, th) && InAll(s, th)
    ensures th.lFound >= 0 && th.succs[th.lFound] == th.node
  {
    assert RecOk(s, th, 0) && th.node in s.lists[0];
    FreshMeets(s, th, 0);
    var l: nat := th.lFound;
    assert RecOk(s, th, l);
    SuccLinked(s, l, th.preds[l]);
    InBelow(s, l, th.succs[l]);
    assert LinkOk(s, 0, th.succs[l], th.node);
  }

  lemma FoundBounds(s: State, th: Thread)
    requires |th.succs| == MAX_LEVEL + 1 && th.lFound <= MAX_LEVEL
    ensures PcWork(s, Found(th)) < 130
    ensures Found(th).preds == th.preds && Found(th).succs == th.succs && Found(th).node == th.node
    ensures Found(th).isMarked == th.isMarked && !Found(th).pc.Find? && !Found(th).pc.Retry?
    ensures LockPhase(Found(th).pc) && th.isMarked && th.op.Remove? && th.lFound >= 0 ==>
              Found(th).victim == th.succs[th.lFound]
  {
    hide Above;
  }

  lemma FoundFresh(s: State, t: nat, pred: nat)
    requires Inv(s) && t < |s.threads| && s.threads[t].pc == Find(0, pred)
    requires s.threads[t].op.x <= Key(s, Next(s, pred, 0)) && Fresh(s, s.threads[t])
    ensures Fresh(s, Found(Recorded(s, s.threads[t], 0, pred)))
  {
    var th := s.threads[t];
    At(s, t);
    assert NodeOk(s, pred);
    RecordedOk(s, th, 0, pred);
    var th' := Recorded(s, th, 0, pred);
    hide Inv, NodeOk, Above, RecOk;
    assert FreshFrom(s, th', 0);
    FoundBounds(s, th');
    if th.isMarked {
      assert Owns(s, th') && InAll(s, th');
      FoundAgain(s, th');
    }
    hide ListsOk, Searched, Owns, InAll, Found;
  }

  lemma FindEndFalls(s: State, t: nat, pred: nat)
    requires Inv(s) && t < |s.threads| && s.threads[t].pc == Find(0, pred)
    requires s.threads[t].op.x <= Key(s, Next(s, pred, 0))
    ensures Work(s, Found(Recorded(s, s.threads[t], 0, pred))) < Work(s, s.threads[t])
  {
    FoundBounds(s, Recorded(s, s.threads[t], 0, pred));
    if Fresh(s, s.threads[t]) { FoundFresh(s, t, pred); }
    hide Inv, Above, Fresh, Found;
  }

  lemma FindStepFalls(s: State, t: nat, level: nat, pred: nat)
    requires Inv(s) && t < |s.threads| && s.threads[t].pc == Find(level, pred) && level <= MAX_LEVEL
    ensures |FindStep(s, s.threads[t], level, pred).preds| == MAX_LEVEL + 1
    ensures |FindStep(s, s.threads[t], level, pred).succs| == MAX_LEVEL + 1
    ensures Work(s, FindStep(s, s.threads[t], level, pred)) < Work(s, s.threads[t])
  {
    assert Sized(s);
    hide Inv, Work, Key, Next;
    if s.threads[t].op.x > Key(s, Next(s, pred, level)) {
      FindRightFalls(s, t, level, pred);
    } else if level > 0 {
      FindDownFalls(s, t, level, pred);
    } else {
      FoundBounds(s, Recorded(s, s.threads[t], 0, pred));
      FindEndFalls(s, t, pred);
    }
  }

  lemma FindFalls(s: State, s': State, t: nat)
    requires Inv(s) && t < |s.threads| && s.threads[t].pc.Find? && Step(s, s', t) && Sized(s')
    ensures |s'.threads| == |s.threads| && Work(s', s'.threads[t]) < Work(s, s.threads[t])
  {
    assert Sized(s);
    hide Inv, Work, FindStep;
    FindStepFalls(s, t, s.threads[t].pc.level, s.threads[t].pc.pred);
    MemoryWork(s, s', s'.threads[t]);
  }

  /** The work depends on the thread and the memory alone. */
  lemma MemoryWork(s: State, s': State, th: Thread)
    requires Sized(s) && Sized(s') && s'.nodes == s.nodes && s'.lists == s.lists
    requires |th.preds| == |th.succs| == MAX_LEVEL + 1
    ensures Work(s', th) == Work(s, th)
  {
    assert forall u :: Above(s', u) == Above(s, u);
    hide Above;
    assert forall u, l :: Next(s', u, l) == Next(s, u, l);
  }

  // ----- validating -----

  /** A thread that moves on without touching the memory, or its records, stays as fresh as it is. */
  lemma Onward(s: State, s': State, th: Thread, th': Thread)
    requires Sized(s) && Sized(s') && s'.nodes == s.nodes && s'.lists == s.lists
    requires |th.preds| == |th.succs| == MAX_LEVEL + 1
    requires th'.preds == th.preds && th'.succs == th.succs && th'.node == th.node && th'.victim == th.victim
    requires th'.isMarked == th.isMarked && !th.pc.Find? && !th'.pc.Find? && PcWork(s, th') < PcWork(s, th)
    requires LockPhase(th'.pc) && th.isMarked ==> LockPhase(th.pc)
    requires Unsure(th'.pc) ==> Unsure(th.pc)
    requires th'.pc.Retry? ==> !Fresh(s, th)
    ensures Work(s', th') < Work(s, th)
  {
    hide Above;
    assert forall u, l :: Next(s', u, l) == Next(s, u, l);
    assert PcWork(s', th') == PcWork(s, th');
  }

  /** A search that has to be repeated is fresh from its start. */
  lemma AgainFalls(s: State, s': State, th: Thread)
    requires Sized(s) && Sized(s') && s'.nodes == s.nodes && s'.lists == s.lists && ListsOk(s) && HEAD < |s.nodes|
    requires |th.preds| == |th.succs| == MAX_LEVEL + 1
    requires Unsure(th.pc) && !th.pc.Find? && !Fresh(s, th) && PcWork(s, th) >= 0
    ensures Work(s', Again(th)) < Work(s, th)
  {
    SubsetSize(Above(s', HEAD), Below(|s'.nodes|));
    hide Above, Fresh;
    assert Fresh(s', Again(th)) by { StartFresh(s', s, th); }
  }

  lemma StartFresh(s': State, s: State, th: Thread)
    requires Sized(s) && Sized(s') && s'.nodes == s.nodes && s'.lists == s.lists && ListsOk(s)
    requires |th.preds| == |th.succs| == MAX_LEVEL + 1
    ensures Fresh(s', Again(th))
  {
  }

  /** A fresh search finds no marked node, unless the thread has marked it itself. */
  lemma FreshUnmarked(s: State, t: nat, l: nat)
    requires Inv(s) && Owned(s) && t < |s.threads| && Alone(s, t) && l <= MAX_LEVEL && Searched(s, s.threads[t], 0)
    requires FreshFrom(s, s.threads[t], 0) && OpOk(s.threads[t])
    requires s.threads[t].isMarked ==> Owns(s, s.threads[t])
    ensures !Marked(s, s.threads[t].preds[l])
    ensures !s.threads[t].isMarked ==> !Marked(s, s.threads[t].succs[l])
  {
    var th := s.threads[t];
    assert RecOk(s, th, l);
    SuccLinked(s, l, th.preds[l]);
    if Marked(s, th.preds[l]) { OwnOrUnmarked(s, t, th.preds[l], l); }
    if Marked(s, th.succs[l]) { OwnOrUnmarked(s, t, th.succs[l], l); }
  }

  lemma AddCheckFalls(s: State, s': State, t: nat)
    requires Inv(s) && Owned(s) && t < |s.threads| && Alone(s, t) && s.threads[t].pc == AddCheck
    requires Step(s, s', t) && Sized(s')
    ensures |s'.threads| == |s.threads| && Work(s', s'.threads[t]) < Work(s, s.threads[t])
  {
    var th := s.threads[t];
    At(s, t);
    if Marked(s, th.succs[th.lFound]) {
      if Fresh(s, th) { FreshUnmarked(s, t, th.lFound); }
      hide Inv, Fresh, Searched, ListsOk, NodeOk;
      AgainFalls(s, s', th);
    } else {
      hide Inv, Fresh, Searched, ListsOk, NodeOk, Above;
      Onward(s, s', th, s'.threads[t]);
    }
  }

  /** The node an add has found will be fully linked, and alone already is. */
  lemma AwaitFalls(s: State, s': State, t: nat)
    requires Inv(s) && Owned(s) && t < |s.threads| && Alone(s, t) && s.threads[t].pc == AddAwait
    requires Step(s, s', t) && Sized(s')
    ensures |s'.threads| == |s.threads| && Work(s', s'.threads[t]) < Work(s, s.threads[t])
  {
    var th := s.threads[t];
    At(s, t);
    var u := th.succs[th.lFound];
    assert RecOk(s, th, th.lFound);
    assert AddOk(s, u);
    assert u < |s.nodes| && NodeOk(s, u);
    hide Inv, Fresh, Searched, ListsOk, NodeOk, Above;
    assert Linked(s, u);
  }

  /** With fresh records every validation succeeds. */
  lemma Validates(s: State, t: nat, level: nat)
    requires Inv(s) && Owned(s) && t < |s.threads| && Alone(s, t) && Fresh(s, s.threads[t])
    requires level <= s.threads[t].top <= MAX_LEVEL && Climbing(s, s.threads[t], level, level + 1)
    requires LockPhase(s.threads[t].pc) && OpOk(s.threads[t])
    ensures !Marked(s, s.threads[t].preds[level])
    ensures s.threads[t].op.Add? ==> !Marked(s, s.threads[t].succs[level])
    ensures Next(s, s.threads[t].preds[level], level) == Goal(s.threads[t], level)
  {
    var th := s.threads[t];
    FreshUnmarked(s, t, level);
    if !th.op.Add? {
      assert RecOk(s, th, level);
      FreshMeets(s, th, level);
    }
  }

  /** From one program point of the validation to the next, in the same memory. */
  lemma PcFalls(s: State, s': State, t: nat, pc: Pc)
    requires Sized(s) && Sized(s') && t < |s.threads| && s' == Goto(s, t, s.threads[t].(pc := pc))
    requires LockPhase(s.threads[t].pc) && LockPhase(pc) && PcWork(s, s.threads[t].(pc := pc)) < PcWork(s, s.threads[t])
    requires pc.Retry? ==> !Fresh(s, s.threads[t])
    ensures |s'.threads| == |s.threads| && Work(s', s'.threads[t]) < Work(s, s.threads[t])
  {
    hide Above, Fresh;
    Onward(s, s', s.threads[t], s'.threads[t]);
  }

  predicate Tests(pc: Pc, level: nat) {
    pc == TestPred(level) || pc == TestSucc(level) || pc == TestLink(level)
  }

  /** What a test can lead to. */
  ghost predicate Tested(s: State, s': State, t: nat, level: nat)
    requires Sized(s) && t < |s.threads| && level <= MAX_LEVEL
  {
    var th := s.threads[t];
    var failed := Marked(s, th.preds[level]) || (th.pc.TestSucc? && Marked(s, th.succs[level]))
                  || Next(s, th.preds[level], level) != Goal(th, level);
    || (failed && s' == Goto(s, t, th.(pc := Retry(0, level))))
    || (th.pc.TestPred? && s' == Goto(s, t, th.(pc := TestSucc(level))))
    || (!th.pc.TestLink? && s' == Goto(s, t, th.(pc := TestLink(level))))
    || (th.pc.TestLink? && level < th.top && s' == Goto(s, t, th.(pc := Lock(level + 1))))
    || (th.pc.TestLink? && level == th.top && s' == Validated(s, t, level))
  }

  lemma TestPc(s: State, s': State, t: nat, level: nat)
    requires Sized(s) && t < |s.threads| && Step(s, s', t) && level <= s.threads[t].top
    requires Tests(s.threads[t].pc, level)
    ensures level <= MAX_LEVEL && Tested(s, s', t, level)
  {
    hide Key, Next, Marked, Goal;
  }

  lemma TestedFalls(s: State, s': State, t: nat, level: nat)
    requires Sized(s) && Sized(s') && t < |s.threads| && level <= s.threads[t].top <= MAX_LEVEL
    requires Tests(s.threads[t].pc, level) && Tested(s, s', t, level)
    requires Fresh(s, s.threads[t]) ==> !Marked(s, s.threads[t].preds[level])
    requires Fresh(s, s.threads[t]) && s.threads[t].pc.TestSucc? ==> !Marked(s, s.threads[t].succs[level])
    requires Fresh(s, s.threads[t]) ==> Next(s, s.threads[t].preds[level], level) == Goal(s.threads[t], level)
    ensures |s'.threads| == |s.threads| && Work(s', s'.threads[t]) < Work(s, s.threads[t])
  {
    hide Fresh, Above, Work, Key, Next, Goal, Marked, Validated;
    if s.threads[t].pc.TestLink? && level == s.threads[t].top && s' == Validated(s, t, level) {
      LastFalls(s, s', t, level);
    } else {
      PcFalls(s, s', t, s'.threads[t].pc);
    }
  }

  lemma TestsAt(s: State, t: nat, level: nat)
    requires Inv(s) && t < |s.threads| && Tests(s.threads[t].pc, level)
    ensures OpOk(s.threads[t]) && level <= s.threads[t].top <= MAX_LEVEL && Climbing(s, s.threads[t], level, level + 1)
    ensures s.threads[t].pc.TestSucc? ==> s.threads[t].op.Add?
  {
    At(s, t);
    hide Inv, Searched;
  }

  lemma TestFalls(s: State, s': State, t: nat, level: nat)
    requires Inv(s) && Owned(s) && t < |s.threads| && Alone(s, t) && Step(s, s', t) && Sized(s')
    requires Tests(s.threads[t].pc, level)
    ensures |s'.threads| == |s.threads| && Work(s', s'.threads[t]) < Work(s, s.threads[t])
  {
    assert Sized(s);
    hide Inv, Step, Owned, Alone, Fresh, Climbing, Work, Key, Next, Goal, Tested;
    TestsAt(s, t, level);
    TestPc(s, s', t, level);
    if Fresh(s, s.threads[t]) { Validates(s, t, level); }
    TestedFalls(s, s', t, level);
  }

  lemma LastFalls(s: State, s': State, t: nat, level: nat)
    requires Sized(s) && Sized(s') && t < |s.threads| && s.threads[t].pc == TestLink(level)
    requires level == s.threads[t].top <= MAX_LEVEL && s' == Validated(s, t, level)
    ensures |s'.threads| == |s.threads| && Work(s', s'.threads[t]) < Work(s, s.threads[t])
  {
    hide Above, Fresh;
  }

  lemma LockFalls(s: State, s': State, t: nat)
    requires Inv(s) && Owned(s) && t < |s.threads| && Alone(s, t) && Step(s, s', t) && Sized(s')
    requires s.threads[t].pc.Lock? || s.threads[t].pc.Retry?
    ensures |s'.threads| == |s.threads| && Work(s', s'.threads[t]) < Work(s, s.threads[t])
  {
    var th := s.threads[t];
    At(s, t);
    if th.pc.Retry? && (th.pc.level > th.pc.high || th.pc.high > MAX_LEVEL) {
      hide Inv, Owned, Alone, ListsOk, NodeOk, Above;
      AgainFalls(s, s', th);
    } else {
      hide Inv, Owned, Alone, ListsOk, NodeOk, Above, Climbing, Owns, InAll;
      Onward(s, s', th, s'.threads[t]);
    }
  }

  predicate VictimNext(pc: Pc, next: Pc) {
    match pc
    case CheckLinked => next == CheckMarked
    case CheckMarked => next == LockVictim
    case LockVictim => next == TestVictim
    case _ => next == Mark
  }

  /** What a step around the victim can lead to, short of marking it. */
  lemma VictimPc(s: State, s': State, t: nat)
    requires Sized(s) && t < |s.threads| && Step(s, s', t) && VictimPhase(s.threads[t].pc) && !s.threads[t].pc.Mark?
    ensures |s'.threads| == |s.threads| && s'.nodes == s.nodes && s'.lists == s.lists
    ensures var th, th' := s.threads[t], s'.threads[t];
      && th'.preds == th.preds && th'.succs == th.succs && th'.node == th.node && th'.victim == th.victim
      && th'.isMarked == th.isMarked && (th'.pc == Idle || VictimNext(th.pc, th'.pc))
  {
    hide Key, Next, Linked, Marked, FindStep, Begin, Again, Free, Goal, Validated, SetNext, Found, Wanted;
  }

  lemma VictimWork(s: State, th: Thread, th': Thread)
    requires VictimPhase(th.pc) && !th.pc.Mark? && (th'.pc == Idle || VictimNext(th.pc, th'.pc))
    ensures PcWork(s, th') < PcWork(s, th) && (th'.pc == Idle || VictimPhase(th'.pc))
  {
    hide Above;
  }

  lemma MarkFalls(s: State, s': State, t: nat)
    requires Sized(s) && t < |s.threads| && Step(s, s', t) && Sized(s') && s.threads[t].pc == Mark
    ensures |s'.threads| == |s.threads| && Work(s', s'.threads[t]) < Work(s, s.threads[t])
  {
    assert forall u, l :: Next(s', u, l) == Next(s, u, l);
    hide Next, Above;
  }

  lemma VictimFalls(s: State, s': State, t: nat)
    requires Sized(s) && t < |s.threads| && Step(s, s', t) && Sized(s') && VictimPhase(s.threads[t].pc)
    ensures |s'.threads| == |s.threads| && Work(s', s'.threads[t]) < Work(s, s.threads[t])
  {
    if s.threads[t].pc == Mark {
      MarkFalls(s, s', t);
    } else {
      VictimPc(s, s', t);
      VictimWork(s, s.threads[t], s'.threads[t]);
      hide Step, PcWork, Work, VictimNext;
      Onward(s, s', s.threads[t], s'.threads[t]);
    }
  }

  lemma ChangeLevels(s: State, t: nat)
    requires Inv(s) && t < |s.threads| && ChangePhase(s.threads[t].pc)
    ensures var th := s.threads[t];
      && (th.pc.Link? ==> th.pc.level <= th.top + 1)
      && (th.pc.Unlock? ==> th.pc.level <= th.top + 1)
      && (th.pc.ReadNext? || th.pc.Unlink? ==> th.pc.level <= th.top)
  {
    At(s, t);
    hide Inv, Searched, ListsOk, NodeOk, Pinned, Owns;
  }

  predicate Changes(pc: Pc) {
    ChangePhase(pc) || pc.HasLinked? || pc.HasMarked?
  }

  /** The program counter after one of the steps that never lead back to a search. */
  predicate Follows(th: Thread, pc: Pc) {
    match th.pc
    case Link(level) => pc == if level <= th.top then Link(level + 1) else SetLinked
    case SetLinked => pc == Unlock(0)
    case ReadNext(level) => pc.Unlink? && pc.level == level
    case Unlink(level, _) => pc == if level > 0 then ReadNext(level - 1) else UnlockVictim
    case UnlockVictim => pc == Unlock(0)
    case Unlock(level) => pc == if level > th.top then Idle else Unlock(level + 1)
    case HasLinked => pc == HasMarked || pc == Idle
    case _ => pc == Idle
  }

  lemma SetNextThreads(s: State, u: nat, l: nat, v: nat)
    ensures SetNext(s, u, l, v).threads == s.threads
  {
  }

  lemma ChangePc(s: State, s': State, t: nat)
    requires Sized(s) && t < |s.threads| && Step(s, s', t) && |s'.threads| == |s.threads|
    requires Changes(s.threads[t].pc)
    ensures s'.threads[t].top == s.threads[t].top && Follows(s.threads[t], s'.threads[t].pc)
  {
    var th := s.threads[t];
    if th.pc.Link? && th.pc.level <= th.top { SetNextThreads(s, th.preds[th.pc.level], th.pc.level, th.node); }
    if th.pc.Unlink? { SetNextThreads(s, th.preds[th.pc.level], th.pc.level, th.pc.next); }
    hide SetNext, Key, Next, Linked, Marked, FindStep, Begin, Again, Wanted, Free, Goal, Validated;
  }

  lemma FollowFalls(s: State, s': State, th: Thread, th': Thread)
    requires Changes(th.pc) && Follows(th, th'.pc) && th'.top == th.top <= MAX_LEVEL
    requires th.pc.Link? || th.pc.Unlock? ==> th.pc.level <= th.top + 1
    requires th.pc.ReadNext? || th.pc.Unlink? ==> th.pc.level <= th.top
    ensures PcWork(s', th') < PcWork(s, th) && !Unsure(th.pc) && !Unsure(th'.pc)
  {
  }

  lemma ChangeFalls(s: State, s': State, t: nat)
    requires Inv(s) && t < |s.threads| && Step(s, s', t) && Sized(s') && Changes(s.threads[t].pc)
    ensures |s'.threads| == |s.threads| && Work(s', s'.threads[t]) < Work(s, s.threads[t])
  {
    assert Sized(s);
    OthersStay(s, s', t);
    ChangePc(s, s', t);
    if ChangePhase(s.threads[t].pc) { ChangeLevels(s, t); }
    hide Inv, Step, PcWork, Fresh, Follows, Unsure;
    FollowFalls(s, s', s.threads[t], s'.threads[t]);
  }

  /** Alone, every step of a call brings it nearer to its return. */
  lemma StepFalls(s: State, s': State, t: nat)
    requires Inv(s) && Owned(s) && t < |s.threads| && Alone(s, t) && Step(s, s', t) && Sized(s')
    requires s.threads[t].pc != Idle
    ensures |s'.threads| == |s.threads| && Work(s', s'.threads[t]) < Work(s, s.threads[t])
  {
    assert Sized(s);
    hide Inv, Owned, Alone, Step, Work;
    match s.threads[t].pc
    case Find(_, _) => FindFalls(s, s', t);
    case AddCheck => AddCheckFalls(s, s', t);
    case AddAwait => AwaitFalls(s, s', t);
    case Lock(_) => LockFalls(s, s', t);
    case Retry(_, _) => LockFalls(s, s', t);
    case TestPred(level) => TestFalls(s, s', t, level);
    case TestSucc(level) => TestFalls(s, s', t, level);
    case TestLink(level) => TestFalls(s, s', t, level);
    case CheckLinked => VictimFalls(s, s', t);
    case CheckMarked => VictimFalls(s, s', t);
    case LockVictim => VictimFalls(s, s', t);
    case TestVictim => VictimFalls(s, s', t);
    case Mark => VictimFalls(s, s', t);
    case _ => ChangeFalls(s, s', t);
  }

  lemma SearchCanStep(s: State, t: nat) returns (s': State)
    requires Inv(s) && t < |s.threads|
    requires !LockPhase(s.threads[t].pc) && !VictimPhase(s.threads[t].pc) && !ChangePhase(s.threads[t].pc)
    ensures Step(s, s', t)
  {
    var th := s.threads[t];
    At(s, t);
    hide Inv, ListsOk, NodeOk, Searched, Owns, InAll, FindStep, Again, Begin;
    match th.pc
    case Idle => s' := Goto(s, t, Begin(th, Contains(0)));
    case Find(level, pred) => s' := Goto(s, t, FindStep(s, th, level, pred));
    case AddCheck => s' := Goto(s, t, if Marked(s, th.succs[th.lFound]) then Again(th) else th.(pc := AddAwait));
    case AddAwait => s' := if Linked(s, th.succs[th.lFound]) then Goto(s, t, Return(th, false)) else s;
    case HasLinked =>
      s' := Goto(s, t, th.(pc := if Linked(s, th.succs[th.lFound]) then HasMarked else Idle, result := false));
    case HasMarked => s' := Goto(s, t, Return(th, !Marked(s, th.succs[th.lFound])));
  }

  lemma LockCanStep(s: State, t: nat) returns (s': State)
    requires Inv(s) && t < |s.threads| && LockPhase(s.threads[t].pc)
    requires Locking(s.threads[t]) ==> Free(s, t, Wanted(s.threads[t]))
    ensures Step(s, s', t)
  {
    var th := s.threads[t];
    At(s, t);
    hide Inv, ListsOk, NodeOk, Searched, Owns, InAll, Pinned, Bag, Key, Next;
    match th.pc
    case Lock(level) => s' := Goto(s, t, th.(pc := TestPred(level), holds := th.holds + multiset{Wanted(th)}));
    case TestPred(level) =>
      s' := Goto(s, t, th.(pc := if Marked(s, th.preds[level]) then Retry(0, level)
                                 else if th.op.Add? then TestSucc(level) else TestLink(level)));
    case TestSucc(level) =>
      s' := Goto(s, t, th.(pc := if Marked(s, th.succs[level]) then Retry(0, level) else TestLink(level)));
    case TestLink(level) =>
      s' := if Next(s, th.preds[level], level) == Goal(th, level)
            then Validated(s, t, level) else Goto(s, t, th.(pc := Retry(0, level)));
    case Retry(level, high) =>
      s' := Goto(s, t, if level > high || high > MAX_LEVEL then Again(th)
                       else th.(pc := Retry(level + 1, high), holds := th.holds - multiset{th.preds[level]}));
  }

  lemma VictimCanStep(s: State, t: nat) returns (s': State)
    requires Inv(s) && t < |s.threads| && VictimPhase(s.threads[t].pc)
    requires Locking(s.threads[t]) ==> Free(s, t, Wanted(s.threads[t]))
    ensures Step(s, s', t)
  {
    var th := s.threads[t];
    At(s, t);
    hide Inv, ListsOk, NodeOk, Searched, Key, Next;
    match th.pc
    case CheckLinked =>
      s' := Goto(s, t, th.(pc := if Linked(s, th.victim) && s.nodes[th.victim].Top() == th.lFound
                                 then CheckMarked else Idle, result := false));
    case CheckMarked =>
      s' := Goto(s, t, if Marked(s, th.victim) then Return(th, false) else th.(pc := LockVictim, top := th.lFound));
    case LockVictim => s' := Goto(s, t, th.(pc := TestVictim, holds := th.holds + multiset{Wanted(th)}));
    case TestVictim =>
      s' := Goto(s, t, if Marked(s, th.victim)
                       then Return(th, false).(holds := th.holds - multiset{th.victim}) else th.(pc := Mark));
    case Mark =>
      s' := Goto(s, t, th.(pc := Lock(0), isMarked := true, node := th.victim))
            .(nodes := s.nodes[th.victim := s.nodes[th.victim].(marked := true)]);
  }

  lemma LinkCanStep(s: State, t: nat) returns (s': State)
    requires Sized(s) && t < |s.threads| && s.threads[t].pc.Link?
    ensures Step(s, s', t)
  {
    var th, level := s.threads[t], s.threads[t].pc.level;
    if level <= th.top {
      SetNextThreads(s, th.preds[level], level, th.node);
      hide SetNext;
      s' := Goto(SetNext(s, th.preds[level], level, th.node), t, th.(pc := Link(level + 1)))
            .(lists := s.lists[level := s.lists[level] + {th.node}]);
    } else {
      s' := Goto(s, t, th.(pc := SetLinked));
    }
  }

  lemma UnlinkCanStep(s: State, t: nat) returns (s': State)
    requires Sized(s) && t < |s.threads| && s.threads[t].pc.Unlink? && s.threads[t].pc.level <= MAX_LEVEL
    ensures Step(s, s', t)
  {
    var th, level, next := s.threads[t], s.threads[t].pc.level, s.threads[t].pc.next;
    SetNextThreads(s, th.preds[level], level, next);
    hide SetNext;
    s' := Goto(SetNext(s, th.preds[level], level, next), t,
               th.(pc := if level > 0 then ReadNext(level - 1) else UnlockVictim))
          .(lists := s.lists[level := s.lists[level] - {th.victim}]);
  }

  lemma NodeAt(s: State, t: nat)
    requires Inv(s) && t < |s.threads| && s.threads[t].pc.SetLinked?
    ensures s.threads[t].node < |s.nodes|
  {
    At(s, t);
    hide Inv;
  }

  lemma UnlockCanStep(s: State, t: nat) returns (s': State)
    requires Sized(s) && t < |s.threads| && s.threads[t].pc.Unlock? && s.threads[t].pc.level <= MAX_LEVEL + 1
    ensures Step(s, s', t)
  {
    var th, level := s.threads[t], s.threads[t].pc.level;
    s' := Goto(s, t, if level > th.top then Return(th, true)
                     else th.(pc := Unlock(level + 1), holds := th.holds - multiset{th.preds[level]}));
  }

  lemma FlagCanStep(s: State, t: nat) returns (s': State)
    requires Sized(s) && t < |s.threads| && s.threads[t].pc.SetLinked? && s.threads[t].node < |s.nodes|
    ensures Step(s, s', t)
  {
    var th := s.threads[t];
    s' := Goto(s, t, th.(pc := Unlock(0)))
          .(nodes := s.nodes[th.node := s.nodes[th.node].(fullyLinked := true)]);
  }

  lemma ChangeCanStep(s: State, t: nat) returns (s': State)
    requires Inv(s) && t < |s.threads| && ChangePhase(s.threads[t].pc)
    ensures Step(s, s', t)
  {
    assert Sized(s);
    var th := s.threads[t];
    ChangeLevels(s, t);
    if th.pc == SetLinked { NodeAt(s, t); }
    hide Inv, Key, Next, SetNext;
    match th.pc
    case Link(_) => s' := LinkCanStep(s, t);
    case SetLinked => s' := FlagCanStep(s, t);
    case ReadNext(level) => s' := Goto(s, t, th.(pc := Unlink(level, Next(s, th.victim, level))));
    case Unlink(_, _) => s' := UnlinkCanStep(s, t);
    case UnlockVictim => s' := Goto(s, t, th.(pc := Unlock(0), holds := th.holds - multiset{th.victim}));
    case Unlock(_) => s' := UnlockCanStep(s, t);
  }

  /** An idle thread can begin any call. */
  lemma CallsBegin(tr: seq<State>, r: nat, t: nat, op: Op) returns (s': State)
    requires Run(tr) && r < |tr| && Sized(tr[r]) && t < |tr[r].threads| && tr[r].threads[t].pc == Idle
    requires INT64_MIN < op.x < INT64_MAX && (op.Add? ==> 1 <= op.top <= MAX_LEVEL)
    ensures Step(tr[r], s', t) && s'.nodes == tr[r].nodes && t < |s'.threads|
    ensures s'.threads[t].op == op && s'.threads[t].pc == Find(MAX_LEVEL, HEAD)
  {
    s' := Goto(tr[r], t, Begin(tr[r].threads[t], op));
  }

  /** Nothing but a mutex that another thread holds can stop a thread from taking its next step. */
  lemma CanStep(tr: seq<State>, r: nat, t: nat) returns (s': State)
    requires Run(tr) && r < |tr| && Sized(tr[r]) && t < |tr[r].threads|
    requires Locking(tr[r].threads[t]) ==> Free(tr[r], t, Wanted(tr[r].threads[t]))
    ensures Step(tr[r], s', t)
  {
    hide Inv, Step, Wanted, Free;
    RunInv(tr, r);
    var pc := tr[r].threads[t].pc;
    if LockPhase(pc) {
      s' := LockCanStep(tr[r], t);
    } else if VictimPhase(pc) {
      s' := VictimCanStep(tr[r], t);
    } else if ChangePhase(pc) {
      s' := ChangeCanStep(tr[r], t);
    } else {
      s' := SearchCanStep(tr[r], t);
    }
  }

  lemma AloneIsFree(s: State, t: nat, p: nat)
    requires Inv(s) && t < |s.threads| && Alone(s, t)
    ensures Free(s, t, p)
  {
    forall u | 0 <= u < |s.threads| && u != t ensures p !in s.threads[u].holds { At(s, u); }
  }

  /** A call that has the list to itself returns within a number of steps that depends on the number of
      nodes alone: two searches at most, one of them begun before it was alone. */
  lemma {:induction false} AloneReturns(tr: seq<State>, a: nat, b: nat, t: nat)
    requires Run(tr) && a <= b < |tr| && t < |tr[a].threads|
    requires forall i :: a <= i <= b ==> |tr[i].threads| == |tr[a].threads| && Alone(tr[i], t)
    requires forall i :: a <= i < b ==> tr[i].threads[t].pc != Idle
    ensures Inv(tr[a]) && Inv(tr[b]) && b - a + Work(tr[b], tr[b].threads[t]) <= Work(tr[a], tr[a].threads[t])
    ensures b - a <= 2 * |tr[a].nodes| + 320
    decreases b
  {
    hide Inv, Step, Work;
    RunOwned(tr, a);
    RunOwned(tr, b);
    WorkBounds(tr[a], t);
    WorkBounds(tr[b], t);
    if a < b {
      RunOwned(tr, b - 1);
      AloneReturns(tr, a, b - 1, t);
      assert Moves(tr[b - 1], tr[b - 1 + 1]);
      var u: nat :| u < |tr[b - 1].threads| && Step(tr[b - 1], tr[b], u);
      if u == t {
        StepFalls(tr[b - 1], tr[b], t);
      } else {
        BeginShows(tr[b - 1], tr[b], u);
      }
    }
  }

  /** A thread outside a call cannot take a step without beginning one. */
  lemma BeginShows(s: State, s': State, u: nat)
    requires Sized(s) && u < |s.threads| && Step(s, s', u) && s.threads[u].pc == Idle
    ensures u < |s'.threads| && s'.threads[u].pc != Idle
  {
  }
}
