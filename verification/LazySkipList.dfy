/** The lazy skip list of LazySkipList.h, as steps over any number of threads.

    Each read or write of a shared field, and each lock or unlock, is one step. Node 0 is `head`
    and node 1 is `tail`. A recursive mutex is modelled by what each thread holds: `holds[p]` is
    how often the thread has locked p. `lists` is history: lists[l] are the nodes linked at
    level l. `node` is the node being added, or (as history) the one this call has marked. */
module LazySkipList {
  import opened Counting

  const MAX_LEVEL: nat := 15
  const INT64_MIN := -0x8000_0000_0000_0000
  const INT64_MAX := 0x7fff_ffff_ffff_ffff
  const HEAD: nat := 0
  const TAIL: nat := 1

  datatype Node = Node(key: int, next: seq<nat>, marked: bool, fullyLinked: bool) {
    function Top(): int { |next| - 1 }
  }

  datatype Op = Add(x: int, top: nat) | Remove(x: int) | Contains(x: int)

  datatype Pc =
    | Idle
    | Find(level: nat, pred: nat)
    | AddCheck                        // nodeFound->marked ?
    | AddAwait                        // while(!nodeFound->fullyLinked)
    | Lock(level: nat)
    | TestPred(level: nat)
    | TestSucc(level: nat)            // only add looks at the successor
    | TestLink(level: nat)
    | Retry(level: nat, high: nat)    // unlock after a failed validation, then search again
    | Link(level: nat)
    | SetLinked
    | CheckLinked                     // victim->fullyLinked ?
    | CheckMarked                     // !victim->marked ?
    | LockVictim
    | TestVictim
    | Mark
    | ReadNext(level: nat)
    | Unlink(level: nat, next: nat)
    | UnlockVictim
    | Unlock(level: nat)
    | HasLinked
    | HasMarked

  datatype Thread = Thread(pc: Pc, op: Op, preds: seq<nat>, succs: seq<nat>, lFound: int,
                           victim: nat, isMarked: bool, top: nat, node: nat,
                           holds: multiset<nat>, result: bool)

  datatype State = State(nodes: seq<Node>, threads: seq<Thread>, lists: seq<set<nat>>)

  // ----- reading and writing nodes -----

  function Key(s: State, u: nat): int {
    if u < |s.nodes| then s.nodes[u].key else 0
  }

  function Next(s: State, u: nat, l: nat): nat {
    if u < |s.nodes| && l < |s.nodes[u].next| then s.nodes[u].next[l] else TAIL
  }

  predicate Marked(s: State, u: nat) { u < |s.nodes| && s.nodes[u].marked }

  predicate Linked(s: State, u: nat) { u < |s.nodes| && s.nodes[u].fullyLinked }

  function SetNext(s: State, u: nat, l: nat, v: nat): State {
    if u < |s.nodes| && l < |s.nodes[u].next|
    then s.(nodes := s.nodes[u := s.nodes[u].(next := s.nodes[u].next[l := v])]) else s
  }

  // ----- steps -----

  ghost predicate Sized(s: State) {
    && |s.nodes| >= 2 && |s.lists| == MAX_LEVEL + 1
    && forall t :: 0 <= t < |s.threads| ==>
         |s.threads[t].preds| == |s.threads[t].succs| == MAX_LEVEL + 1
         && s.threads[t].lFound <= MAX_LEVEL && s.threads[t].top <= MAX_LEVEL
  }

  function Goto(s: State, t: nat, th: Thread): State
    requires t < |s.threads|
  {
    s.(threads := s.threads[t := th])
  }

  function Begin(th: Thread, op: Op): Thread {
    th.(pc := Find(MAX_LEVEL, HEAD), op := op, lFound := -1, isMarked := false,
        top := if op.Add? && op.top <= MAX_LEVEL then op.top else 0)
  }

  function Return(th: Thread, result: bool): Thread {
    th.(pc := Idle, result := result)
  }

  function Again(th: Thread): Thread {
    th.(pc := Find(MAX_LEVEL, HEAD), lFound := -1)
  }

  /** What an operation does once its search has filled preds and succs. */
  function Found(th: Thread): Thread
    requires |th.succs| == MAX_LEVEL + 1 && th.lFound <= MAX_LEVEL
  {
    match th.op
    case Add(_, _) => th.(pc := if th.lFound >= 0 then AddCheck else Lock(0))
    case Remove(_) =>
      th.(victim := if th.lFound >= 0 then th.succs[th.lFound] else th.victim,
          pc := if th.isMarked then Lock(0) else if th.lFound >= 0 then CheckLinked else Idle, result := false)
    case Contains(_) => th.(pc := if th.lFound >= 0 then HasLinked else Idle, result := false)
  }

  /** One turn of the loops of find: curr = pred->next[level]. */
  function FindStep(s: State, th: Thread, level: nat, pred: nat): Thread
    requires |th.preds| == |th.succs| == MAX_LEVEL + 1 && level <= MAX_LEVEL && th.lFound <= MAX_LEVEL
  {
    var curr := Next(s, pred, level);
    if th.op.x > Key(s, curr) then th.(pc := Find(level, curr))
    else
      var th' := th.(preds := th.preds[level := pred], succs := th.succs[level := curr],
                     lFound := if th.lFound == -1 && th.op.x == Key(s, curr) then level else th.lFound);
      if level > 0 then th'.(pc := Find(level - 1, pred)) else Found(th')
  }

  /** The node whose mutex the thread is about to lock. */
  function Wanted(th: Thread): nat
    requires |th.preds| == MAX_LEVEL + 1
  {
    match th.pc
    case Lock(level) => if level <= MAX_LEVEL then th.preds[level] else HEAD
    case _ => th.victim
  }

  predicate Locking(th: Thread) { th.pc.Lock? || th.pc.LockVictim? }

  ghost predicate Free(s: State, t: nat, p: nat) {
    forall u :: 0 <= u < |s.threads| && u != t ==> p !in s.threads[u].holds
  }

  /** After validating level: on to the next one, or to the physical change. */
  function Validated(s: State, t: nat, level: nat): State
    requires Sized(s) && t < |s.threads|
  {
    var th := s.threads[t];
    if level < th.top then Goto(s, t, th.(pc := Lock(level + 1)))
    else if th.op.Add? then
      Goto(s, t, th.(pc := Link(0), node := |s.nodes|))
      .(nodes := s.nodes + [Node(th.op.x, th.succs[..th.top + 1], false, false)])
    else Goto(s, t, th.(pc := ReadNext(th.top)))
  }

  ghost predicate Step(s: State, s': State, t: nat)
    requires Sized(s) && t < |s.threads|
  {
    var th := s.threads[t];
    match th.pc
    case Idle =>
      exists op: Op :: INT64_MIN < op.x < INT64_MAX && (op.Add? ==> 1 <= op.top <= MAX_LEVEL) &&
        s' == Goto(s, t, Begin(th, op))
    case Find(level, pred) => level <= MAX_LEVEL && s' == Goto(s, t, FindStep(s, th, level, pred))
    case AddCheck =>
      th.lFound >= 0 &&
      s' == Goto(s, t, if Marked(s, th.succs[th.lFound]) then Again(th) else th.(pc := AddAwait))
    case AddAwait =>
      th.lFound >= 0 &&
      s' == if Linked(s, th.succs[th.lFound]) then Goto(s, t, Return(th, false)) else s
    case Lock(level) =>
      level <= MAX_LEVEL && Free(s, t, Wanted(th)) &&
      s' == Goto(s, t, th.(pc := TestPred(level), holds := th.holds + multiset{Wanted(th)}))
    case TestPred(level) =>
      level <= MAX_LEVEL &&
      s' == Goto(s, t, th.(pc := if Marked(s, th.preds[level]) then Retry(0, level)
                                 else if th.op.Add? then TestSucc(level) else TestLink(level)))
    case TestSucc(level) =>
      level <= MAX_LEVEL &&
      s' == Goto(s, t, th.(pc := if Marked(s, th.succs[level]) then Retry(0, level) else TestLink(level)))
    case TestLink(level) =>
      level <= MAX_LEVEL &&
      s' == (if Next(s, th.preds[level], level) == Goal(th, level)
             then Validated(s, t, level) else Goto(s, t, th.(pc := Retry(0, level))))
    case Retry(level, high) =>
      s' == Goto(s, t, if level > high || high > MAX_LEVEL then Again(th)
                       else th.(pc := Retry(level + 1, high), holds := th.holds - multiset{th.preds[level]}))
    case Link(level) =>
      s' == if level <= th.top
            then Goto(SetNext(s, th.preds[level], level, th.node), t, th.(pc := Link(level + 1)))
                 .(lists := s.lists[level := s.lists[level] + {th.node}])
            else Goto(s, t, th.(pc := SetLinked))
    case SetLinked =>
      th.node < |s.nodes| &&
      s' == Goto(s, t, th.(pc := Unlock(0)))
            .(nodes := s.nodes[th.node := s.nodes[th.node].(fullyLinked := true)])
    case CheckLinked =>
      s' == Goto(s, t, th.(pc := if Linked(s, th.victim) && s.nodes[th.victim].Top() == th.lFound
                                 then CheckMarked else Idle, result := false))
    case CheckMarked =>
      th.lFound >= 0 &&
      s' == Goto(s, t, if Marked(s, th.victim) then Return(th, false) else th.(pc := LockVictim, top := th.lFound))
    case LockVictim =>
      Free(s, t, Wanted(th)) &&
      s' == Goto(s, t, th.(pc := TestVictim, holds := th.holds + multiset{Wanted(th)}))
    case TestVictim =>
      s' == Goto(s, t, if Marked(s, th.victim)
                       then Return(th, false).(holds := th.holds - multiset{th.victim}) else th.(pc := Mark))
    case Mark =>
      th.victim < |s.nodes| &&
      s' == Goto(s, t, th.(pc := Lock(0), isMarked := true, node := th.victim))
            .(nodes := s.nodes[th.victim := s.nodes[th.victim].(marked := true)])
    case ReadNext(level) =>
      s' == Goto(s, t, th.(pc := Unlink(level, Next(s, th.victim, level))))
    case Unlink(level, next) =>
      level <= MAX_LEVEL &&
      s' == Goto(SetNext(s, th.preds[level], level, next), t,
                 th.(pc := if level > 0 then ReadNext(level - 1) else UnlockVictim))
            .(lists := s.lists[level := s.lists[level] - {th.victim}])
    case UnlockVictim =>
      s' == Goto(s, t, th.(pc := Unlock(0), holds := th.holds - multiset{th.victim}))
    case Unlock(level) =>
      s' == Goto(s, t, if level > th.top then Return(th, true)
                       else th.(pc := Unlock(level + 1), holds := th.holds - multiset{th.preds[level]}))
    case HasLinked =>
      th.lFound >= 0 &&
      s' == Goto(s, t, th.(pc := if Linked(s, th.succs[th.lFound]) then HasMarked else Idle, result := false))
    case HasMarked =>
      th.lFound >= 0 && s' == Goto(s, t, Return(th, !Marked(s, th.succs[th.lFound])))
  }

  // ----- the shape of the lists -----

  /** u has level l, and is linked there unless somebody has marked it. */
  predicate Known(s: State, u: nat, l: nat)
    requires Sized(s)
  {
    u < |s.nodes| && u != TAIL && l <= s.nodes[u].Top() <= MAX_LEVEL && (u in s.lists[l] || Marked(s, u))
  }

  predicate Target(s: State, v: nat, l: nat)
    requires Sized(s)
  {
    v == TAIL || Known(s, v, l)
  }

  /** Every pointer at level l leads to a node of level l with a larger key. */
  ghost predicate PtrOk(s: State, u: nat, l: nat)
    requires Sized(s) && u < |s.nodes|
  {
    l <= s.nodes[u].Top() ==> Target(s, Next(s, u, l), l) && Key(s, u) < Key(s, Next(s, u, l))
  }

  ghost predicate NodeOk(s: State, u: nat)
    requires Sized(s) && u < |s.nodes|
  {
    var n := s.nodes[u];
    && 0 <= n.Top() <= MAX_LEVEL
    && (u == HEAD ==> n.key == INT64_MIN && n.Top() == MAX_LEVEL)
    && (u == TAIL ==> n.key == INT64_MAX && n.Top() == MAX_LEVEL)
    && (u != HEAD && u != TAIL ==> INT64_MIN < n.key < INT64_MAX)
    && (u == HEAD || u == TAIL ==> !n.marked && !n.fullyLinked)
    && (n.marked ==> n.fullyLinked)
    && (u != TAIL ==> forall l: nat :: PtrOk(s, u, l))
    && (n.fullyLinked ==> forall l: nat :: l <= n.Top() ==> Known(s, u, l))
  }

  /** In the list of level l, nothing lies between u and its successor. */
  ghost predicate LinkOk(s: State, l: nat, u: nat, w: nat)
    requires Sized(s) && l <= MAX_LEVEL
  {
    u in s.lists[l] && w in s.lists[l] ==>
      && (Key(s, w) <= Key(s, u) || Key(s, Next(s, u, l)) <= Key(s, w))
      && (Key(s, w) == Key(s, u) ==> w == u)
  }

  ghost predicate MemberOk(s: State, l: nat, u: nat)
    requires Sized(s) && l <= MAX_LEVEL
  {
    u in s.lists[l] ==>
      && u < |s.nodes| && u != TAIL && l <= s.nodes[u].Top()
      && (Next(s, u, l) == TAIL || Next(s, u, l) in s.lists[l])
      && (l > 0 ==> u in s.lists[l - 1])
  }

  ghost predicate ListsOk(s: State)
    requires Sized(s)
  {
    && (forall l: nat :: l <= MAX_LEVEL ==> HEAD in s.lists[l])
    && (forall l: nat, u: nat :: l <= MAX_LEVEL ==> MemberOk(s, l, u))
    && (forall l: nat, u: nat, w: nat :: l <= MAX_LEVEL ==> LinkOk(s, l, u, w))
  }

  // ----- what a thread knows -----

  /** The search has recorded level j. */
  ghost predicate RecOk(s: State, th: Thread, j: nat)
    requires Sized(s) && j < |th.preds| == |th.succs|
  {
    && Known(s, th.preds[j], j) && Key(s, th.preds[j]) < th.op.x
    && Target(s, th.succs[j], j) && th.op.x <= Key(s, th.succs[j])
    && (th.lFound == -1 ==> th.op.x < Key(s, th.succs[j]))
  }

  /** The predecessors of lower levels lie further to the right. */
  predicate Before(s: State, u: nat, v: nat) {
    u == v || Key(s, u) < Key(s, v)
  }

  ghost predicate Searched(s: State, th: Thread, from: nat)
    requires Sized(s) && |th.preds| == |th.succs| == MAX_LEVEL + 1
  {
    && (forall j: nat :: from <= j <= MAX_LEVEL ==> RecOk(s, th, j))
    && (forall i: nat, j: nat :: from <= i <= j <= MAX_LEVEL ==> Before(s, th.preds[j], th.preds[i]))
    && -1 <= th.lFound <= MAX_LEVEL
    && (th.lFound >= 0 ==> from <= th.lFound && Key(s, th.succs[th.lFound]) == th.op.x)
  }

  /** preds[l] cannot change or be marked, and points to v. */
  ghost predicate Pinned(s: State, th: Thread, l: nat, v: nat)
    requires Sized(s) && l < |th.preds|
  {
    !Marked(s, th.preds[l]) && Next(s, th.preds[l], l) == v
  }

  /** The node that this call to remove has marked, and still holds. */
  ghost predicate Owns(s: State, th: Thread)
    requires Sized(s)
  {
    && th.node < |s.nodes| && Marked(s, th.node) && Key(s, th.node) == th.op.x
    && th.top == s.nodes[th.node].Top() <= MAX_LEVEL && th.node in th.holds && th.victim < |s.nodes|
    && Key(s, th.victim) == th.op.x
  }

  /** The marked node is still linked on all its levels. */
  ghost predicate InAll(s: State, th: Thread)
    requires Sized(s)
  {
    th.top <= MAX_LEVEL && forall l: nat :: l <= th.top ==> th.node in s.lists[l]
  }

  function Own(th: Thread): multiset<nat> {
    if th.isMarked then multiset{th.node} else multiset{}
  }

  /** The predecessors of levels a to b - 1, as often as they occur. */
  function Bag(preds: seq<nat>, a: nat, b: nat): multiset<nat> {
    if a <= b <= |preds| then multiset(preds[a..b]) else multiset{}
  }

  /** What the predecessor at level l must point to. */
  function Goal(th: Thread, l: nat): nat
    requires l < |th.succs|
  {
    if th.op.Add? then th.succs[l] else th.victim
  }

  /** What it points to once the new node is linked at the levels below k. */
  function Side(th: Thread, k: nat, l: nat): nat
    requires l < |th.succs|
  {
    if l < k then th.node else th.succs[l]
  }

  /** Locks of levels below k, all validated. */
  ghost predicate Climbing(s: State, th: Thread, k: nat, locked: nat)
    requires Sized(s) && |th.preds| == |th.succs| == MAX_LEVEL + 1
  {
    && k <= locked <= th.top + 1 <= MAX_LEVEL + 1 && Searched(s, th, 0)
    && th.holds == Bag(th.preds, 0, locked) + Own(th)
    && (if th.op.Add? then
          !th.isMarked && th.lFound == -1
        else
          && th.op.Remove? && th.isMarked && Owns(s, th) && InAll(s, th)
          && (k > 0 ==> th.victim == th.node))
    && forall l: nat :: l < k ==> Pinned(s, th, l, Goal(th, l))
  }

  ghost predicate Adding(s: State, th: Thread, k: nat)
    requires Sized(s) && |th.preds| == |th.succs| == MAX_LEVEL + 1
  {
    && th.op.Add? && !th.isMarked && th.lFound == -1 && k <= th.top + 1 <= MAX_LEVEL + 1 && Searched(s, th, 0)
    && th.holds == Bag(th.preds, 0, th.top + 1)
    && 1 < th.node < |s.nodes| && !Marked(s, th.node) && !Linked(s, th.node)
    && Key(s, th.node) == th.op.x && s.nodes[th.node].Top() == th.top
    && (forall l: nat :: l <= MAX_LEVEL ==> (th.node in s.lists[l] <==> l < k))
    && (forall l: nat :: k <= l <= th.top ==> Next(s, th.node, l) == th.succs[l])
    && (forall l: nat :: l <= th.top ==> Pinned(s, th, l, Side(th, k, l)))
  }

  ghost predicate Removing(s: State, th: Thread, k: int)
    requires Sized(s) && |th.preds| == |th.succs| == MAX_LEVEL + 1
  {
    && th.op.Remove? && th.isMarked && Owns(s, th) && th.victim == th.node && -1 <= k <= th.top <= MAX_LEVEL
    && Searched(s, th, 0)
    && th.holds == Bag(th.preds, 0, th.top + 1) + multiset{th.node}
    && (forall l: nat :: l <= th.top ==> (th.node in s.lists[l] <==> l <= k))
    && (forall l: nat :: l <= k ==> Pinned(s, th, l, th.node))
  }

  ghost predicate Victim(s: State, th: Thread)
    requires Sized(s) && |th.preds| == |th.succs| == MAX_LEVEL + 1
  {
    && th.op.Remove? && !th.isMarked && Searched(s, th, 0) && th.lFound >= 0
    && th.victim < |s.nodes| && Key(s, th.victim) == th.op.x
  }

  ghost predicate SearchOk(s: State, th: Thread)
    requires Sized(s) && |th.preds| == |th.succs| == MAX_LEVEL + 1
  {
    match th.pc
    case Find(level, pred) =>
      && level <= MAX_LEVEL && Known(s, pred, level) && Key(s, pred) < th.op.x
      && Searched(s, th, level + 1) && (forall j: nat :: level < j <= MAX_LEVEL ==> Before(s, th.preds[j], pred))
      && th.holds == Own(th)
      && (th.isMarked ==> th.op.Remove? && Owns(s, th) && InAll(s, th))
    case AddCheck => Searched(s, th, 0) && th.lFound >= 0 && th.op.Add? && !th.isMarked && th.holds == multiset{}
    case AddAwait => Searched(s, th, 0) && th.lFound >= 0 && th.op.Add? && !th.isMarked && th.holds == multiset{}
    case HasLinked => Searched(s, th, 0) && th.op.Contains? && th.lFound >= 0 && th.holds == multiset{}
    case HasMarked =>
      Searched(s, th, 0) && th.op.Contains? && th.lFound >= 0 && th.holds == multiset{}
      && Linked(s, th.succs[th.lFound])
    case _ => th.holds == multiset{}
  }

  predicate LockPhase(pc: Pc) { pc.Lock? || pc.TestPred? || pc.TestSucc? || pc.TestLink? || pc.Retry? }

  ghost predicate LockOk(s: State, th: Thread)
    requires Sized(s) && |th.preds| == |th.succs| == MAX_LEVEL + 1
  {
    match th.pc
    case Lock(level) => level <= th.top && Climbing(s, th, level, level)
    case TestPred(level) => level <= th.top && Climbing(s, th, level, level + 1)
    case TestSucc(level) =>
      level <= th.top && th.op.Add? && Climbing(s, th, level, level + 1) && !Marked(s, th.preds[level])
    case TestLink(level) => level <= th.top && Climbing(s, th, level, level + 1) && !Marked(s, th.preds[level])
    case Retry(level, high) =>
      && level <= high + 1 && high <= th.top <= MAX_LEVEL && !th.op.Contains?
      && th.holds == Bag(th.preds, level, high + 1) + Own(th)
      && (if th.op.Add? then !th.isMarked else th.isMarked && Owns(s, th) && InAll(s, th))
    case _ => true
  }

  predicate VictimPhase(pc: Pc) {
    pc.CheckLinked? || pc.CheckMarked? || pc.LockVictim? || pc.TestVictim? || pc.Mark?
  }

  ghost predicate VictimOk(s: State, th: Thread)
    requires Sized(s) && |th.preds| == |th.succs| == MAX_LEVEL + 1
  {
    && Victim(s, th)
    && th.holds == (if th.pc.TestVictim? || th.pc.Mark? then multiset{th.victim} else multiset{})
    && (!th.pc.CheckLinked? ==> Linked(s, th.victim) && s.nodes[th.victim].Top() == th.lFound)
    && (!th.pc.CheckLinked? && !th.pc.CheckMarked? ==> th.lFound == th.top)
    && (th.pc.Mark? ==> !Marked(s, th.victim))
  }

  predicate ChangePhase(pc: Pc) {
    pc.Link? || pc.SetLinked? || pc.ReadNext? || pc.Unlink? || pc.UnlockVictim? || pc.Unlock?
  }

  ghost predicate ChangeOk(s: State, th: Thread)
    requires Sized(s) && |th.preds| == |th.succs| == MAX_LEVEL + 1
  {
    match th.pc
    case Link(level) => Adding(s, th, level)
    case SetLinked => Adding(s, th, th.top + 1)
    case ReadNext(level) => level <= th.top && Removing(s, th, level)
    case Unlink(level, next) => level <= th.top && Removing(s, th, level) && next == Next(s, th.node, level)
    case UnlockVictim => Removing(s, th, -1)
    case Unlock(level) =>
      && level <= th.top + 1 <= MAX_LEVEL + 1 && th.holds == Bag(th.preds, level, th.top + 1)
      && (th.isMarked ==> Marked(s, th.node))
    case _ => true
  }

  predicate OpOk(th: Thread) {
    INT64_MIN < th.op.x < INT64_MAX && (th.op.Add? ==> 1 <= th.top == th.op.top <= MAX_LEVEL)
  }

  ghost predicate ThreadOk(s: State, th: Thread)
    requires Sized(s) && |th.preds| == |th.succs| == MAX_LEVEL + 1
  {
    && (th.pc != Idle ==> OpOk(th))
    && if LockPhase(th.pc) then LockOk(s, th)
       else if VictimPhase(th.pc) then VictimOk(s, th)
       else if ChangePhase(th.pc) then ChangeOk(s, th)
       else SearchOk(s, th)
  }

  predicate IsAdding(th: Thread) { th.pc.Link? || th.pc.SetLinked? }

  /** No mutex is held by two threads, and no two calls add the same node. */
  ghost predicate Apart(a: Thread, b: Thread) {
    && (forall p :: p in a.holds ==> p !in b.holds)
    && (IsAdding(a) && IsAdding(b) ==> a.node != b.node)
  }

  ghost predicate HoldsOk(s: State, th: Thread) {
    forall p :: p in th.holds ==> p < |s.nodes|
  }

  ghost predicate Inv(s: State) {
    && Sized(s) && ListsOk(s)
    && (forall u: nat :: u < |s.nodes| ==> NodeOk(s, u))
    && (forall t: nat :: t < |s.threads| ==> ThreadOk(s, s.threads[t]) && HoldsOk(s, s.threads[t]))
    && (forall t: nat, u: nat :: t < |s.threads| && u < |s.threads| && t != u ==> Apart(s.threads[t], s.threads[u]))
  }

  // ----- other threads keep what they know -----

  /** Nothing that thread th relies on is different in s'. */
  ghost predicate Stable(s: State, s': State, th: Thread)
    requires Sized(s) && Sized(s')
  {
    && |s.nodes| <= |s'.nodes|
    && (forall u: nat :: u < |s.nodes| ==> Kept(s, s', u))
    && (forall u: nat, l: nat :: Known(s, u, l) ==> Known(s', u, l))
    && (forall p :: p in th.holds ==> SameNode(s, s', p))
    && (th.isMarked && th.node in th.holds ==>
          forall l: nat :: l <= MAX_LEVEL ==> (th.node in s.lists[l] <==> th.node in s'.lists[l]))
    && (IsAdding(th) ==>
          && Marked(s, th.node) == Marked(s', th.node) && Linked(s, th.node) == Linked(s', th.node)
          && forall l: nat :: l <= MAX_LEVEL ==>
               && (th.node in s.lists[l] <==> th.node in s'.lists[l])
               && (th.node !in s.lists[l] ==> Next(s', th.node, l) == Next(s, th.node, l)))
  }

  ghost predicate Kept(s: State, s': State, u: nat) {
    u < |s.nodes| ==>
    && u < |s'.nodes|
    && s'.nodes[u].key == s.nodes[u].key && s'.nodes[u].Top() == s.nodes[u].Top()
    && (s.nodes[u].marked ==> s'.nodes[u].marked) && (s.nodes[u].fullyLinked ==> s'.nodes[u].fullyLinked)
  }

  ghost predicate SameNode(s: State, s': State, p: nat) {
    Marked(s, p) == Marked(s', p) && forall l: nat :: Next(s, p, l) == Next(s', p, l)
  }

  lemma SearchedStable(s: State, s': State, th: Thread, from: nat)
    requires Sized(s) && Sized(s') && |th.preds| == |th.succs| == MAX_LEVEL + 1
    requires Stable(s, s', th) && Searched(s, th, from) && TAIL < |s.nodes|
    ensures Searched(s', th, from)
  {
    forall j: nat | from <= j <= MAX_LEVEL ensures RecOk(s', th, j) && Kept(s, s', th.preds[j]) {
      assert RecOk(s, th, j);
      assert Kept(s, s', th.preds[j]) && Kept(s, s', th.succs[j]);
    }
    forall i: nat, j: nat | from <= i <= j <= MAX_LEVEL ensures Before(s', th.preds[j], th.preds[i]) {
      assert Before(s, th.preds[j], th.preds[i]) && RecOk(s, th, i) && RecOk(s, th, j);
    }
    if th.lFound >= 0 { assert RecOk(s, th, th.lFound) && Kept(s, s', th.succs[th.lFound]); }
  }

  lemma PinnedStable(s: State, s': State, th: Thread, l: nat, v: nat)
    requires Sized(s) && Sized(s') && l < |th.preds| && Stable(s, s', th)
    requires Pinned(s, th, l, v) && th.preds[l] in th.holds
    ensures Pinned(s', th, l, v)
  {
    assert SameNode(s, s', th.preds[l]);
  }

  lemma Held(th: Thread, from: nat, k: nat, rest: multiset<nat>, l: nat)
    requires from <= l < k <= |th.preds| && th.holds == Bag(th.preds, from, k) + rest
    ensures th.preds[l] in th.holds
  {
    assert th.preds[from..k][l - from] == th.preds[l];
  }

  lemma ClimbingStable(s: State, s': State, th: Thread, k: nat, locked: nat)
    requires Sized(s) && Sized(s') && |th.preds| == |th.succs| == MAX_LEVEL + 1
    requires Stable(s, s', th) && Climbing(s, th, k, locked)
    ensures Climbing(s', th, k, locked)
  {
    hide Searched, Known, Bag;
    SearchedStable(s, s', th, 0);
    forall l: nat | l < k ensures Pinned(s', th, l, Goal(th, l)) {
      Held(th, 0, locked, Own(th), l);
      PinnedStable(s, s', th, l, Goal(th, l));
    }
    if !th.op.Add? { OwnsStable(s, s', th); }
  }

  lemma OwnsStable(s: State, s': State, th: Thread)
    requires Sized(s) && Sized(s') && Stable(s, s', th) && Owns(s, th)
    ensures Owns(s', th) && (th.isMarked && InAll(s, th) ==> InAll(s', th))
  {
    assert Kept(s, s', th.node) && Kept(s, s', th.victim);
  }

  lemma AddingStable(s: State, s': State, th: Thread, k: nat)
    requires Sized(s) && Sized(s') && |th.preds| == |th.succs| == MAX_LEVEL + 1
    requires Stable(s, s', th) && Adding(s, th, k) && IsAdding(th)
    ensures Adding(s', th, k)
  {
    hide Searched, Known, Bag;
    SearchedStable(s, s', th, 0);
    assert Kept(s, s', th.node);
    forall l: nat | l <= th.top ensures Pinned(s', th, l, Side(th, k, l)) {
      Held(th, 0, th.top + 1, multiset{}, l);
      PinnedStable(s, s', th, l, Side(th, k, l));
    }
  }

  lemma RemovingStable(s: State, s': State, th: Thread, k: int)
    requires Sized(s) && Sized(s') && |th.preds| == |th.succs| == MAX_LEVEL + 1
    requires Stable(s, s', th) && Removing(s, th, k)
    ensures Removing(s', th, k) && SameNode(s, s', th.node)
  {
    hide Searched, Known, Bag;
    SearchedStable(s, s', th, 0);
    OwnsStable(s, s', th);
    forall l: nat | l <= k ensures Pinned(s', th, l, th.node) {
      Held(th, 0, th.top + 1, multiset{th.node}, l);
      PinnedStable(s, s', th, l, th.node);
    }
  }

  lemma VictimStable(s: State, s': State, th: Thread)
    requires Sized(s) && Sized(s') && |th.preds| == |th.succs| == MAX_LEVEL + 1
    requires Stable(s, s', th) && Victim(s, th)
    ensures Victim(s', th) && Kept(s, s', th.victim)
    ensures th.victim in th.holds ==> SameNode(s, s', th.victim)
  {
    hide Searched, Known;
    SearchedStable(s, s', th, 0);
    assert Kept(s, s', th.victim);
  }

  lemma FindStable(s: State, s': State, th: Thread, level: nat, pred: nat)
    requires Sized(s) && Sized(s') && |th.preds| == |th.succs| == MAX_LEVEL + 1
    requires Stable(s, s', th) && ThreadOk(s, th) && th.pc == Find(level, pred)
    ensures ThreadOk(s', th)
  {
    SearchedStable(s, s', th, level + 1);
    assert Kept(s, s', pred);
    if th.isMarked { OwnsStable(s, s', th); }
    forall j: nat | level < j <= MAX_LEVEL ensures Before(s', th.preds[j], pred) {
      assert Before(s, th.preds[j], pred);
      SearchedKept(s, s', th, level + 1, j);
    }
  }

  lemma LockStable(s: State, s': State, th: Thread)
    requires Sized(s) && Sized(s') && |th.preds| == |th.succs| == MAX_LEVEL + 1
    requires Stable(s, s', th) && LockOk(s, th)
    ensures LockOk(s', th)
  {
    hide Stable, Climbing, Owns, InAll;
    match th.pc
    case Lock(level) => ClimbingStable(s, s', th, level, level);
    case TestPred(level) => ClimbingStable(s, s', th, level, level + 1);
    case TestSucc(level) =>
      ClimbingStable(s, s', th, level, level + 1);
      ClimbingHolds(s, s', th, level);
    case TestLink(level) =>
      ClimbingStable(s, s', th, level, level + 1);
      ClimbingHolds(s, s', th, level);
    case Retry(level, high) => if th.isMarked { OwnsStable(s, s', th); }
    case _ =>
  }

  lemma StaysMarked(s: State, s': State, th: Thread)
    requires Sized(s) && Sized(s') && Stable(s, s', th)
    ensures Marked(s, th.node) ==> Marked(s', th.node)
  {
    assert Kept(s, s', th.node);
  }

  lemma ChangeStable(s: State, s': State, th: Thread)
    requires Sized(s) && Sized(s') && |th.preds| == |th.succs| == MAX_LEVEL + 1
    requires Stable(s, s', th) && ChangeOk(s, th)
    ensures ChangeOk(s', th)
  {
    hide Stable, Adding, Removing;
    match th.pc
    case Link(level) => AddingStable(s, s', th, level);
    case SetLinked => AddingStable(s, s', th, th.top + 1);
    case ReadNext(level) => RemovingStable(s, s', th, level);
    case Unlink(level, _) => RemovingStable(s, s', th, level);
    case UnlockVictim => RemovingStable(s, s', th, -1);
    case Unlock(_) => StaysMarked(s, s', th);
    case _ =>
  }

  lemma ThreadStable(s: State, s': State, th: Thread)
    requires Sized(s) && Sized(s') && |th.preds| == |th.succs| == MAX_LEVEL + 1
    requires Stable(s, s', th) && ThreadOk(s, th)
    ensures ThreadOk(s', th)
  {
    hide Stable, Searched, Owns, InAll, LockOk, ChangeOk, Victim;
    if LockPhase(th.pc) {
      LockStable(s, s', th);
    } else if VictimPhase(th.pc) {
      VictimStable(s, s', th);
    } else if ChangePhase(th.pc) {
      ChangeStable(s, s', th);
    } else {
      match th.pc
      case Find(level, pred) => FindStable(s, s', th, level, pred);
      case HasMarked => SearchedStable(s, s', th, 0); FoundKept(s, s', th);
      case AddCheck => SearchedStable(s, s', th, 0);
      case AddAwait => SearchedStable(s, s', th, 0);
      case HasLinked => SearchedStable(s, s', th, 0);
      case _ =>
    }
  }

  lemma SearchedKept(s: State, s': State, th: Thread, from: nat, j: nat)
    requires Sized(s) && Sized(s') && |th.preds| == |th.succs| == MAX_LEVEL + 1
    requires Stable(s, s', th) && Searched(s, th, from) && from <= j <= MAX_LEVEL
    ensures th.preds[j] < |s.nodes| && Kept(s, s', th.preds[j])
  {
    assert RecOk(s, th, j);
  }

  lemma FoundKept(s: State, s': State, th: Thread)
    requires Sized(s) && Sized(s') && |th.preds| == |th.succs| == MAX_LEVEL + 1
    requires Stable(s, s', th) && 0 <= th.lFound <= MAX_LEVEL && Linked(s, th.succs[th.lFound])
    ensures Linked(s', th.succs[th.lFound])
  {
    assert Kept(s, s', th.succs[th.lFound]);
  }

  lemma ClimbingHolds(s: State, s': State, th: Thread, level: nat)
    requires Sized(s) && Sized(s') && |th.preds| == |th.succs| == MAX_LEVEL + 1
    requires Stable(s, s', th) && Climbing(s, th, level, level + 1)
    ensures level <= MAX_LEVEL && SameNode(s, s', th.preds[level])
  {
    Held(th, 0, level + 1, Own(th), level);
  }

  // ----- putting a step together -----

  lemma Combine(s: State, s': State, t: nat)
    requires Inv(s) && t < |s.threads| == |s'.threads| && Sized(s') && ListsOk(s')
    requires forall u: nat :: u < |s'.nodes| ==> NodeOk(s', u)
    requires forall u: nat :: u < |s.threads| && u != t ==>
      s'.threads[u] == s.threads[u] && Stable(s, s', s.threads[u]) && Apart(s'.threads[t], s.threads[u])
    requires ThreadOk(s', s'.threads[t]) && HoldsOk(s', s'.threads[t]) && |s.nodes| <= |s'.nodes|
    ensures Inv(s')
  {
    hide NodeOk, ListsOk, Stable, ThreadOk;
    forall u: nat | u < |s'.threads| ensures ThreadOk(s', s'.threads[u]) && HoldsOk(s', s'.threads[u]) {
      if u != t { ThreadStable(s, s', s.threads[u]); }
    }
    forall u: nat, v: nat | u < |s'.threads| && v < |s'.threads| && u != v
      ensures Apart(s'.threads[u], s'.threads[v])
    {
      assert u != t && v != t ==> Apart(s.threads[u], s.threads[v]);
      assert v == t ==> Apart(s'.threads[t], s.threads[u]);
    }
  }

  lemma SameMemory(s: State, s': State)
    requires Sized(s) && Sized(s') && s'.nodes == s.nodes && s'.lists == s.lists
    ensures forall th :: Stable(s, s', th)
    ensures ListsOk(s) ==> ListsOk(s')
    ensures forall u: nat :: u < |s.nodes| && NodeOk(s, u) ==> NodeOk(s', u)
  {
    forall u: nat | u < |s.nodes| && NodeOk(s, u) ensures NodeOk(s', u) {
      forall l: nat | u != TAIL ensures PtrOk(s', u, l) { assert PtrOk(s, u, l); }
      forall l: nat | s.nodes[u].fullyLinked && l <= s.nodes[u].Top() ensures Known(s', u, l) { assert Known(s, u, l); }
    }
    if ListsOk(s) {
      forall l: nat, u: nat | l <= MAX_LEVEL ensures MemberOk(s', l, u) { assert MemberOk(s, l, u); }
      forall l: nat, u: nat, w: nat | l <= MAX_LEVEL ensures LinkOk(s', l, u, w) { assert LinkOk(s, l, u, w); }
    }
  }

  /** Only the local state of thread t changes; it takes no mutex that is not free. */
  lemma LocalStep(s: State, t: nat, th: Thread)
    requires Inv(s) && t < |s.threads| && |th.preds| == |th.succs| == MAX_LEVEL + 1
    requires Sized(Goto(s, t, th)) && ThreadOk(s, th) && HoldsOk(s, th)
    requires forall p :: p in th.holds ==> p in s.threads[t].holds || Free(s, t, p)
    requires IsAdding(th) ==> IsAdding(s.threads[t]) && th.node == s.threads[t].node
    ensures Inv(Goto(s, t, th))
  {
    hide NodeOk, ListsOk, Stable, ThreadOk;
    var s' := Goto(s, t, th);
    SameMemory(s, s');
    ThreadStable(s, s', th);
    forall u: nat | u < |s.threads| && u != t ensures Apart(th, s.threads[u]) {
      assert Apart(s.threads[t], s.threads[u]);
    }
    Combine(s, s', t);
  }

  // ----- searching -----

  lemma SearchedSame(s: State, th: Thread, th': Thread)
    requires Sized(s) && |th.preds| == |th.succs| == MAX_LEVEL + 1 && Searched(s, th, 0)
    requires th'.preds == th.preds && th'.succs == th.succs && th'.lFound == th.lFound && th'.op == th.op
    ensures Searched(s, th', 0)
  {
    forall j: nat | j <= MAX_LEVEL ensures RecOk(s, th', j) { assert RecOk(s, th, j); }
  }

  lemma BeginOk(s: State, th: Thread, op: Op)
    requires Sized(s) && NodeOk(s, HEAD) && ListsOk(s)
    requires |th.preds| == |th.succs| == MAX_LEVEL + 1 && th.holds == multiset{}
    requires INT64_MIN < op.x < INT64_MAX && (op.Add? ==> 1 <= op.top <= MAX_LEVEL)
    ensures SearchOk(s, Begin(th, op))
  {
    assert NodeOk(s, HEAD);
  }

  lemma AgainOk(s: State, th: Thread)
    requires Sized(s) && NodeOk(s, HEAD) && ListsOk(s)
    requires |th.preds| == |th.succs| == MAX_LEVEL + 1 && th.holds == Own(th)
    requires OpOk(th)
    requires th.isMarked ==> th.op.Remove? && Owns(s, th) && InAll(s, th)
    ensures SearchOk(s, Again(th))
  {
    assert NodeOk(s, HEAD);
    assert th.isMarked ==> Owns(s, Again(th)) && InAll(s, Again(th));
  }

  /** The search moves right. */
  lemma FindRight(s: State, th: Thread, level: nat, pred: nat)
    requires Sized(s) && (pred < |s.nodes| ==> NodeOk(s, pred))
    requires NodeOk(s, TAIL) && |th.preds| == |th.succs| == MAX_LEVEL + 1
    requires OpOk(th) && SearchOk(s, th) && th.pc == Find(level, pred) && th.op.x > Key(s, Next(s, pred, level))
    ensures SearchOk(s, th.(pc := Find(level, Next(s, pred, level))))
  {
    var curr := Next(s, pred, level);
    assert PtrOk(s, pred, level);
    var th' := th.(pc := Find(level, curr));
    assert Searched(s, th', level + 1) by {
      forall j: nat | level < j <= MAX_LEVEL ensures RecOk(s, th', j) { assert RecOk(s, th, j); }
    }
    forall j: nat | level < j <= MAX_LEVEL ensures Before(s, th.preds[j], curr) {
      assert Before(s, th.preds[j], pred);
    }
    assert th.isMarked ==> Owns(s, th') && InAll(s, th');
  }

  function Recorded(s: State, th: Thread, level: nat, pred: nat): Thread
    requires |th.preds| == |th.succs| == MAX_LEVEL + 1 && level <= MAX_LEVEL
  {
    var curr := Next(s, pred, level);
    th.(preds := th.preds[level := pred], succs := th.succs[level := curr],
        lFound := if th.lFound == -1 && th.op.x == Key(s, curr) then level else th.lFound)
  }

  lemma RecordedOk(s: State, th: Thread, level: nat, pred: nat)
    requires Sized(s) && (pred < |s.nodes| ==> NodeOk(s, pred)) && |th.preds| == |th.succs| == MAX_LEVEL + 1
    requires OpOk(th) && SearchOk(s, th) && th.pc == Find(level, pred) && th.op.x <= Key(s, Next(s, pred, level))
    ensures Searched(s, Recorded(s, th, level, pred), level)
    ensures forall j: nat :: level <= j <= MAX_LEVEL ==> Before(s, Recorded(s, th, level, pred).preds[j], pred)
  {
    assert PtrOk(s, pred, level);
    var th' := Recorded(s, th, level, pred);
    forall j: nat | level <= j <= MAX_LEVEL ensures RecOk(s, th', j) {
      if j > level { assert RecOk(s, th, j); }
    }
    forall i: nat, j: nat | level <= i <= j <= MAX_LEVEL ensures Before(s, th'.preds[j], th'.preds[i]) {
      if i > level {
        assert Before(s, th.preds[j], th.preds[i]);
      } else if j > level {
        assert Before(s, th.preds[j], pred);
      }
    }
  }

  lemma FindDown(s: State, th: Thread, level: nat, pred: nat)
    requires Sized(s) && (pred < |s.nodes| ==> NodeOk(s, pred))
    requires ListsOk(s) && |th.preds| == |th.succs| == MAX_LEVEL + 1
    requires OpOk(th) && SearchOk(s, th) && th.pc == Find(level, pred)
    requires th.op.x <= Key(s, Next(s, pred, level)) && level > 0
    ensures SearchOk(s, Recorded(s, th, level, pred).(pc := Find(level - 1, pred)))
  {
    RecordedOk(s, th, level, pred);
    var th' := Recorded(s, th, level, pred).(pc := Find(level - 1, pred));
    assert Searched(s, th', level) by {
      forall j: nat | level <= j <= MAX_LEVEL ensures RecOk(s, th', j) {
        assert RecOk(s, Recorded(s, th, level, pred), j);
      }
    }
    assert MemberOk(s, level, pred);
    assert th.isMarked ==> Owns(s, th') && InAll(s, th');
  }

  /** A finished search has the right predecessors for whatever the operation does next. */
  lemma FoundOk(s: State, th: Thread)
    requires Sized(s) && |th.preds| == |th.succs| == MAX_LEVEL + 1 && Searched(s, th, 0) && th.holds == Own(th)
    requires OpOk(th)
    requires th.isMarked ==> th.op.Remove? && Owns(s, th) && InAll(s, th)
    ensures ThreadOk(s, Found(th)) && Found(th).holds == th.holds
  {
    var th' := Found(th);
    assert Searched(s, th', 0) by {
      forall j: nat | j <= MAX_LEVEL ensures RecOk(s, th', j) { assert RecOk(s, th, j); }
    }
    if th.lFound >= 0 { assert RecOk(s, th, th.lFound); }
    assert Bag(th.preds, 0, 0) == multiset{};
    assert th.isMarked ==> Owns(s, th') && InAll(s, th');
  }

  lemma FindStepOk(s: State, th: Thread, level: nat, pred: nat)
    requires Sized(s) && (pred < |s.nodes| ==> NodeOk(s, pred)) && NodeOk(s, TAIL) && ListsOk(s)
    requires |th.preds| == |th.succs| == MAX_LEVEL + 1 && th.lFound <= MAX_LEVEL
    requires OpOk(th) && SearchOk(s, th) && th.pc == Find(level, pred)
    ensures ThreadOk(s, FindStep(s, th, level, pred))
    ensures FindStep(s, th, level, pred).holds == th.holds && !IsAdding(FindStep(s, th, level, pred))
  {
    hide Searched, Known, NodeOk, ListsOk;
    if th.op.x > Key(s, Next(s, pred, level)) {
      FindRight(s, th, level, pred);
    } else if level > 0 {
      FindDown(s, th, level, pred);
    } else {
      RecordedOk(s, th, level, pred);
      var th' := Recorded(s, th, level, pred);
      assert th.isMarked ==> Owns(s, th') && InAll(s, th');
      FoundOk(s, th');
    }
  }

  // ----- locking and validating -----

  lemma Extend(preds: seq<nat>, k: nat)
    requires k < |preds|
    ensures Bag(preds, 0, k + 1) == Bag(preds, 0, k) + multiset{preds[k]}
  {
    assert preds[0..k + 1] == preds[0..k] + [preds[k]];
  }

  lemma Shrink(preds: seq<nat>, k: nat, high: nat)
    requires k < high <= |preds|
    ensures Bag(preds, k, high) == multiset{preds[k]} + Bag(preds, k + 1, high)
  {
    assert preds[k..high] == [preds[k]] + preds[k + 1..high];
  }

  /** Changing the program counter does not change what the search has recorded. */
  lemma PcClimbing(s: State, th: Thread, pc: Pc, k: nat, locked: nat)
    requires Sized(s) && |th.preds| == |th.succs| == MAX_LEVEL + 1 && Climbing(s, th, k, locked)
    ensures Climbing(s, th.(pc := pc), k, locked)
  {
    hide Searched, Known, Bag;
    var th' := th.(pc := pc);
    SearchedSame(s, th, th');
    forall l: nat | l < k ensures Pinned(s, th', l, Goal(th', l)) { assert Pinned(s, th, l, Goal(th, l)); }
  }

  lemma LockOkStep(s: State, th: Thread, level: nat)
    requires Sized(s) && |th.preds| == |th.succs| == MAX_LEVEL + 1 && LockOk(s, th) && th.pc == Lock(level)
    ensures LockOk(s, th.(pc := TestPred(level), holds := th.holds + multiset{Wanted(th)}))
  {
    hide Searched, Known, Bag;
    var th' := th.(pc := TestPred(level), holds := th.holds + multiset{Wanted(th)});
    Extend(th.preds, level);
    SearchedSame(s, th, th');
    forall l: nat | l < level ensures Pinned(s, th', l, Goal(th', l)) { assert Pinned(s, th, l, Goal(th, l)); }
  }

  lemma RetryOk(s: State, th: Thread, level: nat)
    requires Sized(s) && |th.preds| == |th.succs| == MAX_LEVEL + 1
    requires level <= th.top && Climbing(s, th, level, level + 1)
    ensures LockOk(s, th.(pc := Retry(0, level)))
  {
    assert th.isMarked ==> Owns(s, th.(pc := Retry(0, level))) && InAll(s, th.(pc := Retry(0, level)));
  }

  /** The predecessor of level 0 can only point to the marked node itself. */
  lemma VictimIsOwn(s: State, th: Thread)
    requires Sized(s) && NodeOk(s, TAIL) && ListsOk(s) && |th.preds| == |th.succs| == MAX_LEVEL + 1
    requires th.op.Remove? && Climbing(s, th, 0, 1)
    requires OpOk(th) && Pinned(s, th, 0, th.victim)
    ensures th.victim == th.node
  {
    assert RecOk(s, th, 0) && MemberOk(s, 0, th.preds[0]) && NodeOk(s, TAIL);
    assert LinkOk(s, 0, th.victim, th.node);
  }

  lemma PinNext(s: State, th: Thread, level: nat)
    requires Sized(s) && NodeOk(s, TAIL) && ListsOk(s) && |th.preds| == |th.succs| == MAX_LEVEL + 1
    requires OpOk(th) && LockOk(s, th) && th.pc == TestLink(level)
    requires Next(s, th.preds[level], level) == Goal(th, level)
    ensures Climbing(s, th, level + 1, level + 1)
  {
    hide Searched, Known, Bag, NodeOk, ListsOk;
    if th.op.Remove? && level == 0 { VictimIsOwn(s, th); }
    forall l: nat | l < level + 1 ensures Pinned(s, th, l, Goal(th, l)) {
      if l < level { assert Pinned(s, th, l, Goal(th, l)); }
    }
  }

  // ----- the steps that change nodes -----

  /** A new node that nobody points to yet. */
  lemma AllocKeeps(s: State, s': State, n: Node)
    requires Inv(s) && Sized(s') && s'.nodes == s.nodes + [n] && s'.lists == s.lists
    ensures ListsOk(s')
    ensures forall u: nat :: u < |s.nodes| ==> NodeOk(s', u)
    ensures forall u: nat, l: nat :: Known(s, u, l) ==> Known(s', u, l)
    ensures forall l: nat :: l <= MAX_LEVEL ==> |s.nodes| !in s.lists[l]
  {
    forall u: nat | u < |s.nodes| ensures NodeOk(s', u) {
      assert NodeOk(s, u);
      forall l: nat | u != TAIL ensures PtrOk(s', u, l) { assert PtrOk(s, u, l); }
      forall l: nat | s.nodes[u].fullyLinked && l <= s.nodes[u].Top() ensures Known(s', u, l) { assert Known(s, u, l); }
    }
    forall l: nat, u: nat | l <= MAX_LEVEL ensures MemberOk(s', l, u) { assert MemberOk(s, l, u); }
    forall l: nat, u: nat, w: nat | l <= MAX_LEVEL ensures LinkOk(s', l, u, w) {
      assert LinkOk(s, l, u, w) && MemberOk(s, l, u) && MemberOk(s, l, w) && MemberOk(s, l, Next(s, u, l));
    }
    forall l: nat | l <= MAX_LEVEL ensures |s.nodes| !in s.lists[l] { assert MemberOk(s, l, |s.nodes|); }
  }

  lemma AllocStable(s: State, s': State, n: Node, th: Thread)
    requires Sized(s) && Sized(s') && s'.nodes == s.nodes + [n] && s'.lists == s.lists && HoldsOk(s, th)
    requires forall u: nat, l: nat :: Known(s, u, l) ==> Known(s', u, l)
    requires IsAdding(th) ==> th.node < |s.nodes|
    ensures Stable(s, s', th)
  {
    hide Known;
  }

  lemma AddingNode(s: State, th: Thread)
    requires Sized(s) && |th.preds| == |th.succs| == MAX_LEVEL + 1 && ThreadOk(s, th) && IsAdding(th)
    ensures 1 < th.node < |s.nodes| && !Linked(s, th.node)
  {
  }

  lemma AllocStep(s: State, t: nat, level: nat)
    requires Inv(s) && t < |s.threads| && s.threads[t].op.Add? && s.threads[t].pc == TestLink(level)
    requires level == s.threads[t].top && Climbing(s, s.threads[t], level + 1, level + 1)
    ensures Inv(Validated(s, t, level))
  {
    hide NodeOk, ListsOk, Stable, ThreadOk, ChangeOk, Climbing, Known;
    var th := s.threads[t];
    assert ThreadOk(s, th) && HoldsOk(s, th);
    var s' := Validated(s, t, level);
    var n := Node(th.op.x, th.succs[..th.top + 1], false, false);
    AllocKeeps(s, s', n);
    FromPhase(s, th);
    NewNodeOk(s, s', th);
    ToPhase(s', s'.threads[t]);
    forall u: nat | u < |s.threads| && u != t
      ensures Stable(s, s', s.threads[u]) && Apart(s'.threads[t], s.threads[u])
    {
      assert ThreadOk(s, s.threads[u]) && HoldsOk(s, s.threads[u]) && Apart(th, s.threads[u]);
      if IsAdding(s.threads[u]) { AddingNode(s, s.threads[u]); }
      AllocStable(s, s', n, s.threads[u]);
    }
    Combine(s, s', t);
  }

  lemma FromPhase(s: State, th: Thread)
    requires Sized(s) && |th.preds| == |th.succs| == MAX_LEVEL + 1 && ThreadOk(s, th) && th.pc != Idle
    ensures OpOk(th) && (LockPhase(th.pc) ==> LockOk(s, th)) && (VictimPhase(th.pc) ==> VictimOk(s, th))
    ensures ChangePhase(th.pc) ==> ChangeOk(s, th)
    ensures !LockPhase(th.pc) && !VictimPhase(th.pc) && !ChangePhase(th.pc) ==> SearchOk(s, th)
  {
    hide LockOk, VictimOk, ChangeOk, SearchOk;
  }

  lemma ToPhase(s: State, th: Thread)
    requires Sized(s) && |th.preds| == |th.succs| == MAX_LEVEL + 1 && OpOk(th)
    requires if LockPhase(th.pc) then LockOk(s, th) else if VictimPhase(th.pc) then VictimOk(s, th)
             else if ChangePhase(th.pc) then ChangeOk(s, th) else SearchOk(s, th)
    ensures ThreadOk(s, th)
  {
    hide LockOk, VictimOk, ChangeOk, SearchOk;
  }

  lemma NewNodeOk(s: State, s': State, th: Thread)
    requires Sized(s) && Sized(s') && |th.preds| == |th.succs| == MAX_LEVEL + 1
    requires th.op.Add? && OpOk(th) && Climbing(s, th, th.top + 1, th.top + 1) && |s.nodes| >= 2
    requires s'.nodes == s.nodes + [Node(th.op.x, th.succs[..th.top + 1], false, false)] && s'.lists == s.lists
    requires forall u: nat, l: nat :: Known(s, u, l) ==> Known(s', u, l)
    requires forall l: nat :: l <= MAX_LEVEL ==> |s.nodes| !in s.lists[l]
    ensures NodeOk(s', |s.nodes|)
    ensures ChangeOk(s', th.(pc := Link(0), node := |s.nodes|))
  {
    var th' := th.(pc := Link(0), node := |s.nodes|);
    forall l: nat | l <= th.top ensures PtrOk(s', |s.nodes|, l) && Next(s', |s.nodes|, l) == th.succs[l] {
      assert RecOk(s, th, l);
    }
    SearchedMoves(s, s', th, th');
    forall l: nat | l <= th.top ensures Pinned(s', th', l, Side(th', 0, l)) {
      assert Pinned(s, th, l, Goal(th, l)) && RecOk(s, th, l);
    }
  }

  lemma LinkedStep(s: State, s': State, t: nat)
    requires Inv(s) && t < |s.threads| && s.threads[t].pc.SetLinked? && Step(s, s', t)
    ensures Inv(s')
  {
    hide NodeOk, ListsOk, Stable, ThreadOk, ChangeOk, Known;
    var th := s.threads[t];
    assert ThreadOk(s, th) && HoldsOk(s, th);
    FromPhase(s, th);
    AddedOk(s, s', th);
    ToPhase(s', th.(pc := Unlock(0)));
    FlagKeeps(s, s', th.node);
    forall u: nat | u < |s.threads| && u != t
      ensures Stable(s, s', s.threads[u]) && Apart(s'.threads[t], s.threads[u])
    {
      assert ThreadOk(s, s.threads[u]) && Apart(th, s.threads[u]);
      if IsAdding(s.threads[u]) { AddingNode(s, s.threads[u]); }
      LinkedStable(s, s', th, s.threads[u]);
    }
    Combine(s, s', t);
  }

  lemma AddedOk(s: State, s': State, th: Thread)
    requires Sized(s) && Sized(s') && |th.preds| == |th.succs| == MAX_LEVEL + 1
    requires ChangeOk(s, th) && th.pc == SetLinked
    ensures ChangeOk(s', th.(pc := Unlock(0)))
    ensures 1 < th.node < |s.nodes| && !Marked(s, th.node)
    ensures forall l: nat :: l <= s.nodes[th.node].Top() ==> Known(s, th.node, l)
  {
    hide Searched, Pinned, Bag;
  }

  lemma LinkedStable(s: State, s': State, th: Thread, other: Thread)
    requires Sized(s) && Sized(s') && th.node < |s.nodes| && s'.lists == s.lists
    requires s'.nodes == s.nodes[th.node := s.nodes[th.node].(fullyLinked := true)]
    requires IsAdding(th) && Apart(th, other)
    ensures Stable(s, s', other)
  {
  }

  /** Raising a flag of a node that is linked on all its levels. */
  lemma FlagKeeps(s: State, s': State, n: nat)
    requires Inv(s) && Sized(s') && s'.lists == s.lists && 1 < n < |s.nodes|
    requires exists m, f :: (m ==> f) && (Marked(s, n) ==> m) && (Linked(s, n) ==> f) &&
               s'.nodes == s.nodes[n := s.nodes[n].(marked := m, fullyLinked := f)]
    requires forall l: nat :: l <= s.nodes[n].Top() ==> Known(s, n, l)
    ensures ListsOk(s') && forall u: nat :: u < |s'.nodes| ==> NodeOk(s', u)
    ensures forall u: nat, l: nat :: Known(s, u, l) ==> Known(s', u, l)
    ensures forall u: nat :: u != n ==> SameNode(s, s', u)
    ensures forall u: nat :: Kept(s, s', u)
  {
    forall u: nat | u < |s'.nodes| ensures NodeOk(s', u) {
      assert NodeOk(s, u);
      forall l: nat | u != TAIL ensures PtrOk(s', u, l) { assert PtrOk(s, u, l); }
      forall l: nat | s'.nodes[u].fullyLinked && l <= s.nodes[u].Top() ensures Known(s', u, l) {
        assert Known(s, u, l);
      }
    }
    forall l: nat, u: nat | l <= MAX_LEVEL ensures MemberOk(s', l, u) { assert MemberOk(s, l, u); }
    forall l: nat, u: nat, w: nat | l <= MAX_LEVEL ensures LinkOk(s', l, u, w) { assert LinkOk(s, l, u, w); }
  }

  lemma MarkStep(s: State, s': State, t: nat)
    requires Inv(s) && t < |s.threads| && s.threads[t].pc.Mark? && Step(s, s', t)
    ensures Inv(s')
  {
    hide NodeOk, ListsOk, Stable, ThreadOk, VictimOk, LockOk, Known;
    var th := s.threads[t];
    assert ThreadOk(s, th) && HoldsOk(s, th);
    VictimOf(s, th);
    FlagKeeps(s, s', th.victim);
    forall u: nat | u < |s.threads| && u != t
      ensures Stable(s, s', s.threads[u]) && Apart(s'.threads[t], s.threads[u])
    {
      assert ThreadOk(s, s.threads[u]) && Apart(th, s.threads[u]);
      if IsAdding(s.threads[u]) { AddingNode(s, s.threads[u]); }
      MarkStable(s, s', th, s.threads[u]);
    }
    FromPhase(s, th);
    MarkedOk(s, s', th);
    ToPhase(s', s'.threads[t]);
    Combine(s, s', t);
  }

  lemma VictimOf(s: State, th: Thread)
    requires Inv(s) && |th.preds| == |th.succs| == MAX_LEVEL + 1 && ThreadOk(s, th) && th.pc == Mark
    ensures 1 < th.victim < |s.nodes| && Linked(s, th.victim) && !Marked(s, th.victim) && th.victim in th.holds
    ensures forall l: nat :: l <= s.nodes[th.victim].Top() ==> Known(s, th.victim, l)
  {
    assert NodeOk(s, th.victim);
  }

  lemma MarkedOk(s: State, s': State, th: Thread)
    requires Sized(s) && Sized(s') && |th.preds| == |th.succs| == MAX_LEVEL + 1
    requires VictimOk(s, th) && th.pc == Mark && s'.lists == s.lists
    requires th.victim < |s.nodes| && s'.nodes == s.nodes[th.victim := s.nodes[th.victim].(marked := true)]
    requires forall u: nat, l: nat :: Known(s, u, l) ==> Known(s', u, l)
    requires forall l: nat :: l <= s.nodes[th.victim].Top() ==> Known(s, th.victim, l)
    ensures LockOk(s', th.(pc := Lock(0), isMarked := true, node := th.victim))
  {
    var th' := th.(pc := Lock(0), isMarked := true, node := th.victim);
    assert Bag(th.preds, 0, 0) == multiset{};
    SearchedMoves(s, s', th, th');
    forall l: nat | l <= th.top ensures th.victim in s'.lists[l] { assert Known(s, th.victim, l); }
  }

  lemma MarkStable(s: State, s': State, th: Thread, other: Thread)
    requires Sized(s) && Sized(s') && th.victim < |s.nodes| && s'.lists == s.lists
    requires s'.nodes == s.nodes[th.victim := s.nodes[th.victim].(marked := true)]
    requires th.victim in th.holds && Apart(th, other) && (IsAdding(other) ==> other.node != th.victim)
    ensures Stable(s, s', other)
  {
  }

  // ----- linking -----

  /** At level l, the node n goes between p and what p pointed to. */
  ghost predicate Insertion(s: State, s': State, p: nat, n: nat, l: nat)
    requires Sized(s) && Sized(s')
  {
    && l <= MAX_LEVEL && p < |s.nodes| && 1 < n < |s.nodes| && p in s.lists[l] && n !in s.lists[l]
    && l <= s.nodes[p].Top() && l <= s.nodes[n].Top() && (l > 0 ==> n in s.lists[l - 1])
    && Next(s, n, l) == Next(s, p, l) && Key(s, p) < Key(s, n) < Key(s, Next(s, p, l))
    && s'.nodes == SetNext(s, p, l, n).nodes && s'.lists == s.lists[l := s.lists[l] + {n}]
  }

  lemma InsertionNodes(s: State, s': State, p: nat, n: nat, l: nat)
    requires Inv(s) && Sized(s') && Insertion(s, s', p, n, l)
    ensures forall u: nat :: u < |s'.nodes| ==> NodeOk(s', u)
    ensures forall u: nat, k: nat :: Known(s, u, k) ==> Known(s', u, k)
    ensures forall u: nat :: Kept(s, s', u)
    ensures forall u: nat, k: nat :: !(u == p && k == l) ==> Next(s', u, k) == Next(s, u, k)
  {
    forall u: nat | u < |s'.nodes| ensures NodeOk(s', u) {
      assert NodeOk(s, u) && NodeOk(s, n);
      forall k: nat | u != TAIL ensures PtrOk(s', u, k) { assert PtrOk(s, u, k); }
      forall k: nat | s'.nodes[u].fullyLinked && k <= s.nodes[u].Top() ensures Known(s', u, k) {
        assert Known(s, u, k);
      }
    }
  }

  lemma InsertionLists(s: State, s': State, p: nat, n: nat, l: nat)
    requires Inv(s) && Sized(s') && Insertion(s, s', p, n, l)
    ensures ListsOk(s')
  {
    hide NodeOk, ThreadOk;
    InsertionNodes(s, s', p, n, l);
    assert MemberOk(s, l, p);
    forall k: nat, u: nat | k <= MAX_LEVEL ensures MemberOk(s', k, u) {
      assert MemberOk(s, k, u);
      if k > 0 { assert MemberOk(s, k - 1, u); }
    }
    forall k: nat, u: nat, w: nat | k <= MAX_LEVEL ensures LinkOk(s', k, u, w) {
      InsertionLink(s, s', p, n, l, k, u, w);
    }
  }

  lemma InsertionLink(s: State, s': State, p: nat, n: nat, l: nat, k: nat, u: nat, w: nat)
    requires Sized(s) && ListsOk(s) && Sized(s') && Insertion(s, s', p, n, l) && k <= MAX_LEVEL
    requires forall u: nat :: Kept(s, s', u)
    requires forall u: nat, k: nat :: !(u == p && k == l) ==> Next(s', u, k) == Next(s, u, k)
    ensures LinkOk(s', k, u, w)
  {
    assert LinkOk(s, k, u, w) && MemberOk(s, k, u) && MemberOk(s, k, w) && MemberOk(s, k, Next(s, u, k));
    assert k == l ==> LinkOk(s, l, p, u) && LinkOk(s, l, p, w) && LinkOk(s, l, u, p) && LinkOk(s, l, w, p);
    assert MemberOk(s, l, p) && MemberOk(s, l, Next(s, p, l));
    assert Kept(s, s', u) && Kept(s, s', w) && Kept(s, s', Next(s, u, k)) && Kept(s, s', n) && Kept(s, s', p);
  }

  lemma OwnMarked(s: State, th: Thread)
    requires Sized(s) && |th.preds| == |th.succs| == MAX_LEVEL + 1 && ThreadOk(s, th)
    requires th.isMarked && th.node in th.holds
    ensures Marked(s, th.node)
  {
  }

  lemma InsertionStable(s: State, s': State, p: nat, n: nat, l: nat, th: Thread, other: Thread)
    requires Sized(s) && Sized(s') && Insertion(s, s', p, n, l) && |s'.nodes| == |s.nodes|
    requires p in th.holds && IsAdding(th) && th.node == n && Apart(th, other) && !Marked(s, n)
    requires |other.preds| == |other.succs| == MAX_LEVEL + 1 && ThreadOk(s, other)
    requires forall u: nat, k: nat :: Known(s, u, k) ==> Known(s', u, k)
    requires forall u: nat :: Kept(s, s', u)
    requires forall u: nat, k: nat :: !(u == p && k == l) ==> Next(s', u, k) == Next(s, u, k)
    ensures Stable(s, s', other)
  {
    hide ThreadOk, Known, Kept;
    if other.isMarked && other.node in other.holds { OwnMarked(s, other); }
    forall q | q in other.holds ensures SameNode(s, s', q) { assert q != p; }
  }

  lemma AddingLink(s: State, s': State, th: Thread, level: nat)
    requires Inv(s) && Sized(s') && |th.preds| == |th.succs| == MAX_LEVEL + 1
    requires OpOk(th) && Adding(s, th, level) && level <= th.top
    requires s'.nodes == SetNext(s, th.preds[level], level, th.node).nodes
    requires s'.lists == s.lists[level := s.lists[level] + {th.node}]
    ensures Insertion(s, s', th.preds[level], th.node, level) && th.preds[level] in th.holds
    ensures !Marked(s, th.node)
  {
    hide NodeOk, ListsOk, ThreadOk;
    assert RecOk(s, th, level) && Pinned(s, th, level, Side(th, level, level));
    Held(th, 0, th.top + 1, multiset{}, level);
  }

  /** What a search has recorded survives while nodes keep their keys and stay known. */
  lemma SearchedMoves(s: State, s': State, th: Thread, th': Thread)
    requires Sized(s) && Sized(s') && |th.preds| == |th.succs| == MAX_LEVEL + 1 && Searched(s, th, 0)
    requires th'.preds == th.preds && th'.succs == th.succs && th'.lFound == th.lFound && th'.op == th.op
    requires forall u: nat, k: nat :: Known(s, u, k) ==> Known(s', u, k)
    requires forall u: nat :: Kept(s, s', u)
    ensures Searched(s', th', 0)
  {
    forall j: nat | j <= MAX_LEVEL ensures RecOk(s', th', j) {
      assert RecOk(s, th, j) && Kept(s, s', th.preds[j]) && Kept(s, s', th.succs[j]);
    }
    forall i: nat, j: nat | i <= j <= MAX_LEVEL ensures Before(s', th'.preds[j], th'.preds[i]) {
      assert Before(s, th.preds[j], th.preds[i]) && RecOk(s, th, i) && RecOk(s, th, j);
      assert Kept(s, s', th.preds[j]) && Kept(s, s', th.preds[i]);
    }
    if th.lFound >= 0 { assert RecOk(s, th, th.lFound) && Kept(s, s', th.succs[th.lFound]); }
  }

  lemma AddingNext(s: State, s': State, th: Thread, level: nat)
    requires Sized(s) && Sized(s') && |th.preds| == |th.succs| == MAX_LEVEL + 1
    requires Adding(s, th, level) && level <= th.top && Insertion(s, s', th.preds[level], th.node, level)
    requires forall u: nat, k: nat :: Known(s, u, k) ==> Known(s', u, k)
    requires forall u: nat :: Kept(s, s', u)
    requires forall u: nat, k: nat :: !(u == th.preds[level] && k == level) ==> Next(s', u, k) == Next(s, u, k)
    ensures Adding(s', th.(pc := Link(level + 1)), level + 1)
  {
    hide Known, Searched;
    var k := level + 1;
    var th' := th.(pc := Link(k));
    SearchedMoves(s, s', th, th');
    assert Kept(s, s', th.node);
    forall l: nat | l <= th.top ensures Pinned(s', th', l, Side(th', k, l)) {
      assert Pinned(s, th, l, Side(th, level, l)) && Kept(s, s', th.preds[l]);
    }
  }

  lemma LinkEffect(s: State, s': State, t: nat, level: nat)
    requires Sized(s) && t < |s.threads| && s.threads[t].pc == Link(level)
    requires level <= s.threads[t].top && Step(s, s', t)
    ensures s'.nodes == SetNext(s, s.threads[t].preds[level], level, s.threads[t].node).nodes
    ensures |s'.nodes| == |s.nodes| && s'.lists == s.lists[level := s.lists[level] + {s.threads[t].node}]
    ensures s'.threads == s.threads[t := s.threads[t].(pc := Link(level + 1))]
  {
  }

  lemma LinkStep(s: State, s': State, t: nat, level: nat)
    requires Inv(s) && t < |s.threads| && s.threads[t].pc == Link(level) && level <= s.threads[t].top
    requires Step(s, s', t) && Sized(s')
    ensures Inv(s')
  {
    hide Step, SetNext, NodeOk, ListsOk, Stable, ThreadOk, Adding, Insertion, Known, Kept;
    LinkEffect(s, s', t, level);
    var th := s.threads[t];
    assert ThreadOk(s, th) && HoldsOk(s, th);
    FromPhase(s, th);
    AddingLink(s, s', th, level);
    var p, n := th.preds[level], th.node;
    InsertionNodes(s, s', p, n, level);
    InsertionLists(s, s', p, n, level);
    AddingNext(s, s', th, level);
    ToPhase(s', s'.threads[t]);
    forall u: nat | u < |s.threads| && u != t
      ensures Stable(s, s', s.threads[u]) && Apart(s'.threads[t], s.threads[u])
    {
      assert ThreadOk(s, s.threads[u]) && Apart(th, s.threads[u]);
      InsertionStable(s, s', p, n, level, th, s.threads[u]);
    }
    Combine(s, s', t);
  }

  // ----- unlinking -----

  /** At level l, p skips the marked node v. */
  ghost predicate Removal(s: State, s': State, p: nat, v: nat, l: nat)
    requires Sized(s) && Sized(s')
  {
    && l <= MAX_LEVEL && p < |s.nodes| && v < |s.nodes| && v != HEAD && p in s.lists[l] && v in s.lists[l]
    && l <= s.nodes[p].Top() && Marked(s, v) && Next(s, p, l) == v && Key(s, p) < Key(s, v)
    && (l < MAX_LEVEL ==> v !in s.lists[l + 1])
    && s'.nodes == SetNext(s, p, l, Next(s, v, l)).nodes && s'.lists == s.lists[l := s.lists[l] - {v}]
  }

  lemma RemovalNodes(s: State, s': State, p: nat, v: nat, l: nat)
    requires Inv(s) && Sized(s') && Removal(s, s', p, v, l)
    ensures forall u: nat :: u < |s'.nodes| ==> NodeOk(s', u)
    ensures forall u: nat, k: nat :: Known(s, u, k) ==> Known(s', u, k)
    ensures forall u: nat :: Kept(s, s', u)
    ensures forall u: nat, k: nat :: !(u == p && k == l) ==> Next(s', u, k) == Next(s, u, k)
  {
    assert NodeOk(s, v) && MemberOk(s, l, v) && PtrOk(s, v, l);
    forall u: nat | u < |s'.nodes| ensures NodeOk(s', u) {
      assert NodeOk(s, u);
      forall k: nat | u != TAIL ensures PtrOk(s', u, k) { assert PtrOk(s, u, k); }
      forall k: nat | s'.nodes[u].fullyLinked && k <= s.nodes[u].Top() ensures Known(s', u, k) {
        assert Known(s, u, k);
      }
    }
  }

  lemma RemovalLink(s: State, s': State, p: nat, v: nat, l: nat, k: nat, u: nat, w: nat)
    requires Sized(s) && ListsOk(s) && Sized(s') && Removal(s, s', p, v, l) && k <= MAX_LEVEL
    requires forall u: nat :: Kept(s, s', u)
    requires forall u: nat, k: nat :: !(u == p && k == l) ==> Next(s', u, k) == Next(s, u, k)
    ensures LinkOk(s', k, u, w)
  {
    assert LinkOk(s, k, u, w) && MemberOk(s, k, u) && MemberOk(s, k, w) && MemberOk(s, k, Next(s, u, k));
    assert MemberOk(s, l, v) && MemberOk(s, l, Next(s, v, l));
    assert k == l ==> LinkOk(s, l, p, w) && LinkOk(s, l, v, w);
    assert Kept(s, s', u) && Kept(s, s', w) && Kept(s, s', Next(s, u, k)) && Kept(s, s', v) && Kept(s, s', p)
           && Kept(s, s', Next(s, v, l));
  }

  lemma RemovalMember(s: State, s': State, p: nat, v: nat, l: nat, k: nat, u: nat)
    requires Sized(s) && ListsOk(s) && Sized(s') && Removal(s, s', p, v, l) && k <= MAX_LEVEL
    requires (u < |s.nodes| ==> NodeOk(s, u)) && NodeOk(s, v)
    requires forall u: nat :: Kept(s, s', u)
    requires forall u: nat, k: nat :: !(u == p && k == l) ==> Next(s', u, k) == Next(s, u, k)
    ensures MemberOk(s', k, u)
  {
    assert MemberOk(s, k, u) && Kept(s, s', u) && MemberOk(s, l, v) && MemberOk(s, l, p);
    if k == l && u in s.lists[l] && u != p {
      assert PtrOk(s, u, l) && LinkOk(s, l, u, p) && LinkOk(s, l, p, u);
      assert Next(s, u, l) != v;
    }
    if k == l && u == p {
      assert PtrOk(s, v, l);
    }
  }

  lemma RemovalLists(s: State, s': State, p: nat, v: nat, l: nat)
    requires Inv(s) && Sized(s') && Removal(s, s', p, v, l)
    ensures ListsOk(s')
  {
    hide NodeOk, ThreadOk;
    RemovalNodes(s, s', p, v, l);
    assert NodeOk(s, v);
    forall k: nat, u: nat | k <= MAX_LEVEL ensures MemberOk(s', k, u) {
      RemovalMember(s, s', p, v, l, k, u);
    }
    forall k: nat, u: nat, w: nat | k <= MAX_LEVEL ensures LinkOk(s', k, u, w) {
      RemovalLink(s, s', p, v, l, k, u, w);
    }
  }

  lemma RemovalStable(s: State, s': State, p: nat, v: nat, l: nat, th: Thread, other: Thread)
    requires Sized(s) && Sized(s') && Removal(s, s', p, v, l) && |s'.nodes| == |s.nodes|
    requires p in th.holds && v in th.holds && Linked(s, v) && Apart(th, other)
    requires |other.preds| == |other.succs| == MAX_LEVEL + 1 && ThreadOk(s, other)
    requires forall u: nat, k: nat :: Known(s, u, k) ==> Known(s', u, k)
    requires forall u: nat :: Kept(s, s', u)
    requires forall u: nat, k: nat :: !(u == p && k == l) ==> Next(s', u, k) == Next(s, u, k)
    ensures Stable(s, s', other)
  {
    hide ThreadOk, Known, Kept;
    if IsAdding(other) { AddingNode(s, other); }
    forall q | q in other.holds ensures SameNode(s, s', q) { assert q != p; }
  }

  lemma Member(s: State, l: nat, u: nat)
    requires Sized(s) && ListsOk(s) && l <= MAX_LEVEL
    ensures MemberOk(s, l, u)
  {
  }

  lemma RecAt(s: State, th: Thread, level: nat)
    requires Sized(s) && |th.preds| == |th.succs| == MAX_LEVEL + 1 && Searched(s, th, 0) && level <= MAX_LEVEL
    ensures RecOk(s, th, level)
  {
  }

  lemma RemovingUnlink(s: State, s': State, th: Thread, level: nat)
    requires Inv(s) && Sized(s') && |th.preds| == |th.succs| == MAX_LEVEL + 1
    requires OpOk(th) && Removing(s, th, level)
    requires s'.nodes == SetNext(s, th.preds[level], level, Next(s, th.node, level)).nodes
    requires s'.lists == s.lists[level := s.lists[level] - {th.node}]
    ensures Removal(s, s', th.preds[level], th.node, level)
    ensures th.preds[level] in th.holds && th.node in th.holds && Linked(s, th.node)
  {
    hide ListsOk, ThreadOk, Searched, Bag;
    RecAt(s, th, level);
    assert RecOk(s, th, level) && Pinned(s, th, level, th.node) && NodeOk(s, th.node);
    if level < MAX_LEVEL { Member(s, level + 1, th.node); }
    Held(th, 0, th.top + 1, multiset{th.node}, level);
  }

  lemma RemovingNext(s: State, s': State, th: Thread, level: nat)
    requires Sized(s) && Sized(s') && |th.preds| == |th.succs| == MAX_LEVEL + 1
    requires Removing(s, th, level) && Removal(s, s', th.preds[level], th.node, level)
    requires forall u: nat, k: nat :: Known(s, u, k) ==> Known(s', u, k)
    requires forall u: nat :: Kept(s, s', u)
    requires forall u: nat, k: nat :: !(u == th.preds[level] && k == level) ==> Next(s', u, k) == Next(s, u, k)
    ensures Removing(s', th.(pc := if level > 0 then ReadNext(level - 1) else UnlockVictim), level - 1)
  {
    hide Known, Searched, Bag, Pinned;
    var th' := th.(pc := if level > 0 then ReadNext(level - 1) else UnlockVictim);
    SearchedMoves(s, s', th, th');
    assert Kept(s, s', th.node);
    forall l: nat | l <= level - 1 ensures Pinned(s', th', l, th.node) {
      PinnedMoves(s, s', th, th', l, th.node);
    }
  }

  lemma PinnedMoves(s: State, s': State, th: Thread, th': Thread, l: nat, v: nat)
    requires Sized(s) && Sized(s') && l < |th.preds| && th'.preds == th.preds && Pinned(s, th, l, v)
    requires Marked(s', th.preds[l]) == Marked(s, th.preds[l]) && Next(s', th.preds[l], l) == Next(s, th.preds[l], l)
    ensures Pinned(s', th', l, v)
  {
  }

  lemma UnlinkEffect(s: State, s': State, t: nat, level: nat, next: nat)
    requires Sized(s) && t < |s.threads| && s.threads[t].pc == Unlink(level, next) && Step(s, s', t)
    ensures level <= MAX_LEVEL
    ensures s'.nodes == SetNext(s, s.threads[t].preds[level], level, next).nodes && |s'.nodes| == |s.nodes|
    ensures s'.lists == s.lists[level := s.lists[level] - {s.threads[t].victim}]
    ensures s'.threads == s.threads[t := s.threads[t].(pc := if level > 0 then ReadNext(level - 1) else UnlockVictim)]
  {
  }

  lemma UnlinkStep(s: State, s': State, t: nat, level: nat, next: nat)
    requires Inv(s) && t < |s.threads| && s.threads[t].pc == Unlink(level, next)
    requires Step(s, s', t) && Sized(s')
    ensures Inv(s')
  {
    hide Step, SetNext, NodeOk, ListsOk, Stable, ThreadOk, Removal, Known, Kept, Searched, Bag;
    UnlinkEffect(s, s', t, level, next);
    var th := s.threads[t];
    assert ThreadOk(s, th) && HoldsOk(s, th);
    FromPhase(s, th);
    RemovingUnlink(s, s', th, level);
    var p, v := th.preds[level], th.node;
    RemovalNodes(s, s', p, v, level);
    RemovalLists(s, s', p, v, level);
    RemovingNext(s, s', th, level);
    ToPhase(s', s'.threads[t]);
    forall u: nat | u < |s.threads| && u != t
      ensures Stable(s, s', s.threads[u]) && Apart(s'.threads[t], s.threads[u])
    {
      assert ThreadOk(s, s.threads[u]) && Apart(th, s.threads[u]);
      RemovalStable(s, s', p, v, level, th, s.threads[u]);
    }
    Combine(s, s', t);
  }

  // ----- the steps that change only the thread itself -----

  /** What the invariant says about one thread. */
  lemma At(s: State, t: nat)
    requires Inv(s) && t < |s.threads|
    ensures Sized(s) && ListsOk(s) && NodeOk(s, HEAD) && NodeOk(s, TAIL)
    ensures ThreadOk(s, s.threads[t]) && HoldsOk(s, s.threads[t])
    ensures s.threads[t].pc != Idle ==> OpOk(s.threads[t])
    ensures LockPhase(s.threads[t].pc) ==> LockOk(s, s.threads[t])
    ensures VictimPhase(s.threads[t].pc) ==> VictimOk(s, s.threads[t])
    ensures ChangePhase(s.threads[t].pc) ==> ChangeOk(s, s.threads[t])
    ensures !LockPhase(s.threads[t].pc) && !VictimPhase(s.threads[t].pc) && !ChangePhase(s.threads[t].pc) ==>
              SearchOk(s, s.threads[t])
  {
    hide NodeOk, ListsOk, LockOk, VictimOk, ChangeOk, SearchOk;
    assert ThreadOk(s, s.threads[t]);
  }

  /** Thread t moves on to th and keeps at most the mutexes it has. */
  lemma Move(s: State, t: nat, th: Thread)
    requires Inv(s) && t < |s.threads| && |th.preds| == |th.succs| == MAX_LEVEL + 1
    requires th.lFound <= MAX_LEVEL && th.top <= MAX_LEVEL && (th.pc != Idle ==> OpOk(th))
    requires if LockPhase(th.pc) then LockOk(s, th) else if VictimPhase(th.pc) then VictimOk(s, th)
             else if ChangePhase(th.pc) then ChangeOk(s, th) else SearchOk(s, th)
    requires th.holds <= s.threads[t].holds
    requires IsAdding(th) ==> IsAdding(s.threads[t]) && th.node == s.threads[t].node
    ensures Inv(Goto(s, t, th))
  {
    hide NodeOk, ListsOk, LockOk, VictimOk, ChangeOk, SearchOk;
    At(s, t);
    forall p | p in th.holds ensures p in s.threads[t].holds { assert th.holds[p] <= s.threads[t].holds[p]; }
    if th.pc == Idle { IdleMove(s, th); } else { ToPhase(s, th); }
    LocalStep(s, t, th);
  }

  lemma IdleMove(s: State, th: Thread)
    requires Sized(s) && |th.preds| == |th.succs| == MAX_LEVEL + 1 && SearchOk(s, th) && th.pc == Idle
    ensures ThreadOk(s, th)
  {
  }

  lemma IdleStep(s: State, s': State, t: nat)
    requires Inv(s) && t < |s.threads| && s.threads[t].pc.Idle? && Step(s, s', t)
    ensures Inv(s')
  {
    hide Inv, NodeOk, ListsOk, Known;
    At(s, t);
    var th := s.threads[t];
    var op: Op :| INT64_MIN < op.x < INT64_MAX && (op.Add? ==> 1 <= op.top <= MAX_LEVEL) &&
      s' == Goto(s, t, Begin(th, op));
    BeginOk(s, th, op);
    Move(s, t, Begin(th, op));
  }

  lemma FindMove(s: State, s': State, t: nat, level: nat, pred: nat)
    requires Inv(s) && t < |s.threads| && s.threads[t].pc == Find(level, pred) && Step(s, s', t)
    ensures Inv(s')
  {
    hide NodeOk, ListsOk, ThreadOk, Searched, Known, Owns, InAll;
    At(s, t);
    assert pred < |s.nodes| ==> NodeOk(s, pred);
    FindStepOk(s, s.threads[t], level, pred);
    LocalStep(s, t, FindStep(s, s.threads[t], level, pred));
  }

  lemma CheckStep(s: State, s': State, t: nat)
    requires Inv(s) && t < |s.threads| && Step(s, s', t)
    requires s.threads[t].pc in {AddCheck, AddAwait, HasLinked, HasMarked}
    ensures Inv(s')
  {
    hide Inv, NodeOk, ListsOk, ThreadOk, Searched, Known, Owns, InAll, Pinned, Climbing, LockOk, VictimOk, ChangeOk;
    At(s, t);
    var th := s.threads[t];
    match th.pc
    case AddCheck =>
      AddCheckNext(s, th);
      Move(s, t, if Marked(s, th.succs[th.lFound]) then Again(th) else th.(pc := AddAwait));
    case AddAwait => if Linked(s, th.succs[th.lFound]) { Move(s, t, Return(th, false)); }
    case HasLinked =>
      var pc := if Linked(s, th.succs[th.lFound]) then HasMarked else Idle;
      SearchedSame(s, th, th.(pc := pc, result := false));
      Move(s, t, th.(pc := pc, result := false));
    case HasMarked => Move(s, t, Return(th, !Marked(s, th.succs[th.lFound])));
  }

  lemma AddCheckNext(s: State, th: Thread)
    requires Sized(s) && NodeOk(s, HEAD) && ListsOk(s) && |th.preds| == |th.succs| == MAX_LEVEL + 1
    requires OpOk(th) && SearchOk(s, th) && th.pc == AddCheck
    ensures SearchOk(s, Again(th)) && SearchOk(s, th.(pc := AddAwait))
  {
    hide NodeOk, ListsOk, Searched, Known;
    AgainOk(s, th);
    SearchedSame(s, th, th.(pc := AddAwait));
  }

  lemma LockTaken(s: State, th: Thread, level: nat)
    requires Sized(s) && |th.preds| == |th.succs| == MAX_LEVEL + 1 && LockOk(s, th) && th.pc == Lock(level)
    ensures level <= MAX_LEVEL && Wanted(th) < |s.nodes|
  {
    assert RecOk(s, th, level);
  }

  lemma RetryNext(s: State, th: Thread, level: nat, high: nat)
    requires Sized(s) && |th.preds| == |th.succs| == MAX_LEVEL + 1 && LockOk(s, th) && th.pc == Retry(level, high)
    requires level <= high
    ensures high <= MAX_LEVEL && multiset{th.preds[level]} <= th.holds
    ensures LockOk(s, th.(pc := Retry(level + 1, high), holds := th.holds - multiset{th.preds[level]}))
  {
    hide Owns, InAll, Bag, Own;
    Shrink(th.preds, level, high + 1);
    MinusOne(th.holds, th.preds[level], Bag(th.preds, level + 1, high + 1), Own(th), th.node);
    if th.isMarked {
      OwnNode(th);
      OwnsRest(s, th, th.(pc := Retry(level + 1, high), holds := th.holds - multiset{th.preds[level]}));
    }
    OwnSame(th, th.(pc := Retry(level + 1, high), holds := th.holds - multiset{th.preds[level]}));
  }

  lemma OwnNode(th: Thread)
    requires th.isMarked
    ensures th.node in Own(th)
  {
  }

  lemma OwnSame(th: Thread, th': Thread)
    requires th'.isMarked == th.isMarked && th'.node == th.node
    ensures Own(th') == Own(th)
  {
  }

  lemma OwnsRest(s: State, th: Thread, th': Thread)
    requires Sized(s) && Owns(s, th) && InAll(s, th) && th.node in th'.holds
    requires th'.node == th.node && th'.victim == th.victim && th'.top == th.top && th'.op == th.op
    ensures Owns(s, th') && InAll(s, th')
  {
  }

  lemma MinusOne(m: multiset<nat>, x: nat, rest: multiset<nat>, own: multiset<nat>, n: nat)
    requires m == multiset{x} + rest + own
    ensures multiset{x} <= m && m - multiset{x} == rest + own
    ensures n in own ==> n in m - multiset{x}
  {
  }

  lemma RetryDone(s: State, th: Thread, level: nat, high: nat)
    requires Sized(s) && |th.preds| == |th.succs| == MAX_LEVEL + 1 && LockOk(s, th) && th.pc == Retry(level, high)
    requires level > high
    ensures th.holds == Own(th) && (th.isMarked ==> th.op.Remove? && Owns(s, th) && InAll(s, th))
    ensures high <= MAX_LEVEL
  {
  }

  /** From validating the last level to the removal itself. */
  lemma ReadNextOk(s: State, th: Thread)
    requires Sized(s) && |th.preds| == |th.succs| == MAX_LEVEL + 1 && !th.op.Add?
    requires Climbing(s, th, th.top + 1, th.top + 1)
    ensures ChangeOk(s, th.(pc := ReadNext(th.top)))
  {
    var th' := th.(pc := ReadNext(th.top));
    SearchedSame(s, th, th');
    forall l: nat | l <= th.top ensures Pinned(s, th', l, th.node) { assert Pinned(s, th, l, Goal(th, l)); }
  }

  lemma LockMove(s: State, s': State, t: nat, level: nat)
    requires Inv(s) && t < |s.threads| && s.threads[t].pc == Lock(level) && Step(s, s', t)
    ensures Inv(s')
  {
    hide NodeOk, ListsOk, ThreadOk, Climbing;
    At(s, t);
    var th := s.threads[t];
    LockTaken(s, th, level);
    LockOkStep(s, th, level);
    var th' := th.(pc := TestPred(level), holds := th.holds + multiset{Wanted(th)});
    ToPhase(s, th');
    LocalStep(s, t, th');
  }

  lemma TestStep(s: State, s': State, t: nat, level: nat)
    requires Inv(s) && t < |s.threads| && Step(s, s', t)
    requires s.threads[t].pc in {TestPred(level), TestSucc(level)}
    ensures Inv(s')
  {
    hide Inv, NodeOk, ListsOk, ThreadOk, Climbing, Known;
    At(s, t);
    var th := s.threads[t];
    if s' == Goto(s, t, th.(pc := Retry(0, level))) {
      RetryMove(s, t, level);
    } else {
      var pc := if th.pc.TestPred? && th.op.Add? then TestSucc(level) else TestLink(level);
      PcClimbing(s, th, pc, level, level + 1);
      Move(s, t, th.(pc := pc));
    }
  }

  lemma RetryMove(s: State, t: nat, level: nat)
    requires Inv(s) && t < |s.threads|
    requires s.threads[t].pc in {TestPred(level), TestSucc(level), TestLink(level)}
    ensures Inv(Goto(s, t, s.threads[t].(pc := Retry(0, level))))
  {
    hide Inv, NodeOk, ListsOk, ThreadOk, Climbing, Known;
    At(s, t);
    RetryOk(s, s.threads[t], level);
    Move(s, t, s.threads[t].(pc := Retry(0, level)));
  }

  lemma RetryStep(s: State, s': State, t: nat, level: nat, high: nat)
    requires Inv(s) && t < |s.threads| && s.threads[t].pc == Retry(level, high) && Step(s, s', t)
    ensures Inv(s')
  {
    hide Inv, NodeOk, ListsOk, ThreadOk, LockOk, SearchOk, Known, Owns, InAll;
    At(s, t);
    var th := s.threads[t];
    if level > high {
      RetryDone(s, th, level, high);
      AgainOk(s, th);
      Move(s, t, Again(th));
    } else {
      RetryNext(s, th, level, high);
      Move(s, t, th.(pc := Retry(level + 1, high), holds := th.holds - multiset{th.preds[level]}));
    }
  }

  lemma TestLinkStep(s: State, s': State, t: nat, level: nat)
    requires Inv(s) && t < |s.threads| && s.threads[t].pc == TestLink(level) && Step(s, s', t)
    ensures Inv(s')
  {
    hide Inv, NodeOk, ListsOk, ThreadOk, Climbing, ChangeOk, Known;
    At(s, t);
    var th := s.threads[t];
    if Next(s, th.preds[level], level) == Goal(th, level) {
      PinNext(s, th, level);
      if level < th.top {
        PcClimbing(s, th, Lock(level + 1), level + 1, level + 1);
        Move(s, t, th.(pc := Lock(level + 1)));
      } else if th.op.Add? {
        AllocStep(s, t, level);
      } else {
        ReadNextOk(s, th);
        Move(s, t, th.(pc := ReadNext(th.top)));
      }
    } else {
      RetryMove(s, t, level);
    }
  }

  // ----- the steps of remove around its victim -----

  lemma VictimStep(s: State, s': State, t: nat)
    requires Inv(s) && t < |s.threads| && Step(s, s', t)
    requires s.threads[t].pc in {CheckLinked, CheckMarked, TestVictim}
    ensures Inv(s')
  {
    hide Inv, NodeOk, ListsOk, ThreadOk, Searched;
    At(s, t);
    var th := s.threads[t];
    var th' := match th.pc
      case CheckLinked => th.(pc := if Linked(s, th.victim) && s.nodes[th.victim].Top() == th.lFound
                                    then CheckMarked else Idle, result := false)
      case CheckMarked => if Marked(s, th.victim) then Return(th, false) else th.(pc := LockVictim, top := th.lFound)
      case _ => if Marked(s, th.victim) then Return(th, false).(holds := th.holds - multiset{th.victim})
                else th.(pc := Mark);
    SearchedSame(s, th, th');
    Move(s, t, th');
  }

  lemma LockVictimStep(s: State, s': State, t: nat)
    requires Inv(s) && t < |s.threads| && s.threads[t].pc.LockVictim? && Step(s, s', t)
    ensures Inv(s')
  {
    hide NodeOk, ListsOk, ThreadOk, Searched;
    At(s, t);
    var th := s.threads[t];
    var th' := th.(pc := TestVictim, holds := th.holds + multiset{th.victim});
    SearchedSame(s, th, th');
    ToPhase(s, th');
    LocalStep(s, t, th');
  }

  // ----- the remaining steps of a physical change -----

  lemma UnlockNext(s: State, th: Thread, level: nat)
    requires Sized(s) && |th.preds| == |th.succs| == MAX_LEVEL + 1 && ChangeOk(s, th) && th.pc == Unlock(level)
    requires level <= th.top
    ensures th.top <= MAX_LEVEL
    ensures ChangeOk(s, th.(pc := Unlock(level + 1), holds := th.holds - multiset{th.preds[level]}))
  {
    hide Bag;
    Shrink(th.preds, level, th.top + 1);
    MinusOne(th.holds, th.preds[level], Bag(th.preds, level + 1, th.top + 1), multiset{}, 0);
  }

  lemma ReadNextStep(s: State, s': State, t: nat, level: nat)
    requires Inv(s) && t < |s.threads| && Step(s, s', t) && s.threads[t].pc == ReadNext(level)
    ensures Inv(s')
  {
    hide Inv, NodeOk, ListsOk, ThreadOk, Known, ChangeOk;
    At(s, t);
    var th := s.threads[t];
    ReadNextMove(s, th, level);
    Move(s, t, th.(pc := Unlink(level, Next(s, th.victim, level))));
  }

  lemma LinkDoneStep(s: State, s': State, t: nat, level: nat)
    requires Inv(s) && t < |s.threads| && Step(s, s', t) && s.threads[t].pc == Link(level) && level > s.threads[t].top
    ensures Inv(s')
  {
    hide Inv, NodeOk, ListsOk, ThreadOk, Known, ChangeOk;
    At(s, t);
    LinkDone(s, s.threads[t], level);
    Move(s, t, s.threads[t].(pc := SetLinked));
  }

  lemma VictimReleasedStep(s: State, s': State, t: nat)
    requires Inv(s) && t < |s.threads| && Step(s, s', t) && s.threads[t].pc == UnlockVictim
    ensures Inv(s')
  {
    hide Inv, NodeOk, ListsOk, ThreadOk, Known, ChangeOk;
    At(s, t);
    var th := s.threads[t];
    VictimReleased(s, th);
    Move(s, t, th.(pc := Unlock(0), holds := th.holds - multiset{th.victim}));
  }

  lemma UnlockDone(s: State, th: Thread, level: nat)
    requires Sized(s) && |th.preds| == |th.succs| == MAX_LEVEL + 1 && ChangeOk(s, th) && th.pc == Unlock(level)
    ensures th.top <= MAX_LEVEL && (level > th.top ==> th.holds == multiset{})
    ensures level <= th.top ==> multiset{th.preds[level]} <= th.holds
  {
    if level <= th.top { Shrink(th.preds, level, th.top + 1); }
  }

  lemma UnlockStep(s: State, s': State, t: nat, level: nat)
    requires Inv(s) && t < |s.threads| && Step(s, s', t) && s.threads[t].pc == Unlock(level)
    ensures Inv(s')
  {
    hide Inv, NodeOk, ListsOk, ThreadOk, ChangeOk, Known;
    At(s, t);
    var th := s.threads[t];
    UnlockDone(s, th, level);
    if level <= th.top {
      UnlockNext(s, th, level);
      Move(s, t, th.(pc := Unlock(level + 1), holds := th.holds - multiset{th.preds[level]}));
    } else {
      Move(s, t, Return(th, true));
    }
  }

  lemma ReadNextMove(s: State, th: Thread, level: nat)
    requires Sized(s) && |th.preds| == |th.succs| == MAX_LEVEL + 1 && ChangeOk(s, th) && th.pc == ReadNext(level)
    ensures ChangeOk(s, th.(pc := Unlink(level, Next(s, th.victim, level)))) && th.top <= MAX_LEVEL
  {
    hide Searched;
    var th' := th.(pc := Unlink(level, Next(s, th.victim, level)));
    SearchedSame(s, th, th');
    forall l: nat | l <= level ensures Pinned(s, th', l, th.node) { assert Pinned(s, th, l, th.node); }
  }

  lemma LinkDone(s: State, th: Thread, level: nat)
    requires Sized(s) && |th.preds| == |th.succs| == MAX_LEVEL + 1 && ChangeOk(s, th)
    requires th.pc == Link(level) && level > th.top
    ensures ChangeOk(s, th.(pc := SetLinked)) && th.top <= MAX_LEVEL
  {
    hide Searched;
    var th' := th.(pc := SetLinked);
    SearchedSame(s, th, th');
    forall l: nat | l <= th.top ensures Pinned(s, th', l, Side(th', level, l)) {
      assert Pinned(s, th, l, Side(th, level, l));
    }
  }

  lemma VictimReleased(s: State, th: Thread)
    requires Sized(s) && |th.preds| == |th.succs| == MAX_LEVEL + 1 && ChangeOk(s, th) && th.pc == UnlockVictim
    ensures ChangeOk(s, th.(pc := Unlock(0), holds := th.holds - multiset{th.victim})) && th.top <= MAX_LEVEL
  {
  }

  lemma StepKeeps(s: State, s': State, t: nat)
    requires Inv(s) && t < |s.threads| && Step(s, s', t) && Sized(s')
    ensures Inv(s')
  {
    hide Inv, Step;
    match s.threads[t].pc
    case Idle => IdleStep(s, s', t);
    case Find(level, pred) => FindMove(s, s', t, level, pred);
    case AddCheck => CheckStep(s, s', t);
    case AddAwait => CheckStep(s, s', t);
    case HasLinked => CheckStep(s, s', t);
    case HasMarked => CheckStep(s, s', t);
    case Lock(level) => LockMove(s, s', t, level);
    case TestPred(level) => TestStep(s, s', t, level);
    case TestSucc(level) => TestStep(s, s', t, level);
    case TestLink(level) => TestLinkStep(s, s', t, level);
    case Retry(level, high) => RetryStep(s, s', t, level, high);
    case Link(level) =>
      if level <= s.threads[t].top { LinkStep(s, s', t, level); } else { LinkDoneStep(s, s', t, level); }
    case SetLinked => LinkedStep(s, s', t);
    case CheckLinked => VictimStep(s, s', t);
    case CheckMarked => VictimStep(s, s', t);
    case LockVictim => LockVictimStep(s, s', t);
    case TestVictim => VictimStep(s, s', t);
    case Mark => MarkStep(s, s', t);
    case Unlink(level, next) => UnlinkStep(s, s', t, level, next);
    case ReadNext(level) => ReadNextStep(s, s', t, level);
    case UnlockVictim => VictimReleasedStep(s, s', t);
    case Unlock(level) => UnlockStep(s, s', t, level);
  }

  // ----- runs -----

  ghost predicate Init(s: State) {
    && |s.nodes| == 2
    && s.nodes[HEAD] == Node(INT64_MIN, seq(MAX_LEVEL + 1, _ => TAIL), false, false)
    && s.nodes[TAIL].key == INT64_MAX && s.nodes[TAIL].Top() == MAX_LEVEL
    && !s.nodes[TAIL].marked && !s.nodes[TAIL].fullyLinked
    && s.lists == seq(MAX_LEVEL + 1, _ => {HEAD}) && Sized(s)
    && forall t :: 0 <= t < |s.threads| ==> s.threads[t].pc == Idle && s.threads[t].holds == multiset{}
  }

  lemma InitOk(s: State)
    requires Init(s)
    ensures Inv(s)
  {
  }

  ghost predicate Moves(s: State, s': State) {
    Sized(s) && Sized(s') && exists t: nat :: t < |s.threads| && Step(s, s', t)
  }

  ghost predicate Run(tr: seq<State>) {
    |tr| > 0 && Init(tr[0]) && forall i :: 0 <= i < |tr| - 1 ==> Moves(tr[i], tr[i + 1])
  }

  lemma {:induction false} RunInv(tr: seq<State>, r: nat)
    requires Run(tr) && r < |tr|
    ensures Inv(tr[r])
  {
    hide Inv, Init, Step;
    if r == 0 {
      InitOk(tr[0]);
    } else {
      RunInv(tr, r - 1);
      assert Moves(tr[r - 1], tr[r - 1 + 1]);
      var t: nat :| t < |tr[r - 1].threads| && Step(tr[r - 1], tr[r], t);
      StepKeeps(tr[r - 1], tr[r], t);
    }
  }

  // ----- the lists of every reachable state -----

  /** The chain of level l from node u on, as found by following next pointers k times. */
  function Chain(s: State, u: nat, l: nat, k: nat): seq<nat>
    decreases k
  {
    if u == TAIL || k == 0 then [] else [u] + Chain(s, Next(s, u, l), l, k - 1)
  }

  ghost predicate StrictlySorted(s: State, c: seq<nat>) {
    forall i, j :: 0 <= i < j < |c| ==> Key(s, c[i]) < Key(s, c[j])
  }

  /** The nodes of level l from u on. */
  function From(s: State, u: nat, l: nat): set<nat>
    requires l < |s.lists|
  {
    set w | w in s.lists[l] && Key(s, u) <= Key(s, w)
  }

  /** One pointer of level l leads from u to the rest of the list. */
  ghost predicate NextOk(s: State, u: nat, l: nat)
    requires l < |s.lists|
  {
    var v := Next(s, u, l);
    && u != TAIL && Key(s, u) < Key(s, v)
    && if v == TAIL then From(s, u, l) == {u}
       else v in s.lists[l] && u !in From(s, v, l) && From(s, u, l) == {u} + From(s, v, l)
  }

  lemma FromNext(s: State, u: nat, l: nat)
    requires Inv(s) && l <= MAX_LEVEL && u in s.lists[l]
    ensures NextOk(s, u, l)
  {
    hide ThreadOk, Known;
    var v := Next(s, u, l);
    assert MemberOk(s, l, u) && NodeOk(s, u) && PtrOk(s, u, l) && NodeOk(s, TAIL);
    forall w | w in From(s, u, l) ensures w == u || (v != TAIL && w in From(s, v, l)) {
      assert LinkOk(s, l, u, w) && MemberOk(s, l, w) && NodeOk(s, w);
    }
    assert u in From(s, u, l);
  }

  /** Following the pointers of level l visits the rest of the list, in key order. */
  lemma {:induction false} ChainIsList(s: State, u: nat, l: nat, k: nat)
    requires l < |s.lists| && u in s.lists[l] && k == |From(s, u, l)|
    requires forall w :: w in s.lists[l] ==> NextOk(s, w, l)
    ensures StrictlySorted(s, Chain(s, u, l, k)) && Elements(Chain(s, u, l, k)) == From(s, u, l)
    decreases k
  {
    hide StrictlySorted, From;
    var v := Next(s, u, l);
    assert NextOk(s, u, l);
    if v == TAIL {
      EmptySorted(s);
      ConsSorted(s, u, [], {});
    } else {
      ChainIsList(s, v, l, k - 1);
      FromLarger(s, u, v, l);
      ConsSorted(s, u, Chain(s, v, l, k - 1), From(s, v, l));
    }
  }

  lemma FromLarger(s: State, u: nat, v: nat, l: nat)
    requires l < |s.lists| && Key(s, u) < Key(s, v)
    ensures forall w :: w in From(s, v, l) ==> Key(s, u) < Key(s, w)
  {
  }

  lemma EmptySorted(s: State)
    ensures StrictlySorted(s, []) && Elements<nat>([]) == {}
  {
  }

  lemma ConsSorted(s: State, u: nat, c: seq<nat>, R: set<nat>)
    requires StrictlySorted(s, c) && Elements(c) == R && forall w :: w in R ==> Key(s, u) < Key(s, w)
    ensures StrictlySorted(s, [u] + c) && Elements([u] + c) == {u} + R
  {
    forall i | 0 <= i < |c| ensures c[i] in R { assert c[i] in Elements(c); }
  }

  /** Level l of the list as a reader without interference would see it. */
  function Level(s: State, l: nat): seq<nat>
    requires l < |s.lists|
  {
    Chain(s, HEAD, l, |From(s, HEAD, l)|)
  }

  /** In every reachable state each level is strictly sorted and holds exactly the nodes linked
      there, each upper level is part of the one below, and every fully linked node that is not
      marked is on all its levels. */
  lemma ListsAreSkipList(tr: seq<State>, r: nat, l: nat)
    requires Run(tr) && r < |tr| && l <= MAX_LEVEL
    ensures Sized(tr[r]) && StrictlySorted(tr[r], Level(tr[r], l))
    ensures Elements(Level(tr[r], l)) == tr[r].lists[l]
    ensures l > 0 ==> Elements(Level(tr[r], l)) <= Elements(Level(tr[r], l - 1))
    ensures forall u: nat :: u < |tr[r].nodes| && Linked(tr[r], u) && !Marked(tr[r], u) && l <= tr[r].nodes[u].Top()
              ==> u in Level(tr[r], l)
  {
    RunInv(tr, r);
    var s := tr[r];
    LevelIsList(s, l);
    if l > 0 {
      LevelIsList(s, l - 1);
      forall u | u in s.lists[l] ensures u in s.lists[l - 1] { assert MemberOk(s, l, u); }
    }
    forall u: nat | u < |s.nodes| && Linked(s, u) && !Marked(s, u) && l <= s.nodes[u].Top()
      ensures u in Level(s, l)
    {
      assert NodeOk(s, u) && Known(s, u, l);
      assert u in Elements(Level(s, l));
    }
  }

  lemma LevelIsList(s: State, l: nat)
    requires Inv(s) && l <= MAX_LEVEL
    ensures StrictlySorted(s, Level(s, l)) && Elements(Level(s, l)) == s.lists[l]
  {
    hide ThreadOk;
    forall w | w in s.lists[l] ensures NextOk(s, w, l) { FromNext(s, w, l); }
    ChainIsList(s, HEAD, l, |From(s, HEAD, l)|);
    forall u | u in s.lists[l] ensures Key(s, HEAD) <= Key(s, u) {
      assert MemberOk(s, l, u) && NodeOk(s, u) && NodeOk(s, HEAD);
    }
    assert From(s, HEAD, l) == s.lists[l];
  }

  // ----- the abstract set -----

  /** The elements of the set: the keys of fully linked, unmarked nodes. */
  ghost function Elems(s: State): iset<int> {
    iset x | Holds(s, x)
  }

  ghost predicate Holds(s: State, x: int) {
    exists u: nat :: u < |s.nodes| && Linked(s, u) && !Marked(s, u) && Key(s, u) == x
  }

  ghost predicate SameFlags(s: State, s': State, u: nat) {
    Linked(s, u) == Linked(s', u) && Marked(s, u) == Marked(s', u) && Key(s, u) == Key(s', u)
  }

  /** Only node n, with key x, changed its flags; new nodes are not linked yet. */
  lemma OtherElems(s: State, s': State, n: nat, x: int, y: int)
    requires |s.nodes| <= |s'.nodes| && forall u: nat :: u < |s.nodes| && u != n ==> SameFlags(s, s', u)
    requires forall u: nat :: |s.nodes| <= u < |s'.nodes| ==> !Linked(s', u)
    requires n < |s.nodes| ==> Key(s, n) == x && Key(s', n) == x
    requires y != x || n >= |s.nodes|
    ensures Holds(s, y) <==> Holds(s', y)
  {
    if Holds(s, y) {
      var u: nat :| u < |s.nodes| && Linked(s, u) && !Marked(s, u) && Key(s, u) == y;
      assert SameFlags(s, s', u);
    }
    if Holds(s', y) {
      var u: nat :| u < |s'.nodes| && Linked(s', u) && !Marked(s', u) && Key(s', u) == y;
      assert u < |s.nodes| ==> SameFlags(s, s', u);
    }
  }

  /** Of the nodes linked at the bottom, at most one has a given key. */
  lemma OneNode(s: State, u: nat, v: nat)
    requires Inv(s) && u < |s.nodes| && Linked(s, u) && !Marked(s, u) && v in s.lists[0] && Key(s, u) == Key(s, v)
    ensures u == v
  {
    hide ThreadOk;
    assert NodeOk(s, u) && Known(s, u, 0) && LinkOk(s, 0, v, u);
  }

  lemma AddChangesSet(s: State, s': State, t: nat)
    requires Inv(s) && t < |s.threads| && s.threads[t].pc.SetLinked? && Step(s, s', t)
    ensures s.threads[t].op.x !in Elems(s) && Elems(s') == Elems(s) + iset{s.threads[t].op.x}
  {
    hide ListsOk, NodeOk, ThreadOk;
    At(s, t);
    var n, x := s.threads[t].node, s.threads[t].op.x;
    if Holds(s, x) {
      var u: nat :| u < |s.nodes| && Linked(s, u) && !Marked(s, u) && Key(s, u) == x;
      OneNode(s, u, n);
    }
    assert Linked(s', n) && !Marked(s', n) && Key(s', n) == x;
    forall y | y != x ensures Holds(s, y) <==> Holds(s', y) { OtherElems(s, s', n, x, y); }
  }

  lemma RemoveChangesSet(s: State, s': State, t: nat)
    requires Inv(s) && t < |s.threads| && s.threads[t].pc.Mark? && Step(s, s', t)
    ensures s.threads[t].op.x in Elems(s) && Elems(s') == Elems(s) - iset{s.threads[t].op.x}
  {
    hide ListsOk, NodeOk, ThreadOk;
    At(s, t);
    var n, x := s.threads[t].victim, s.threads[t].op.x;
    assert Linked(s, n) && !Marked(s, n) && Key(s, n) == x;
    assert n in s.lists[0] by { assert NodeOk(s, n); InBottom(s, n); }
    if Holds(s', x) {
      var u: nat :| u < |s'.nodes| && Linked(s', u) && !Marked(s', u) && Key(s', u) == x;
      OneNode(s, u, n);
    }
    forall y | y != x ensures Holds(s, y) <==> Holds(s', y) { OtherElems(s, s', n, x, y); }
  }

  lemma InBottom(s: State, n: nat)
    requires Sized(s) && n < |s.nodes| && NodeOk(s, n) && Linked(s, n) && !Marked(s, n)
    ensures n in s.lists[0]
  {
    assert Known(s, n, 0);
  }

  lemma OtherStepsKeepSet(s: State, s': State, t: nat)
    requires Inv(s) && t < |s.threads| && Step(s, s', t)
    requires !s.threads[t].pc.SetLinked? && !s.threads[t].pc.Mark?
    ensures Elems(s') == Elems(s)
  {
    hide ListsOk, NodeOk, ThreadOk, Apart, HoldsOk;
    FlagsKept(s, s', t);
    forall y ensures Holds(s, y) <==> Holds(s', y) { OtherElems(s, s', |s'.nodes|, 0, y); }
  }

  lemma FlagsKept(s: State, s': State, t: nat)
    requires Sized(s) && t < |s.threads| && Step(s, s', t)
    requires !s.threads[t].pc.SetLinked? && !s.threads[t].pc.Mark?
    ensures |s.nodes| <= |s'.nodes|
    ensures forall u: nat :: u < |s.nodes| ==> SameFlags(s, s', u)
    ensures forall u: nat :: |s.nodes| <= u < |s'.nodes| ==> !Linked(s', u)
  {
    hide FindStep, Begin, Again, Wanted, Free, Goal, Return;
  }

  /** The node that thread t adds has its key, and the level that was drawn for it. */
  predicate AddedAt(s: State, t: nat)
    requires t < |s.threads|
  {
    var th := s.threads[t];
    th.op.Add? && th.node < |s.nodes| && Key(s, th.node) == th.op.x && s.nodes[th.node].Top() == th.op.top
  }

  lemma AddsAt(s: State, t: nat)
    requires Inv(s) && t < |s.threads| && s.threads[t].pc.SetLinked?
    ensures AddedAt(s, t)
  {
    At(s, t);
    hide Inv;
  }

  /** The set changes at two kinds of steps only: one completes a successful add of a new
      element, the other decides a successful remove of a present one. */
  lemma SetChanges(tr: seq<State>, r: nat, t: nat)
    requires Run(tr) && r < |tr| - 1 && Sized(tr[r]) && t < |tr[r].threads| && Step(tr[r], tr[r + 1], t)
    ensures var pc, x, A, A' := tr[r].threads[t].pc, tr[r].threads[t].op.x, Elems(tr[r]), Elems(tr[r + 1]);
      if pc.SetLinked? then x !in A && A' == A + iset{x} && AddedAt(tr[r], t)
      else if pc.Mark? then x in A && A' == A - iset{x}
      else A' == A
  {
    hide Inv, Step;
    RunInv(tr, r);
    if tr[r].threads[t].pc.SetLinked? {
      AddChangesSet(tr[r], tr[r + 1], t);
      AddsAt(tr[r], t);
    } else if tr[r].threads[t].pc.Mark? {
      RemoveChangesSet(tr[r], tr[r + 1], t);
    } else {
      OtherStepsKeepSet(tr[r], tr[r + 1], t);
    }
  }

  /** contains answers true only while the element is in the set. */
  lemma ContainsIsTrue(tr: seq<State>, r: nat, t: nat)
    requires Run(tr) && r < |tr| - 1 && Sized(tr[r]) && t < |tr[r].threads| && Step(tr[r], tr[r + 1], t)
    requires tr[r].threads[t].pc == HasMarked && |tr[r + 1].threads| > t && tr[r + 1].threads[t].result
    ensures tr[r].threads[t].op.x in Elems(tr[r])
  {
    hide ListsOk, NodeOk, ThreadOk;
    RunInv(tr, r);
    At(tr[r], t);
    var th := tr[r].threads[t];
    var u := th.succs[th.lFound];
    assert Linked(tr[r], u) && !Marked(tr[r], u) && Key(tr[r], u) == th.op.x;
  }

  // ----- no deadlock -----

  /** Thread t wants a mutex that thread u holds. */
  ghost predicate Waits(s: State, t: nat, u: nat)
    requires Sized(s)
  {
    t < |s.threads| && u < |s.threads| && t != u && Locking(s.threads[t]) && Wanted(s.threads[t]) in s.threads[u].holds
  }

  /** What a waiting thread holds has larger keys than what it wants. */
  lemma LocksDescend(s: State, th: Thread, p: nat)
    requires Sized(s) && |th.preds| == |th.succs| == MAX_LEVEL + 1 && ThreadOk(s, th) && Locking(th) && p in th.holds
    ensures p == Wanted(th) || Key(s, Wanted(th)) < Key(s, p)
  {
    if th.pc.Lock? {
      var k := th.pc.level;
      assert RecOk(s, th, k);
      if p in multiset(th.preds[0..k]) {
        var i :| 0 <= i < k && th.preds[0..k][i] == p;
        assert Before(s, th.preds[k], th.preds[i]);
      }
    }
  }

  lemma WaitDescends(s: State, t: nat, u: nat, v: nat)
    requires Inv(s) && Waits(s, t, u) && Waits(s, u, v)
    ensures Key(s, Wanted(s.threads[u])) < Key(s, Wanted(s.threads[t]))
  {
    hide ListsOk, NodeOk, ThreadOk;
    At(s, u);
    LocksDescend(s, s.threads[u], Wanted(s.threads[t]));
    assert Apart(s.threads[u], s.threads[v]);
  }

  /** A chain of threads, each waiting for the next. */
  ghost predicate WaitChain(s: State, c: seq<nat>)
    requires Sized(s)
  {
    forall i :: 0 <= i < |c| - 1 ==> Waits(s, c[i], c[i + 1])
  }

  lemma {:induction false} ChainDescends(s: State, c: seq<nat>)
    requires Inv(s) && |c| >= 3 && WaitChain(s, c)
    ensures Waits(s, c[0], c[1]) && Waits(s, c[|c| - 2], c[|c| - 1])
    ensures c[0] < |s.threads| && c[|c| - 2] < |s.threads|
    ensures Key(s, Wanted(s.threads[c[|c| - 2]])) < Key(s, Wanted(s.threads[c[0]]))
  {
    hide ListsOk, NodeOk, ThreadOk, Apart, Wanted;
    assert Waits(s, c[0], c[0 + 1]) && Waits(s, c[1], c[1 + 1]);
    WaitDescends(s, c[0], c[1], c[2]);
    if |c| > 3 {
      var d := c[1..];
      forall i | 0 <= i < |d| - 1 ensures Waits(s, d[i], d[i + 1]) { assert Waits(s, c[i + 1], c[i + 1 + 1]); }
      ChainDescends(s, d);
    }
  }

  lemma NoCircle(s: State, c: seq<nat>)
    requires Inv(s) && |c| >= 2 && c[0] == c[|c| - 1]
    ensures !WaitChain(s, c)
  {
    hide ListsOk, NodeOk, ThreadOk, Apart, HoldsOk, Waits, Wanted;
    if WaitChain(s, c) {
      var d := c + [c[1]];
      forall i | 0 <= i < |d| - 1 ensures Waits(s, d[i], d[i + 1]) {
        if i < |c| - 1 { assert Waits(s, c[i], c[i + 1]); } else { assert Waits(s, c[0], c[0 + 1]); }
      }
      ChainDescends(s, d);
    }
  }

  /** In no reachable state do threads wait for each other in a circle. */
  lemma NoWaitCycle(tr: seq<State>, r: nat, c: seq<nat>)
    requires Run(tr) && r < |tr| && |c| >= 2 && c[0] == c[|c| - 1]
    ensures Sized(tr[r]) && !WaitChain(tr[r], c)
  {
    RunInv(tr, r);
    NoCircle(tr[r], c);
  }
}
