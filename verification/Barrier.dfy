/** The reusable two-turnstile barrier of Assgn4-newbarr for any number n of threads, which call
    it any number of times. Every semaphore operation and every access to `count` is a step.
    `mode`, `round`, `entered` and `left` are history. */
module Barrier {
  import opened Counting

  datatype Pc =
    | Out
    | WaitMtx1 | Inc | TestN | WaitB2Inside | PostB1Inside | PostMtx1
    | WaitB1 | PostB1
    | WaitMtx2 | Dec | Test0 | WaitB1Inside | PostB2Inside | PostMtx2
    | WaitB2 | PostB2

  /** Fill: threads gather before the first turnstile. Drain: they pass it. The switches are the
      moments when both turnstiles are closed. */
  datatype Mode = Fill | ToDrain | Drain | ToFill

  datatype State = State(count: int, barr1: nat, barr2: nat, mtx: nat, pc: seq<Pc>,
                         mode: Mode, round: nat, entered: seq<nat>, left: seq<nat>)

  ghost predicate Sized(n: nat, s: State) {
    |s.pc| == |s.entered| == |s.left| == n
  }

  ghost predicate Init(n: nat, s: State) {
    && Sized(n, s) && s.count == 0 && s.barr1 == 0 && s.barr2 == 1 && s.mtx == 1
    && s.mode == Fill && s.round == 0
    && forall t: nat :: t < n ==> s.pc[t] == Out && s.entered[t] == 0 && s.left[t] == 0
  }

  /** A semaphore wait can only be passed while the value is positive. */
  predicate Enabled(s: State, pc: Pc) {
    && (pc.WaitMtx1? || pc.WaitMtx2? ==> s.mtx > 0)
    && (pc.WaitB1? || pc.WaitB1Inside? ==> s.barr1 > 0)
    && (pc.WaitB2? || pc.WaitB2Inside? ==> s.barr2 > 0)
  }

  ghost predicate Step(n: nat, s: State, s': State, t: nat)
    requires Sized(n, s) && t < n
  {
    Enabled(s, s.pc[t]) &&
    match s.pc[t]
    case Out => s' == s.(pc := s.pc[t := WaitMtx1])
    case WaitMtx1 => s' == s.(mtx := s.mtx - 1, pc := s.pc[t := Inc])
    case Inc => s' == s.(count := s.count + 1, pc := s.pc[t := TestN], entered := s.entered[t := s.entered[t] + 1])
    case TestN => s' == s.(pc := s.pc[t := if s.count == n then WaitB2Inside else PostMtx1])
    case WaitB2Inside => s' == s.(barr2 := s.barr2 - 1, pc := s.pc[t := PostB1Inside], mode := ToDrain)
    case PostB1Inside => s' == s.(barr1 := s.barr1 + 1, pc := s.pc[t := PostMtx1], mode := Drain)
    case PostMtx1 => s' == s.(mtx := s.mtx + 1, pc := s.pc[t := WaitB1])
    case WaitB1 => s' == s.(barr1 := s.barr1 - 1, pc := s.pc[t := PostB1])
    case PostB1 => s' == s.(barr1 := s.barr1 + 1, pc := s.pc[t := WaitMtx2])
    case WaitMtx2 => s' == s.(mtx := s.mtx - 1, pc := s.pc[t := Dec])
    case Dec => s' == s.(count := s.count - 1, pc := s.pc[t := Test0])
    case Test0 => s' == s.(pc := s.pc[t := if s.count == 0 then WaitB1Inside else PostMtx2])
    case WaitB1Inside => s' == s.(barr1 := s.barr1 - 1, pc := s.pc[t := PostB2Inside], mode := ToFill)
    case PostB2Inside =>
      s' == s.(barr2 := s.barr2 + 1, pc := s.pc[t := PostMtx2], mode := Fill, round := s.round + 1)
    case PostMtx2 => s' == s.(mtx := s.mtx + 1, pc := s.pc[t := WaitB2])
    case WaitB2 => s' == s.(barr2 := s.barr2 - 1, pc := s.pc[t := PostB2])
    case PostB2 => s' == s.(barr2 := s.barr2 + 1, pc := s.pc[t := Out], left := s.left[t := s.left[t] + 1])
  }

  ghost predicate Next(n: nat, s: State, s': State) {
    Sized(n, s) && exists t: nat :: t < n && Step(n, s, s', t)
  }

  ghost predicate Run(n: nat, tr: seq<State>) {
    |tr| > 0 && Init(n, tr[0]) && forall i :: 0 <= i < |tr| - 1 ==> Next(n, tr[i], tr[i + 1])
  }

  // ----- the invariant -----

  /** The thread has the mutex. */
  predicate Inside(pc: Pc) {
    pc.Inc? || pc.TestN? || pc.WaitB2Inside? || pc.PostB1Inside? || pc.PostMtx1? ||
    pc.Dec? || pc.Test0? || pc.WaitB1Inside? || pc.PostB2Inside? || pc.PostMtx2?
  }

  /** The thread has counted itself in and not yet out. */
  predicate Counted(pc: Pc) {
    pc.TestN? || pc.WaitB2Inside? || pc.PostB1Inside? || pc.PostMtx1? || pc.WaitB1? || pc.PostB1? ||
    pc.WaitMtx2? || pc.Dec?
  }

  function CountedSet(n: nat, s: State): set<nat>
    requires |s.pc| == n
  {
    set t | t in Below(n) && Counted(s.pc[t])
  }

  /** Where a thread can be in each mode, and which rounds it has entered and left. */
  predicate PhaseOk(mode: Mode, round: nat, pc: Pc, entered: nat, left: nat) {
    match mode
    case Fill =>
      if pc.Out? || pc.WaitMtx1? || pc.Inc? then entered == left == round
      else if pc.TestN? || pc.WaitB2Inside? || pc.PostMtx1? || pc.WaitB1? then entered == round + 1 && left == round
      else (pc.PostMtx2? || pc.WaitB2? || pc.PostB2?) && entered == round == left + 1
    case ToDrain => (pc.PostB1Inside? || pc.WaitB1?) && entered == round + 1 && left == round
    case Drain =>
      && entered == round + 1 && left == round
      && (pc.PostMtx1? || pc.WaitB1? || pc.PostB1? || pc.WaitMtx2? || pc.Dec? || pc.Test0? || pc.WaitB1Inside?
          || pc.PostMtx2? || pc.WaitB2?)
    case ToFill => (pc.PostB2Inside? || pc.WaitB2?) && entered == round + 1 && left == round
  }

  ghost predicate ThreadOk(n: nat, s: State, t: nat)
    requires Sized(n, s) && t < n
  {
    var pc := s.pc[t];
    && PhaseOk(s.mode, s.round, pc, s.entered[t], s.left[t])
    && (Inside(pc) ==> s.mtx == 0)
    && (pc.PostB1? ==> s.barr1 == 0) && (pc.PostB2? ==> s.barr2 == 0)
    && (pc.WaitB2Inside? ==> s.count == n) && (pc.WaitB1Inside? ==> s.count == 0)
  }

  /** At most one thread has the mutex, and at most one is between the two halves of a turnstile. */
  ghost predicate PairOk(a: Pc, b: Pc) {
    !(Inside(a) && Inside(b)) && !(a.PostB1? && b.PostB1?) && !(a.PostB2? && b.PostB2?)
  }

  ghost predicate Somewhere(n: nat, s: State, at: set<Pc>)
    requires Sized(n, s)
  {
    exists t: nat :: t < n && s.pc[t] in at
  }

  ghost predicate MtxOk(n: nat, s: State)
    requires Sized(n, s)
  {
    && s.mtx <= 1 && (s.mtx == 0 ==> exists t: nat :: t < n && Inside(s.pc[t]))
    && (s.mode == ToDrain || s.mode == ToFill ==> s.mtx == 0)
  }

  ghost predicate TurnstilesOk(n: nat, s: State)
    requires Sized(n, s)
  {
    && s.barr1 <= 1 && s.barr2 <= 1
    && (s.mode == Drain && s.barr1 == 0 ==> Somewhere(n, s, {PostB1}))
    && (s.mode == Fill && s.barr2 == 0 ==> Somewhere(n, s, {PostB2}))
    && (s.mode != Drain ==> s.barr1 == 0) && (s.mode != Fill ==> s.barr2 == 0)
  }

  /** The last thread to be counted in, or out, is about to switch the turnstiles. */
  ghost predicate LastOk(n: nat, s: State)
    requires Sized(n, s)
  {
    && (s.mode == Fill && s.count == n ==> Somewhere(n, s, {TestN, WaitB2Inside}))
    && (s.mode == Drain && s.count == 0 ==> Somewhere(n, s, {Test0, WaitB1Inside}))
  }

  ghost predicate Inv(n: nat, s: State) {
    && n >= 1 && Sized(n, s) && s.count == |CountedSet(n, s)|
    && MtxOk(n, s) && TurnstilesOk(n, s) && LastOk(n, s)
    && (forall t: nat :: t < n ==> ThreadOk(n, s, t))
    && (forall t: nat, u: nat :: t < n && u < n && t != u ==> PairOk(s.pc[t], s.pc[u]))
  }

  lemma PcStep(n: nat, s: State, s': State, t: nat)
    requires Sized(n, s) && t < n && Step(n, s, s', t)
    ensures Sized(n, s') && s'.pc == s.pc[t := s'.pc[t]]
    ensures s'.count == s.count + (if Counted(s'.pc[t]) then 1 else 0) - (if Counted(s.pc[t]) then 1 else 0)
  {
  }

  lemma CountStep(n: nat, s: State, s': State, t: nat)
    requires Sized(n, s) && t < n && Step(n, s, s', t) && s.count == |CountedSet(n, s)|
    ensures Sized(n, s') && s'.count == |CountedSet(n, s')|
  {
    hide Step, Counted;
    PcStep(n, s, s', t);
    if Counted(s.pc[t]) == Counted(s'.pc[t]) {
      assert CountedSet(n, s') == CountedSet(n, s);
    } else if Counted(s.pc[t]) {
      assert CountedSet(n, s') == CountedSet(n, s) - {t};
    } else {
      assert CountedSet(n, s') == CountedSet(n, s) + {t};
    }
  }

  /** Everybody is counted exactly when the count is n; nobody exactly when it is 0. */
  lemma CountExtremes(n: nat, s: State, t: nat)
    requires Sized(n, s) && s.count == |CountedSet(n, s)| && t < n
    ensures s.count == n ==> Counted(s.pc[t])
    ensures s.count == 0 ==> !Counted(s.pc[t])
    ensures 0 <= s.count <= n
  {
    var C := CountedSet(n, s);
    SubsetSize(C, Below(n));
    if s.count == n { assert t in C; }
    if s.count == 0 { assert t !in C; }
  }

  lemma ThreadStep(n: nat, s: State, s': State, t: nat, u: nat)
    requires Sized(n, s) && t < n && u < n && Step(n, s, s', t) && ThreadOk(n, s, t) && ThreadOk(n, s, u)
    requires (t != u ==> PairOk(s.pc[t], s.pc[u])) && s.mtx <= 1 && s.barr1 <= 1 && s.barr2 <= 1
    requires s.count == n ==> Counted(s.pc[u])
    requires s.count == 0 ==> !Counted(s.pc[u])
    requires s.mode != Drain ==> s.barr1 == 0
    requires s.mode != Fill ==> s.barr2 == 0
    ensures Sized(n, s') && ThreadOk(n, s', u)
  {
    if t == u {
      if s.mode == Fill {
        OwnFillStep(n, s, s', t);
      } else if s.mode == Drain {
        OwnDrainStep(n, s, s', t);
      } else {
        OwnSwitchStep(n, s, s', t);
      }
    }
  }

  lemma OwnFillStep(n: nat, s: State, s': State, t: nat)
    requires Sized(n, s) && t < n && Step(n, s, s', t) && ThreadOk(n, s, t) && s.mtx <= 1
    requires s.barr1 <= 1 && s.barr2 <= 1 && s.mode == Fill
    requires (s.mode != Drain ==> s.barr1 == 0) && (s.mode != Fill ==> s.barr2 == 0)
    ensures Sized(n, s') && ThreadOk(n, s', t)
  {
  }

  lemma OwnDrainStep(n: nat, s: State, s': State, t: nat)
    requires Sized(n, s) && t < n && Step(n, s, s', t) && ThreadOk(n, s, t) && s.mtx <= 1
    requires s.barr1 <= 1 && s.barr2 <= 1 && s.mode == Drain
    requires (s.mode != Drain ==> s.barr1 == 0) && (s.mode != Fill ==> s.barr2 == 0)
    ensures Sized(n, s') && ThreadOk(n, s', t)
  {
  }

  lemma OwnSwitchStep(n: nat, s: State, s': State, t: nat)
    requires Sized(n, s) && t < n && Step(n, s, s', t) && ThreadOk(n, s, t) && s.mtx <= 1
    requires s.barr1 <= 1 && s.barr2 <= 1 && (s.mode == ToDrain || s.mode == ToFill)
    requires (s.mode != Drain ==> s.barr1 == 0) && (s.mode != Fill ==> s.barr2 == 0)
    ensures Sized(n, s') && ThreadOk(n, s', t)
  {
  }

  lemma MtxStep(n: nat, s: State, s': State, t: nat)
    requires Sized(n, s) && t < n && Step(n, s, s', t) && ThreadOk(n, s, t) && MtxOk(n, s)
    ensures Sized(n, s') && MtxOk(n, s')
  {
    if s.mtx == 0 && s'.mtx == 0 {
      var u: nat :| u < n && Inside(s.pc[u]);
      assert Inside(s'.pc[u]);
    } else if s'.mtx == 0 {
      assert Inside(s'.pc[t]);
    }
  }

  lemma StaySomewhere(n: nat, s: State, s': State, t: nat, at: set<Pc>)
    requires Sized(n, s) && Sized(n, s') && t < n && s'.pc == s.pc[t := s'.pc[t]]
    requires Somewhere(n, s, at) && (s.pc[t] in at ==> s'.pc[t] in at)
    ensures Somewhere(n, s', at)
  {
    var u: nat :| u < n && s.pc[u] in at;
    assert s'.pc[u] in at;
  }

  lemma TurnstileStep(n: nat, s: State, s': State, t: nat)
    requires Sized(n, s) && t < n && Step(n, s, s', t) && ThreadOk(n, s, t) && TurnstilesOk(n, s)
    ensures Sized(n, s') && TurnstilesOk(n, s')
  {
    PcStep(n, s, s', t);
    if s'.mode == Drain && s'.barr1 == 0 {
      if s.mode == Drain && s.barr1 == 0 { StaySomewhere(n, s, s', t, {PostB1}); } else { assert s'.pc[t] in {PostB1}; }
    }
    if s'.mode == Fill && s'.barr2 == 0 {
      if s.mode == Fill && s.barr2 == 0 { StaySomewhere(n, s, s', t, {PostB2}); } else { assert s'.pc[t] in {PostB2}; }
    }
  }

  lemma LastStep(n: nat, s: State, s': State, t: nat)
    requires n >= 1 && Sized(n, s) && t < n && Step(n, s, s', t) && ThreadOk(n, s, t) && LastOk(n, s)
    requires s.count == n ==> Counted(s.pc[t])
    requires s.count == 0 ==> !Counted(s.pc[t])
    ensures Sized(n, s') && LastOk(n, s')
  {
    PcStep(n, s, s', t);
    if s'.mode == Fill && s'.count == n {
      if s'.pc[t] !in {TestN, WaitB2Inside} { StaySomewhere(n, s, s', t, {TestN, WaitB2Inside}); }
    }
    if s'.mode == Drain && s'.count == 0 {
      if s'.pc[t] !in {Test0, WaitB1Inside} { StaySomewhere(n, s, s', t, {Test0, WaitB1Inside}); }
    }
  }

  lemma PairStep(n: nat, s: State, s': State, t: nat, u: nat)
    requires Sized(n, s) && t < n && u < n && t != u && Step(n, s, s', t)
    requires ThreadOk(n, s, t) && ThreadOk(n, s, u) && PairOk(s.pc[t], s.pc[u])
    ensures Sized(n, s') && PairOk(s'.pc[t], s'.pc[u]) && PairOk(s'.pc[u], s'.pc[t])
  {
  }

  lemma StepKeeps(n: nat, s: State, s': State, t: nat)
    requires Inv(n, s) && t < n && Step(n, s, s', t)
    ensures Inv(n, s')
  {
    hide Step, ThreadOk, PairOk, CountedSet;
    PcStep(n, s, s', t);
    CountStep(n, s, s', t);
    CountExtremes(n, s, t);
    MtxStep(n, s, s', t);
    TurnstileStep(n, s, s', t);
    LastStep(n, s, s', t);
    forall u: nat | u < n ensures ThreadOk(n, s', u) {
      CountExtremes(n, s, u);
      ThreadStep(n, s, s', t, u);
    }
    forall u: nat, v: nat | u < n && v < n && u != v ensures PairOk(s'.pc[u], s'.pc[v]) {
      if u == t { PairStep(n, s, s', t, v); } else if v == t { PairStep(n, s, s', t, u); }
    }
  }

  lemma InitOk(n: nat, s: State)
    requires n >= 1 && Init(n, s)
    ensures Inv(n, s)
  {
    assert CountedSet(n, s) == {};
  }

  lemma {:induction false} RunInv(n: nat, tr: seq<State>, r: nat)
    requires n >= 1 && Run(n, tr) && r < |tr|
    ensures Inv(n, tr[r])
  {
    hide Inv;
    if r == 0 {
      InitOk(n, tr[0]);
    } else {
      RunInv(n, tr, r - 1);
      assert Next(n, tr[r - 1], tr[r - 1 + 1]);
      var t: nat :| t < n && Step(n, tr[r - 1], tr[r], t);
      StepKeeps(n, tr[r - 1], tr[r], t);
    }
  }

  // ----- what the barrier promises -----

  /** No thread leaves a round before all threads have entered it. */
  lemma NobodyLeavesEarly(n: nat, tr: seq<State>, r: nat, t: nat, u: nat)
    requires Run(n, tr) && r < |tr| && t < n && u < n
    ensures Sized(n, tr[r]) && tr[r].left[t] <= tr[r].entered[u]
  {
    RunInv(n, tr, r);
    assert ThreadOk(n, tr[r], t) && ThreadOk(n, tr[r], u);
  }

  /** Nor does it even pass the first turnstile. */
  lemma NobodyPassesEarly(n: nat, tr: seq<State>, r: nat, t: nat, u: nat)
    requires Run(n, tr) && r < |tr| && t < n && u < n && Sized(n, tr[r])
    requires tr[r].pc[t] in {PostB1, WaitMtx2, Dec, Test0, WaitB1Inside, PostB2Inside, PostMtx2, WaitB2, PostB2}
    ensures tr[r].entered[t] <= tr[r].entered[u]
  {
    RunInv(n, tr, r);
    assert ThreadOk(n, tr[r], t) && ThreadOk(n, tr[r], u);
  }

  lemma RoundsStayClose(n: nat, tr: seq<State>, r: nat, t: nat, u: nat)
    requires Run(n, tr) && r < |tr| && t < n && u < n
    ensures Sized(n, tr[r]) && tr[r].left[t] <= tr[r].left[u] + 1
  {
    RunInv(n, tr, r);
    assert ThreadOk(n, tr[r], t) && ThreadOk(n, tr[r], u);
  }

  /** The two waits under the mutex always find their semaphore positive. */
  lemma NestedWaitsNeverBlock(n: nat, tr: seq<State>, r: nat, t: nat)
    requires Run(n, tr) && r < |tr| && t < n && Sized(n, tr[r])
    requires tr[r].pc[t].WaitB2Inside? || tr[r].pc[t].WaitB1Inside?
    ensures Enabled(tr[r], tr[r].pc[t])
  {
    RunInv(n, tr, r);
    NestedEnabled(n, tr[r], t);
  }

  lemma NestedEnabled(n: nat, s: State, t: nat)
    requires Inv(n, s) && t < n && Inside(s.pc[t])
    ensures Enabled(s, s.pc[t])
  {
    assert ThreadOk(n, s, t);
    forall u: nat | u < n ensures s.pc[t].WaitB2Inside? ==> !s.pc[u].PostB2? {
      CountExtremes(n, s, u);
    }
    forall u: nat | u < n ensures s.pc[t].WaitB1Inside? ==> !s.pc[u].PostB1? {
      CountExtremes(n, s, u);
    }
  }

  /** A thread inside the barrier is never stuck there for good: as long as all threads of its round
      have come, those outside having left already, some thread inside can go on. */
  lemma NoDeadlock(n: nat, tr: seq<State>, r: nat, t: nat)
    requires Run(n, tr) && r < |tr| && t < n && Sized(n, tr[r]) && tr[r].pc[t] != Out
    requires forall u: nat :: u < n && tr[r].pc[u] == Out ==> tr[r].left[u] > tr[r].left[t]
    ensures exists u: nat :: u < n && Moves(tr[r], u)
  {
    RunInv(n, tr, r);
    SomeoneMoves(n, tr[r], t);
  }

  /** A thread inside the barrier can take its next step. */
  ghost predicate Moves(s: State, u: nat) {
    u < |s.pc| && s.pc[u] != Out && Enabled(s, s.pc[u])
  }

  lemma SomeoneMoves(n: nat, s: State, t: nat)
    requires Inv(n, s) && t < n && s.pc[t] != Out
    requires forall u: nat :: u < n && s.pc[u] == Out ==> s.left[u] > s.left[t]
    ensures exists u: nat :: u < n && Moves(s, u)
  {
    if s.mtx == 0 {
      var u: nat :| u < n && Inside(s.pc[u]);
      NestedEnabled(n, s, u);
      assert Moves(s, u);
    } else if s.mode == Drain && s.barr1 == 0 {
      var u: nat :| u < n && s.pc[u] in {PostB1};
      assert Moves(s, u);
    } else if s.mode == Fill && s.barr2 == 0 {
      var u: nat :| u < n && s.pc[u] in {PostB2};
      assert Moves(s, u);
    } else {
      AllWaiting(n, s, t);
    }
  }

  /** With the mutex free and the open turnstile passable, not everybody waits at the closed one. */
  lemma AllWaiting(n: nat, s: State, t: nat)
    requires Inv(n, s) && s.mtx == 1 && (s.mode == Drain ==> s.barr1 == 1) && (s.mode == Fill ==> s.barr2 == 1)
    requires t < n && s.pc[t] != Out && forall u: nat :: u < n && s.pc[u] == Out ==> s.left[u] > s.left[t]
    ensures exists u: nat :: u < n && Moves(s, u)
  {
    var C := CountedSet(n, s);
    forall u: nat | u < n ensures !Inside(s.pc[u]) { assert ThreadOk(n, s, u); }
    if s.mode == Fill {
      assert s.count != n;
      assert C != Below(n);
      SubsetSize(C, Below(n));
      var u :| u in Below(n) && u !in C;
      assert ThreadOk(n, s, u) && ThreadOk(n, s, t);
      assert Moves(s, if s.pc[u] == Out then t else u);
    } else {
      assert s.count != 0;
      var u :| u in C;
      assert ThreadOk(n, s, u);
      assert Moves(s, u);
    }
  }

  // ----- progress -----

  /** The steps of its own that thread t still takes at most before its call returns. */
  function Work(n: nat, s: State, t: nat): int
    requires Sized(n, s) && t < n
  {
    match s.pc[t]
    case Out => 0
    case WaitMtx1 => 16
    case Inc => 15
    case TestN => 14
    case WaitB2Inside => 13
    case PostB1Inside => 12
    case PostMtx1 => 11
    case WaitB1 => 10
    case PostB1 => 9
    case WaitMtx2 => 8
    case Dec => 7
    case Test0 => 6
    case WaitB1Inside => 5
    case PostB2Inside => 4
    case PostMtx2 => 3
    case WaitB2 => 2
    case PostB2 => 1
  }

  /** A call takes at most sixteen steps: each one brings the thread nearer to its return, no other
      thread sets it back, and it returns exactly when it counts another round left. */
  lemma StepNearer(n: nat, s: State, s': State, t: nat, u: nat)
    requires Sized(n, s) && t < n && u < n && Step(n, s, s', t) && s.pc[t] != Out
    ensures Sized(n, s') && 0 <= Work(n, s', t) < Work(n, s, t) <= 16
    ensures u != t ==> s'.pc[u] == s.pc[u] && s'.left[u] == s.left[u]
    ensures s'.left[t] == s.left[t] + if s'.pc[t] == Out then 1 else 0
  {
  }

  lemma CanStep(n: nat, s: State, t: nat) returns (s': State)
    requires Sized(n, s) && t < n && Enabled(s, s.pc[t])
    ensures Step(n, s, s', t)
  {
    match s.pc[t]
    case Out => s' := s.(pc := s.pc[t := WaitMtx1]);
    case WaitMtx1 => s' := s.(mtx := s.mtx - 1, pc := s.pc[t := Inc]);
    case Inc => s' := s.(count := s.count + 1, pc := s.pc[t := TestN], entered := s.entered[t := s.entered[t] + 1]);
    case TestN => s' := s.(pc := s.pc[t := if s.count == n then WaitB2Inside else PostMtx1]);
    case WaitB2Inside => s' := s.(barr2 := s.barr2 - 1, pc := s.pc[t := PostB1Inside], mode := ToDrain);
    case PostB1Inside => s' := s.(barr1 := s.barr1 + 1, pc := s.pc[t := PostMtx1], mode := Mode.Drain);
    case PostMtx1 => s' := s.(mtx := s.mtx + 1, pc := s.pc[t := WaitB1]);
    case WaitB1 => s' := s.(barr1 := s.barr1 - 1, pc := s.pc[t := PostB1]);
    case PostB1 => s' := s.(barr1 := s.barr1 + 1, pc := s.pc[t := WaitMtx2]);
    case WaitMtx2 => s' := s.(mtx := s.mtx - 1, pc := s.pc[t := Dec]);
    case Dec => s' := s.(count := s.count - 1, pc := s.pc[t := Test0]);
    case Test0 => s' := s.(pc := s.pc[t := if s.count == 0 then WaitB1Inside else PostMtx2]);
    case WaitB1Inside => s' := s.(barr1 := s.barr1 - 1, pc := s.pc[t := PostB2Inside], mode := ToFill);
    case PostB2Inside =>
      s' := s.(barr2 := s.barr2 + 1, pc := s.pc[t := PostMtx2], mode := Fill, round := s.round + 1);
    case PostMtx2 => s' := s.(mtx := s.mtx + 1, pc := s.pc[t := WaitB2]);
    case WaitB2 => s' := s.(barr2 := s.barr2 - 1, pc := s.pc[t := PostB2]);
    case PostB2 => s' := s.(barr2 := s.barr2 + 1, pc := s.pc[t := Out], left := s.left[t := s.left[t] + 1]);
  }

  /** Every thread has come for round m, and either left it already or is inside. */
  ghost predicate AllCame(n: nat, s: State, m: nat) {
    Sized(n, s) && forall t :: 0 <= t < n ==> s.left[t] == if s.pc[t] == Out then m + 1 else m
  }

  ghost predicate InsideStep(n: nat, s: State, s': State) {
    Sized(n, s) && exists t: nat :: t < n && s.pc[t] != Out && Step(n, s, s', t)
  }

  /** A run from s in which only threads take steps that are inside already. */
  ghost predicate Finishes(n: nat, tr: seq<State>, s: State) {
    |tr| > 0 && tr[0] == s && forall i :: 0 <= i < |tr| - 1 ==> InsideStep(n, tr[i], tr[i + 1])
  }

  ghost predicate AllLeft(n: nat, s: State, m: nat) {
    Sized(n, s) && forall t :: 0 <= t < n ==> s.pc[t] == Out && s.left[t] == m + 1
  }

  /** Once every thread has come for a round, all get through it without anyone's help, until none is
      left inside. */
  lemma EveryoneGetsThrough(n: nat, tr: seq<State>, r: nat, m: nat) returns (rest: seq<State>)
    requires n >= 1 && Run(n, tr) && r < |tr| && AllCame(n, tr[r], m)
    ensures Finishes(n, rest, tr[r]) && AllLeft(n, rest[|rest| - 1], m)
  {
    RunInv(n, tr, r);
    rest := Finish(n, tr[r], m);
  }

  function Works(n: nat, s: State): seq<int>
    requires Sized(n, s)
  {
    seq(n, t requires 0 <= t < n => Work(n, s, t))
  }

  lemma WorksFall(n: nat, s: State, s': State, u: nat, m: nat)
    requires Inv(n, s) && u < n && AllCame(n, s, m) && Step(n, s, s', u) && s.pc[u] != Out
    ensures Inv(n, s') && AllCame(n, s', m) && 0 <= Total(Works(n, s')) < Total(Works(n, s))
  {
    hide Step, Inv;
    StepKeeps(n, s, s', u);
    StepNearer(n, s, s', u, u);
    forall t | 0 <= t < n ensures 0 <= Work(n, s', t) <= Work(n, s, t) { StepNearer(n, s, s', u, t); }
    forall t | 0 <= t < n ensures s'.left[t] == if s'.pc[t] == Out then m + 1 else m { StepNearer(n, s, s', u, t); }
    TotalFalls(Works(n, s), Works(n, s'), u);
  }

  lemma Prepend(n: nat, s: State, s': State, more: seq<State>)
    requires Finishes(n, more, s') && InsideStep(n, s, s')
    ensures Finishes(n, [s] + more, s) && ([s] + more)[|more|] == more[|more| - 1]
  {
    hide InsideStep;
    var rest := [s] + more;
    forall i | 0 <= i < |rest| - 1 ensures InsideStep(n, rest[i], rest[i + 1]) {
      if i > 0 { assert InsideStep(n, more[i - 1], more[i - 1 + 1]); }
    }
  }

  lemma {:induction false} Finish(n: nat, s: State, m: nat) returns (rest: seq<State>)
    requires Inv(n, s) && AllCame(n, s, m)
    ensures Finishes(n, rest, s) && AllLeft(n, rest[|rest| - 1], m)
    decreases Total(Works(n, s))
  {
    hide Step, Inv, Work, Total, Works;
    if t: nat :| t < n && s.pc[t] != Out {
      SomeoneMoves(n, s, t);
      var u: nat :| u < n && Moves(s, u);
      var s' := CanStep(n, s, u);
      WorksFall(n, s, s', u, m);
      var more := Finish(n, s', m);
      Prepend(n, s, s', more);
      rest := [s] + more;
    } else {
      rest := [s];
    }
  }
}
