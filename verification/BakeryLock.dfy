/** The bakery lock of b.cpp for any number n of threads. The scan for the largest label and the
    waiting loop read one shared location a step; `ahead` is history. */
module BakeryLock {
  import opened Counting

  const INT64_MAX := 0x7fff_ffff_ffff_ffff

  datatype Pc =
    | Out
    | ScanTest(i: nat, max: nat)     // maxLabel > lbl[i] ?
    | ScanTake(i: nat, max: nat)     // : lbl[i], read a second time
    | WriteLabel(max: nat)
    | ReadFlag(j: nat)
    | ReadLabel(j: nat)              // lbl[j] < lbl[tid]
    | ReadLabelAgain(j: nat)         // lbl[j] == lbl[tid]
    | Critical

  /** ahead[t]: the threads that held a label when t last raised its flag, and hold it still. */
  datatype State = State(flag: seq<bool>, lbl: seq<nat>, pc: seq<Pc>, halted: bool, ahead: seq<set<nat>>)

  ghost predicate Sized(n: nat, s: State) {
    |s.flag| == |s.lbl| == |s.pc| == |s.ahead| == n
  }

  ghost predicate Init(n: nat, s: State) {
    && Sized(n, s) && !s.halted
    && forall t: nat :: t < n ==> !s.flag[t] && s.lbl[t] == 0 && s.pc[t] == Out && s.ahead[t] == {}
  }

  predicate Doorway(pc: Pc) { pc.ScanTest? || pc.ScanTake? || pc.WriteLabel? }

  predicate Labelled(pc: Pc) { pc.ReadFlag? || pc.ReadLabel? || pc.ReadLabelAgain? || pc.Critical? }

  function Holders(s: State): set<nat> {
    set u | u in Below(|s.pc|) && Labelled(s.pc[u])
  }

  function Leave(ahead: seq<set<nat>>, t: nat): seq<set<nat>> {
    seq(|ahead|, u requires 0 <= u < |ahead| => ahead[u] - {t})
  }

  ghost predicate Step(n: nat, s: State, s': State, t: nat)
    requires Sized(n, s) && t < n
  {
    !s.halted &&
    match s.pc[t]
    case Out =>
      s' == s.(flag := s.flag[t := true], pc := s.pc[t := ScanTest(0, 0)], ahead := s.ahead[t := Holders(s)])
    case ScanTest(i, max) =>
      s' == s.(pc := s.pc[t := if i >= n then WriteLabel(max)
                               else if max > s.lbl[i] then ScanTest(i + 1, max)
                               else ScanTake(i, max)])
    case ScanTake(i, max) => i < n && s' == s.(pc := s.pc[t := ScanTest(i + 1, s.lbl[i])])
    case WriteLabel(max) =>
      if max == INT64_MAX then s' == s.(halted := true)
      else s' == s.(lbl := s.lbl[t := max + 1], pc := s.pc[t := ReadFlag(0)])
    case ReadFlag(j) =>
      s' == s.(pc := s.pc[t := if j >= n then Critical
                               else if j != t && s.flag[j] then ReadLabel(j)
                               else ReadFlag(j + 1)])
    case ReadLabel(j) =>
      j < n && s' == s.(pc := s.pc[t := if s.lbl[j] < s.lbl[t] then ReadFlag(j) else ReadLabelAgain(j)])
    case ReadLabelAgain(j) =>
      j < n && s' == s.(pc := s.pc[t := ReadFlag(if s.lbl[j] == s.lbl[t] && j < t then j else j + 1)])
    case Critical =>
      s' == s.(flag := s.flag[t := false], pc := s.pc[t := Out], ahead := Leave(s.ahead, t))
  }

  ghost predicate Next(n: nat, s: State, s': State) {
    Sized(n, s) && exists t: nat :: t < n && Step(n, s, s', t)
  }

  ghost predicate Run(n: nat, tr: seq<State>) {
    |tr| > 0 && Init(n, tr[0]) && forall i :: 0 <= i < |tr| - 1 ==> Next(n, tr[i], tr[i + 1])
  }

  // ----- the invariant -----

  predicate Less(lbl: seq<nat>, t: nat, k: nat)
    requires t < |lbl| && k < |lbl|
  {
    lbl[t] < lbl[k] || (lbl[t] == lbl[k] && t < k)
  }

  /** Thread k is in the doorway and will come out with a label above that of t. */
  predicate WillExceed(lbl: seq<nat>, pc: Pc, t: nat)
    requires t < |lbl|
  {
    match pc
    case ScanTest(i, max) => t < i ==> lbl[t] <= max
    case ScanTake(i, max) => t < i ==> lbl[t] <= max
    case WriteLabel(max) => lbl[t] <= max
    case _ => false
  }

  ghost predicate ThreadOk(n: nat, s: State, t: nat)
    requires Sized(n, s) && t < n
  {
    var pc := s.pc[t];
    && s.flag[t] == !pc.Out?
    && (Doorway(pc) ==> WillExceed(s.lbl, pc, t))
    && (pc.ScanTake? ==> pc.i < n && pc.max <= s.lbl[pc.i])
    && (pc.ReadLabel? || pc.ReadLabelAgain? ==> pc.j < n && pc.j != t)
    && (pc.ReadLabelAgain? ==> s.lbl[t] <= s.lbl[pc.j])
  }

  predicate Passed(pc: Pc, k: nat) {
    pc.Critical? || ((pc.ReadFlag? || pc.ReadLabel? || pc.ReadLabelAgain?) && k < pc.j)
  }

  /** Once t is done waiting for k, it stays before k until it leaves. */
  ghost predicate BeforeOk(n: nat, s: State, t: nat, k: nat)
    requires Sized(n, s) && t < n && k < n
  {
    k != t && Passed(s.pc[t], k) ==> !s.flag[k] || WillExceed(s.lbl, s.pc[k], t) || Less(s.lbl, t, k)
  }

  /** Thread a held its label before t raised its flag, so the label of t is or will be larger. */
  ghost predicate AheadOk(n: nat, s: State, t: nat, a: nat)
    requires Sized(n, s) && t < n
  {
    a in s.ahead[t] && s.pc[t] != Out ==>
      && a < n && a != t && Labelled(s.pc[a])
      && (if Doorway(s.pc[t]) then WillExceed(s.lbl, s.pc[t], a) else s.lbl[a] < s.lbl[t])
  }

  ghost predicate Inv(n: nat, s: State) {
    && Sized(n, s)
    && (forall t: nat :: t < n ==> ThreadOk(n, s, t))
    && (forall t: nat, k: nat :: t < n && k < n ==> BeforeOk(n, s, t, k))
    && (forall t: nat, a: nat :: t < n ==> AheadOk(n, s, t, a))
  }

  lemma ThreadStep(n: nat, s: State, s': State, t: nat, u: nat)
    requires Sized(n, s) && t < n && u < n && Step(n, s, s', t)
    requires ThreadOk(n, s, t) && ThreadOk(n, s, u)
    ensures Sized(n, s') && ThreadOk(n, s', u)
  {
    if u == t { OwnStep(n, s, s', t); }
  }

  lemma OwnStep(n: nat, s: State, s': State, t: nat)
    requires Sized(n, s) && t < n && Step(n, s, s', t) && ThreadOk(n, s, t)
    ensures Sized(n, s') && ThreadOk(n, s', t)
  {
    match s.pc[t]
    case Out =>
    case ScanTest(_, _) =>
    case ScanTake(_, _) =>
    case WriteLabel(_) =>
    case _ =>
  }

  lemma BeforeStep(n: nat, s: State, s': State, t: nat, u: nat, k: nat)
    requires Sized(n, s) && t < n && u < n && k < n && Step(n, s, s', t)
    requires ThreadOk(n, s, t) && ThreadOk(n, s, u) && ThreadOk(n, s, k) && BeforeOk(n, s, u, k)
    ensures Sized(n, s') && BeforeOk(n, s', u, k)
  {
  }

  lemma AheadStep(n: nat, s: State, s': State, t: nat, u: nat, a: nat)
    requires Sized(n, s) && t < n && u < n && Step(n, s, s', t)
    requires ThreadOk(n, s, t) && ThreadOk(n, s, u) && AheadOk(n, s, u, a)
    requires a < n ==> ThreadOk(n, s, a)
    ensures Sized(n, s') && AheadOk(n, s', u, a)
  {
  }

  lemma StepKeeps(n: nat, s: State, s': State, t: nat)
    requires Inv(n, s) && t < n && Step(n, s, s', t)
    ensures Inv(n, s')
  {
    hide Step, ThreadOk, BeforeOk, AheadOk;
    forall u: nat | u < n ensures Sized(n, s') && ThreadOk(n, s', u) { ThreadStep(n, s, s', t, u); }
    ThreadStep(n, s, s', t, t);
    forall u: nat, k: nat | u < n && k < n ensures BeforeOk(n, s', u, k) { BeforeStep(n, s, s', t, u, k); }
    forall u: nat, a: nat | u < n ensures AheadOk(n, s', u, a) { AheadStep(n, s, s', t, u, a); }
  }

  lemma {:induction false} RunInv(n: nat, tr: seq<State>, r: nat)
    requires Run(n, tr) && r < |tr|
    ensures Inv(n, tr[r])
  {
    if r > 0 {
      RunInv(n, tr, r - 1);
      assert Next(n, tr[r - 1], tr[r - 1 + 1]);
      var t: nat :| t < n && Step(n, tr[r - 1], tr[r], t);
      StepKeeps(n, tr[r - 1], tr[r], t);
    }
  }

  // ----- what the lock promises -----

  lemma MutualExclusion(n: nat, tr: seq<State>, r: nat, t: nat, k: nat)
    requires Run(n, tr) && r < |tr| && t < n && k < n
    requires |tr[r].pc| == n && tr[r].pc[t] == tr[r].pc[k] == Critical
    ensures t == k
  {
    RunInv(n, tr, r);
    assert BeforeOk(n, tr[r], t, k) && BeforeOk(n, tr[r], k, t);
    assert ThreadOk(n, tr[r], t) && ThreadOk(n, tr[r], k);
  }

  /** If a held its label before t raised its flag, and has not released the lock since, then t
      is not in its critical section. */
  lemma FirstComeFirstServed(n: nat, tr: seq<State>, r: nat, t: nat, a: nat)
    requires Run(n, tr) && r < |tr| && t < n
    requires |tr[r].pc| == |tr[r].ahead| == n && a in tr[r].ahead[t] && tr[r].pc[t] != Out
    ensures tr[r].pc[t] != Critical
  {
    RunInv(n, tr, r);
    assert AheadOk(n, tr[r], t, a);
    assert BeforeOk(n, tr[r], t, a) && ThreadOk(n, tr[r], a);
  }

  ghost predicate Spins(n: nat, s: State, t: nat)
    requires Sized(n, s) && t < n
  {
    var pc := s.pc[t];
    (pc.ReadFlag? || pc.ReadLabel? || pc.ReadLabelAgain?) && pc.j < n && pc.j != t &&
    s.flag[pc.j] && Less(s.lbl, pc.j, t)
  }

  lemma {:induction false} SmallestLabel(n: nat, s: State, T: set<nat>) returns (t: nat)
    requires Sized(n, s) && T != {} && forall u :: u in T ==> u < n
    ensures t in T && forall u :: u in T ==> !Less(s.lbl, u, t)
  {
    var v :| v in T;
    t := v;
    if T != {v} {
      var u := SmallestLabel(n, s, T - {v});
      t := if Less(s.lbl, u, v) then u else v;
      forall w | w in T ensures !Less(s.lbl, w, t) { assert w == v || w in T - {v}; }
    }
  }

  // ----- progress -----

  /** The other threads still to be looked at. */
  function Rest(n: nat, j: nat): nat {
    if j < n then n - j else 0
  }

  /** A bound on the steps of its own that thread t still takes before it leaves the lock, not
      counting those for which it has to wait. */
  function Work(n: nat, s: State, t: nat): int
    requires Sized(n, s) && t < n
  {
    match s.pc[t]
    case Out => 0
    case ScanTest(i, _) => 6 * n + 2 * Rest(n, i) + 4
    case ScanTake(i, _) => 6 * n + 2 * Rest(n, i) + 3
    case WriteLabel(_) => 6 * n + 3
    case ReadFlag(j) => 6 * Rest(n, j) + 2
    case ReadLabel(j) => 6 * Rest(n, j) + if j < n && Less(s.lbl, j, t) then 4 else 1
    case ReadLabelAgain(j) => 6 * Rest(n, j) + if j < n && Less(s.lbl, j, t) then 3 else 0
    case Critical => 1
  }

  lemma WorkBounds(n: nat, s: State, t: nat)
    requires Inv(n, s) && t < n
    ensures 0 <= Work(n, s, t) <= 8 * n + 4
    ensures (Work(n, s, t) == 0 <==> s.pc[t] == Out) && (Work(n, s, t) == 1 <==> s.pc[t] == Critical)
  {
    assert ThreadOk(n, s, t);
  }

  /** Every step of a thread in the lock brings it nearer to leaving it, unless it spins: then the
      reads of a round bring it back to where it was. */
  lemma OwnStepFalls(n: nat, s: State, s': State, t: nat)
    requires Inv(n, s) && t < n && Step(n, s, s', t) && s.pc[t] != Out && !s'.halted
    ensures Sized(n, s') && Work(n, s', t) <= Work(n, s, t) + 2 && (s.pc[t] == Critical <==> s'.pc[t] == Out)
    ensures !Spins(n, s, t) || !s.pc[t].ReadFlag? ==> Work(n, s', t) < Work(n, s, t)
    ensures Spins(n, s, t) ==>
              s'.lbl == s.lbl && s'.flag == s.flag && Spins(n, s', t) && s'.pc[t].j == s.pc[t].j
  {
    assert ThreadOk(n, s, t);
    hide BeforeOk, AheadOk, Holders, Leave, WillExceed;
  }

  /** No step of another thread sets a thread back. */
  lemma OtherStep(n: nat, s: State, s': State, u: nat, t: nat)
    requires Inv(n, s) && u < n && t < n && u != t && Step(n, s, s', u)
    ensures Sized(n, s') && s'.pc[t] == s.pc[t] && Work(n, s', t) <= Work(n, s, t)
  {
    assert ThreadOk(n, s, u);
    hide BeforeOk, AheadOk, Holders, Leave;
  }

  lemma CanStep(n: nat, s: State, t: nat) returns (s': State)
    requires Inv(n, s) && t < n && !s.halted
    ensures Step(n, s, s', t)
  {
    assert ThreadOk(n, s, t);
    hide BeforeOk, AheadOk, Holders, Leave, WillExceed, Less;
    match s.pc[t]
    case Out => s' := s.(flag := s.flag[t := true], pc := s.pc[t := ScanTest(0, 0)], ahead := s.ahead[t := Holders(s)]);
    case ScanTest(i, max) =>
      s' := s.(pc := s.pc[t := if i >= n then WriteLabel(max)
                               else if max > s.lbl[i] then ScanTest(i + 1, max)
                               else ScanTake(i, max)]);
    case ScanTake(i, max) => s' := s.(pc := s.pc[t := ScanTest(i + 1, s.lbl[i])]);
    case WriteLabel(max) =>
      s' := if max == INT64_MAX then s.(halted := true)
            else s.(lbl := s.lbl[t := max + 1], pc := s.pc[t := ReadFlag(0)]);
    case ReadFlag(j) =>
      s' := s.(pc := s.pc[t := if j >= n then Critical
                               else if j != t && s.flag[j] then ReadLabel(j)
                               else ReadFlag(j + 1)]);
    case ReadLabel(j) =>
      s' := s.(pc := s.pc[t := if s.lbl[j] < s.lbl[t] then ReadFlag(j) else ReadLabelAgain(j)]);
    case ReadLabelAgain(j) =>
      s' := s.(pc := s.pc[t := ReadFlag(if s.lbl[j] == s.lbl[t] && j < t then j else j + 1)]);
    case Critical =>
      s' := s.(flag := s.flag[t := false], pc := s.pc[t := Out], ahead := Leave(s.ahead, t));
  }

  lemma NotAllSpin(n: nat, s: State, t: nat) returns (u: nat)
    requires Inv(n, s) && t < n && s.pc[t] != Out
    ensures u < n && s.pc[u] != Out && !Spins(n, s, u)
  {
    var T := set u | u in Below(n) && s.pc[u] != Out;
    assert t in T;
    u := SmallestLabel(n, s, T);
    forall j: nat | j < n && s.flag[j] ensures !Less(s.lbl, j, u) { assert ThreadOk(n, s, j) && j in T; }
  }

  /** Whenever some thread is inside Lock or holds the lock, one such thread does not spin: it can take
      a step, and every step it can take brings it nearer to leaving the lock, or ends the program
      because the labels are used up. */
  lemma NoDeadlock(n: nat, tr: seq<State>, r: nat, t: nat) returns (u: nat)
    requires Run(n, tr) && r < |tr| && t < n && !tr[r].halted
    requires |tr[r].pc| == n && tr[r].pc[t] != Out
    ensures Sized(n, tr[r]) && u < n && tr[r].pc[u] != Out && exists s' :: Step(n, tr[r], s', u)
    ensures forall s' :: Step(n, tr[r], s', u) && !s'.halted ==> Sized(n, s') && Work(n, s', u) < Work(n, tr[r], u)
  {
    RunInv(n, tr, r);
    u := NotAllSpin(n, tr[r], t);
    var s1 := CanStep(n, tr[r], u);
    hide Step, Inv, Work, Spins;
    forall s' | Step(n, tr[r], s', u) && !s'.halted ensures Sized(n, s') && Work(n, s', u) < Work(n, tr[r], u) {
      OwnStepFalls(n, tr[r], s', u);
    }
  }

  /** A thread that has the lock to itself is through within a number of steps that depends on the
      number of threads alone. */
  lemma {:induction false} AloneEnters(n: nat, tr: seq<State>, a: nat, b: nat, t: nat)
    requires Run(n, tr) && a <= b < |tr| && t < n && !tr[b].halted
    requires forall i :: a <= i <= b ==> |tr[i].pc| == n && forall u :: 0 <= u < n && u != t ==> tr[i].pc[u] == Out
    requires forall i :: a <= i < b ==> tr[i].pc[t] != Out && tr[i].pc[t] != Critical
    ensures Sized(n, tr[a]) && Sized(n, tr[b]) && b - a + Work(n, tr[b], t) <= Work(n, tr[a], t)
    ensures b - a <= 8 * n + 4
    decreases b
  {
    hide Step, Work, Spins;
    RunInv(n, tr, a);
    RunInv(n, tr, b);
    WorkBounds(n, tr[a], t);
    WorkBounds(n, tr[b], t);
    if a < b {
      RunInv(n, tr, b - 1);
      AloneStep(n, tr, b - 1, t);
      AloneEnters(n, tr, a, b - 1, t);
    }
  }

  lemma AloneStep(n: nat, tr: seq<State>, i: nat, t: nat)
    requires Run(n, tr) && i + 1 < |tr| && t < n && Inv(n, tr[i]) && Sized(n, tr[i + 1]) && !tr[i + 1].halted
    requires tr[i].pc[t] != Out && forall u :: 0 <= u < n && u != t ==> tr[i].pc[u] == tr[i + 1].pc[u] == Out
    ensures Work(n, tr[i + 1], t) < Work(n, tr[i], t) && !tr[i].halted
  {
    var s := tr[i];
    assert Next(n, s, tr[i + 1]);
    var u: nat :| u < n && Step(n, s, tr[i + 1], u);
    assert u == t;
    forall j: nat | j < n && j != t ensures !s.flag[j] { assert ThreadOk(n, s, j); }
    hide Work, Inv;
    assert !Spins(n, s, t);
    OwnStepFalls(n, s, tr[i + 1], t);
  }

  // ----- the labels -----

  /** Labels are 64-bit numbers, a scan has found no more than the largest of them, and the program
      stops only when they are used up. */
  ghost predicate LabelsOk(n: nat, s: State) {
    && Sized(n, s)
    && (forall t: nat :: t < n ==> s.lbl[t] <= INT64_MAX)
    && (forall t: nat :: t < n && Doorway(s.pc[t]) ==> exists u: nat :: u < n && s.pc[t].max <= s.lbl[u])
    && (s.halted ==> exists u: nat :: u < n && s.lbl[u] == INT64_MAX)
  }

  lemma LabelsKeep(n: nat, s: State, s': State, t: nat)
    requires Inv(n, s) && LabelsOk(n, s) && t < n && Step(n, s, s', t)
    ensures LabelsOk(n, s')
  {
    assert ThreadOk(n, s, t);
    hide BeforeOk, AheadOk, Holders, Leave, Less;
    assert forall u: nat :: u < n ==> s.lbl[u] <= s'.lbl[u];
    forall v: nat | v < n && Doorway(s'.pc[v]) ensures exists u: nat :: u < n && s'.pc[v].max <= s'.lbl[u] {
      if v != t || (s.pc[t] != Out && s'.pc[v].max == s.pc[v].max) {
        var u: nat :| u < n && s.pc[v].max <= s.lbl[u];
        assert s'.pc[v].max <= s'.lbl[u];
      } else if s.pc[t] == Out {
        assert s'.pc[v].max <= s'.lbl[v];
      } else {
        assert s'.pc[v].max <= s'.lbl[s.pc[t].i];
      }
    }
    if s'.halted {
      var u: nat :| u < n && s.pc[t].max <= s.lbl[u];
      assert s'.lbl[u] == INT64_MAX;
    }
  }

  /** The program stops only when some thread has the largest label there is. */
  lemma {:induction false} HaltsWhenUsedUp(n: nat, tr: seq<State>, r: nat)
    requires Run(n, tr) && r < |tr|
    ensures LabelsOk(n, tr[r])
  {
    if r > 0 {
      HaltsWhenUsedUp(n, tr, r - 1);
      RunInv(n, tr, r - 1);
      assert Next(n, tr[r - 1], tr[r - 1 + 1]);
      var t: nat :| t < n && Step(n, tr[r - 1], tr[r], t);
      LabelsKeep(n, tr[r - 1], tr[r], t);
    }
  }

  // ----- everyone gets through -----

  /** A run from s in which only threads take steps that are in the lock already. */
  ghost predicate Drains(n: nat, tr: seq<State>, s: State) {
    |tr| > 0 && tr[0] == s && forall i :: 0 <= i < |tr| - 1 ==> InsideStep(n, tr[i], tr[i + 1])
  }

  ghost predicate InsideStep(n: nat, s: State, s': State) {
    Sized(n, s) && exists t: nat :: t < n && s.pc[t] != Out && Step(n, s, s', t)
  }

  ghost predicate AllOut(n: nat, s: State) {
    Sized(n, s) && forall t :: 0 <= t < n ==> s.pc[t] == Out
  }

  function InDoorway(s: State): set<nat> {
    set u | u in Below(|s.pc|) && Doorway(s.pc[u])
  }

  /** There is a label left for every thread that is about to take one. */
  ghost predicate Room(n: nat, s: State) {
    Sized(n, s) && !s.halted && forall t: nat :: t < n ==> s.lbl[t] + |InDoorway(s)| <= INT64_MAX
  }

  /** From every reachable state with labels left, all threads in the lock can get through it without
      anyone's help. */
  lemma EveryoneGetsThrough(n: nat, tr: seq<State>, r: nat) returns (rest: seq<State>)
    requires Run(n, tr) && r < |tr| && Room(n, tr[r])
    ensures Drains(n, rest, tr[r]) && AllOut(n, rest[|rest| - 1])
  {
    RunInv(n, tr, r);
    HaltsWhenUsedUp(n, tr, r);
    rest := Drain(n, tr[r]);
  }

  function Works(n: nat, s: State): seq<int>
    requires Sized(n, s)
  {
    seq(n, t requires 0 <= t < n => Work(n, s, t))
  }

  lemma WorksFall(n: nat, s: State, s': State, u: nat)
    requires Inv(n, s) && u < n && Step(n, s, s', u) && s.pc[u] != Out && !Spins(n, s, u) && !s'.halted
    ensures Inv(n, s') && Sized(n, s') && Sized(n, s) && Total(Works(n, s')) < Total(Works(n, s))
  {
    assert Sized(n, s);
    hide Step, Inv, Work, Spins;
    StepKeeps(n, s, s', u);
    OwnStepFalls(n, s, s', u);
    forall t | 0 <= t < n ensures 0 <= Work(n, s', t) <= Work(n, s, t) {
      WorkBounds(n, s', t);
      if t != u { OtherStep(n, s, s', u, t); }
    }
    TotalFalls(Works(n, s), Works(n, s'), u);
  }

  lemma WorksBound(n: nat, s: State)
    requires Inv(n, s)
    ensures Sized(n, s) && Total(Works(n, s)) >= 0
  {
    forall t | 0 <= t < n ensures 0 <= Work(n, s, t) { WorkBounds(n, s, t); }
    TotalOrdered(Works(n, s), Works(n, s));
  }

  lemma DoorwayStep(n: nat, s: State, s': State, t: nat)
    requires Inv(n, s) && t < n && Step(n, s, s', t) && s.pc[t] != Out
    ensures Sized(n, s) && Sized(n, s') && forall u :: 0 <= u < n && u != t ==> s'.pc[u] == s.pc[u]
    ensures if s.pc[t].WriteLabel? && s.pc[t].max != INT64_MAX
            then s'.lbl == s.lbl[t := s.pc[t].max + 1] && s'.pc[t] == ReadFlag(0) && s'.halted == s.halted
            else s'.lbl == s.lbl && (Doorway(s'.pc[t]) ==> Doorway(s.pc[t])) && (s'.halted ==> s.pc[t].WriteLabel?)
  {
    hide ThreadOk, BeforeOk, AheadOk, Holders;
  }

  lemma RoomKeeps(n: nat, s: State, s': State, t: nat)
    requires Inv(n, s) && LabelsOk(n, s) && Room(n, s) && t < n && Step(n, s, s', t) && s.pc[t] != Out
    ensures Room(n, s')
  {
    DoorwayStep(n, s, s', t);
    hide Inv, Step;
    var D, D' := InDoorway(s), InDoorway(s');
    if s.pc[t].WriteLabel? {
      var u: nat :| u < n && s.pc[t].max <= s.lbl[u];
      assert t in D && D' <= D;
      SubsetSize({t}, D);
      if s.pc[t].max != INT64_MAX { SubsetSize(D', D - {t}); }
    } else {
      SubsetSize(D', D);
    }
  }

  lemma Prepend(n: nat, s: State, s': State, more: seq<State>)
    requires Drains(n, more, s') && InsideStep(n, s, s')
    ensures Drains(n, [s] + more, s) && ([s] + more)[|more|] == more[|more| - 1]
  {
    hide InsideStep;
    var rest := [s] + more;
    forall i | 0 <= i < |rest| - 1 ensures InsideStep(n, rest[i], rest[i + 1]) {
      if i > 0 { assert InsideStep(n, more[i - 1], more[i - 1 + 1]); }
    }
  }

  lemma {:induction false} Drain(n: nat, s: State) returns (rest: seq<State>)
    requires Inv(n, s) && LabelsOk(n, s) && Room(n, s)
    ensures Drains(n, rest, s) && AllOut(n, rest[|rest| - 1])
    decreases if Sized(n, s) then Total(Works(n, s)) else 0
  {
    assert !s.halted;
    hide Step, Inv, Spins, Work, LabelsOk, Room, Total, Works;
    WorksBound(n, s);
    if AllOut(n, s) {
      rest := [s];
    } else {
      var t: nat :| t < n && s.pc[t] != Out;
      var u := NotAllSpin(n, s, t);
      var s' := CanStep(n, s, u);
      RoomKeeps(n, s, s', u);
      LabelsKeep(n, s, s', u);
      NotHalted(n, s');
      WorksFall(n, s, s', u);
      var more := Drain(n, s');
      Prepend(n, s, s', more);
      rest := [s] + more;
    }
  }

  lemma NotHalted(n: nat, s: State)
    requires Room(n, s)
    ensures !s.halted
  {
  }
}
