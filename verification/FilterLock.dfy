/** The filter lock of b.cpp for any number n of threads. A thread at level i looks at the other
    threads one at a time, and reads level[j] and victim[i] in two separate steps. */
module FilterLock {
  import opened Counting

  datatype Pc =
    | Out
    | SetLevel(i: nat)
    | SetVictim(i: nat)
    | ReadLevel(i: nat, j: nat)
    | ReadVictim(i: nat, j: nat)
    | Critical

  datatype State = State(level: seq<nat>, victim: seq<nat>, pc: seq<Pc>)

  ghost predicate Sized(n: nat, s: State) {
    |s.level| == |s.victim| == |s.pc| == n
  }

  ghost predicate Init(n: nat, s: State) {
    Sized(n, s) && forall t :: 0 <= t < n ==> s.level[t] == 0 && s.pc[t] == Out
  }

  /** The loop over levels goes on with level i, or Lock returns. */
  function Enter(n: nat, i: nat): Pc {
    if i < n then SetLevel(i) else Critical
  }

  ghost predicate Step(n: nat, s: State, s': State, t: nat)
    requires Sized(n, s) && t < n
  {
    match s.pc[t]
    case Out => s' == s.(pc := s.pc[t := Enter(n, 1)])
    case SetLevel(i) => s' == s.(level := s.level[t := i], pc := s.pc[t := SetVictim(i)])
    case SetVictim(i) => i < n && s' == s.(victim := s.victim[i := t], pc := s.pc[t := ReadLevel(i, 0)])
    case ReadLevel(i, j) =>
      s' == s.(pc := s.pc[t := if j >= n then Enter(n, i + 1)
                               else if j != t && s.level[j] >= i then ReadVictim(i, j)
                               else ReadLevel(i, j + 1)])
    case ReadVictim(i, j) =>
      i < n && s' == s.(pc := s.pc[t := ReadLevel(i, if s.victim[i] == t then j else j + 1)])
    case Critical => s' == s.(level := s.level[t := 0], pc := s.pc[t := Out])
  }

  ghost predicate Next(n: nat, s: State, s': State) {
    Sized(n, s) && exists t: nat :: t < n && Step(n, s, s', t)
  }

  ghost predicate Run(n: nat, tr: seq<State>) {
    |tr| > 0 && Init(n, tr[0]) && forall i :: 0 <= i < |tr| - 1 ==> Next(n, tr[i], tr[i + 1])
  }

  // ----- the invariant -----

  /** The highest level whose wait the thread has completed. */
  function Done(n: nat, pc: Pc): int {
    match pc
    case Out => 0
    case Critical => n - 1
    case _ => pc.i - 1
  }

  /** The highest level at which the thread has made itself the victim. */
  function Written(n: nat, pc: Pc): int {
    if pc.ReadLevel? || pc.ReadVictim? then pc.i else Done(n, pc)
  }

  ghost predicate LevelOk(n: nat, s: State, t: nat)
    requires Sized(n, s) && t < n
  {
    var pc := s.pc[t];
    && (!pc.Out? && !pc.Critical? ==> 1 <= pc.i < n)
    && (pc.ReadVictim? ==> pc.j < n && pc.j != t)
    && s.level[t] == if pc.SetVictim? then pc.i else Written(n, pc)
  }

  /** While anyone is past the victim write of level i, so is the victim of level i. */
  ghost predicate VictimOk(n: nat, s: State, i: nat)
    requires Sized(n, s) && i < n
  {
    (exists t :: 0 <= t < n && Written(n, s.pc[t]) >= i) ==>
      s.victim[i] < n && Written(n, s.pc[s.victim[i]]) >= i
  }

  /** In its wait at level i, thread t is done with thread k. */
  ghost predicate Passed(n: nat, pc: Pc, i: nat, k: nat) {
    Done(n, pc) >= i || ((pc.ReadLevel? || pc.ReadVictim?) && pc.i == i && k < pc.j)
  }

  ghost predicate PassOk(n: nat, s: State, t: nat, i: nat, k: nat)
    requires Sized(n, s) && t < n && i < n && k < n
  {
    k != t && Passed(n, s.pc[t], i, k) ==> Written(n, s.pc[k]) < i || s.victim[i] != t
  }

  ghost predicate Inv(n: nat, s: State) {
    && Sized(n, s)
    && (forall t: nat :: t < n ==> LevelOk(n, s, t))
    && (forall i: nat :: 1 <= i < n ==> VictimOk(n, s, i))
    && (forall t: nat, i: nat, k: nat :: t < n && 1 <= i < n && k < n ==> PassOk(n, s, t, i, k))
  }

  lemma LevelStep(n: nat, s: State, s': State, t: nat, u: nat)
    requires Sized(n, s) && t < n && u < n && Step(n, s, s', t)
    requires LevelOk(n, s, t) && LevelOk(n, s, u)
    ensures Sized(n, s') && LevelOk(n, s', u)
  {
  }

  lemma PassStep(n: nat, s: State, s': State, t: nat, u: nat, i: nat, k: nat)
    requires Sized(n, s) && t < n && u < n && 1 <= i < n && k < n && Step(n, s, s', t)
    requires LevelOk(n, s, t) && LevelOk(n, s, u) && LevelOk(n, s, k) && PassOk(n, s, u, i, k)
    ensures Sized(n, s') && PassOk(n, s', u, i, k)
  {
  }

  lemma StepKeeps(n: nat, s: State, s': State, t: nat)
    requires Inv(n, s) && t < n && Step(n, s, s', t)
    ensures Inv(n, s')
  {
    hide Step, LevelOk, PassOk, VictimOk;
    forall u: nat | u < n ensures Sized(n, s') && LevelOk(n, s', u) { LevelStep(n, s, s', t, u); }
    LevelStep(n, s, s', t, t);
    forall u: nat, i: nat, k: nat | u < n && 1 <= i < n && k < n ensures PassOk(n, s', u, i, k) {
      PassStep(n, s, s', t, u, i, k);
    }
    forall i: nat | 1 <= i < n ensures VictimOk(n, s', i) { VictimStep(n, s, s', t, i); }
  }

  lemma VictimStep(n: nat, s: State, s': State, t: nat, i: nat)
    requires Inv(n, s) && t < n && Step(n, s, s', t) && 1 <= i < n
    ensures Sized(n, s') && VictimOk(n, s', i)
  {
    assert VictimOk(n, s, i) && LevelOk(n, s, t);
    if u: nat :| u < n && Written(n, s'.pc[u]) >= i {
      assert u != t ==> Written(n, s.pc[u]) >= i;
      assert PassOk(n, s, t, i, u);
    }
  }

  lemma {:induction false} RunInv(n: nat, tr: seq<State>, r: nat)
    requires Run(n, tr) && r < |tr|
    ensures Inv(n, tr[r])
  {
    if r > 0 {
      RunInv(n, tr, r - 1);
      assert Next(n, tr[r - 1], tr[r - 1 + 1]);
      var t: nat :| t < n && Step(n, tr[r - 1], tr[r], t);
      StepKeeps(n, tr[r - 1], tr[r], t);
    }
  }

  // ----- what the lock promises -----

  /** The threads that have completed the wait at level i and not yet released the lock. */
  ghost function Through(n: nat, s: State, i: nat): set<nat>
    requires Sized(n, s)
  {
    set t | t in Below(n) && Done(n, s.pc[t]) >= i
  }

  /** Level i filters out at least one thread. */
  lemma {:induction false} FilterBound(n: nat, s: State, i: nat)
    requires Inv(n, s) && i < n
    ensures |Through(n, s, i)| <= n - i
  {
    var P := Through(n, s, i);
    if i == 0 {
      SubsetSize(P, Below(n));
    } else {
      FilterBound(n, s, i - 1);
      var v := s.victim[i];
      if P != {} {
        var t :| t in P;
        assert VictimOk(n, s, i) && LevelOk(n, s, v);
        if v in P {
          forall k | k in P ensures k == v { assert PassOk(n, s, v, i, k); }
          SubsetSize(P, {v});
        } else {
          forall k | k in P + {v} ensures k in Through(n, s, i - 1) {}
          SubsetSize(P + {v}, Through(n, s, i - 1));
        }
      }
    }
  }

  lemma LevelsFilter(n: nat, tr: seq<State>, r: nat, i: nat)
    requires Run(n, tr) && r < |tr| && i < n
    ensures Sized(n, tr[r]) && |Through(n, tr[r], i)| <= n - i
  {
    RunInv(n, tr, r);
    FilterBound(n, tr[r], i);
  }

  lemma MutualExclusion(n: nat, tr: seq<State>, r: nat, t: nat, u: nat)
    requires Run(n, tr) && r < |tr| && t < n && u < n
    requires |tr[r].pc| == n && tr[r].pc[t] == tr[r].pc[u] == Critical
    ensures t == u
  {
    LevelsFilter(n, tr, r, n - 1);
    if t != u { SubsetSize({t, u}, Through(n, tr[r], n - 1)); }
  }

  /** The busy wait of t on thread j would go round again. */
  ghost predicate Spins(n: nat, s: State, t: nat)
    requires Sized(n, s) && t < n
  {
    var pc := s.pc[t];
    (pc.ReadLevel? || pc.ReadVictim?) && pc.i < n && pc.j < n && pc.j != t &&
    s.level[pc.j] >= pc.i && s.victim[pc.i] == t
  }

  lemma {:induction false} HighestLevel(n: nat, s: State, T: set<nat>) returns (t: nat)
    requires Sized(n, s) && T != {} && forall u :: u in T ==> u < n
    ensures t in T && forall u :: u in T ==> s.level[u] <= s.level[t]
  {
    t :| t in T;
    if T != {t} {
      var u := HighestLevel(n, s, T - {t});
      t := if s.level[u] > s.level[t] then u else t;
    }
  }

  // ----- progress -----

  /** The other threads still to be looked at. */
  function Rest(n: nat, j: nat): nat {
    if j < n then n - j else 0
  }

  /** What is left of a level: its two writes, and the reads that decide for each other thread. A
      round of the busy wait that has to be repeated costs one read more. */
  function LevelWork(n: nat, s: State, t: nat): int
    requires Sized(n, s) && t < n
  {
    match s.pc[t]
    case SetLevel(_) => 3 * n + 4
    case SetVictim(_) => 3 * n + 3
    case ReadLevel(_, j) => 3 * Rest(n, j) + 1
    case ReadVictim(i, j) => if i < n && s.victim[i] == t then 3 * Rest(n, j) + 2 else 3 * Rest(n, j)
    case _ => 0
  }

  /** A bound on the steps of its own that thread t still takes before it leaves the lock, not
      counting those for which it has to wait. */
  function Work(n: nat, s: State, t: nat): int
    requires Sized(n, s) && t < n
  {
    match s.pc[t]
    case Out => 0
    case Critical => 1
    case _ => Times(n - 1 - s.pc[t].i, 3 * n + 4) + LevelWork(n, s, t) + 1
  }

  function MaxWork(n: nat): int {
    Times(n, 3 * n + 4) + 1
  }

  /** The work is bounded in the number of threads alone. It is 0 outside the lock and 1 in the
      critical section. */
  lemma WorkBounds(n: nat, s: State, t: nat)
    requires Inv(n, s) && t < n
    ensures 0 <= Work(n, s, t) <= MaxWork(n)
    ensures (Work(n, s, t) == 0 <==> s.pc[t] == Out) && (Work(n, s, t) == 1 <==> s.pc[t] == Critical)
  {
    assert LevelOk(n, s, t);
    TimesLess(n, 3 * n + 4);
    if s.pc[t] != Out && s.pc[t] != Critical {
      TimesLess(n - 1 - s.pc[t].i, 3 * n + 4);
      TimesGrows(n - 1 - s.pc[t].i, n - 1, 3 * n + 4);
    }
  }

  /** Every step of a thread in the lock brings it nearer to leaving it, unless it spins: then the two
      reads of a round bring it back to where it was. */
  lemma OwnStep(n: nat, s: State, s': State, t: nat)
    requires Inv(n, s) && t < n && Step(n, s, s', t) && s.pc[t] != Out
    ensures Sized(n, s') && Work(n, s', t) <= Work(n, s, t) + 1 && (s.pc[t] == Critical <==> s'.pc[t] == Out)
    ensures !Spins(n, s, t) ==> Work(n, s', t) < Work(n, s, t)
    ensures Spins(n, s, t) && s.pc[t].ReadVictim? ==> Work(n, s', t) == Work(n, s, t) - 1
    ensures Spins(n, s, t) && s.pc[t].ReadLevel? ==>
              s' == s.(pc := s.pc[t := ReadVictim(s.pc[t].i, s.pc[t].j)]) && Spins(n, s', t)
  {
    assert LevelOk(n, s, t);
    if s.pc[t] != Critical { TimesLess(n - 1 - s.pc[t].i, 3 * n + 4); }
    hide Times, PassOk, VictimOk;
  }

  /** No step of another thread sets a thread back. */
  lemma OtherStep(n: nat, s: State, s': State, u: nat, t: nat)
    requires Inv(n, s) && u < n && t < n && u != t && Step(n, s, s', u)
    ensures Sized(n, s') && s'.pc[t] == s.pc[t] && Work(n, s', t) <= Work(n, s, t)
  {
    hide Times, PassOk, VictimOk;
  }

  lemma CanStep(n: nat, s: State, t: nat) returns (s': State)
    requires Inv(n, s) && t < n
    ensures Step(n, s, s', t)
  {
    assert LevelOk(n, s, t);
    match s.pc[t]
    case Out => s' := s.(pc := s.pc[t := Enter(n, 1)]);
    case SetLevel(i) => s' := s.(level := s.level[t := i], pc := s.pc[t := SetVictim(i)]);
    case SetVictim(i) => s' := s.(victim := s.victim[i := t], pc := s.pc[t := ReadLevel(i, 0)]);
    case ReadLevel(i, j) =>
      s' := s.(pc := s.pc[t := if j >= n then Enter(n, i + 1)
                               else if j != t && s.level[j] >= i then ReadVictim(i, j)
                               else ReadLevel(i, j + 1)]);
    case ReadVictim(i, j) => s' := s.(pc := s.pc[t := ReadLevel(i, if s.victim[i] == t then j else j + 1)]);
    case Critical => s' := s.(level := s.level[t := 0], pc := s.pc[t := Out]);
  }

  lemma NotAllSpin(n: nat, s: State, t: nat) returns (u: nat)
    requires Inv(n, s) && t < n && s.pc[t] != Out
    ensures u < n && s.pc[u] != Out && !Spins(n, s, u)
  {
    var T := set u | u in Below(n) && s.pc[u] != Out;
    assert t in T;
    u := HighestLevel(n, s, T);
    assert LevelOk(n, s, u);
    if Spins(n, s, u) {
      var j := s.pc[u].j;
      assert LevelOk(n, s, j);
      u := j;
    }
  }

  /** Whenever some thread is inside Lock or holds the lock, one such thread does not spin: it can take
      a step, and every step it can take brings it nearer to leaving the lock. */
  lemma NoDeadlock(n: nat, tr: seq<State>, r: nat, t: nat) returns (u: nat)
    requires Run(n, tr) && r < |tr| && t < n
    requires |tr[r].pc| == n && tr[r].pc[t] != Out
    ensures Sized(n, tr[r]) && u < n && tr[r].pc[u] != Out && exists s' :: Step(n, tr[r], s', u)
    ensures forall s' :: Step(n, tr[r], s', u) ==> Sized(n, s') && Work(n, s', u) < Work(n, tr[r], u)
  {
    RunInv(n, tr, r);
    u := NotAllSpin(n, tr[r], t);
    var s1 := CanStep(n, tr[r], u);
    hide Step, Inv, Work, Spins;
    forall s' | Step(n, tr[r], s', u) ensures Sized(n, s') && Work(n, s', u) < Work(n, tr[r], u) {
      OwnStep(n, tr[r], s', u);
    }
  }

  /** A thread that has the lock to itself is through within a number of steps that depends on the
      number of threads alone. */
  lemma {:induction false} AloneEnters(n: nat, tr: seq<State>, a: nat, b: nat, t: nat)
    requires Run(n, tr) && a <= b < |tr| && t < n
    requires forall i :: a <= i <= b ==> |tr[i].pc| == n && forall u :: 0 <= u < n && u != t ==> tr[i].pc[u] == Out
    requires forall i :: a <= i < b ==> tr[i].pc[t] != Out && tr[i].pc[t] != Critical
    ensures Sized(n, tr[a]) && Sized(n, tr[b]) && b - a + Work(n, tr[b], t) <= Work(n, tr[a], t)
    ensures b - a <= MaxWork(n)
    decreases b
  {
    hide Step, Work, Spins;
    RunInv(n, tr, a);
    RunInv(n, tr, b);
    WorkBounds(n, tr[a], t);
    WorkBounds(n, tr[b], t);
    if a < b {
      AloneEnters(n, tr, a, b - 1, t);
      RunInv(n, tr, b - 1);
      AloneStep(n, tr, b - 1, t);
    }
  }

  lemma AloneStep(n: nat, tr: seq<State>, i: nat, t: nat)
    requires Run(n, tr) && i + 1 < |tr| && t < n && Inv(n, tr[i]) && Sized(n, tr[i + 1])
    requires tr[i].pc[t] != Out && forall u :: 0 <= u < n && u != t ==> tr[i].pc[u] == tr[i + 1].pc[u] == Out
    ensures Work(n, tr[i + 1], t) < Work(n, tr[i], t)
  {
    var s := tr[i];
    assert Next(n, s, tr[i + 1]);
    var u: nat :| u < n && Step(n, s, tr[i + 1], u);
    assert u == t;
    forall j: nat | j < n && j != t ensures s.level[j] == 0 { assert LevelOk(n, s, j); }
    assert LevelOk(n, s, t);
    hide Step, Work, Inv;
    assert !Spins(n, s, t);
    OwnStep(n, s, tr[i + 1], t);
  }

  // ----- everyone gets through -----

  function Works(n: nat, s: State): seq<int>
    requires Sized(n, s)
  {
    seq(n, t requires 0 <= t < n => Work(n, s, t))
  }

  lemma WorksFall(n: nat, s: State, s': State, u: nat)
    requires Inv(n, s) && u < n && Step(n, s, s', u) && s.pc[u] != Out && !Spins(n, s, u)
    ensures Inv(n, s') && Sized(n, s') && Sized(n, s) && Total(Works(n, s')) < Total(Works(n, s))
  {
    assert Sized(n, s);
    hide Step, Inv, Work, Spins;
    StepKeeps(n, s, s', u);
    OwnStep(n, s, s', u);
    forall t | 0 <= t < n ensures 0 <= Work(n, s', t) <= Work(n, s, t) {
      WorkBounds(n, s', t);
      if t != u { OtherStep(n, s, s', u, t); }
    }
    TotalFalls(Works(n, s), Works(n, s'), u);
  }

  lemma WorksBound(n: nat, s: State)
    requires Inv(n, s)
    ensures Sized(n, s) && Total(Works(n, s)) >= 0
  {
    forall t | 0 <= t < n ensures 0 <= Work(n, s, t) { WorkBounds(n, s, t); }
    TotalOrdered(Works(n, s), Works(n, s));
  }

  /** A run from s in which only threads take steps that are in the lock already. */
  ghost predicate Drains(n: nat, tr: seq<State>, s: State) {
    |tr| > 0 && tr[0] == s && forall i :: 0 <= i < |tr| - 1 ==> InsideStep(n, tr[i], tr[i + 1])
  }

  ghost predicate InsideStep(n: nat, s: State, s': State) {
    Sized(n, s) && exists t: nat :: t < n && s.pc[t] != Out && Step(n, s, s', t)
  }

  ghost predicate AllOut(n: nat, s: State) {
    Sized(n, s) && forall t :: 0 <= t < n ==> s.pc[t] == Out
  }

  /** From every reachable state all threads in the lock can get through it without anyone's help. */
  lemma EveryoneGetsThrough(n: nat, tr: seq<State>, r: nat) returns (rest: seq<State>)
    requires Run(n, tr) && r < |tr|
    ensures Drains(n, rest, tr[r]) && AllOut(n, rest[|rest| - 1])
  {
    RunInv(n, tr, r);
    rest := Drain(n, tr[r]);
  }

  lemma Prepend(n: nat, s: State, s': State, more: seq<State>)
    requires Drains(n, more, s') && InsideStep(n, s, s')
    ensures Drains(n, [s] + more, s) && ([s] + more)[|more|] == more[|more| - 1]
  {
    hide InsideStep;
    var rest := [s] + more;
    forall i | 0 <= i < |rest| - 1 ensures InsideStep(n, rest[i], rest[i + 1]) {
      if i > 0 { assert InsideStep(n, more[i - 1], more[i - 1 + 1]); }
    }
  }

  lemma {:induction false} Drain(n: nat, s: State) returns (rest: seq<State>)
    requires Inv(n, s)
    ensures Drains(n, rest, s) && AllOut(n, rest[|rest| - 1])
    decreases if Sized(n, s) then Total(Works(n, s)) else 0
  {
    hide Step, Inv, Spins, LevelOk, Work;
    WorksBound(n, s);
    if AllOut(n, s) {
      rest := [s];
    } else {
      var t: nat :| t < n && s.pc[t] != Out;
      var u := NotAllSpin(n, s, t);
      var s' := CanStep(n, s, u);
      WorksFall(n, s, s', u);
      var more := Drain(n, s');
      Prepend(n, s, s', more);
      rest := [s] + more;
    }
  }
}
