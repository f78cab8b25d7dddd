/** The bounded-waiting critical section of Assgn2-TAS_Fair for any number n of threads. Every
    access to `lock` or to one element of `waiting` is a step; `bypass` is history. */
module TasLock {
  import opened Counting

  datatype Pc =
    | Out
    | Test(key: bool)     // while(waiting[id] && key)
    | Tas                 // key = atomic_flag_test_and_set(&lock)
    | Clear               // waiting[id] = false
    | Critical
    | Scan(j: nat)        // while((j != id) && !waiting[j])
    | Release(j: nat)

  /** bypass[i]: how many other threads have entered since thread i last set waiting[i]. */
  datatype State = State(waiting: seq<bool>, locked: bool, pc: seq<Pc>, bypass: seq<nat>)

  ghost predicate Sized(n: nat, s: State) {
    |s.waiting| == |s.pc| == |s.bypass| == n
  }

  ghost predicate Init(n: nat, s: State) {
    && Sized(n, s) && !s.locked
    && forall t: nat :: t < n ==> !s.waiting[t] && s.pc[t] == Out
  }

  /** One more entry for every thread but t. */
  function Entered(bypass: seq<nat>, t: nat): seq<nat> {
    seq(|bypass|, i requires 0 <= i < |bypass| => if i == t then bypass[i] else bypass[i] + 1)
  }

  ghost predicate Step(n: nat, s: State, s': State, t: nat)
    requires Sized(n, s) && t < n
  {
    match s.pc[t]
    case Out => s' == s.(waiting := s.waiting[t := true], pc := s.pc[t := Test(true)], bypass := s.bypass[t := 0])
    case Test(key) => s' == s.(pc := s.pc[t := if s.waiting[t] && key then Tas else Clear])
    case Tas => s' == s.(locked := true, pc := s.pc[t := Test(s.locked)])
    case Clear =>
      s' == s.(waiting := s.waiting[t := false], pc := s.pc[t := Critical], bypass := Entered(s.bypass, t))
    case Critical => s' == s.(pc := s.pc[t := Scan((t + 1) % n)])
    case Scan(j) =>
      j < n && s' == s.(pc := s.pc[t := if j != t && !s.waiting[j] then Scan((j + 1) % n) else Release(j)])
    case Release(j) =>
      if j == t then s' == s.(locked := false, pc := s.pc[t := Out])
      else j < n && s' == s.(waiting := s.waiting[j := false], pc := s.pc[t := Out])
  }

  ghost predicate Next(n: nat, s: State, s': State) {
    Sized(n, s) && exists t: nat :: t < n && Step(n, s, s', t)
  }

  ghost predicate Run(n: nat, tr: seq<State>) {
    |tr| > 0 && Init(n, tr[0]) && forall i :: 0 <= i < |tr| - 1 ==> Next(n, tr[i], tr[i + 1])
  }

  // ----- the invariant -----

  predicate Trying(pc: Pc) { pc == Test(true) || pc.Tas? }

  /** Thread t has the lock token: it won the test-and-set, or was handed the token, and has not
      given it away. */
  predicate Token(s: State, t: nat)
    requires t < |s.pc| == |s.waiting|
  {
    s.pc[t] != Out && (Trying(s.pc[t]) ==> !s.waiting[t])
  }

  /** How far clockwise i is from h; a full circle when they are the same. */
  function Dist(n: nat, h: nat, i: nat): int {
    if i > h then i - h else i - h + n
  }

  ghost predicate ThreadOk(n: nat, s: State, t: nat)
    requires Sized(n, s) && t < n
  {
    && (s.waiting[t] ==> s.pc[t].Test? || s.pc[t].Tas? || s.pc[t].Clear?)
    && (s.pc[t].Scan? ==> s.pc[t].j < n)
    && (s.pc[t].Release? ==> s.pc[t].j < n && (s.pc[t].j != t ==> s.waiting[s.pc[t].j] && Trying(s.pc[s.pc[t].j])))
    && (Token(s, t) ==> s.locked)
  }

  /** Thread i waits, and t has the token. Each further entry brings the token closer to i, once
      the scan that gives it away has not passed i. */
  ghost predicate TurnOk(n: nat, s: State, t: nat, i: nat)
    requires Sized(n, s) && t < n && i < n
  {
    var d := Dist(n, t, i);
    match s.pc[t]
    case Critical => s.bypass[i] + d <= n
    case Scan(j) => if Dist(n, t, j) <= d then s.bypass[i] + d <= n else s.bypass[i] == 0
    case Release(j) => if Dist(n, t, j) <= d then s.bypass[i] + d <= n else s.bypass[i] == 0
    case _ => s.bypass[i] + d <= n - 1
  }

  ghost predicate WaitOk(n: nat, s: State, i: nat)
    requires Sized(n, s) && i < n
  {
    && (s.pc[i] != Out && !s.pc[i].Critical? && !s.pc[i].Scan? && !s.pc[i].Release? ==> s.bypass[i] <= n - 1)
    && (s.waiting[i] && Trying(s.pc[i]) ==>
          && (!s.locked ==> s.bypass[i] == 0)
          && forall t: nat :: t < n && Token(s, t) ==> TurnOk(n, s, t, i))
  }

  ghost predicate Inv(n: nat, s: State) {
    && Sized(n, s)
    && (forall t: nat :: t < n ==> ThreadOk(n, s, t))
    && (forall t: nat, u: nat :: t < n && u < n && Token(s, t) && Token(s, u) ==> t == u)
    && (s.locked ==> exists t: nat :: t < n && Token(s, t))
    && (forall i: nat :: i < n ==> WaitOk(n, s, i))
  }

  lemma ModNext(n: nat, j: nat)
    requires j < n
    ensures (j + 1) % n == if j + 1 == n then 0 else j + 1
  {
    var q, r := (j + 1) / n, (j + 1) % n;
    assert j + 1 == n * q + r && 0 <= r < n;
    assert (q >= 2 ==> n * q >= n * 2) && (q <= 0 ==> n * q <= 0);
  }

  lemma DistStep(n: nat, h: nat, j: nat)
    requires h < n && j < n
    ensures 1 <= Dist(n, h, j) <= n && (Dist(n, h, j) == n <==> h == j)
    ensures (j + 1) % n < n && (h != j ==> Dist(n, h, (j + 1) % n) == Dist(n, h, j) + 1)
    ensures (h + 1) % n < n && Dist(n, h, (h + 1) % n) == 1
  {
    ModNext(n, j);
    ModNext(n, h);
  }

  lemma DistBetween(n: nat, h: nat, j: nat, i: nat)
    requires h < n && j < n && i < n && h != j && Dist(n, h, j) < Dist(n, h, i)
    ensures Dist(n, j, i) == Dist(n, h, i) - Dist(n, h, j)
  {
  }

  /** Where the token can be after a step of thread t. */
  lemma TokenStep(n: nat, s: State, s': State, t: nat, u: nat)
    requires Sized(n, s) && t < n && u < n && Step(n, s, s', t) && ThreadOk(n, s, t) && ThreadOk(n, s, u)
    ensures Sized(n, s')
    ensures Token(s', u) <==>
      if s.pc[t].Release? then u != t && (u == s.pc[t].j || Token(s, u))
      else Token(s, u) || (s.pc[t].Tas? && !s.locked && u == t)
  {
    DistStep(n, t, t);
  }

  lemma ThreadStep(n: nat, s: State, s': State, t: nat, u: nat)
    requires Inv(n, s) && t < n && u < n && Step(n, s, s', t)
    ensures Sized(n, s') && ThreadOk(n, s', u)
  {
    hide WaitOk;
    assert ThreadOk(n, s, t) && ThreadOk(n, s, u);
    DistStep(n, t, t);
    if s.pc[t].Scan? {
      DistStep(n, t, s.pc[t].j);
      assert ThreadOk(n, s, s.pc[t].j);
      assert Token(s, t) && (Token(s, s.pc[t].j) ==> t == s.pc[t].j);
    }
    if s.pc[u].Release? { assert Token(s, u) && (Token(s, t) ==> t == u); }
    TokenStep(n, s, s', t, u);
  }

  /** The token stays where it is; only Clear counts an entry. */
  lemma TurnStays(n: nat, s: State, s': State, t: nat, u: nat, i: nat)
    requires Sized(n, s) && t < n && u < n && i < n && u != i && Step(n, s, s', t) && Sized(n, s')
    requires ThreadOk(n, s, t) && !s.pc[t].Release? && Token(s, u) && TurnOk(n, s, u, i)
    requires Token(s, t) ==> t == u
    requires s.waiting[i] && Trying(s.pc[i]) && t != i
    ensures TurnOk(n, s', u, i)
  {
    DistStep(n, u, i);
    DistStep(n, t, t);
    if s.pc[t].Scan? { DistStep(n, t, s.pc[t].j); }
  }

  /** The token is handed to u, which lies between t and i, or i was not waiting before. */
  lemma TurnHanded(n: nat, s: State, t: nat, u: nat, i: nat)
    requires Sized(n, s) && t < n && u < n && i < n && u != i && u != t && i != t
    requires s.pc[t] == Release(u) && TurnOk(n, s, t, i)
    ensures s.bypass[i] + Dist(n, u, i) <= n - 1
  {
    DistStep(n, u, i);
    DistStep(n, t, i);
    DistStep(n, t, u);
    if Dist(n, t, u) < Dist(n, t, i) { DistBetween(n, t, u, i); }
  }

  lemma TurnStep(n: nat, s: State, s': State, t: nat, u: nat, i: nat)
    requires Inv(n, s) && t < n && u < n && i < n && Step(n, s, s', t) && Sized(n, s')
    requires s'.waiting[i] && Trying(s'.pc[i]) && Token(s', u)
    ensures TurnOk(n, s', u, i)
  {
    assert ThreadOk(n, s, t) && ThreadOk(n, s, u) && ThreadOk(n, s, i) && WaitOk(n, s, i);
    TokenStep(n, s, s', t, u);
    DistStep(n, u, i);
    if t == i {
      TurnOwn(n, s, s', t, u);
    } else if s.pc[t].Release? {
      assert Token(s, t);
      TurnHanded(n, s, t, u, i);
    } else if Token(s, u) {
      TurnStays(n, s, s', t, u, i);
    }
  }

  /** Thread t itself goes on waiting, or starts to wait. */
  lemma TurnOwn(n: nat, s: State, s': State, t: nat, u: nat)
    requires Sized(n, s) && t < n && u < n && u != t && Step(n, s, s', t) && Sized(n, s')
    requires s'.waiting[t] && Trying(s'.pc[t]) && Token(s, u) && ThreadOk(n, s, u)
    requires s.waiting[t] && Trying(s.pc[t]) ==> TurnOk(n, s, u, t)
    requires ThreadOk(n, s, t) && (Token(s, t) ==> t == u)
    ensures TurnOk(n, s', u, t)
  {
    DistStep(n, u, t);
    if s.pc[u].Scan? || s.pc[u].Release? { DistStep(n, u, s.pc[u].j); }
  }

  /** Entries are counted against i only while somebody else has the token. */
  lemma CountStep(n: nat, s: State, s': State, t: nat, i: nat)
    requires Inv(n, s) && t < n && i < n && Step(n, s, s', t) && Sized(n, s')
    ensures s'.pc[i].Test? || s'.pc[i].Tas? || s'.pc[i].Clear? ==> s'.bypass[i] <= n - 1
    ensures s'.waiting[i] && Trying(s'.pc[i]) && !s'.locked ==> s'.bypass[i] == 0
  {
    assert WaitOk(n, s, i) && ThreadOk(n, s, t) && ThreadOk(n, s, i);
    DistStep(n, t, i);
    DistStep(n, t, t);
    if t != i && Token(s, t) && s.waiting[i] && Trying(s.pc[i]) { assert TurnOk(n, s, t, i); }
    if s.pc[t].Clear? && t != i { assert Token(s, t) && !Token(s, i); }
  }

  lemma WaitStep(n: nat, s: State, s': State, t: nat, i: nat)
    requires Inv(n, s) && t < n && i < n && Step(n, s, s', t) && Sized(n, s')
    ensures WaitOk(n, s', i)
  {
    hide Inv, TurnOk, Step;
    CountStep(n, s, s', t, i);
    if s'.waiting[i] && Trying(s'.pc[i]) {
      forall u: nat | u < n && Token(s', u) ensures TurnOk(n, s', u, i) { TurnStep(n, s, s', t, u, i); }
    }
  }

  lemma StepKeeps(n: nat, s: State, s': State, t: nat)
    requires Inv(n, s) && t < n && Step(n, s, s', t)
    ensures Inv(n, s')
  {
    assert ThreadOk(n, s, t);
    TokenStep(n, s, s', t, t);
    forall u: nat | u < n ensures ThreadOk(n, s', u) && WaitOk(n, s', u) {
      assert ThreadOk(n, s, u);
      ThreadStep(n, s, s', t, u);
      WaitStep(n, s, s', t, u);
    }
    forall u: nat, v: nat | u < n && v < n && Token(s', u) && Token(s', v) ensures u == v {
      assert ThreadOk(n, s, u) && ThreadOk(n, s, v);
      TokenStep(n, s, s', t, u);
      TokenStep(n, s, s', t, v);
      assert Token(s, u) && Token(s, v) ==> u == v;
      assert s.pc[t].Release? ==> Token(s, t);
      assert (Token(s, u) && Token(s, t) ==> u == t) && (Token(s, v) && Token(s, t) ==> v == t);
    }
    if s'.locked {
      TokenSurvives(n, s, s', t);
    }
  }

  lemma TokenSurvives(n: nat, s: State, s': State, t: nat)
    requires Inv(n, s) && t < n && Step(n, s, s', t) && s'.locked
    ensures Sized(n, s') && exists u: nat :: u < n && Token(s', u)
  {
    assert ThreadOk(n, s, t);
    if s.locked && !s.pc[t].Release? {
      var u: nat :| u < n && Token(s, u);
      assert ThreadOk(n, s, u);
      TokenStep(n, s, s', t, u);
    } else {
      var u := if s.pc[t].Release? then s.pc[t].j else t;
      assert ThreadOk(n, s, u);
      TokenStep(n, s, s', t, u);
    }
  }

  lemma {:induction false} RunInv(n: nat, tr: seq<State>, r: nat)
    requires Run(n, tr) && r < |tr|
    ensures Inv(n, tr[r])
  {
    if r > 0 {
      RunInv(n, tr, r - 1);
      assert Next(n, tr[r - 1], tr[r - 1 + 1]);
      var t: nat :| t < n && Step(n, tr[r - 1], tr[r], t);
      StepKeeps(n, tr[r - 1], tr[r], t);
    }
  }

  // ----- what the section promises -----

  lemma MutualExclusion(n: nat, tr: seq<State>, r: nat, t: nat, u: nat)
    requires Run(n, tr) && r < |tr| && t < n && u < n
    requires |tr[r].pc| == n && tr[r].pc[t] == tr[r].pc[u] == Critical
    ensures t == u
  {
    RunInv(n, tr, r);
    assert Token(tr[r], t) && Token(tr[r], u);
  }

  /** After thread i sets waiting[i], at most n - 1 other threads enter before it does. */
  lemma BoundedWaiting(n: nat, tr: seq<State>, r: nat, i: nat)
    requires Run(n, tr) && r < |tr| && i < n && Sized(n, tr[r])
    requires tr[r].pc[i].Test? || tr[r].pc[i].Tas? || tr[r].pc[i].Clear?
    ensures tr[r].bypass[i] <= n - 1
  {
    RunInv(n, tr, r);
    assert WaitOk(n, tr[r], i);
  }

  /** The lock is taken exactly while some thread has the token, so it is never lost. */
  lemma TokenNeverLost(n: nat, tr: seq<State>, r: nat)
    requires Run(n, tr) && r < |tr|
    ensures Sized(n, tr[r]) && (tr[r].locked <==> exists t: nat :: t < n && Token(tr[r], t))
  {
    RunInv(n, tr, r);
    forall t: nat | t < n && Token(tr[r], t) ensures tr[r].locked { assert ThreadOk(n, tr[r], t); }
  }

  // ----- progress -----

  /** The thread goes round its loop and learns nothing new until the token is given away. */
  ghost predicate Spins(s: State, t: nat)
    requires t < |s.pc| == |s.waiting|
  {
    Trying(s.pc[t]) && s.waiting[t] && s.locked
  }

  /** A bound on the steps of its own after which the holder of the token has given it away. */
  function HolderWork(n: nat, s: State, t: nat): int
    requires t < |s.pc|
  {
    match s.pc[t]
    case Out => 0
    case Tas => n + 6
    case Test(_) => n + 5
    case Clear => n + 4
    case Critical => n + 3
    case Scan(j) => n + 2 - Dist(n, t, j)
    case Release(_) => 1
  }

  /** The holder of the token comes closer to giving it away with every step it takes, and no other
      thread sets it back: it keeps the token for at most n + 6 steps of its own. */
  lemma HolderAdvances(n: nat, tr: seq<State>, r: nat, t: nat)
    requires Run(n, tr) && r + 1 < |tr| && t < n && Sized(n, tr[r]) && Token(tr[r], t)
    ensures Sized(n, tr[r + 1]) && 0 <= HolderWork(n, tr[r + 1], t) <= HolderWork(n, tr[r], t) <= n + 6
    ensures tr[r + 1].pc[t] != tr[r].pc[t] ==> HolderWork(n, tr[r + 1], t) < HolderWork(n, tr[r], t)
    ensures forall s' :: Step(n, tr[r], s', t) ==> |s'.pc| == n && s'.pc[t] != tr[r].pc[t]
    ensures Token(tr[r + 1], t) || HolderWork(n, tr[r + 1], t) == 0
  {
    RunInv(n, tr, r);
    RunInv(n, tr, r + 1);
    assert Next(n, tr[r], tr[r + 1]);
    var u: nat :| u < n && Step(n, tr[r], tr[r + 1], u);
    HolderStep(n, tr[r], tr[r + 1], u, t);
    forall s' | Step(n, tr[r], s', t) ensures |s'.pc| == n && s'.pc[t] != tr[r].pc[t] {
      HolderStep(n, tr[r], s', t, t);
    }
  }

  lemma HolderStep(n: nat, s: State, s': State, u: nat, t: nat)
    requires Inv(n, s) && u < n && t < n && Step(n, s, s', u) && Token(s, t)
    ensures Sized(n, s') && 0 <= HolderWork(n, s', t) <= HolderWork(n, s, t) <= n + 6
    ensures if u == t then HolderWork(n, s', t) < HolderWork(n, s, t) else s'.pc[t] == s.pc[t]
    ensures Token(s', t) || HolderWork(n, s', t) == 0
  {
    assert ThreadOk(n, s, t) && ThreadOk(n, s, u);
    DistStep(n, t, t);
    if s.pc[t].Scan? { DistStep(n, t, s.pc[t].j); }
  }

  /** A bound on the steps of its own that thread t still takes before it leaves the section, not
      counting those of its busy wait. */
  function Work(n: nat, s: State, t: nat): int
    requires t < |s.pc| == |s.waiting|
  {
    if Trying(s.pc[t]) && s.waiting[t] then if s.pc[t].Tas? then n + 8 else n + 9
    else HolderWork(n, s, t)
  }

  lemma WorkBounds(n: nat, s: State, t: nat)
    requires Inv(n, s) && t < n
    ensures 0 <= Work(n, s, t) <= n + 9 && (Work(n, s, t) == 0 <==> s.pc[t] == Out)
  {
    assert ThreadOk(n, s, t);
    DistStep(n, t, t);
    if s.pc[t].Scan? { DistStep(n, t, s.pc[t].j); }
  }

  /** Every step of a thread in the section brings it nearer to leaving it, unless it spins: then the
      two steps of a round bring it back to where it was. It leaves by giving the token away. */
  lemma OwnStep(n: nat, s: State, s': State, t: nat)
    requires Inv(n, s) && t < n && Step(n, s, s', t) && s.pc[t] != Out
    ensures Sized(n, s') && Work(n, s', t) <= Work(n, s, t) + 1 && (s'.pc[t] == Out ==> s.pc[t].Release?)
    ensures !Spins(s, t) ==> Work(n, s', t) < Work(n, s, t)
    ensures Spins(s, t) ==> Spins(s', t) && s' == s.(pc := s.pc[t := if s.pc[t].Tas? then Test(true) else Tas])
  {
    assert ThreadOk(n, s, t);
    if Token(s, t) {
      HolderStep(n, s, s', t, t);
    }
    hide WaitOk;
  }

  /** No step of another thread sets a thread back. */
  lemma OtherStep(n: nat, s: State, s': State, u: nat, t: nat)
    requires Inv(n, s) && u < n && t < n && u != t && Step(n, s, s', u)
    ensures Sized(n, s') && s'.pc[t] == s.pc[t] && Work(n, s', t) <= Work(n, s, t)
  {
    hide WaitOk, ThreadOk;
  }

  lemma CanStep(n: nat, s: State, t: nat) returns (s': State)
    requires Inv(n, s) && t < n
    ensures Step(n, s, s', t)
  {
    assert ThreadOk(n, s, t);
    hide WaitOk, Entered;
    match s.pc[t]
    case Out => s' := s.(waiting := s.waiting[t := true], pc := s.pc[t := Test(true)], bypass := s.bypass[t := 0]);
    case Test(key) => s' := s.(pc := s.pc[t := if s.waiting[t] && key then Tas else Clear]);
    case Tas => s' := s.(locked := true, pc := s.pc[t := Test(s.locked)]);
    case Clear =>
      s' := s.(waiting := s.waiting[t := false], pc := s.pc[t := Critical], bypass := Entered(s.bypass, t));
    case Critical => s' := s.(pc := s.pc[t := Scan((t + 1) % n)]);
    case Scan(j) =>
      s' := s.(pc := s.pc[t := if j != t && !s.waiting[j] then Scan((j + 1) % n) else Release(j)]);
    case Release(j) =>
      s' := if j == t then s.(locked := false, pc := s.pc[t := Out])
            else s.(waiting := s.waiting[j := false], pc := s.pc[t := Out]);
  }

  lemma NotAllSpin(n: nat, s: State, t: nat) returns (u: nat)
    requires Inv(n, s) && t < n && s.pc[t] != Out
    ensures u < n && s.pc[u] != Out && !Spins(s, u)
  {
    u := t;
    if s.locked { u :| u < n && Token(s, u); }
  }

  /** Whenever some thread is in the section, one such thread does not spin: the holder of the token,
      or anyone when there is none. It can take a step, and every step it can take brings it nearer to
      leaving the section. */
  lemma NoDeadlock(n: nat, tr: seq<State>, r: nat, t: nat) returns (u: nat)
    requires Run(n, tr) && r < |tr| && t < n && Sized(n, tr[r]) && tr[r].pc[t] != Out
    ensures u < n && tr[r].pc[u] != Out && exists s' :: Step(n, tr[r], s', u)
    ensures forall s' :: Step(n, tr[r], s', u) ==> Sized(n, s') && Work(n, s', u) < Work(n, tr[r], u)
  {
    RunInv(n, tr, r);
    u := NotAllSpin(n, tr[r], t);
    var s1 := CanStep(n, tr[r], u);
    hide Step, Inv, Work, Spins;
    forall s' | Step(n, tr[r], s', u) ensures Sized(n, s') && Work(n, s', u) < Work(n, tr[r], u) {
      OwnStep(n, tr[r], s', u);
    }
  }

  /** A thread that has the section to itself is through within n + 9 steps. */
  lemma {:induction false} AloneLeaves(n: nat, tr: seq<State>, a: nat, b: nat, t: nat)
    requires Run(n, tr) && a <= b < |tr| && t < n
    requires forall i :: a <= i <= b ==> |tr[i].pc| == n && forall u :: 0 <= u < n && u != t ==> tr[i].pc[u] == Out
    requires forall i :: a <= i < b ==> tr[i].pc[t] != Out
    ensures Sized(n, tr[a]) && Sized(n, tr[b]) && b - a + Work(n, tr[b], t) <= Work(n, tr[a], t)
    ensures b - a <= n + 9
    decreases b
  {
    hide Step, Work, Spins;
    RunInv(n, tr, a);
    RunInv(n, tr, b);
    WorkBounds(n, tr[a], t);
    WorkBounds(n, tr[b], t);
    if a < b {
      RunInv(n, tr, b - 1);
      AloneLeaves(n, tr, a, b - 1, t);
      AloneStep(n, tr, b - 1, t);
    }
  }

  lemma AloneStep(n: nat, tr: seq<State>, i: nat, t: nat)
    requires Run(n, tr) && i + 1 < |tr| && t < n && Inv(n, tr[i]) && Sized(n, tr[i + 1])
    requires tr[i].pc[t] != Out && forall u :: 0 <= u < n && u != t ==> tr[i].pc[u] == tr[i + 1].pc[u] == Out
    ensures Work(n, tr[i + 1], t) < Work(n, tr[i], t)
  {
    var s := tr[i];
    assert Next(n, s, tr[i + 1]);
    var u: nat :| u < n && Step(n, s, tr[i + 1], u);
    assert u == t;
    assert !Spins(s, t);
    hide Step, Work, Inv;
    OwnStep(n, s, tr[i + 1], t);
  }

  // ----- everyone gets through -----

  function Works(n: nat, s: State): seq<int>
    requires Sized(n, s)
  {
    seq(n, t requires 0 <= t < n => Work(n, s, t))
  }

  lemma WorksFall(n: nat, s: State, s': State, u: nat)
    requires Inv(n, s) && u < n && Step(n, s, s', u) && s.pc[u] != Out && !Spins(s, u)
    ensures Inv(n, s') && Sized(n, s') && Sized(n, s) && Total(Works(n, s')) < Total(Works(n, s))
  {
    assert Sized(n, s);
    hide Step, Inv, Work, Spins;
    StepKeeps(n, s, s', u);
    OwnStep(n, s, s', u);
    forall t | 0 <= t < n ensures 0 <= Work(n, s', t) <= Work(n, s, t) {
      WorkBounds(n, s', t);
      if t != u { OtherStep(n, s, s', u, t); }
    }
    TotalFalls(Works(n, s), Works(n, s'), u);
  }

  lemma WorksBound(n: nat, s: State)
    requires Inv(n, s)
    ensures Sized(n, s) && Total(Works(n, s)) >= 0
  {
    forall t | 0 <= t < n ensures 0 <= Work(n, s, t) { WorkBounds(n, s, t); }
    TotalOrdered(Works(n, s), Works(n, s));
  }

  /** A run from s in which only threads take steps that are in the section already. */
  ghost predicate Drains(n: nat, tr: seq<State>, s: State) {
    |tr| > 0 && tr[0] == s && forall i :: 0 <= i < |tr| - 1 ==> InsideStep(n, tr[i], tr[i + 1])
  }

  ghost predicate InsideStep(n: nat, s: State, s': State) {
    Sized(n, s) && exists t: nat :: t < n && s.pc[t] != Out && Step(n, s, s', t)
  }

  ghost predicate AllOut(n: nat, s: State) {
    Sized(n, s) && forall t :: 0 <= t < n ==> s.pc[t] == Out
  }

  /** From every reachable state all threads in the section can get through it without anyone's help. */
  lemma EveryoneGetsThrough(n: nat, tr: seq<State>, r: nat) returns (rest: seq<State>)
    requires Run(n, tr) && r < |tr|
    ensures Drains(n, rest, tr[r]) && AllOut(n, rest[|rest| - 1])
  {
    RunInv(n, tr, r);
    rest := Drain(n, tr[r]);
  }

  lemma Prepend(n: nat, s: State, s': State, more: seq<State>)
    requires Drains(n, more, s') && InsideStep(n, s, s')
    ensures Drains(n, [s] + more, s) && ([s] + more)[|more|] == more[|more| - 1]
  {
    hide InsideStep;
    var rest := [s] + more;
    forall i | 0 <= i < |rest| - 1 ensures InsideStep(n, rest[i], rest[i + 1]) {
      if i > 0 { assert InsideStep(n, more[i - 1], more[i - 1 + 1]); }
    }
  }

  lemma {:induction false} Drain(n: nat, s: State) returns (rest: seq<State>)
    requires Inv(n, s)
    ensures Drains(n, rest, s) && AllOut(n, rest[|rest| - 1])
    decreases if Sized(n, s) then Total(Works(n, s)) else 0
  {
    hide Step, Inv, Spins, Work;
    WorksBound(n, s);
    if AllOut(n, s) {
      rest := [s];
    } else {
      var t: nat :| t < n && s.pc[t] != Out;
      var u := NotAllSpin(n, s, t);
      var s' := CanStep(n, s, u);
      WorksFall(n, s, s', u);
      var more := Drain(n, s');
      Prepend(n, s, s', more);
      rest := [s] + more;
    }
  }
}
