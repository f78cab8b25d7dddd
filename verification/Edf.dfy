/** The earliest-deadline-first simulator of Assgn1-EDF. A process is named by its place in the
    input; `sched` is history: the process that ran in each second, or -1. */
module Edf {
  import opened Counting

  datatype Job = Job(pid: int, t: int, p: int, st: nat) {
    function Dline(): int { st + p }
  }

  /** What one simulation has reached: the two queues, the finished processes, and for every
      process its run time and end time. */
  datatype Sim = Sim(all: set<nat>, rq: set<nat>, running: int, fin: seq<nat>, cur: int,
                     runTime: seq<nat>, endTime: seq<int>, sched: seq<int>)

  // ----- schedules -----

  /** A process runs only from its start to before its deadline. */
  ghost predicate Legal(jobs: seq<Job>, S: seq<int>) {
    forall x :: 0 <= x < |S| && S[x] != -1 ==>
      0 <= S[x] < |jobs| && jobs[S[x]].st <= x < jobs[S[x]].Dline()
  }

  /** S gives every process exactly its processing time. */
  ghost predicate Schedule(jobs: seq<Job>, S: seq<int>) {
    Legal(jobs, S) && forall j :: 0 <= j < |jobs| ==> multiset(S)[j] == jobs[j].t
  }

  ghost predicate Feasible(jobs: seq<Job>) {
    exists S :: Schedule(jobs, S)
  }

  /** Some schedule for all processes starts in this way. */
  ghost predicate Completable(jobs: seq<Job>, sched: seq<int>) {
    exists S :: Schedule(jobs, S) && sched <= S
  }

  // ----- the earliest deadline first rule -----

  /** Process j has come by second x, can still run before its deadline, and has not been given its
      processing time. A process that asks for less than a second is never done. */
  ghost predicate Waiting(jobs: seq<Job>, sched: seq<int>, x: nat, j: int)
    requires x <= |sched|
  {
    && 0 <= j < |jobs| && jobs[j].st <= x < jobs[j].Dline()
    && (multiset(sched[..x])[j] < jobs[j].t || jobs[j].t < 1)
  }

  /** No process comes before i: an earlier deadline counts, and then an earlier start. */
  predicate Urgent(i: Job, j: Job) {
    i.Dline() < j.Dline() || (i.Dline() == j.Dline() && i.st <= j.st)
  }

  /** Second x is idle only when nothing waits, and otherwise goes to a most urgent waiting process;
      a process that has run gives way to one just as urgent. */
  ghost predicate RuleAt(jobs: seq<Job>, sched: seq<int>, x: nat)
    requires x < |sched|
  {
    var i := sched[x];
    if i == -1 then forall j :: !Waiting(jobs, sched, x, j) else
      && Waiting(jobs, sched, x, i)
      && (forall j :: Waiting(jobs, sched, x, j) ==> Urgent(jobs[i], jobs[j]))
      && (x > 0 && sched[x - 1] == i ==>
            forall j :: Waiting(jobs, sched, x, j) && j != i ==> !Urgent(jobs[j], jobs[i]))
  }

  ghost predicate EarliestFirst(jobs: seq<Job>, sched: seq<int>) {
    forall x: nat :: x < |sched| ==> RuleAt(jobs, sched, x)
  }

  /** When process j leaves the system: in the last second it ran, if it got its time, and otherwise
      at its deadline. */
  ghost predicate EndsAt(jobs: seq<Job>, sched: seq<int>, j: nat, e: int)
    requires j < |jobs|
  {
    if multiset(sched)[j] == jobs[j].t >= 1 then
      0 <= e < |sched| && sched[e] == j && forall x :: e < x < |sched| ==> sched[x] != j
    else
      (multiset(sched)[j] < jobs[j].t || jobs[j].t < 1) && e == jobs[j].Dline() <= |sched|
  }

  // ----- the invariant of the simulator -----

  ghost predicate InRange(jobs: seq<Job>, a: Sim) {
    && |a.runTime| == |a.endTime| == |jobs| && -1 <= a.running < |jobs| && |a.sched| == a.cur
    && (forall j :: j in a.all || j in a.rq ==> j < |jobs|)
    && (forall i :: 0 <= i < |a.fin| ==> a.fin[i] < |jobs|)
  }

  ghost predicate Ready(a: Sim, j: int) {
    0 <= j && (j in a.rq || a.running == j)
  }

  ghost predicate JobOk(jobs: seq<Job>, a: Sim, j: nat)
    requires InRange(jobs, a) && j < |jobs|
  {
    && (j in a.all || Ready(a, j) || j in a.fin)
    && (j in a.all ==> !Ready(a, j) && j !in a.fin && a.cur <= jobs[j].st)
    && (Ready(a, j) ==> j !in a.fin && jobs[j].st <= a.cur && (a.runTime[j] < jobs[j].t || jobs[j].t < 1))
    && (j in a.rq ==> a.running != j)
    && (j in a.fin ==> EndsAt(jobs, a.sched, j, a.endTime[j]))
    && a.runTime[j] == multiset(a.sched)[j]
  }

  ghost predicate Consistent(jobs: seq<Job>, a: Sim) {
    && InRange(jobs, a) && Legal(jobs, a.sched)
    && (forall j: nat :: j < |jobs| ==> JobOk(jobs, a, j))
    && (forall x, y :: 0 <= x < y < |a.fin| ==> a.fin[x] != a.fin[y])
    && EarliestFirst(jobs, a.sched)
  }

  ghost predicate LastRan(a: Sim, j: int) {
    |a.sched| > 0 && a.sched[|a.sched| - 1] == j
  }

  /** Between two turns: what ran last runs still, or is finished. */
  ghost predicate Settled(a: Sim) {
    && (a.running != -1 ==> LastRan(a, a.running))
    && (a.running == -1 ==> forall j :: LastRan(a, j) ==> j == -1 || j in a.fin)
  }

  ghost predicate Schedulable(jobs: seq<Job>) {
    Feasible(jobs) && forall j :: 0 <= j < |jobs| ==> jobs[j].t >= 1
  }

  ghost predicate Ok(jobs: seq<Job>, a: Sim) {
    Consistent(jobs, a) && (Schedulable(jobs) ==> Completable(jobs, a.sched))
  }

  // ----- why earliest deadline first is optimal -----

  /** S still runs j after sched exactly when sched does not give j all that S gives it. */
  lemma StillToRun(sched: seq<int>, S: seq<int>, j: int)
    requires sched <= S
    ensures (exists x :: |sched| <= x < |S| && S[x] == j) <==> multiset(sched)[j] < multiset(S)[j]
  {
    var rest := S[|sched|..];
    assert S == sched + rest;
    assert multiset(S)[j] == multiset(sched)[j] + multiset(rest)[j];
    if x :| |sched| <= x < |S| && S[x] == j {
      assert rest[x - |sched|] == j && j in multiset(rest);
    }
    if j in multiset(rest) {
      var i :| 0 <= i < |rest| && rest[i] == j;
      assert S[|sched| + i] == j;
    }
  }

  lemma LateIsHopeless(jobs: seq<Job>, sched: seq<int>, j: nat)
    requires j < |jobs| && jobs[j].Dline() <= |sched| && multiset(sched)[j] != jobs[j].t
    ensures !Completable(jobs, sched)
  {
    forall S | Schedule(jobs, S) && sched <= S ensures false { StillToRun(sched, S, j); MoreThan(sched, S, j); }
  }

  lemma MoreThan(sched: seq<int>, S: seq<int>, j: int)
    requires sched <= S
    ensures multiset(sched)[j] <= multiset(S)[j]
  {
    assert S == sched + S[|sched|..];
  }

  /** The process that S runs next is released, unfinished and not late. */
  lemma NextIsReady(jobs: seq<Job>, a: Sim, S: seq<int>)
    requires Consistent(jobs, a) && Schedule(jobs, S) && a.sched <= S && a.cur < |S| && S[a.cur] != -1
    requires forall j :: j in a.all ==> a.cur < jobs[j].st
    ensures Ready(a, S[a.cur])
  {
    var k := S[a.cur];
    assert JobOk(jobs, a, k);
    StillToRun(a.sched, S, k);
  }

  lemma SwapKeepsSchedule(jobs: seq<Job>, S: seq<int>, c: nat, d: nat)
    requires Schedule(jobs, S) && c <= d < |S| && S[d] != -1
    requires 0 <= S[d] < |jobs| && jobs[S[d]].st <= c
    requires S[c] != -1 ==> 0 <= S[c] < |jobs| && d < jobs[S[c]].Dline()
    ensures Schedule(jobs, S[c := S[d]][d := S[c]])
  {
    assert multiset(S[c := S[d]][d := S[c]]) == multiset(S);
  }

  /** Exchange argument: a complete schedule can run the ready process with the earliest
      deadline next, and swap what it meant to run for a later second. */
  lemma RunEarliest(jobs: seq<Job>, a: Sim, j: nat, S: seq<int>) returns (S': seq<int>)
    requires Consistent(jobs, a) && Schedule(jobs, S) && a.sched <= S
    requires forall k :: k in a.all ==> a.cur < jobs[k].st
    requires Ready(a, j) && forall k :: Ready(a, k) ==> k < |jobs| && jobs[j].Dline() <= jobs[k].Dline()
    requires jobs[j].t >= 1
    ensures Schedule(jobs, S') && a.sched + [j] <= S'
  {
    assert JobOk(jobs, a, j);
    var c := a.cur;
    StillToRun(a.sched, S, j);
    var d :| c <= d < |S| && S[d] == j;
    if S[c] != -1 { NextIsReady(jobs, a, S); }
    SwapKeepsSchedule(jobs, S, c, d);
    S' := S[c := j][d := S[c]];
    assert S'[..c] == a.sched && S'[c] == j;
  }

  lemma RunNothing(jobs: seq<Job>, a: Sim, S: seq<int>) returns (S': seq<int>)
    requires Consistent(jobs, a) && Schedule(jobs, S) && a.sched <= S
    requires forall k :: k in a.all ==> a.cur < jobs[k].st
    requires forall k :: !Ready(a, k)
    ensures Schedule(jobs, S') && a.sched + [-1] <= S'
  {
    if a.cur < |S| {
      if S[a.cur] != -1 { NextIsReady(jobs, a, S); }
      S' := S;
      assert S[..a.cur + 1] == a.sched + [-1];
    } else {
      assert S == a.sched;
      S' := S + [-1];
    }
  }

  /** The rule leaves no freedom: when no two processes are equally urgent, any two simulations that
      obey it run the same process in every second. */
  lemma {:induction false} OnlySchedule(jobs: seq<Job>, S: seq<int>, R: seq<int>, n: nat)
    requires EarliestFirst(jobs, S) && EarliestFirst(jobs, R) && n <= |S| && n <= |R|
    requires forall i, j :: 0 <= i < j < |jobs| ==> jobs[i].Dline() != jobs[j].Dline() || jobs[i].st != jobs[j].st
    ensures S[..n] == R[..n]
  {
    if n > 0 {
      var x := n - 1;
      OnlySchedule(jobs, S, R, x);
      assert RuleAt(jobs, S, x) && RuleAt(jobs, R, x);
      assert forall j :: Waiting(jobs, S, x, j) <==> Waiting(jobs, R, x, j);
      assert S[x] == R[x];
      assert S[..n] == S[..x] + [S[x]] && R[..n] == R[..x] + [R[x]];
    }
  }

  // ----- the moves of the simulator -----

  /** The processes that start now join the ready queue. */
  function Released(jobs: seq<Job>, a: Sim): Sim
    requires forall j :: j in a.all ==> j < |jobs|
  {
    var now := set j | j in a.all && jobs[j].st == a.cur;
    a.(all := a.all - now, rq := a.rq + now)
  }

  /** Ready process j has reached its deadline and is stopped. */
  function Stopped(jobs: seq<Job>, a: Sim, j: nat): Sim
    requires j < |jobs| == |a.endTime|
  {
    a.(rq := a.rq - {j}, running := if a.running == j then -1 else a.running,
       fin := a.fin + [j], endTime := a.endTime[j := jobs[j].Dline()])
  }

  /** The second a.cur passes with the running process, if any, on the processor. */
  function Ticked(jobs: seq<Job>, a: Sim): Sim
    requires -1 <= a.running < |jobs| == |a.runTime| == |a.endTime|
  {
    var r := a.running;
    var b := a.(cur := a.cur + 1, sched := a.sched + [r]);
    if r == -1 then b else
      var c := b.(runTime := b.runTime[r := b.runTime[r] + 1]);
      if c.runTime[r] != jobs[r].t then c
      else c.(running := -1, fin := c.fin + [r], endTime := c.endTime[r := a.cur])
  }

  /** The choice that earliest deadline first makes for the second a.cur. */
  ghost predicate Chosen(jobs: seq<Job>, a: Sim)
    requires InRange(jobs, a)
  {
    && (forall k :: k in a.all ==> a.cur < jobs[k].st)
    && if a.running == -1 then a.rq == {}
       else
         && a.cur < jobs[a.running].Dline()
         && (forall k :: k in a.rq ==> Urgent(jobs[a.running], jobs[k]))
         && (LastRan(a, a.running) ==> forall k :: k in a.rq ==> !Urgent(jobs[k], jobs[a.running]))
  }

  lemma ReleaseKeeps(jobs: seq<Job>, a: Sim)
    requires Ok(jobs, a)
    ensures Ok(jobs, Released(jobs, a))
    ensures forall k :: k in Released(jobs, a).all ==> a.cur < jobs[k].st
  {
    hide Schedulable, Completable;
    var b := Released(jobs, a);
    forall j: nat | j < |jobs| ensures JobOk(jobs, b, j) { assert JobOk(jobs, a, j); }
    forall k | k in b.all ensures a.cur < jobs[k].st { assert JobOk(jobs, a, k); }
  }

  lemma StopKeeps(jobs: seq<Job>, a: Sim, j: nat)
    requires Ok(jobs, a) && j < |jobs| && Ready(a, j) && jobs[j].Dline() <= a.cur
    ensures Ok(jobs, Stopped(jobs, a, j))
  {
    hide Schedulable, Completable;
    var b := Stopped(jobs, a, j);
    assert JobOk(jobs, a, j);
    forall k: nat | k < |jobs| ensures JobOk(jobs, b, k) { assert JobOk(jobs, a, k); }
  }

  /** Ready process i takes the processor; what ran before goes back to the ready queue. */
  function Picked(a: Sim, i: nat): Sim {
    a.(running := i, rq := (if a.running < 0 then a.rq else a.rq + {a.running}) - {i})
  }

  lemma PickKeeps(jobs: seq<Job>, a: Sim, i: nat)
    requires Ok(jobs, a) && i in a.rq
    ensures Ok(jobs, Picked(a, i))
  {
    hide Schedulable, Completable;
    var b := Picked(a, i);
    assert JobOk(jobs, a, i);
    forall k: nat | k < |jobs| ensures JobOk(jobs, b, k) { assert JobOk(jobs, a, k); }
  }

  /** Before the second a.cur, the processes that wait for it are the ready ones that are not late. */
  lemma WaitingIsReady(jobs: seq<Job>, a: Sim, j: int)
    requires Consistent(jobs, a) && forall k :: k in a.all ==> a.cur < jobs[k].st
    ensures Waiting(jobs, a.sched, a.cur, j) <==> Ready(a, j) && j < |jobs| && a.cur < jobs[j].Dline()
  {
    assert a.sched[..a.cur] == a.sched;
    if 0 <= j < |jobs| { assert JobOk(jobs, a, j); }
  }

  lemma WaitingStays(jobs: seq<Job>, sched: seq<int>, r: int, x: nat, j: int)
    requires x <= |sched|
    ensures Waiting(jobs, sched + [r], x, j) <==> Waiting(jobs, sched, x, j)
  {
    assert (sched + [r])[..x] == sched[..x];
  }

  /** The choice the simulator has made obeys the rule. */
  lemma ChosenObeys(jobs: seq<Job>, a: Sim)
    requires Consistent(jobs, a) && Chosen(jobs, a)
    ensures EarliestFirst(jobs, a.sched + [a.running])
  {
    var S := a.sched + [a.running];
    forall x: nat, j | x < |S| ensures Waiting(jobs, S, x, j) <==> Waiting(jobs, a.sched, x, j) {
      WaitingStays(jobs, a.sched, a.running, x, j);
    }
    forall j ensures Waiting(jobs, a.sched, a.cur, j) <==> Ready(a, j) && j < |jobs| && a.cur < jobs[j].Dline() {
      WaitingIsReady(jobs, a, j);
    }
    hide Waiting;
    forall x: nat | x < |S| ensures RuleAt(jobs, S, x) {
      if x < a.cur { assert RuleAt(jobs, a.sched, x); }
    }
  }

  lemma TickConsistent(jobs: seq<Job>, a: Sim)
    requires Consistent(jobs, a) && Chosen(jobs, a)
    ensures Consistent(jobs, Ticked(jobs, a))
  {
    var b := Ticked(jobs, a);
    ChosenObeys(jobs, a);
    hide RuleAt;
    if a.running != -1 { assert JobOk(jobs, a, a.running); }
    forall j: nat | j < |jobs| ensures JobOk(jobs, b, j) { assert JobOk(jobs, a, j); }
  }

  lemma TickKeeps(jobs: seq<Job>, a: Sim)
    requires Ok(jobs, a) && Chosen(jobs, a)
    ensures Ok(jobs, Ticked(jobs, a))
  {
    TickConsistent(jobs, a);
    if Schedulable(jobs) {
      var S :| Schedule(jobs, S) && a.sched <= S;
      var S';
      if a.running == -1 {
        S' := RunNothing(jobs, a, S);
      } else {
        S' := RunEarliest(jobs, a, a.running, S);
      }
    }
  }

  // ----- the simulator -----

  function Horizon(jobs: seq<Job>): (h: int)
    ensures h >= 0 && forall j :: 0 <= j < |jobs| ==> jobs[j].st < h && jobs[j].Dline() <= h
  {
    if jobs == [] then 0 else
      var h, d := Horizon(jobs[1..]), if jobs[0].p > 1 then jobs[0].Dline() else jobs[0].st + 1;
      if h > d then h else d
  }

  class Simulator {
    const jobs: seq<Job>
    var all: set<nat>          // queue ordered by (st, dline)
    var rq: set<nat>           // queue ordered by (dline, st)
    var fin: seq<nat>
    var running: int
    var curTime: int
    var idleSec: nat
    var runTime: seq<nat>
    var endTime: seq<int>
    ghost var sched: seq<int>

    ghost function Abs(): Sim
      reads this
    {
      Sim(all, rq, running, fin, curTime, runTime, endTime, sched)
    }

    ghost predicate Valid()
      reads this
    {
      Sound() && Settled(Abs())
    }

    /** What holds in the middle of a turn as well. */
    ghost predicate Sound()
      reads this
    {
      Ok(jobs, Abs()) && (running != -1 ==> idleSec == 0)
    }

    constructor (jobs: seq<Job>)
      ensures this.jobs == jobs && Valid() && fin == [] && curTime == 0
    {
      this.jobs := jobs;
      all := Below(|jobs|);
      rq, fin, running, curTime, idleSec := {}, [], -1, 0, 0;
      runTime := seq(|jobs|, _ => 0);
      endTime := seq(|jobs|, _ => 0);
      sched := [];
      new;
      StartOk(jobs, Abs());
    }

    /** pr_lt: a has lower priority than b. */
    predicate PrLt(a: nat, b: nat)
      requires a < |jobs| && b < |jobs|
    {
      if jobs[a].Dline() < jobs[b].Dline() then false
      else if jobs[a].Dline() > jobs[b].Dline() then true
      else !(jobs[a].st < jobs[b].st)
    }

    predicate MissDl(j: nat)
      requires j < |jobs|
      reads this
    {
      curTime >= jobs[j].Dline()
    }

    predicate IsFirst(q: set<nat>, i: nat)
      requires i < |jobs| && forall j :: j in q ==> j < |jobs|
    {
      forall j :: j in q ==> jobs[i].st < jobs[j].st || (jobs[i].st == jobs[j].st && jobs[i].Dline() <= jobs[j].Dline())
    }

    predicate IsUrgent(q: set<nat>, i: nat)
      requires i < |jobs| && forall j :: j in q ==> j < |jobs|
    {
      forall j :: j in q ==> Urgent(jobs[i], jobs[j])
    }

    lemma {:induction false} FirstExists(q: set<nat>)
      requires q != {} && forall j :: j in q ==> j < |jobs|
      ensures exists i :: i in q && IsFirst(q, i)
    {
      var x :| x in q;
      if q == {x} {
        assert IsFirst(q, x);
      } else {
        FirstExists(q - {x});
        var i :| i in q - {x} && IsFirst(q - {x}, i);
        assert IsFirst(q, i) || IsFirst(q, x) by {
          forall j | j in q ensures j == x || j in q - {x} {}
        }
      }
    }

    lemma {:induction false} UrgentExists(q: set<nat>)
      requires q != {} && forall j :: j in q ==> j < |jobs|
      ensures exists i :: i in q && IsUrgent(q, i)
    {
      var x :| x in q;
      if q == {x} {
        assert IsUrgent(q, x);
      } else {
        UrgentExists(q - {x});
        var i :| i in q - {x} && IsUrgent(q - {x}, i);
        assert IsUrgent(q, i) || IsUrgent(q, x) by {
          forall j | j in q ensures j == x || j in q - {x} {}
        }
      }
    }

    /** The top of `rq`: any process that no other one precedes. */
    method Top() returns (i: nat)
      requires rq != {} && forall j :: j in rq ==> j < |jobs|
      ensures i in rq && IsUrgent(rq, i)
    {
      UrgentExists(rq);
      i :| i in rq && IsUrgent(rq, i);
    }

    /** The processes whose start time has come move to the ready queue. */
    method Release()
      requires Valid()
      modifies this`all, this`rq
      ensures Valid() && Abs() == old(Released(jobs, Abs()))
      ensures forall k :: k in all ==> curTime < jobs[k].st
    {
      ReleaseKeeps(jobs, Abs());
      ghost var b, now := Released(jobs, Abs()), set j | j in all && jobs[j].st == curTime;
      forall j | j in all ensures curTime <= jobs[j].st { assert JobOk(jobs, Abs(), j); }
      ghost var all0, rq0 := all, rq;
      while all != {}
        invariant all <= all0 && rq == rq0 + (all0 - all) && all0 - all <= now
        invariant forall j :: j in all0 ==> j < |jobs| && curTime <= jobs[j].st
      {
        FirstExists(all);
        var i :| i in all && IsFirst(all, i);
        if jobs[i].st != curTime { break; }
        rq := rq + {i};
        all := all - {i};
      }
      assert all == all0 - now && rq == rq0 + now;
      assert Abs() == b;
    }

    /** A late process leaves the system. The caller has taken it out of its queue. */
    method MissDeadline(j: nat)
      requires j < |jobs| == |endTime|
      modifies this`endTime, this`fin
      ensures endTime == old(endTime)[j := jobs[j].Dline()] && fin == old(fin) + [j]
    {
      endTime := endTime[j := jobs[j].Dline()];
      fin := fin + [j];
    }

    /** An idle processor takes the most urgent process that can still make its deadline. */
    method StartFromIdle()
      requires Valid() && running == -1 && rq != {} && forall k :: k in all ==> curTime < jobs[k].st
      modifies this`idleSec, this`running, this`rq, this`endTime, this`fin
      ensures Sound() && Chosen(jobs, Abs()) && old(fin) <= fin && (running == -1 ==> old(fin) < fin)
    {
      hide Completable, Schedulable, EarliestFirst, EndsAt, Legal;
      idleSec := 0;
      ghost var a := Abs();
      running := Top();
      rq := rq - {running};
      PickKeeps(jobs, a, running);
      assert Abs() == Picked(a, running);
      while MissDl(running)
        invariant Sound() && running != -1 && idleSec == 0 && old(fin) <= fin
        invariant forall k :: k in rq ==> Urgent(jobs[running], jobs[k])
        invariant forall j :: LastRan(Abs(), j) ==> j == -1 || j in fin
        decreases rq
      {
        ghost var b := Abs();
        StopKeeps(jobs, b, running);
        assert JobOk(jobs, b, running);
        MissDeadline(running);
        if rq == {} {
          running := -1;
          assert Abs() == Stopped(jobs, b, b.running);
          return;
        }
        ghost var c := Stopped(jobs, b, b.running);
        assert c.rq == rq;
        running := Top();
        rq := rq - {running};
        PickKeeps(jobs, c, running);
        assert Abs() == Picked(c, running);
      }
      assert JobOk(jobs, Abs(), running);
    }

    /** A running process gives way to the most urgent ready one, unless it is itself more urgent. */
    method Contend()
      requires Valid() && running != -1 && !MissDl(running) && rq != {}
      requires forall k :: k in all ==> curTime < jobs[k].st
      modifies this`running, this`rq, this`endTime, this`fin
      ensures Sound() && Chosen(jobs, Abs()) && running != -1 && old(fin) <= fin
    {
      hide Completable, Schedulable, EarliestFirst, EndsAt, Legal;
      var p2: int := Top();
      while p2 != -1 && MissDl(p2)
        invariant Sound() && running == old(running) && old(fin) <= fin
        invariant if p2 == -1 then rq == {} else 0 <= p2 < |jobs| && p2 in rq && IsUrgent(rq, p2)
        decreases rq
      {
        ghost var b := Abs();
        StopKeeps(jobs, b, p2);
        assert JobOk(jobs, b, p2);
        MissDeadline(p2);
        rq := rq - {p2 as nat};
        assert Abs() == Stopped(jobs, b, p2);
        if rq == {} { p2 := -1; } else { p2 := Top(); }
      }
      if p2 == -1 || !PrLt(running, p2) {
      } else {
        ghost var b := Abs();
        PickKeeps(jobs, b, p2);
        assert JobOk(jobs, b, p2);
        rq := rq - {p2 as nat};
        rq := rq + {running as nat};
        running := p2;
        assert Abs() == Picked(b, p2);
      }
    }

    /** The running process, if any, uses the second curTime; the label sim ends it when done. */
    method Finish()
      requires Sound() && Chosen(jobs, Abs())
      modifies this`running, this`fin, this`endTime, this`curTime, this`runTime, this`sched
      ensures Valid() && Abs() == old(Ticked(jobs, Abs()))
      ensures curTime == old(curTime) + 1 && old(fin) <= fin
    {
      ghost var a := Abs();
      TickKeeps(jobs, a);
      if running != -1 {
        runTime := runTime[running := runTime[running] + 1];
      }
      sched := sched + [running];
      if running != -1 && runTime[running] == jobs[running].t {
        endTime := endTime[running := curTime];
        fin := fin + [running as nat];
        running := -1;
      }
      curTime := curTime + 1;
      assert Abs() == Ticked(jobs, a);
    }

    /** One turn of the simulator loop. */
    method Turn() returns (stop: bool)
      requires Valid()
      modifies this
      ensures Valid() && old(fin) <= fin
      ensures stop ==> all == {} && rq == {} && running == -1
      ensures !stop ==> old(fin) < fin || (old(curTime) < curTime && old(curTime) < Horizon(jobs))
    {
      hide Completable, Schedulable, EarliestFirst, EndsAt, Legal, Released, Ticked, Picked;
      Release();
      if running == -1 && rq == {} && all == {} {
        idleSec := idleSec + 1;
        return true;
      }
      if running != -1 && MissDl(running) {
        ghost var b := Abs();
        StopKeeps(jobs, b, running);
        assert JobOk(jobs, b, running);
        MissDeadline(running);
        running := -1;
        assert Abs() == Stopped(jobs, b, b.running);
        return false;  // curTime goes down and up again
      }
      if running == -1 { idleSec := idleSec + 1; }
      if idleSec > 0 && rq != {} {
        StartFromIdle();
      } else if rq != {} {
        Contend();
      }
      Finish();
      return false;
    }

    /** The simulator loop of main: every process ends exactly once. */
    method Simulate()
      requires Valid()
      modifies this
      ensures Valid() && all == {} && rq == {} && running == -1
      ensures EarliestFirst(jobs, sched) && |sched| == curTime && forall j :: !Waiting(jobs, sched, |sched|, j)
      ensures |endTime| == |jobs| && forall j: nat :: j < |jobs| ==> j in fin && EndsAt(jobs, sched, j, endTime[j])
    {
      while true
        invariant Valid()
        decreases |jobs| - |fin|, Horizon(jobs) - curTime
      {
        FinBound(Abs());
        label L:
        var stop := Turn();
        if stop { Over(Abs()); return; }
        FinBound(Abs());
        assert old@L(fin) <= fin;
      }
    }

    lemma StartOk(jobs: seq<Job>, a: Sim)
      requires a.all == Below(|jobs|) && a.rq == {} && a.fin == [] && a.running == -1 && a.cur == 0 && a.sched == []
      requires |a.runTime| == |a.endTime| == |jobs| && forall j :: 0 <= j < |jobs| ==> a.runTime[j] == 0
      ensures Ok(jobs, a) && Settled(a)
    {
      assert Feasible(jobs) ==> Completable(jobs, []);
    }

    lemma Over(a: Sim)
      requires Consistent(jobs, a) && a.all == a.rq == {} && a.running == -1
      ensures forall j :: !Waiting(jobs, a.sched, a.cur, j)
      ensures forall j: nat :: j < |jobs| ==> j in a.fin && EndsAt(jobs, a.sched, j, a.endTime[j])
    {
      forall j ensures !Waiting(jobs, a.sched, a.cur, j) { WaitingIsReady(jobs, a, j); }
      forall j: nat | j < |jobs| ensures j in a.fin && EndsAt(jobs, a.sched, j, a.endTime[j]) {
        assert JobOk(jobs, a, j);
      }
    }

    lemma FinBound(a: Sim)
      requires Consistent(jobs, a)
      ensures |a.fin| <= |jobs|
    {
      assert Distinct(a.fin);
      DistinctBelow(|jobs|, a.fin);
    }

    /** What the statistics report once the simulation is over. */
    method CountDead() returns (size: nat, dead: nat)
      requires Valid() && all == {} && rq == {} && running == -1
      ensures |runTime| == |jobs| == size && dead == |Unserved(jobs, runTime)|
      ensures dead == 0 <==> Schedulable(jobs)
    {
      ghost var a := Abs();
      forall j: nat | j < |jobs| ensures j in fin { assert JobOk(jobs, a, j); }
      AllFinished(jobs, a);
      size := |fin|;
      dead := StatsLoop(jobs, endTime, fin);
      Verdict(jobs, a);
    }
  }

  /** The finished processes that did not end before their deadline. */
  function Late(jobs: seq<Job>, endTime: seq<int>, fin: seq<nat>): set<nat>
    requires |endTime| == |jobs| && forall i :: 0 <= i < |fin| ==> fin[i] < |jobs|
  {
    set j | j in fin && endTime[j] >= jobs[j].Dline()
  }

  /** The processes that were stopped before they had run for their processing time. */
  function Unserved(jobs: seq<Job>, runTime: seq<nat>): set<nat>
    requires |runTime| == |jobs|
  {
    set j | j in Below(|jobs|) && (runTime[j] != jobs[j].t || jobs[j].t < 1)
  }

  /** The statistics loop of main, as far as it counts the processes that missed their deadline. */
  method StatsLoop(jobs: seq<Job>, endTime: seq<int>, fin: seq<nat>) returns (dead: nat)
    requires |endTime| == |jobs| && Distinct(fin) && forall i :: 0 <= i < |fin| ==> fin[i] < |jobs|
    ensures dead == |Late(jobs, endTime, fin)|
  {
    dead := 0;
    for i := 0 to |fin|
      invariant dead == |Late(jobs, endTime, fin[..i])|
    {
      var j := fin[i];
      assert fin[..i + 1] == fin[..i] + [j];
      if endTime[j] >= jobs[j].Dline() {
        assert Late(jobs, endTime, fin[..i + 1]) == Late(jobs, endTime, fin[..i]) + {j};
        dead := dead + 1;
      } else {
        assert Late(jobs, endTime, fin[..i + 1]) == Late(jobs, endTime, fin[..i]);
      }
    }
    assert fin[..|fin|] == fin;
  }

  lemma AllFinished(jobs: seq<Job>, a: Sim)
    requires Consistent(jobs, a) && forall j: nat :: j < |jobs| ==> j in a.fin
    ensures |a.fin| == |jobs|
  {
    assert Distinct(a.fin);
    DistinctSize(a.fin);
    assert Elements(a.fin) == Below(|jobs|);
  }

  /** EDF is optimal: some process is stopped late exactly when no schedule serves them all. */
  lemma Verdict(jobs: seq<Job>, a: Sim)
    requires Ok(jobs, a) && forall j: nat :: j < |jobs| ==> j in a.fin
    ensures Late(jobs, a.endTime, a.fin) == Unserved(jobs, a.runTime)
    ensures Unserved(jobs, a.runTime) == {} <==> Schedulable(jobs)
  {
    var late := Late(jobs, a.endTime, a.fin);
    forall j: nat | j < |jobs| ensures j in late <==> j in Unserved(jobs, a.runTime) { assert JobOk(jobs, a, j); }
    if late == {} {
      forall j | 0 <= j < |jobs| ensures multiset(a.sched)[j] == jobs[j].t >= 1 {
        assert JobOk(jobs, a, j) && j !in late;
      }
      assert Schedule(jobs, a.sched);
    } else {
      var j :| j in late;
      assert JobOk(jobs, a, j);
      if Schedulable(jobs) { LateIsHopeless(jobs, a.sched, j); }
    }
  }
}
