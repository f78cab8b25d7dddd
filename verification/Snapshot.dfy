/** The helped wait-free snapshot of mrmw.cpp, as steps over any number of threads.

    Register i is written by thread i alone, as main does; the other threads only scan. Every
    load or store of a shared location is one step. `hist`, `start`, `mid`, `Snap.at` and
    `finished` are history: no step reads them to decide anything. */
module Snapshot {
  import opened Counting

  datatype Option<T> = None | Some(value: T)

  datatype Config = Config(capacity: nat, threads: nat)

  datatype Reg = Reg(stamp: nat, value: int)

  /** An array a scan returned, tagged with the moment whose contents it shows. */
  datatype Snap = Snap(vals: seq<int>, at: nat)

  datatype Pc =
    | Idle
    | First(copy: seq<Reg>)                 // the first collect, so far
    | Again(copy: seq<Reg>)                 // a later collect, so far
    | ReadHelp(j: nat)                      // register j was seen to move twice
    | Load(snap: Option<Snap>)              // the rest is update, after its own scan
    | WriteHelp(snap: Option<Snap>, stamp: nat)
    | Store(snap: Option<Snap>, stamp: nat)

  datatype Thread = Thread(pc: Pc, update: Option<int>, prev: seq<Reg>, canHelp: seq<nat>,
                           collects: nat, start: nat, mid: nat)

  datatype Scan = Scan(who: nat, start: nat, end: nat, result: Option<Snap>, collects: nat)

  datatype State = State(regs: seq<Reg>, help: seq<Option<Snap>>, threads: seq<Thread>,
                         hist: seq<seq<Reg>>, finished: seq<Scan>)

  function Now(s: State): int { |s.hist| - 1 }

  function Values(m: seq<Reg>): seq<int> {
    seq(|m|, j requires 0 <= j < |m| => m[j].value)
  }

  // ----- the part of scan that compares two copies -----

  datatype Verdict = Clean | Moved(canHelp: seq<nat>) | Helped(j: nat)

  predicate SameStamps(prev: seq<Reg>, copy: seq<Reg>)
    requires |prev| == |copy|
  {
    forall j :: 0 <= j < |prev| ==> prev[j].stamp == copy[j].stamp
  }

  /** The second loop of scan, from register j on. */
  function Movers(prev: seq<Reg>, copy: seq<Reg>, j: nat, canHelp: seq<nat>): Verdict
    requires j <= |prev| == |copy|
    decreases |prev| - j
  {
    if j == |prev| then Moved(canHelp)
    else if prev[j].stamp == copy[j].stamp then Movers(prev, copy, j + 1, canHelp)
    else if j in canHelp then Helped(j)
    else Movers(prev, copy, j + 1, canHelp + [j])
  }

  function Judge(prev: seq<Reg>, copy: seq<Reg>, canHelp: seq<nat>): Verdict
    requires |prev| == |copy|
  {
    if SameStamps(prev, copy) then Clean else Movers(prev, copy, 0, canHelp)
  }

  method Compare(prev: seq<Reg>, copy: seq<Reg>, canHelp: seq<nat>) returns (v: Verdict)
    requires |prev| == |copy|
    ensures v == Judge(prev, copy, canHelp)
  {
    var flag := true;
    for j := 0 to |prev|
      invariant flag <==> forall i :: 0 <= i < j ==> prev[i].stamp == copy[i].stamp
    {
      if prev[j].stamp != copy[j].stamp { flag := false; }
    }
    if flag { return Clean; }
    var can: seq<nat> := canHelp;
    for j := 0 to |prev|
      invariant Movers(prev, copy, j, can) == Movers(prev, copy, 0, canHelp)
    {
      if prev[j].stamp != copy[j].stamp {
        if j in can { return Helped(j); }
        can := can + [j];
      }
    }
    return Moved(can);
  }

  // ----- steps -----

  ghost predicate Init(c: Config, s: State) {
    && c.capacity <= c.threads
    && s.regs == seq(c.capacity, _ => Reg(0, 0)) && s.help == seq(c.capacity, _ => None)
    && |s.threads| == c.threads && (forall t :: 0 <= t < c.threads ==> s.threads[t].pc == Idle)
    && s.hist == [s.regs] && s.finished == []
  }

  ghost predicate Sized(c: Config, s: State) {
    |s.regs| == |s.help| == c.capacity <= c.threads == |s.threads| && |s.hist| > 0
  }

  function Begin(th: Thread, update: Option<int>, now: nat): Thread {
    Thread(First([]), update, [], [], 1, now, now)
  }

  /** Thread t returns r from scan: an update goes on with it, a plain scan is over. */
  function Return(s: State, t: nat, r: Option<Snap>): State
    requires t < |s.threads| && |s.hist| > 0
  {
    var th := s.threads[t];
    var pc := if th.update.None? then Idle else Load(r);
    s.(threads := s.threads[t := th.(pc := pc)],
       finished := s.finished + [Scan(t, th.start, Now(s), r, th.collects)])
  }

  function Goto(s: State, t: nat, th: Thread): State
    requires t < |s.threads|
  {
    s.(threads := s.threads[t := th])
  }

  /** One step of thread t inside scan. */
  ghost function ScanStep(c: Config, s: State, t: nat): State
    requires Sized(c, s) && t < c.threads
  {
    var th := s.threads[t];
    match th.pc
    case First(copy) =>
      if |copy| < c.capacity then Goto(s, t, th.(pc := First(copy + [s.regs[|copy|]])))
      else Goto(s, t, th.(pc := Again([]), prev := copy, collects := th.collects + 1, mid := Now(s)))
    case Again(copy) =>
      if |copy| < c.capacity then Goto(s, t, th.(pc := Again(copy + [s.regs[|copy|]])))
      else if |copy| != |th.prev| then s
      else (match Judge(th.prev, copy, th.canHelp)
            case Clean => Return(s, t, Some(Snap(Values(copy), th.mid)))
            case Helped(j) => Goto(s, t, th.(pc := ReadHelp(j)))
            case Moved(can) =>
              Goto(s, t, th.(pc := Again([]), prev := copy, canHelp := can,
                             collects := th.collects + 1, mid := Now(s))))
    case ReadHelp(j) => if j < c.capacity then Return(s, t, s.help[j]) else s
    case _ => s
  }

  /** One step of writer t after the scan inside its update. */
  ghost function UpdateStep(c: Config, s: State, t: nat): State
    requires Sized(c, s) && t < c.capacity && s.threads[t].update.Some?
  {
    var th := s.threads[t];
    match th.pc
    case Load(snap) => Goto(s, t, th.(pc := WriteHelp(snap, s.regs[t].stamp)))
    case WriteHelp(snap, stamp) =>
      Goto(s, t, th.(pc := Store(snap, stamp))).(help := s.help[t := snap])
    case Store(snap, stamp) =>
      var regs := s.regs[t := Reg(stamp + 1, th.update.value)];
      Goto(s, t, th.(pc := Idle)).(regs := regs, hist := s.hist + [regs])
    case _ => s
  }

  ghost predicate Step(c: Config, s: State, s': State, t: nat)
    requires Sized(c, s) && t < c.threads
  {
    var th := s.threads[t];
    var writes := t < c.capacity && th.update.Some?;
    match th.pc
    case Idle =>
      || s' == Goto(s, t, Begin(th, None, Now(s)))
      || (t < c.capacity && exists v :: s' == Goto(s, t, Begin(th, Some(v), Now(s))))
    case Load(_) => writes && s' == UpdateStep(c, s, t)
    case WriteHelp(_, _) => writes && s' == UpdateStep(c, s, t)
    case Store(_, _) => writes && s' == UpdateStep(c, s, t)
    case _ => s' == ScanStep(c, s, t)
  }

  // ----- the invariant -----

  /** Stamps never fall, and an unchanged stamp means an unchanged register. */
  ghost predicate Later(m: seq<Reg>, m': seq<Reg>) {
    |m| == |m'| && forall j :: 0 <= j < |m| ==>
      m[j].stamp <= m'[j].stamp && (m[j].stamp == m'[j].stamp ==> m[j] == m'[j])
  }

  ghost predicate HistoryOk(c: Config, s: State) {
    && |s.hist| > 0 && s.hist[Now(s)] == s.regs && |s.regs| == c.capacity
    && forall a, b :: 0 <= a <= b < |s.hist| ==> Later(s.hist[a], s.hist[b])
  }

  ghost predicate Shows(s: State, r: Option<Snap>) {
    r.Some? && r.value.at < |s.hist| && r.value.vals == Values(s.hist[r.value.at])
  }

  /** The helper array of register j shows it at most one store behind. */
  ghost predicate HelpOk(s: State, j: nat)
    requires |s.hist| > 0 && j < |s.regs| == |s.help|
  {
    s.regs[j].stamp > 0 ==>
      && Shows(s, s.help[j]) && j < |s.hist[s.help[j].value.at]|
      && s.regs[j].stamp <= s.hist[s.help[j].value.at][j].stamp + 1
  }

  /** Each register of a copy was loaded no earlier than the moment m. */
  ghost predicate CopyOk(copy: seq<Reg>, m: seq<Reg>, now: seq<Reg>) {
    |copy| <= |m| == |now| && forall j :: 0 <= j < |copy| ==>
      && m[j].stamp <= copy[j].stamp <= now[j].stamp
      && (m[j].stamp == copy[j].stamp ==> m[j] == copy[j])
  }

  ghost predicate CanHelpOk(c: Config, canHelp: seq<nat>, prev: seq<Reg>, m: seq<Reg>) {
    && |prev| == |m| == c.capacity && Distinct(canHelp)
    && forall j :: j in canHelp ==> j < c.capacity && m[j].stamp < prev[j].stamp
  }

  /** What thread t knows while it scans. */
  ghost predicate ScanOk(c: Config, s: State, th: Thread)
    requires HistoryOk(c, s) && th.start < |s.hist|
  {
    var m := s.hist[th.start];
    match th.pc
    case First(copy) => CopyOk(copy, m, s.regs) && th.collects == 1 && th.canHelp == []
    case Again(copy) =>
      && th.start <= th.mid < |s.hist|
      && CanHelpOk(c, th.canHelp, th.prev, m) && th.collects <= |th.canHelp| + 2
      && CopyOk(th.prev, m, s.hist[th.mid]) && CopyOk(copy, s.hist[th.mid], s.regs)
    case ReadHelp(j) =>
      && j < c.capacity && |m| == c.capacity && m[j].stamp + 2 <= s.regs[j].stamp
      && th.collects <= c.capacity + 2
    case _ => true
  }

  ghost predicate UpdateOk(c: Config, s: State, th: Thread, t: nat, snap: Option<Snap>)
    requires HistoryOk(c, s) && th.start < |s.hist|
  {
    t < c.capacity && th.update.Some? && Shows(s, snap) && th.start <= snap.value.at
  }

  ghost predicate ThreadOk(c: Config, s: State, t: nat)
    requires HistoryOk(c, s) && t < |s.threads|
  {
    var th := s.threads[t];
    th.pc != Idle ==>
      && th.start < |s.hist| && ScanOk(c, s, th)
      && (th.update.Some? ==> t < c.capacity && |s.hist[th.start]| == c.capacity
                              && s.hist[th.start][t].stamp == s.regs[t].stamp)
      && match th.pc
         case Load(snap) => UpdateOk(c, s, th, t, snap)
         case WriteHelp(snap, stamp) => UpdateOk(c, s, th, t, snap) && stamp == s.regs[t].stamp
         case Store(snap, stamp) => UpdateOk(c, s, th, t, snap) && stamp == s.regs[t].stamp
                                    && t < |s.help| && s.help[t] == snap
         case _ => true
  }

  /** The result of a scan shows all registers at one moment between its call and its return,
      and took at most capacity + 2 collects. */
  ghost predicate Atomic(c: Config, s: State, r: Scan) {
    Shows(s, r.result) && r.start <= r.result.value.at <= r.end < |s.hist| && r.collects <= c.capacity + 2
  }

  ghost predicate Inv(c: Config, s: State) {
    && Sized(c, s) && HistoryOk(c, s)
    && (forall j :: 0 <= j < c.capacity ==> HelpOk(s, j))
    && (forall t :: 0 <= t < c.threads ==> ThreadOk(c, s, t))
    && (forall k :: 0 <= k < |s.finished| ==> Atomic(c, s, s.finished[k]))
  }

  // ----- the invariant is kept -----

  lemma InitOk(c: Config, s: State)
    requires Init(c, s)
    ensures Inv(c, s)
  {
  }

  /** Thread t changes only its own local state. */
  lemma LocalStep(c: Config, s: State, t: nat, th: Thread)
    requires Inv(c, s) && t < c.threads && ThreadOk(c, Goto(s, t, th), t)
    ensures Inv(c, Goto(s, t, th))
  {
    var s' := Goto(s, t, th);
    forall u | 0 <= u < c.threads && u != t ensures ThreadOk(c, s', u) {
      assert ThreadOk(c, s, u);
    }
    forall j | 0 <= j < c.capacity ensures HelpOk(s', j) { assert HelpOk(s, j); }
    forall k | 0 <= k < |s.finished| ensures Atomic(c, s', s'.finished[k]) {
      assert Atomic(c, s, s.finished[k]);
    }
  }

  lemma CopyGrows(copy: seq<Reg>, m: seq<Reg>, now: seq<Reg>)
    requires CopyOk(copy, m, now) && |copy| < |now| && Later(m, now)
    ensures CopyOk(copy + [now[|copy|]], m, now)
  {
  }

  /** Two equal collects pin every register at the moment between them. */
  lemma CleanCollect(prev: seq<Reg>, copy: seq<Reg>, start: seq<Reg>, mid: seq<Reg>, now: seq<Reg>)
    requires CopyOk(prev, start, mid) && CopyOk(copy, mid, now) && |prev| == |copy| == |mid|
    requires SameStamps(prev, copy)
    ensures Values(copy) == Values(mid)
  {
    forall j | 0 <= j < |mid| ensures copy[j] == mid[j] {
      assert prev[j].stamp == copy[j].stamp;
    }
  }

  /** A round that is not clean finds a register that moved twice, or one more that can help. */
  lemma {:induction false} MoversSpec(c: Config, prev: seq<Reg>, copy: seq<Reg>, j: nat, can: seq<nat>,
                                      base: seq<nat>, m: seq<Reg>)
    requires j <= |prev| == |copy| == |m| == c.capacity && Distinct(can)
    requires forall i :: i in can ==> i < c.capacity && (i in base || i < j)
    requires forall i :: 0 <= i < c.capacity ==> prev[i].stamp <= copy[i].stamp
    requires forall i :: i in base ==> i < c.capacity && m[i].stamp < prev[i].stamp
    requires forall i :: 0 <= i < c.capacity ==> m[i].stamp <= prev[i].stamp
    requires forall i :: i in can ==> m[i].stamp < copy[i].stamp
    ensures match Movers(prev, copy, j, can)
            case Clean => false
            case Helped(k) => k < c.capacity && m[k].stamp + 2 <= copy[k].stamp
            case Moved(can') =>
              && CanHelpOk(c, can', copy, m) && |can| <= |can'|
              && ((exists i :: j <= i < c.capacity && prev[i].stamp != copy[i].stamp) ==> |can| < |can'|)
    decreases c.capacity - j
  {
    if j < |prev| {
      if prev[j].stamp == copy[j].stamp {
        MoversSpec(c, prev, copy, j + 1, can, base, m);
      } else if j !in can {
        assert Distinct(can + [j]);
        MoversSpec(c, prev, copy, j + 1, can + [j], base, m);
      }
    }
  }

  lemma Since(c: Config, s: State, m: nat)
    requires HistoryOk(c, s) && m < |s.hist|
    ensures Later(s.hist[m], s.regs)
  {
  }

  lemma LoadStep(c: Config, s: State, t: nat)
    requires Inv(c, s) && t < c.threads
    requires (s.threads[t].pc.First? || s.threads[t].pc.Again?) && |s.threads[t].pc.copy| < c.capacity
    ensures Inv(c, ScanStep(c, s, t))
  {
    var th := s.threads[t];
    assert ThreadOk(c, s, t);
    var m := if th.pc.First? then th.start else th.mid;
    Since(c, s, m);
    CopyGrows(th.pc.copy, s.hist[m], s.regs);
    var copy' := th.pc.copy + [s.regs[|th.pc.copy|]];
    LocalStep(c, s, t, th.(pc := if th.pc.First? then First(copy') else Again(copy')));
  }

  lemma FirstDone(c: Config, s: State, t: nat)
    requires Inv(c, s) && t < c.threads && s.threads[t].pc.First? && |s.threads[t].pc.copy| >= c.capacity
    ensures Inv(c, ScanStep(c, s, t))
  {
    var th := s.threads[t];
    assert ThreadOk(c, s, t);
    Since(c, s, th.start);
    var th' := th.(pc := Again([]), prev := th.pc.copy, collects := th.collects + 1, mid := Now(s));
    assert CanHelpOk(c, [], th'.prev, s.hist[th.start]);
    LocalStep(c, s, t, th');
  }

  /** One more finished scan. */
  lemma RecordScan(c: Config, s: State, s': State, r: Scan)
    requires Inv(c, s) && Atomic(c, s, r) && s' == s.(finished := s.finished + [r])
    ensures Inv(c, s')
  {
    forall u | 0 <= u < c.threads ensures ThreadOk(c, s', u) { assert ThreadOk(c, s, u); }
    forall j | 0 <= j < c.capacity ensures HelpOk(s', j) { assert HelpOk(s, j); }
    forall k | 0 <= k < |s'.finished| ensures Atomic(c, s', s'.finished[k]) {
      assert k < |s.finished| ==> Atomic(c, s, s.finished[k]);
    }
  }

  lemma ReturnKeeps(c: Config, s: State, t: nat, r: Option<Snap>)
    requires Inv(c, s) && t < c.threads && s.threads[t].pc != Idle
    requires Atomic(c, s, Scan(t, s.threads[t].start, Now(s), r, s.threads[t].collects))
    ensures Inv(c, Return(s, t, r))
  {
    var th := s.threads[t];
    assert ThreadOk(c, s, t);
    var th' := th.(pc := if th.update.None? then Idle else Load(r));
    LocalStep(c, s, t, th');
    hide Inv, ScanOk, UpdateOk, HistoryOk;
    RecordScan(c, Goto(s, t, th'), Return(s, t, r), Scan(t, th.start, Now(s), r, th.collects));
  }

  lemma DecideStep(c: Config, s: State, t: nat)
    requires Inv(c, s) && t < c.threads && s.threads[t].pc.Again? && |s.threads[t].pc.copy| >= c.capacity
    ensures Inv(c, ScanStep(c, s, t))
  {
    var th := s.threads[t];
    assert ThreadOk(c, s, t);
    if SameStamps(th.prev, th.pc.copy) {
      DecideClean(c, s, t);
    } else {
      DecideMoved(c, s, t);
    }
    hide Inv;
  }

  lemma DecideClean(c: Config, s: State, t: nat)
    requires Inv(c, s) && t < c.threads && s.threads[t].pc.Again? && |s.threads[t].pc.copy| >= c.capacity
    requires |s.threads[t].prev| == |s.threads[t].pc.copy| && SameStamps(s.threads[t].prev, s.threads[t].pc.copy)
    ensures |s.hist| > 0 && Inv(c, Return(s, t, Some(Snap(Values(s.threads[t].pc.copy), s.threads[t].mid))))
  {
    var th := s.threads[t];
    assert ThreadOk(c, s, t);
    Since(c, s, th.mid);
    DistinctBelow(c.capacity, th.canHelp);
    CleanCollect(th.prev, th.pc.copy, s.hist[th.start], s.hist[th.mid], s.regs);
    ReturnKeeps(c, s, t, Some(Snap(Values(th.pc.copy), th.mid)));
  }

  lemma DecideMoved(c: Config, s: State, t: nat)
    requires Inv(c, s) && t < c.threads && s.threads[t].pc.Again? && |s.threads[t].pc.copy| >= c.capacity
    requires |s.threads[t].prev| == |s.threads[t].pc.copy| && !SameStamps(s.threads[t].prev, s.threads[t].pc.copy)
    ensures Inv(c, ScanStep(c, s, t))
  {
    var th := s.threads[t];
    assert ThreadOk(c, s, t);
    Since(c, s, th.mid);
    Between(c, s, th.start, th.mid);
    DistinctBelow(c.capacity, th.canHelp);
    RoundMoved(c, th.prev, th.pc.copy, th.canHelp, s.hist[th.start], s.hist[th.mid], s.regs);
    hide CopyOk, CanHelpOk, Later, HelpOk, Atomic, Shows, Judge;
    match Judge(th.prev, th.pc.copy, th.canHelp)
    case Helped(j) => LocalStep(c, s, t, th.(pc := ReadHelp(j)));
    case Moved(can) =>
      DistinctBelow(c.capacity, can);
      LocalStep(c, s, t, th.(pc := Again([]), prev := th.pc.copy, canHelp := can,
                             collects := th.collects + 1, mid := Now(s)));
  }

  lemma Between(c: Config, s: State, a: nat, b: nat)
    requires HistoryOk(c, s) && a <= b < |s.hist|
    ensures Later(s.hist[a], s.hist[b]) && |s.hist[a]| == |s.hist[b]| == |s.regs| == c.capacity
    ensures CopyOk([], s.regs, s.regs)
  {
    assert Later(s.hist[b], s.hist[Now(s)]);
  }

  /** A round that is not clean, of two copies taken one after the other. */
  lemma {:induction false} RoundMoved(c: Config, prev: seq<Reg>, copy: seq<Reg>, canHelp: seq<nat>,
                                      m: seq<Reg>, mid: seq<Reg>, now: seq<Reg>)
    requires CanHelpOk(c, canHelp, prev, m) && CopyOk(prev, m, mid) && CopyOk(copy, mid, now) && Later(m, mid)
    requires |copy| == c.capacity && !SameStamps(prev, copy)
    ensures match Judge(prev, copy, canHelp)
            case Clean => false
            case Helped(k) => k < c.capacity && |m| == |now| == c.capacity && m[k].stamp + 2 <= now[k].stamp
            case Moved(can) =>
              CanHelpOk(c, can, copy, m) && |canHelp| < |can| && CopyOk(copy, m, now)
  {
    MoversSpec(c, prev, copy, 0, canHelp, canHelp, m);
  }

  /** The helper array was collected inside this scan, because its owner stored twice since. */
  lemma ReadHelpStep(c: Config, s: State, t: nat)
    requires Inv(c, s) && t < c.threads && s.threads[t].pc.ReadHelp?
    ensures Inv(c, ScanStep(c, s, t))
  {
    var th := s.threads[t];
    assert ThreadOk(c, s, t);
    var j := th.pc.j;
    assert HelpOk(s, j);
    var at := s.help[j].value.at;
    assert th.start <= at;
    ReturnKeeps(c, s, t, s.help[j]);
  }

  lemma UpdateKeeps(c: Config, s: State, t: nat)
    requires Inv(c, s) && t < c.capacity && s.threads[t].update.Some?
    requires s.threads[t].pc.Load? || s.threads[t].pc.WriteHelp?
    ensures Inv(c, UpdateStep(c, s, t))
  {
    var th := s.threads[t];
    assert ThreadOk(c, s, t);
    match th.pc
    case Load(snap) => LocalStep(c, s, t, th.(pc := WriteHelp(snap, s.regs[t].stamp)));
    case WriteHelp(snap, stamp) =>
      var s' := UpdateStep(c, s, t);
      assert Later(s.hist[th.start], s.hist[snap.value.at]);
      forall j | 0 <= j < c.capacity ensures HelpOk(s', j) { assert HelpOk(s, j); }
      forall u | 0 <= u < c.threads ensures ThreadOk(c, s', u) {
        assert ThreadOk(c, s, u);
        if u != t { assert s'.threads[u] == s.threads[u]; }
      }
      forall k | 0 <= k < |s.finished| ensures Atomic(c, s', s'.finished[k]) {
        assert Atomic(c, s, s.finished[k]);
      }
  }

  lemma StoreKeepsHistory(c: Config, s: State, t: nat)
    requires Inv(c, s) && t < c.capacity && s.threads[t].update.Some? && s.threads[t].pc.Store?
    ensures HistoryOk(c, UpdateStep(c, s, t))
  {
    assert ThreadOk(c, s, t);
    var s' := UpdateStep(c, s, t);
    forall a, b | 0 <= a <= b < |s'.hist| ensures Later(s'.hist[a], s'.hist[b]) {
      if a < |s.hist| { assert Later(s.hist[a], s.hist[if b < |s.hist| then b else Now(s)]); }
    }
  }

  lemma StoreKeeps(c: Config, s: State, t: nat)
    requires Inv(c, s) && t < c.capacity && s.threads[t].update.Some? && s.threads[t].pc.Store?
    ensures Inv(c, UpdateStep(c, s, t))
  {
    StoreKeepsHistory(c, s, t);
    var s' := UpdateStep(c, s, t);
    var th := s.threads[t];
    assert ThreadOk(c, s, t);
    assert Later(s.hist[th.start], s.hist[th.pc.snap.value.at]);
    forall j | 0 <= j < c.capacity ensures HelpOk(s', j) { assert HelpOk(s, j); }
    forall u | 0 <= u < c.threads ensures ThreadOk(c, s', u) {
      assert ThreadOk(c, s, u);
      if u != t { StoreElsewhere(c, s, t, u); }
    }
    forall k | 0 <= k < |s.finished| ensures Atomic(c, s', s'.finished[k]) {
      assert Atomic(c, s, s.finished[k]);
    }
  }

  lemma StoreElsewhere(c: Config, s: State, t: nat, u: nat)
    requires Inv(c, s) && t < c.capacity && s.threads[t].update.Some? && s.threads[t].pc.Store?
    requires u < c.threads && u != t && HistoryOk(c, UpdateStep(c, s, t))
    ensures ThreadOk(c, UpdateStep(c, s, t), u)
  {
    assert ThreadOk(c, s, u) && ThreadOk(c, s, t);
    var s' := UpdateStep(c, s, t);
    assert s'.threads[u] == s.threads[u];
    assert Later(s.regs, s'.regs) by { assert Later(s'.hist[Now(s)], s'.hist[Now(s')]); }
  }

  lemma StepKeeps(c: Config, s: State, s': State, t: nat)
    requires Inv(c, s) && t < c.threads && Step(c, s, s', t)
    ensures Inv(c, s')
  {
    var th := s.threads[t];
    assert ThreadOk(c, s, t);
    match th.pc
    case Idle =>
      if s' == Goto(s, t, Begin(th, None, Now(s))) {
        LocalStep(c, s, t, Begin(th, None, Now(s)));
      } else {
        var v :| s' == Goto(s, t, Begin(th, Some(v), Now(s)));
        LocalStep(c, s, t, Begin(th, Some(v), Now(s)));
      }
    case First(copy) => if |copy| < c.capacity { LoadStep(c, s, t); } else { FirstDone(c, s, t); }
    case Again(copy) => if |copy| < c.capacity { LoadStep(c, s, t); } else { DecideStep(c, s, t); }
    case ReadHelp(_) => ReadHelpStep(c, s, t);
    case Store(_, _) => StoreKeeps(c, s, t);
    case _ => UpdateKeeps(c, s, t);
  }

  // ----- runs -----

  ghost predicate Next(c: Config, s: State, s': State) {
    Sized(c, s) && exists t: nat :: t < c.threads && Step(c, s, s', t)
  }

  ghost predicate Run(c: Config, tr: seq<State>) {
    && |tr| > 0 && Init(c, tr[0])
    && forall i :: 0 <= i < |tr| - 1 ==> Next(c, tr[i], tr[i + 1])
  }

  lemma {:induction false} RunInv(c: Config, tr: seq<State>, i: nat)
    requires Run(c, tr) && i < |tr|
    ensures Inv(c, tr[i])
  {
    if i == 0 {
      InitOk(c, tr[0]);
    } else {
      RunInv(c, tr, i - 1);
      assert Next(c, tr[i - 1], tr[i - 1 + 1]);
      var t: nat :| t < c.threads && Step(c, tr[i - 1], tr[i], t);
      StepKeeps(c, tr[i - 1], tr[i], t);
    }
  }

  /** Every scan of every run is an atomic snapshot, found within capacity + 2 collects. */
  lemma ScansAreAtomic(c: Config, tr: seq<State>, i: nat, r: Scan)
    requires Run(c, tr) && i < |tr| && r in tr[i].finished
    ensures Atomic(c, tr[i], r)
  {
    RunInv(c, tr, i);
    var k :| 0 <= k < |tr[i].finished| && tr[i].finished[k] == r;
  }

  /** Scans that do not overlap see the registers in the order in which they ran. */
  lemma ScansAreOrdered(c: Config, tr: seq<State>, i: nat, r1: Scan, r2: Scan)
    requires Run(c, tr) && i < |tr| && r1 in tr[i].finished && r2 in tr[i].finished
    requires r1.end <= r2.start
    ensures r1.result.Some? && r2.result.Some?
    ensures r1.result.value.at <= r2.result.value.at < |tr[i].hist|
    ensures Later(tr[i].hist[r1.result.value.at], tr[i].hist[r2.result.value.at])
  {
    RunInv(c, tr, i);
    ScansAreAtomic(c, tr, i, r1);
    ScansAreAtomic(c, tr, i, r2);
  }

  // ----- wait-freedom -----

  /** A bound on the steps of its own a thread still takes before its call returns. */
  function Work(c: Config, th: Thread): int {
    match th.pc
    case Idle => 0
    case First(copy) => Times(c.capacity + 2 - th.collects, c.capacity + 1) + c.capacity - |copy| + 6
    case Again(copy) => Times(c.capacity + 2 - th.collects, c.capacity + 1) + c.capacity - |copy| + 6
    case ReadHelp(_) => 5
    case Load(_) => 3
    case WriteHelp(_, _) => 2
    case Store(_, _) => 1
  }

  /** A scan under way is at most in its (capacity + 2)-nd collect. */
  lemma ScanCollects(c: Config, s: State, t: nat)
    requires Inv(c, s) && t < c.threads
    ensures var th := s.threads[t];
      && (th.pc.First? ==> th.collects == 1 && |th.pc.copy| <= c.capacity)
      && (th.pc.Again? ==> th.collects <= c.capacity + 2 && |th.pc.copy| <= c.capacity)
      && (th.pc.ReadHelp? ==> th.collects <= c.capacity + 2)
  {
    var th := s.threads[t];
    assert ThreadOk(c, s, t);
    if th.pc.Again? { DistinctBelow(c.capacity, th.canHelp); }
  }

  /** The work left is between 0 and a bound that depends on the capacity alone, and is 0 only
      outside a call. */
  lemma WorkBounds(c: Config, s: State, t: nat)
    requires Inv(c, s) && t < c.threads
    ensures |s.threads| == c.threads
    ensures 0 <= Work(c, s.threads[t]) <= Times(c.capacity + 2, c.capacity + 1) + c.capacity + 6
    ensures Work(c, s.threads[t]) == 0 <==> s.threads[t].pc == Idle
  {
    var th := s.threads[t];
    ScanCollects(c, s, t);
    TimesLess(c.capacity + 2, c.capacity + 1);
    if th.pc.First? || th.pc.Again? {
      TimesLess(c.capacity + 2 - th.collects, c.capacity + 1);
      TimesGrows(c.capacity + 2 - th.collects, c.capacity + 2, c.capacity + 1);
    }
  }

  /** Every step a thread takes inside a call leaves it less to do. */
  lemma WorkFalls(c: Config, s: State, s': State, t: nat)
    requires Inv(c, s) && t < c.threads && Step(c, s, s', t) && s.threads[t].pc != Idle
    ensures |s'.threads| == c.threads && Work(c, s'.threads[t]) < Work(c, s.threads[t])
  {
    var th := s.threads[t];
    ScanCollects(c, s, t);
    if th.pc.First? || th.pc.Again? {
      CollectFalls(c, s, s', t);
    } else {
      assert ThreadOk(c, s, t);
    }
  }

  lemma CollectFalls(c: Config, s: State, s': State, t: nat)
    requires Inv(c, s) && t < c.threads && Step(c, s, s', t) && (s.threads[t].pc.First? || s.threads[t].pc.Again?)
    ensures |s'.threads| == c.threads && Work(c, s'.threads[t]) < Work(c, s.threads[t])
  {
    var th := s.threads[t];
    ScanCollects(c, s, t);
    TimesLess(c.capacity + 2 - th.collects, c.capacity + 1);
    assert ThreadOk(c, s, t);
    hide Judge, HelpOk, Atomic, HistoryOk, Times;
    assert th.pc.Again? && |th.pc.copy| >= c.capacity ==> |th.prev| == |th.pc.copy|;
    hide ThreadOk, Inv;
  }

  lemma OthersKeep(c: Config, s: State, s': State, t: nat, u: nat)
    requires Sized(c, s) && t < c.threads && u < c.threads && u != t && Step(c, s, s', t)
    ensures |s'.threads| == c.threads && s'.threads[u] == s.threads[u]
  {
  }

  /** Thread t is inside a call. */
  ghost predicate Busy(s: State, t: nat) {
    t < |s.threads| && s.threads[t].pc != Idle
  }

  ghost predicate Changed(s: State, s': State, t: nat) {
    t < |s.threads| && t < |s'.threads| && s'.threads[t] != s.threads[t]
  }

  /** The steps thread t takes between states a and b of a run: those that change its own state. */
  ghost function OwnSteps(tr: seq<State>, a: nat, b: nat, t: nat): nat
    requires a <= b < |tr|
  {
    if a == b then 0 else OwnSteps(tr, a, b - 1, t) + if Changed(tr[b - 1], tr[b], t) then 1 else 0
  }

  /** Wait-freedom: a call of scan or update takes a bounded number of steps of its own, however the
      other threads run between them. */
  lemma {:induction false} WaitFree(c: Config, tr: seq<State>, a: nat, b: nat, t: nat)
    requires Run(c, tr) && a <= b < |tr| && t < c.threads
    requires forall i :: a <= i < b ==> Busy(tr[i], t)
    ensures |tr[a].threads| == |tr[b].threads| == c.threads
    ensures OwnSteps(tr, a, b, t) + Work(c, tr[b].threads[t]) <= Work(c, tr[a].threads[t])
    ensures OwnSteps(tr, a, b, t) <= Times(c.capacity + 2, c.capacity + 1) + c.capacity + 6
    decreases b
  {
    hide Step, Inv, Work;
    RunInv(c, tr, a);
    RunInv(c, tr, b);
    WorkBounds(c, tr[a], t);
    WorkBounds(c, tr[b], t);
    if a < b {
      WaitFree(c, tr, a, b - 1, t);
      assert Busy(tr[b - 1], t);
      NextWork(c, tr, b - 1, t);
    }
  }

  lemma NextWork(c: Config, tr: seq<State>, i: nat, t: nat)
    requires Run(c, tr) && i + 1 < |tr| && t < c.threads && |tr[i].threads| == |tr[i + 1].threads| == c.threads
    requires tr[i].threads[t].pc != Idle
    ensures tr[i + 1].threads[t] == tr[i].threads[t] || Work(c, tr[i + 1].threads[t]) < Work(c, tr[i].threads[t])
  {
    RunInv(c, tr, i);
    assert Next(c, tr[i], tr[i + 1]);
    var u: nat :| u < c.threads && Step(c, tr[i], tr[i + 1], u);
    hide Step, Inv, Work;
    if u == t { WorkFalls(c, tr[i], tr[i + 1], t); } else { OthersKeep(c, tr[i], tr[i + 1], u, t); }
  }

  /** No step of scan or update ever waits for another thread, and each one changes the state of its
      own thread, so that it is counted. */
  lemma NeverBlocked(c: Config, tr: seq<State>, i: nat, t: nat)
    requires Run(c, tr) && i < |tr| && t < c.threads
    ensures Sized(c, tr[i]) && exists s' :: Step(c, tr[i], s', t)
    ensures forall s' :: Step(c, tr[i], s', t) ==> |s'.threads| == c.threads && s'.threads[t] != tr[i].threads[t]
  {
    RunInv(c, tr, i);
    var s := tr[i];
    var th := s.threads[t];
    assert ThreadOk(c, s, t);
    var s1 := match th.pc
      case Idle => Goto(s, t, Begin(th, None, Now(s)))
      case Load(_) => UpdateStep(c, s, t)
      case WriteHelp(_, _) => UpdateStep(c, s, t)
      case Store(_, _) => UpdateStep(c, s, t)
      case _ => ScanStep(c, s, t);
    assert Step(c, s, s1, t);
    forall s' | Step(c, s, s', t) ensures |s'.threads| == c.threads && s'.threads[t] != s.threads[t] {
      StepChanges(c, s, s', t);
    }
  }

  lemma StepChanges(c: Config, s: State, s': State, t: nat)
    requires Inv(c, s) && t < c.threads && Step(c, s, s', t)
    ensures |s'.threads| == c.threads && s'.threads[t] != s.threads[t]
  {
    if s.threads[t].pc != Idle { WorkFalls(c, s, s', t); }
  }

  /** No scan under way, of any reachable state, has begun more than capacity + 2 collects. */
  lemma CollectsBounded(c: Config, tr: seq<State>, i: nat, t: nat)
    requires Run(c, tr) && i < |tr| && t < c.threads
    ensures |tr[i].threads| == c.threads
    ensures tr[i].threads[t].pc.First? || tr[i].threads[t].pc.Again? || tr[i].threads[t].pc.ReadHelp? ==>
              tr[i].threads[t].collects <= c.capacity + 2
  {
    RunInv(c, tr, i);
    ScanCollects(c, tr[i], t);
  }

  // ----- what calls do -----

  /** Thread t began a call in state a of the run and has been inside it since, up to state i. */
  ghost predicate UnderWay(tr: seq<State>, a: nat, i: nat, t: nat) {
    && a < i < |tr| && t < |tr[a].threads| && tr[a].threads[t].pc == Idle
    && forall k :: a < k <= i ==> Busy(tr[k], t)
  }

  /** What the call that thread t began in state a was given: a value to write, or nothing to scan. */
  ghost function Argument(tr: seq<State>, a: nat, t: nat): Option<int>
    requires a + 1 < |tr|
  {
    if t < |tr[a + 1].threads| then tr[a + 1].threads[t].update else None
  }

  /** A call that thread t began in state a and that has returned in state b. */
  ghost predicate Call(tr: seq<State>, a: nat, b: nat, t: nat) {
    a < b - 1 && b < |tr| && UnderWay(tr, a, b - 1, t) && t < |tr[b].threads| && tr[b].threads[t].pc == Idle
  }

  /** Between two states register t was given the value v, and nothing else was written. */
  ghost predicate Stored(s: State, s': State, t: nat, v: int) {
    && t < |s.regs| && s'.regs == s.regs[t := Reg(s.regs[t].stamp + 1, v)]
    && s'.hist == s.hist + [s'.regs]
  }

  ghost predicate Unwritten(s: State, s': State) {
    s'.regs == s.regs && s'.hist == s.hist
  }

  lemma OwnStep(c: Config, s: State, s': State, t: nat)
    requires Inv(c, s) && t < c.threads && Step(c, s, s', t)
    ensures |s'.threads| == c.threads
    ensures var th, th' := s.threads[t], s'.threads[t];
      && (th.pc == Idle ==> th'.pc != Idle && th'.start == Now(s) && Unwritten(s, s'))
      && (th.pc != Idle ==> th'.update == th.update && th'.start == th.start)
      && (th.pc.Store? ==> t < c.capacity && th.update.Some? && Stored(s, s', t, th.update.value) && th'.pc == Idle)
      && (!th.pc.Store? ==> Unwritten(s, s'))
      && (th.pc != Idle && th'.pc == Idle && !th.pc.Store? ==>
            th.update.None? && exists r, n :: s'.finished == s.finished + [Scan(t, th.start, Now(s), r, n)])
  {
    hide HistoryOk, HelpOk, Atomic, ScanOk, Judge;
    assert ThreadOk(c, s, t);
    var th := s.threads[t];
    match th.pc
    case Again(copy) =>
      if |copy| >= c.capacity && s'.threads[t].pc == Idle { DecideReturns(c, s, t); }
    case ReadHelp(j) =>
      if s'.threads[t].pc == Idle {
        assert s'.finished == s.finished + [Scan(t, th.start, Now(s), s.help[j], th.collects)];
      }
    case _ =>
  }

  lemma DecideReturns(c: Config, s: State, t: nat)
    requires Sized(c, s) && t < c.threads && s.threads[t].pc.Again? && |s.threads[t].pc.copy| >= c.capacity
    requires ScanStep(c, s, t).threads[t].pc == Idle
    ensures var th := s.threads[t];
      exists r, n :: ScanStep(c, s, t).finished == s.finished + [Scan(t, th.start, Now(s), r, n)]
  {
  }

  lemma OtherStep(c: Config, s: State, s': State, u: nat, t: nat)
    requires Inv(c, s) && u < c.threads && t < c.threads && u != t && Step(c, s, s', u)
    ensures |s'.threads| == c.threads && s'.threads[t] == s.threads[t]
    ensures t < c.capacity ==> t < |s'.regs| && t < |s.regs| && s'.regs[t] == s.regs[t]
  {
    OthersKeep(c, s, s', u, t);
    OwnStep(c, s, s', u);
  }

  /** An idle thread can begin any call: a scan, or an update of its own register with any value. */
  lemma CallsBegin(c: Config, tr: seq<State>, i: nat, t: nat, call: Option<int>) returns (s': State)
    requires Run(c, tr) && i < |tr| && t < c.threads && (call.Some? ==> t < c.capacity)
    requires |tr[i].threads| == c.threads && tr[i].threads[t].pc == Idle
    ensures Sized(c, tr[i]) && Step(c, tr[i], s', t) && Busy(s', t) && s'.threads[t].update == call
  {
    RunInv(c, tr, i);
    hide Inv, Begin;
    match call
    case None => s' := Goto(tr[i], t, Begin(tr[i].threads[t], None, Now(tr[i])));
    case Some(v) => s' := Goto(tr[i], t, Begin(tr[i].threads[t], Some(v), Now(tr[i])));
  }

  /** While a call is under way, its argument and its start are known and its register unchanged. */
  lemma {:induction false} CallKeeps(c: Config, tr: seq<State>, a: nat, i: nat, t: nat)
    requires Run(c, tr) && UnderWay(tr, a, i, t) && t < c.threads
    ensures |tr[i].threads| == |tr[a + 1].threads| == c.threads && |tr[a].regs| == |tr[i].regs| == c.capacity
    ensures t < |tr[i].threads| && tr[i].threads[t].update == Argument(tr, a, t) && tr[i].threads[t].start == Now(tr[a])
    ensures t < c.capacity ==> tr[i].regs[t] == tr[a].regs[t]
    decreases i
  {
    hide Inv, Step;
    RunInv(c, tr, a);
    RunInv(c, tr, i);
    RunInv(c, tr, i - 1);
    InvSizes(c, tr[i]);
    InvSizes(c, tr[i - 1]);
    InvSizes(c, tr[a]);
    var s, s' := tr[i - 1], tr[i - 1 + 1];
    assert Next(c, s, s');
    var u: nat :| u < c.threads && Step(c, s, s', u);
    assert Busy(tr[i], t);
    if i - 1 > a {
      assert Busy(s, t);
      CallKeeps(c, tr, a, i - 1, t);
    }
    if u == t { OwnStep(c, s, s', t); } else { OtherStep(c, s, s', u, t); }
  }

  lemma InvSizes(c: Config, s: State)
    requires Inv(c, s)
    ensures |s.regs| == c.capacity && |s.threads| == c.threads && |s.hist| > 0
  {
  }

  /** The step in which a call returns. */
  lemma LastStep(c: Config, tr: seq<State>, a: nat, b: nat, t: nat)
    requires Run(c, tr) && Call(tr, a, b, t) && t < c.threads
    ensures Sized(c, tr[b - 1]) && Inv(c, tr[b - 1]) && Step(c, tr[b - 1], tr[b], t)
  {
    hide Inv, Step;
    RunInv(c, tr, b - 1);
    InvSizes(c, tr[b - 1]);
    var s, s' := tr[b - 1], tr[b - 1 + 1];
    assert Next(c, s, s');
    var u: nat :| u < c.threads && Step(c, s, s', u);
    assert Busy(s, t);
    if u != t { OtherStep(c, s, s', u, t); }
  }

  /** An update that has returned wrote its argument into its own register, once: in its last step,
      with the next stamp. Before that its register stayed as it was when the call began. */
  lemma UpdatesTakeEffect(c: Config, tr: seq<State>, a: nat, b: nat, t: nat)
    requires Run(c, tr) && Call(tr, a, b, t) && t < c.threads
    requires Argument(tr, a, t).Some?
    ensures t < c.capacity == |tr[a].regs| == |tr[b].regs| && Stored(tr[b - 1], tr[b], t, Argument(tr, a, t).value)
    ensures forall k :: a <= k < b ==> t < |tr[k].regs| && tr[k].regs[t] == tr[a].regs[t]
    ensures tr[b].regs[t] == Reg(tr[a].regs[t].stamp + 1, Argument(tr, a, t).value)
  {
    hide Inv, Step;
    LastStep(c, tr, a, b, t);
    CallKeeps(c, tr, a, b - 1, t);
    assert Busy(tr[b - 1], t);
    OwnStep(c, tr[b - 1], tr[b], t);
    forall k | a <= k < b ensures t < |tr[k].regs| && tr[k].regs[t] == tr[a].regs[t] {
      if k > a { CallKeeps(c, tr, a, k, t); }
    }
  }

  /** The registers change in no other way: every step leaves them alone, or is the last step of an
      update call, which gives its register the argument of that call. */
  lemma OnlyUpdatesWrite(c: Config, tr: seq<State>, i: nat) returns (t: nat, a: nat)
    requires Run(c, tr) && i + 1 < |tr|
    ensures Unwritten(tr[i], tr[i + 1]) ||
            (Call(tr, a, i + 1, t) && Argument(tr, a, t).Some? &&
             Stored(tr[i], tr[i + 1], t, Argument(tr, a, t).value))
  {
    hide Inv, Step;
    RunInv(c, tr, i);
    InvSizes(c, tr[i]);
    assert Next(c, tr[i], tr[i + 1]);
    t :| t < c.threads && Step(c, tr[i], tr[i + 1], t);
    a := 0;
    OwnStep(c, tr[i], tr[i + 1], t);
    if tr[i].threads[t].pc.Store? {
      assert Busy(tr[i], t);
      a := CallBegan(c, tr, i, t);
      CallKeeps(c, tr, a, i, t);
    }
  }

  /** Whoever is inside a call once began it. */
  lemma {:induction false} CallBegan(c: Config, tr: seq<State>, i: nat, t: nat) returns (a: nat)
    requires Run(c, tr) && i < |tr| && t < c.threads && Busy(tr[i], t)
    ensures UnderWay(tr, a, i, t)
    decreases i
  {
    hide Inv, Step, Next;
    assert i > 0;
    RunInv(c, tr, i - 1);
    InvSizes(c, tr[i - 1]);
    if tr[i - 1].threads[t].pc == Idle {
      a := i - 1;
    } else {
      assert Busy(tr[i - 1], t);
      a := CallBegan(c, tr, i - 1, t);
    }
  }

  /** A scan that has returned left one record of its result, which is an atomic snapshot taken
      between its call and its return. */
  lemma ScansReturn(c: Config, tr: seq<State>, a: nat, b: nat, t: nat) returns (r: Scan)
    requires Run(c, tr) && Call(tr, a, b, t) && t < c.threads
    requires Argument(tr, a, t).None?
    ensures tr[b].finished == tr[b - 1].finished + [r] && r.who == t
    ensures r.start == Now(tr[a]) && r.end == Now(tr[b]) && Atomic(c, tr[b], r)
  {
    hide Inv, Step, Atomic;
    LastStep(c, tr, a, b, t);
    CallKeeps(c, tr, a, b - 1, t);
    assert Busy(tr[b - 1], t);
    OwnStep(c, tr[b - 1], tr[b], t);
    r := tr[b].finished[|tr[b].finished| - 1];
    ScansAreAtomic(c, tr, b, r);
  }

  /** Thread t is not inside an update. */
  ghost predicate NotUpdating(s: State, t: nat) {
    t < |s.threads| && (s.threads[t].pc == Idle || s.threads[t].update.None?)
  }

  /** Register t is the same in both states, and at all moments between them. */
  ghost predicate Rests(c: Config, s: State, s': State, t: nat) {
    && |s.regs| == |s'.regs| == c.capacity && 0 <= Now(s) <= Now(s') && t < c.capacity
    && s'.regs[t] == s.regs[t] && s'.hist[Now(s')] == s'.regs
    && forall m :: Now(s) <= m <= Now(s') ==> |s'.hist[m]| == c.capacity && s'.hist[m][t] == s.regs[t]
  }

  lemma RestsHere(c: Config, s: State, t: nat)
    requires Inv(c, s) && t < c.capacity
    ensures Rests(c, s, s, t)
  {
  }

  lemma RestsOn(c: Config, s: State, s1: State, s2: State, t: nat)
    requires Rests(c, s, s1, t)
    requires Unwritten(s1, s2) ||
             (|s2.regs| == c.capacity && s2.hist == s1.hist + [s2.regs] && s2.regs[t] == s1.regs[t])
    ensures Rests(c, s, s2, t)
  {
  }

  lemma RestStep(c: Config, tr: seq<State>, i: nat, t: nat)
    requires Run(c, tr) && i + 1 < |tr| && t < c.capacity && NotUpdating(tr[i], t) && Inv(c, tr[i])
    ensures Unwritten(tr[i], tr[i + 1]) ||
            (|tr[i + 1].regs| == c.capacity == |tr[i].regs| && tr[i + 1].hist == tr[i].hist + [tr[i + 1].regs] &&
             tr[i + 1].regs[t] == tr[i].regs[t])
  {
    var s, s' := tr[i], tr[i + 1];
    assert Next(c, s, s');
    var u: nat :| u < c.threads && Step(c, s, s', u);
    InvSizes(c, s);
    hide Inv, Step;
    OwnStep(c, s, s', u);
  }

  /** The register of a thread that is not updating rests, now and in the history. */
  lemma {:induction false} RegisterRests(c: Config, tr: seq<State>, b: nat, e: nat, t: nat)
    requires Run(c, tr) && b <= e < |tr| && t < c.capacity
    requires forall k :: b <= k < e ==> NotUpdating(tr[k], t)
    ensures Rests(c, tr[b], tr[e], t)
    decreases e
  {
    hide Inv, Step, Rests, Unwritten;
    if b == e {
      RunInv(c, tr, b);
      RestsHere(c, tr[b], t);
    } else {
      RegisterRests(c, tr, b, e - 1, t);
      RunInv(c, tr, e - 1);
      assert NotUpdating(tr[e - 1], t);
      RestStep(c, tr, e - 1, t);
      RestsOn(c, tr[b], tr[e - 1], tr[e], t);
    }
  }

  /** A scan that begins after an update has returned shows the value that update wrote, unless its
      thread begins another update before the scan ends. */
  lemma ScanShowsUpdate(c: Config, tr: seq<State>, a: nat, b: nat, t: nat, a': nat, b': nat, u: nat) returns (r: Scan)
    requires Run(c, tr) && t < c.threads && u < c.threads && Call(tr, a, b, t) && Call(tr, a', b', u) && b <= a'
    requires Argument(tr, a, t).Some? && Argument(tr, a', u).None?
    requires forall k :: b <= k < b' ==> NotUpdating(tr[k], t)
    ensures tr[b'].finished == tr[b' - 1].finished + [r] && r.who == u && r.result.Some?
    ensures t < |r.result.value.vals| == c.capacity && r.result.value.vals[t] == Argument(tr, a, t).value
  {
    hide Inv, Step;
    UpdatesTakeEffect(c, tr, a, b, t);
    r := ScansReturn(c, tr, a', b', u);
    RegisterRests(c, tr, b, a', t);
    RegisterRests(c, tr, b, b', t);
  }
}
