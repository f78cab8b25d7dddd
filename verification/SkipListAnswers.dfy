/** The answers of the lazy skip list: whatever add, remove or contains returns was right at some
    moment between the call and the return. A search may stand on nodes that are no longer linked;
    what it saw there was true at an earlier moment of the same call. */
module SkipListAnswers {
  import opened LazySkipList

  // ----- one step -----

  /** What a step can do to the flags of a node. */
  lemma FlagStep(s: State, s': State, t: nat, u: nat)
    requires Inv(s) && t < |s.threads| && Step(s, s', t) && u < |s.nodes|
    ensures u < |s'.nodes| && Key(s', u) == Key(s, u) && s'.nodes[u].Top() == s.nodes[u].Top()
    ensures Linked(s, u) ==> Linked(s', u)
    ensures Marked(s, u) ==> Marked(s', u)
    ensures Linked(s', u) && !Linked(s, u) ==> s.threads[t].pc.SetLinked? && s.threads[t].node == u && !Marked(s', u)
    ensures Marked(s', u) && !Marked(s, u) ==> s.threads[t].pc.Mark? && s.threads[t].victim == u
  {
    At(s, t);
    hide Inv, Step;
    TopKept(s, s', t, u);
    if s.threads[t].pc.SetLinked? {
      hide ThreadOk, ListsOk, NodeOk, Searched;
      SetLinkedFlags(s, s', t, u);
    } else if s.threads[t].pc.Mark? {
      MarkFlags(s, s', t, u);
    } else {
      FlagsKept(s, s', t);
      assert SameFlags(s, s', u);
    }
  }

  lemma SetLinkedFlags(s: State, s': State, t: nat, u: nat)
    requires Sized(s) && t < |s.threads| && Step(s, s', t) && u < |s.nodes| && s.threads[t].pc.SetLinked?
    ensures Key(s', u) == Key(s, u) && Marked(s', u) == Marked(s, u)
    ensures Linked(s', u) <==> Linked(s, u) || s.threads[t].node == u
  {
  }

  lemma MarkFlags(s: State, s': State, t: nat, u: nat)
    requires Sized(s) && t < |s.threads| && Step(s, s', t) && u < |s.nodes| && s.threads[t].pc.Mark?
    ensures Key(s', u) == Key(s, u) && Linked(s', u) == Linked(s, u)
    ensures Marked(s', u) <==> Marked(s, u) || s.threads[t].victim == u
  {
  }

  lemma TopKept(s: State, s': State, t: nat, u: nat)
    requires Sized(s) && t < |s.threads| && Step(s, s', t) && u < |s.nodes|
    ensures u < |s'.nodes| && Key(s', u) == Key(s, u) && s'.nodes[u].Top() == s.nodes[u].Top()
  {
    hide FindStep, Begin, Again, Wanted, Free, Goal, Return;
  }

  lemma NewNodes(s: State, s': State, t: nat, u: nat)
    requires Sized(s) && t < |s.threads| && Step(s, s', t) && |s.nodes| <= u < |s'.nodes|
    ensures !Linked(s', u) && !Marked(s', u)
  {
    hide FindStep, Begin, Again, Wanted, Free, Goal, Return;
  }

  /** A pointer of a node that is not in the list of its level does not change. */
  lemma NextFrozen(s: State, s': State, t: nat, p: nat, l: nat)
    requires Inv(s) && t < |s.threads| && Step(s, s', t) && Sized(s') && p < |s.nodes| && l <= MAX_LEVEL
    ensures Next(s', p, l) == Next(s, p, l) || (p in s.lists[l] && p in s'.lists[l])
  {
    hide Inv, Step, Insertion, Removal;
    var th := s.threads[t];
    At(s, t);
    if th.pc.Link? && th.pc.level <= th.top {
      hide ThreadOk, Adding, ListsOk, NodeOk, Sized;
      LinkEffect(s, s', t, th.pc.level);
      FromPhase(s, th);
      AddingLink(s, s', th, th.pc.level);
      LinkedAt(s, s', th.preds[th.pc.level], th.node, th.pc.level, p, l);
    } else if th.pc.Unlink? {
      hide ThreadOk, Removing, ListsOk, NodeOk, Sized;
      UnlinkEffect(s, s', t, th.pc.level, th.pc.next);
      FromPhase(s, th);
      RemovingUnlink(s, s', th, th.pc.level);
      UnlinkedAt(s, s', th.preds[th.pc.level], th.node, th.pc.level, p, l);
    } else {
      NextKept(s, s', t, p, l);
    }
  }

  lemma LinkedAt(s: State, s': State, q: nat, n: nat, k: nat, p: nat, l: nat)
    requires Sized(s) && Sized(s') && Insertion(s, s', q, n, k) && p < |s.nodes| && l <= MAX_LEVEL
    ensures Next(s', p, l) == Next(s, p, l) || (p in s.lists[l] && p in s'.lists[l])
  {
  }

  lemma UnlinkedAt(s: State, s': State, q: nat, v: nat, k: nat, p: nat, l: nat)
    requires Sized(s) && Sized(s') && Removal(s, s', q, v, k) && p < |s.nodes| && l <= MAX_LEVEL
    ensures Next(s', p, l) == Next(s, p, l) || (p in s.lists[l] && p in s'.lists[l])
  {
  }

  lemma NextKept(s: State, s': State, t: nat, p: nat, l: nat)
    requires Sized(s) && t < |s.threads| && Step(s, s', t) && p < |s.nodes|
    requires !(s.threads[t].pc.Link? && s.threads[t].pc.level <= s.threads[t].top) && !s.threads[t].pc.Unlink?
    ensures Next(s', p, l) == Next(s, p, l)
  {
    hide FindStep, Begin, Again, Wanted, Free, Goal, Return;
  }

  // ----- what one thread does to its own state -----

  /** Outside find, a call keeps what its search has recorded, until it searches again. */
  ghost predicate OwnOk(s: State, th: Thread, th': Thread) {
    && th'.preds == th.preds && th'.succs == th.succs && th'.op == th.op
    && (th'.pc.Find? ==> th'.pc == Find(MAX_LEVEL, HEAD) && th'.lFound == -1)
    && (!th'.pc.Find? ==> th'.lFound == th.lFound)
    && (VictimPhase(th'.pc) ==> VictimPhase(th.pc) && th'.victim == th.victim)
    && (th'.pc == AddAwait ==>
          th.pc == AddAwait || (th.pc == AddCheck && 0 <= th.lFound < |th.succs| && !Marked(s, th.succs[th.lFound])))
  }

  lemma OwnStep(s: State, s': State, t: nat)
    requires Sized(s) && t < |s.threads| && Step(s, s', t) && s.threads[t].pc != Idle && !s.threads[t].pc.Find?
    ensures |s'.threads| == |s.threads| && OwnOk(s, s.threads[t], s'.threads[t])
  {
    var pc := s.threads[t].pc;
    hide Step, OwnOk;
    if pc.Lock? || pc.TestPred? || pc.TestSucc? {
      OwnLockStep(s, s', t);
    } else if pc.TestLink? {
      OwnTestStep(s, s', t);
    } else if pc.Retry? {
      OwnRetryStep(s, s', t);
    } else if pc.Link? || pc.SetLinked? {
      OwnLinkStep(s, s', t);
    } else if pc.ReadNext? || pc.Unlink? {
      OwnUnlinkStep(s, s', t);
    } else if pc.UnlockVictim? || pc.Unlock? {
      OwnReleaseStep(s, s', t);
    } else if pc.CheckLinked? || pc.CheckMarked? || pc.LockVictim? {
      OwnCheckStep(s, s', t);
    } else if pc.TestVictim? || pc.Mark? {
      OwnVictimStep(s, s', t);
    } else if pc.AddCheck? || pc.AddAwait? {
      OwnAddStep(s, s', t);
    } else if pc.HasLinked? || pc.HasMarked? {
      OwnHasStep(s, s', t);
    }
  }

  lemma OwnLockStep(s: State, s': State, t: nat)
    requires Sized(s) && t < |s.threads| && Step(s, s', t)
    requires (s.threads[t].pc.Lock? || s.threads[t].pc.TestPred? || s.threads[t].pc.TestSucc?)
    ensures |s'.threads| == |s.threads| && OwnOk(s, s.threads[t], s'.threads[t])
  {
    hide Wanted, Free, Goal;
  }

  lemma OwnTestStep(s: State, s': State, t: nat)
    requires Sized(s) && t < |s.threads| && Step(s, s', t) && s.threads[t].pc.TestLink?
    ensures |s'.threads| == |s.threads| && OwnOk(s, s.threads[t], s'.threads[t])
  {
    hide Wanted, Free, Goal;
  }

  lemma OwnRetryStep(s: State, s': State, t: nat)
    requires Sized(s) && t < |s.threads| && Step(s, s', t) && s.threads[t].pc.Retry?
    ensures |s'.threads| == |s.threads| && OwnOk(s, s.threads[t], s'.threads[t])
  {
    hide Wanted, Free, Goal;
  }

  lemma OwnLinkStep(s: State, s': State, t: nat)
    requires Sized(s) && t < |s.threads| && Step(s, s', t) && (s.threads[t].pc.Link? || s.threads[t].pc.SetLinked?)
    ensures |s'.threads| == |s.threads| && OwnOk(s, s.threads[t], s'.threads[t])
  {
    hide Wanted, Free, Goal;
  }

  lemma OwnUnlinkStep(s: State, s': State, t: nat)
    requires Sized(s) && t < |s.threads| && Step(s, s', t) && (s.threads[t].pc.ReadNext? || s.threads[t].pc.Unlink?)
    ensures |s'.threads| == |s.threads| && OwnOk(s, s.threads[t], s'.threads[t])
  {
    hide Wanted, Free, Goal;
  }

  lemma OwnReleaseStep(s: State, s': State, t: nat)
    requires Sized(s) && t < |s.threads| && Step(s, s', t) && (s.threads[t].pc.UnlockVictim? || s.threads[t].pc.Unlock?)
    ensures |s'.threads| == |s.threads| && OwnOk(s, s.threads[t], s'.threads[t])
  {
    hide Wanted, Free, Goal;
  }

  lemma OwnCheckStep(s: State, s': State, t: nat)
    requires Sized(s) && t < |s.threads| && Step(s, s', t)
    requires (s.threads[t].pc.CheckLinked? || s.threads[t].pc.CheckMarked? || s.threads[t].pc.LockVictim?)
    ensures |s'.threads| == |s.threads| && OwnOk(s, s.threads[t], s'.threads[t])
  {
    hide Wanted, Free, Goal;
  }

  lemma OwnVictimStep(s: State, s': State, t: nat)
    requires Sized(s) && t < |s.threads| && Step(s, s', t) && (s.threads[t].pc.TestVictim? || s.threads[t].pc.Mark?)
    ensures |s'.threads| == |s.threads| && OwnOk(s, s.threads[t], s'.threads[t])
  {
    hide Wanted, Free, Goal;
  }

  lemma OwnAddStep(s: State, s': State, t: nat)
    requires Sized(s) && t < |s.threads| && Step(s, s', t) && (s.threads[t].pc.AddCheck? || s.threads[t].pc.AddAwait?)
    ensures |s'.threads| == |s.threads| && OwnOk(s, s.threads[t], s'.threads[t])
  {
    hide Wanted, Free, Goal;
  }

  lemma OwnHasStep(s: State, s': State, t: nat)
    requires Sized(s) && t < |s.threads| && Step(s, s', t) && (s.threads[t].pc.HasLinked? || s.threads[t].pc.HasMarked?)
    ensures |s'.threads| == |s.threads| && OwnOk(s, s.threads[t], s'.threads[t])
  {
    hide Wanted, Free, Goal;
  }

  lemma OthersStay(s: State, s': State, t: nat, u: nat)
    requires Sized(s) && t < |s.threads| && u < |s.threads| && t != u && Step(s, s', t)
    ensures |s'.threads| == |s.threads| && s'.threads[u] == s.threads[u]
  {
    hide FindStep, Begin, Again, Wanted, Free, Goal, Return;
  }

  /** The steps that return false. */
  lemma SaysFalse(s: State, s': State, t: nat)
    requires Sized(s) && Sized(s') && t < |s.threads| && Step(s, s', t) && s.threads[t].pc != Idle
    requires |s'.threads| == |s.threads| && s'.threads[t].pc == Idle && !s'.threads[t].result
    ensures var th := s.threads[t];
      var u := if th.lFound >= 0 then th.succs[th.lFound] else HEAD;
      match th.pc
      case Find(level, pred) => level == 0 && s'.threads[t].lFound < 0 && !th.op.Add?
      case AddAwait => th.lFound >= 0 && Linked(s, u)
      case CheckLinked => !Linked(s, th.victim) || s.nodes[th.victim].Top() != th.lFound
      case CheckMarked => Marked(s, th.victim)
      case TestVictim => Marked(s, th.victim)
      case HasLinked => th.lFound >= 0 && !Linked(s, u)
      case HasMarked => th.lFound >= 0 && Marked(s, u)
      case _ => false
  {
    hide Wanted, Free, Goal;
  }

  // ----- what was true at some moment of a call -----

  ghost predicate SeenAt(s: State, p: nat, l: nat) {
    l < |s.lists| && p in s.lists[l] && p < |s.nodes|
  }

  /** p was linked at level l at some moment from b to i. */
  ghost predicate Seen(tr: seq<State>, b: nat, i: nat, p: nat, l: nat) {
    exists m: nat :: b <= m <= i && m < |tr| && SeenAt(tr[m], p, l)
  }

  ghost predicate EdgeAt(s: State, p: nat, l: nat, c: nat) {
    SeenAt(s, p, l) && Next(s, p, l) == c
  }

  /** p was linked at level l and led to c at some moment from b to i. */
  ghost predicate Edge(tr: seq<State>, b: nat, i: nat, p: nat, l: nat, c: nat) {
    exists m: nat :: b <= m <= i && m < |tr| && EdgeAt(tr[m], p, l, c)
  }

  lemma EdgeLater(tr: seq<State>, b: nat, i: nat, j: nat, p: nat, l: nat, c: nat)
    requires Edge(tr, b, i, p, l, c) && i <= j
    ensures Edge(tr, b, j, p, l, c)
  {
    var m: nat :| b <= m <= i && m < |tr| && EdgeAt(tr[m], p, l, c);
  }

  lemma SeenLater(tr: seq<State>, b: nat, i: nat, j: nat, p: nat, l: nat)
    requires Seen(tr, b, i, p, l) && i <= j
    ensures Seen(tr, b, j, p, l)
  {
    var m: nat :| b <= m <= i && m < |tr| && SeenAt(tr[m], p, l);
  }

  /** The step from state i of a run. */
  lemma StepOf(tr: seq<State>, i: nat) returns (t: nat)
    requires Run(tr) && i + 1 < |tr|
    ensures Inv(tr[i]) && Inv(tr[i + 1]) && Sized(tr[i]) && Sized(tr[i + 1])
    ensures t < |tr[i].threads| && Step(tr[i], tr[i + 1], t)
  {
    hide Inv, Init, Step;
    RunInv(tr, i);
    RunInv(tr, i + 1);
    assert Moves(tr[i], tr[i + 1]);
    t :| t < |tr[i].threads| && Step(tr[i], tr[i + 1], t);
  }

  /** Keys are for good, and flags are never taken back. */
  lemma {:induction false} FlagsRun(tr: seq<State>, i: nat, j: nat, u: nat)
    requires Run(tr) && i <= j < |tr| && u < |tr[i].nodes|
    ensures u < |tr[j].nodes| && Key(tr[j], u) == Key(tr[i], u) && tr[j].nodes[u].Top() == tr[i].nodes[u].Top()
    ensures Linked(tr[i], u) ==> Linked(tr[j], u)
    ensures Marked(tr[i], u) ==> Marked(tr[j], u)
    decreases j
  {
    hide Run, Step, Inv, Sized;
    if i < j {
      FlagsRun(tr, i, j - 1, u);
      var t := StepOf(tr, j - 1);
      FlagStep(tr[j - 1], tr[j], t, u);
    }
  }

  /** Where a node that was linked leads now is where it led at some moment while it was linked. */
  lemma {:induction false} Hindsight(tr: seq<State>, b: nat, m: nat, i: nat, p: nat, l: nat)
    requires Run(tr) && b <= m <= i < |tr| && l <= MAX_LEVEL && SeenAt(tr[m], p, l)
    ensures Edge(tr, b, i, p, l, Next(tr[i], p, l))
    decreases i
  {
    hide Run, Step, Inv, Sized, Next;
    if i == m {
      assert EdgeAt(tr[m], p, l, Next(tr[m], p, l));
    } else {
      Hindsight(tr, b, m, i - 1, p, l);
      var t := StepOf(tr, i - 1);
      FlagsRun(tr, m, i - 1, p);
      FlagsRun(tr, m, i, p);
      NextFrozen(tr[i - 1], tr[i], t, p, l);
      Widened(tr[i]);
      if Next(tr[i], p, l) == Next(tr[i - 1], p, l) {
        EdgeLater(tr, b, i - 1, i, p, l, Next(tr[i], p, l));
      } else {
        assert EdgeAt(tr[i], p, l, Next(tr[i], p, l));
      }
    }
  }

  lemma Widened(s: State)
    requires Sized(s)
    ensures |s.lists| == MAX_LEVEL + 1
  {
  }

  // ----- what a search has seen -----

  /** What was recorded at level j was so at some moment from b to i. */
  ghost predicate Witnessed(tr: seq<State>, b: nat, i: nat, th: Thread, j: nat) {
    && i < |tr| && j < |th.preds| == |th.succs|
    && Edge(tr, b, i, th.preds[j], j, th.succs[j])
    && Key(tr[i], th.preds[j]) < th.op.x && (th.lFound < j ==> th.op.x < Key(tr[i], th.succs[j]))
    && th.preds[j] < |tr[i].nodes| && th.succs[j] < |tr[i].nodes|
  }

  ghost predicate AllWitnessed(tr: seq<State>, b: nat, i: nat, th: Thread, from: nat) {
    forall j: nat :: from <= j <= MAX_LEVEL ==> Witnessed(tr, b, i, th, j)
  }

  /** u had not been marked at some moment from b to i. */
  ghost predicate WasUnmarked(tr: seq<State>, b: nat, i: nat, u: nat) {
    exists m: nat :: b <= m <= i && m < |tr| && UnmarkedAt(tr[m], u)
  }

  ghost predicate UnmarkedAt(s: State, u: nat) {
    u < |s.nodes| && !Marked(s, u)
  }

  /** What the call that began at b knows at i. */
  ghost predicate Knows(tr: seq<State>, b: nat, i: nat, th: Thread) {
    if th.pc.Find? then
      && th.pc.level <= MAX_LEVEL && Seen(tr, b, i, th.pc.pred, th.pc.level)
      && AllWitnessed(tr, b, i, th, th.pc.level + 1)
    else
      && AllWitnessed(tr, b, i, th, 0)
      && (VictimPhase(th.pc) ==> 0 <= th.lFound < |th.succs| && th.victim == th.succs[th.lFound])
      && (th.pc == AddAwait ==> 0 <= th.lFound < |th.succs| && WasUnmarked(tr, b, i, th.succs[th.lFound]))
  }

  lemma WitnessedLater(tr: seq<State>, b: nat, i: nat, j: nat, th: Thread, th': Thread, k: nat)
    requires Run(tr) && Witnessed(tr, b, i, th, k) && i <= j < |tr| && |th'.preds| == |th'.succs| == |th.preds|
    requires th'.preds[k] == th.preds[k] && th'.succs[k] == th.succs[k] && th'.op == th.op
    requires th'.lFound == th.lFound || k <= th'.lFound || th.lFound < k
    ensures Witnessed(tr, b, j, th', k)
  {
    hide Run;
    EdgeLater(tr, b, i, j, th.preds[k], k, th.succs[k]);
    FlagsRun(tr, i, j, th.preds[k]);
    FlagsRun(tr, i, j, th.succs[k]);
  }

  lemma AllLater(tr: seq<State>, b: nat, i: nat, j: nat, th: Thread, th': Thread, from: nat)
    requires Run(tr) && AllWitnessed(tr, b, i, th, from) && i <= j < |tr|
    requires th'.preds == th.preds && th'.succs == th.succs && th'.op == th.op && th'.lFound == th.lFound
    ensures AllWitnessed(tr, b, j, th', from)
  {
    hide Run, Witnessed;
    forall k: nat | from <= k <= MAX_LEVEL ensures Witnessed(tr, b, j, th', k) {
      assert Witnessed(tr, b, i, th, k);
      WitnessedSized(tr, b, i, th, k);
      WitnessedLater(tr, b, i, j, th, th', k);
    }
  }

  lemma WitnessedSized(tr: seq<State>, b: nat, i: nat, th: Thread, k: nat)
    requires Witnessed(tr, b, i, th, k)
    ensures k < |th.preds| == |th.succs|
  {
  }

  lemma UnmarkedLater(tr: seq<State>, b: nat, i: nat, j: nat, u: nat)
    requires WasUnmarked(tr, b, i, u) && i <= j
    ensures WasUnmarked(tr, b, j, u)
  {
    var m: nat :| b <= m <= i && m < |tr| && UnmarkedAt(tr[m], u);
  }

  /** Another thread takes a step. */
  lemma KnowsLater(tr: seq<State>, b: nat, i: nat, th: Thread)
    requires Run(tr) && i + 1 < |tr| && Knows(tr, b, i, th)
    ensures Knows(tr, b, i + 1, th)
  {
    hide Run, AllWitnessed, Seen, WasUnmarked;
    if th.pc.Find? {
      SeenLater(tr, b, i, i + 1, th.pc.pred, th.pc.level);
      AllLater(tr, b, i, i + 1, th, th, th.pc.level + 1);
    } else {
      AllLater(tr, b, i, i + 1, th, th, 0);
      if th.pc == AddAwait { UnmarkedLater(tr, b, i, i + 1, th.succs[th.lFound]); }
    }
  }

  /** A node linked at one level is linked at the level below. */
  lemma SeenBelow(tr: seq<State>, b: nat, i: nat, p: nat, l: nat)
    requires Run(tr) && Seen(tr, b, i, p, l) && 0 < l <= MAX_LEVEL
    ensures Seen(tr, b, i, p, l - 1)
  {
    hide Run, ThreadOk, NodeOk, HoldsOk, Apart;
    var m: nat :| b <= m <= i && m < |tr| && SeenAt(tr[m], p, l);
    RunInv(tr, m);
    Member(tr[m], l, p);
    assert SeenAt(tr[m], p, l - 1);
  }

  /** Where a linked node led, there is the tail or another linked node. */
  lemma SeenNext(tr: seq<State>, b: nat, i: nat, p: nat, l: nat, c: nat)
    requires Run(tr) && Edge(tr, b, i, p, l, c) && l <= MAX_LEVEL && i < |tr|
    ensures c < |tr[i].nodes| && (c != TAIL ==> Seen(tr, b, i, c, l))
    ensures Key(tr[i], TAIL) == INT64_MAX && p < |tr[i].nodes|
  {
    hide Run, ThreadOk, HoldsOk, Apart, LinkOk;
    var m: nat :| b <= m <= i && m < |tr| && EdgeAt(tr[m], p, l, c);
    RunInv(tr, m);
    Member(tr[m], l, p);
    if c != TAIL {
      Member(tr[m], l, c);
      assert SeenAt(tr[m], c, l);
    }
    assert NodeOk(tr[m], TAIL);
    hide Inv, NodeOk;
    FlagsRun(tr, m, i, c);
    FlagsRun(tr, m, i, TAIL);
    FlagsRun(tr, m, i, p);
  }

  lemma FindEffect(s: State, s': State, t: nat)
    requires Sized(s) && t < |s.threads| && Step(s, s', t) && s.threads[t].pc.Find?
    ensures s.threads[t].pc.level <= MAX_LEVEL && |s'.threads| == |s.threads| && s'.nodes == s.nodes
    ensures s'.threads[t] == FindStep(s, s.threads[t], s.threads[t].pc.level, s.threads[t].pc.pred)
  {
    hide FindStep;
  }

  lemma NowWitnessed(tr: seq<State>, b: nat, i: nat, j: nat, th: Thread, level: nat, pred: nat)
    requires Run(tr) && b <= i && i + 1 == j < |tr| && |th.preds| == |th.succs| == MAX_LEVEL + 1 && level <= MAX_LEVEL
    requires AllWitnessed(tr, b, i, th, level + 1) && Edge(tr, b, j, pred, level, Next(tr[i], pred, level))
    requires tr[j].nodes == tr[i].nodes && pred < |tr[i].nodes| && Next(tr[i], pred, level) < |tr[i].nodes|
    requires Key(tr[i], pred) < th.op.x <= Key(tr[i], Next(tr[i], pred, level))
    requires (th.lFound == -1 || level < th.lFound)
    ensures AllWitnessed(tr, b, j, Recorded(tr[i], th, level, pred), level)
  {
    hide Run, Edge, Next;
    var th' := Recorded(tr[i], th, level, pred);
    forall k: nat | level <= k <= MAX_LEVEL ensures Witnessed(tr, b, j, th', k) {
      if k > level {
        assert Witnessed(tr, b, i, th, k);
        WitnessedLater(tr, b, i, j, th, th', k);
      }
    }
  }

  /** What find knows of where it stands. */
  lemma Standing(s: State, t: nat)
    requires Inv(s) && t < |s.threads| && s.threads[t].pc.Find?
    ensures var th := s.threads[t];
      && |th.preds| == |th.succs| == MAX_LEVEL + 1 && INT64_MIN < th.op.x < INT64_MAX && th.lFound <= MAX_LEVEL
      && Key(s, th.pc.pred) < th.op.x && th.pc.level <= MAX_LEVEL && (th.lFound == -1 || th.pc.level < th.lFound)
  {
    At(s, t);
    hide ListsOk, NodeOk, ThreadOk, LockOk, VictimOk, ChangeOk;
  }

  /** A turn of the loops of find. */
  lemma KnowsFind(tr: seq<State>, b: nat, i: nat, t: nat)
    requires Run(tr) && b <= i && i + 1 < |tr| && Sized(tr[i]) && t < |tr[i].threads| && Step(tr[i], tr[i + 1], t)
    requires tr[i].threads[t].pc.Find? && Knows(tr, b, i, tr[i].threads[t])
    ensures t < |tr[i + 1].threads| && Knows(tr, b, i + 1, tr[i + 1].threads[t])
  {
    hide Run, AllWitnessed, Inv, Step, Edge, Witnessed;
    var s, th := tr[i], tr[i].threads[t];
    RunInv(tr, i);
    Standing(s, t);
    FindEffect(s, tr[i + 1], t);
    var level, pred := th.pc.level, th.pc.pred;
    var curr := Next(s, pred, level);
    PredLeads(tr, b, i, pred, level);
    if th.op.x > Key(s, curr) {
      AllLater(tr, b, i, i + 1, th, tr[i + 1].threads[t], level + 1);
    } else {
      NowWitnessed(tr, b, i, i + 1, th, level, pred);
      hide Seen;
      var th' := Recorded(s, th, level, pred);
      if level > 0 {
        SeenLater(tr, b, i, i + 1, pred, level);
        SeenBelow(tr, b, i + 1, pred, level);
        AllLater(tr, b, i + 1, i + 1, th', th'.(pc := Find(level - 1, pred)), level);
      } else {
        AllLater(tr, b, i + 1, i + 1, th', Found(th'), 0);
      }
    }
  }

  lemma PredLeads(tr: seq<State>, b: nat, i: nat, pred: nat, level: nat)
    requires Run(tr) && b <= i && i + 1 < |tr| && level <= MAX_LEVEL && Seen(tr, b, i, pred, level)
    requires tr[i + 1].nodes == tr[i].nodes
    ensures var curr := Next(tr[i], pred, level);
      && Edge(tr, b, i + 1, pred, level, curr) && pred < |tr[i].nodes| && curr < |tr[i].nodes|
      && (curr != TAIL ==> Seen(tr, b, i + 1, curr, level)) && Key(tr[i], TAIL) == INT64_MAX
  {
    hide Run, Next;
    var m: nat :| b <= m <= i && m < |tr| && SeenAt(tr[m], pred, level);
    Hindsight(tr, b, m, i, pred, level);
    EdgeLater(tr, b, i, i + 1, pred, level, Next(tr[i], pred, level));
    SeenNext(tr, b, i + 1, pred, level, Next(tr[i], pred, level));
  }

  /** A step of the call itself. */
  lemma KnowsOwn(tr: seq<State>, b: nat, i: nat, t: nat)
    requires Run(tr) && b <= i && i + 1 < |tr| && Sized(tr[i]) && t < |tr[i].threads| && Step(tr[i], tr[i + 1], t)
    requires tr[i].threads[t].pc != Idle && Knows(tr, b, i, tr[i].threads[t])
    ensures t < |tr[i + 1].threads| && Knows(tr, b, i + 1, tr[i + 1].threads[t])
  {
    hide Run, AllWitnessed, Inv, Step, Edge, Witnessed;
    var th := tr[i].threads[t];
    RunInv(tr, i + 1);
    if th.pc.Find? {
      KnowsFind(tr, b, i, t);
    } else {
      OwnStep(tr[i], tr[i + 1], t);
      var th' := tr[i + 1].threads[t];
      if th'.pc.Find? {
        HeadSeen(tr, b, i + 1);
        NoneRecorded(tr, b, i + 1, th');
      } else {
        AllLater(tr, b, i, i + 1, th, th', 0);
        if th'.pc == AddAwait {
          if th.pc == AddCheck { FoundUnmarked(tr, b, i, th); }
          UnmarkedLater(tr, b, i, i + 1, th.succs[th.lFound]);
        }
      }
    }
  }

  lemma HeadSeen(tr: seq<State>, b: nat, i: nat)
    requires b <= i < |tr| && Inv(tr[i])
    ensures Seen(tr, b, i, HEAD, MAX_LEVEL)
  {
    assert SeenAt(tr[i], HEAD, MAX_LEVEL);
  }

  lemma NoneRecorded(tr: seq<State>, b: nat, i: nat, th: Thread)
    ensures AllWitnessed(tr, b, i, th, MAX_LEVEL + 1)
  {
  }

  lemma FoundUnmarked(tr: seq<State>, b: nat, i: nat, th: Thread)
    requires b <= i < |tr| && 0 <= th.lFound < |th.succs| && th.lFound <= MAX_LEVEL
    requires AllWitnessed(tr, b, i, th, 0) && !Marked(tr[i], th.succs[th.lFound])
    ensures WasUnmarked(tr, b, i, th.succs[th.lFound])
  {
    assert Witnessed(tr, b, i, th, th.lFound);
    assert UnmarkedAt(tr[i], th.succs[th.lFound]);
  }

  /** Thread t is in one call from state b on, at least up to state i. */
  ghost predicate InCall(tr: seq<State>, b: nat, i: nat, t: nat) {
    && b <= i < |tr| && t < |tr[b].threads| && tr[b].threads[t].pc == Find(MAX_LEVEL, HEAD)
    && forall m: nat :: b <= m < i ==> t < |tr[m].threads| && tr[m].threads[t].pc != Idle
  }

  lemma {:induction false} CallKnows(tr: seq<State>, b: nat, i: nat, t: nat)
    requires Run(tr) && InCall(tr, b, i, t)
    ensures t < |tr[i].threads| && Knows(tr, b, i, tr[i].threads[t])
    ensures tr[i].threads[t].op == tr[b].threads[t].op
    decreases i
  {
    hide Run, Inv, Step, Knows, Sized;
    if i == b {
      RunInv(tr, b);
      CallStarts(tr, b, t);
    } else {
      CallKnows(tr, b, i - 1, t);
      var u := StepOf(tr, i - 1);
      if u == t {
        KnowsOwn(tr, b, i - 1, t);
        SameOp(tr[i - 1], tr[i], t);
      } else {
        OthersStay(tr[i - 1], tr[i], u, t);
        KnowsLater(tr, b, i - 1, tr[i - 1].threads[t]);
      }
    }
  }

  lemma CallStarts(tr: seq<State>, b: nat, t: nat)
    requires b < |tr| && Inv(tr[b]) && t < |tr[b].threads| && tr[b].threads[t].pc == Find(MAX_LEVEL, HEAD)
    ensures Knows(tr, b, b, tr[b].threads[t])
  {
    hide Inv;
    HeadSeen(tr, b, b);
    NoneRecorded(tr, b, b, tr[b].threads[t]);
  }

  lemma SameOp(s: State, s': State, t: nat)
    requires Sized(s) && t < |s.threads| && Step(s, s', t) && s.threads[t].pc != Idle
    ensures |s'.threads| == |s.threads| && s'.threads[t].op == s.threads[t].op
  {
    hide Step;
    if s.threads[t].pc.Find? { FindEffect(s, s', t); } else { OwnStep(s, s', t); }
  }

  // ----- moments at which an element was in the set, or was not -----

  ghost predicate Lacked(tr: seq<State>, b: nat, i: nat, x: int) {
    exists m: nat :: b <= m <= i && m < |tr| && !Holds(tr[m], x)
  }

  ghost predicate Had(tr: seq<State>, b: nat, i: nat, x: int) {
    exists m: nat :: b <= m <= i && m < |tr| && Holds(tr[m], x)
  }

  /** Between a linked node and its successor there is no key of the level. */
  lemma GapAt(s: State, p: nat, l: nat, c: nat, x: int, u: nat)
    requires Inv(s) && EdgeAt(s, p, l, c) && l <= MAX_LEVEL && Key(s, p) < x < Key(s, c)
    ensures u in s.lists[l] ==> Key(s, u) != x
  {
    hide ThreadOk, NodeOk, HoldsOk, Apart, MemberOk;
    assert LinkOk(s, l, p, u);
  }

  lemma GapLacks(s: State, p: nat, c: nat, x: int)
    requires Inv(s) && EdgeAt(s, p, 0, c) && Key(s, p) < x < Key(s, c)
    ensures !Holds(s, x)
  {
    hide ThreadOk, HoldsOk, Apart, ListsOk, PtrOk;
    if Holds(s, x) {
      var u: nat :| u < |s.nodes| && Linked(s, u) && !Marked(s, u) && Key(s, u) == x;
      assert NodeOk(s, u);
      InBottom(s, u);
      hide Inv, NodeOk;
      GapAt(s, p, 0, c, x, u);
    }
  }

  /** A node at the bottom that is not linked on all its levels, or is marked, keeps its key out of
      the set. */
  lemma SpoiltLacks(s: State, u: nat)
    requires Inv(s) && u < |s.nodes| && u in s.lists[0] && (!Linked(s, u) || Marked(s, u))
    ensures !Holds(s, Key(s, u))
  {
    hide Inv;
    if Holds(s, Key(s, u)) {
      var v: nat :| v < |s.nodes| && Linked(s, v) && !Marked(s, v) && Key(s, v) == Key(s, u);
      OneNode(s, v, u);
    }
  }

  /** A node that was at the bottom and has been marked by now. */
  lemma {:induction false} MarkMoment(tr: seq<State>, b: nat, m: nat, i: nat, u: nat)
    requires Run(tr) && b <= m <= i < |tr| && SeenAt(tr[m], u, 0) && Marked(tr[i], u)
    ensures Lacked(tr, b, i, Key(tr[m], u))
    decreases i
  {
    hide Run, Step, Inv, Holds, Sized;
    RunInv(tr, m);
    if Marked(tr[m], u) || !Linked(tr[m], u) {
      SpoiltLacks(tr[m], u);
    } else if Marked(tr[i - 1], u) {
      MarkMoment(tr, b, m, i - 1, u);
      LackedLater(tr, b, i - 1, i, Key(tr[m], u));
    } else {
      var t := StepOf(tr, i - 1);
      FlagsRun(tr, m, i - 1, u);
      FlagStep(tr[i - 1], tr[i], t, u);
      MarkedNow(tr[i - 1], tr[i], t, u);
    }
  }

  lemma LackedLater(tr: seq<State>, b: nat, i: nat, j: nat, x: int)
    requires Lacked(tr, b, i, x) && i <= j
    ensures Lacked(tr, b, j, x)
  {
    var m: nat :| b <= m <= i && m < |tr| && !Holds(tr[m], x);
  }

  lemma MarkedNow(s: State, s': State, t: nat, u: nat)
    requires Inv(s) && t < |s.threads| && Step(s, s', t) && s.threads[t].pc.Mark? && s.threads[t].victim == u
    ensures !Holds(s', Key(s, u))
  {
    At(s, t);
    hide Inv, Step, ListsOk, NodeOk, ThreadOk, Holds, Searched;
    RemoveChangesSet(s, s', t);
    assert s.threads[t].op.x !in Elems(s');
  }

  lemma LinkedNow(s: State, s': State, t: nat, u: nat)
    requires Inv(s) && t < |s.threads| && Step(s, s', t) && s.threads[t].pc.SetLinked? && s.threads[t].node == u
    ensures !Holds(s, Key(s, u))
  {
    At(s, t);
    hide Inv, Step, ListsOk, NodeOk, ThreadOk, Holds, Searched;
    AddChangesSet(s, s', t);
    assert s.threads[t].op.x !in Elems(s);
  }

  /** A node that was not fully linked, or not there, and is fully linked by now. */
  lemma {:induction false} LinkMoment(tr: seq<State>, b: nat, m: nat, i: nat, u: nat)
    requires Run(tr) && b <= m <= i < |tr| && !Linked(tr[m], u) && Linked(tr[i], u)
    ensures Lacked(tr, b, i, Key(tr[i], u))
    decreases i
  {
    hide Run, Step, Inv, Holds, Sized;
    var t := StepOf(tr, i - 1);
    if u >= |tr[i - 1].nodes| { NewNodes(tr[i - 1], tr[i], t, u); }
    FlagStep(tr[i - 1], tr[i], t, u);
    if Linked(tr[i - 1], u) {
      LinkMoment(tr, b, m, i - 1, u);
      LackedLater(tr, b, i - 1, i, Key(tr[i], u));
    } else {
      LinkedNow(tr[i - 1], tr[i], t, u);
    }
  }

  /** A node that was not marked, and is fully linked by now, was in the set in between. */
  lemma {:induction false} AddedMoment(tr: seq<State>, b: nat, m: nat, i: nat, u: nat)
    requires Run(tr) && b <= m <= i < |tr| && UnmarkedAt(tr[m], u) && Linked(tr[i], u)
    ensures Had(tr, b, i, Key(tr[i], u))
    decreases i
  {
    hide Run, Step, Inv, Sized;
    if Linked(tr[m], u) {
      FlagsRun(tr, m, i, u);
      assert Holds(tr[m], Key(tr[m], u));
    } else {
      var t := StepOf(tr, i - 1);
      FlagsRun(tr, m, i - 1, u);
      FlagStep(tr[i - 1], tr[i], t, u);
      if Linked(tr[i - 1], u) {
        AddedMoment(tr, b, m, i - 1, u);
        HadLater(tr, b, i - 1, i, Key(tr[i], u));
      } else {
        assert Holds(tr[i], Key(tr[i], u));
      }
    }
  }

  lemma HadLater(tr: seq<State>, b: nat, i: nat, j: nat, x: int)
    requires Had(tr, b, i, x) && i <= j
    ensures Had(tr, b, j, x)
  {
    var m: nat :| b <= m <= i && m < |tr| && Holds(tr[m], x);
  }

  // ----- the answers -----

  /** The search has found no node of the key. */
  lemma NotFound(tr: seq<State>, b: nat, i: nat, th: Thread)
    requires Run(tr) && i < |tr| && AllWitnessed(tr, b, i, th, 0) && th.lFound < 0
    ensures Lacked(tr, b, i, th.op.x)
  {
    hide Run, Inv, Holds;
    assert Witnessed(tr, b, i, th, 0);
    var p, c := th.preds[0], th.succs[0];
    var m: nat :| b <= m <= i && m < |tr| && EdgeAt(tr[m], p, 0, c);
    RunInv(tr, m);
    EdgeKeys(tr, b, m, i, p, 0, c);
    GapLacks(tr[m], p, c, th.op.x);
  }

  lemma EdgeKeys(tr: seq<State>, b: nat, m: nat, i: nat, p: nat, l: nat, c: nat)
    requires Run(tr) && b <= m <= i < |tr| && EdgeAt(tr[m], p, l, c) && l <= MAX_LEVEL
    ensures p < |tr[m].nodes| && c < |tr[m].nodes| && Key(tr[i], p) == Key(tr[m], p) && Key(tr[i], c) == Key(tr[m], c)
  {
    RunInv(tr, m);
    hide Run, ThreadOk, HoldsOk, Apart, LinkOk, NodeOk;
    Member(tr[m], l, p);
    if c != TAIL { Member(tr[m], l, c); }
    hide Inv;
    FlagsRun(tr, m, i, p);
    FlagsRun(tr, m, i, c);
  }

  /** The node found at a level was at the bottom at some moment of the search. */
  lemma FoundBelow(tr: seq<State>, b: nat, i: nat, th: Thread, l: nat) returns (m: nat)
    requires Run(tr) && i < |tr| && AllWitnessed(tr, b, i, th, 0) && l <= MAX_LEVEL && th.op.x < INT64_MAX
    requires l < |th.succs| && Key(tr[i], th.succs[l]) == th.op.x
    ensures b <= m <= i && SeenAt(tr[m], th.succs[l], 0) && Key(tr[m], th.succs[l]) == th.op.x
  {
    hide Run, Inv;
    assert Witnessed(tr, b, i, th, l);
    var u := th.succs[l];
    SeenNext(tr, b, i, th.preds[l], l, u);
    SeenBottom(tr, b, i, u, l);
    m :| b <= m <= i && m < |tr| && SeenAt(tr[m], u, 0);
    FlagsRun(tr, m, i, u);
  }

  lemma {:induction false} SeenBottom(tr: seq<State>, b: nat, i: nat, p: nat, l: nat)
    requires Run(tr) && Seen(tr, b, i, p, l) && l <= MAX_LEVEL
    ensures Seen(tr, b, i, p, 0)
    decreases l
  {
    hide Run, Seen;
    if l > 0 {
      SeenBelow(tr, b, i, p, l);
      SeenBottom(tr, b, i, p, l - 1);
    }
  }

  /** The node found has been marked. */
  lemma FoundMarked(tr: seq<State>, b: nat, i: nat, th: Thread, l: nat)
    requires Run(tr) && i < |tr| && AllWitnessed(tr, b, i, th, 0) && l <= MAX_LEVEL && th.op.x < INT64_MAX
    requires l < |th.succs| && Key(tr[i], th.succs[l]) == th.op.x && Marked(tr[i], th.succs[l])
    ensures Lacked(tr, b, i, th.op.x)
  {
    hide Run, AllWitnessed, Lacked;
    var m := FoundBelow(tr, b, i, th, l);
    MarkMoment(tr, b, m, i, th.succs[l]);
  }

  /** The node found is not fully linked yet. */
  lemma FoundUnlinked(tr: seq<State>, b: nat, i: nat, th: Thread, l: nat)
    requires Run(tr) && i < |tr| && AllWitnessed(tr, b, i, th, 0) && l <= MAX_LEVEL && th.op.x < INT64_MAX
    requires l < |th.succs| && Key(tr[i], th.succs[l]) == th.op.x && !Linked(tr[i], th.succs[l])
    ensures Lacked(tr, b, i, th.op.x)
  {
    hide Run, AllWitnessed, Inv, Holds;
    var m := FoundBelow(tr, b, i, th, l);
    var u := th.succs[l];
    RunInv(tr, m);
    FlagsRun(tr, m, i, u);
    SpoiltLacks(tr[m], u);
  }

  /** The node found reaches higher than the level it was found at: the search has passed a higher
      level while it was not linked there. */
  lemma FoundLow(tr: seq<State>, b: nat, i: nat, th: Thread, l: nat)
    requires Run(tr) && i < |tr| && AllWitnessed(tr, b, i, th, 0) && th.op.x < INT64_MAX && th.lFound == l < MAX_LEVEL
    requires l < |th.succs| && Key(tr[i], th.succs[l]) == th.op.x && Linked(tr[i], th.succs[l])
    requires tr[i].nodes[th.succs[l]].Top() > l
    ensures Lacked(tr, b, i, th.op.x)
  {
    hide Run, Inv, Holds, Lacked;
    assert Witnessed(tr, b, i, th, l + 1);
    var u, k := th.succs[l], l + 1;
    var p, c := th.preds[k], th.succs[k];
    var m: nat :| b <= m <= i && m < |tr| && EdgeAt(tr[m], p, k, c);
    RunInv(tr, m);
    EdgeKeys(tr, b, m, i, p, k, c);
    GapAt(tr[m], p, k, c, th.op.x, u);
    if !Linked(tr[m], u) {
      LinkMoment(tr, b, m, i, u);
    } else {
      FlagsRun(tr, m, i, u);
      NotThere(tr[m], u, k);
      FoundMarked(tr, b, i, th, l);
    }
  }

  lemma NotThere(s: State, u: nat, l: nat)
    requires Inv(s) && u < |s.nodes| && Linked(s, u) && l <= s.nodes[u].Top() && l <= MAX_LEVEL && u !in s.lists[l]
    ensures Marked(s, u)
  {
    hide ThreadOk, HoldsOk, Apart, ListsOk;
    assert NodeOk(s, u) && Known(s, u, l);
  }

  predicate FoundPhase(pc: Pc) {
    VictimPhase(pc) || pc.AddAwait? || pc.HasLinked? || pc.HasMarked?
  }

  /** What a call knows of the node it has found. */
  lemma FoundFacts(s: State, t: nat)
    requires Inv(s) && t < |s.threads| && FoundPhase(s.threads[t].pc)
    ensures var th := s.threads[t];
      && 0 <= th.lFound < |th.succs| && th.lFound <= MAX_LEVEL && th.op.x < INT64_MAX
      && (th.pc.AddAwait? <==> th.op.Add?)
      && var u := th.succs[th.lFound];
      && u < |s.nodes| && Key(s, u) == th.op.x && th.lFound <= s.nodes[u].Top() <= MAX_LEVEL
  {
    At(s, t);
    hide ListsOk, NodeOk, ThreadOk, LockOk, ChangeOk;
    var th := s.threads[t];
    assert Searched(s, th, 0);
    assert RecOk(s, th, th.lFound);
    hide Searched, RecOk, VictimOk, SearchOk;
    assert NodeOk(s, TAIL);
    TailKey(s);
  }

  lemma TailKey(s: State)
    requires Sized(s) && NodeOk(s, TAIL)
    ensures Key(s, TAIL) == INT64_MAX
  {
  }

  /** false is right: add says so when the element was in the set at some moment of the call, remove
      and contains when it was not. */
  lemma FalseIsRight(tr: seq<State>, b: nat, i: nat, t: nat)
    requires Run(tr) && InCall(tr, b, i, t) && i + 1 < |tr|
    requires Sized(tr[i]) && t < |tr[i].threads| && tr[i].threads[t].pc != Idle && Step(tr[i], tr[i + 1], t)
    requires t < |tr[i + 1].threads| && tr[i + 1].threads[t].pc == Idle && !tr[i + 1].threads[t].result
    ensures var op := tr[b].threads[t].op;
      if op.Add? then Had(tr, b, i + 1, op.x) else Lacked(tr, b, i + 1, op.x)
  {
    hide Run, Inv, Step, InCall, AllWitnessed, Had, Lacked, Sized;
    var th := tr[i].threads[t];
    CallKnows(tr, b, i, t);
    StepSized(tr, i);
    SaysFalse(tr[i], tr[i + 1], t);
    if th.pc.Find? {
      KnowsOwn(tr, b, i, t);
      SameOp(tr[i], tr[i + 1], t);
      NotFound(tr, b, i + 1, tr[i + 1].threads[t]);
    } else {
      RunInv(tr, i);
      FoundFacts(tr[i], t);
      FoundFalse(tr, b, i, th);
    }
  }

  lemma StepSized(tr: seq<State>, i: nat)
    requires Run(tr) && i + 1 < |tr|
    ensures Sized(tr[i]) && Sized(tr[i + 1]) && |tr[i].threads| == |tr[i + 1].threads|
  {
    hide Run, Step, Sized, Inv;
    var u := StepOf(tr, i);
    SameThreads(tr[i], tr[i + 1], u);
  }

  lemma SameThreads(s: State, s': State, t: nat)
    requires Sized(s) && t < |s.threads| && Step(s, s', t)
    ensures |s'.threads| == |s.threads|
  {
    hide FindStep, Begin, Again, Wanted, Free, Goal, Return;
  }

  lemma FoundFalse(tr: seq<State>, b: nat, i: nat, th: Thread)
    requires Run(tr) && i < |tr| && !th.pc.Find? && Knows(tr, b, i, th) && FoundPhase(th.pc)
    requires 0 <= th.lFound < |th.succs| && th.lFound <= MAX_LEVEL && th.op.x < INT64_MAX
    requires th.succs[th.lFound] < |tr[i].nodes| && Key(tr[i], th.succs[th.lFound]) == th.op.x
    requires th.lFound <= tr[i].nodes[th.succs[th.lFound]].Top() <= MAX_LEVEL && (th.pc.AddAwait? <==> th.op.Add?)
    requires var u := th.succs[th.lFound];
      || (th.pc.AddAwait? && Linked(tr[i], u))
      || (!th.pc.AddAwait? && (!Linked(tr[i], u) || Marked(tr[i], u) || tr[i].nodes[u].Top() != th.lFound))
    ensures if th.op.Add? then Had(tr, b, i + 1, th.op.x) else Lacked(tr, b, i + 1, th.op.x)
  {
    hide Run, AllWitnessed, Had, Lacked, FoundPhase, VictimPhase;
    var u := th.succs[th.lFound];
    if th.pc.AddAwait? {
      var m: nat :| b <= m <= i && m < |tr| && UnmarkedAt(tr[m], u);
      AddedMoment(tr, b, m, i, u);
      HadLater(tr, b, i, i + 1, th.op.x);
    } else {
      if !Linked(tr[i], u) {
        FoundUnlinked(tr, b, i, th, th.lFound);
      } else if Marked(tr[i], u) {
        FoundMarked(tr, b, i, th, th.lFound);
      } else {
        FoundLow(tr, b, i, th, th.lFound);
      }
      LackedLater(tr, b, i, i + 1, th.op.x);
    }
  }

  /** x came into the set in a step from b on and before i. */
  ghost predicate Gained(tr: seq<State>, b: nat, i: nat, x: int) {
    exists m: nat :: b <= m < i && i < |tr| && GainedAt(tr, m, x)
  }

  ghost predicate GainedAt(tr: seq<State>, m: nat, x: int) {
    m + 1 < |tr| && !Holds(tr[m], x) && Holds(tr[m + 1], x)
  }

  /** x left the set in a step from b on and before i. */
  ghost predicate Lost(tr: seq<State>, b: nat, i: nat, x: int) {
    exists m: nat :: b <= m < i && i < |tr| && LostAt(tr, m, x)
  }

  ghost predicate LostAt(tr: seq<State>, m: nat, x: int) {
    m + 1 < |tr| && Holds(tr[m], x) && !Holds(tr[m + 1], x)
  }

  /** What a call has done to the set so far. */
  ghost predicate Done(tr: seq<State>, b: nat, i: nat, th: Thread) {
    && (th.pc.Unlock? && th.op.Add? ==> Gained(tr, b, i, th.op.x))
    && (th.pc.Unlock? && !th.op.Add? ==> th.isMarked)
    && (th.isMarked ==> th.op.Remove? && Lost(tr, b, i, th.op.x))
  }

  lemma DoneLater(tr: seq<State>, b: nat, i: nat, th: Thread)
    requires Done(tr, b, i, th) && i + 1 < |tr|
    ensures Done(tr, b, i + 1, th)
  {
    hide Holds;
    if Gained(tr, b, i, th.op.x) { var m: nat :| b <= m < i && i < |tr| && GainedAt(tr, m, th.op.x); }
    if Lost(tr, b, i, th.op.x) { var m: nat :| b <= m < i && i < |tr| && LostAt(tr, m, th.op.x); }
  }

  /** How the marks of a call change. */
  lemma MarksStep(s: State, s': State, t: nat)
    requires Inv(s) && t < |s.threads| && Step(s, s', t) && s.threads[t].pc != Idle && Sized(s')
    ensures |s'.threads| == |s.threads|
    ensures var th, th' := s.threads[t], s'.threads[t];
      && th'.isMarked == (th.isMarked || th.pc.Mark?)
      && (th'.pc.Unlock? ==> th.pc.SetLinked? || th.pc.UnlockVictim? || th.pc.Unlock?)
      && (th.pc.SetLinked? ==> th.op.Add?) && (th.pc.Mark? || th.pc.UnlockVictim? ==> th.op.Remove?)
      && (th.pc.UnlockVictim? ==> th.isMarked)
  {
    At(s, t);
    hide ListsOk, NodeOk, ThreadOk, LockOk, Searched, Pinned;
    if s.threads[t].pc.Find? {
      FindEffect(s, s', t);
      hide Step;
    } else {
      MarksOther(s, s', t);
      hide Step;
    }
  }

  lemma MarksOther(s: State, s': State, t: nat)
    requires Sized(s) && t < |s.threads| && Step(s, s', t) && s.threads[t].pc != Idle && !s.threads[t].pc.Find?
    ensures |s'.threads| == |s.threads|
    ensures s'.threads[t].isMarked == (s.threads[t].isMarked || s.threads[t].pc.Mark?)
    ensures s'.threads[t].pc.Unlock? ==>
              s.threads[t].pc.SetLinked? || s.threads[t].pc.UnlockVictim? || s.threads[t].pc.Unlock?
  {
    hide Wanted, Free, Goal;
  }

  lemma DoneOwn(tr: seq<State>, b: nat, i: nat, t: nat)
    requires Run(tr) && b <= i && i + 1 < |tr| && Sized(tr[i]) && t < |tr[i].threads| && Step(tr[i], tr[i + 1], t)
    requires tr[i].threads[t].pc != Idle && Done(tr, b, i, tr[i].threads[t])
    ensures t < |tr[i + 1].threads| && Done(tr, b, i + 1, tr[i + 1].threads[t])
  {
    hide Run, Inv, Step, Holds, Sized;
    var th := tr[i].threads[t];
    RunInv(tr, i);
    StepSized(tr, i);
    MarksStep(tr[i], tr[i + 1], t);
    SameOp(tr[i], tr[i + 1], t);
    if th.pc.SetLinked? {
      AddChangesSet(tr[i], tr[i + 1], t);
      assert th.op.x !in Elems(tr[i]) && th.op.x in Elems(tr[i + 1]);
      assert GainedAt(tr, i, th.op.x);
    }
    if th.pc.Mark? {
      RemoveChangesSet(tr[i], tr[i + 1], t);
      assert th.op.x in Elems(tr[i]) && th.op.x !in Elems(tr[i + 1]);
      assert LostAt(tr, i, th.op.x);
    }
    DoneLater(tr, b, i, th);
  }

  lemma {:induction false} CallDoes(tr: seq<State>, b: nat, i: nat, t: nat)
    requires Run(tr) && InCall(tr, b, i, t) && !tr[b].threads[t].isMarked
    ensures t < |tr[i].threads| && Done(tr, b, i, tr[i].threads[t]) && tr[i].threads[t].op == tr[b].threads[t].op
    decreases i
  {
    hide Run, Inv, Step, Done, Sized;
    if i == b {
      StartsUndone(tr, b, t);
    } else {
      CallDoes(tr, b, i - 1, t);
      var u := StepOf(tr, i - 1);
      if u == t {
        DoneOwn(tr, b, i - 1, t);
        SameOp(tr[i - 1], tr[i], t);
      } else {
        OthersStay(tr[i - 1], tr[i], u, t);
        DoneLater(tr, b, i - 1, tr[i - 1].threads[t]);
      }
    }
  }

  lemma StartsUndone(tr: seq<State>, b: nat, t: nat)
    requires b < |tr| && t < |tr[b].threads|
    requires tr[b].threads[t].pc == Find(MAX_LEVEL, HEAD) && !tr[b].threads[t].isMarked
    ensures Done(tr, b, b, tr[b].threads[t])
  {
  }

  lemma SaysTrue(s: State, s': State, t: nat)
    requires Sized(s) && t < |s.threads| && Step(s, s', t) && s.threads[t].pc != Idle
    requires t < |s'.threads| && s'.threads[t].pc == Idle && s'.threads[t].result
    ensures s.threads[t].pc.Unlock? || s.threads[t].pc.HasMarked?
  {
    hide Wanted, Free, Goal;
  }

  /** true is right: add has put the element into the set in one step of the call, remove has taken
      it out, and contains has seen it there. */
  lemma TrueIsRight(tr: seq<State>, b: nat, i: nat, t: nat)
    requires Run(tr) && InCall(tr, b, i, t) && i + 1 < |tr| && !tr[b].threads[t].isMarked
    requires Sized(tr[i]) && t < |tr[i].threads| && tr[i].threads[t].pc != Idle && Step(tr[i], tr[i + 1], t)
    requires t < |tr[i + 1].threads| && tr[i + 1].threads[t].pc == Idle && tr[i + 1].threads[t].result
    ensures match tr[b].threads[t].op
            case Add(x, _) => Gained(tr, b, i, x)
            case Remove(x) => Lost(tr, b, i, x)
            case Contains(x) => Holds(tr[i], x)
  {
    hide Run, Inv, Step, InCall, Gained, Lost, Sized;
    CallDoes(tr, b, i, t);
    SaysTrue(tr[i], tr[i + 1], t);
    if tr[i].threads[t].pc.HasMarked? {
      RunInv(tr, i);
      ContainsOnly(tr[i], t);
      ContainsIsTrue(tr, i, t);
      assert tr[i].threads[t].op.x in Elems(tr[i]);
    }
  }

  lemma ContainsOnly(s: State, t: nat)
    requires Inv(s) && t < |s.threads| && s.threads[t].pc.HasMarked?
    ensures s.threads[t].op.Contains?
  {
    At(s, t);
  }
}
