/** The slab allocator: 64 KiB mappings cut into equal slots, each behind a pointer back to its
    slab. Addresses are numbers; 0 is the null pointer. */
module SlabAllocator {

  const MAPPING: nat := 65536
  const HEADER: nat := 1048    // sizeof(slab_t)
  const PTR_SIZE: nat := 8  // sizeof(slab_t *)
  const BITS: nat := 8192
  const BUCKETS: nat := 12

  // ----- the table of buckets -----

  function ObjSize(b: nat): nat
    requires b < BUCKETS
  {
    [4, 8, 16, 32, 64, 128, 256, 512, 1024, 2048, 4096, 8192][b]
  }

  function TotObj(b: nat): nat
    requires b < BUCKETS
  {
    [5363, 4022, 2681, 1609, 893, 473, 243, 123, 62, 31, 15, 7][b]
  }

  /** The first bucket whose objects are large enough. */
  function BestFit(size: nat): (b: int)
    ensures b == -1 <==> size > 8192
    ensures b != -1 ==> 0 <= b < BUCKETS && size <= ObjSize(b) && (b > 0 ==> ObjSize(b - 1) < size)
  {
    if size <= 4 then 0
    else if size <= 8 then 1
    else if size <= 16 then 2
    else if size <= 32 then 3
    else if size <= 64 then 4
    else if size <= 128 then 5
    else if size <= 256 then 6
    else if size <= 512 then 7
    else if size <= 1024 then 8
    else if size <= 2048 then 9
    else if size <= 4096 then 10
    else if size <= 8192 then 11
    else -1
  }

  // ----- where things lie in a mapping -----

  function Stride(b: nat): nat
    requires b < BUCKETS
  {
    ObjSize(b) + PTR_SIZE
  }

  /** The back pointer of slot i of the slab at s, and the block behind it. */
  function Word(s: nat, b: nat, i: nat): nat
    requires b < BUCKETS
  {
    s + HEADER + i * Stride(b)
  }

  function Block(s: nat, b: nat, i: nat): nat
    requires b < BUCKETS
  {
    Word(s, b, i) + PTR_SIZE
  }

  /** All slots fit into the mapping behind the header, and have a bit. */
  lemma SlotsFit(b: nat)
    requires b < BUCKETS
    ensures HEADER + TotObj(b) * Stride(b) <= MAPPING && 0 < TotObj(b) < BITS
  {
  }

  lemma {:induction false} SlotInside(s: nat, b: nat, i: nat)
    requires b < BUCKETS && i < TotObj(b)
    ensures s + HEADER <= Word(s, b, i) && Block(s, b, i) + ObjSize(b) <= s + MAPPING
  {
    SlotsFit(b);
    assert (i + 1) * Stride(b) == i * Stride(b) + Stride(b);
    Grows(Stride(b), i + 1, TotObj(b));
  }

  lemma Grows(a: nat, b: nat, c: nat)
    requires b <= c
    ensures b * a <= c * a
  {
  }

  /** Two slots of a slab, each with its back pointer and block, do not overlap. */
  lemma {:induction false} SlotsApart(s: nat, b: nat, i: nat, j: nat)
    requires b < BUCKETS && i < j
    ensures Block(s, b, i) + ObjSize(b) <= Word(s, b, j)
  {
    assert (i + 1) * Stride(b) == i * Stride(b) + Stride(b);
    Grows(Stride(b), i + 1, j);
  }

  // ----- slabs -----

  datatype Slab = Slab(bucket: nat, totObj: nat, freeObj: nat, next: nat, bitmap: seq<bool>)

  /** The set bits among the first n. */
  function Count(bits: seq<bool>, n: nat): nat
    requires n <= |bits|
  {
    if n == 0 then 0 else Count(bits, n - 1) + if bits[n - 1] then 1 else 0
  }

  lemma {:induction false} CountUpdate(bits: seq<bool>, n: nat, i: nat, v: bool)
    requires n <= |bits| && i < n
    ensures Count(bits[i := v], n) == Count(bits, n) + (if v then 1 else 0) - (if bits[i] then 1 else 0)
  {
    if i < n - 1 { CountUpdate(bits, n - 1, i, v); } else { CountPrefix(bits, bits[i := v], n - 1); }
  }

  lemma {:induction false} CountPrefix(a: seq<bool>, b: seq<bool>, n: nat)
    requires n <= |a| && n <= |b| && forall i :: 0 <= i < n ==> a[i] == b[i]
    ensures Count(a, n) == Count(b, n)
  {
    if n > 0 { CountPrefix(a, b, n - 1); }
  }

  /** No set bit is counted above n. */
  lemma {:induction false} CountAbove(bits: seq<bool>, n: nat, m: nat)
    requires n <= m <= |bits| && forall i :: n <= i < m ==> !bits[i]
    ensures Count(bits, m) == Count(bits, n)
  {
    if n < m { CountAbove(bits, n, m - 1); }
  }

  lemma {:induction false} CountFull(bits: seq<bool>, n: nat)
    requires n <= |bits|
    ensures Count(bits, n) <= n
    ensures Count(bits, n) == n <==> forall i :: 0 <= i < n ==> bits[i]
    ensures Count(bits, n) == 0 <==> forall i :: 0 <= i < n ==> !bits[i]
  {
    if n > 0 { CountFull(bits, n - 1); }
  }

  ghost predicate SlabOk(s: nat, t: Slab) {
    && s > 0 && t.bucket < BUCKETS && t.totObj == TotObj(t.bucket) && |t.bitmap| == BITS
    && 0 < Count(t.bitmap, t.totObj) && t.freeObj == t.totObj - Count(t.bitmap, t.totObj)
    && forall i :: t.totObj <= i < BITS ==> !t.bitmap[i]
  }

  ghost predicate Disjoint(s: nat, t: nat) {
    s + MAPPING <= t || t + MAPPING <= s
  }

  /** The k-th slab of a list points to the next one, the last to none. */
  ghost predicate LinkAt(slabs: map<nat, Slab>, l: seq<nat>, k: nat)
    requires k < |l|
  {
    l[k] in slabs && slabs[l[k]].next == if k + 1 < |l| then l[k + 1] else 0
  }

  /** The slabs of a bucket, linked in this order. */
  ghost predicate Chain(slabs: map<nat, Slab>, l: seq<nat>, first: nat, b: nat) {
    && first == (if l == [] then 0 else l[0])
    && (forall k :: 0 <= k < |l| ==> l[k] in slabs && slabs[l[k]].bucket == b)
    && (forall k :: 0 <= k < |l| ==> LinkAt(slabs, l, k))
    && (forall j, k :: 0 <= j < k < |l| ==> l[j] != l[k])
  }

  /** Slot i of the slab at s, in use or not. */
  ghost predicate Slot(slabs: map<nat, Slab>, s: nat, i: nat) {
    s in slabs && slabs[s].bucket < BUCKETS && i < slabs[s].totObj == TotObj(slabs[s].bucket)
  }

  function BlockAt(slabs: map<nat, Slab>, s: nat, i: nat): nat
    requires s in slabs && slabs[s].bucket < BUCKETS
  {
    Block(s, slabs[s].bucket, i)
  }

  ghost predicate Used(slabs: map<nat, Slab>, s: nat, i: nat) {
    Slot(slabs, s, i) && i < |slabs[s].bitmap| && slabs[s].bitmap[i]
  }

  /** A block of n bytes handed out at p and not freed. */
  ghost predicate Live(slabs: map<nat, Slab>, p: nat, n: nat) {
    exists s, i :: Used(slabs, s, i) && p == BlockAt(slabs, s, i) && n == ObjSize(slabs[s].bucket)
  }

  /** Slot i is the first free one. */
  ghost predicate FirstClear(t: Slab, i: nat) {
    i < t.totObj && i < |t.bitmap| && !t.bitmap[i] && forall j :: 0 <= j < i ==> t.bitmap[j]
  }

  ghost predicate NoRoom(slabs: map<nat, Slab>, l: seq<nat>, k: nat) {
    k <= |l| && forall j :: 0 <= j < k ==> l[j] in slabs && slabs[l[j]].freeObj == 0
  }

  /** The block at p is the first free one of the first slab with room; when all are full, it is the
      first one of a new slab. */
  ghost predicate FirstFit(slabs: map<nat, Slab>, l: seq<nat>, b: nat, page: nat, p: nat)
    requires b < BUCKETS
  {
    if NoRoom(slabs, l, |l|) then p == Block(page, b, 0) else
      exists k: nat, i: nat :: k < |l| && NoRoom(slabs, l, k) && FitsAt(slabs, l[k], b, i, p)
  }

  ghost predicate FitsAt(slabs: map<nat, Slab>, s: nat, b: nat, i: nat, p: nat)
    requires b < BUCKETS
  {
    s in slabs && slabs[s].freeObj > 0 && FirstClear(slabs[s], i) && p == Block(s, b, i)
  }

  ghost predicate AllDisjoint(slabs: map<nat, Slab>) {
    forall s, t :: s in slabs && t in slabs && s != t ==> Disjoint(s, t)
  }

  /** The slabs are those of the lists, and each is in order. */
  ghost predicate Listed(slabs: map<nat, Slab>, lists: seq<seq<nat>>, firsts: seq<nat>) {
    && |firsts| == |lists| == BUCKETS
    && (forall b :: 0 <= b < BUCKETS ==> Chain(slabs, lists[b], firsts[b], b))
    && AllListed(slabs, lists)
  }

  /** Every slot in use has a pointer back to its slab in front of it, and every such pointer is in
      front of a slot. */
  ghost predicate Backed(slabs: map<nat, Slab>, back: map<nat, nat>) {
    && (forall s, i :: Used(slabs, s, i) ==>
          BlockAt(slabs, s, i) - PTR_SIZE in back && back[BlockAt(slabs, s, i) - PTR_SIZE] == s)
    && (forall w :: w in back ==> HasSlot(slabs, back[w], w + PTR_SIZE))
  }

  ghost predicate HasSlot(slabs: map<nat, Slab>, s: nat, p: nat) {
    exists i :: Slot(slabs, s, i) && p == BlockAt(slabs, s, i)
  }

  // ----- distances -----

  /** Slots of different slabs, or different slots of one, have different addresses. */
  lemma {:induction false} SlotUnique(slabs: map<nat, Slab>, s: nat, i: nat, t: nat, j: nat)
    requires AllDisjoint(slabs) && Slot(slabs, s, i) && Slot(slabs, t, j)
    requires BlockAt(slabs, s, i) == BlockAt(slabs, t, j)
    ensures s == t && i == j
  {
    SlotInside(s, slabs[s].bucket, i);
    SlotInside(t, slabs[t].bucket, j);
    assert s != t ==> Disjoint(s, t);
    if i < j { SlotsApart(s, slabs[s].bucket, i, j); }
    if j < i { SlotsApart(s, slabs[s].bucket, j, i); }
  }

  /** Two slots do not overlap, and each lies inside its own mapping behind the header. */
  lemma {:induction false} SlotsDistinct(slabs: map<nat, Slab>, s: nat, i: nat, t: nat, j: nat)
    requires AllDisjoint(slabs) && Slot(slabs, s, i) && Slot(slabs, t, j) && (s != t || i != j)
    ensures var p, q := BlockAt(slabs, s, i), BlockAt(slabs, t, j);
      && s + HEADER + PTR_SIZE <= p && p + ObjSize(slabs[s].bucket) <= s + MAPPING
      && (p + ObjSize(slabs[s].bucket) <= q - PTR_SIZE || q + ObjSize(slabs[t].bucket) <= p - PTR_SIZE)
  {
    SlotInside(s, slabs[s].bucket, i);
    SlotInside(t, slabs[t].bucket, j);
    if s != t {
      assert Disjoint(s, t);
    } else if i < j {
      SlotsApart(s, slabs[s].bucket, i, j);
    } else {
      SlotsApart(s, slabs[s].bucket, j, i);
    }
  }

  /** Two live blocks do not overlap. */
  lemma {:induction false} LiveApart(slabs: map<nat, Slab>, p: nat, n: nat, q: nat, k: nat)
    requires AllDisjoint(slabs) && Live(slabs, p, n) && Live(slabs, q, k)
    ensures if p == q then n == k else p + n <= q || q + k <= p
  {
    var s, i :| Used(slabs, s, i) && p == BlockAt(slabs, s, i) && n == ObjSize(slabs[s].bucket);
    var t, j :| Used(slabs, t, j) && q == BlockAt(slabs, t, j) && k == ObjSize(slabs[t].bucket);
    if s != t || i != j { SlotsDistinct(slabs, s, i, t, j); }
  }

  /** A live block lies inside one mapping, and no header and no back pointer lies in it. */
  lemma {:induction false} LiveClear(slabs: map<nat, Slab>, back: map<nat, nat>, p: nat, n: nat)
    requires AllDisjoint(slabs) && Backed(slabs, back) && Live(slabs, p, n)
    ensures exists s :: s in slabs && s < p && p + n <= s + MAPPING
    ensures forall t :: t in slabs ==> t + HEADER <= p || p + n <= t
    ensures forall w :: w in back ==> w + PTR_SIZE <= p || p + n <= w
  {
    var s, i :| Used(slabs, s, i) && p == BlockAt(slabs, s, i) && n == ObjSize(slabs[s].bucket);
    SlotInside(s, slabs[s].bucket, i);
    forall t | t in slabs ensures t + HEADER <= p || p + n <= t { assert t != s ==> Disjoint(s, t); }
    forall w | w in back ensures w + PTR_SIZE <= p || p + n <= w {
      var j :| Slot(slabs, back[w], j) && w + PTR_SIZE == BlockAt(slabs, back[w], j);
      if s != back[w] || i != j { SlotsDistinct(slabs, s, i, back[w], j); }
    }
  }

  // ----- taking a slot and giving it back -----

  function Marked(t: Slab, i: nat): Slab
    requires i < |t.bitmap|
  {
    t.(freeObj := if t.freeObj > 0 then t.freeObj - 1 else 0, bitmap := t.bitmap[i := true])
  }

  function Cleared(t: Slab, i: nat): Slab
    requires i < |t.bitmap|
  {
    t.(freeObj := t.freeObj + 1, bitmap := t.bitmap[i := false])
  }

  lemma {:induction false} MarkKeeps(slabs: map<nat, Slab>, lists: seq<seq<nat>>, firsts: seq<nat>, s: nat, i: nat)
    requires Listed(slabs, lists, firsts) && s in slabs && i < slabs[s].totObj && |slabs[s].bitmap| == BITS
    requires slabs[s].totObj <= BITS && !slabs[s].bitmap[i]
    ensures Listed(slabs[s := Marked(slabs[s], i)], lists, firsts)
  {
    var t, n := slabs[s], slabs[s].totObj;
    assert SlabOk(s, t);
    CountUpdate(t.bitmap, n, i, true);
    CountFull(t.bitmap[i := true], n);
    assert SlabOk(s, Marked(t, i));
    SameLinks(slabs, lists, firsts, s, Marked(t, i));
  }

  lemma {:induction false} ClearKeeps(slabs: map<nat, Slab>, lists: seq<seq<nat>>, firsts: seq<nat>, s: nat, i: nat)
    requires Listed(slabs, lists, firsts) && s in slabs && i < slabs[s].totObj && |slabs[s].bitmap| == BITS
    requires slabs[s].totObj <= BITS && slabs[s].bitmap[i] && Count(slabs[s].bitmap, slabs[s].totObj) > 1
    ensures Listed(slabs[s := Cleared(slabs[s], i)], lists, firsts)
  {
    var t, n := slabs[s], slabs[s].totObj;
    assert SlabOk(s, t);
    CountUpdate(t.bitmap, n, i, false);
    assert SlabOk(s, Cleared(t, i));
    SameLinks(slabs, lists, firsts, s, Cleared(t, i));
  }

  /** A slab changed, but not its link or its bucket. */
  lemma {:induction false} SameLinks(slabs: map<nat, Slab>, lists: seq<seq<nat>>, firsts: seq<nat>, s: nat, t: Slab)
    requires Listed(slabs, lists, firsts) && s in slabs && SlabOk(s, t)
    requires t.bucket == slabs[s].bucket && t.next == slabs[s].next
    ensures Listed(slabs[s := t], lists, firsts)
  {
    hide SlabOk;
    var m := slabs[s := t];
    forall b | 0 <= b < BUCKETS ensures Chain(m, lists[b], firsts[b], b) {
      assert Chain(slabs, lists[b], firsts[b], b);
      SameChain(slabs, m, lists[b], firsts[b], b);
    }
    StillInLists(slabs, lists, s, t);
    hide Chain;
  }

  lemma StillInLists(slabs: map<nat, Slab>, lists: seq<seq<nat>>, s: nat, t: Slab)
    requires AllListed(slabs, lists) && s in slabs && SlabOk(s, t) && t.bucket == slabs[s].bucket
    ensures AllListed(slabs[s := t], lists)
  {
    var m := slabs[s := t];
    forall x | x in m ensures SlabOk(x, m[x]) && x in lists[m[x].bucket] { assert SlabOk(x, slabs[x]); }
  }

  lemma SameChain(slabs: map<nat, Slab>, m: map<nat, Slab>, l: seq<nat>, first: nat, b: nat)
    requires Chain(slabs, l, first, b)
    requires forall x :: x in slabs ==> x in m && m[x].bucket == slabs[x].bucket && m[x].next == slabs[x].next
    ensures Chain(m, l, first, b)
  {
    forall k | 0 <= k < |l| ensures LinkAt(m, l, k) { assert LinkAt(slabs, l, k); }
  }

  /** One block more is live, of n bytes at p. */
  ghost predicate Gains(slabs: map<nat, Slab>, slabs': map<nat, Slab>, p: nat, n: nat) {
    && (forall k :: !Live(slabs, p, k))
    && forall q, k :: Live(slabs', q, k) <==> Live(slabs, q, k) || (q == p && k == n)
  }

  /** One slot more is in use. */
  lemma {:induction false} OneMore(slabs: map<nat, Slab>, m: map<nat, Slab>, s: nat, i: nat)
    requires AllDisjoint(m) && Used(m, s, i) && !Used(slabs, s, i)
    requires forall t :: t in slabs ==> t in m && m[t].bucket == slabs[t].bucket
    requires forall t, j :: Used(m, t, j) <==> Used(slabs, t, j) || (t == s && j == i)
    ensures Gains(slabs, m, BlockAt(m, s, i), ObjSize(m[s].bucket))
  {
    var p, n := BlockAt(m, s, i), ObjSize(m[s].bucket);
    forall k ensures !Live(slabs, p, k) {
      if Live(slabs, p, k) {
        var t, j :| Used(slabs, t, j) && p == BlockAt(slabs, t, j) && k == ObjSize(slabs[t].bucket);
        assert Used(m, t, j);
        SlotUnique(m, s, i, t, j);
      }
    }
    forall q, k ensures Live(m, q, k) <==> Live(slabs, q, k) || (q == p && k == n) {
      if Live(m, q, k) {
        var t, j :| Used(m, t, j) && q == BlockAt(m, t, j) && k == ObjSize(m[t].bucket);
      }
      if Live(slabs, q, k) {
        var t, j :| Used(slabs, t, j) && q == BlockAt(slabs, t, j) && k == ObjSize(slabs[t].bucket);
        assert Used(m, t, j) && q == BlockAt(m, t, j);
      }
    }
  }

  lemma {:induction false} MarkGains(slabs: map<nat, Slab>, s: nat, i: nat)
    requires AllDisjoint(slabs) && Slot(slabs, s, i) && i < |slabs[s].bitmap| && !slabs[s].bitmap[i]
    ensures Gains(slabs, slabs[s := Marked(slabs[s], i)], BlockAt(slabs, s, i), ObjSize(slabs[s].bucket))
  {
    var m := slabs[s := Marked(slabs[s], i)];
    forall t, j ensures Used(m, t, j) <==> Used(slabs, t, j) || (t == s && j == i) {}
    OneMore(slabs, m, s, i);
  }

  lemma {:induction false} ClearLoses(slabs: map<nat, Slab>, s: nat, i: nat)
    requires AllDisjoint(slabs) && Used(slabs, s, i)
    ensures Gains(slabs[s := Cleared(slabs[s], i)], slabs, BlockAt(slabs, s, i), ObjSize(slabs[s].bucket))
  {
    var m := slabs[s := Cleared(slabs[s], i)];
    forall t, j ensures Used(slabs, t, j) <==> Used(m, t, j) || (t == s && j == i) {}
    OneMore(m, slabs, s, i);
  }

  lemma SlotCarried(slabs: map<nat, Slab>, m: map<nat, Slab>, s: nat, p: nat)
    requires HasSlot(slabs, s, p) && s in slabs && s in m
    requires m[s].bucket == slabs[s].bucket && m[s].totObj == slabs[s].totObj
    ensures HasSlot(m, s, p)
  {
    var j :| Slot(slabs, s, j) && p == BlockAt(slabs, s, j);
    assert Slot(m, s, j) && p == BlockAt(m, s, j);
  }

  /** A slot that is in use now gets its pointer back. */
  lemma {:induction false} MoreBacked(slabs: map<nat, Slab>, m: map<nat, Slab>, back: map<nat, nat>, s: nat, i: nat)
    requires AllDisjoint(m) && Backed(slabs, back) && Slot(m, s, i)
    requires forall t :: t in slabs ==> t in m && m[t].bucket == slabs[t].bucket && m[t].totObj == slabs[t].totObj
    requires forall t, j :: Used(m, t, j) ==> Used(slabs, t, j) || (t == s && j == i)
    ensures Backed(m, back[BlockAt(m, s, i) - PTR_SIZE := s])
  {
    var w := BlockAt(m, s, i) - PTR_SIZE;
    var bk := back[w := s];
    forall t, j | Used(m, t, j) ensures BlockAt(m, t, j) - PTR_SIZE in bk && bk[BlockAt(m, t, j) - PTR_SIZE] == t {
      assert Used(slabs, t, j) || (t == s && j == i);
      if BlockAt(m, t, j) - PTR_SIZE == w { SlotUnique(m, s, i, t, j); }
    }
    forall v | v in bk ensures HasSlot(m, bk[v], v + PTR_SIZE) {
      if v == w {
        assert v + PTR_SIZE == BlockAt(m, s, i);
      } else {
        SlotCarried(slabs, m, back[v], v + PTR_SIZE);
      }
    }
  }

  /** Slots are given back, and what points to slabs that are gone goes too. */
  lemma {:induction false} LessBacked(slabs: map<nat, Slab>, m: map<nat, Slab>, back: map<nat, nat>, bk: map<nat, nat>)
    requires Backed(slabs, back)
    requires forall t :: t in m ==> t in slabs && m[t].bucket == slabs[t].bucket && m[t].totObj == slabs[t].totObj
    requires forall t, j :: Used(m, t, j) ==> Used(slabs, t, j)
    requires forall w :: w in bk <==> w in back && back[w] in m
    requires forall w :: w in bk ==> bk[w] == back[w]
    ensures Backed(m, bk)
  {
    forall t, j | Used(m, t, j) ensures BlockAt(m, t, j) - PTR_SIZE in bk && bk[BlockAt(m, t, j) - PTR_SIZE] == t {
      assert Used(slabs, t, j);
    }
    forall v | v in bk ensures HasSlot(m, bk[v], v + PTR_SIZE) { SlotCarried(slabs, m, back[v], v + PTR_SIZE); }
  }

  lemma {:induction false} MarkBacked(slabs: map<nat, Slab>, back: map<nat, nat>, s: nat, i: nat)
    requires AllDisjoint(slabs) && Backed(slabs, back) && Slot(slabs, s, i) && i < |slabs[s].bitmap|
    ensures Backed(slabs[s := Marked(slabs[s], i)], back[BlockAt(slabs, s, i) - PTR_SIZE := s])
  {
    var m := slabs[s := Marked(slabs[s], i)];
    forall t, j | Used(m, t, j) ensures Used(slabs, t, j) || (t == s && j == i) {}
    MoreBacked(slabs, m, back, s, i);
  }

  lemma {:induction false} ClearBacked(slabs: map<nat, Slab>, back: map<nat, nat>, s: nat, i: nat)
    requires Backed(slabs, back) && Slot(slabs, s, i) && i < |slabs[s].bitmap|
    ensures Backed(slabs[s := Cleared(slabs[s], i)], back)
  {
    var m := slabs[s := Cleared(slabs[s], i)];
    forall t, j | Used(m, t, j) ensures Used(slabs, t, j) {}
    forall w | w in back ensures back[w] in m { assert HasSlot(slabs, back[w], w + PTR_SIZE); }
    LessBacked(slabs, m, back, back);
  }

  // ----- mapping a slab and giving it back -----

  function Linked(t: Slab, n: nat): Slab {
    t.(next := n)
  }

  function NoBits(): seq<bool> {
    seq(BITS, _ => false)
  }

  /** A new slab with its first slot taken. */
  function NewSlab(b: nat): Slab
    requires b < BUCKETS
  {
    Slab(b, TotObj(b), TotObj(b) - 1, 0, NoBits()[0 := true])
  }

  lemma {:induction false} NewSlabOk(s: nat, b: nat)
    requires s > 0 && b < BUCKETS
    ensures SlabOk(s, NewSlab(b)) && Used(map[s := NewSlab(b)], s, 0)
    ensures forall i :: 0 <= i < BITS && NewSlab(b).bitmap[i] ==> i == 0
  {
    SlotsFit(b);
    CountFull(NoBits(), TotObj(b));
    CountUpdate(NoBits(), TotObj(b), 0, true);
  }

  /** The slabs after a new one is put behind the last one of its bucket. */
  function WithSlab(slabs: map<nat, Slab>, l: seq<nat>, s: nat, b: nat): map<nat, Slab>
    requires b < BUCKETS && (l != [] ==> l[|l| - 1] in slabs)
  {
    var linked := if l == [] then slabs else slabs[l[|l| - 1] := Linked(slabs[l[|l| - 1]], s)];
    linked[s := NewSlab(b)]
  }

  lemma {:induction false} WithSlabListed(slabs: map<nat, Slab>, lists: seq<seq<nat>>, firsts: seq<nat>, s: nat, b: nat)
    requires Listed(slabs, lists, firsts) && b < BUCKETS && s > 0 && s !in slabs
    ensures lists[b] != [] ==> lists[b][|lists[b]| - 1] in slabs
    ensures Listed(WithSlab(slabs, lists[b], s, b), lists[b := lists[b] + [s]],
                   if lists[b] == [] then firsts[b := s] else firsts)
  {
    assert Chain(slabs, lists[b], firsts[b], b);
    var l, m := lists[b], WithSlab(slabs, lists[b], s, b);
    NewSlabOk(s, b);
    hide NoBits;
    var ls, fs := lists[b := l + [s]], if l == [] then firsts[b := s] else firsts;
    ChainExtends(slabs, l, firsts[b], b, s);
    forall c | 0 <= c < BUCKETS ensures Chain(m, ls[c], fs[c], c) {
      assert Chain(slabs, lists[c], firsts[c], c);
      if c != b { ChainBeside(slabs, l, firsts[b], b, s, lists[c], firsts[c], c); }
    }
    hide Chain;
    forall t | t in m ensures SlabOk(t, m[t]) && t in ls[m[t].bucket] {
      if t != s { assert SlabOk(t, slabs[t]) && t in lists[slabs[t].bucket]; }
    }
  }

  lemma {:induction false} ChainExtends(slabs: map<nat, Slab>, l: seq<nat>, first: nat, b: nat, s: nat)
    requires Chain(slabs, l, first, b) && b < BUCKETS && s !in slabs
    ensures l != [] ==> l[|l| - 1] in slabs
    ensures Chain(WithSlab(slabs, l, s, b), l + [s], if l == [] then s else first, b)
  {
    hide NoBits;
    var m, d := WithSlab(slabs, l, s, b), l + [s];
    forall k | 0 <= k < |d| ensures LinkAt(m, d, k) { if k < |l| { assert LinkAt(slabs, l, k); } }
  }

  lemma ChainBeside(slabs: map<nat, Slab>, l: seq<nat>, first: nat, b: nat, s: nat, l': seq<nat>, first': nat, c: nat)
    requires Chain(slabs, l, first, b) && b < BUCKETS && s !in slabs && Chain(slabs, l', first', c) && b != c
    ensures (l != [] ==> l[|l| - 1] in slabs) && Chain(WithSlab(slabs, l, s, b), l', first', c)
  {
    hide NoBits;
    var m := WithSlab(slabs, l, s, b);
    forall k | 0 <= k < |l'| ensures l'[k] in m && m[l'[k]] == slabs[l'[k]] {
      assert slabs[l'[k]].bucket == c;
      assert l != [] ==> slabs[l[|l| - 1]].bucket == b;
    }
    forall k | 0 <= k < |l'| ensures LinkAt(m, l', k) { assert LinkAt(slabs, l', k); }
  }

  lemma {:induction false} WithSlabGains(slabs: map<nat, Slab>, l: seq<nat>, s: nat, b: nat)
    requires b < BUCKETS && s > 0 && s !in slabs && (l != [] ==> l[|l| - 1] in slabs)
    requires AllDisjoint(slabs) && forall t :: t in slabs ==> Disjoint(s, t)
    ensures AllDisjoint(WithSlab(slabs, l, s, b)) && Gains(slabs, WithSlab(slabs, l, s, b), Block(s, b, 0), ObjSize(b))
  {
    var m := WithSlab(slabs, l, s, b);
    NewSlabOk(s, b);
    SlotsFit(b);
    hide NoBits;
    forall t, j ensures Used(m, t, j) <==> Used(slabs, t, j) || (t == s && j == 0) {}
    OneMore(slabs, m, s, 0);
  }

  lemma WithSlabUses(slabs: map<nat, Slab>, l: seq<nat>, s: nat, b: nat)
    requires b < BUCKETS && s > 0 && (l != [] ==> l[|l| - 1] in slabs)
    ensures var m := WithSlab(slabs, l, s, b);
      Used(m, s, 0) && m[s].bucket == b && Block(s, b, 0) == BlockAt(m, s, 0) > 0 && Word(s, b, 0) == s + HEADER
  {
    NewSlabOk(s, b);
    hide NoBits;
  }

  lemma {:induction false} WithSlabBacked(slabs: map<nat, Slab>, back: map<nat, nat>, l: seq<nat>, s: nat, b: nat)
    requires b < BUCKETS && s > 0 && s !in slabs && (l != [] ==> l[|l| - 1] in slabs)
    requires AllDisjoint(slabs) && (forall t :: t in slabs ==> Disjoint(s, t)) && Backed(slabs, back)
    ensures Backed(WithSlab(slabs, l, s, b), back[Word(s, b, 0) := s])
  {
    var m := WithSlab(slabs, l, s, b);
    NewSlabOk(s, b);
    SlotsFit(b);
    hide NoBits;
    forall t, j | Used(m, t, j) ensures Used(slabs, t, j) || (t == s && j == 0) {}
    MoreBacked(slabs, m, back, s, 0);
  }

  function Dropped(slabs: map<nat, Slab>, s: nat): map<nat, Slab> {
    map t | t in slabs && t != s :: slabs[t]
  }

  /** The slabs after the k-th of a bucket is unlinked and unmapped. */
  function WithoutSlab(slabs: map<nat, Slab>, l: seq<nat>, k: nat): map<nat, Slab>
    requires k < |l| && l[k] in slabs && (k > 0 ==> l[k - 1] in slabs)
  {
    var linked := if k == 0 then slabs else slabs[l[k - 1] := Linked(slabs[l[k - 1]], slabs[l[k]].next)];
    Dropped(linked, l[k])
  }

  /** The back pointers left when a mapping is gone. */
  function Unmapped(back: map<nat, nat>, s: nat): map<nat, nat> {
    map w | w in back && back[w] != s :: back[w]
  }

  lemma {:induction false} WithoutSlabListed(slabs: map<nat, Slab>, lists: seq<seq<nat>>, firsts: seq<nat>, b: nat,
      k: nat)
    requires Listed(slabs, lists, firsts) && b < BUCKETS && k < |lists[b]|
    ensures lists[b][k] in slabs && (k > 0 ==> lists[b][k - 1] in slabs)
    ensures Listed(WithoutSlab(slabs, lists[b], k), lists[b := lists[b][..k] + lists[b][k + 1..]],
                   if k == 0 then firsts[b := slabs[lists[b][0]].next] else firsts)
  {
    var l := lists[b];
    assert Chain(slabs, l, firsts[b], b);
    ChainShrinks(slabs, l, firsts[b], b, k);
    var m, d := WithoutSlab(slabs, l, k), l[..k] + l[k + 1..];
    var ls, fs := lists[b := d], if k == 0 then firsts[b := slabs[l[0]].next] else firsts;
    forall c | 0 <= c < BUCKETS ensures Chain(m, ls[c], fs[c], c) {
      assert Chain(slabs, lists[c], firsts[c], c);
      if c != b { ChainElsewhere(slabs, l, firsts[b], b, k, lists[c], firsts[c], c); }
    }
    StillAllListed(slabs, lists, b, k);
    hide Chain, SlabOk, WithoutSlab;
  }

  ghost predicate AllListed(slabs: map<nat, Slab>, lists: seq<seq<nat>>) {
    && |lists| == BUCKETS
    && forall s {:trigger SlabOk(s, slabs[s])} :: s in slabs ==> SlabOk(s, slabs[s]) && s in lists[slabs[s].bucket]
  }

  lemma StillAllListed(slabs: map<nat, Slab>, lists: seq<seq<nat>>, b: nat, k: nat)
    requires AllListed(slabs, lists) && b < BUCKETS && k < |lists[b]|
    requires lists[b][k] in slabs && (k > 0 ==> lists[b][k - 1] in slabs)
    ensures AllListed(WithoutSlab(slabs, lists[b], k), lists[b := lists[b][..k] + lists[b][k + 1..]])
  {
    var m, ls := WithoutSlab(slabs, lists[b], k), lists[b := lists[b][..k] + lists[b][k + 1..]];
    forall t | t in m ensures SlabOk(t, m[t]) && t in ls[m[t].bucket] {
      assert SlabOk(t, slabs[t]) && t in lists[slabs[t].bucket];
      if slabs[t].bucket == b { StillListed(lists[b], k, t); }
    }
  }

  lemma StillListed(l: seq<nat>, k: nat, t: nat)
    requires k < |l| && t in l && t != l[k]
    ensures t in l[..k] + l[k + 1..]
  {
    var d := l[..k] + l[k + 1..];
    var j :| 0 <= j < |l| && l[j] == t;
    assert d[if j < k then j else j - 1] == t;
  }

  lemma ChainElsewhere(slabs: map<nat, Slab>, l: seq<nat>, first: nat, b: nat, k: nat, l': seq<nat>, first': nat,
      c: nat)
    requires Chain(slabs, l, first, b) && k < |l| && Chain(slabs, l', first', c) && b != c
    ensures l[k] in slabs && (k > 0 ==> l[k - 1] in slabs) && Chain(WithoutSlab(slabs, l, k), l', first', c)
  {
    var m := WithoutSlab(slabs, l, k);
    forall j | 0 <= j < |l'| ensures l'[j] in m && m[l'[j]] == slabs[l'[j]] && LinkAt(m, l', j) {
      assert LinkAt(slabs, l', j) && slabs[l'[j]].bucket == c && slabs[l[k]].bucket == b;
      assert k > 0 ==> slabs[l[k - 1]].bucket == b;
    }
  }

  lemma {:induction false} ChainShrinks(slabs: map<nat, Slab>, l: seq<nat>, first: nat, b: nat, k: nat)
    requires Chain(slabs, l, first, b) && k < |l|
    ensures l[k] in slabs && (k > 0 ==> l[k - 1] in slabs && l[k - 1] != l[k])
    ensures Chain(WithoutSlab(slabs, l, k), l[..k] + l[k + 1..], if k == 0 then slabs[l[0]].next else first, b)
  {
    var m, d := WithoutSlab(slabs, l, k), l[..k] + l[k + 1..];
    forall j | 0 <= j < |d| ensures d[j] == l[if j < k then j else j + 1] {}
    forall j | 0 <= j < |d| ensures d[j] in m && m[d[j]].bucket == b && LinkAt(m, d, j) {
      var i := if j < k then j else j + 1;
      assert LinkAt(slabs, l, i) && LinkAt(slabs, l, k) && l[i] != l[k];
      assert k > 0 ==> (l[i] == l[k - 1] <==> i == k - 1);
    }
    assert LinkAt(slabs, l, 0);
  }

  /** The last block of a slab goes with the slab. */
  lemma {:induction false} WithoutSlabLoses(slabs: map<nat, Slab>, l: seq<nat>, k: nat, i: nat)
    requires k < |l| && l[k] in slabs && (k > 0 ==> l[k - 1] in slabs && l[k - 1] != l[k]) && AllDisjoint(slabs)
    requires Used(slabs, l[k], i) && forall j :: Used(slabs, l[k], j) ==> j == i
    ensures AllDisjoint(WithoutSlab(slabs, l, k))
    ensures Gains(WithoutSlab(slabs, l, k), slabs, BlockAt(slabs, l[k], i), ObjSize(slabs[l[k]].bucket))
  {
    var m := WithoutSlab(slabs, l, k);
    forall t, j ensures Used(slabs, t, j) <==> Used(m, t, j) || (t == l[k] && j == i) {}
    OneMore(m, slabs, l[k], i);
  }

  lemma {:induction false} WithoutSlabBacked(slabs: map<nat, Slab>, back: map<nat, nat>, l: seq<nat>, k: nat)
    requires k < |l| && l[k] in slabs && (k > 0 ==> l[k - 1] in slabs && l[k - 1] != l[k]) && Backed(slabs, back)
    ensures Backed(WithoutSlab(slabs, l, k), Unmapped(back, l[k]))
  {
    var m, bk := WithoutSlab(slabs, l, k), Unmapped(back, l[k]);
    forall t, j | Used(m, t, j) ensures Used(slabs, t, j) {}
    forall w | w in back ensures back[w] in slabs { assert HasSlot(slabs, back[w], w + PTR_SIZE); }
    LessBacked(slabs, m, back, bk);
  }

  /** All that is kept and gained when a slot is taken. */
  lemma Taken(slabs: map<nat, Slab>, lists: seq<seq<nat>>, firsts: seq<nat>, back: map<nat, nat>, s: nat, i: nat)
    returns (m: map<nat, Slab>)
    requires Listed(slabs, lists, firsts) && AllDisjoint(slabs) && Backed(slabs, back)
    requires Slot(slabs, s, i) && |slabs[s].bitmap| == BITS && slabs[s].totObj <= BITS && !slabs[s].bitmap[i]
    ensures m == slabs[s := Marked(slabs[s], i)] && Listed(m, lists, firsts) && AllDisjoint(m)
    ensures Backed(m, back[Word(s, slabs[s].bucket, i) := s])
    ensures Gains(slabs, m, Word(s, slabs[s].bucket, i) + PTR_SIZE, ObjSize(slabs[s].bucket))
  {
    m := slabs[s := Marked(slabs[s], i)];
    MarkKeeps(slabs, lists, firsts, s, i);
    MarkGains(slabs, s, i);
    MarkBacked(slabs, back, s, i);
    assert AllDisjoint(m);
    hide Listed, Backed, Gains, Stride, Marked, ObjSize, Disjoint, Count, SlabOk;
  }

  /** All that is kept and lost when a slot is given back and the slab has others in use. */
  lemma GivenBack(slabs: map<nat, Slab>, lists: seq<seq<nat>>, firsts: seq<nat>, back: map<nat, nat>, s: nat, i: nat)
    returns (m: map<nat, Slab>)
    requires Listed(slabs, lists, firsts) && AllDisjoint(slabs) && Backed(slabs, back)
    requires Used(slabs, s, i) && SlabOk(s, slabs[s]) && Count(slabs[s].bitmap, slabs[s].totObj) > 1
    ensures m == slabs[s := Cleared(slabs[s], i)] && Listed(m, lists, firsts) && AllDisjoint(m) && Backed(m, back)
    ensures Gains(m, slabs, BlockAt(slabs, s, i), ObjSize(slabs[s].bucket))
  {
    m := slabs[s := Cleared(slabs[s], i)];
    SlotsFit(slabs[s].bucket);
    ClearKeeps(slabs, lists, firsts, s, i);
    ClearLoses(slabs, s, i);
    ClearBacked(slabs, back, s, i);
    assert AllDisjoint(m);
    hide Listed, Backed, Gains, Stride, Cleared, ObjSize, Disjoint, Count, SlabOk;
  }

  /** All that is kept and lost when a slab goes with its last block. */
  lemma GivenUp(slabs: map<nat, Slab>, lists: seq<seq<nat>>, firsts: seq<nat>, back: map<nat, nat>, s: nat, i: nat,
      k: nat)
    returns (m: map<nat, Slab>)
    requires Listed(slabs, lists, firsts) && AllDisjoint(slabs) && Backed(slabs, back)
    requires Used(slabs, s, i) && SlabOk(s, slabs[s]) && Count(slabs[s].bitmap, slabs[s].totObj) <= 1
    requires k < |lists[slabs[s].bucket]| && lists[slabs[s].bucket][k] == s
    ensures var b := slabs[s].bucket;
      var l := lists[b];
      && (k > 0 ==> l[k - 1] in slabs && l[k - 1] != s)
      && m == WithoutSlab(slabs, l, k) && AllDisjoint(m) && Backed(m, Unmapped(back, s))
      && Listed(m, lists[b := l[..k] + l[k + 1..]], if k == 0 then firsts[b := slabs[s].next] else firsts)
    ensures Gains(m, slabs, BlockAt(slabs, s, i), ObjSize(slabs[s].bucket))
  {
    var b := slabs[s].bucket;
    WithoutSlabListed(slabs, lists, firsts, b, k);
    assert Chain(slabs, lists[b], firsts[b], b);
    hide Listed, Chain, Stride, ObjSize, Disjoint;
    m := WithoutSlab(slabs, lists[b], k);
    forall j | Used(slabs, s, j) ensures j == i { OnlyBit(slabs[s].bitmap, slabs[s].totObj, i, j); }
    WithoutSlabLoses(slabs, lists[b], k, i);
    WithoutSlabBacked(slabs, back, lists[b], k);
  }

  lemma {:induction false} OnlyBit(bits: seq<bool>, n: nat, i: nat, j: nat)
    requires i < n <= |bits| && j < n && bits[i] && bits[j] && Count(bits, n) <= 1
    ensures i == j
  {
    if i < n - 1 && j < n - 1 {
      OnlyBit(bits, n - 1, i, j);
    } else {
      CountFull(bits, n - 1);
    }
  }

  /** The block at a slot is live when its bit is set, and no other block is there. */
  lemma LiveHere(slabs: map<nat, Slab>, s: nat, i: nat, n: nat)
    requires AllDisjoint(slabs) && Slot(slabs, s, i) && i < |slabs[s].bitmap|
    ensures Live(slabs, BlockAt(slabs, s, i), n) <==> slabs[s].bitmap[i] && n == ObjSize(slabs[s].bucket)
  {
    var p := BlockAt(slabs, s, i);
    if Live(slabs, p, n) {
      var t, j :| Used(slabs, t, j) && p == BlockAt(slabs, t, j) && n == ObjSize(slabs[t].bucket);
      SlotUnique(slabs, s, i, t, j);
    }
    assert slabs[s].bitmap[i] ==> Used(slabs, s, i);
  }

  /** The slot of a pointer, counted from its distance to the first back pointer of the slab. */
  function Offset(ptr: nat, s: nat, b: nat): nat
    requires b < BUCKETS && ptr >= s + HEADER + PTR_SIZE
  {
    (ptr - PTR_SIZE - (s + HEADER)) / Stride(b)
  }

  lemma Quotient(i: nat, d: nat)
    requires d > 0
    ensures (i * d) / d == i
  {
    var q := (i * d) / d;
    if q < i { Grows(d, q + 1, i); }
    if i < q { Grows(d, i + 1, q); }
  }

  /** No slab without a live block stays linked, and the free slots are those whose bit is clear. */
  lemma {:induction false} SlabInUse(slabs: map<nat, Slab>, lists: seq<seq<nat>>, s: nat)
    requires AllListed(slabs, lists) && s in slabs
    ensures exists i :: Used(slabs, s, i)
    ensures slabs[s].freeObj > 0 <==> exists i :: Slot(slabs, s, i) && !Used(slabs, s, i)
    ensures slabs[s].totObj <= |slabs[s].bitmap|
    ensures slabs[s].freeObj + Count(slabs[s].bitmap, slabs[s].totObj) == slabs[s].totObj
  {
    var t := slabs[s];
    assert SlabOk(s, t);
    SlotsFit(t.bucket);
    CountFull(t.bitmap, t.totObj);
    var i :| 0 <= i < t.totObj && t.bitmap[i];
    assert Used(slabs, s, i);
    if t.freeObj > 0 {
      var j :| 0 <= j < t.totObj && !t.bitmap[j];
      assert Slot(slabs, s, j) && !Used(slabs, s, j);
    }
  }

  /** A live block may be freed: the pointer to its slab is in front of it. */
  lemma LiveBacked(slabs: map<nat, Slab>, back: map<nat, nat>, p: nat, n: nat)
    requires Backed(slabs, back) && Live(slabs, p, n)
    ensures p >= PTR_SIZE && p - PTR_SIZE in back
  {
    var s, i :| Used(slabs, s, i) && p == BlockAt(slabs, s, i) && n == ObjSize(slabs[s].bucket);
  }

  // ----- the allocator -----

  /** No slab of the bucket has a free slot. */
  ghost predicate Full(slabs: map<nat, Slab>, b: nat) {
    forall s :: s in slabs && slabs[s].bucket == b ==> slabs[s].freeObj == 0
  }

  class Allocator {
    var firstSlab: seq<nat>
    var slabs: map<nat, Slab>
    var backPtr: map<nat, nat>
    ghost var lists: seq<seq<nat>>

    ghost predicate Valid()
      reads this
    {
      Listed(slabs, lists, firstSlab) && AllDisjoint(slabs) && Backed(slabs, backPtr)
    }

    constructor ()
      ensures Valid() && slabs == map[]
    {
      firstSlab := seq(BUCKETS, _ => 0);
      slabs := map[];
      backPtr := map[];
      lists := seq(BUCKETS, _ => []);
    }

    /** A mapping the operating system may hand out now. */
    ghost predicate Mappable(s: nat)
      reads this
    {
      s > 0 && forall t :: t in slabs ==> Disjoint(s, t)
    }

    /** No slab yet: a new one becomes the first of its bucket, and its first block is handed out. */
    method MapFirst(index: nat, page: nat) returns (p: nat)
      requires Valid() && index < BUCKETS && Mappable(page) && lists[index] == []
      modifies this
      ensures Valid() && Gains(old(slabs), slabs, p, ObjSize(index)) && p == Block(page, index, 0)
      ensures slabs.Keys == old(slabs.Keys) + {page} && lists == old(lists[index := lists[index] + [page]])
    {
      MapReady(index, page);
      hide Listed, AllDisjoint, Backed, Gains, Used, NewSlab, BlockAt, WithSlab;
      firstSlab := firstSlab[index := page];
      slabs := slabs[page := NewSlab(index)];
      lists := lists[index := lists[index] + [page]];
      var p2 := page + HEADER;
      backPtr := backPtr[p2 := page];
      return p2 + PTR_SIZE;
    }

    /** All slabs are full: a new one is put behind the last one. */
    method MapNext(index: nat, last: nat, page: nat) returns (p: nat)
      requires Valid() && index < BUCKETS && Mappable(page)
      requires lists[index] != [] && last == lists[index][|lists[index]| - 1]
      modifies this
      ensures Valid() && Gains(old(slabs), slabs, p, ObjSize(index)) && p == Block(page, index, 0)
      ensures slabs.Keys == old(slabs.Keys) + {page} && lists == old(lists[index := lists[index] + [page]])
    {
      ghost var m := MapNextReady(index, last, page);
      hide Listed, AllDisjoint, Backed, Gains, Used, NewSlab, BlockAt, Linked, Disjoint, Stride;
      slabs := slabs[last := Linked(slabs[last], page)];
      slabs := slabs[page := NewSlab(index)];
      assert slabs == m;
      lists := lists[index := lists[index] + [page]];
      var p2 := page + HEADER;
      backPtr := backPtr[p2 := page];
      return p2 + PTR_SIZE;
    }

    lemma MapReady(index: nat, page: nat)
      requires Valid() && index < BUCKETS && Mappable(page)
      ensures var l := lists[index];
        && (l != [] ==> l[|l| - 1] in slabs) && page !in slabs
        && var m := (if l == [] then slabs
            else slabs[l[|l| - 1] := Linked(slabs[l[|l| - 1]], page)])[page := NewSlab(index)];
        && Listed(m, lists[index := l + [page]], if l == [] then firstSlab[index := page] else firstSlab)
        && AllDisjoint(m) && Backed(m, backPtr[page + HEADER := page])
        && Gains(slabs, m, page + HEADER + PTR_SIZE, ObjSize(index)) && Used(m, page, 0) && m[page].bucket == index
        && BlockAt(m, page, 0) == page + HEADER + PTR_SIZE
    {
      WithSlabListed(slabs, lists, firstSlab, page, index);
      WithSlabGains(slabs, lists[index], page, index);
      WithSlabBacked(slabs, backPtr, lists[index], page, index);
      WithSlabUses(slabs, lists[index], page, index);
      hide Listed, AllDisjoint, Backed, Gains, Used, NewSlab, BlockAt;
    }

    lemma MapNextReady(index: nat, last: nat, page: nat) returns (m: map<nat, Slab>)
      requires Valid() && index < BUCKETS && Mappable(page)
      requires lists[index] != [] && last == lists[index][|lists[index]| - 1]
      ensures last in slabs && m == slabs[last := Linked(slabs[last], page)][page := NewSlab(index)]
      ensures Listed(m, lists[index := lists[index] + [page]], firstSlab)
      ensures AllDisjoint(m) && Backed(m, backPtr[page + HEADER := page])
      ensures Gains(slabs, m, page + HEADER + PTR_SIZE, ObjSize(index)) && Used(m, page, 0) && m[page].bucket == index
      ensures BlockAt(m, page, 0) == page + HEADER + PTR_SIZE
    {
      MapReady(index, page);
      hide Listed, AllDisjoint, Backed, Gains, Used, NewSlab, BlockAt, Linked, Disjoint, Stride;
      m := slabs[last := Linked(slabs[last], page)][page := NewSlab(index)];
    }

    lemma LastIsNull(b: nat)
      requires Valid() && b < BUCKETS
      ensures forall k :: 0 <= k < |lists[b]| ==> lists[b][k] > 0
      ensures firstSlab[b] == 0 <==> lists[b] == []
      ensures firstSlab[b] == 0 ==> Full(slabs, b)
    {
      assert Chain(slabs, lists[b], firstSlab[b], b);
      forall j | 0 <= j < |lists[b]| ensures lists[b][j] > 0 { assert SlabOk(lists[b][j], slabs[lists[b][j]]); }
      forall s | s in slabs && slabs[s].bucket == b ensures lists[b] != [] { assert SlabOk(s, slabs[s]); }
    }

    /** The first slab of a bucket with a free slot, or the last one of all. */
    method FirstWithRoom(index: nat) returns (s: nat, ghost k: nat)
      requires Valid() && index < BUCKETS && firstSlab[index] != 0
      ensures k < |lists[index]| && s == lists[index][k] && s in slabs && slabs[s].bucket == index
      ensures slabs[s].freeObj == 0 ==> k == |lists[index]| - 1 && Full(slabs, index)
      ensures NoRoom(slabs, lists[index], k)
    {
      ghost var l := lists[index];
      assert Chain(slabs, l, firstSlab[index], index);
      forall j | 0 <= j < |l| ensures l[j] > 0 { assert SlabOk(l[j], slabs[l[j]]); }
      s, k := firstSlab[index], 0;
      while slabs[s].next != 0 && slabs[s].freeObj <= 0
        invariant 0 <= k < |l| && s == l[k] && LinkAt(slabs, l, k)
        invariant forall j :: 0 <= j < k ==> slabs[l[j]].freeObj == 0
        decreases |l| - k
      {
        assert LinkAt(slabs, l, k + 1);
        s := slabs[s].next;
        k := k + 1;
      }
      if slabs[s].freeObj == 0 {
        assert LinkAt(slabs, l, k);
        forall x | x in slabs && slabs[x].bucket == index ensures slabs[x].freeObj == 0 {
          assert SlabOk(x, slabs[x]);
          assert x in l;
        }
      }
    }

    /** The first free slot of a slab that has one. */
    method FirstFree(s: nat) returns (i: nat)
      requires s in slabs && SlabOk(s, slabs[s]) && slabs[s].freeObj > 0
      ensures FirstClear(slabs[s], i)
    {
      var t := slabs[s];
      SlotsFit(t.bucket);
      CountFull(t.bitmap, t.totObj);
      i := 0;
      while t.bitmap[i] && i < t.totObj
        invariant i <= t.totObj && forall j :: 0 <= j < i ==> t.bitmap[j]
      {
        i := i + 1;
      }
    }

    /** A block of at least size bytes, or null when none is that large. page is the address the
        operating system would map a new slab at. */
    method MyMalloc(size: nat, page: nat) returns (p: nat)
      requires Valid() && Mappable(page)
      modifies this
      ensures Valid()
      ensures size > 8192 ==> p == 0 && slabs == old(slabs) && backPtr == old(backPtr)
      ensures size <= 8192 ==> Gains(old(slabs), slabs, p, ObjSize(BestFit(size))) && p > 0
      ensures size <= 8192 ==> FirstFit(old(slabs), old(lists)[BestFit(size)], BestFit(size), page, p)
      ensures lists == if page in slabs then old(lists[BestFit(size) := lists[BestFit(size)] + [page]]) else old(lists)
      ensures size <= 8192 ==> (page in slabs <==> Full(old(slabs), BestFit(size)))
      ensures page !in slabs ==> slabs.Keys == old(slabs.Keys)
    {
      var index := BestFit(size);
      if index < 0 {
        return 0;
      }
      LastIsNull(index);
      assert page in slabs ==> Disjoint(page, page);
      if firstSlab[index] == 0 {
        p := MapFirst(index, page);
      } else {
        var s, _ := FirstWithRoom(index);
        if slabs[s].freeObj <= 0 {
          p := MapNext(index, s, page);
        } else {
          p := TakeSlot(s);
        }
      }
    }

    /** The first free slot of a slab is handed out. */
    method TakeSlot(s: nat) returns (p: nat)
      requires Valid() && s in slabs && slabs[s].freeObj > 0 && slabs[s].bucket < BUCKETS
      modifies this
      ensures Valid() && Gains(old(slabs), slabs, p, ObjSize(old(slabs)[s].bucket)) && p > 0
      ensures exists i: nat :: FitsAt(old(slabs), s, old(slabs)[s].bucket, i, p)
      ensures slabs.Keys == old(slabs.Keys) && lists == old(lists)
    {
      SlabAt(s);
      hide Listed, AllDisjoint, Backed, Gains, Stride, Marked, ObjSize, SlabOk, Count, TotObj, Disjoint, Chain;
      var i := FirstFree(s);
      assert FitsAt(slabs, s, slabs[s].bucket, i, Block(s, slabs[s].bucket, i));
      ghost var m := TakeReady(s, i);
      var p3 := s + HEADER + i * Stride(slabs[s].bucket);
      assert p3 == Word(s, slabs[s].bucket, i) && p3 + PTR_SIZE == Block(s, slabs[s].bucket, i);
      hide FitsAt, FirstClear, Word, Block;
      slabs := slabs[s := Marked(slabs[s], i)];
      assert slabs == m;
      backPtr := backPtr[p3 := s];
      return p3 + PTR_SIZE;
    }

    lemma SlabAt(s: nat)
      requires Valid() && s in slabs
      ensures SlabOk(s, slabs[s]) && |slabs[s].bitmap| == BITS && slabs[s].bucket < BUCKETS
      ensures slabs[s].totObj == TotObj(slabs[s].bucket) <= BITS
    {
      assert SlabOk(s, slabs[s]);
      SlotsFit(slabs[s].bucket);
    }

    lemma TakeReady(s: nat, i: nat) returns (m: map<nat, Slab>)
      requires s in slabs && slabs[s].freeObj > 0 && slabs[s].bucket < BUCKETS && |slabs[s].bitmap| == BITS
      requires i < slabs[s].totObj <= BITS && slabs[s].totObj == TotObj(slabs[s].bucket) && !slabs[s].bitmap[i]
      requires Valid()
      ensures m == slabs[s := Marked(slabs[s], i)] && Listed(m, lists, firstSlab) && AllDisjoint(m)
      ensures Backed(m, backPtr[Word(s, slabs[s].bucket, i) := s])
      ensures Gains(slabs, m, Block(s, slabs[s].bucket, i), ObjSize(slabs[s].bucket))
    {
      hide Listed, AllDisjoint, Backed, Gains, Stride, Marked, ObjSize, Disjoint, Count, SlabOk;
      m := Taken(slabs, lists, firstSlab, backPtr, s, i);
    }

    /** The block at ptr, if it is live, is given back; a slab without live blocks is unmapped. A block
        that is not live, though its slab is still mapped, is left alone. */
    method MyFree(ptr: nat)
      requires Valid() && ptr >= PTR_SIZE && ptr - PTR_SIZE in backPtr
      modifies this
      ensures Valid()
      ensures forall n :: Live(old(slabs), ptr, n) ==> Gains(slabs, old(slabs), ptr, n)
      ensures (forall n :: !Live(old(slabs), ptr, n)) ==>
        slabs == old(slabs) && backPtr == old(backPtr) && firstSlab == old(firstSlab)
      ensures slabs.Keys <= old(slabs.Keys)
    {
      var s := backPtr[ptr - PTR_SIZE];
      ghost var i := FreeReady(ptr);
      hide Listed, AllDisjoint, Backed, Gains, Live, SlabOk, Count, BlockAt, ObjSize, TotObj, Stride, Offset;
      var offset := Offset(ptr, s, slabs[s].bucket);
      if !slabs[s].bitmap[offset] {
        return;
      }
      ghost var n := ObjSize(slabs[s].bucket);
      assert Used(slabs, s, offset) && Live(slabs, ptr, n);
      if Count(slabs[s].bitmap, BITS) > 1 {
        GiveBack(s, offset);
      } else {
        Unmap(s, offset);
      }
      assert Gains(slabs, old(slabs), ptr, n);
    }

    /** A block is given back to a slab that keeps others. */
    method GiveBack(s: nat, i: nat)
      requires Valid() && Used(slabs, s, i) && SlabOk(s, slabs[s])
      requires Count(slabs[s].bitmap, slabs[s].totObj) > 1
      modifies `slabs
      ensures Valid() && Gains(slabs, old(slabs), old(BlockAt(slabs, s, i)), old(ObjSize(slabs[s].bucket)))
      ensures slabs.Keys == old(slabs.Keys)
    {
      ghost var m := GivenBack(slabs, lists, firstSlab, backPtr, s, i);
      hide Listed, AllDisjoint, Backed, Gains, Chain, SlabOk, Count, BlockAt, ObjSize, Disjoint, Cleared;
      slabs := slabs[s := Cleared(slabs[s], i)];
    }

    /** The slot of a pointer with a slab behind it. */
    lemma FreeReady(ptr: nat) returns (i: nat)
      requires Valid() && ptr >= PTR_SIZE && ptr - PTR_SIZE in backPtr
      ensures var s := backPtr[ptr - PTR_SIZE];
        && Slot(slabs, s, i) && SlabOk(s, slabs[s]) && ptr == BlockAt(slabs, s, i)
        && ptr >= s + HEADER + PTR_SIZE && i == Offset(ptr, s, slabs[s].bucket)
        && i < slabs[s].totObj <= BITS && Count(slabs[s].bitmap, BITS) == Count(slabs[s].bitmap, slabs[s].totObj)
        && (slabs[s].bitmap[i] ==> forall n :: Live(slabs, ptr, n) <==> n == ObjSize(slabs[s].bucket))
        && (!slabs[s].bitmap[i] ==> forall n :: !Live(slabs, ptr, n))
    {
      var s := backPtr[ptr - PTR_SIZE];
      i :| Slot(slabs, s, i) && ptr == BlockAt(slabs, s, i);
      assert SlabOk(s, slabs[s]);
      SlotsFit(slabs[s].bucket);
      Quotient(i, Stride(slabs[s].bucket));
      CountAbove(slabs[s].bitmap, slabs[s].totObj, BITS);
      forall n ensures Live(slabs, ptr, n) <==> slabs[s].bitmap[i] && n == ObjSize(slabs[s].bucket) {
        LiveHere(slabs, s, i, n);
      }
    }

    /** A slab with one live block is unlinked from its bucket and unmapped. */
    method Unmap(s: nat, ghost i: nat)
      requires Valid() && Used(slabs, s, i) && SlabOk(s, slabs[s])
      requires Count(slabs[s].bitmap, slabs[s].totObj) <= 1
      modifies this
      ensures Valid() && Gains(slabs, old(slabs), old(BlockAt(slabs, s, i)), old(ObjSize(slabs[s].bucket)))
      ensures slabs.Keys <= old(slabs.Keys)
    {
      var b := slabs[s].bucket;
      ghost var k := PlaceOf(s);
      ghost var l := lists[b];
      ghost var m := GivenUp(slabs, lists, firstSlab, backPtr, s, i, k);
      assert firstSlab[b] == l[0] && (forall j :: 0 < j < |l| ==> l[j] != l[0]) by {
        assert Chain(slabs, l, firstSlab[b], b);
      }
      hide Listed, AllDisjoint, Backed, Gains, Chain, SlabOk, Used, Count, BlockAt, ObjSize, Disjoint, Dropped,
          Unmapped;
      if firstSlab[b] == s {
        firstSlab := firstSlab[b := slabs[s].next];
      } else {
        var prev := Before(s, k);
        slabs := slabs[prev := Linked(slabs[prev], slabs[s].next)];
      }
      slabs := Dropped(slabs, s);
      assert slabs == m;
      backPtr := Unmapped(backPtr, s);
      lists := lists[b := l[..k] + l[k + 1..]];
    }

    lemma PlaceOf(s: nat) returns (k: nat)
      requires Valid() && s in slabs
      ensures slabs[s].bucket < BUCKETS && k < |lists[slabs[s].bucket]| && lists[slabs[s].bucket][k] == s
    {
      assert SlabOk(s, slabs[s]);
      k :| k < |lists[slabs[s].bucket]| && lists[slabs[s].bucket][k] == s;
    }

    /** The slab whose link leads to s, the k-th of its bucket. */
    method Before(s: nat, ghost k: nat) returns (prev: nat)
      requires Valid() && s in slabs && slabs[s].bucket < BUCKETS
      requires 0 < k < |lists[slabs[s].bucket]| && lists[slabs[s].bucket][k] == s
      ensures prev == lists[slabs[s].bucket][k - 1]
    {
      var b := slabs[s].bucket;
      ghost var l := lists[b];
      assert Chain(slabs, l, firstSlab[b], b);
      LastIsNull(b);
      prev := firstSlab[b];
      ghost var j := 0;
      assert LinkAt(slabs, l, 0);
      while prev != 0 && s != slabs[prev].next
        invariant 0 <= j < k && prev == l[j] && LinkAt(slabs, l, j)
        decreases k - j
      {
        assert LinkAt(slabs, l, j + 1);
        prev := slabs[prev].next;
        j := j + 1;
      }
    }
  }
}
