/** When a stop-and-wait transfer can still be completed: what has to be on the network in a
    reachable state, and a run that completes it from there. */
module TransferCompletes {
  import opened StopAndWait

  /** Both programs have ended and the file has arrived. */
  ghost predicate Done(source: seq<Byte>, s: State) {
    s.sender.pc == Closed && s.receiver.disconnected && s.receiver.file == source
  }

  /** Some packet with chunk k was put on the network. */
  ghost predicate Has(s: State, k: int) {
    exists p :: p in s.data && p.seqNo == k && !p.disconnect
  }

  ghost predicate Farewell(s: State) {
    exists p :: p in s.data && p.disconnect
  }

  /** The receiver waits for chunk k, and the sender takes it for delivered and never sends it again. */
  ghost predicate Owed(source: seq<Byte>, s: State, k: int) {
    s.receiver.expectedSn - 1 <= k < s.sender.expectedSn - 1 && k * N < |source|
  }

  /** Whatever is owed is on the network, and so is the farewell once the sender has closed. */
  ghost predicate Completable(source: seq<Byte>, s: State) {
    && (forall k :: Owed(source, s, k) ==> Has(s, k))
    && (s.sender.pc == Closed && !s.receiver.disconnected ==> Farewell(s))
    && (s.receiver.disconnected ==> s.receiver.file == source)
  }

  // ----- a step nearer -----

  /** How far the receiver is from being ready for a packet. */
  function Busy(b: Receiver): nat {
    if b.disconnected then 0 else if b.sending then 2 else if b.senderTurn then 3 else 1
  }

  predicate Ready(b: Receiver) {
    !b.sending && !b.senderTurn
  }

  /** How far the receiver is from having sent acknowledgement e. */
  function AckTurns(s: State, e: nat): nat {
    var b := s.receiver;
    if e in s.acks then 1
    else if b.sending && (!b.sendFlag || b.senderTurn) then 2
    else if b.sending then 5
    else if b.senderTurn then 3 else 4
  }

  /** How far the sender is from sending what the receiver waits for, or from closing. */
  function Turns(s: State): nat {
    var a := s.sender;
    match a.pc
    case Closed => 0
    case Leaving => 6
    case Top => if a.sendFlag then 16 else 12
    case Receiving => if a.senderTurn || s.receiver.expectedSn <= a.nextSn then 13 else AckTurns(s, a.expectedSn)
  }

  ghost function Distance(source: seq<Byte>, s: State): int {
    var a, b := s.sender, s.receiver;
    20 * (Chunks(source) + 1 - b.expectedSn) + 20 * (Chunks(source) + 1 - a.expectedSn)
    + Busy(b) + if Has(s, b.expectedSn - 1) then 0 else Turns(s)
  }

  ghost predicate Nearer(source: seq<Byte>, s: State, s': State) {
    Next(source, s, s') && Completable(source, s') && Distance(source, s') < Distance(source, s)
  }

  /** The part of the invariant that speaks of numbers alone. */
  lemma Numbers(source: seq<Byte>, s: State)
    requires Inv(source, s)
    ensures 1 <= s.receiver.expectedSn <= s.sender.nextSn + 1 <= Chunks(source) + 1
    ensures s.sender.nextSn <= s.sender.expectedSn <= s.sender.nextSn + 1
    ensures forall k: nat :: k * N >= |source| ==> k + 1 >= Chunks(source)
    ensures Chunks(source) * N > |source|
    ensures Distance(source, s) >= 0
  {
    hide CheckSum, Chunk, Prefix;
  }

  /** A step that leaves the packets and what the receiver has got as they are. */
  lemma SamePackets(source: seq<Byte>, s: State, s': State)
    requires Completable(source, s) && s'.data == s.data && s'.sender.expectedSn >= s.sender.expectedSn
    requires s'.receiver.expectedSn == s.receiver.expectedSn && s'.receiver.file == s.receiver.file
    requires s'.receiver.disconnected == s.receiver.disconnected
    requires s'.sender.expectedSn > s.sender.expectedSn ==> s'.receiver.expectedSn >= s'.sender.expectedSn
    requires s'.sender.pc == Closed ==> s.sender.pc == Closed
    ensures Completable(source, s')
    ensures Has(s', s'.receiver.expectedSn - 1) <==> Has(s, s.receiver.expectedSn - 1)
  {
    assert forall k :: Owed(source, s', k) ==> Owed(source, s, k);
    assert forall k :: Has(s', k) <==> Has(s, k);
  }

  /** A receiver that is not ready sends its acknowledgement. */
  lemma ReceiverReadies(source: seq<Byte>, s: State) returns (s': State)
    requires Completable(source, s) && !s.receiver.disconnected && !Ready(s.receiver)
    requires s.sender.pc.Receiving? && !s.sender.senderTurn && s.receiver.expectedSn > s.sender.nextSn ==>
               s.sender.expectedSn == s.receiver.ackNo
    requires Has(s, s.receiver.expectedSn - 1) || !s.sender.pc.Receiving? ||
             (!s.sender.senderTurn && s.receiver.expectedSn > s.sender.nextSn && s.sender.expectedSn !in s.acks)
    ensures Nearer(source, s, s')
  {
    var b := s.receiver;
    if !b.sending {
      s' := s.(receiver := b.(sending := true));
      assert ReceiverReceive(s, s');
    } else if !b.sendFlag {
      s' := s.(receiver := b.(sending := false, senderTurn := false, sendFlag := true), acks := s.acks + {b.ackNo});
      assert ReceiverSend(s, s');
    } else if b.senderTurn {
      s' := s.(receiver := b.(sending := false, nextSn := b.nextSn + 1, senderTurn := false),
               acks := s.acks + {b.ackNo});
      assert ReceiverSend(s, s');
    } else {
      s' := s.(receiver := b.(sending := false));
      assert ReceiverSend(s, s');
    }
    SamePackets(source, s, s');
    hide Chunks, Has, Completable, ReceiverSend, ReceiverReceive, SenderTop, SenderReceive, SenderLeave;
  }

  lemma TakenNearer(source: seq<Byte>, s: State, s': State)
    requires Completable(source, s) && s'.sender == s.sender && s'.data == s.data
    requires s'.receiver.expectedSn == s.receiver.expectedSn + 1 && Has(s, s.receiver.expectedSn - 1)
    requires !s.receiver.disconnected && !s'.receiver.disconnected
    ensures Completable(source, s') && Distance(source, s') < Distance(source, s)
  {
    hide Chunks;
    assert forall k :: Owed(source, s', k) ==> Owed(source, s, k);
    assert forall k :: Has(s', k) <==> Has(s, k);
  }

  /** A ready receiver takes the packet it waits for. */
  lemma ReceiverTakes(source: seq<Byte>, s: State) returns (s': State)
    requires Inv(source, s) && Completable(source, s) && !s.receiver.disconnected && Ready(s.receiver)
    requires Has(s, s.receiver.expectedSn - 1)
    ensures Nearer(source, s, s')
  {
    var p :| p in s.data && p.seqNo == s.receiver.expectedSn - 1 && !p.disconnect;
    s' := s.(receiver := Take(s.receiver, p));
    assert p.csum == CheckSum(p.bytes) by { assert Carries(source, p, p.seqNo); }
    hide CheckSum, Chunk, Prefix, Chunks, Inv;
    assert Arrives(p, p) && ReceiverReceive(s, s');
    TakenNearer(source, s, s');
  }

  lemma NothingIsMissing(source: seq<Byte>, s: State)
    requires Inv(source, s) && Completable(source, s) && s.sender.pc == Closed && !Has(s, s.receiver.expectedSn - 1)
    ensures s.receiver.file == source
  {
    Numbers(source, s);
    assert !Owed(source, s, s.receiver.expectedSn - 1);
    hide CheckSum, Chunks, Completable, Has;
  }

  lemma ClosedNearer(source: seq<Byte>, s: State, s': State)
    requires Completable(source, s) && s'.sender == s.sender && s'.data == s.data && s'.acks == s.acks
    requires s'.receiver == s.receiver.(disconnected := true, sending := true) && !s.receiver.disconnected
    requires s.sender.pc == Closed && s.receiver.file == source
    ensures Completable(source, s') && Distance(source, s') < Distance(source, s)
  {
    hide Chunks;
    assert forall k :: Owed(source, s', k) ==> Owed(source, s, k);
    assert forall k :: Has(s', k) <==> Has(s, k);
  }

  /** Once the sender has closed, a ready receiver closes as well. */
  lemma ReceiverCloses(source: seq<Byte>, s: State) returns (s': State)
    requires Inv(source, s) && Completable(source, s) && !s.receiver.disconnected && Ready(s.receiver)
    requires s.sender.pc == Closed && !Has(s, s.receiver.expectedSn - 1)
    ensures Nearer(source, s, s')
  {
    NothingIsMissing(source, s);
    hide CheckSum, Chunk, Prefix, Chunks, Inv;
    var p :| p in s.data && p.disconnect;
    s' := s.(receiver := Take(s.receiver, p));
    assert Arrives(p, p) && ReceiverReceive(s, s');
    ClosedNearer(source, s, s');
  }

  lemma SentNearer(source: seq<Byte>, s: State, s': State, p: Data)
    requires Completable(source, s) && s'.receiver == s.receiver && s'.data == s.data + {p} && !p.disconnect
    requires s.sender.pc == Top && s'.sender.pc == Receiving && !s'.sender.senderTurn
    requires s'.sender.nextSn == s'.sender.expectedSn == s.sender.expectedSn == p.seqNo + 1
    requires s.receiver.expectedSn == p.seqNo + 1 || (!s.sender.sendFlag && s.receiver.expectedSn == p.seqNo + 2)
    requires !Has(s, s.receiver.expectedSn - 1)
    ensures Completable(source, s') && Distance(source, s') < Distance(source, s)
  {
    hide Chunks;
    assert forall k :: Owed(source, s', k) <==> Owed(source, s, k);
    forall k | Has(s, k) ensures Has(s', k) {
      var q :| q in s.data && q.seqNo == k && !q.disconnect;
      assert q in s'.data;
    }
    assert p in s'.data;
  }

  /** The sender puts what the receiver waits for on the network, or leaves its loop. */
  lemma SenderSends(source: seq<Byte>, s: State) returns (s': State)
    requires Inv(source, s) && Completable(source, s) && s.sender.pc == Top
    requires !s.receiver.disconnected && !Has(s, s.receiver.expectedSn - 1)
    ensures Nearer(source, s, s')
  {
    var a, k := s.sender, s.receiver.expectedSn - 1;
    Numbers(source, s);
    assert !Owed(source, s, k);
    if a.sendFlag && a.eof {
      s' := s.(sender := a.(pc := Leaving));
      assert SenderTop(source, s, s', true);
      hide CheckSum, Chunk, Prefix, Chunks;
      SamePackets(source, s, s');
    } else {
      TransmitKeeps(source, a, true);
      assert a.sendFlag ==> a.nextSn < Chunks(source);
      var b := Transmit(source, a, true);
      s' := s.(sender := b, data := s.data + {b.packet});
      hide CheckSum, Chunk, Prefix, Chunks, Has, Completable, Read, Min;
      assert SenderTop(source, s, s', true);
      hide Inv;
      SentNearer(source, s, s', b.packet);
    }
  }

  /** The sender hears of what has arrived, or times out and sends again. */
  lemma SenderHears(source: seq<Byte>, s: State) returns (s': State)
    requires Inv(source, s) && Completable(source, s) && s.sender.pc == Receiving
    requires !s.receiver.disconnected && !Has(s, s.receiver.expectedSn - 1)
    requires Ready(s.receiver) || s.sender.senderTurn || s.receiver.expectedSn <= s.sender.nextSn
             || s.sender.expectedSn in s.acks
    ensures Nearer(source, s, s')
  {
    var a, b := s.sender, s.receiver;
    Numbers(source, s);
    if a.senderTurn {
      s' := s.(sender := a.(pc := Top));
      assert SenderReceive(s, s');
    } else if b.expectedSn <= a.nextSn {
      s' := s.(sender := a.(pc := Top, sendFlag := false, senderTurn := true));
      assert SenderReceive(s, s');
    } else if a.expectedSn in s.acks {
      s' := s.(sender := a.(pc := Top, sendFlag := true, senderTurn := true, expectedSn := a.expectedSn + 1));
      assert SenderReceive(s, s');
    } else {
      s' := s.(receiver := b.(sendFlag := false, senderTurn := true, sending := true));
      assert ReceiverReceive(s, s');
    }
    hide CheckSum, Chunk, Prefix, Chunks;
    assert forall k :: Owed(source, s', k) ==> Owed(source, s, k);
    assert forall k :: Has(s', k) <==> Has(s, k);
  }

  lemma SenderCloses(source: seq<Byte>, s: State) returns (s': State)
    requires Inv(source, s) && Completable(source, s) && s.sender.pc == Leaving
    requires !s.receiver.disconnected && !Has(s, s.receiver.expectedSn - 1)
    ensures Nearer(source, s, s')
  {
    var b := s.sender.(pc := Closed, packet := s.sender.packet.(disconnect := true));
    s' := s.(sender := b, data := s.data + {b.packet});
    assert SenderLeave(s, s');
    hide CheckSum, Chunk, Prefix, Chunks;
    assert forall k :: Owed(source, s', k) <==> Owed(source, s, k);
    assert b.packet in s'.data;
    forall k ensures Has(s, k) <==> Has(s', k) {
      if p :| p in s.data && p.seqNo == k && !p.disconnect { assert p in s'.data; }
    }
  }

  /** As long as the transfer is not done, some step brings it nearer to its end. */
  lemma StepNearer(source: seq<Byte>, s: State) returns (s': State)
    requires Inv(source, s) && Completable(source, s) && !Done(source, s)
    ensures Nearer(source, s, s')
  {
    hide CheckSum, Chunk, Prefix, Chunks, Nearer, Has;
    var a, b := s.sender, s.receiver;
    if Has(s, b.expectedSn - 1) {
      if Ready(b) { s' := ReceiverTakes(source, s); } else { s' := ReceiverReadies(source, s); }
    } else if a.pc == Top {
      s' := SenderSends(source, s);
    } else if a.pc == Leaving {
      s' := SenderCloses(source, s);
    } else if a.pc == Closed {
      if Ready(b) { s' := ReceiverCloses(source, s); } else { s' := ReceiverReadies(source, s); }
    } else if Ready(b) || a.senderTurn || b.expectedSn <= a.nextSn || a.expectedSn in s.acks {
      s' := SenderHears(source, s);
    } else {
      s' := ReceiverReadies(source, s);
    }
  }

  // ----- runs -----

  ghost predicate Continues(source: seq<Byte>, tr: seq<State>, s: State) {
    |tr| > 0 && tr[0] == s && forall i :: 0 <= i < |tr| - 1 ==> Next(source, tr[i], tr[i + 1])
  }

  lemma {:induction false} Complete(source: seq<Byte>, s: State) returns (tr: seq<State>)
    requires Inv(source, s) && Completable(source, s)
    ensures Continues(source, tr, s) && Done(source, tr[|tr| - 1])
    decreases Distance(source, s)
  {
    hide Inv, Completable, Done, Distance, Next;
    if Done(source, s) {
      tr := [s];
    } else {
      var s' := StepNearer(source, s);
      StepKeeps(source, s, s');
      Numbers(source, s);
      var rest := Complete(source, s');
      tr := [s] + rest;
      forall i | 0 <= i < |tr| - 1 ensures Next(source, tr[i], tr[i + 1]) {
        if i > 0 { assert Next(source, rest[i - 1], rest[i - 1 + 1]); }
      }
    }
  }

  /** What is not completable stays so: a chunk that is owed is never sent again. */
  lemma StuckStays(source: seq<Byte>, s: State, s': State)
    requires Inv(source, s) && Next(source, s, s') && !Completable(source, s)
    ensures !Completable(source, s')
  {
    hide SenderTop, SenderReceive, SenderLeave, ReceiverReceive, ReceiverSend;
    if s.receiver.disconnected {
      DisconnectedStays(source, s, s');
    } else if k :| Owed(source, s, k) && !Has(s, k) {
      OwedStays(source, s, s', k);
    } else {
      NoFarewell(source, s, s');
    }
  }

  lemma DisconnectedStays(source: seq<Byte>, s: State, s': State)
    requires Inv(source, s) && Next(source, s, s') && s.receiver.disconnected
    ensures s'.receiver.disconnected && s'.receiver.file == s.receiver.file
  {
    hide CheckSum, Chunk, Prefix, Chunks, Carries, SenderOk, ReceiverOk, Transmit, Take;
  }

  lemma NoFarewell(source: seq<Byte>, s: State, s': State)
    requires Inv(source, s) && Next(source, s, s') && s.sender.pc == Closed && !s.receiver.disconnected && !Farewell(s)
    ensures s'.sender.pc == Closed && !s'.receiver.disconnected && !Farewell(s')
  {
    hide CheckSum, Chunk, Prefix, Chunks, Carries, SenderOk, ReceiverOk, Transmit;
  }

  lemma OwedStays(source: seq<Byte>, s: State, s': State, k: int)
    requires Inv(source, s) && Next(source, s, s') && Owed(source, s, k) && !Has(s, k)
    ensures Owed(source, s', k) && !Has(s', k)
  {
    hide CheckSum, Chunk, Prefix, Chunks, Carries;
    if s.sender.pc == Top && !(s.sender.sendFlag && s.sender.eof) {
      TransmitKeeps(source, s.sender, true);
      TransmitKeeps(source, s.sender, false);
      hide Transmit, Inv;
    }
  }

  lemma {:induction false} StuckForever(source: seq<Byte>, tr: seq<State>, s: State, i: nat)
    requires Inv(source, s) && !Completable(source, s) && Continues(source, tr, s) && i < |tr|
    ensures Inv(source, tr[i]) && !Completable(source, tr[i])
  {
    if i > 0 {
      hide Inv, Completable, Next;
      StuckForever(source, tr, s, i - 1);
      assert Next(source, tr[i - 1], tr[i - 1 + 1]);
      StepKeeps(source, tr[i - 1], tr[i]);
      StuckStays(source, tr[i - 1], tr[i]);
    }
  }

  lemma DoneIsCompletable(source: seq<Byte>, s: State)
    requires Inv(source, s) && Done(source, s)
    ensures Completable(source, s)
  {
    forall k ensures !Owed(source, s, k) {
      assert s.receiver.file == Prefix(source, s.receiver.expectedSn - 1);
    }
  }

  // ----- what can be completed -----

  /** Some continuation of the run from s ends both programs with the whole file received. */
  ghost predicate CanComplete(source: seq<Byte>, s: State) {
    exists tr :: Continues(source, tr, s) && Done(source, tr[|tr| - 1])
  }

  /** Exactly which states of a transfer can be completed. */
  lemma CompletableExactly(source: seq<Byte>, tr: seq<State>, r: nat)
    requires Run(source, tr) && r < |tr|
    ensures CanComplete(source, tr[r]) <==> Completable(source, tr[r])
  {
    hide Inv, Completable, Done, Next, Run;
    RunInv(source, tr, r);
    if Completable(source, tr[r]) {
      var rest := Complete(source, tr[r]);
    } else if rest :| Continues(source, rest, tr[r]) && Done(source, rest[|rest| - 1]) {
      StuckForever(source, rest, tr[r], |rest| - 1);
      DoneIsCompletable(source, rest[|rest| - 1]);
    }
  }

  /** While the sender is in its loop, one thing alone can go wrong: that it takes the receiver's
      initial acknowledgement for that of a first packet that never got onto the network. */
  lemma OnlyTheFirst(source: seq<Byte>, tr: seq<State>, r: nat)
    requires Run(source, tr) && r < |tr| && !Left(tr[r])
    ensures CanComplete(source, tr[r]) <==>
            (tr[r].sender.expectedSn == 2 && tr[r].receiver.expectedSn == 1 && source != [] ==> Has(tr[r], 0))
  {
    CompletableExactly(source, tr, r);
    RunInv(source, tr, r);
    hide CheckSum, Chunk, Prefix, Chunks, CanComplete, Run;
    assert tr[r].sender.expectedSn == 2 && tr[r].receiver.expectedSn == 1 && source != [] ==> Owed(source, tr[r], 0);
    assert forall k :: Owed(source, tr[r], k) ==> k == 0;
  }

  /** Every file, also one the protocol can lose, is transferred in some run. */
  lemma EveryFileArrives(source: seq<Byte>) returns (tr: seq<State>)
    ensures Run(source, tr) && Done(source, tr[|tr| - 1])
  {
    var s := State(Sender(Top, 0, false, 0, 1, true, true, Data(0, 0, [], false)),
                   Receiver(false, 1, 0, true, false, 1, [], false), {}, {});
    assert Run(source, [s]);
    RunInv(source, [s], 0);
    assert Completable(source, s);
    tr := Complete(source, s);
  }

  /** Whatever packet a ready receiver is given, it can answer it at once: with the number of chunks it
      has, or 1 when it has none. Then it is ready for the next one. */
  lemma PacketsAreAnswered(source: seq<Byte>, tr: seq<State>, r: nat, sent: Data, p: Data)
    returns (s1: State, s2: State)
    requires Run(source, tr) && r < |tr| && Ready(tr[r].receiver) && !tr[r].receiver.disconnected
    requires sent in tr[r].data && Arrives(sent, p) && !p.disconnect
    ensures s1.receiver == Take(tr[r].receiver, p) && ReceiverReceive(tr[r], s1) && ReceiverSend(s1, s2)
    ensures Ready(s2.receiver) && s2.receiver.file == s1.receiver.file
    ensures s2.acks == tr[r].acks + {if s1.receiver.expectedSn == 1 then 1 else s1.receiver.expectedSn - 1}
  {
    hide CheckSum, Chunk, Prefix, Chunks, Run, SenderOk;
    RunInv(source, tr, r);
    TakeKeeps(source, tr[r].receiver, tr[r].sender.nextSn, sent, p);
    var b := Take(tr[r].receiver, p);
    hide Inv, Carries, Min;
    s1 := tr[r].(receiver := b);
    s2 := s1.(acks := s1.acks + {b.ackNo},
              receiver := if b.sendFlag then b.(sending := false, nextSn := b.nextSn + 1, senderTurn := false)
                          else b.(sending := false, senderTurn := false, sendFlag := true));
  }
}
