/** The stop-and-wait file transfer of tut4: sender and receiver as step systems over a network
    that loses, duplicates, reorders and detectably corrupts packets. Every packet ever sent
    stays in the network and may be delivered at any time, any number of times, or never. */
module StopAndWait {

  type Byte = bv8

  const N: nat := 1024

  // ----- the checksum -----

  /** The bytes combined by exclusive or. */
  function Folded(p: seq<Byte>): Byte {
    if p == [] then 0 else Folded(p[..|p| - 1]) ^ p[|p| - 1]
  }

  function CheckSum(p: seq<Byte>): Byte {
    0x02 ^ Folded(p) ^ 0x03
  }

  method ComputeCheckSum(p: seq<Byte>) returns (c: Byte)
    ensures c == CheckSum(p)
  {
    c := 0x02;
    for i := 0 to |p|
      invariant c == 0x02 ^ Folded(p[..i])
    {
      assert p[..i + 1][..i] == p[..i];
      c := c ^ p[i];
    }
    assert p[..|p|] == p;
    c := c ^ 0x03;
  }

  /** A change of one byte never goes unnoticed. */
  lemma {:induction false} OneByteIsDetected(p: seq<Byte>, i: nat, b: Byte)
    requires i < |p| && b != p[i]
    ensures CheckSum(p[i := b]) != CheckSum(p)
  {
    FoldedUpdate(p, i, b);
    var f, d := Folded(p), p[i] ^ b;
    assert 0x02 ^ (f ^ d) ^ 0x03 != 0x02 ^ f ^ 0x03;
  }

  lemma {:induction false} FoldedUpdate(p: seq<Byte>, i: nat, b: Byte)
    requires i < |p|
    ensures Folded(p[i := b]) == Folded(p) ^ (p[i] ^ b)
  {
    var q := p[i := b];
    var k := |p| - 1;
    if i == k {
      assert q[..k] == p[..k];
    } else {
      FoldedUpdate(p[..k], i, b);
      assert q[..k] == p[..k][i := b];
      XorSwap(Folded(p[..k]), p[i] ^ b, p[k]);
    }
  }

  lemma XorSwap(f: Byte, d: Byte, x: Byte)
    ensures (f ^ d) ^ x == (f ^ x) ^ d
  {
  }

  // ----- the two programs -----

  datatype Data = Data(csum: Byte, seqNo: nat, bytes: seq<Byte>, disconnect: bool)

  datatype SenderPc = Top | Receiving | Leaving | Closed

  datatype Sender = Sender(pc: SenderPc, pos: nat, eof: bool, nextSn: nat, expectedSn: nat,
                           sendFlag: bool, senderTurn: bool, packet: Data)

  datatype Receiver = Receiver(sending: bool, expectedSn: nat, nextSn: nat, sendFlag: bool,
                               senderTurn: bool, ackNo: nat, file: seq<Byte>, disconnected: bool)

  datatype State = State(sender: Sender, receiver: Receiver, data: set<Data>, acks: set<nat>)

  function Min(a: nat, b: nat): nat {
    if a < b then a else b
  }

  ghost predicate Init(s: State) {
    && s.sender.pc == Top && s.sender.pos == 0 && !s.sender.eof && s.sender.nextSn == 0
    && s.sender.expectedSn == 1 && s.sender.sendFlag && s.sender.senderTurn && !s.sender.packet.disconnect
    && s.receiver == Receiver(false, 1, 0, true, false, 1, [], false)
    && s.data == {} && s.acks == {}
  }

  /** getDataFromFile: the next N bytes, or what is left of them. */
  function Read(source: seq<Byte>, a: Sender): Sender
    requires a.pos <= |source|
  {
    var bytes := source[a.pos..Min(a.pos + N, |source|)];
    a.(pos := a.pos + |bytes|, eof := |bytes| < N, packet := a.packet.(bytes := bytes, csum := CheckSum(bytes)))
  }

  /** senderFun of the sender; the socket may refuse the packet. */
  function Send(a: Sender, sent: bool): Sender {
    if !a.sendFlag then a.(pc := Receiving, senderTurn := false, sendFlag := true)
    else
      var b := a.(pc := Receiving, packet := a.packet.(seqNo := a.nextSn), nextSn := a.nextSn + 1);
      if sent then b.(senderTurn := false) else b.(senderTurn := true, sendFlag := false)
  }

  /** One turn of the loop of the sender's main: resend, or read and send a new chunk. */
  function Transmit(source: seq<Byte>, a: Sender, sent: bool): Sender
    requires a.pos <= |source|
  {
    Send(if a.sendFlag then Read(source, a) else a, sent)
  }

  ghost predicate SenderTop(source: seq<Byte>, s: State, s': State, sent: bool) {
    && s.sender.pc == Top && s.sender.senderTurn && s.sender.pos <= |source|
    && if s.sender.sendFlag && s.sender.eof then s' == s.(sender := s.sender.(pc := Leaving))
       else
         var b := Transmit(source, s.sender, sent);
         s' == s.(sender := b, data := if sent then s.data + {b.packet} else s.data)
  }

  /** recvFun of the sender: an acknowledgement, or the time-out. */
  ghost predicate SenderReceive(s: State, s': State) {
    var a := s.sender;
    && a.pc == Receiving
    && if a.senderTurn then s' == s.(sender := a.(pc := Top))
       else
         || s' == s.(sender := a.(pc := Top, sendFlag := false, senderTurn := true))
         || exists ack :: ack in s.acks &&
              s' == s.(sender := if ack == a.expectedSn
                                 then a.(pc := Top, sendFlag := true, senderTurn := true,
                                     expectedSn := a.expectedSn + 1)
                                 else a.(pc := Top, sendFlag := false, senderTurn := true))
  }

  ghost predicate SenderLeave(s: State, s': State) {
    && s.sender.pc == Leaving
    && var b := s.sender.(pc := Closed, packet := s.sender.packet.(disconnect := true));
       s' == s.(sender := b, data := s.data + {b.packet}) || s' == s.(sender := b)
  }

  /** What may arrive for a packet: the packet itself, or one whose bytes no longer fit the
      checksum. */
  ghost predicate Arrives(sent: Data, p: Data) {
    && p.seqNo == sent.seqNo && p.csum == sent.csum && p.disconnect == sent.disconnect
    && (p.bytes == sent.bytes || CheckSum(p.bytes) != p.csum)
  }

  function Take(b: Receiver, p: Data): Receiver {
    if p.disconnect then b.(disconnected := true, sending := true)
    else if p.seqNo == b.expectedSn - 1 && p.csum == CheckSum(p.bytes)
    then b.(expectedSn := b.expectedSn + 1, ackNo := p.seqNo + 1, file := b.file + p.bytes,
            senderTurn := true, sending := true)
    else b.(sendFlag := false, senderTurn := true, sending := true)
  }

  /** recvFun of the receiver. */
  ghost predicate ReceiverReceive(s: State, s': State) {
    var b := s.receiver;
    && !b.disconnected && !b.sending
    && if b.senderTurn then s' == s.(receiver := b.(sending := true))
       else
         || s' == s.(receiver := b.(sendFlag := false, senderTurn := true, sending := true))
         || exists sent, p :: sent in s.data && Arrives(sent, p) && s' == s.(receiver := Take(b, p))
  }

  /** senderFun of the receiver. */
  ghost predicate ReceiverSend(s: State, s': State) {
    var b := s.receiver;
    && b.sending
    && if !b.sendFlag then
         var b' := b.(sending := false, senderTurn := false, sendFlag := true);
         s' == s.(receiver := b', acks := s.acks + {b.ackNo}) || s' == s.(receiver := b')
       else if b.senderTurn then
         || s' == s.(receiver := b.(sending := false, nextSn := b.nextSn + 1, senderTurn := false),
                     acks := s.acks + {b.ackNo})
         || s' == s.(receiver := b.(sending := false, nextSn := b.nextSn + 1, sendFlag := false))
       else s' == s.(receiver := b.(sending := false))
  }

  ghost predicate Next(source: seq<Byte>, s: State, s': State) {
    || SenderTop(source, s, s', true) || SenderTop(source, s, s', false) || SenderReceive(s, s') || SenderLeave(s, s')
    || ReceiverReceive(s, s') || ReceiverSend(s, s')
  }

  ghost predicate Run(source: seq<Byte>, tr: seq<State>) {
    |tr| > 0 && Init(tr[0]) && forall i :: 0 <= i < |tr| - 1 ==> Next(source, tr[i], tr[i + 1])
  }

  // ----- the invariant -----

  /** The first k chunks of the source. */
  function Prefix(source: seq<Byte>, k: nat): seq<Byte> {
    source[..Min(k * N, |source|)]
  }

  function Chunk(source: seq<Byte>, k: nat): seq<Byte>
    requires k * N <= |source|
  {
    source[k * N..Min((k + 1) * N, |source|)]
  }

  /** The number of chunks: the last one is shorter than N, perhaps empty. */
  function Chunks(source: seq<Byte>): nat {
    |source| / N + 1
  }

  ghost predicate Carries(source: seq<Byte>, p: Data, k: nat) {
    && p.seqNo == k && k * N <= |source| && p.bytes == Chunk(source, k) && p.csum == CheckSum(p.bytes)
  }

  ghost predicate SenderOk(source: seq<Byte>, a: Sender) {
    && a.pos == Min(a.nextSn * N, |source|) && a.nextSn <= Chunks(source)
    && (a.eof <==> a.nextSn == Chunks(source))
    && (a.packet.disconnect <==> a.pc == Closed)
    && (a.nextSn > 0 ==> Carries(source, a.packet, a.nextSn - 1))
    && (match a.pc
        case Top => a.senderTurn && if a.sendFlag then a.expectedSn == a.nextSn + 1 else a.expectedSn == a.nextSn > 0
        case Receiving => a.expectedSn == a.nextSn > 0 && (a.senderTurn ==> !a.sendFlag)
        case _ => a.expectedSn == a.nextSn + 1 && a.eof)
  }

  ghost predicate ReceiverOk(source: seq<Byte>, b: Receiver, nextSn: nat) {
    && 1 <= b.expectedSn <= nextSn + 1 && b.file == Prefix(source, b.expectedSn - 1)
    && b.ackNo == (if b.expectedSn == 1 then 1 else b.expectedSn - 1)
  }

  /** An acknowledgement above 1 stands for chunks that have arrived. Acknowledgement 1 may be the
      receiver's initial one, sent after a time-out. */
  ghost predicate AckOk(ack: nat, b: Receiver) {
    ack == 1 || 2 <= ack <= b.expectedSn - 1
  }

  ghost predicate Inv(source: seq<Byte>, s: State) {
    && SenderOk(source, s.sender) && ReceiverOk(source, s.receiver, s.sender.nextSn)
    && (forall p :: p in s.data ==> p.seqNo < s.sender.nextSn && Carries(source, p, p.seqNo))
    && (forall p :: p in s.data && p.disconnect ==> s.sender.pc == Closed)
    && (s.receiver.disconnected ==> s.sender.pc == Closed)
    && (forall ack :: ack in s.acks ==> AckOk(ack, s.receiver))
    && (s.sender.expectedSn > 2 ==> s.sender.expectedSn <= s.receiver.expectedSn)
  }

  lemma {:induction false} ReadChunk(source: seq<Byte>, a: Sender)
    requires SenderOk(source, a) && a.pc == Top && a.sendFlag && !a.eof && a.pos <= |source|
    ensures a.pos == a.nextSn * N <= |source|
    ensures Read(source, a).packet.bytes == Chunk(source, a.nextSn)
    ensures Read(source, a).pos == Min((a.nextSn + 1) * N, |source|)
    ensures Read(source, a).eof <==> a.nextSn + 1 == Chunks(source)
  {
    assert a.nextSn * N <= |source|;
  }

  lemma TransmitKeeps(source: seq<Byte>, a: Sender, sent: bool)
    requires SenderOk(source, a) && a.pc == Top && !(a.sendFlag && a.eof)
    ensures var b := Transmit(source, a, sent);
      && SenderOk(source, b) && b.nextSn >= a.nextSn && b.nextSn > 0 && b.expectedSn == a.expectedSn
      && !b.packet.disconnect && b.packet.seqNo == b.nextSn - 1 && Carries(source, b.packet, b.nextSn - 1)
  {
    if a.sendFlag { ReadChunk(source, a); }
    hide CheckSum, Chunk, Chunks, Min, Folded;
  }

  lemma SenderTopKeeps(source: seq<Byte>, s: State, s': State, sent: bool)
    requires Inv(source, s) && SenderTop(source, s, s', sent)
    ensures Inv(source, s')
  {
    if s.sender.sendFlag && s.sender.eof {
      hide CheckSum, Chunk, Min, Prefix, Carries, AckOk, Transmit;
    } else {
      hide CheckSum, Chunk, Chunks, Min, Prefix, Transmit, Carries, AckOk;
      TransmitKeeps(source, s.sender, sent);
      hide SenderOk;
      assert s'.receiver == s.receiver && s'.acks == s.acks;
    }
  }

  lemma NextPrefix(source: seq<Byte>, k: nat)
    requires k * N <= |source|
    ensures Prefix(source, k) + Chunk(source, k) == Prefix(source, k + 1)
  {
    var m := Min((k + 1) * N, |source|);
    assert source[..k * N] + source[k * N..m] == source[..m];
  }

  lemma TakeKeeps(source: seq<Byte>, b: Receiver, nextSn: nat, sent: Data, p: Data)
    requires ReceiverOk(source, b, nextSn) && Carries(source, sent, sent.seqNo) && sent.seqNo < nextSn
    requires Arrives(sent, p)
    ensures ReceiverOk(source, Take(b, p), nextSn) && b.expectedSn <= Take(b, p).expectedSn
    ensures Take(b, p).disconnected ==> b.disconnected || sent.disconnect
  {
    if !p.disconnect && p.seqNo == b.expectedSn - 1 && p.csum == CheckSum(p.bytes) {
      NextPrefix(source, p.seqNo);
      hide CheckSum, Prefix, Chunk, Min;
    }
  }

  lemma StepKeeps(source: seq<Byte>, s: State, s': State)
    requires Inv(source, s) && Next(source, s, s')
    ensures Inv(source, s')
  {
    hide Inv, SenderTop, SenderReceive, SenderLeave, ReceiverReceive, ReceiverSend;
    if SenderTop(source, s, s', true) {
      SenderTopKeeps(source, s, s', true);
    } else if SenderTop(source, s, s', false) {
      SenderTopKeeps(source, s, s', false);
    } else if SenderReceive(s, s') {
      SenderReceiveKeeps(source, s, s');
    } else if SenderLeave(s, s') {
      SenderLeaveKeeps(source, s, s');
    } else if ReceiverReceive(s, s') {
      ReceiverReceiveKeeps(source, s, s');
    } else {
      ReceiverSendKeeps(source, s, s');
    }
  }

  lemma SenderLeaveKeeps(source: seq<Byte>, s: State, s': State)
    requires Inv(source, s) && SenderLeave(s, s')
    ensures Inv(source, s')
  {
    var b := s'.sender;
    assert SenderOk(source, b) && b.nextSn == s.sender.nextSn > 0 by { hide CheckSum, Chunk, Min; }
    assert b.packet.seqNo == b.nextSn - 1 && Carries(source, b.packet, b.packet.seqNo) by { hide CheckSum, Chunk, Min; }
    hide CheckSum, Chunk, Chunks, Min, Prefix, SenderOk, Carries, ReceiverOk, AckOk;
    assert forall p :: p in s'.data ==> p in s.data || p == b.packet;
  }

  lemma ReceiverSendKeeps(source: seq<Byte>, s: State, s': State)
    requires Inv(source, s) && ReceiverSend(s, s')
    ensures Inv(source, s')
  {
    hide CheckSum, Chunk, Chunks, Min, SenderOk, Carries;
  }

  lemma SenderReceiveKeeps(source: seq<Byte>, s: State, s': State)
    requires Inv(source, s) && SenderReceive(s, s')
    ensures Inv(source, s')
  {
  }

  lemma ReceiverReceiveKeeps(source: seq<Byte>, s: State, s': State)
    requires Inv(source, s) && ReceiverReceive(s, s')
    ensures Inv(source, s')
  {
    var b := s.receiver;
    if !b.senderTurn && s' != s.(receiver := b.(sendFlag := false, senderTurn := true, sending := true)) {
      var sent, p :| sent in s.data && Arrives(sent, p) && s' == s.(receiver := Take(b, p));
      TakeKeeps(source, b, s.sender.nextSn, sent, p);
      hide Take, ReceiverOk, SenderOk, Carries, Arrives;
      assert s'.sender == s.sender && s'.data == s.data && s'.acks == s.acks;
      assert forall ack :: ack in s.acks ==> AckOk(ack, s'.receiver);
    }
  }

  lemma {:induction false} RunInv(source: seq<Byte>, tr: seq<State>, r: nat)
    requires Run(source, tr) && r < |tr|
    ensures Inv(source, tr[r])
  {
    if r > 0 {
      RunInv(source, tr, r - 1);
      assert Next(source, tr[r - 1], tr[r - 1 + 1]);
      StepKeeps(source, tr[r - 1], tr[r]);
    }
  }

  // ----- what the transfer promises -----

  /** In every reachable state the received file is a whole number of chunks of the source, from
      its start. */
  lemma FileIsPrefix(source: seq<Byte>, tr: seq<State>, r: nat)
    requires Run(source, tr) && r < |tr|
    ensures tr[r].receiver.file <= source
    ensures exists k: nat :: tr[r].receiver.file == Prefix(source, k)
  {
    RunInv(source, tr, r);
  }

  predicate Left(s: State) {
    s.sender.pc == Leaving || s.sender.pc == Closed
  }

  /** The sender only leaves its loop when the whole file has arrived. */
  ghost predicate Reliable(source: seq<Byte>) {
    forall tr: seq<State>, r: nat :: Run(source, tr) && r < |tr| && Left(tr[r]) ==> tr[r].receiver.file == source
  }

  lemma WholeFile(source: seq<Byte>, tr: seq<State>, r: nat)
    requires Run(source, tr) && r < |tr| && Left(tr[r]) && |source| >= N
    ensures tr[r].receiver.file == source
  {
    RunInv(source, tr, r);
  }

  /** The same holds once the receiver has closed the connection. */
  lemma ReceiverClosesWithWholeFile(source: seq<Byte>, tr: seq<State>, r: nat)
    requires Run(source, tr) && r < |tr| && tr[r].receiver.disconnected && |source| >= N
    ensures tr[r].receiver.file == source
  {
    RunInv(source, tr, r);
    WholeFile(source, tr, r);
  }

  /** A run that loses a file of one chunk: the receiver times out before anything arrives, and
      the sender takes its initial acknowledgement for an answer. */
  lemma LostFile(source: seq<Byte>) returns (tr: seq<State>)
    requires |source| < N
    ensures Run(source, tr) && Left(tr[|tr| - 1]) && tr[|tr| - 1].receiver.file == []
  {
    var a0 := Sender(Top, 0, false, 0, 1, true, true, Data(0, 0, [], false));
    var b0 := Receiver(false, 1, 0, true, false, 1, [], false);
    var s0 := State(a0, b0, {}, {});
    var b1 := b0.(sendFlag := false, senderTurn := true, sending := true);
    var s1 := s0.(receiver := b1);
    var b2 := b1.(sending := false, senderTurn := false, sendFlag := true);
    var s2 := s1.(receiver := b2, acks := {1});
    assert s1.acks + {b1.ackNo} == {1};
    var a3 := Send(Read(source, a0), true);
    var s3 := s2.(sender := a3, data := s2.data + {a3.packet});
    var a4 := a3.(pc := Top, sendFlag := true, senderTurn := true, expectedSn := 2);
    var s4 := s3.(sender := a4);
    var s5 := s4.(sender := a4.(pc := Leaving));
    assert ReceiverReceive(s0, s1);
    assert ReceiverSend(s1, s2);
    assert SenderTop(source, s2, s3, true);
    assert 1 in s3.acks && SenderReceive(s3, s4);
    assert SenderTop(source, s4, s5, true);
    tr := [s0, s1, s2, s3, s4, s5];
  }

  /** Exactly which files the protocol transfers reliably: the empty one, and those of at least
      two chunks. */
  lemma ReliableExactly(source: seq<Byte>)
    ensures Reliable(source) <==> |source| == 0 || |source| >= N
  {
    if |source| == 0 || |source| >= N {
      forall tr: seq<State>, r: nat | Run(source, tr) && r < |tr| && Left(tr[r]) ensures tr[r].receiver.file == source {
        if |source| == 0 { FileIsPrefix(source, tr, r); } else { WholeFile(source, tr, r); }
      }
    } else {
      var tr := LostFile(source);
      assert tr[|tr| - 1].receiver.file != source;
    }
  }
}
