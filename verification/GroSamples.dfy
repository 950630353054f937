/** Concrete segments of one flow, and the batches of them that coalescing loses, leaks or crashes on. */
module GroSamples {
  import opened Bytes
  import opened Offload
  import opened Gro
  import opened GroBatch
  import opened GroStore
  import opened GroFlow
  import opened GroLoss

  /** Octet i of the header of a segment from 10.0.0.1:8080 to 10.0.0.2:80, checksums zero. */
  function Octet(i: nat, len: u16, id: byte, seqno: u16, flags: byte): (b: byte)
  {
    match i
    case 0 => 0x45
    case 2 => len / 0x100
    case 3 => len % 0x100
    case 5 => id
    case 6 => 0x40
    case 8 => 64
    case 9 => 6
    case 12 => 10
    case 15 => 1
    case 16 => 10
    case 19 => 2
    case 20 => 31
    case 21 => 144
    case 23 => 80
    case 26 => seqno / 0x100
    case 27 => seqno % 0x100
    case 32 => 0x50
    case 33 => flags
    case 34 => 1
    case _ => 0
  }

  function Raw(id: byte, seqno: u16, flags: byte, payload: Packet): (r: Packet)
    requires |payload| <= 65495
    ensures |r| == 40 + |payload| && r[40..] == payload
    ensures forall i :: 0 <= i < 40 ==> r[i] == Octet(i, 40 + |payload|, id, seqno, flags)
  {
    seq(40, i requires 0 <= i < 40 => Octet(i, 40 + |payload|, id, seqno, flags)) + payload
  }

  /** The segment with the given IP ID, sequence number, flags and payload, both checksums right. */
  function Sample(id: byte, seqno: u16, flags: byte, payload: Packet): (r: Packet)
    requires |payload| <= 65495
    ensures |r| == 40 + |payload|
  {
    WithChecksums(Raw(id, seqno, flags, payload), 20)
  }

  predicate ChecksumOctet(i: nat) { i == 10 || i == 11 || i == 36 || i == 37 }

  lemma SampleOctets(id: byte, seqno: u16, flags: byte, payload: Packet)
    requires |payload| <= 65495
    ensures var r := Sample(id, seqno, flags, payload);
      && r[40..] == payload
      && forall i :: 0 <= i < 40 && !ChecksumOctet(i) ==> r[i] == Octet(i, 40 + |payload|, id, seqno, flags)
  {
    hide WithChecksums, Raw, Octet;
  }

  /** Only length, ID, sequence number and flags differ between samples. */
  lemma SameOctet(i: nat, l: u16, id: byte, seqno: u16, flags: byte, l': u16, id': byte, seqno': u16, flags': byte)
    requires i !in {2, 3, 5, 26, 27, 33}
    ensures Octet(i, l, id, seqno, flags) == Octet(i, l', id', seqno', flags')
  {
  }

  /** The fields GRO reads. */
  lemma SampleFields(id: byte, seqno: u16, flags: byte, payload: Packet)
    requires |payload| <= 65495
    ensures var r := Sample(id, seqno, flags, payload);
      && Be16(r, 2) == |r| && Be16(r, 4) == id && Be16(r, 6) == 0x4000 && Be32(r, 24) == seqno
      && r[0] == 0x45 && r[9] == 6 && r[32] == 0x50 && r[33] == flags
  {
    hide Sample;
    SampleOctets(id, seqno, flags, payload);
  }

  lemma SampleVerifies(id: byte, seqno: u16, flags: byte, payload: Packet)
    requires |payload| <= 65495
    ensures TcpChecksumOK(Sample(id, seqno, flags, payload), 20)
  {
    hide Raw, TcpChecksumOK, IpChecksumOK, WithChecksums;
    ChecksumsVerify(Raw(id, seqno, flags, payload), 20);
  }

  lemma SampleEligible(id: byte, seqno: u16, flags: byte, payload: Packet)
    requires 0 < |payload| <= 65495 && AckData(flags)
    ensures Eligible(Sample(id, seqno, flags, payload))
  {
    hide Sample, TcpChecksumOK, Be16, Be32;
    SampleVerifies(id, seqno, flags, payload);
    SampleFields(id, seqno, flags, payload);
  }

  /** Two samples agree in every header octet that a merge compares. */
  lemma SamplesAgree(s: u16, x: Packet, t: u16, y: Packet, flags: byte)
    requires |x| <= 65495 && |y| <= 65495
    ensures var a, c := Sample(0, s, 0x10, x), Sample(1, t, flags, y);
      && a[1] == c[1] && a[8] == c[8] && a[12..24] == c[12..24]
      && a[28..32] == c[28..32] && a[34..36] == c[34..36] && a[38..40] == c[38..40]
  {
    hide Sample, Octet;
    var a, c := Sample(0, s, 0x10, x), Sample(1, t, flags, y);
    SampleOctets(0, s, 0x10, x);
    SampleOctets(1, t, flags, y);
    forall i | 0 <= i < 40 && !ChecksumOctet(i) && i !in {2, 3, 5, 26, 27, 33} ensures a[i] == c[i] {
      SameOctet(i, 40 + |x|, 0, s, 0x10, 40 + |y|, 1, t, flags);
    }
  }

  /** The second sample continues the first by every merge rule, held or flushed. */
  lemma SampleContinues(x: Packet, y: Packet, flags: byte)
    requires 0 < |y| <= |x| && |x| + |y| <= 65495 && AckData(flags)
    ensures var a, c := Sample(0, 0, 0x10, x), Sample(1, |x|, flags, y);
      && c[12..24] == a[12..24] && CanAppend(Start(a), c) && CanAppend(Start(a).(segs := 0, length := 0), c)
  {
    hide Sample, Be16, Be32, ClearFinPsh;
    SampleFields(0, 0, 0x10, x);
    SampleFields(1, |x|, flags, y);
    SamplesAgree(0, x, |x|, y, flags);
    FlagsAgree(flags);
  }

  lemma FlagsAgree(flags: byte)
    requires AckData(flags)
    ensures ClearFinPsh(flags % 64) == 0x10 == ClearFinPsh(0x10)
  {
    AckDataLow(flags);
  }

  /** Trains exist: two samples with nothing between them merge. */
  lemma SampleTrain(x: Packet, y: Packet)
    requires 0 < |y| <= |x| && |x| + |y| <= 65495
    ensures var train := [Sample(0, 0, 0x10, x), Sample(1, |x|, 0x10, y)]; Build(train).Some? && |train| > 1
  {
    hide Sample, Eligible, CanAppend;
    var a, c := Sample(0, 0, 0x10, x), Sample(1, |x|, 0x10, y);
    SampleEligible(0, 0, 0x10, x);
    SampleEligible(1, |x|, 0x10, y);
    SampleContinues(x, y, 0x10);
    assert Mergeable(Start(a), c);
    assert [a, c][..1] == [a];
  }

  // ---------- the state is reachable ----------

  /** A segment, a packet of its flow that GRO passes through, and the segment that continues the first. */
  lemma PassThroughBetween(a: Packet, b: Packet, c: Packet)
    requires Eligible(a) && !Eligible(b) && Eligible(c) && |a| >= 40 && |c| >= 40
    requires FlowKey(b) == FlowKey(a) && c[12..24] == a[12..24]
    requires CanAppend(Start(a).(segs := 0, length := 0), c)
    ensures Process([a, b]).clean && Tidy(Process([a, b]).s.tbl) && OntoEmptied(Process([a, b]).s.tbl, c)
    ensures Process([a, b]).s == State([Start(a).(segs := 0, length := 0)], [Plain(a), Plain(b)])
  {
    hide Eligible, CanAppend, FlowKey, Step;
    StartHolds(a);
    var empty := Start(a).(segs := 0, length := 0);
    assert [a, b][..1] == [a] && [a][..0] == [];
    FirstStep(a, []);
    assert Process([a]) == Progress(State([Start(a)], []), true);
    PassStep(a, b, []);
    assert [] + [Plain(a), Plain(b)] == [Plain(a), Plain(b)];
    assert Find([empty], c[12..24], 0) == 0;
  }

  lemma FirstStep(a: Packet, out: seq<Write>)
    requires Eligible(a) && |a| >= 40
    ensures !OntoEmptied([], a) && Step(State([], out), a) == State([Start(a)], out)
  {
    hide Eligible, Start;
  }

  lemma PassStep(a: Packet, b: Packet, out: seq<Write>)
    requires Eligible(a) && !Eligible(b) && |a| >= 40 && FlowKey(b) == FlowKey(a) == Some(a[12..24])
    ensures Tidy([Start(a)]) && Tidy([Start(a).(segs := 0, length := 0)]) && !OntoEmptied([Start(a)], b)
    ensures Step(State([Start(a)], out), b) == State([Start(a).(segs := 0, length := 0)], out + [Plain(a), Plain(b)])
  {
    hide Eligible, FlowKey;
    EligibleLength(a);
    var s := State([Start(a)], out);
    assert FindLive(s.tbl, a[12..24], 0) == 0;
    assert Start(a).buf[..|a|] == a;
  }

  /** The same after a packet that belongs to no TCP flow. */
  lemma PassThroughAfter(n: Packet, a: Packet, b: Packet, c: Packet)
    requires !Eligible(n) && FlowKey(n).None?
    requires Eligible(a) && !Eligible(b) && Eligible(c) && |a| >= 40 && |c| >= 40
    requires FlowKey(b) == FlowKey(a) && c[12..24] == a[12..24]
    requires CanAppend(Start(a).(segs := 0, length := 0), c)
    ensures var before := [n, a, b];
      && Process(before).clean && Tidy(Process(before).s.tbl) && OntoEmptied(Process(before).s.tbl, c)
      && Process(before).s == State([Start(a).(segs := 0, length := 0)], [Plain(n), Plain(a), Plain(b)])
  {
    hide Eligible, CanAppend, FlowKey, Step;
    StartHolds(a);
    var empty := Start(a).(segs := 0, length := 0);
    assert [n, a, b][..2] == [n, a] && [n, a][..1] == [n] && [n][..0] == [];
    LoneStep(n);
    assert Process([n]) == Progress(State([], [Plain(n)]), true);
    FirstStep(a, [Plain(n)]);
    assert Process([n, a]) == Progress(State([Start(a)], [Plain(n)]), true);
    PassStep(a, b, [Plain(n)]);
    assert [Plain(n)] + [Plain(a), Plain(b)] == [Plain(n), Plain(a), Plain(b)];
    assert Find([empty], c[12..24], 0) == 0;
  }

  lemma LoneStep(n: Packet)
    requires !Eligible(n) && FlowKey(n).None?
    ensures !OntoEmptied([], n) && Step(State([], []), n) == State([], [Plain(n)])
  {
    hide Eligible, FlowKey;
    assert [] + [Plain(n)] == [Plain(n)];
  }

  lemma TruncatedPasses(a: Packet)
    requires Eligible(a) && |a| > 40
    ensures !Eligible(a[..40]) && FlowKey(a[..40]) == FlowKey(a)
  {
    assert Be16(a[..40], 2) == |a|;
    assert a[..40][12..24] == a[12..24];
  }

  /** A sample, its own truncation, and its continuation. */
  function Trio(payload: Packet, flags: byte): (r: seq<Packet>)
    requires 0 < |payload| <= 32747
    ensures |r| == 3
  {
    var a := Sample(0, 0, 0x10, payload);
    [a, a[..40], Sample(1, |payload|, flags, payload)]
  }

  lemma TrioMeetsEmptied(payload: Packet, flags: byte)
    requires 0 < |payload| <= 32747 && AckData(flags)
    ensures var t := Trio(payload, flags); var before := t[..2];
      && t == before + [t[2]] && Process(before).clean && Tidy(Process(before).s.tbl) && OntoEmptied(Process(before).s.tbl, t[2])
      && Process(before).s.out == [Plain(t[0]), Plain(t[1])] && |Process(before).s.tbl| == 1
  {
    hide Sample, Eligible, CanAppend, Process, Tidy, OntoEmptied;
    var a, c := Sample(0, 0, 0x10, payload), Sample(1, |payload|, flags, payload);
    SampleEligible(0, 0, 0x10, payload);
    SampleEligible(1, |payload|, flags, payload);
    SampleContinues(payload, payload, flags);
    TruncatedPasses(a);
    PassThroughBetween(a, a[..40], c);
    assert Trio(payload, flags)[..2] == [a, a[..40]];
  }

  /** Three packets, and the third is never delivered: the batch is not transparent. */
  lemma EmptiedGroupLosesAPacket(slots: seq<Slot>, payload: Packet)
    requires SlotsOk(slots) && 0 < |payload| <= 32747
    ensures !DeliversAll(slots, Trio(payload, 0x10)) && !EveryFlowClean(Trio(payload, 0x10))
  {
    hide Trio, Process, DeliversAll, SlotOk, OntoEmptied, Tidy, EveryFlowClean;
    var t := Trio(payload, 0x10);
    TrioMeetsEmptied(payload, 0x10);
    LossDeliversNot(slots, t[..2], t[2]);
    assert t[..3] == t;
    TransparentIffClean(slots, t);
  }

  /** What the TUN gets instead, whatever the payload is: the payload itself, as a packet. */
  lemma AnyPayloadSurfaces(slots: seq<Slot>, payload: Packet)
    requires SlotsOk(slots) && 0 < |payload| <= 32747
    ensures var t := Trio(payload, 0x10);
      Emitted(slots, t) == [Plain(t[0]), Plain(t[1]), Plain(payload)]
  {
    hide Trio, Process, SlotOk, OntoEmptied, Tidy, Sample, Emitted;
    var t := Trio(payload, 0x10);
    TrioMeetsEmptied(payload, 0x10);
    var j := LossEmits(slots, t[..2], t[2]);
    TrioLast(payload, 0x10);
    NoGroups(Process(t[..2]).s.tbl, j);
  }

  lemma NoGroups(tbl: seq<Group>, j: nat)
    requires |tbl| == 1 && j < |tbl|
    ensures FlushAll(tbl[..j]) == [] && FlushAll(tbl[j + 1..]) == []
  {
  }

  lemma TrioLast(payload: Packet, flags: byte)
    requires 0 < |payload| <= 32747
    ensures var c := Trio(payload, flags)[2]; |c| == 40 + |payload| && c[40..] == payload && c[33] == flags
  {
    hide Sample;
    SampleOctets(1, |payload|, flags, payload);
    SampleFields(1, |payload|, flags, payload);
  }

  /** With PSH set and at most 33 octets of payload the third packet crashes the process instead. */
  lemma ShortPushPanics(slots: seq<Slot>, payload: Packet)
    requires SlotsOk(slots) && 0 < |payload| <= 33
    ensures Batch(slots, Trio(payload, 0x18)).down
  {
    hide Trio, Process, SlotOk, OntoEmptied, Tidy, Batch;
    var t := Trio(payload, 0x18);
    TrioMeetsEmptied(payload, 0x18);
    TrioLast(payload, 0x18);
    PanicsIff(slots, t[..2], t[2]);
  }

  /** Trio's third packet leaves a group of the bare payload, open, over the octets of the first. */
  lemma TrioLeaves(slots: seq<Slot>, payload: Packet)
    requires SlotsOk(slots) && 0 < |payload| <= 12
    ensures var f, a := Batch(slots, Trio(payload, 0x10)), Sample(0, 0, 0x10, payload);
      && !f.down && f.n == 1 && f.slots[0].len == |payload| && !f.slots[0].closed
      && f.slots[0].store[12..24] == a[12..24]
  {
    hide Trio, Process, SlotOk, OntoEmptied, Tidy, Batch, Sample;
    var t, a := Trio(payload, 0x10), Sample(0, 0, 0x10, payload);
    TrioMeetsEmptied(payload, 0x10);
    TrioLast(payload, 0x10);
    RunRefines(slots, t[..2]);
    var f, s := Batch(slots, t[..2]), Process(t[..2]).s;
    var j, x := LossStep(f, s, t[2]);
    BatchOneMore(slots, t[..2], t[2]);
    TrioGroup(payload, 0x10);
    SampleFields(0, 0, 0x10, payload);
    NoFlags(t[2]);
    BareSlot(f.slots[0], a, t[2]);
  }

  lemma NoFlags(p: Packet)
    requires |p| >= 40 && p[33] == 0x10
    ensures !Flags(p) && !Panics(p)
  {
  }

  lemma TrioGroup(payload: Packet, flags: byte)
    requires 0 < |payload| <= 32747 && AckData(flags)
    ensures Process(Trio(payload, flags)[..2]).s.tbl == [Start(Sample(0, 0, 0x10, payload)).(segs := 0, length := 0)]
  {
    hide Sample, Eligible, CanAppend, Process, Tidy, OntoEmptied;
    var a, c := Sample(0, 0, 0x10, payload), Sample(1, |payload|, flags, payload);
    SampleEligible(0, 0, 0x10, payload);
    SampleEligible(1, |payload|, flags, payload);
    SampleContinues(payload, payload, flags);
    TruncatedPasses(a);
    PassThroughBetween(a, a[..40], c);
    assert Trio(payload, flags)[..2] == [a, a[..40]];
  }

  lemma BareAppend(s: Slot, p: Packet)
    requires SlotOk(s) && |p| >= 40 && s.len > 33 && s.length == 0 && |p| - 40 <= GRO_MAX_LEN && !Flags(p)
    ensures AppendSlot(s, p).Some?
    ensures var x := AppendSlot(s, p).value;
      x.len == |p| - 40 && x.closed == (s.closed || |p| - 40 < s.gsoSize) && x.store == p[40..] + s.store[|p| - 40..]
  {
    hide OrFinPsh, Low16, Low32, Flags;
    assert s.store[..0] == [];
  }

  /** A short payload over an emptied group of the same segment size leaves octets 12 to 24 as they were. */
  lemma BareSlot(s: Slot, a: Packet, p: Packet)
    requires SlotOk(s) && 40 < |a| && |p| == |a| <= 52 && !Flags(p)
    requires GroupOf(s) == Start(a).(segs := 0, length := 0) && a[32] == 0x50 && !Fin(a[33]) && !Psh(a[33])
    ensures s.len > 33 && s.length + (|p| - 40) <= GRO_MAX_LEN && AppendSlot(s, p).Some?
    ensures var x := AppendSlot(s, p).value; x.len == |p| - 40 && !x.closed && x.store[12..24] == a[12..24]
  {
    hide Low16, Low32, Be16, Be32, AppendSlot, Fin, Psh, Flags;
    assert s.store[..s.len] == a;
    BareAppend(s, p);
    OverOctets(p[40..], s.store, a);
  }

  lemma OverOctets(payload: Packet, store: Packet, a: Packet)
    requires |payload| <= 12 && 24 <= |a| <= |store| && store[..|a|] == a
    ensures (payload + store[|payload|..])[12..24] == a[12..24]
  {
    assert a[12..24] == store[12..24];
  }

  /** After it, the next data segment of the flow that has no TCP options crashes the process, flags or not. */
  lemma NextOfFlowPanics(slots: seq<Slot>, payload: Packet, d: Packet)
    requires SlotsOk(slots) && 0 < |payload| <= 12
    requires Eligible(d) && |d| >= 40 && d[32] / 16 == 5 && d[12..24] == Sample(0, 0, 0x10, payload)[12..24]
    ensures Batch(slots, Trio(payload, 0x10) + [d]).down
  {
    hide Trio, SlotOk, Batch, Sample, Eligible, CanAppendSlot, RulesAllow;
    TrioLeaves(slots, payload);
    var f := Batch(slots, Trio(payload, 0x10));
    BatchOneMore(slots, Trio(payload, 0x10), d);
    assert FindSlot(f, d[12..24], 0) == 0;
    StepPanicsIff(f, d);
  }
}
