/**
 The coalescing table with its storage (dataplane/gro_linux.go). A group's buffer is a fixed
 backing store of which only the first octets are current: slices of it may read octets left from
 earlier packets, while an index past the current length is a panic. This is what the code does to
 every batch; GroBatch is the part of it in which every stored group keeps a header.
 */
module GroStore {
  import opened Bytes
  import opened Checksum
  import opened Offload
  import opened Gro
  import opened GroBatch

  /** One groGroup: the backing store of buf, len(buf), and the other fields. */
  datatype Slot = Slot(store: Packet, len: nat, length: nat, segs: nat, gsoSize: nat,
                       nextSeq: u32, nextID: u16, closed: bool)

  /** What every operation keeps: length is len(buf) while anything is held, and a second segment needs 34 octets. */
  predicate SlotOk(s: Slot)
  {
    && |s.store| == GRO_MAX_LEN && s.length <= s.len <= GRO_MAX_LEN
    && (s.segs > 0 ==> s.length == s.len) && (s.segs > 1 ==> s.length >= 34)
  }

  /** make([]byte, 0, groMaxLen) in an otherwise zero group. */
  function NewSlot(): (s: Slot)
    ensures SlotOk(s)
  {
    Slot(seq(GRO_MAX_LEN, i => 0), 0, 0, 0, 0, 0, 0, false)
  }

  /** The current octets of a slot, as GroBatch sees them. */
  function GroupOf(s: Slot): (g: Group)
    requires SlotOk(s)
  {
    Group(s.store[..s.len], s.length, s.segs, s.gsoSize, s.nextSeq, s.nextID, s.closed)
  }

  predicate SameFlow(s: Slot, key: Packet)
    requires SlotOk(s)
  {
    s.store[12..24] == key
  }

  predicate Flags(p: Packet)
    requires |p| >= 40
  {
    Fin(p[33]) || Psh(p[33])
  }

  /** The rules of canAppend between its two index reads that can fail. */
  predicate RulesAllow(s: Slot, p: Packet)
    requires SlotOk(s) && |p| >= 40
  {
    && s.store[32] / 16 == 5
    && |p| - 40 <= s.gsoSize && s.length + (|p| - 40) <= GRO_MAX_LEN
    && Be32(p, 24) == s.nextSeq && Be16(p, 4) == s.nextID
    && p[1] == s.store[1] && p[8] == s.store[8]
    && p[28..32] == s.store[28..32] && p[34..36] == s.store[34..36] && p[38..40] == s.store[38..40]
  }

  /** canAppend; None is an index panic on buf[32] or buf[33]. */
  function CanAppendSlot(s: Slot, p: Packet): (r: Option<bool>)
    requires SlotOk(s) && |p| >= 40
    ensures r == Some(true) ==> s.len > 33 && s.length + (|p| - 40) <= GRO_MAX_LEN
  {
    if s.closed || p[32] / 16 != 5 then Some(false)
    else if s.len <= 32 then None
    else if !RulesAllow(s, p) then Some(false)
    else if s.len <= 33 then None
    else Some(ClearFinPsh(p[33] % 64) == ClearFinPsh(s.store[33] % 64))
  }

  function StartSlot(s: Slot, p: Packet): (r: Slot)
    requires SlotOk(s) && 40 <= |p| <= GRO_MAX_LEN
    ensures SlotOk(r)
  {
    Slot(p + s.store[|p|..], |p|, |p|, 1, |p| - 40, Low32(Be32(p, 24) + (|p| - 40)), Low16(Be16(p, 4) + 1),
         Fin(p[33]) || Psh(p[33]) || p[32] / 16 != 5)
  }

  /** append; None is an index panic on buf[33], which only the flag fold reads. */
  function AppendSlot(s: Slot, p: Packet): (r: Option<Slot>)
    requires SlotOk(s) && |p| >= 40 && s.len > 33 && s.length + (|p| - 40) <= GRO_MAX_LEN
    ensures r.Some? ==> SlotOk(r.value)
  {
    var end := s.length + (|p| - 40);
    var store := s.store[..s.length] + p[40..] + s.store[end..];
    if Flags(p) && end <= 33 then None
    else Some(Slot(if Flags(p) then store[33 := OrFinPsh(store[33], p[33])] else store,
                   end, end, s.segs + 1, s.gsoSize,
                   Low32(s.nextSeq + (|p| - 40)), Low16(s.nextID + 1),
                   s.closed || Flags(p) || |p| - 40 < s.gsoSize))
  }

  /** The store after the in-place rewrite of a coalesced frame; the TCP field may lie past its end. */
  function FlushedStore(s: Slot): (r: Packet)
    requires SlotOk(s) && s.segs > 1
    ensures |r| == GRO_MAX_LEN
  {
    var frame := WithIpChecksum(Put16(s.store[..s.length], 2, Low16(s.length)), 20);
    Put16(frame + s.store[s.length..], 36, Fold(PseudoSum(frame, 20)))
  }

  function SlotHdr(s: Slot): (h: VirtioNetHdr)
  {
    VirtioNetHdr(VNET_NEEDS_CSUM, VNET_GSO_TCPV4, 40, Low16(s.gsoSize), 20, 16)
  }

  function SlotWrites(s: Slot): (w: seq<Write>)
    requires SlotOk(s)
  {
    if s.segs == 0 then []
    else if s.segs == 1 then [Plain(s.store[..s.length])]
    else [Gso(SlotHdr(s), FlushedStore(s)[..s.length])]
  }

  function FlushSlot(s: Slot): (r: Slot)
    requires SlotOk(s)
    ensures SlotOk(r)
  {
    if s.segs == 0 then s
    else if s.segs == 1 then s.(segs := 0, length := 0)
    else s.(segs := 0, length := 0, store := FlushedStore(s))
  }

  // ---------- the table ----------

  /** Every group ever allocated, the number in use, what the TUN got, and whether an index panic ended it all. */
  datatype Full = Full(slots: seq<Slot>, n: nat, out: seq<Write>, down: bool)

  predicate FullOk(f: Full) { f.n <= |f.slots| && forall i :: 0 <= i < |f.slots| ==> SlotOk(f.slots[i]) }

  function FindSlot(f: Full, key: Packet, i: nat): (j: nat)
    requires FullOk(f) && i <= f.n
    ensures i <= j <= f.n && (j < f.n ==> SameFlow(f.slots[j], key))
    ensures forall x :: i <= x < j ==> !SameFlow(f.slots[x], key)
    decreases f.n - i
  {
    if i == f.n || SameFlow(f.slots[i], key) then i else FindSlot(f, key, i + 1)
  }

  function FindLiveSlot(f: Full, key: Packet, i: nat): (j: nat)
    requires FullOk(f) && i <= f.n
    ensures i <= j <= f.n && (j < f.n ==> f.slots[j].segs > 0 && SameFlow(f.slots[j], key))
    ensures forall x :: i <= x < j ==> f.slots[x].segs == 0 || !SameFlow(f.slots[x], key)
    decreases f.n - i
  {
    if i == f.n || (f.slots[i].segs > 0 && SameFlow(f.slots[i], key)) then i else FindLiveSlot(f, key, i + 1)
  }

  function FlushSlotAt(f: Full, j: nat): (r: Full)
    requires FullOk(f) && j < f.n
    ensures FullOk(r)
  {
    f.(slots := f.slots[j := FlushSlot(f.slots[j])], out := f.out + SlotWrites(f.slots[j]))
  }

  /** grab, then start. */
  function OpenSlot(f: Full, p: Packet): (r: Full)
    requires FullOk(f) && 40 <= |p| <= GRO_MAX_LEN
    ensures FullOk(r)
  {
    if f.n == |f.slots| then f.(slots := f.slots + [StartSlot(NewSlot(), p)], n := f.n + 1)
    else f.(slots := f.slots[f.n := StartSlot(f.slots[f.n], p)], n := f.n + 1)
  }

  /** add on an eligible packet whose flow has group j. */
  function MergeSlot(f: Full, j: nat, p: Packet): (r: Full)
    requires FullOk(f) && j < f.n && 40 <= |p| <= GRO_MAX_LEN
    ensures FullOk(r)
  {
    match CanAppendSlot(f.slots[j], p)
    case None => f.(down := true)
    case Some(true) => (
      match AppendSlot(f.slots[j], p)
      case None => f.(down := true)
      case Some(s) => f.(slots := f.slots[j := s]))
    case Some(false) => (
      var f1 := FlushSlotAt(f, j);
      f1.(slots := f1.slots[j := StartSlot(f1.slots[j], p)]))
  }

  function FlushFlow(f: Full, p: Packet): (r: Full)
    requires FullOk(f)
    ensures FullOk(r)
  {
    if FlowKey(p).None? then f
    else
      var j := FindLiveSlot(f, FlowKey(p).value, 0);
      if j == f.n then f else FlushSlotAt(f, j)
  }

  /** One packet: add, and the write-through when add declines it. */
  function FullStep(f: Full, p: Packet): (r: Full)
    requires FullOk(f)
    ensures FullOk(r)
  {
    if f.down then f
    else if !Eligible(p) then
      var f1 := FlushFlow(f, p);
      f1.(out := f1.out + [Plain(p)])
    else
      EligibleLength(p);
      var j := FindSlot(f, p[12..24], 0);
      if j == f.n then OpenSlot(f, p) else MergeSlot(f, j, p)
  }

  function FullRun(f: Full, pkts: seq<Packet>): (r: Full)
    requires FullOk(f)
    ensures FullOk(r)
  {
    if pkts == [] then f else FullStep(FullRun(f, pkts[..|pkts| - 1]), pkts[|pkts| - 1])
  }

  /** The final loop over the first n groups. */
  function FlushSlots(slots: seq<Slot>, n: nat): (ws: seq<Write>)
    requires n <= |slots| && forall i :: 0 <= i < |slots| ==> SlotOk(slots[i])
  {
    if n == 0 then [] else FlushSlots(slots, n - 1) + SlotWrites(slots[n - 1])
  }

  predicate SlotsOk(slots: seq<Slot>) { forall i :: 0 <= i < |slots| ==> SlotOk(slots[i]) }

  /** The table after a batch begun with these groups allocated. */
  function Batch(slots: seq<Slot>, pkts: seq<Packet>): (r: Full)
    requires SlotsOk(slots)
    ensures FullOk(r)
  {
    FullRun(Full(slots, 0, [], false), pkts)
  }

  /** Everything a batch puts on the TUN; a panic leaves only what was written before it. */
  function Emitted(slots: seq<Slot>, pkts: seq<Packet>): (ws: seq<Write>)
    requires SlotsOk(slots)
  {
    var f := Batch(slots, pkts);
    if f.down then f.out else f.out + FlushSlots(f.slots, f.n)
  }

  // ---------- while every group keeps a header, this is GroBatch ----------

  ghost predicate Refines(f: Full, s: State)
  {
    && FullOk(f) && !f.down && f.n == |s.tbl| && f.out == s.out
    && forall i :: 0 <= i < f.n ==> GroupOf(f.slots[i]) == s.tbl[i]
  }

  lemma StartRefines(s: Slot, p: Packet)
    requires SlotOk(s) && 40 <= |p| <= GRO_MAX_LEN
    ensures GroupOf(StartSlot(s, p)) == Start(p)
  {
    assert StartSlot(s, p).store[..|p|] == p;
  }

  lemma KeyRefines(s: Slot, key: Packet)
    requires SlotOk(s) && s.len >= 40
    ensures SameFlow(s, key) <==> GroupKey(GroupOf(s)) == key
  {
    assert s.store[..s.len][12..24] == s.store[12..24];
  }

  lemma CanAppendRefines(s: Slot, p: Packet)
    requires SlotOk(s) && s.len >= 40 && |p| >= 40
    ensures CanAppendSlot(s, p) == Some(CanAppend(GroupOf(s), p))
  {
    var b := s.store[..s.len];
    assert b[28..32] == s.store[28..32] && b[34..36] == s.store[34..36] && b[38..40] == s.store[38..40];
  }

  lemma AppendRefines(s: Slot, p: Packet)
    requires SlotOk(s) && s.length >= 40 && |p| >= 40 && s.length + (|p| - 40) <= GRO_MAX_LEN
    ensures AppendSlot(s, p).Some? && GroupOf(AppendSlot(s, p).value) == Append(GroupOf(s), p)
  {
    hide OrFinPsh, Fin, Psh, Low16, Low32;
    var end := s.length + (|p| - 40);
    var store := s.store[..s.length] + p[40..] + s.store[end..];
    var buf := s.store[..s.len][..s.length] + p[40..];
    assert store[..end] == buf;
    if !Flags(p) {
      OrNoFlags(buf[33], p[33]);
      assert buf[33 := buf[33]] == buf;
    } else {
      assert store[33 := OrFinPsh(store[33], p[33])][..end] == buf[33 := OrFinPsh(buf[33], p[33])];
    }
  }

  lemma FlushRefines(s: Slot)
    requires SlotOk(s) && Flushable(GroupOf(s))
    ensures GroupOf(FlushSlot(s)) == Flushed(GroupOf(s)) && SlotWrites(s) == FlushWrites(GroupOf(s))
  {
    hide WithIpChecksum, PseudoSum, Fold;
    var g := GroupOf(s);
    assert g.buf[..g.length] == s.store[..s.length];
    if s.segs > 1 {
      var frame := WithIpChecksum(Put16(s.store[..s.length], 2, Low16(s.length)), 20);
      assert FlushedStore(s)[..s.length] == Put16(frame, 36, Fold(PseudoSum(frame, 20)));
      assert g.buf[g.length..] == [];
    }
  }

  lemma {:induction false} FindRefines(f: Full, s: State, key: Packet, i: nat)
    requires Refines(f, s) && Tidy(s.tbl) && i <= f.n
    ensures FindSlot(f, key, i) == Find(s.tbl, key, i)
    decreases f.n - i
  {
    hide SlotOk, SameFlow, GroupOf;
    if i < f.n {
      KeyAt(f, s, key, i);
      FindRefines(f, s, key, i + 1);
    }
  }

  lemma {:induction false} FindLiveRefines(f: Full, s: State, key: Packet, i: nat)
    requires Refines(f, s) && Tidy(s.tbl) && i <= f.n
    ensures FindLiveSlot(f, key, i) == FindLive(s.tbl, key, i)
    decreases f.n - i
  {
    hide SlotOk, SameFlow, GroupOf;
    if i < f.n {
      KeyAt(f, s, key, i);
      FindLiveRefines(f, s, key, i + 1);
    }
  }

  lemma KeyAt(f: Full, s: State, key: Packet, i: nat)
    requires Refines(f, s) && Tidy(s.tbl) && i < f.n
    ensures |s.tbl[i].buf| >= 40 && (SameFlow(f.slots[i], key) <==> GroupKey(s.tbl[i]) == key) && f.slots[i].segs == s.tbl[i].segs
  {
    hide SlotOk, Flushable;
    assert s.tbl[i] in s.tbl;
    LongEnough(f.slots[i]);
    KeyRefines(f.slots[i], key);
  }

  lemma LongEnough(s: Slot)
    requires SlotOk(s) && |GroupOf(s).buf| >= 40
    ensures s.len >= 40
  {
  }

  lemma FlushAtRefines(f: Full, s: State, j: nat)
    requires Refines(f, s) && Tidy(s.tbl) && j < f.n
    ensures s.tbl[j] in s.tbl && Refines(FlushSlotAt(f, j), FlushAt(s, j))
  {
    hide SlotOk, GroupOf, Flushed, FlushSlot, FlushWrites, SlotWrites, Flushable;
    assert s.tbl[j] in s.tbl;
    FlushRefines(f.slots[j]);
  }

  lemma ThroughRefines(f: Full, s: State, p: Packet)
    requires Refines(f, s) && Tidy(s.tbl) && !Eligible(p)
    ensures Refines(FullStep(f, p), Step(s, p))
  {
    hide SlotOk, GroupOf, Eligible, FlushSlotAt, Flushed, FlushWrites, Flushable, FindSlot, Find;
    if FlowKey(p).Some? {
      var j := FindLive(s.tbl, FlowKey(p).value, 0);
      FindLiveRefines(f, s, FlowKey(p).value, 0);
      if j < f.n {
        FlushAtRefines(f, s, j);
      }
    }
  }

  lemma OpenRefines(f: Full, s: State, p: Packet)
    requires Refines(f, s) && 40 <= |p| <= GRO_MAX_LEN
    ensures Refines(OpenSlot(f, p), s.(tbl := s.tbl + [Start(p)]))
  {
    hide SlotOk, GroupOf, Start, StartSlot, NewSlot;
    StartRefines(if f.n == |f.slots| then NewSlot() else f.slots[f.n], p);
  }

  lemma MergeRefines(f: Full, s: State, j: nat, p: Packet)
    requires Refines(f, s) && Tidy(s.tbl) && j < f.n && 40 <= |p| <= GRO_MAX_LEN
    requires |s.tbl[j].buf| >= 40 && Flushable(s.tbl[j]) && (CanAppend(s.tbl[j], p) ==> s.tbl[j].segs > 0)
    ensures Refines(MergeSlot(f, j, p),
                    if CanAppend(s.tbl[j], p) then s.(tbl := s.tbl[j := Append(s.tbl[j], p)])
                    else FlushAt(s, j).(tbl := FlushAt(s, j).tbl[j := Start(p)]))
  {
    hide SlotOk, GroupOf, CanAppend, CanAppendSlot, Start, StartSlot, Append, AppendSlot, FlushSlot, FlushWrites, SlotWrites, Flushed;
    LongEnough(f.slots[j]);
    CanAppendRefines(f.slots[j], p);
    if CanAppend(s.tbl[j], p) {
      LiveLength(f.slots[j], s.tbl[j]);
      AppendRefines(f.slots[j], p);
    } else {
      FlushAtRefines(f, s, j);
      StartRefines(FlushSlot(f.slots[j]), p);
    }
  }

  /** One packet that meets no emptied group. */
  lemma StepRefines(f: Full, s: State, p: Packet)
    requires Refines(f, s) && Tidy(s.tbl) && !OntoEmptied(s.tbl, p)
    ensures Refines(FullStep(f, p), Step(s, p))
  {
    hide SlotOk, GroupOf, Eligible, CanAppend, Start, Append, FlushAt, Flushable, Find, FindSlot, MergeSlot, OpenSlot, FlushFlow;
    if !Eligible(p) {
      ThroughRefines(f, s, p);
    } else {
      EligibleLength(p);
      var j := Find(s.tbl, p[12..24], 0);
      FindRefines(f, s, p[12..24], 0);
      if j == f.n {
        OpenRefines(f, s, p);
      } else {
        assert s.tbl[j] in s.tbl;
        MergeRefines(f, s, j, p);
      }
    }
  }

  lemma LiveLength(s: Slot, g: Group)
    requires SlotOk(s) && GroupOf(s) == g && g.segs > 0 && Flushable(g)
    ensures s.length >= 40
  {
  }

  lemma {:induction false} RunRefines(slots: seq<Slot>, pkts: seq<Packet>)
    requires SlotsOk(slots) && Process(pkts).clean
    ensures Refines(Batch(slots, pkts), Process(pkts).s)
    decreases |pkts|
  {
    hide SlotOk, Step, FullStep, OntoEmptied, Tidy, GroupOf;
    if pkts != [] {
      var n := |pkts| - 1;
      RunRefines(slots, pkts[..n]);
      StepRefines(Batch(slots, pkts[..n]), Process(pkts[..n]).s, pkts[n]);
    }
  }

  lemma {:induction false} FlushSlotsRefines(slots: seq<Slot>, n: nat, tbl: seq<Group>)
    requires n <= |slots| && SlotsOk(slots) && n == |tbl| && Tidy(tbl)
    requires forall i :: 0 <= i < n ==> GroupOf(slots[i]) == tbl[i]
    ensures FlushSlots(slots, n) == FlushAll(tbl)
    decreases n
  {
    hide SlotOk, GroupOf, FlushWrites, SlotWrites, Flushable;
    if n > 0 {
      FlushSlotsRefines(slots, n - 1, tbl[..n - 1]);
      assert tbl[n - 1] in tbl;
      FlushRefines(slots[n - 1]);
    }
  }

  /** A clean batch never panics, and whatever the groups held before, writes what GroBatch says. */
  lemma CleanEmits(slots: seq<Slot>, pkts: seq<Packet>)
    requires SlotsOk(slots) && Process(pkts).clean
    ensures !Batch(slots, pkts).down && Emitted(slots, pkts) == Written(pkts)
  {
    hide SlotOk, Process, Batch, FlushSlots, FlushAll, GroupOf, Tidy;
    RunRefines(slots, pkts);
    CleanIsTidy(pkts);
    var f := Batch(slots, pkts);
    FlushSlotsRefines(f.slots, f.n, Process(pkts).s.tbl);
  }

  // ---------- the packet that meets an emptied group ----------

  /** Flags to fold in, and a payload too short to have an octet 33. */
  predicate Panics(p: Packet)
    requires |p| >= 40
  {
    Flags(p) && |p| - 40 <= 33
  }

  /** What the emptied group then holds: the payload alone, any flags folded into its octet 33. */
  function Headerless(p: Packet): (d: Packet)
    requires |p| >= 40 && !Panics(p)
    ensures |d| == |p| - 40 && forall i :: 0 <= i < |d| && i != 33 ==> d[i] == p[40 + i]
    ensures !Flags(p) ==> d == p[40..]
  {
    if Flags(p) then p[40..][33 := OrFinPsh(p[73], p[33])] else p[40..]
  }

  lemma AppendEmptied(s: Slot, p: Packet)
    requires SlotOk(s) && |p| >= 40 && s.len > 33 && s.length == 0 && s.segs == 0 && |p| - 40 <= GRO_MAX_LEN
    ensures AppendSlot(s, p).None? <==> Panics(p)
    ensures !Panics(p) ==> SlotWrites(AppendSlot(s, p).value) == [Plain(Headerless(p))]
  {
    hide OrFinPsh, Fin, Psh, Low16, Low32;
    if !Panics(p) {
      var x := AppendSlot(s, p).value;
      assert (s.store[..0] + p[40..] + s.store[|p| - 40..])[..|p| - 40] == p[40..];
      assert x.store[..x.length] == Headerless(p);
    }
  }

  /** The append either panics or leaves a group that will be written as a packet of its own. */
  lemma LossStep(f: Full, s: State, p: Packet) returns (j: nat, x: Slot)
    requires Refines(f, s) && Tidy(s.tbl) && OntoEmptied(s.tbl, p)
    ensures |p| > 40 && j < f.n && j == Find(s.tbl, p[12..24], 0)
    ensures Panics(p) ==> FullStep(f, p) == f.(down := true)
    ensures !Panics(p) ==> FullStep(f, p) == f.(slots := f.slots[j := x]) && SlotOk(x) && SlotWrites(x) == [Plain(Headerless(p))]
    ensures f.slots[j].len > 33 && f.slots[j].length + (|p| - 40) <= GRO_MAX_LEN && (!Panics(p) ==> AppendSlot(f.slots[j], p) == Some(x))
  {
    hide SlotOk, GroupOf, Eligible, CanAppend, CanAppendSlot, Find, FindSlot, Panics, Headerless, AppendSlot, SlotWrites, Flags;
    EligibleLength(p);
    j := Find(s.tbl, p[12..24], 0);
    FindRefines(f, s, p[12..24], 0);
    assert s.tbl[j] in s.tbl;
    LongEnough(f.slots[j]);
    CanAppendRefines(f.slots[j], p);
    EmptyFields(f.slots[j]);
    AppendEmptied(f.slots[j], p);
    x := if Panics(p) then f.slots[j] else AppendSlot(f.slots[j], p).value;
  }

  lemma EmptyFields(s: Slot)
    requires SlotOk(s) && Flushable(GroupOf(s)) && GroupOf(s).segs == 0
    ensures s.length == 0 && s.segs == 0
  {
  }

  /** When the code crashes: after a clean batch, on exactly the short flagged segment that meets an emptied group. */
  lemma PanicsIff(slots: seq<Slot>, pkts: seq<Packet>, p: Packet)
    requires SlotsOk(slots) && Process(pkts).clean
    ensures Tidy(Process(pkts).s.tbl)
    ensures Batch(slots, pkts + [p]).down <==>
      OntoEmptied(Process(pkts).s.tbl, p) && |p| - 40 <= 33 && (Fin(p[33]) || Psh(p[33]))
  {
    hide SlotOk, Process, FullStep, Step, GroupOf, OntoEmptied, Tidy;
    RunRefines(slots, pkts);
    CleanIsTidy(pkts);
    var f, s := Batch(slots, pkts), Process(pkts).s;
    BatchOneMore(slots, pkts, p);
    if OntoEmptied(s.tbl, p) {
      var j, x := LossStep(f, s, p);
    } else {
      StepRefines(f, s, p);
    }
  }

  lemma BatchOneMore(slots: seq<Slot>, pkts: seq<Packet>, p: Packet)
    requires SlotsOk(slots)
    ensures Batch(slots, pkts + [p]) == FullStep(Batch(slots, pkts), p)
  {
    hide FullStep;
    assert (pkts + [p])[..|pkts|] == pkts;
  }

  lemma FlushAllSlice(tbl: seq<Group>, i: nat, n: nat)
    requires i < n <= |tbl| && Flushable(tbl[n - 1])
    ensures FlushAll(tbl[i..n]) == FlushAll(tbl[i..n - 1]) + FlushWrites(tbl[n - 1])
  {
    hide FlushWrites, Flushable;
    assert tbl[i..n][..n - i - 1] == tbl[i..n - 1];
  }

  lemma TidyPart(tbl: seq<Group>, j: nat)
    requires Tidy(tbl) && j < |tbl|
    ensures Tidy(tbl[..j]) && Flushable(tbl[j])
  {
    hide Flushable;
    assert tbl[j] in tbl;
  }

  lemma NothingToFlush(tbl: seq<Group>, i: nat)
    requires i <= |tbl|
    ensures FlushAll(tbl[i..i]) == []
  {
  }

  /** The final flush when one group is not what the clean table says. */
  lemma {:induction false} FlushSlotsSplit(slots: seq<Slot>, n: nat, tbl: seq<Group>, j: nat)
    requires SlotsOk(slots) && j < n <= |slots| && n <= |tbl| && Tidy(tbl)
    requires forall i :: 0 <= i < n && i != j ==> GroupOf(slots[i]) == tbl[i]
    ensures FlushSlots(slots, n) == FlushAll(tbl[..j]) + SlotWrites(slots[j]) + FlushAll(tbl[j + 1..n])
    decreases n
  {
    hide SlotOk, GroupOf, FlushWrites, SlotWrites, Flushable, FlushAll, Tidy;
    if n == j + 1 {
      TidyPart(tbl, j);
      FlushSlotsRefines(slots, j, tbl[..j]);
      NothingToFlush(tbl, j + 1);
    } else {
      FlushSlotsSplit(slots, n - 1, tbl, j);
      TidyPart(tbl, n - 1);
      FlushRefines(slots[n - 1]);
      FlushAllSlice(tbl, j + 1, n);
    }
  }

  /** What the TUN gets from a batch that ends with the first packet to meet an emptied group. */
  lemma LossEmits(slots: seq<Slot>, pkts: seq<Packet>, p: Packet) returns (j: nat)
    requires SlotsOk(slots) && Process(pkts).clean && Tidy(Process(pkts).s.tbl) && OntoEmptied(Process(pkts).s.tbl, p)
    ensures var s := Process(pkts).s;
      && |p| > 40 && j < |s.tbl| && j == Find(s.tbl, p[12..24], 0)
      && Emitted(slots, pkts + [p]) ==
           if Panics(p) then s.out
           else s.out + (FlushAll(s.tbl[..j]) + [Plain(Headerless(p))] + FlushAll(s.tbl[j + 1..]))
  {
    hide SlotOk, Process, FullStep, GroupOf, OntoEmptied, Tidy, Batch, FlushSlots, FlushAll, Panics, Headerless, SlotWrites;
    var s, f := Process(pkts).s, Batch(slots, pkts);
    RunRefines(slots, pkts);
    var x;
    j, x := LossStep(f, s, p);
    BatchOneMore(slots, pkts, p);
    if !Panics(p) {
      FlushSlotsSplit(f.slots[j := x], f.n, s.tbl, j);
      assert s.tbl[j + 1..f.n] == s.tbl[j + 1..];
    }
  }

  // ---------- exactly when a table panics ----------

  /**
   The three ways an index goes past a group's current octets: buf[32] of a group of at most 32,
   buf[33] of a group of exactly 33 that passes every earlier rule, and the flag fold into an
   emptied group that then holds at most 33.
   */
  predicate ReadsPast(s: Slot, p: Packet)
    requires SlotOk(s) && |p| >= 40
  {
    && !s.closed && p[32] / 16 == 5
    && (|| s.len <= 32
        || (s.len == 33 && RulesAllow(s, p))
        || (CanAppendSlot(s, p) == Some(true) && s.segs == 0 && Flags(p) && s.length + (|p| - 40) <= 33))
  }

  /** p is taken to a group of this table that an index of the code reads past. */
  predicate PanicsOn(f: Full, p: Packet)
    requires FullOk(f)
  {
    Eligible(p) && |p| >= 40 &&
    var j := FindSlot(f, p[12..24], 0);
    j < f.n && ReadsPast(f.slots[j], p)
  }

  lemma MergePanicsIff(s: Slot, p: Packet)
    requires SlotOk(s) && 40 <= |p| <= GRO_MAX_LEN
    ensures ReadsPast(s, p) <==>
      CanAppendSlot(s, p).None? || (CanAppendSlot(s, p) == Some(true) && AppendSlot(s, p).None?)
  {
    hide RulesAllow, ClearFinPsh, OrFinPsh, Fin, Psh;
  }

  /** On any table at all, the next packet panics exactly when it reads past its group. */
  lemma StepPanicsIff(f: Full, p: Packet)
    requires FullOk(f) && !f.down
    ensures FullStep(f, p).down <==> PanicsOn(f, p)
  {
    hide SlotOk, Eligible, ReadsPast, CanAppendSlot, AppendSlot, StartSlot, NewSlot, FlushSlot, SlotWrites, FindSlot, FindLiveSlot;
    if Eligible(p) {
      EligibleLength(p);
      var j := FindSlot(f, p[12..24], 0);
      if j < f.n { MergePanicsIff(f.slots[j], p); }
    }
  }

  /** Packet m of the batch panics on the table the packets before it left. */
  predicate PanicsAt(slots: seq<Slot>, pkts: seq<Packet>, m: nat)
    requires SlotsOk(slots) && m < |pkts|
  {
    !Batch(slots, pkts[..m]).down && PanicsOn(Batch(slots, pkts[..m]), pkts[m])
  }

  lemma PanicsAtPrefix(slots: seq<Slot>, pkts: seq<Packet>, n: nat, m: nat)
    requires SlotsOk(slots) && m < n <= |pkts|
    ensures PanicsAt(slots, pkts[..n], m) == PanicsAt(slots, pkts, m)
  {
    hide Batch, PanicsOn;
    assert pkts[..n][..m] == pkts[..m];
  }

  /** A batch panics exactly when one of its packets does, on the table the ones before it left. */
  lemma {:induction false} BatchPanicsIff(slots: seq<Slot>, pkts: seq<Packet>)
    requires SlotsOk(slots)
    ensures Batch(slots, pkts).down <==> exists m :: 0 <= m < |pkts| && PanicsAt(slots, pkts, m)
    decreases |pkts|
  {
    hide SlotOk, FullStep, PanicsOn, Batch, PanicsAt;
    if pkts == [] {
      NothingPanics(slots);
    } else {
      var n := |pkts| - 1;
      var before := pkts[..n];
      BatchPanicsIff(slots, before);
      assert before + [pkts[n]] == pkts;
      BatchOneMore(slots, before, pkts[n]);
      LastPanics(slots, pkts);
      forall m | 0 <= m < n ensures PanicsAt(slots, before, m) == PanicsAt(slots, pkts, m) { PanicsAtPrefix(slots, pkts, n, m); }
      if Batch(slots, before).down {
        var m :| 0 <= m < n && PanicsAt(slots, before, m);
        assert PanicsAt(slots, pkts, m);
        DownStep(Batch(slots, before), pkts[n]);
      } else {
        StepPanicsIff(Batch(slots, before), pkts[n]);
      }
    }
  }

  lemma NothingPanics(slots: seq<Slot>)
    requires SlotsOk(slots)
    ensures !Batch(slots, []).down
  {
  }

  lemma LastPanics(slots: seq<Slot>, pkts: seq<Packet>)
    requires SlotsOk(slots) && pkts != []
    ensures var n := |pkts| - 1;
      PanicsAt(slots, pkts, n) <==> !Batch(slots, pkts[..n]).down && PanicsOn(Batch(slots, pkts[..n]), pkts[n])
  {
    hide Batch, PanicsOn;
  }

  lemma DownStep(f: Full, p: Packet)
    requires FullOk(f) && f.down
    ensures FullStep(f, p) == f
  {
  }

  // ---------- where short groups come from ----------

  /** Packet m of the batch is appended to group i while that group is empty. */
  predicate FillsEmptied(slots: seq<Slot>, pkts: seq<Packet>, m: nat, i: nat)
    requires SlotsOk(slots) && m < |pkts|
  {
    var f, p := Batch(slots, pkts[..m]), pkts[m];
    && !f.down && Eligible(p) && |p| >= 40 && FindSlot(f, p[12..24], 0) == i < f.n
    && f.slots[i].segs == 0 && CanAppendSlot(f.slots[i], p) == Some(true)
  }

  /** A step shortens a group in use only by filling it while it is empty. */
  lemma StepShortens(f: Full, p: Packet, i: nat)
    requires FullOk(f) && !f.down && i < FullStep(f, p).n && FullStep(f, p).slots[i].len < 40
    ensures i < f.n
    ensures f.slots[i].len < 40
         || (Eligible(p) && |p| >= 40 && FindSlot(f, p[12..24], 0) == i && f.slots[i].segs == 0 && CanAppendSlot(f.slots[i], p) == Some(true))
  {
    hide SlotOk, Eligible, CanAppendSlot, StartSlot, AppendSlot, NewSlot, FlushSlot, SlotWrites, FindSlot, FindLiveSlot;
    if !Eligible(p) {
      if FlowKey(p).Some? {
        var j := FindLiveSlot(f, FlowKey(p).value, 0);
        if j < f.n { FlushKeepsLen(f.slots[j]); }
      }
    } else {
      EligibleLength(p);
      var j := FindSlot(f, p[12..24], 0);
      if j == f.n {
        StartLen(if f.n == |f.slots| then NewSlot() else f.slots[f.n], p);
      } else {
        FlushKeepsLen(f.slots[j]);
        StartLen(FlushSlot(f.slots[j]), p);
        if CanAppendSlot(f.slots[j], p) == Some(true) { AppendLen(f.slots[j], p); }
      }
    }
  }

  lemma FlushKeepsLen(s: Slot)
    requires SlotOk(s)
    ensures FlushSlot(s).len == s.len
  {
  }

  lemma StartLen(s: Slot, p: Packet)
    requires SlotOk(s) && 40 < |p| <= GRO_MAX_LEN
    ensures StartSlot(s, p).len > 40
  {
  }

  lemma AppendLen(s: Slot, p: Packet)
    requires SlotOk(s) && |p| >= 40 && s.len > 33 && s.length + (|p| - 40) <= GRO_MAX_LEN
    ensures AppendSlot(s, p).Some? && s.segs > 0 ==> AppendSlot(s, p).value.len >= s.len
  {
    hide OrFinPsh, Fin, Psh, Low16, Low32;
  }

  /** In every batch, whatever came before it, a group in use holds fewer than 40 octets only after it was filled while empty. */
  lemma {:induction false} ShortWasFilled(slots: seq<Slot>, pkts: seq<Packet>, i: nat) returns (m: nat)
    requires SlotsOk(slots) && !Batch(slots, pkts).down && i < Batch(slots, pkts).n && Batch(slots, pkts).slots[i].len < 40
    ensures m < |pkts| && FillsEmptied(slots, pkts, m, i)
    decreases |pkts|
  {
    hide SlotOk, FullStep, CanAppendSlot, FindSlot, Eligible;
    var n := |pkts| - 1;
    var before := pkts[..n];
    assert before + [pkts[n]] == pkts;
    BatchOneMore(slots, before, pkts[n]);
    if Batch(slots, before).down { DownStep(Batch(slots, before), pkts[n]); }
    StepShortens(Batch(slots, before), pkts[n], i);
    if Batch(slots, before).slots[i].len < 40 {
      m := ShortWasFilled(slots, before, i);
      assert before[..m] == pkts[..m];
    } else {
      m := n;
    }
  }

  /** So no batch panics in which no emptied group is filled. */
  lemma PanicNeedsEmptied(slots: seq<Slot>, pkts: seq<Packet>) returns (m: nat, i: nat)
    requires SlotsOk(slots) && Batch(slots, pkts).down
    ensures m < |pkts| && FillsEmptied(slots, pkts, m, i)
  {
    hide SlotOk, Batch, CanAppendSlot, FindSlot, Eligible, RulesAllow;
    BatchPanicsIff(slots, pkts);
    var k :| 0 <= k < |pkts| && PanicsAt(slots, pkts, k);
    var f := Batch(slots, pkts[..k]);
    i := FindSlot(f, pkts[k][12..24], 0);
    if f.slots[i].len < 40 {
      m := ShortWasFilled(slots, pkts[..k], i);
      assert pkts[..k][..m] == pkts[..m];
    } else {
      m := k;
    }
  }

  // ---------- running the table ----------

  lemma {:induction false} RunConcat(f: Full, a: seq<Packet>, b: seq<Packet>)
    requires FullOk(f)
    ensures FullRun(f, a + b) == FullRun(FullRun(f, a), b)
    decreases |b|
  {
    hide FullStep, SlotOk;
    if b == [] {
      assert a + b == a;
    } else {
      var n := |b| - 1;
      assert (a + b)[..|a + b| - 1] == a + b[..n];
      RunConcat(f, a, b[..n]);
    }
  }

  /** Nothing happens after a panic. */
  lemma {:induction false} DownStays(f: Full, ps: seq<Packet>)
    requires FullOk(f) && f.down
    ensures FullRun(f, ps) == f
    decreases |ps|
  {
    hide SlotOk;
    if ps != [] { DownStays(f, ps[..|ps| - 1]); }
  }

  lemma RunStopped(f: Full, a: seq<Packet>, b: seq<Packet>)
    requires FullOk(f) && a <= b && FullRun(f, a).down
    ensures FullRun(f, b) == FullRun(f, a)
  {
    hide FullStep, SlotOk;
    assert b == a + b[|a|..];
    RunConcat(f, a, b[|a|..]);
    DownStays(FullRun(f, a), b[|a|..]);
  }

  lemma RunOneMore(f: Full, ps: seq<Packet>, p: Packet)
    requires FullOk(f)
    ensures FullRun(f, ps + [p]) == FullStep(FullRun(f, ps), p)
  {
    hide FullStep, SlotOk;
    assert (ps + [p])[..|ps|] == ps;
  }

  /** The packet that panics writes nothing. */
  lemma PanicWritesNothing(f: Full, p: Packet)
    requires FullOk(f) && FullStep(f, p).down
    ensures FullStep(f, p).out == f.out
  {
    hide SlotOk, Eligible, CanAppendSlot, AppendSlot, StartSlot, FlushSlot, SlotWrites, SameFlow, NewSlot;
  }

  lemma FlushShifts(f: Full, x: seq<Write>, j: nat)
    requires FullOk(f) && j < f.n
    ensures FlushSlotAt(f.(out := x + f.out), j) == FlushSlotAt(f, j).(out := x + FlushSlotAt(f, j).out)
  {
    hide SlotOk, FlushSlot, SlotWrites;
    assert x + f.out + SlotWrites(f.slots[j]) == x + (f.out + SlotWrites(f.slots[j]));
  }

  lemma ThroughShifts(f: Full, x: seq<Write>, p: Packet)
    requires FullOk(f) && !f.down && !Eligible(p)
    ensures FullStep(f.(out := x + f.out), p) == FullStep(f, p).(out := x + FullStep(f, p).out)
  {
    hide SlotOk, Eligible, FlushSlotAt, FindLiveSlot, FindSlot;
    var f1 := FlushFlow(f, p);
    assert x + f1.out + [Plain(p)] == x + (f1.out + [Plain(p)]);
    if FlowKey(p).Some? {
      FindLiveShifts(f, x, FlowKey(p).value, 0);
      var j := FindLiveSlot(f, FlowKey(p).value, 0);
      if j < f.n { FlushShifts(f, x, j); }
    }
  }

  lemma MergeShifts(f: Full, x: seq<Write>, j: nat, p: Packet)
    requires FullOk(f) && j < f.n && 40 <= |p| <= GRO_MAX_LEN
    ensures MergeSlot(f.(out := x + f.out), j, p) == MergeSlot(f, j, p).(out := x + MergeSlot(f, j, p).out)
  {
    hide SlotOk, CanAppendSlot, AppendSlot, StartSlot, FlushSlot, SlotWrites;
    FlushShifts(f, x, j);
  }

  lemma StepShifts(f: Full, x: seq<Write>, p: Packet)
    requires FullOk(f)
    ensures FullStep(f.(out := x + f.out), p) == FullStep(f, p).(out := x + FullStep(f, p).out)
  {
    hide SlotOk, Eligible, MergeSlot, FindSlot, StartSlot, FlushFlow, NewSlot;
    if !f.down && !Eligible(p) {
      ThroughShifts(f, x, p);
    } else if !f.down {
      EligibleLength(p);
      FindShifts(f, x, p[12..24], 0);
      var j := FindSlot(f, p[12..24], 0);
      if j < f.n { MergeShifts(f, x, j, p); }
    }
  }

  lemma {:induction false} FindShifts(f: Full, x: seq<Write>, key: Packet, i: nat)
    requires FullOk(f) && i <= f.n
    ensures FindSlot(f.(out := x + f.out), key, i) == FindSlot(f, key, i)
    decreases f.n - i
  {
    hide SlotOk, SameFlow;
    if i < f.n { FindShifts(f, x, key, i + 1); }
  }

  lemma {:induction false} FindLiveShifts(f: Full, x: seq<Write>, key: Packet, i: nat)
    requires FullOk(f) && i <= f.n
    ensures FindLiveSlot(f.(out := x + f.out), key, i) == FindLiveSlot(f, key, i)
    decreases f.n - i
  {
    hide SlotOk, SameFlow;
    if i < f.n { FindLiveShifts(f, x, key, i + 1); }
  }

  /** What was written before a batch does not influence it. */
  lemma {:induction false} RunShifts(f: Full, x: seq<Write>, ps: seq<Packet>)
    requires FullOk(f)
    ensures FullRun(f.(out := x + f.out), ps) == FullRun(f, ps).(out := x + FullRun(f, ps).out)
    decreases |ps|
  {
    hide FullStep, SlotOk;
    if ps != [] {
      var n := |ps| - 1;
      RunShifts(f, x, ps[..n]);
      StepShifts(FullRun(f, ps[..n]), x, ps[n]);
    }
  }
}
