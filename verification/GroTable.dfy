/** The mutable coalescing table (dataplane/gro_linux.go): groups reused in place across batches. */
module GroTable {
  import opened Bytes
  import opened Checksum
  import opened Offload
  import opened Gro
  import opened GroStore

  /** The TUN device as the pump sees it: a log of writes. */
  class Tun {
    var out: seq<Write>

    constructor ()
      ensures out == []
    {
      out := [];
    }

    method Put(w: Write)
      modifies this
      ensures out == old(out) + [w]
    {
      out := out + [w];
    }
  }

  /** The first 20 octets decide the IP checksum, so the frame may be summed where it lies. */
  lemma IpChecksumInPlace(a: Packet, b: Packet)
    requires |a| >= 20
    ensures WithIpChecksum(a + b, 20) == WithIpChecksum(a, 20) + b
  {
    hide WordSum, Fold;
    var z := Put16(a, 10, 0);
    assert Put16(a + b, 10, 0) == z + b;
    assert (z + b)[..20] == z[..20];
  }

  lemma PutInPlace(a: Packet, b: Packet, off: nat, v: u16)
    requires off + 2 <= |a|
    ensures Put16(a + b, off, v) == Put16(a, off, v) + b
  {
  }

  class GroGroup {
    var store: Packet
    var len: nat
    var length: nat
    var segs: nat
    var gsoSize: nat
    var nextSeq: u32
    var nextID: u16
    var closed: bool

    constructor ()
      ensures Value() == NewSlot()
    {
      store := seq(GRO_MAX_LEN, i => 0);
      len, length, segs, gsoSize, nextSeq, nextID, closed := 0, 0, 0, 0, 0, 0, false;
    }

    function Value(): (s: Slot)
      reads this
    {
      Slot(store, len, length, segs, gsoSize, nextSeq, nextID, closed)
    }

    method StartWith(p: Packet)
      requires SlotOk(Value()) && 40 <= |p| <= GRO_MAX_LEN
      modifies this
      ensures Value() == StartSlot(old(Value()), p)
    {
      store := p + store[|p|..];
      len, length := |p|, |p|;
      segs := 1;
      gsoSize := |p| - 40;
      nextSeq := Low32(Be32(p, 24) + gsoSize);
      nextID := Low16(Be16(p, 4) + 1);
      closed := Fin(p[33]) || Psh(p[33]) || p[32] / 16 != 5;
    }

    /** canAppend, rule by rule in the code's order; None is an index panic. */
    method MayAppend(p: Packet) returns (r: Option<bool>)
      requires SlotOk(Value()) && |p| >= 40
      ensures r == CanAppendSlot(Value(), p)
      ensures len >= 40 ==> r == Some(CanAppend(GroupOf(Value()), p))
      ensures r.None? <==> !closed && p[32] / 16 == 5 && (len <= 32 || (len == 33 && RulesAllow(Value(), p)))
    {
      hide ClearFinPsh, CanAppend;
      if len >= 40 {
        CanAppendRefines(Value(), p);
      }
      if closed || p[32] / 16 != 5 {
        return Some(false);
      }
      if len <= 32 {
        return None;
      }
      if store[32] / 16 != 5 {
        return Some(false);
      }
      var payload := |p| - 40;
      if payload > gsoSize || length + payload > GRO_MAX_LEN {
        return Some(false);
      }
      if Be32(p, 24) != nextSeq || Be16(p, 4) != nextID {
        return Some(false);
      }
      if p[1] != store[1] || p[8] != store[8] {
        return Some(false);
      }
      if p[28..32] != store[28..32] || p[34..36] != store[34..36] || p[38..40] != store[38..40] {
        return Some(false);
      }
      if len <= 33 {
        return None;
      }
      return Some(ClearFinPsh(p[33] % 64) == ClearFinPsh(store[33] % 64));
    }

    /** append; false is an index panic at the flag fold. */
    method AppendPayload(p: Packet) returns (ok: bool)
      requires SlotOk(Value()) && |p| >= 40 && len > 33 && length + (|p| - 40) <= GRO_MAX_LEN
      modifies this
      ensures ok == AppendSlot(old(Value()), p).Some?
      ensures ok ==> Value() == AppendSlot(old(Value()), p).value
    {
      hide OrFinPsh, Fin, Psh, Low16, Low32;
      var payload := p[40..];
      var end := length + |payload|;
      store := store[..length] + payload + store[end..];
      len, length := end, end;
      segs := segs + 1;
      nextSeq := Low32(nextSeq + |payload|);
      nextID := Low16(nextID + 1);
      if Fin(p[33]) || Psh(p[33]) {
        if len <= 33 {
          return false;
        }
        store := store[33 := OrFinPsh(store[33], p[33])];
        closed := true;
      }
      if |payload| < gsoSize {
        closed := true;
      }
      return true;
    }

    /** Zero the header checksum where it lies, sum the header, store the complement. */
    method StoreHeaderChecksum()
      requires |store| >= 20
      modifies this`store
      ensures store == WithIpChecksum(old(store), 20)
    {
      hide WordSum, Fold, Be16;
      store := Put16(store, 10, 0);
      var sum := OnesComplementSum(0, store[..20]);
      SumFits(0, store[..20]);
      var folded := FoldSum(sum);
      store := Put16(store, 10, 0xffff - folded);
    }

    /** The uncomplemented pseudo-header sum of a TCP frame of the given length goes into its checksum field. */
    method StorePseudoSum(frameLen: nat)
      requires |store| >= 38 && 20 <= frameLen <= GRO_MAX_LEN
      modifies this`store
      ensures store == Put16(old(store), 36, Fold(WordSum(old(store)[12..20]) + PROTO_TCP + (frameLen - 20)))
    {
      hide WordSum, Fold, Be16;
      var sum := OnesComplementSum(0, store[12..20]);
      SumFits(0, store[12..20]);
      SumFits(PROTO_TCP + (frameLen - 20), store[12..20]);
      var folded := FoldSum(Low32(sum + PROTO_TCP + (frameLen - 20)));
      store := Put16(store, 36, folded);
    }

    /** The rewrite of a coalesced frame where it lies: total length, IP checksum, pseudo-header sum. */
    method RewriteFrame()
      requires SlotOk(Value()) && segs > 1
      modifies this`store
      ensures store == FlushedStore(old(Value()))
    {
      hide WithIpChecksum, Put16, WordSum, Fold;
      RewriteInPlace(Value());
      store := Put16(store, 2, Low16(length));
      StoreHeaderChecksum();
      StorePseudoSum(length);
    }

    method Flush(tun: Tun)
      requires SlotOk(Value())
      modifies this, tun
      ensures Value() == FlushSlot(old(Value())) && tun.out == old(tun.out) + SlotWrites(old(Value()))
    {
      hide FlushedStore;
      if segs == 0 {
        return;
      }
      if segs > 1 {
        RewriteFrame();
        tun.Put(Gso(VirtioNetHdr(VNET_NEEDS_CSUM, VNET_GSO_TCPV4, 40, Low16(gsoSize), 20, 16), store[..length]));
      } else {
        tun.Put(Plain(store[..length]));
      }
      segs, length := 0, 0;
    }
  }

  /** Rewriting inside the store is rewriting the frame and leaving the rest. */
  lemma RewriteInPlace(s: Slot)
    requires SlotOk(s) && s.segs > 1
    ensures var y := WithIpChecksum(Put16(s.store, 2, Low16(s.length)), 20);
      FlushedStore(s) == Put16(y, 36, Fold(WordSum(y[12..20]) + PROTO_TCP + (s.length - 20)))
  {
    hide WithIpChecksum, Put16, WordSum, Fold;
    var frame, rest := s.store[..s.length], s.store[s.length..];
    assert s.store == frame + rest;
    PutInPlace(frame, rest, 2, Low16(s.length));
    IpChecksumInPlace(Put16(frame, 2, Low16(s.length)), rest);
    var f := WithIpChecksum(Put16(frame, 2, Low16(s.length)), 20);
    assert (f + rest)[12..20] == f[12..20];
  }

  /** Twenty octets and a frame length cannot wrap a 32-bit sum. */
  lemma SumFits(acc: nat, b: Packet)
    requires acc <= 0x1_0000 && |b| <= 20
    ensures Low32(acc + WordSum(b)) == acc + WordSum(b)
  {
    hide WordSum;
    NoOverflow(acc, b);
    Low32Id(acc + WordSum(b));
  }

  /** What add came to: taken into the table, left for the caller to write through, or an index panic. */
  datatype Added = Taken | Declined | Panicked

  class GroTable {
    var groups: seq<GroGroup>
    var n: nat
    ghost var slots: seq<Slot>

    /** The groups are distinct objects in good order, and slots lists their values; the first n are in use. */
    ghost predicate Valid()
      reads this, groups
    {
      && n <= |groups| == |slots| && SlotsOk(slots)
      && (forall i, j :: 0 <= i < j < |groups| ==> groups[i] != groups[j])
      && (forall i :: 0 <= i < |groups| ==> groups[i].Value() == slots[i])
    }

    /** The table and the writes as one state. */
    ghost function View(tun: Tun): (f: Full)
      reads this, tun
    {
      Full(slots, n, tun.out, false)
    }

    constructor ()
      ensures Valid() && groups == [] && n == 0
    {
      groups, n, slots := [], 0, [];
    }

    method Reset()
      requires Valid()
      modifies this`n
      ensures Valid() && n == 0
    {
      n := 0;
    }

    /** grab: the next group to use, a spare one when there is one. */
    method Grab()
      requires Valid()
      modifies this
      ensures Valid() && n == old(n) + 1
      ensures forall k :: 0 <= k < |groups| ==> groups[k] in old(groups) || fresh(groups[k])
      ensures slots == if old(n) == |old(slots)| then old(slots) + [NewSlot()] else old(slots)
    {
      hide NewSlot, SlotOk;
      if n == |groups| {
        var g := new GroGroup();
        groups, slots := groups + [g], slots + [g.Value()];
      }
      n := n + 1;
    }

    /** start on group j. */
    method StartAt(j: nat, p: Packet)
      requires Valid() && j < n && 40 <= |p| <= GRO_MAX_LEN
      modifies this`slots, groups
      ensures Valid() && slots == old(slots)[j := StartSlot(old(slots)[j], p)]
    {
      hide StartSlot, SlotOk;
      groups[j].StartWith(p);
      slots := slots[j := StartSlot(slots[j], p)];
    }

    /** grab and start together: a group for a new flow. */
    method Open(tun: Tun, p: Packet)
      requires Valid() && 40 <= |p| <= GRO_MAX_LEN
      modifies this, groups
      ensures Valid() && View(tun) == OpenSlot(old(View(tun)), p)
      ensures forall k :: 0 <= k < |groups| ==> groups[k] in old(groups) || fresh(groups[k])
    {
      hide StartSlot, NewSlot, SlotOk;
      Grab();
      StartAt(n - 1, p);
    }

    method FlushGroup(tun: Tun, j: nat)
      requires Valid() && j < n
      modifies this`slots, groups, tun
      ensures Valid() && View(tun) == FlushSlotAt(old(View(tun)), j)
    {
      hide FlushSlot, SlotWrites, SlotOk;
      groups[j].Flush(tun);
      slots := slots[j := FlushSlot(slots[j])];
    }

    method FindFlow(tun: Tun, key: Packet) returns (j: nat)
      requires Valid()
      ensures j == FindSlot(View(tun), key, 0)
    {
      hide SlotOk;
      j := 0;
      while j < n && !SameFlow(groups[j].Value(), key)
        invariant j <= n
        invariant FindSlot(View(tun), key, 0) == FindSlot(View(tun), key, j)
      {
        j := j + 1;
      }
    }

    method FlushSameFlow(tun: Tun, p: Packet)
      requires Valid()
      modifies this`slots, groups, tun
      ensures Valid() && View(tun) == FlushFlow(old(View(tun)), p)
    {
      hide FlushSlotAt, SlotOk;
      if FlowKey(p).None? {
        return;
      }
      var key := FlowKey(p).value;
      var j := 0;
      while j < n
        invariant j <= n && Valid() && View(tun) == old(View(tun))
        invariant FindLiveSlot(View(tun), key, 0) == FindLiveSlot(View(tun), key, j)
      {
        if groups[j].segs > 0 && SameFlow(groups[j].Value(), key) {
          FlushGroup(tun, j);
          return;
        }
        j := j + 1;
      }
    }

    /** append on group j; false is an index panic. */
    method AppendAt(j: nat, p: Packet) returns (ok: bool)
      requires Valid() && j < n && |p| >= 40 && CanAppendSlot(slots[j], p) == Some(true)
      modifies this`slots, groups
      ensures ok == AppendSlot(old(slots)[j], p).Some?
      ensures ok ==> Valid() && slots == old(slots)[j := AppendSlot(old(slots)[j], p).value]
    {
      hide AppendSlot, SlotOk, CanAppendSlot;
      ok := groups[j].AppendPayload(p);
      if ok {
        slots := slots[j := AppendSlot(slots[j], p).value];
      }
    }

    /** The flow has group j: append to it, or flush it and start over; false is an index panic. */
    method MergeAt(tun: Tun, j: nat, p: Packet) returns (ok: bool)
      requires Valid() && j < n && 40 <= |p| <= GRO_MAX_LEN
      modifies this`slots, groups, tun
      ensures ok == !MergeSlot(old(View(tun)), j, p).down
      ensures ok ==> Valid() && View(tun) == MergeSlot(old(View(tun)), j, p)
      ensures !ok ==> tun.out == old(tun.out)
    {
      hide StartSlot, AppendSlot, FlushSlot, SlotWrites, CanAppendSlot, SlotOk;
      var may := groups[j].MayAppend(p);
      if may.None? {
        return false;
      }
      if may.value {
        ok := AppendAt(j, p);
        return;
      }
      FlushGroup(tun, j);
      StartAt(j, p);
      return true;
    }

    method Add(tun: Tun, p: Packet) returns (r: Added)
      requires Valid()
      modifies this, groups, tun
      ensures forall k :: 0 <= k < |groups| ==> groups[k] in old(groups) || fresh(groups[k])
      ensures r.Panicked? <==> FullStep(old(View(tun)), p).down
      ensures r.Panicked? ==> tun.out == old(tun.out)
      ensures !r.Panicked? ==> Valid()
      ensures r.Taken? ==> View(tun) == FullStep(old(View(tun)), p)
      ensures r.Declined? ==> View(tun).(out := tun.out + [Plain(p)]) == FullStep(old(View(tun)), p)
    {
      hide Eligible, FindSlot, OpenSlot, MergeSlot, FlushFlow, SlotOk;
      if !Eligible(p) {
        FlushSameFlow(tun, p);
        return Declined;
      }
      EligibleLength(p);
      var j := FindFlow(tun, p[12..24]);
      if j == n {
        Open(tun, p);
        OpenStays(old(View(tun)), p);
        return Taken;
      }
      var ok := MergeAt(tun, j, p);
      return if ok then Taken else Panicked;
    }

    /** One packet of the batch, written through when the table declines it; false is an index panic. */
    method Offer(tun: Tun, p: Packet) returns (ok: bool)
      requires Valid()
      modifies this, groups, tun
      ensures forall k :: 0 <= k < |groups| ==> groups[k] in old(groups) || fresh(groups[k])
      ensures ok == !FullStep(old(View(tun)), p).down
      ensures ok ==> Valid() && View(tun) == FullStep(old(View(tun)), p)
      ensures !ok ==> tun.out == old(tun.out)
    {
      hide FullStep, SlotOk;
      var r := Add(tun, p);
      if r.Panicked? {
        return false;
      }
      if r.Declined? {
        tun.Put(Plain(p));
      }
      return true;
    }

    /** The loop that ends the batch. */
    method FlushGroups(tun: Tun)
      requires Valid()
      modifies this`slots, groups, tun
      ensures Valid() && tun.out == old(tun.out) + FlushSlots(old(slots), n)
    {
      hide SlotWrites, FlushSlot, SlotOk, FlushSlots;
      ghost var was := slots;
      NothingFlushed(was);
      var j := 0;
      while j < n
        invariant 0 <= j <= n <= |was| && Valid() && |slots| == |was|
        invariant forall k :: j <= k < |slots| ==> slots[k] == was[k]
        invariant tun.out == old(tun.out) + FlushSlots(was, j)
      {
        FlushOneMore(was, j);
        FlushGroup(tun, j);
        j := j + 1;
      }
    }
  }

  lemma NothingFlushed(slots: seq<Slot>)
    requires SlotsOk(slots)
    ensures FlushSlots(slots, 0) == []
  {
  }

  lemma FlushOneMore(slots: seq<Slot>, j: nat)
    requires SlotsOk(slots) && j < |slots|
    ensures FlushSlots(slots, j + 1) == FlushSlots(slots, j) + SlotWrites(slots[j])
  {
    hide SlotWrites;
  }

  lemma OpenStays(f: Full, p: Packet)
    requires FullOk(f) && 40 <= |p| <= GRO_MAX_LEN
    ensures OpenSlot(f, p).down == f.down
  {
    hide SlotOk, StartSlot, NewSlot;
  }
}
