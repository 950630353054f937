/**
 The TUN close protocol (dataplane/tun_linux.go) as interleaved steps: readers and writers
 retrying device calls and parking in poll, and Close latching, waking, locking and closing.
 Each element of `threads` is one call in progress, so any number of calls may overlap.
 */
module TunClose {

  /** What a device call hands back: interrupted, nothing ready, or anything that ends the call. */
  datatype Outcome = Eintr | Eagain | Finished

  /** What the poll guard hands back: interrupted, refused because closed, or the wake descriptor's readiness. */
  datatype PollOutcome = PollEintr | PollClosed | PollReady(wake: bool)

  datatype Pc =
    | Try                          // about to take the read lock for a device call
    | TryLocked                    // holds it; has not looked at `closed`
    | InDevice                     // holds it; read(2), write(2) or writev(2) on the device
    | TryResult(o: Outcome)        // holds it; about to release and dispatch
    | Wait                         // about to take the read lock for poll
    | WaitLocked
    | InPoll                       // holds it; parked in poll(2) on device and wake
    | PollResult(p: PollOutcome)
    | Judge(wake: bool)            // released; about to test `closed` or the wake revents
    | CloseCall                    // about to swap `closed`
    | Latched                      // won the swap; about to write the wake descriptor
    | Woken                        // about to ask for the exclusive lock
    | Pending                      // announced; waits for readers to drain, new readers wait for it
    | Holding                      // exclusive; about to close the device
    | FdClosed                     // about to close the wake descriptor
    | WakeClosed                   // about to unlock and return
    | Returned

  datatype State = State(threads: seq<Pc>, closed: bool, wakeLatched: bool,
                         fdOpen: bool, wakeOpen: bool, fdCloses: nat, wakeCloses: nat)

  predicate HoldsRead(pc: Pc)
  {
    pc.TryLocked? || pc.InDevice? || pc.TryResult? || pc.WaitLocked? || pc.InPoll? || pc.PollResult?
  }

  predicate HoldsWrite(pc: Pc) { pc.Holding? || pc.FdClosed? || pc.WakeClosed? }

  /** The one Close that won the swap, anywhere in its body. */
  predicate Closer(pc: Pc) { pc.Latched? || pc.Woken? || pc.Pending? || HoldsWrite(pc) }

  predicate SomePendingOrWriter(s: State)
  {
    exists t :: 0 <= t < |s.threads| && (s.threads[t].Pending? || HoldsWrite(s.threads[t]))
  }

  predicate SomeReader(s: State) { exists t :: 0 <= t < |s.threads| && HoldsRead(s.threads[t]) }

  predicate Init(s: State)
  {
    && (forall t :: 0 <= t < |s.threads| ==> s.threads[t].Try? || s.threads[t].CloseCall?)
    && !s.closed && !s.wakeLatched && s.fdOpen && s.wakeOpen && s.fdCloses == 0 && s.wakeCloses == 0
  }

  /** Where thread t's next step may take it, given the shared state; the shared effects follow in After. */
  predicate Moves(s: State, t: nat, pc': Pc)
    requires t < |s.threads|
  {
    match s.threads[t]
    case Try => pc'.TryLocked? && !SomePendingOrWriter(s)
    case TryLocked => if s.closed then pc' == TryResult(Finished) else pc'.InDevice?
    case InDevice => pc'.TryResult?
    case TryResult(o) => pc' == (match o case Eintr => Try case Eagain => Wait case Finished => Returned)
    case Wait => pc'.WaitLocked? && !SomePendingOrWriter(s)
    case WaitLocked => if s.closed then pc' == PollResult(PollClosed) else pc'.InPoll?
    case InPoll => pc' == PollResult(PollEintr) || pc' == PollResult(PollReady(s.wakeLatched))
    case PollResult(p) =>
      pc' == (match p case PollEintr => Wait case PollClosed => Returned case PollReady(w) => Judge(w))
    case Judge(w) => pc' == if s.closed || w then Returned else Try
    case CloseCall => pc' == if s.closed then Returned else Latched
    case Latched => pc'.Woken?
    case Woken => pc'.Pending?
    case Pending => pc'.Holding? && !SomeReader(s)
    case Holding => pc'.FdClosed?
    case FdClosed => pc'.WakeClosed?
    case WakeClosed => pc'.Returned?
    case Returned => false
  }

  /** The state after thread t moves to pc'. */
  function After(s: State, t: nat, pc': Pc): (r: State)
    requires t < |s.threads|
  {
    var r := s.(threads := s.threads[t := pc']);
    match s.threads[t]
    case CloseCall => r.(closed := true)
    case Latched => r.(wakeLatched := true)
    case Holding => r.(fdOpen := false, fdCloses := s.fdCloses + 1)
    case FdClosed => r.(wakeOpen := false, wakeCloses := s.wakeCloses + 1)
    case _ => r
  }

  /** Every descriptor thread t's next system call names is open. */
  predicate CallsOpen(s: State, pc: Pc)
  {
    && (pc.InDevice? || pc.Holding? ==> s.fdOpen)
    && (pc.InPoll? ==> s.fdOpen && s.wakeOpen)
    && (pc.Latched? || pc.FdClosed? ==> s.wakeOpen)
  }

  predicate Safe(s: State)
  {
    && (forall t :: 0 <= t < |s.threads| ==> CallsOpen(s, s.threads[t]))
    && s.fdCloses == (if s.fdOpen then 0 else 1)
    && s.wakeCloses == (if s.wakeOpen then 0 else 1)
  }

  predicate CloserAt(s: State, pc: Pc)
  {
    && s.closed
    && (!pc.Latched? ==> s.wakeLatched)
    && s.fdOpen == (pc.Latched? || pc.Woken? || pc.Pending? || pc.Holding?)
    && s.wakeOpen == !pc.WakeClosed?
  }

  /** At most one Close is past the swap, and the shared state says how far it has got. */
  predicate OneCloser(s: State)
  {
    && (forall t :: 0 <= t < |s.threads| && Closer(s.threads[t]) ==> CloserAt(s, s.threads[t]))
    && (forall t, u :: 0 <= t < |s.threads| && 0 <= u < |s.threads| && Closer(s.threads[t]) && Closer(s.threads[u]) ==> t == u)
  }

  predicate Exclusion(s: State)
  {
    forall t, u :: 0 <= t < |s.threads| && 0 <= u < |s.threads| && HoldsWrite(s.threads[t]) ==> !HoldsRead(s.threads[u])
  }

  predicate Descriptors(s: State)
  {
    && (!s.closed ==> s.fdOpen && s.wakeOpen)
    && (s.closed && (forall t :: 0 <= t < |s.threads| ==> !Closer(s.threads[t])) ==> s.wakeLatched && !s.fdOpen && !s.wakeOpen)
  }

  predicate Inv(s: State) { Safe(s) && OneCloser(s) && Exclusion(s) && Descriptors(s) }

  lemma InitInv(s: State)
    requires Init(s)
    ensures Inv(s)
  {
  }

  lemma StepInv(s: State, t: nat, pc': Pc)
    requires Inv(s) && t < |s.threads| && Moves(s, t, pc')
    ensures Inv(After(s, t, pc'))
  {
    hide Safe, OneCloser, Exclusion, Descriptors, Moves, After;
    StepSafe(s, t, pc');
    StepOneCloser(s, t, pc');
    StepExclusion(s, t, pc');
    StepDescriptors(s, t, pc');
  }

  lemma StepSafe(s: State, t: nat, pc': Pc)
    requires Inv(s) && t < |s.threads| && Moves(s, t, pc')
    ensures Safe(After(s, t, pc'))
  {
    var r := After(s, t, pc');
    assert CallsOpen(s, s.threads[t]);
    if s.threads[t].Holding? || s.threads[t].FdClosed? {
      forall u | 0 <= u < |r.threads| ensures CallsOpen(r, r.threads[u]) {
        assert CallsOpen(s, s.threads[u]) && !HoldsRead(s.threads[u]);
        assert u != t ==> !Closer(s.threads[u]);
      }
    } else {
      forall u | 0 <= u < |r.threads| ensures CallsOpen(r, r.threads[u]) {
        assert CallsOpen(s, s.threads[u]);
      }
    }
  }

  lemma AfterThreads(s: State, t: nat, pc': Pc)
    requires t < |s.threads|
    ensures After(s, t, pc').threads == s.threads[t := pc']
  {
  }

  /** A step of the closer moves the shared state along with it; a step of anyone else leaves it alone. */
  lemma CloserStep(s: State, t: nat, pc': Pc)
    requires t < |s.threads| && Moves(s, t, pc')
    ensures var pc, r := s.threads[t], After(s, t, pc');
      && (Closer(pc) && CloserAt(s, pc) && Closer(pc') ==> CloserAt(r, pc'))
      && (pc.CloseCall? && !s.closed && s.fdOpen && s.wakeOpen ==> CloserAt(r, pc'))
      && (!Closer(pc) && !(pc.CloseCall? && !s.closed) ==>
            !Closer(pc') && r.(threads := s.threads) == s)
  {
    hide SomePendingOrWriter, SomeReader;
  }

  lemma SameShared(s: State, r: State, pc: Pc)
    requires r.(threads := s.threads) == s
    ensures CloserAt(r, pc) == CloserAt(s, pc)
  {
  }

  /** Before anyone has won the swap there is no closer. */
  lemma NobodyYet(s: State, u: nat)
    requires OneCloser(s) && !s.closed && u < |s.threads|
    ensures !Closer(s.threads[u])
  {
    assert Closer(s.threads[u]) ==> CloserAt(s, s.threads[u]);
  }

  lemma StepOneCloser(s: State, t: nat, pc': Pc)
    requires OneCloser(s) && Descriptors(s) && t < |s.threads| && Moves(s, t, pc')
    ensures OneCloser(After(s, t, pc'))
  {
    hide Moves, After, CloserAt, Closer;
    var r := After(s, t, pc');
    AfterThreads(s, t, pc');
    CloserStep(s, t, pc');
    if Closer(s.threads[t]) || (s.threads[t].CloseCall? && !s.closed) {
      forall u | 0 <= u < |r.threads| && Closer(r.threads[u]) ensures u == t && CloserAt(r, r.threads[u]) {
        if !s.closed { NobodyYet(s, u); NobodyYet(s, t); }
      }
    } else {
      forall u | 0 <= u < |r.threads| && Closer(r.threads[u]) ensures CloserAt(r, r.threads[u]) && u != t {
        SameShared(s, r, r.threads[u]);
      }
    }
  }

  /** A lock is newly held only when the other side does not hold it. */
  lemma LockStep(s: State, t: nat, pc': Pc)
    requires t < |s.threads| && Moves(s, t, pc')
    ensures HoldsWrite(pc') ==> !HoldsRead(pc') && (HoldsWrite(s.threads[t]) || !SomeReader(s))
    ensures HoldsRead(pc') ==> HoldsRead(s.threads[t]) || !SomePendingOrWriter(s)
  {
    hide SomePendingOrWriter, SomeReader;
  }

  lemma StepExclusion(s: State, t: nat, pc': Pc)
    requires Exclusion(s) && t < |s.threads| && Moves(s, t, pc')
    ensures Exclusion(After(s, t, pc'))
  {
    hide Moves, After, HoldsRead, HoldsWrite;
    var r := After(s, t, pc');
    AfterThreads(s, t, pc');
    LockStep(s, t, pc');
    forall x, u | 0 <= x < |r.threads| && 0 <= u < |r.threads| && HoldsWrite(r.threads[x]) ensures !HoldsRead(r.threads[u]) {
      if x != t {
        assert HoldsWrite(s.threads[x]) && !HoldsRead(s.threads[u]) && !HoldsRead(s.threads[t]);
      } else if u != t && HoldsWrite(s.threads[t]) {
        assert !HoldsRead(s.threads[u]);
      }
    }
  }

  lemma StepDescriptors(s: State, t: nat, pc': Pc)
    requires OneCloser(s) && Descriptors(s) && t < |s.threads| && Moves(s, t, pc')
    ensures Descriptors(After(s, t, pc'))
  {
    hide SomePendingOrWriter, SomeReader;
    var r := After(s, t, pc');
    assert r.threads[t] == pc';
    if r.closed && (forall u :: 0 <= u < |r.threads| ==> !Closer(r.threads[u])) {
      if Closer(s.threads[t]) {
        assert CloserAt(s, s.threads[t]);
      } else {
        assert forall u :: 0 <= u < |s.threads| && u != t ==> r.threads[u] == s.threads[u];
      }
    }
  }

  // ---------- runs ----------

  datatype Event = Event(t: nat, to: Pc)

  /** s' is reached from s by the given steps, in any interleaving the guards allow. */
  predicate Reaches(s: State, run: seq<Event>, s': State)
    decreases |run|
  {
    if run == [] then s' == s
    else
      var e := run[0];
      e.t < |s.threads| && Moves(s, e.t, e.to) && Reaches(After(s, e.t, e.to), run[1..], s')
  }

  lemma {:induction false} RunInv(s: State, run: seq<Event>, s': State)
    requires Inv(s) && Reaches(s, run, s')
    ensures Inv(s')
    decreases |run|
  {
    hide Inv, Moves, After;
    if run != [] {
      StepInv(s, run[0].t, run[0].to);
      RunInv(After(s, run[0].t, run[0].to), run[1..], s');
    }
  }

  /** In every reachable state no call names a closed descriptor, and each was closed at most once. */
  lemma NeverUsesClosed(s: State, run: seq<Event>, s': State)
    requires Init(s) && Reaches(s, run, s')
    ensures Safe(s')
  {
    InitInv(s);
    RunInv(s, run, s');
  }

  // ---------- progress ----------

  /** Steps a call can still take once the device is closed. */
  function Rank(pc: Pc): (r: nat)
  {
    match pc
    case Returned => 0
    case TryResult(o) => if o.Finished? then 1 else 4
    case TryLocked => 2
    case Try => 3
    case InDevice => 5
    case Judge(_) => 1
    case PollResult(p) => (match p case PollEintr => 4 case PollClosed => 1 case PollReady(_) => 2)
    case WaitLocked => 2
    case Wait => 3
    case InPoll => 5
    case CloseCall => 1
    case Latched => 6
    case Woken => 5
    case Pending => 4
    case Holding => 3
    case FdClosed => 2
    case WakeClosed => 1
  }

  function TotalRank(threads: seq<Pc>): (r: nat)
  {
    if threads == [] then 0 else Rank(threads[0]) + TotalRank(threads[1..])
  }

  lemma {:induction false} TotalRankUpdate(threads: seq<Pc>, t: nat, pc': Pc)
    requires t < |threads|
    ensures TotalRank(threads[t := pc']) == TotalRank(threads) - Rank(threads[t]) + Rank(pc')
    decreases |threads|
  {
    hide Rank;
    if t > 0 {
      assert threads[t := pc'][1..] == threads[1..][t - 1 := pc'];
      TotalRankUpdate(threads[1..], t - 1, pc');
    }
  }

  /** Once Close has latched, every step of every thread lowers the rank. */
  lemma StepDescends(s: State, t: nat, pc': Pc)
    requires s.closed && t < |s.threads| && Moves(s, t, pc')
    ensures After(s, t, pc').closed && TotalRank(After(s, t, pc').threads) < TotalRank(s.threads)
  {
    hide Moves, After, TotalRank, Rank;
    TotalRankUpdate(s.threads, t, pc');
    AfterThreads(s, t, pc');
    RankStep(s, t, pc');
  }

  lemma RankStep(s: State, t: nat, pc': Pc)
    requires s.closed && t < |s.threads| && Moves(s, t, pc')
    ensures After(s, t, pc').closed && Rank(pc') < Rank(s.threads[t])
  {
    hide SomePendingOrWriter, SomeReader;
  }

  /** So at most TotalRank further steps are possible, whatever the scheduler does. */
  lemma {:induction false} BoundedAfterClose(s: State, run: seq<Event>, s': State)
    requires s.closed && Reaches(s, run, s')
    ensures s'.closed && |run| + TotalRank(s'.threads) <= TotalRank(s.threads)
    decreases |run|
  {
    hide Moves, After, TotalRank;
    if run != [] {
      StepDescends(s, run[0].t, run[0].to);
      BoundedAfterClose(After(s, run[0].t, run[0].to), run[1..], s');
    }
  }

  /** Thread t can move without the device becoming ready or a signal arriving. */
  predicate CanMove(s: State, t: nat)
    requires t < |s.threads|
  {
    match s.threads[t]
    case Try => !SomePendingOrWriter(s)
    case Wait => !SomePendingOrWriter(s)
    case InPoll => s.wakeLatched
    case Pending => !SomeReader(s)
    case Returned => false
    case _ => true
  }

  lemma CanMoveMoves(s: State, t: nat) returns (pc': Pc)
    requires t < |s.threads| && CanMove(s, t)
    ensures Moves(s, t, pc')
  {
    pc' := match s.threads[t]
      case Try => TryLocked
      case TryLocked => (if s.closed then TryResult(Finished) else InDevice)
      case InDevice => TryResult(Finished)
      case TryResult(o) => (match o case Eintr => Try case Eagain => Wait case Finished => Returned)
      case Wait => WaitLocked
      case WaitLocked => (if s.closed then PollResult(PollClosed) else InPoll)
      case InPoll => PollResult(PollReady(s.wakeLatched))
      case PollResult(p) => (match p case PollEintr => Wait case PollClosed => Returned case PollReady(w) => Judge(w))
      case Judge(w) => (if s.closed || w then Returned else Try)
      case CloseCall => (if s.closed then Returned else Latched)
      case Latched => Woken
      case Woken => Pending
      case Pending => Holding
      case Holding => FdClosed
      case FdClosed => WakeClosed
      case WakeClosed => Returned
      case Returned => Returned;
  }

  /** After the latch the protocol cannot deadlock: while any call is unfinished, some call can move. */
  lemma NoDeadlock(s: State) returns (t: nat)
    requires Inv(s) && s.closed && exists u :: 0 <= u < |s.threads| && !s.threads[u].Returned?
    ensures t < |s.threads| && CanMove(s, t)
  {
    if c :| 0 <= c < |s.threads| && Closer(s.threads[c]) {
      if s.threads[c].Pending? && SomeReader(s) {
        t :| 0 <= t < |s.threads| && HoldsRead(s.threads[t]);
      } else {
        t := c;
      }
    } else {
      t :| 0 <= t < |s.threads| && !s.threads[t].Returned?;
    }
  }

  /** When nothing can move any more every call has returned and both descriptors are closed exactly once. */
  lemma QuiescentIsClosed(s: State)
    requires Inv(s) && s.closed && forall t :: 0 <= t < |s.threads| ==> !CanMove(s, t)
    ensures (forall t :: 0 <= t < |s.threads| ==> s.threads[t].Returned?)
    ensures !s.fdOpen && !s.wakeOpen && s.fdCloses == 1 && s.wakeCloses == 1
  {
    if exists u :: 0 <= u < |s.threads| && !s.threads[u].Returned? {
      var t := NoDeadlock(s);
    }
  }

  /** From any reachable latched state some schedule of at most TotalRank steps finishes every call. */
  lemma {:induction false} CloseCompletes(s: State) returns (run: seq<Event>, s': State)
    requires Inv(s) && s.closed
    ensures Reaches(s, run, s') && |run| <= TotalRank(s.threads)
    ensures forall t :: 0 <= t < |s'.threads| ==> s'.threads[t].Returned?
    ensures !s'.fdOpen && !s'.wakeOpen && s'.fdCloses == 1 && s'.wakeCloses == 1
    decreases TotalRank(s.threads)
  {
    hide Moves, After, Inv, TotalRank, CanMove;
    if exists u :: 0 <= u < |s.threads| && !s.threads[u].Returned? {
      var t := NoDeadlock(s);
      var pc' := CanMoveMoves(s, t);
      StepInv(s, t, pc');
      StepDescends(s, t, pc');
      var rest: seq<Event>;
      rest, s' := CloseCompletes(After(s, t, pc'));
      run := [Event(t, pc')] + rest;
      assert run[1..] == rest;
    } else {
      run, s' := [], s;
      AllReturned(s);
    }
  }

  lemma AllReturned(s: State)
    requires Inv(s) && s.closed && forall t :: 0 <= t < |s.threads| ==> s.threads[t].Returned?
    ensures !s.fdOpen && !s.wakeOpen && s.fdCloses == 1 && s.wakeCloses == 1
  {
  }
}
