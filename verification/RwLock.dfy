/** The shared-memory reader/writer lock: any number of processes, each a program that tests the lock
    word without protection, takes a compare-and-set mutex, tests again, updates and unlocks; every
    read and write of a shared word is a step of its own and steps interleave freely. */
module RwLock {

  datatype Op = ReserveRead | ReleaseRead | ReserveWrite | ReleaseWrite

  datatype Pc =
    | Idle
    | Check(op: Op)               // the unprotected test
    | Check2(op: Op)              // a release of a read reservation reads the lock word again
    | Lock(op: Op)                // spinning on the mutex
    | Recheck(op: Op)             // the test under the mutex
    | Recheck2(op: Op)
    | Load(op: Op)                // first half of lock++ or lock--
    | Store(op: Op, v: int)
    | SetPid(op: Op)
    | Unlock(op: Op, done: bool)

  /** A process: where it is, how many read reservations it holds, whether it holds the write one. */
  datatype Proc = Proc(pc: Pc, readHolds: nat, writeHold: bool)

  /** The shared words, and the processes; the pid of process `i` is `i + 1`. */
  datatype State = State(lock: int, mutex: nat, writePid: nat, procs: seq<Proc>)

  const WRITE := -1

  /** The first read of a test, and what the whole test asks for. */
  predicate FirstTest(op: Op, lock: int) {
    match op
    case ReserveRead => lock != WRITE
    case ReleaseRead => lock != WRITE
    case ReserveWrite => lock == 0
    case ReleaseWrite => lock == WRITE
  }

  predicate Guard(op: Op, lock: int) {
    FirstTest(op, lock) && (op == ReleaseRead ==> lock != 0)
  }

  predicate IsRelease(op: Op) {
    op == ReleaseRead || op == ReleaseWrite
  }

  /** Only a holder releases. */
  predicate MayCall(p: Proc, op: Op) {
    p.pc == Idle && (op == ReleaseRead ==> p.readHolds > 0) && (op == ReleaseWrite ==> p.writeHold)
  }

  /** What returning from a successful call means for its process. */
  function Finished(p: Proc, op: Op): Proc {
    match op
    case ReserveRead => Proc(Idle, p.readHolds + 1, p.writeHold)
    case ReleaseRead => Proc(Idle, if p.readHolds > 0 then p.readHolds - 1 else 0, p.writeHold)
    case ReserveWrite => Proc(Idle, p.readHolds, true)
    case ReleaseWrite => Proc(Idle, p.readHolds, false)
  }

  /** One atomic step of process `i`; `op` is the call it makes when it is idle. */
  function Step(st: State, i: nat, op: Op): State
    requires i < |st.procs|
  {
    var p := st.procs[i];
    var pid := i + 1;
    match p.pc
    case Idle =>
      if MayCall(p, op) then Goto(st, i, Check(op)) else st
    case Check(o) =>
      if FirstTest(o, st.lock) then Goto(st, i, if o == ReleaseRead then Check2(o) else Lock(o))
      else if IsRelease(o) then Goto(st, i, Idle)
      else st
    case Check2(o) =>
      Goto(st, i, if st.lock != 0 then Lock(o) else Idle)
    case Lock(o) =>
      if st.mutex == 0 then Goto(st.(mutex := pid), i, Recheck(o)) else st
    case Recheck(o) =>
      if !FirstTest(o, st.lock) then Goto(st, i, Unlock(o, false))
      else if o == ReserveWrite then Goto(st, i, Store(o, WRITE))
      else if o == ReleaseWrite then Goto(st, i, Store(o, 0))
      else if o == ReleaseRead then Goto(st, i, Recheck2(o))
      else Goto(st, i, Load(o))
    case Recheck2(o) =>
      Goto(st, i, if st.lock != 0 then Load(o) else Unlock(o, false))
    case Load(o) =>
      Goto(st, i, Store(o, if o == ReserveRead then st.lock + 1 else st.lock - 1))
    case Store(o, v) =>
      Goto(st.(lock := v), i, if o == ReserveWrite || o == ReleaseWrite then SetPid(o) else Unlock(o, true))
    case SetPid(o) =>
      Goto(st.(writePid := if o == ReserveWrite then pid else 0), i, Unlock(o, true))
    case Unlock(o, done) =>
      var st1 := if st.mutex == pid then st.(mutex := 0) else st;
      if done then st1.(procs := st1.procs[i := Finished(p, o)])
      else Goto(st1, i, if IsRelease(o) then Idle else Check(o))
  }

  function Goto(st: State, i: nat, pc: Pc): State
    requires i < |st.procs|
  {
    st.(procs := st.procs[i := st.procs[i].(pc := pc)])
  }

  /** A schedule: which process moves, and what it calls if it is idle. */
  datatype Move = Move(i: nat, op: Op)

  function Init(n: nat): State {
    State(0, 0, 0, seq(n, _ => Proc(Idle, 0, false)))
  }

  function Run(st: State, moves: seq<Move>): State
    requires forall k :: 0 <= k < |moves| ==> moves[k].i < |st.procs|
    decreases |moves|
  {
    if moves == [] then st
    else Run(Step(st, moves[0].i, moves[0].op), moves[1..])
  }

  // ---- What is promised -----------------------------------------------------------------------------

  predicate InMutex(pc: Pc) {
    pc.Recheck? || pc.Recheck2? || pc.Load? || pc.Store? || pc.SetPid? || pc.Unlock?
  }

  /** Read reservations of a process that the lock word counts. */
  function Readers(p: Proc): int {
    if p.pc == Unlock(ReserveRead, true) then p.readHolds + 1
    else if p.pc == Unlock(ReleaseRead, true) then p.readHolds - 1
    else p.readHolds
  }

  /** Whether the lock word shows the write reservation of this process. */
  function Writers(p: Proc): int {
    if p.pc == SetPid(ReserveWrite) || p.pc == Unlock(ReserveWrite, true) then 1
    else if p.pc == SetPid(ReleaseWrite) || p.pc == Unlock(ReleaseWrite, true) then 0
    else if p.writeHold then 1 else 0
  }

  function SumReaders(ps: seq<Proc>): int {
    if ps == [] then 0 else Readers(ps[0]) + SumReaders(ps[1..])
  }

  function SumWriters(ps: seq<Proc>): int {
    if ps == [] then 0 else Writers(ps[0]) + SumWriters(ps[1..])
  }

  /** Facts about one process and the shared words. */
  predicate ProcOk(st: State, i: nat)
    requires i < |st.procs|
  {
    var p, pid := st.procs[i], i + 1;
    && (InMutex(p.pc) ==> st.mutex == pid)
    && (!p.pc.Idle? && p.pc.op == ReleaseRead ==> p.readHolds > 0)
    && (!p.pc.Idle? && p.pc.op == ReleaseWrite ==> p.writeHold)
    && (p.pc.Check2? || p.pc.Recheck2? ==> p.pc.op == ReleaseRead)
    && (p.pc.Recheck2? ==> st.lock != WRITE)
    && (p.pc.Load? ==> Guard(p.pc.op, st.lock) && (p.pc.op == ReserveRead || p.pc.op == ReleaseRead))
    && (p.pc.Store? ==> Guard(p.pc.op, st.lock) && p.pc.v == match p.pc.op
                                                             case ReserveRead => st.lock + 1
                                                             case ReleaseRead => st.lock - 1
                                                             case ReserveWrite => WRITE
                                                             case ReleaseWrite => 0)
    && (p.pc.SetPid? ==> p.pc.op == ReserveWrite || p.pc.op == ReleaseWrite)
    && (p.pc.Unlock? && IsRelease(p.pc.op) ==> p.pc.done)
    && (p.pc == Unlock(ReleaseRead, true) ==> st.lock != WRITE)
    && (p.pc == SetPid(ReleaseWrite) || p.pc == Unlock(ReleaseWrite, true) ==> st.lock == 0)
    && (p.pc.Unlock? && p.pc.op == ReserveWrite && p.pc.done ==> st.writePid == pid)
    && (p.writeHold && p.pc != Unlock(ReleaseWrite, true) ==> st.writePid == pid)
  }

  /** The lock word is the number of read reservations, or -1 for the one write reservation. */
  predicate LockWord(st: State) {
    if st.lock == WRITE then SumWriters(st.procs) == 1 && SumReaders(st.procs) == 0
    else st.lock >= 0 && SumWriters(st.procs) == 0 && SumReaders(st.procs) == st.lock
  }

  ghost predicate Inv(st: State) {
    && LockWord(st)
    && (forall i :: 0 <= i < |st.procs| ==> ProcOk(st, i))
    && (st.mutex == 0 || (st.mutex <= |st.procs| && InMutex(st.procs[st.mutex - 1].pc)))
  }

  // ---- Sums -----------------------------------------------------------------------------------------

  lemma {:induction false} SumUpdate(ps: seq<Proc>, i: nat, p: Proc)
    requires i < |ps|
    ensures SumReaders(ps[i := p]) == SumReaders(ps) - Readers(ps[i]) + Readers(p)
    ensures SumWriters(ps[i := p]) == SumWriters(ps) - Writers(ps[i]) + Writers(p)
    decreases i
  {
    if i == 0 {
      assert ps[0 := p][1..] == ps[1..];
    } else {
      SumUpdate(ps[1..], i - 1, p);
      assert ps[i := p][1..] == ps[1..][i - 1 := p];
    }
  }

  ghost predicate Counted(ps: seq<Proc>) {
    forall k :: 0 <= k < |ps| ==> Readers(ps[k]) >= 0
  }

  lemma {:induction false} SumBounds(ps: seq<Proc>)
    requires Counted(ps)
    ensures SumReaders(ps) >= 0 && SumWriters(ps) >= 0
    decreases |ps|
  {
    if ps != [] { SumBounds(ps[1..]); }
  }

  lemma {:induction false} SumAtLeast(ps: seq<Proc>, i: nat)
    requires i < |ps| && Counted(ps)
    ensures SumReaders(ps) >= Readers(ps[i]) && SumWriters(ps) >= Writers(ps[i])
    decreases i
  {
    SumBounds(ps[1..]);
    if i > 0 { SumAtLeast(ps[1..], i - 1); }
  }

  lemma {:induction false} SumTwo(ps: seq<Proc>, i: nat, j: nat)
    requires i < j < |ps| && Counted(ps)
    ensures SumWriters(ps) >= Writers(ps[i]) + Writers(ps[j])
    decreases i
  {
    SumBounds(ps[1..]);
    if i == 0 { SumAtLeast(ps[1..], j - 1); } else { SumTwo(ps[1..], i - 1, j - 1); }
  }

  // ---- Every step keeps the invariant ---------------------------------------------------------------

  lemma CountedInv(st: State)
    requires Inv(st)
    ensures Counted(st.procs)
  {
    forall k | 0 <= k < |st.procs| ensures Readers(st.procs[k]) >= 0 { assert ProcOk(st, k); }
  }

  /** Before or at a test. */
  predicate Testing(pc: Pc) {
    pc.Check? || pc.Check2? || pc.Lock? || pc.Recheck? || pc.Recheck2?
  }

  /** The test of a release, with or without the mutex, never fails for a holder. */
  lemma ReleaseGuard(st: State, i: nat)
    requires Inv(st) && i < |st.procs|
    requires Testing(st.procs[i].pc) && IsRelease(st.procs[i].pc.op)
    ensures Guard(st.procs[i].pc.op, st.lock)
  {
    assert ProcOk(st, i);
    CountedInv(st);
    SumAtLeast(st.procs, i);
  }

  lemma OneInMutex(st: State, i: nat, j: nat)
    requires Inv(st) && i < |st.procs| && j < |st.procs| && i != j && (InMutex(st.procs[i].pc) || st.mutex == 0)
    ensures !InMutex(st.procs[j].pc)
  {
    assert ProcOk(st, i) && ProcOk(st, j);
  }

  lemma StoreLockWord(st: State, i: nat, op: Op)
    requires Inv(st) && i < |st.procs| && st.procs[i].pc.Store?
    ensures LockWord(Step(st, i, op))
  {
    var st' := Step(st, i, op);
    assert ProcOk(st, i);
    SumUpdate(st.procs, i, st'.procs[i]);
    CountedInv(st);
    SumAtLeast(st.procs, i);
  }

  lemma SameCounts(st: State, i: nat, op: Op)
    requires i < |st.procs| && ProcOk(st, i) && !st.procs[i].pc.Store?
    ensures var p, p' := st.procs[i], Step(st, i, op).procs[i];
            Readers(p') == Readers(p) && Writers(p') == Writers(p)
  {
  }

  lemma SameOthers(st: State, i: nat, op: Op)
    requires i < |st.procs|
    ensures var st' := Step(st, i, op);
            st'.procs == st.procs[i := st'.procs[i]] && (!st.procs[i].pc.Store? ==> st'.lock == st.lock)
  {
  }

  lemma StepLockWord(st: State, i: nat, op: Op)
    requires Inv(st) && i < |st.procs|
    ensures LockWord(Step(st, i, op))
  {
    if st.procs[i].pc.Store? {
      StoreLockWord(st, i, op);
    } else {
      assert ProcOk(st, i);
      SameCounts(st, i, op);
      SameOthers(st, i, op);
      SumUpdate(st.procs, i, Step(st, i, op).procs[i]);
    }
  }

  lemma TestSelf(st: State, i: nat, op: Op)
    requires i < |st.procs| && ProcOk(st, i) && Testing(st.procs[i].pc)
    requires IsRelease(st.procs[i].pc.op) ==> Guard(st.procs[i].pc.op, st.lock)
    ensures ProcOk(Step(st, i, op), i)
  {
  }

  lemma UpdateSelf(st: State, i: nat, op: Op)
    requires i < |st.procs| && ProcOk(st, i) && !Testing(st.procs[i].pc)
    ensures ProcOk(Step(st, i, op), i)
  {
    match st.procs[i].pc
    case Idle =>
    case Load(o) =>
    case Store(o, v) =>
    case SetPid(o) =>
    case Unlock(o, done) =>
  }

  lemma StepSelf(st: State, i: nat, op: Op)
    requires i < |st.procs| && ProcOk(st, i)
    requires var pc := st.procs[i].pc; Testing(pc) && IsRelease(pc.op) ==> Guard(pc.op, st.lock)
    ensures ProcOk(Step(st, i, op), i)
  {
    if Testing(st.procs[i].pc) { TestSelf(st, i, op); } else { UpdateSelf(st, i, op); }
  }

  /** Steps of others do not disturb a process: who changes a shared word has the mutex. */
  lemma StepOther(st: State, i: nat, op: Op, j: nat)
    requires Inv(st) && i < |st.procs| && j < |st.procs| && i != j
    ensures ProcOk(Step(st, i, op), j)
  {
    var st' := Step(st, i, op);
    assert ProcOk(st, i) && ProcOk(st, j);
    assert st'.procs[j] == st.procs[j];
    if InMutex(st.procs[i].pc) || st.mutex == 0 { OneInMutex(st, i, j); }
    if st.procs[i].pc == SetPid(ReserveWrite) && st.procs[j].writeHold {
      CountedInv(st);
      if i < j { SumTwo(st.procs, i, j); } else { SumTwo(st.procs, j, i); }
      assert false;
    }
  }

  lemma StepInv(st: State, i: nat, op: Op)
    requires Inv(st) && i < |st.procs|
    ensures Inv(Step(st, i, op)) && |Step(st, i, op).procs| == |st.procs|
  {
    var st' := Step(st, i, op);
    var pc := st.procs[i].pc;
    assert ProcOk(st, i);
    if Testing(pc) && IsRelease(pc.op) { ReleaseGuard(st, i); }
    StepLockWord(st, i, op);
    forall j | 0 <= j < |st'.procs| ensures ProcOk(st', j) {
      if j == i { StepSelf(st, i, op); } else { StepOther(st, i, op, j); }
    }
    if st.mutex != 0 && st.mutex != i + 1 {
      assert st'.procs[st.mutex - 1] == st.procs[st.mutex - 1];
    }
  }

  // ---- Whole runs -----------------------------------------------------------------------------------

  lemma {:induction false} InitSums(n: nat)
    ensures SumReaders(Init(n).procs) == 0 && SumWriters(Init(n).procs) == 0
  {
    if n > 0 {
      InitSums(n - 1);
      assert Init(n).procs[1..] == Init(n - 1).procs;
    }
  }

  lemma {:induction false} RunInv(st: State, moves: seq<Move>)
    requires Inv(st) && forall k :: 0 <= k < |moves| ==> moves[k].i < |st.procs|
    ensures Inv(Run(st, moves)) && |Run(st, moves).procs| == |st.procs|
    decreases |moves|
  {
    if moves != [] {
      StepInv(st, moves[0].i, moves[0].op);
      RunInv(Step(st, moves[0].i, moves[0].op), moves[1..]);
    }
  }

  function Reached(n: nat, moves: seq<Move>): State
    requires forall k :: 0 <= k < |moves| ==> moves[k].i < n
  {
    Run(Init(n), moves)
  }

  lemma ReachedInv(n: nat, moves: seq<Move>)
    requires forall k :: 0 <= k < |moves| ==> moves[k].i < n
    ensures Inv(Reached(n, moves)) && |Reached(n, moves).procs| == n
  {
    InitSums(n);
    RunInv(Init(n), moves);
  }

  lemma WriterExcludes(st: State, i: nat, j: nat)
    requires Inv(st) && i < |st.procs| && j < |st.procs| && st.procs[i].writeHold
    ensures st.procs[j].readHolds == 0 && (i != j ==> !st.procs[j].writeHold)
  {
    assert ProcOk(st, i) && ProcOk(st, j);
    CountedInv(st);
    SumAtLeast(st.procs, i);
    SumAtLeast(st.procs, j);
    if i != j {
      if InMutex(st.procs[i].pc) { OneInMutex(st, i, j); }
      if i < j { SumTwo(st.procs, i, j); } else { SumTwo(st.procs, j, i); }
    }
  }

  /** However many processes there are and however their steps interleave, while one holds the lock
      for writing no other holds it at all, and it does not hold it for reading itself. */
  lemma MutualExclusion(n: nat, moves: seq<Move>, i: nat, j: nat)
    requires (forall k :: 0 <= k < |moves| ==> moves[k].i < n) && i < n && j < n
    ensures var st := Reached(n, moves);
            && |st.procs| == n
            && (st.procs[i].writeHold ==> st.procs[j].readHolds == 0 && (i != j ==> !st.procs[j].writeHold))
  {
    ReachedInv(n, moves);
    if Reached(n, moves).procs[i].writeHold { WriterExcludes(Reached(n, moves), i, j); }
  }

  function Holds(ps: seq<Proc>): nat {
    if ps == [] then 0 else ps[0].readHolds + Holds(ps[1..])
  }

  lemma {:induction false} HoldsAre(ps: seq<Proc>)
    requires forall k :: 0 <= k < |ps| ==> !InMutex(ps[k].pc)
    ensures Holds(ps) == SumReaders(ps)
    ensures (forall k :: 0 <= k < |ps| ==> !ps[k].writeHold) <==> SumWriters(ps) == 0
    decreases |ps|
  {
    if ps != [] {
      HoldsAre(ps[1..]);
      assert ps == [ps[0]] + ps[1..];
      SumBounds(ps[1..]);
    }
  }

  /** Whenever no process is inside the mutex, the lock word is the number of read holds, or -1 with
      `write_pid` naming the one process that holds it for writing. */
  lemma LockWordIs(n: nat, moves: seq<Move>)
    requires forall k :: 0 <= k < |moves| ==> moves[k].i < n
    requires Reached(n, moves).mutex == 0
    ensures var st := Reached(n, moves);
            if st.lock == WRITE then
              && Holds(st.procs) == 0
              && 0 < st.writePid <= |st.procs| && st.procs[st.writePid - 1].writeHold
            else
              && st.lock == Holds(st.procs)
              && forall k :: 0 <= k < |st.procs| ==> !st.procs[k].writeHold
  {
    var st := Reached(n, moves);
    ReachedInv(n, moves);
    forall k | 0 <= k < |st.procs| ensures !InMutex(st.procs[k].pc) { assert ProcOk(st, k); }
    HoldsAre(st.procs);
    if st.lock == WRITE {
      var k :| 0 <= k < |st.procs| && st.procs[k].writeHold;
      assert ProcOk(st, k);
    }
  }

  /** A holder's release always takes effect: neither of its tests fails, it never leaves the mutex
      without having changed the lock word, and a write release finds its own pid. */
  lemma ReleaseTakesEffect(n: nat, moves: seq<Move>, i: nat)
    requires (forall k :: 0 <= k < |moves| ==> moves[k].i < n) && i < n
    ensures var st := Reached(n, moves);
            && |st.procs| == n
            && (var pc := st.procs[i].pc;
                !pc.Idle? && IsRelease(pc.op) ==>
                  && (Testing(pc) ==> Guard(pc.op, st.lock))
                  && (pc.Unlock? ==> pc.done)
                  && (pc.SetPid? ==> st.writePid == i + 1))
  {
    var st := Reached(n, moves);
    ReachedInv(n, moves);
    assert ProcOk(st, i);
    var pc := st.procs[i].pc;
    if Testing(pc) && IsRelease(pc.op) { ReleaseGuard(st, i); }
  }

  /** Distance of a process in the mutex from leaving it. */
  function ToUnlock(pc: Pc): nat {
    match pc
    case Recheck(_) => 6
    case Recheck2(_) => 5
    case Load(_) => 4
    case Store(_, _) => 3
    case SetPid(_) => 2
    case Unlock(_, _) => 1
    case _ => 0
  }

  /** The mutex is never held for ever: its holder is never blocked, and leaves within six steps of
      its own, whatever the others do in between. */
  lemma MutexProgress(n: nat, moves: seq<Move>, i: nat, op: Op)
    requires (forall k :: 0 <= k < |moves| ==> moves[k].i < n)
    requires Reached(n, moves).mutex != 0 && i == Reached(n, moves).mutex - 1
    ensures var st := Reached(n, moves);
            && i < |st.procs|
            && ToUnlock(Step(st, i, op).procs[i].pc) < ToUnlock(st.procs[i].pc) <= 6
            && (ToUnlock(Step(st, i, op).procs[i].pc) == 0 <==> Step(st, i, op).mutex == 0)
            && (forall j, o :: 0 <= j < |st.procs| && j != i ==>
                  Step(st, j, o).mutex == st.mutex && Step(st, j, o).procs[i] == st.procs[i])
  {
    var st := Reached(n, moves);
    ReachedInv(n, moves);
    assert ProcOk(st, i);
    Leaving(st, i, op);
    forall j, o | 0 <= j < |st.procs| && j != i
      ensures Step(st, j, o).mutex == st.mutex && Step(st, j, o).procs[i] == st.procs[i]
    {
      OneInMutex(st, i, j);
      MutexKept(st, i, j, o);
    }
  }

  lemma Leaving(st: State, i: nat, op: Op)
    requires i < |st.procs| && ProcOk(st, i) && InMutex(st.procs[i].pc)
    ensures ToUnlock(Step(st, i, op).procs[i].pc) < ToUnlock(st.procs[i].pc) <= 6
    ensures ToUnlock(Step(st, i, op).procs[i].pc) == 0 <==> Step(st, i, op).mutex == 0
  {
  }

  lemma MutexKept(st: State, i: nat, j: nat, op: Op)
    requires i < |st.procs| && j < |st.procs| && i != j && st.mutex != 0 && !InMutex(st.procs[j].pc)
    ensures Step(st, j, op).mutex == st.mutex && Step(st, j, op).procs[i] == st.procs[i]
  {
  }

  // ---- What a call comes to -------------------------------------------------------------------------

  /** The holds a call gives or takes. */
  predicate HoldsAfter(p: Proc, op: Op, p': Proc) {
    match op
    case ReserveRead => p'.readHolds == p.readHolds + 1 && p'.writeHold == p.writeHold
    case ReleaseRead => p'.readHolds == p.readHolds - 1 && p'.writeHold == p.writeHold
    case ReserveWrite => p'.readHolds == p.readHolds && p'.writeHold
    case ReleaseWrite => p'.readHolds == p.readHolds && p.writeHold && !p'.writeHold
  }

  /** In every run a call returns only with its effect: a reservation with the hold, a release without it.
      Until then the process keeps its holds and stays in the call. */
  lemma ReturnsWithEffect(n: nat, moves: seq<Move>, i: nat, op: Op)
    requires (forall k :: 0 <= k < |moves| ==> moves[k].i < n) && i < n
    requires i < |Reached(n, moves).procs| && !Reached(n, moves).procs[i].pc.Idle?
    ensures var st := Reached(n, moves);
            var p, p' := st.procs[i], Step(st, i, op).procs[i];
            if p'.pc.Idle? then HoldsAfter(p, p.pc.op, p')
            else p'.pc.op == p.pc.op && p'.readHolds == p.readHolds && p'.writeHold == p.writeHold
  {
    var st := Reached(n, moves);
    ReachedInv(n, moves);
    var pc := st.procs[i].pc;
    assert ProcOk(st, i);
    if Testing(pc) && IsRelease(pc.op) { ReleaseGuard(st, i); }
  }

  /** A process that makes `k` steps in a row. */
  function Alone(st: State, i: nat, k: nat): State
    requires i < |st.procs|
    decreases k
  {
    if k == 0 then st else Alone(Step(st, i, ReserveRead), i, k - 1)
  }

  lemma AloneReserves(st: State, i: nat)
    requires i < |st.procs| && st.mutex == 0 && st.lock != WRITE && st.procs[i].pc == Check(ReserveRead)
    ensures var st' := Alone(st, i, 6);
            && st' == State(st.lock + 1, 0, st.writePid, st.procs[i := st'.procs[i]])
            && st'.procs[i].pc == Idle && HoldsAfter(st.procs[i], ReserveRead, st'.procs[i])
  {
    var a := Step(st, i, ReserveRead);
    var b := Step(a, i, ReserveRead);
    var c := Step(b, i, ReserveRead);
    var d := Step(c, i, ReserveRead);
    assert d.procs[i].pc == Store(ReserveRead, st.lock + 1);
    var e := Step(d, i, ReserveRead);
    assert e.procs[i].pc == Unlock(ReserveRead, true);
    assert Alone(st, i, 6) == Alone(a, i, 5) == Alone(b, i, 4) == Alone(c, i, 3) == Alone(d, i, 2) == Alone(e, i, 1);
  }

  lemma AloneReservesWrite(st: State, i: nat)
    requires i < |st.procs| && st.mutex == 0 && st.lock == 0 && st.procs[i].pc == Check(ReserveWrite)
    ensures var st' := Alone(st, i, 6);
            && st' == State(-1, 0, i + 1, st.procs[i := st'.procs[i]])
            && st'.procs[i].pc == Idle && HoldsAfter(st.procs[i], ReserveWrite, st'.procs[i])
  {
    var a := Step(st, i, ReserveRead);
    var b := Step(a, i, ReserveRead);
    var c := Step(b, i, ReserveRead);
    assert c.procs[i].pc == Store(ReserveWrite, WRITE);
    var d := Step(c, i, ReserveRead);
    var e := Step(d, i, ReserveRead);
    assert e.procs[i].pc == Unlock(ReserveWrite, true);
    assert Alone(st, i, 6) == Alone(a, i, 5) == Alone(b, i, 4) == Alone(c, i, 3) == Alone(d, i, 2) == Alone(e, i, 1);
  }

  ghost predicate NoWriter(st: State) {
    forall k :: 0 <= k < |st.procs| ==> !st.procs[k].writeHold
  }

  ghost predicate NoHolder(st: State) {
    NoWriter(st) && forall k :: 0 <= k < |st.procs| ==> st.procs[k].readHolds == 0
  }

  lemma {:induction false} NobodyHolds(ps: seq<Proc>)
    ensures Holds(ps) == 0 <==> forall k :: 0 <= k < |ps| ==> ps[k].readHolds == 0
  {
    if ps != [] {
      NobodyHolds(ps[1..]);
      assert ps == [ps[0]] + ps[1..];
    }
  }

  /** With the mutex free, a reader that moves alone gets its hold within six steps if nobody holds the lock
      for writing; otherwise it stays where it is and changes nothing. */
  lemma ReadGrantedIff(n: nat, moves: seq<Move>, i: nat)
    requires forall k :: 0 <= k < |moves| ==> moves[k].i < n
    requires var st := Reached(n, moves);
             i < |st.procs| && st.mutex == 0 && st.procs[i].pc == Check(ReserveRead)
    ensures var st := Reached(n, moves);
            if NoWriter(st) then
              var st' := Alone(st, i, 6);
              && st' == State(st.lock + 1, 0, st.writePid, st.procs[i := st'.procs[i]])
              && st'.procs[i].pc == Idle && st'.procs[i].readHolds == st.procs[i].readHolds + 1
            else forall k :: Alone(st, i, k) == st
  {
    var st := Reached(n, moves);
    ReachedInv(n, moves);
    LockWordIs(n, moves);
    if NoWriter(st) {
      AloneReserves(st, i);
    } else {
      forall k ensures Alone(st, i, k) == st { AloneStays(st, i, k); }
    }
  }

  /** A writer does if nobody holds it at all. */
  lemma WriteGrantedIff(n: nat, moves: seq<Move>, i: nat)
    requires forall k :: 0 <= k < |moves| ==> moves[k].i < n
    requires var st := Reached(n, moves);
             i < |st.procs| && st.mutex == 0 && st.procs[i].pc == Check(ReserveWrite)
    ensures var st := Reached(n, moves);
            if NoHolder(st) then
              var st' := Alone(st, i, 6);
              && st' == State(-1, 0, i + 1, st.procs[i := st'.procs[i]])
              && st'.procs[i].pc == Idle && st'.procs[i].writeHold
            else forall k :: Alone(st, i, k) == st
  {
    var st := Reached(n, moves);
    ReachedInv(n, moves);
    LockWordIs(n, moves);
    NobodyHolds(st.procs);
    if NoHolder(st) {
      AloneReservesWrite(st, i);
    } else {
      forall k ensures Alone(st, i, k) == st { AloneStays(st, i, k); }
    }
  }

  lemma {:induction false} AloneStays(st: State, i: nat, k: nat)
    requires i < |st.procs| && Step(st, i, ReserveRead) == st
    ensures Alone(st, i, k) == st
  {
    if k > 0 { AloneStays(st, i, k - 1); }
  }

  /** The release has been made and nothing else has changed. */
  predicate Released(st: State, st': State, i: nat, op: Op)
    requires i < |st.procs|
  {
    && st'.mutex == 0 && st'.lock == (if op == ReleaseRead then st.lock - 1 else 0)
    && |st'.procs| == |st.procs| && st'.procs == st.procs[i := st'.procs[i]]
    && st'.procs[i].pc == Idle && HoldsAfter(st.procs[i], op, st'.procs[i])
  }

  /** And a release, with the mutex free, comes to its end within eight steps of its own. */
  lemma ReleaseEnds(n: nat, moves: seq<Move>, i: nat)
    requires forall k :: 0 <= k < |moves| ==> moves[k].i < n
    requires var st := Reached(n, moves);
             i < |st.procs| && st.mutex == 0 && st.procs[i].pc.Check? && IsRelease(st.procs[i].pc.op)
    ensures var st := Reached(n, moves);
            var op := st.procs[i].pc.op;
            Released(st, Alone(st, i, if op == ReleaseRead then 8 else 6), i, op)
  {
    var st := Reached(n, moves);
    ReachedInv(n, moves);
    assert ProcOk(st, i);
    ReleaseGuard(st, i);
    if st.procs[i].pc.op == ReleaseRead { AloneReleases(st, i); } else { AloneReleasesWrite(st, i); }
  }

  lemma AloneReleases(st: State, i: nat)
    requires i < |st.procs| && st.mutex == 0 && st.lock != WRITE && st.lock != 0
    requires st.procs[i].pc == Check(ReleaseRead) && st.procs[i].readHolds > 0
    ensures Released(st, Alone(st, i, 8), i, ReleaseRead)
  {
    var a := Step(st, i, ReserveRead);
    var b := Step(a, i, ReserveRead);
    var c := Step(b, i, ReserveRead);
    var d := Step(c, i, ReserveRead);
    var e := Step(d, i, ReserveRead);
    var f := Step(e, i, ReserveRead);
    assert f.procs[i].pc == Store(ReleaseRead, st.lock - 1);
    var g := Step(f, i, ReserveRead);
    assert Alone(st, i, 8) == Alone(a, i, 7) == Alone(b, i, 6) == Alone(c, i, 5) == Alone(d, i, 4);
    assert Alone(d, i, 4) == Alone(e, i, 3) == Alone(f, i, 2) == Alone(g, i, 1);
  }

  lemma AloneReleasesWrite(st: State, i: nat)
    requires i < |st.procs| && st.mutex == 0 && st.lock == WRITE
    requires st.procs[i].pc == Check(ReleaseWrite) && st.procs[i].writeHold
    ensures Released(st, Alone(st, i, 6), i, ReleaseWrite)
  {
    var a := Step(st, i, ReserveRead);
    var b := Step(a, i, ReserveRead);
    var c := Step(b, i, ReserveRead);
    assert c.procs[i].pc == Store(ReleaseWrite, 0);
    var d := Step(c, i, ReserveRead);
    var e := Step(d, i, ReserveRead);
    assert Alone(st, i, 6) == Alone(a, i, 5) == Alone(b, i, 4) == Alone(c, i, 3) == Alone(d, i, 2) == Alone(e, i, 1);
  }
}
