/** The reader-writer lock with preference to writers (agent/mmc/support/cache.py:386-459).

    The four counters are only touched while the internal mutex is held, so each mutex
    section is one step on them.  The semaphores are not protected by the mutex: a section
    that decides to release tokens first becomes the holder of the mutex with some tokens
    owed, releases them one at a time, and then gives the mutex back.  Any other thread may
    take a token in between.  */
module ReadWriteLock {
  import opened Basics

  type Thread = nat

  datatype Counters = Counters(activeReaders: int, activeWriters: int, waitingReaders: int, waitingWriters: int)

  /** What a mutex section decides: the new counters and the tokens it will release. */
  datatype Grant = Grant(counters: Counters, read: nat, write: nat)

  function ReaderEntersSection(c: Counters): Grant {
    if c.activeWriters == 0 && c.waitingWriters == 0
    then Grant(c.(activeReaders := c.activeReaders + 1), 1, 0)
    else Grant(c.(waitingReaders := c.waitingReaders + 1), 0, 0)
  }

  function ReaderLeavesSection(c: Counters): Grant {
    var d := c.(activeReaders := c.activeReaders - 1);
    if d.activeReaders == 0 && d.waitingWriters != 0
    then Grant(d.(activeWriters := d.activeWriters + 1, waitingWriters := d.waitingWriters - 1), 0, 1)
    else Grant(d, 0, 0)
  }

  function WriterEntersSection(c: Counters): Grant {
    if c.activeWriters == 0 && c.waitingWriters == 0 && c.activeReaders == 0
    then Grant(c.(activeWriters := c.activeWriters + 1), 0, 1)
    else Grant(c.(waitingWriters := c.waitingWriters + 1), 0, 0)
  }

  function WriterLeavesSection(c: Counters): Grant {
    var d := c.(activeWriters := c.activeWriters - 1);
    if d.waitingWriters != 0
    then Grant(d.(activeWriters := d.activeWriters + 1, waitingWriters := d.waitingWriters - 1), 0, 1)
    else if d.waitingReaders != 0
    then Grant(d.(waitingReaders := 0, activeReaders := d.activeReaders + d.waitingReaders),
               if d.waitingReaders > 0 then d.waitingReaders else 0, 0)
    else Grant(d, 0, 0)
  }

  // ----- the object -----

  /** The lock object.  Each method is one mutex section; the semaphore acquire that ends
      `reader_enters` and `writer_enters` blocks, so it is a method of its own that can only
      be called when a token is available. */
  class RWLock {
    var canRead: nat
    var canWrite: nat
    var activeReaders: int
    var activeWriters: int
    var waitingReaders: int
    var waitingWriters: int

    ghost function View(): Counters
      reads this
    {
      Counters(activeReaders, activeWriters, waitingReaders, waitingWriters)
    }

    /** The section `g` ran with the tokens `r` and `w` available before it. */
    ghost predicate Carried(g: Grant, r: nat, w: nat)
      reads this
    {
      View() == g.counters && canRead == r + g.read && canWrite == w + g.write
    }

    constructor ()
      ensures View() == Counters(0, 0, 0, 0) && canRead == 0 && canWrite == 0
    {
      canRead, canWrite := 0, 0;
      activeReaders, activeWriters, waitingReaders, waitingWriters := 0, 0, 0, 0;
    }

    method ReaderEnters()
      modifies this
      ensures Carried(ReaderEntersSection(old(View())), old(canRead), old(canWrite))
    {
      if activeWriters == 0 && waitingWriters == 0 {
        activeReaders := activeReaders + 1;
        canRead := canRead + 1;
      } else {
        waitingReaders := waitingReaders + 1;
      }
    }

    method ReaderLeaves()
      modifies this
      ensures Carried(ReaderLeavesSection(old(View())), old(canRead), old(canWrite))
    {
      activeReaders := activeReaders - 1;
      if activeReaders == 0 && waitingWriters != 0 {
        activeWriters := activeWriters + 1;
        waitingWriters := waitingWriters - 1;
        canWrite := canWrite + 1;
      }
    }

    method WriterEnters()
      modifies this
      ensures Carried(WriterEntersSection(old(View())), old(canRead), old(canWrite))
    {
      if activeWriters == 0 && waitingWriters == 0 && activeReaders == 0 {
        activeWriters := activeWriters + 1;
        canWrite := canWrite + 1;
      } else {
        waitingWriters := waitingWriters + 1;
      }
    }

    method WriterLeaves()
      modifies this
      ensures Carried(WriterLeavesSection(old(View())), old(canRead), old(canWrite))
    {
      activeWriters := activeWriters - 1;
      if waitingWriters != 0 {
        activeWriters := activeWriters + 1;
        waitingWriters := waitingWriters - 1;
        canWrite := canWrite + 1;
      } else if waitingReaders != 0 {
        var t := waitingReaders;
        waitingReaders := 0;
        activeReaders := activeReaders + t;
        while t > 0
          invariant View() == WriterLeavesSection(old(View())).counters
          invariant canWrite == old(canWrite)
          invariant t <= old(waitingReaders)
          invariant old(waitingReaders) > 0 ==> 0 <= t
          invariant canRead == old(canRead) + if old(waitingReaders) > 0 then old(waitingReaders) - t else 0
        {
          canRead := canRead + 1;
          t := t - 1;
        }
      }
    }

    method AcquireRead()
      requires canRead > 0
      modifies this
      ensures View() == old(View()) && canRead == old(canRead) - 1 && canWrite == old(canWrite)
    {
      canRead := canRead - 1;
    }

    method AcquireWrite()
      requires canWrite > 0
      modifies this
      ensures View() == old(View()) && canWrite == old(canWrite) - 1 && canRead == old(canRead)
    {
      canWrite := canWrite - 1;
    }
  }

  // ----- the protocol: any number of threads over one lock -----

  datatype Phase = Outside | AwaitRead | Reading | AwaitWrite | Writing

  datatype Holder = Free | HeldBy(thread: Thread)

  datatype State = State(
    counters: Counters,
    canRead: nat, canWrite: nat,    // tokens in the two semaphores
    holder: Holder,                 // who is inside a mutex section
    owedRead: nat, owedWrite: nat,  // tokens the holder has still to release
    phase: map<Thread, Phase>)      // threads not listed are outside

  datatype Action = ReaderEnters | ReaderLeaves | WriterEnters | WriterLeaves
                  | ReleaseRead | ReleaseWrite | Unlock
                  | AcquireRead | AcquireWrite

  function PhaseOf(s: State, t: Thread): Phase {
    if t in s.phase then s.phase[t] else Outside
  }

  /** A new lock that nobody uses yet. */
  predicate Initial(s: State) {
    && s.counters == Counters(0, 0, 0, 0)
    && s.canRead == s.canWrite == s.owedRead == s.owedWrite == 0
    && s.holder.Free?
    && s.phase.Keys == {}
  }

  predicate Enabled(s: State, t: Thread, a: Action) {
    match a
    case ReaderEnters => s.holder.Free? && PhaseOf(s, t) == Outside
    case WriterEnters => s.holder.Free? && PhaseOf(s, t) == Outside
    case ReaderLeaves => s.holder.Free? && PhaseOf(s, t) == Reading
    case WriterLeaves => s.holder.Free? && PhaseOf(s, t) == Writing
    case ReleaseRead => s.holder == HeldBy(t) && s.owedRead > 0
    case ReleaseWrite => s.holder == HeldBy(t) && s.owedWrite > 0
    case Unlock => s.holder == HeldBy(t) && s.owedRead == 0 && s.owedWrite == 0
    case AcquireRead => s.holder != HeldBy(t) && PhaseOf(s, t) == AwaitRead && s.canRead > 0
    case AcquireWrite => s.holder != HeldBy(t) && PhaseOf(s, t) == AwaitWrite && s.canWrite > 0
  }

  function Section(s: State, t: Thread, g: Grant, p: Phase): State {
    s.(counters := g.counters, holder := HeldBy(t), owedRead := g.read, owedWrite := g.write, phase := s.phase[t := p])
  }

  function Step(s: State, t: Thread, a: Action): State
    requires Enabled(s, t, a)
  {
    match a
    case ReaderEnters => Section(s, t, ReaderEntersSection(s.counters), AwaitRead)
    case WriterEnters => Section(s, t, WriterEntersSection(s.counters), AwaitWrite)
    case ReaderLeaves => Section(s, t, ReaderLeavesSection(s.counters), Outside)
    case WriterLeaves => Section(s, t, WriterLeavesSection(s.counters), Outside)
    case ReleaseRead => s.(canRead := s.canRead + 1, owedRead := s.owedRead - 1)
    case ReleaseWrite => s.(canWrite := s.canWrite + 1, owedWrite := s.owedWrite - 1)
    case Unlock => s.(holder := Free)
    case AcquireRead => s.(canRead := s.canRead - 1, phase := s.phase[t := Reading])
    case AcquireWrite => s.(canWrite := s.canWrite - 1, phase := s.phase[t := Writing])
  }

  // ----- the joint invariant -----

  function Who(phase: map<Thread, Phase>, p: Phase): set<Thread> {
    set t | t in phase && phase[t] == p
  }

  function Number(s: State, p: Phase): nat { |Who(s.phase, p)| }

  /** Every read token ever promised is a reader inside, a token in the semaphore, or a
      token owed; every reader waiting at the semaphore has one coming or is queued.  The
      same for writers. */
  predicate TokensBalance(s: State) {
    && Number(s, Reading) + s.canRead + s.owedRead == s.counters.activeReaders
    && Number(s, AwaitRead) == s.canRead + s.owedRead + s.counters.waitingReaders
    && Number(s, Writing) + s.canWrite + s.owedWrite == s.counters.activeWriters
    && Number(s, AwaitWrite) == s.canWrite + s.owedWrite + s.counters.waitingWriters
  }

  predicate Exclusive(c: Counters) {
    && 0 <= c.activeReaders && 0 <= c.waitingReaders && 0 <= c.waitingWriters
    && 0 <= c.activeWriters <= 1
    && (c.activeWriters == 1 ==> c.activeReaders == 0)
  }

  /** Nobody queues in front of an unused lock. */
  predicate NoLostWakeup(c: Counters) {
    && (c.waitingWriters > 0 ==> c.activeReaders > 0 || c.activeWriters > 0)
    && (c.waitingReaders > 0 ==> c.activeWriters > 0 || c.waitingWriters > 0)
  }

  predicate Inv(s: State) {
    && TokensBalance(s)
    && Exclusive(s.counters)
    && NoLostWakeup(s.counters)
    && (s.holder.Free? ==> s.owedRead == 0 && s.owedWrite == 0)
  }

  /** How the number of threads in phase `p` changes when one thread moves from `o` to `q`. */
  function Shift(o: Phase, q: Phase, p: Phase): int {
    (if q == p then 1 else 0) - (if o == p then 1 else 0)
  }

  lemma NumberAfterMove(s: State, s': State, t: Thread, q: Phase, p: Phase)
    requires s'.phase == s.phase[t := q]
    requires p != Outside
    ensures Number(s', p) == Number(s, p) + Shift(PhaseOf(s, t), q, p)
  {
    assert Who(s'.phase, p) - {t} == Who(s.phase, p) - {t};
    WithOrWithout(Who(s.phase, p), t);
    WithOrWithout(Who(s'.phase, p), t);
  }

  lemma NumbersAfterMove(s: State, s': State, t: Thread, q: Phase)
    requires s'.phase == s.phase[t := q]
    ensures Number(s', Reading) == Number(s, Reading) + Shift(PhaseOf(s, t), q, Reading)
    ensures Number(s', AwaitRead) == Number(s, AwaitRead) + Shift(PhaseOf(s, t), q, AwaitRead)
    ensures Number(s', Writing) == Number(s, Writing) + Shift(PhaseOf(s, t), q, Writing)
    ensures Number(s', AwaitWrite) == Number(s, AwaitWrite) + Shift(PhaseOf(s, t), q, AwaitWrite)
  {
    NumberAfterMove(s, s', t, q, Reading);
    NumberAfterMove(s, s', t, q, AwaitRead);
    NumberAfterMove(s, s', t, q, Writing);
    NumberAfterMove(s, s', t, q, AwaitWrite);
  }

  lemma InsideCounts(s: State, t: Thread)
    requires PhaseOf(s, t) != Outside
    ensures Number(s, PhaseOf(s, t)) > 0
  {
    assert t in Who(s.phase, PhaseOf(s, t));
  }

  lemma InvHoldsInitially(s: State)
    requires Initial(s)
    ensures Inv(s)
  {
    assert forall p :: Who(s.phase, p) == {};
  }

  lemma ArrivalKeepsInv(s: State, t: Thread, a: Action)
    requires Inv(s) && Enabled(s, t, a) && (a == ReaderEnters || a == WriterEnters)
    ensures Inv(Step(s, t, a))
  {
    NumbersAfterMove(s, Step(s, t, a), t, if a == ReaderEnters then AwaitRead else AwaitWrite);
  }

  lemma DepartureKeepsInv(s: State, t: Thread, a: Action)
    requires Inv(s) && Enabled(s, t, a) && (a == ReaderLeaves || a == WriterLeaves)
    ensures Inv(Step(s, t, a))
  {
    InsideCounts(s, t);
    NumbersAfterMove(s, Step(s, t, a), t, Outside);
  }

  lemma StepKeepsInv(s: State, t: Thread, a: Action)
    requires Inv(s) && Enabled(s, t, a)
    ensures Inv(Step(s, t, a))
  {
    match a
    case ReaderEnters => ArrivalKeepsInv(s, t, a);
    case WriterEnters => ArrivalKeepsInv(s, t, a);
    case ReaderLeaves => DepartureKeepsInv(s, t, a);
    case WriterLeaves => DepartureKeepsInv(s, t, a);
    case AcquireRead => NumbersAfterMove(s, Step(s, t, a), t, Reading);
    case AcquireWrite => NumbersAfterMove(s, Step(s, t, a), t, Writing);
    case _ =>
  }

  // ----- runs -----

  datatype Move = Move(thread: Thread, action: Action)

  /** `moves` is a schedule that can be followed from `s`. */
  predicate Runs(s: State, moves: seq<Move>)
    decreases moves
  {
    moves == [] ||
    (Enabled(s, moves[0].thread, moves[0].action) && Runs(Step(s, moves[0].thread, moves[0].action), moves[1..]))
  }

  function After(s: State, moves: seq<Move>): State
    requires Runs(s, moves)
    decreases moves
  {
    if moves == [] then s else After(Step(s, moves[0].thread, moves[0].action), moves[1..])
  }

  lemma First(s: State, m: Move, moves: seq<Move>)
    requires Enabled(s, m.thread, m.action) && Runs(Step(s, m.thread, m.action), moves)
    ensures Runs(s, [m] + moves) && After(s, [m] + moves) == After(Step(s, m.thread, m.action), moves)
  {
    assert ([m] + moves)[1..] == moves;
  }

  lemma {:induction false} RunKeepsInv(s: State, moves: seq<Move>)
    requires Runs(s, moves) && Inv(s)
    ensures Inv(After(s, moves))
    decreases moves
  {
    if moves != [] {
      StepKeepsInv(s, moves[0].thread, moves[0].action);
      RunKeepsInv(Step(s, moves[0].thread, moves[0].action), moves[1..]);
    }
  }

  /** The state once the holder has released what it owes and given the mutex back. */
  function Finished(s: State): State {
    s.(canRead := s.canRead + s.owedRead, canWrite := s.canWrite + s.owedWrite,
       owedRead := 0, owedWrite := 0, holder := Free)
  }

  /** Left alone, the holder of the mutex carries out the rest of its section by itself; the
      result is the atomic effect that the methods of `RWLock` promise. */
  lemma {:induction false} HolderFinishes(s: State, t: Thread) returns (moves: seq<Move>)
    requires s.holder == HeldBy(t)
    ensures Runs(s, moves) && After(s, moves) == Finished(s)
    ensures |moves| == s.owedRead + s.owedWrite + 1
    ensures forall m | m in moves :: m.thread == t && m.action in {ReleaseRead, ReleaseWrite, Unlock}
    decreases s.owedRead + s.owedWrite
  {
    var m := Move(t, if s.owedRead > 0 then ReleaseRead else if s.owedWrite > 0 then ReleaseWrite else Unlock);
    var s' := Step(s, t, m.action);
    if m.action == Unlock {
      moves := [m];
      First(s, m, []);
      assert [m] + [] == moves;
    } else {
      var rest := HolderFinishes(s', t);
      moves := [m] + rest;
      First(s, m, rest);
    }
  }

  ghost predicate Excludes(s: State) {
    forall t, u | PhaseOf(s, t) == Writing && PhaseOf(s, u) in {Reading, Writing} :: t == u
  }

  lemma InvExcludes(s: State)
    requires Inv(s)
    ensures Excludes(s)
  {
    forall t, u | PhaseOf(s, t) == Writing && PhaseOf(s, u) in {Reading, Writing}
      ensures t == u
    {
      InsideCounts(s, t);
      InsideCounts(s, u);
      if t != u && PhaseOf(s, u) == Writing {
        AtLeastTwo(Who(s.phase, Writing), t, u);
      }
    }
  }

  /** Some schedule leads from a new lock to `s`. */
  ghost predicate Reachable(s: State) {
    exists init, moves :: Initial(init) && Runs(init, moves) && After(init, moves) == s
  }

  lemma ReachableInv(s: State)
    requires Reachable(s)
    ensures Inv(s)
  {
    var init, moves :| Initial(init) && Runs(init, moves) && After(init, moves) == s;
    InvHoldsInitially(init);
    RunKeepsInv(init, moves);
  }

  /** Mutual exclusion, for any number of threads and after any interleaving. */
  lemma MutualExclusion(s: State)
    requires Reachable(s)
    ensures Excludes(s)
  {
    ReachableInv(s);
    InvExcludes(s);
  }

  // ----- no lost wakeups -----

  predicate IsArrival(a: Action) { a == ReaderEnters || a == WriterEnters }

  /** As long as any thread is not outside, some thread can move without a new arrival: no
      blocked thread is ever forgotten. */
  lemma SomebodyCanMove(s: State, t: Thread)
    requires Inv(s) && (PhaseOf(s, t) != Outside || s.holder.HeldBy?)
    ensures exists u, a :: !IsArrival(a) && Enabled(s, u, a)
  {
    if s.holder.HeldBy? {
      var u := s.holder.thread;
      if s.owedRead > 0 {
        assert Enabled(s, u, ReleaseRead);
      } else if s.owedWrite > 0 {
        assert Enabled(s, u, ReleaseWrite);
      } else {
        assert Enabled(s, u, Unlock);
      }
    } else if PhaseOf(s, t) == Reading {
      assert Enabled(s, t, ReaderLeaves);
    } else if PhaseOf(s, t) == Writing {
      assert Enabled(s, t, WriterLeaves);
    } else {
      InsideCounts(s, t);
      if Number(s, Reading) > 0 {
        var u :| u in Who(s.phase, Reading);
        assert Enabled(s, u, ReaderLeaves);
      } else if Number(s, Writing) > 0 {
        var u :| u in Who(s.phase, Writing);
        assert Enabled(s, u, WriterLeaves);
      } else if s.canRead > 0 {
        assert Number(s, AwaitRead) > 0;
        var u :| u in Who(s.phase, AwaitRead);
        assert Enabled(s, u, AcquireRead);
      } else {
        assert s.canWrite > 0;
        assert Number(s, AwaitWrite) > 0;
        var u :| u in Who(s.phase, AwaitWrite);
        assert Enabled(s, u, AcquireWrite);
      }
    }
  }

  /** The number of moves the present threads still have to make. */
  function Work(s: State): int {
    s.counters.waitingReaders + s.counters.waitingWriters + s.owedRead + s.owedWrite
    + 3 * Number(s, AwaitRead) + 3 * Number(s, AwaitWrite)
    + 2 * Number(s, Reading) + 2 * Number(s, Writing)
    + (if s.holder.HeldBy? then 1 else 0)
  }

  lemma StepDoesWork(s: State, t: Thread, a: Action)
    requires Inv(s) && Enabled(s, t, a) && !IsArrival(a)
    ensures Work(Step(s, t, a)) == Work(s) - 1
  {
    var s' := Step(s, t, a);
    if a in {ReaderLeaves, WriterLeaves, AcquireRead, AcquireWrite} {
      InsideCounts(s, t);
      NumbersAfterMove(s, s', t, s'.phase[t]);
    }
  }

  ghost predicate AllOutside(s: State) {
    s.holder.Free? && forall t :: PhaseOf(s, t) == Outside
  }

  /** No move is possible except a new arrival. */
  ghost predicate Quiet(s: State) {
    forall u, a :: Enabled(s, u, a) ==> IsArrival(a)
  }

  function Arrivals(moves: seq<Move>): nat {
    if moves == [] then 0 else (if IsArrival(moves[0].action) then 1 else 0) + Arrivals(moves[1..])
  }

  lemma ArrivalBringsWork(s: State, t: Thread, a: Action)
    requires Inv(s) && Enabled(s, t, a) && IsArrival(a)
    ensures Work(Step(s, t, a)) == Work(s) + 5
  {
    NumbersAfterMove(s, Step(s, t, a), t, if a == ReaderEnters then AwaitRead else AwaitWrite);
  }

  /** Every arrival brings six moves, its own among them, and every move uses one up. */
  lemma {:induction false} RunDoesWork(s: State, moves: seq<Move>)
    requires Runs(s, moves) && Inv(s)
    ensures Work(After(s, moves)) == Work(s) + 6 * Arrivals(moves) - |moves|
    decreases moves
  {
    if moves != [] {
      var t, a := moves[0].thread, moves[0].action;
      StepKeepsInv(s, t, a);
      if IsArrival(a) { ArrivalBringsWork(s, t, a); } else { StepDoesWork(s, t, a); }
      RunDoesWork(Step(s, t, a), moves[1..]);
    }
  }

  lemma NoWorkLeft(s: State)
    requires Inv(s)
    ensures Work(s) == 0 <==> AllOutside(s)
    ensures Quiet(s) <==> AllOutside(s)
  {
    if Work(s) == 0 {
      forall t ensures PhaseOf(s, t) == Outside {
        if PhaseOf(s, t) != Outside { InsideCounts(s, t); }
      }
    }
    if AllOutside(s) {
      forall p: Phase | p != Outside ensures Number(s, p) == 0 {
        assert forall t :: t in Who(s.phase, p) ==> PhaseOf(s, t) == p;
        assert Who(s.phase, p) == {};
      }
    } else {
      var t :| s.holder.HeldBy? || PhaseOf(s, t) != Outside;
      SomebodyCanMove(s, t);
    }
  }

  /** Every schedule, whoever arrives in it, lasts at most as many moves as there was work at
      its start and six for every arrival.  One that can go no further without a new arrival
      has let every single thread through, in exactly that many moves. */
  lemma EveryoneGetsThrough(s: State, moves: seq<Move>)
    requires Runs(s, moves) && Inv(s)
    ensures |moves| <= Work(s) + 6 * Arrivals(moves)
    ensures Quiet(After(s, moves)) <==> AllOutside(After(s, moves))
    ensures AllOutside(After(s, moves)) <==> |moves| == Work(s) + 6 * Arrivals(moves)
  {
    RunKeepsInv(s, moves);
    RunDoesWork(s, moves);
    NoWorkLeft(After(s, moves));
  }

  // ----- writer preference -----

  /** While a writer waits no reader is admitted, every reader that leaves is one less, queued
      readers stay queued, and whoever leaves the lock last hands it to a writer. */
  lemma WaitingWriterGoesFirst(s: State, t: Thread, a: Action)
    requires Inv(s) && Enabled(s, t, a) && s.counters.waitingWriters > 0
    ensures var s' := Step(s, t, a);
      && s'.counters.activeReaders == s.counters.activeReaders - (if a == ReaderLeaves then 1 else 0)
      && s'.counters.waitingReaders >= s.counters.waitingReaders
      && s'.canRead + s'.owedRead == s.canRead + s.owedRead - (if a == AcquireRead then 1 else 0)
      && (s'.counters.waitingWriters < s.counters.waitingWriters <==>
            a == WriterLeaves || (a == ReaderLeaves && s.counters.activeReaders == 1))
      && (s'.counters.waitingWriters < s.counters.waitingWriters ==>
            s'.owedWrite == 1 && s'.counters.activeWriters == 1 && s'.counters.activeReaders == 0)
  {
    if PhaseOf(s, t) != Outside { InsideCounts(s, t); }
  }

  /** Readers leave the queue only through a writer that finds no other writer waiting, and
      then all of them leave it together. */
  lemma QueuedReadersReleasedTogether(s: State, t: Thread, a: Action)
    requires Inv(s) && Enabled(s, t, a)
    requires Step(s, t, a).counters.waitingReaders < s.counters.waitingReaders
    ensures a == WriterLeaves && s.counters.waitingWriters == 0
    ensures Step(s, t, a).counters.waitingReaders == 0
    ensures Step(s, t, a).owedRead == s.counters.waitingReaders == Step(s, t, a).counters.activeReaders
  {
    InsideCounts(s, t);
  }

  function ReadsStarted(moves: seq<Move>): nat {
    if moves == [] then 0
    else (if moves[0].action == AcquireRead then 1 else 0) + ReadsStarted(moves[1..])
  }

  function ReadersLeft(moves: seq<Move>): nat {
    if moves == [] then 0
    else (if moves[0].action == ReaderLeaves then 1 else 0) + ReadersLeft(moves[1..])
  }

  /** Some writer is waiting whenever one of `moves` is made. */
  predicate WriterWaitsThroughout(s: State, moves: seq<Move>)
    requires Runs(s, moves)
    decreases moves
  {
    moves == [] ||
    (s.counters.waitingWriters > 0 && WriterWaitsThroughout(Step(s, moves[0].thread, moves[0].action), moves[1..]))
  }

  /** Bounded bypass: during any stretch in which some writer waits, the readers that get in
      are paid for, one for one, by tokens that existed when the stretch began; and the active
      readers only become fewer, one for every reader that leaves, whoever arrives. */
  lemma {:induction false} BoundedBypass(s: State, moves: seq<Move>)
    requires Runs(s, moves) && Inv(s) && WriterWaitsThroughout(s, moves)
    ensures var s' := After(s, moves);
      && ReadsStarted(moves) + s'.canRead + s'.owedRead == s.canRead + s.owedRead
      && s'.counters.activeReaders + ReadersLeft(moves) == s.counters.activeReaders
      && s'.counters.waitingReaders >= s.counters.waitingReaders
    decreases moves
  {
    if moves != [] {
      var t, a := moves[0].thread, moves[0].action;
      StepKeepsInv(s, t, a);
      WaitingWriterGoesFirst(s, t, a);
      BoundedBypass(Step(s, t, a), moves[1..]);
    }
  }

  /** How many threads left the lock. */
  function Leaves(moves: seq<Move>): nat {
    if moves == [] then 0
    else (if moves[0].action in {ReaderLeaves, WriterLeaves} then 1 else 0) + Leaves(moves[1..])
  }

  /** None of `moves` takes a writer out of the queue. */
  predicate NoWriterAdmitted(s: State, moves: seq<Move>)
    requires Runs(s, moves)
    decreases moves
  {
    moves == [] ||
    (Step(s, moves[0].thread, moves[0].action).counters.waitingWriters >= s.counters.waitingWriters &&
     NoWriterAdmitted(Step(s, moves[0].thread, moves[0].action), moves[1..]))
  }

  function Active(s: State): int { s.counters.activeReaders + s.counters.activeWriters }

  /** A waiting writer is let in by the leave that takes the last active thread away, and every
      other leave brings that one step nearer. */
  lemma LeaveBringsWriterNearer(s: State, t: Thread, a: Action)
    requires Inv(s) && Enabled(s, t, a) && s.counters.waitingWriters > 0
    ensures var s' := Step(s, t, a);
      if a !in {ReaderLeaves, WriterLeaves}
      then Active(s') == Active(s) && s'.counters.waitingWriters >= s.counters.waitingWriters
      else if Active(s) > 1
      then Active(s') == Active(s) - 1 && s'.counters.waitingWriters == s.counters.waitingWriters
      else s'.counters.waitingWriters == s.counters.waitingWriters - 1
  {
    if PhaseOf(s, t) != Outside { InsideCounts(s, t); }
  }

  /** A waiting writer is admitted after exactly as many leaves as there are active threads,
      whoever arrives meanwhile and in whatever order the others move. */
  lemma {:induction false} AdmittedAfterExactlyThatManyLeaves(s: State, moves: seq<Move>)
    requires Runs(s, moves) && Inv(s) && s.counters.waitingWriters > 0
    ensures NoWriterAdmitted(s, moves) <==> Leaves(moves) < Active(s)
    ensures NoWriterAdmitted(s, moves) ==> Active(After(s, moves)) == Active(s) - Leaves(moves)
    decreases moves
  {
    if moves != [] {
      var t, a := moves[0].thread, moves[0].action;
      StepKeepsInv(s, t, a);
      LeaveBringsWriterNearer(s, t, a);
      if Step(s, t, a).counters.waitingWriters >= s.counters.waitingWriters {
        AdmittedAfterExactlyThatManyLeaves(Step(s, t, a), moves[1..]);
      }
    }
  }

  /** The preference counts tokens, not threads.  A reader that arrives behind a waiting
      writer can take the token meant for a reader that came before the writer: thread 3
      reads while thread 1 is still blocked and the writer 2 waits. */
  lemma LateReaderMayOvertake(init: State) returns (moves: seq<Move>)
    requires Initial(init)
    ensures Runs(init, moves) && |moves| == 8
    ensures moves[0] == Move(1, ReaderEnters) && moves[3] == Move(2, WriterEnters) && moves[5] == Move(3, ReaderEnters)
    ensures var s := After(init, moves);
      && PhaseOf(s, 3) == Reading && PhaseOf(s, 1) == AwaitRead && PhaseOf(s, 2) == AwaitWrite
      && s.counters.waitingWriters == 1
  {
    var s1 := Step(init, 1, ReaderEnters);
    var s2 := Step(s1, 1, ReleaseRead);
    var s3 := Step(s2, 1, Unlock);
    var s4 := Step(s3, 2, WriterEnters);
    var s5 := Step(s4, 2, Unlock);
    var s6 := Step(s5, 3, ReaderEnters);
    var s7 := Step(s6, 3, Unlock);
    moves := [];
    First(s7, Move(3, AcquireRead), moves);
    moves := [Move(3, AcquireRead)] + moves;
    First(s6, Move(3, Unlock), moves);
    moves := [Move(3, Unlock)] + moves;
    First(s5, Move(3, ReaderEnters), moves);
    moves := [Move(3, ReaderEnters)] + moves;
    First(s4, Move(2, Unlock), moves);
    moves := [Move(2, Unlock)] + moves;
    First(s3, Move(2, WriterEnters), moves);
    moves := [Move(2, WriterEnters)] + moves;
    First(s2, Move(1, Unlock), moves);
    moves := [Move(1, Unlock)] + moves;
    First(s1, Move(1, ReleaseRead), moves);
    moves := [Move(1, ReleaseRead)] + moves;
    First(init, Move(1, ReaderEnters), moves);
    moves := [Move(1, ReaderEnters)] + moves;
  }

  lemma FirstWaits(s: State, m: Move, moves: seq<Move>)
    requires Enabled(s, m.thread, m.action) && Runs(Step(s, m.thread, m.action), moves)
    requires s.counters.waitingWriters > 0 && WriterWaitsThroughout(Step(s, m.thread, m.action), moves)
    ensures Runs(s, [m] + moves) && WriterWaitsThroughout(s, [m] + moves)
  {
    First(s, m, moves);
    assert ([m] + moves)[1..] == moves;
  }

  /** The rest of the holder's section does not touch the counters. */
  lemma {:induction false} SectionWaits(s: State, moves: seq<Move>, rest: seq<Move>)
    requires Runs(s, moves) && s.counters.waitingWriters > 0 && Runs(After(s, moves), rest)
    requires forall m | m in moves :: m.action in {ReleaseRead, ReleaseWrite, Unlock}
    requires WriterWaitsThroughout(After(s, moves), rest)
    ensures Runs(s, moves + rest) && After(s, moves + rest) == After(After(s, moves), rest)
    ensures WriterWaitsThroughout(s, moves + rest)
    decreases moves
  {
    if moves == [] {
      assert moves + rest == rest;
    } else {
      var s' := Step(s, moves[0].thread, moves[0].action);
      assert moves[0] in moves && forall m | m in moves[1..] :: m in moves;
      SectionWaits(s', moves[1..], rest);
      FirstWaits(s, moves[0], moves[1..] + rest);
      First(s, moves[0], moves[1..] + rest);
      assert [moves[0]] + (moves[1..] + rest) == moves + rest;
    }
  }

  /** Only a token lets a thread read. */
  lemma {:induction false} NoTokenNoReading(s: State, moves: seq<Move>, t: Thread)
    requires Runs(s, moves) && ReadsStarted(moves) == 0 && PhaseOf(s, t) != Reading
    ensures PhaseOf(After(s, moves), t) != Reading
    decreases moves
  {
    if moves != [] {
      NoTokenNoReading(Step(s, moves[0].thread, moves[0].action), moves[1..], t);
    }
  }

  /** A thread that is still outside can come to read while some writer waits all along. */
  ghost predicate MayOvertake(s: State, t: Thread) {
    exists moves :: Runs(s, moves) && WriterWaitsThroughout(s, moves) && PhaseOf(After(s, moves), t) == Reading
  }

  lemma TakesTheToken(s: State, t: Thread) returns (moves: seq<Move>)
    requires s.holder.Free? && PhaseOf(s, t) == Outside && s.counters.waitingWriters > 0 && s.canRead > 0
    ensures Runs(s, moves) && WriterWaitsThroughout(s, moves) && PhaseOf(After(s, moves), t) == Reading
  {
    var enter, unlock, acquire := Move(t, ReaderEnters), Move(t, Unlock), Move(t, AcquireRead);
    var s1 := Step(s, t, ReaderEnters);
    var s2 := Step(s1, t, Unlock);
    First(s2, acquire, []);
    FirstWaits(s2, acquire, []);
    First(s1, unlock, [acquire] + []);
    FirstWaits(s1, unlock, [acquire] + []);
    First(s, enter, [unlock] + ([acquire] + []));
    FirstWaits(s, enter, [unlock] + ([acquire] + []));
    moves := [enter] + ([unlock] + ([acquire] + []));
  }

  /** A late reader can overtake exactly when a read token is in the semaphore, or owed by the
      holder of the mutex. */
  lemma OvertakesExactlyWhen(s: State, t: Thread)
    requires Inv(s) && PhaseOf(s, t) == Outside && s.counters.waitingWriters > 0
    ensures MayOvertake(s, t) <==> s.canRead + s.owedRead > 0
  {
    if MayOvertake(s, t) {
      var moves :| Runs(s, moves) && WriterWaitsThroughout(s, moves) && PhaseOf(After(s, moves), t) == Reading;
      BoundedBypass(s, moves);
      RunKeepsInv(s, moves);
      if ReadsStarted(moves) == 0 { NoTokenNoReading(s, moves, t); }
    }
    if s.canRead + s.owedRead > 0 {
      if s.holder.Free? {
        var moves := TakesTheToken(s, t);
      } else {
        var section := HolderFinishes(s, s.holder.thread);
        var rest := TakesTheToken(Finished(s), t);
        SectionWaits(s, section, rest);
      }
    }
  }
}
