/** Any number of threads using one `LocMemCache`, with the lock modelled token by token and
    every dictionary operation a step of its own (agent/mmc/support/cache.py:181-275).

    The critical sections are not assumed to be atomic.  That they behave as if they were is
    what the lock invariant gives: a thread reads the dictionaries only while the lock lets
    it read, and writes them only while it is the one writer. */
module CacheRuns {
  import opened Basics
  import opened ReadWriteLock
  import opened LocMemCache

  datatype Op =
    | Get(key: Key)
    | HasKey(key: Key)
    | Set(key: Key, value: Value, timeout: Option<real>)
    | Add(key: Key, value: Value, timeout: Option<real>)
    | Delete(key: Key)

  predicate Looks(op: Op) { op.Get? || op.HasKey? }

  /** Where a thread is inside an operation. */
  datatype Local =
    | Idle
    | Looking(op: Op)               // between entering as a reader and reading the expiry
    | FoundFresh(op: Op, now: real) // `get` read an expiry later than `now`; the value comes next
    | FoundStale(op: Op, seen: nat) // the entry has expired, as noted at `seen`; to leave
    | Looked(op: Op)                // the answer is known; to leave as a reader
    | Between(op: Op, seen: nat)    // left as a reader, not yet entered as a writer
    | Updating(op: Op, seen: nat)   // between entering as a writer and deciding what to write
    | Applying(op: Op, todo: seq<Write>)

  datatype System = System(lock: State, store: Store, local: map<Thread, Local>, history: seq<Event>)

  function LocalOf(s: System, t: Thread): Local {
    if t in s.local then s.local[t] else Idle
  }

  datatype Act =
    | Call(op: Op)
    | Lock(action: Action)          // releasing, unlocking, taking a token
    | CheckExpiry(now: real)
    | FetchValue
    | LeaveReader
    | EnterAgain                    // the second section of `get` and `has_key`
    | Decide(order: seq<Key>, now: real, stamp: real)
    | WriteNext
    | LeaveWriter

  predicate IsTokenMove(a: Action) {
    a in {ReleaseRead, ReleaseWrite, Unlock, AcquireRead, AcquireWrite}
  }

  function Arrival(op: Op): Action {
    if Looks(op) then ReaderEnters else WriterEnters
  }

  predicate Can(s: System, t: Thread, a: Act) {
    var l := LocalOf(s, t);
    match a
    case Call(op) => l.Idle? && Enabled(s.lock, t, Arrival(op))
    case Lock(action) => IsTokenMove(action) && Enabled(s.lock, t, action)
    case CheckExpiry(now) => l.Looking? && PhaseOf(s.lock, t) == Reading
    // reading a missing key would raise an exception, see NoKeyError
    case FetchValue => l.FoundFresh? && PhaseOf(s.lock, t) == Reading && l.op.key in s.store.cache
    case LeaveReader => (l.Looked? || l.FoundStale?) && Enabled(s.lock, t, ReaderLeaves)
    case EnterAgain => l.Between? && Enabled(s.lock, t, WriterEnters)
    case Decide(order, _, _) => l.Updating? && PhaseOf(s.lock, t) == Writing && Enumerates(order, s.store.cache.Keys)
    case WriteNext => l.Applying? && l.todo != [] && PhaseOf(s.lock, t) == Writing
    case LeaveWriter => l.Applying? && l.todo == [] && Enabled(s.lock, t, WriterLeaves)
  }

  function Plan(c: Config, s: Store, op: Op, order: seq<Key>, now: real, stamp: real): seq<Write> {
    match op
    case Get(key) => PurgePlan(s, key)
    case HasKey(key) => PurgePlan(s, key)
    case Set(key, value, timeout) => StorePlan(c, s, order, key, value, timeout, stamp)
    case Add(key, value, timeout) => AddPlan(c, s, order, key, value, timeout, now, stamp)
    case Delete(key) => DropBoth([key])
  }

  function Removals(keys: seq<Key>, cause: Cause): seq<Event> {
    if keys == [] then [] else Removals(keys[..|keys| - 1], cause) + [Removed(keys[|keys| - 1], cause)]
  }

  function StoreEvents(c: Config, s: Store, order: seq<Key>, key: Key, value: Value, timeout: Option<real>,
      stamp: real): seq<Event>
  {
    (if |s.cache| >= c.maxEntries
     then Removals(if c.cullFrequency == 0 then order else Doomed(order, c.cullFrequency), Culled)
     else [])
    + [Stored(key, Entry(value, Expiry(c, timeout, stamp)))]
  }

  function Events(c: Config, s: Store, t: Thread, op: Op, seen: nat, order: seq<Key>, now: real,
      stamp: real): seq<Event>
  {
    match op
    case Get(key) => if key in s.cache then [Removed(key, Purged(t, seen))] else []
    case HasKey(key) => if key in s.cache then [Removed(key, Purged(t, seen))] else []
    case Set(key, value, timeout) => StoreEvents(c, s, order, key, value, timeout, stamp)
    case Add(key, value, timeout) =>
      if Vacant(s, key, now) then [Admitted(key, now)] + StoreEvents(c, s, order, key, value, timeout, stamp)
      else [Refused(key, now)]
    case Delete(key) => [Removed(key, Deleted)]
  }

  /** What the read section of `op` does once it knows the time. */
  function AfterCheck(s: System, t: Thread, op: Op, now: real): (Local, seq<Event>) {
    if op.key !in s.store.expire then (Looked(op), [Missed(t, op.key, now)])
    else if s.store.expire[op.key] > now then
      if op.Get? then (FoundFresh(op, now), []) else (Looked(op), [Seen(t, op.key, now)])
    else (FoundStale(op, |s.history|), [Missed(t, op.key, now)])
  }

  function Next(c: Config, s: System, t: Thread, a: Act): System
    requires Can(s, t, a)
  {
    var l := LocalOf(s, t);
    match a
    case Call(op) =>
      s.(lock := Step(s.lock, t, Arrival(op)),
         local := s.local[t := if Looks(op) then Looking(op) else Updating(op, 0)])
    case Lock(action) => s.(lock := Step(s.lock, t, action))
    case CheckExpiry(now) =>
      var (l', events) := AfterCheck(s, t, l.op, now);
      s.(local := s.local[t := l'], history := s.history + events)
    case FetchValue =>
      s.(local := s.local[t := Looked(l.op)],
         history := s.history + [Hit(t, l.op.key, s.store.cache[l.op.key], l.now)])
    case LeaveReader =>
      s.(lock := Step(s.lock, t, ReaderLeaves),
         local := s.local[t := if l.Looked? then Idle else Between(l.op, l.seen)])
    case EnterAgain => s.(lock := Step(s.lock, t, WriterEnters), local := s.local[t := Updating(l.op, l.seen)])
    case Decide(order, now, stamp) =>
      s.(local := s.local[t := Applying(l.op, Plan(c, s.store, l.op, order, now, stamp))],
         history := s.history + Events(c, s.store, t, l.op, l.seen, order, now, stamp))
    case WriteNext =>
      s.(store := ApplyWrite(l.todo[0], s.store), local := s.local[t := Applying(l.op, l.todo[1..])])
    case LeaveWriter => s.(lock := Step(s.lock, t, WriterLeaves), local := s.local[t := Idle])
  }

  // ----- the invariant -----

  function Capacity(c: Config): int { if c.maxEntries > 1 then c.maxEntries else 1 }

  /** The size stays within `cap` all along the remaining writes. */
  predicate SizeSafe(cap: int, ws: seq<Write>, s: Store) {
    |s.cache| <= cap && (ws != [] ==> SizeSafe(cap, ws[1..], ApplyWrite(ws[0], s)))
  }

  predicate Fits(p: Phase, l: Local) {
    match l
    case Idle => p == Outside
    case Between(op, _) => p == Outside && Looks(op)
    case Looking(op) => (p == AwaitRead || p == Reading) && Looks(op)
    case FoundFresh(op, _) => p == Reading && op.Get?
    case FoundStale(op, _) => p == Reading && Looks(op)
    case Looked(op) => p == Reading && Looks(op)
    case Updating(_, _) => p == AwaitWrite || p == Writing
    case Applying(_, _) => p == Writing
  }

  /** The writes left make the dictionaries agree with the history again. */
  ghost predicate Settles(c: Config, todo: seq<Write>, s: Store, h: seq<Event>) {
    Agree(ApplyAll(todo, s), h) && SizeSafe(Capacity(c), todo, s)
  }

  /** In the middle of a lookup that found its entry expired. */
  predicate HasSeen(l: Local) {
    l.FoundStale? || l.Between? || (l.Updating? && Looks(l.op))
  }

  /** What a thread may rely on in the middle of an operation. */
  ghost predicate LocalInv(c: Config, s: System, t: Thread) {
    var l := LocalOf(s, t);
    && Fits(PhaseOf(s.lock, t), l)
    && (l.Applying? ==> Settles(c, l.todo, s.store, s.history))
    && (l.FoundFresh? ==> l.op.key in s.store.expire && s.store.expire[l.op.key] > l.now)
    && (HasSeen(l) ==> SawExpired(s.history, t, l.op.key, l.seen))
  }

  ghost predicate Inv(c: Config, s: System) {
    && ReadWriteLock.Inv(s.lock)
    && (forall t :: LocalInv(c, s, t))
    && ((forall t :: !LocalOf(s, t).Applying?) ==> Settles(c, [], s.store, s.history))
    && AllJustified(s.history)
  }

  /** A new cache behind a new lock. */
  predicate Start(s: System) {
    Initial(s.lock) && s.store.cache.Keys == {} && s.store.expire.Keys == {} && s.local.Keys == {} && s.history == []
  }

  lemma InvAtStart(c: Config, s: System)
    requires Start(s)
    ensures Inv(c, s)
  {
    InvHoldsInitially(s.lock);
    forall key ensures AgreeAt(s.store, s.history, key) {
    }
  }

  // ----- more history -----

  lemma {:induction false} LiveRemovals(h: seq<Event>, keys: seq<Key>, cause: Cause, key: Key)
    ensures Live(h + Removals(keys, cause), key) == if key in keys then None else Live(h, key)
  {
    if keys == [] {
      assert h + Removals(keys, cause) == h;
    } else {
      var n := |keys| - 1;
      LiveRemovals(h, keys[..n], cause, key);
      LiveAppend(h + Removals(keys[..n], cause), Removed(keys[n], cause), key);
      assert h + Removals(keys, cause) == h + Removals(keys[..n], cause) + [Removed(keys[n], cause)];
      assert key in keys <==> key in keys[..n] || key == keys[n];
    }
  }

  lemma {:induction false} RemovalsJustified(h: seq<Event>, keys: seq<Key>)
    requires AllJustified(h)
    ensures AllJustified(h + Removals(keys, Culled))
  {
    if keys == [] {
      assert h + Removals(keys, Culled) == h;
    } else {
      var n := |keys| - 1;
      RemovalsJustified(h, keys[..n]);
      JustifiedAppend(h + Removals(keys[..n], Culled), Removed(keys[n], Culled));
      assert h + Removals(keys, Culled) == h + Removals(keys[..n], Culled) + [Removed(keys[n], Culled)];
    }
  }

  lemma {:induction false} SawExpiredStaysAll(h: seq<Event>, events: seq<Event>, t: Thread, key: Key, seen: nat)
    requires SawExpired(h, t, key, seen) && forall e | e in events :: !By(e, t)
    ensures SawExpired(h + events, t, key, seen)
  {
    if events == [] {
      assert h + events == h;
    } else {
      var n := |events| - 1;
      SawExpiredStaysAll(h, events[..n], t, key, seen);
      SawExpiredStays(h + events[..n], events[n], t, key, seen);
      assert h + events == h + events[..n] + [events[n]];
    }
  }

  lemma {:induction false} RemovalsByNobody(keys: seq<Key>, t: Thread)
    ensures forall e | e in Removals(keys, Culled) :: !By(e, t)
  {
    if keys != [] { RemovalsByNobody(keys[..|keys| - 1], t); }
  }

  /** What a section notes is noted by the thread that runs it, if by any. */
  lemma EventsByOneself(c: Config, s: Store, t: Thread, op: Op, seen: nat, order: seq<Key>, now: real, stamp: real,
      u: Thread)
    requires u != t
    ensures forall e | e in Events(c, s, t, op, seen, order, now, stamp) :: !By(e, u)
  {
    RemovalsByNobody(order, u);
    if c.cullFrequency != 0 { RemovalsByNobody(Doomed(order, c.cullFrequency), u); }
  }

  // ----- the plans do what the history says -----

  predicate Removes(w: Write) {
    !w.PutValue? && !w.PutExpiry?
  }

  lemma RemovalShrinks(w: Write, s: Store)
    requires Removes(w)
    ensures |ApplyWrite(w, s).cache| <= |s.cache|
  {
    match w
    case DropValue(k) => DropOneSmaller(s.cache, k);
    case ClearValues => assert ApplyWrite(w, s).cache.Keys == {};
    case _ =>
  }

  lemma {:induction false} RemovalsSafe(cap: int, ws: seq<Write>, rest: seq<Write>, s: Store)
    requires forall w | w in ws :: Removes(w)
    requires |s.cache| <= cap && SizeSafe(cap, rest, ApplyAll(ws, s))
    ensures SizeSafe(cap, ws + rest, s)
    decreases ws
  {
    if ws == [] {
      assert ws + rest == rest;
    } else {
      assert (ws + rest)[1..] == ws[1..] + rest;
      RemovalShrinks(ws[0], s);
      RemovalsSafe(cap, ws[1..], rest, ApplyWrite(ws[0], s));
    }
  }

  lemma {:induction false} DropBothRemoves(keys: seq<Key>)
    ensures forall w | w in DropBoth(keys) :: Removes(w)
  {
    if keys != [] { DropBothRemoves(keys[1..]); }
  }

  lemma DropOneSmaller(m: map<Key, Value>, k: Key)
    ensures |m - {k}| == if k in m then |m| - 1 else |m|
  {
    assert (m - {k}).Keys == m.Keys - {k};
  }

  lemma DropManySmaller(m: map<Key, Value>, keys: set<Key>)
    ensures |m - keys| <= |m|
    ensures (exists k :: k in keys && k in m) ==> |m - keys| < |m|
  {
    assert (m - keys).Keys == m.Keys - keys;
    assert |m.Keys - keys| + |m.Keys * keys| == |m.Keys|;
    if k :| k in keys && k in m {
      assert k in m.Keys * keys;
    }
  }

  lemma {:induction false} FirstIsDoomed(order: seq<Key>, frequency: int)
    requires frequency != 0 && order != []
    ensures order[0] in Doomed(order, frequency)
  {
    var n := |order| - 1;
    if n > 0 { FirstIsDoomed(order[..n], frequency); }
  }

  /** What culling leaves behind, whatever the frequency. */
  lemma CullShrinks(c: Config, s: Store, order: seq<Key>)
    requires Enumerates(order, s.cache.Keys)
    ensures var s' := ApplyAll(CullPlan(c, order), s);
      && |s'.cache| <= |s.cache|
      && (|s.cache| > 0 ==> |s'.cache| < |s.cache|)
  {
    if c.cullFrequency == 0 {
      ApplyTwo(ClearValues, ClearExpiries, s);
    } else {
      var doomed := Doomed(order, c.cullFrequency);
      DropBothKeys(doomed, s);
      DropManySmaller(s.cache, KeySet(doomed));
      if |s.cache| > 0 {
        assert KeySet([]) == {};
        FirstIsDoomed(order, c.cullFrequency);
        assert order[0] in KeySet(order) && order[0] in s.cache.Keys;
      }
    }
  }

  lemma StorePlanSafe(c: Config, s: Store, order: seq<Key>, key: Key, value: Value, timeout: Option<real>, stamp: real)
    requires Enumerates(order, s.cache.Keys) && |s.cache| <= Capacity(c)
    ensures SizeSafe(Capacity(c), StorePlan(c, s, order, key, value, timeout, stamp), s)
  {
    var puts := [PutValue(key, value), PutExpiry(key, Expiry(c, timeout, stamp))];
    if |s.cache| >= c.maxEntries {
      CullShrinks(c, s, order);
      if c.cullFrequency != 0 { DropBothRemoves(Doomed(order, c.cullFrequency)); }
      RemovalsSafe(Capacity(c), CullPlan(c, order), puts, s);
    } else {
      assert [] + puts == puts;
    }
  }

  function CullEvents(c: Config, order: seq<Key>): seq<Event> {
    Removals(if c.cullFrequency == 0 then order else Doomed(order, c.cullFrequency), Culled)
  }

  lemma CullAgrees(c: Config, s: Store, h: seq<Event>, order: seq<Key>)
    requires Agree(s, h) && Enumerates(order, s.cache.Keys)
    ensures Agree(ApplyAll(CullPlan(c, order), s), h + CullEvents(c, order))
  {
    var s' := ApplyAll(CullPlan(c, order), s);
    var gone := if c.cullFrequency == 0 then order else Doomed(order, c.cullFrequency);
    if c.cullFrequency == 0 {
      ApplyTwo(ClearValues, ClearExpiries, s);
    } else {
      DropBothKeys(gone, s);
    }
    forall key ensures AgreeAt(s', h + CullEvents(c, order), key) {
      assert AgreeAt(s, h, key);
      LiveRemovals(h, gone, Culled, key);
      assert key in gone <==> key in KeySet(gone);
    }
  }

  lemma StoreAgrees(c: Config, s: Store, h: seq<Event>, order: seq<Key>, key: Key, value: Value,
      timeout: Option<real>, stamp: real)
    requires Agree(s, h) && AllJustified(h) && Enumerates(order, s.cache.Keys)
    ensures Agree(ApplyAll(StorePlan(c, s, order, key, value, timeout, stamp), s),
                  h + StoreEvents(c, s, order, key, value, timeout, stamp))
    ensures AllJustified(h + StoreEvents(c, s, order, key, value, timeout, stamp))
  {
    var full := |s.cache| >= c.maxEntries;
    var cull := if full then CullPlan(c, order) else [];
    var g := h + if full then CullEvents(c, order) else [];
    var expiry := Expiry(c, timeout, stamp);
    var s1 := ApplyAll(cull, s);
    if full {
      CullAgrees(c, s, h, order);
      RemovalsJustified(h, if c.cullFrequency == 0 then order else Doomed(order, c.cullFrequency));
    } else {
      assert g == h;
    }
    ApplyConcat(cull, [PutValue(key, value), PutExpiry(key, expiry)], s);
    ApplyTwo(PutValue(key, value), PutExpiry(key, expiry), s1);
    JustifiedAppend(g, Stored(key, Entry(value, expiry)));
    assert h + StoreEvents(c, s, order, key, value, timeout, stamp) == g + [Stored(key, Entry(value, expiry))];
    forall k
      ensures AgreeAt(ApplyAll(StorePlan(c, s, order, key, value, timeout, stamp), s),
                      g + [Stored(key, Entry(value, expiry))], k)
    {
      assert AgreeAt(s1, g, k);
      LiveAppend(g, Stored(key, Entry(value, expiry)), k);
    }
  }

  lemma RemoveAgrees(s: Store, h: seq<Event>, key: Key, cause: Cause)
    requires Agree(s, h)
    ensures Agree(ApplyAll(DropBoth([key]), s), h + [Removed(key, cause)])
  {
    DropBothKeys([key], s);
    assert KeySet([key]) == {key};
    forall k ensures AgreeAt(ApplyAll(DropBoth([key]), s), h + [Removed(key, cause)], k) {
      assert AgreeAt(s, h, k);
      LiveAppend(h, Removed(key, cause), k);
    }
  }

  /** An event that neither stores nor removes. */
  lemma ObservationAgrees(s: Store, h: seq<Event>, e: Event)
    requires Agree(s, h) && !e.Stored? && !e.Removed?
    ensures Agree(s, h + [e])
  {
    forall k ensures AgreeAt(s, h + [e], k) {
      assert AgreeAt(s, h, k);
      LiveAppend(h, e, k);
    }
  }

  lemma VacantMeansNotFresh(s: Store, h: seq<Event>, key: Key, now: real)
    requires Agree(s, h)
    ensures Vacant(s, key, now) <==> !Fresh(Live(h, key), now)
  {
    assert AgreeAt(s, h, key);
  }

  lemma StoreSettles(c: Config, s: Store, h: seq<Event>, order: seq<Key>, key: Key, value: Value,
      timeout: Option<real>, stamp: real)
    requires Settles(c, [], s, h) && AllJustified(h) && Enumerates(order, s.cache.Keys)
    ensures var h' := h + StoreEvents(c, s, order, key, value, timeout, stamp);
      Settles(c, StorePlan(c, s, order, key, value, timeout, stamp), s, h') && AllJustified(h')
  {
    StorePlanSafe(c, s, order, key, value, timeout, stamp);
    StoreAgrees(c, s, h, order, key, value, timeout, stamp);
  }

  lemma ObservationSettles(c: Config, s: Store, h: seq<Event>, e: Event)
    requires Settles(c, [], s, h) && AllJustified(h) && Justified(h, e) && !e.Stored? && !e.Removed?
    ensures Settles(c, [], s, h + [e]) && AllJustified(h + [e])
  {
    ObservationAgrees(s, h, e);
    JustifiedAppend(h, e);
  }

  lemma RemoveSettles(c: Config, s: Store, h: seq<Event>, key: Key, cause: Cause)
    requires Settles(c, [], s, h) && AllJustified(h) && Justified(h, Removed(key, cause))
    ensures Settles(c, DropBoth([key]), s, h + [Removed(key, cause)]) && AllJustified(h + [Removed(key, cause)])
  {
    RemoveAgrees(s, h, key, cause);
    JustifiedAppend(h, Removed(key, cause));
  }

  lemma AdmittedSettles(c: Config, s: Store, h: seq<Event>, order: seq<Key>, key: Key, value: Value,
      timeout: Option<real>, now: real, stamp: real, h': seq<Event>)
    requires Settles(c, [], s, h) && AllJustified(h) && Enumerates(order, s.cache.Keys) && Vacant(s, key, now)
    requires h' == h + [Admitted(key, now)] + StoreEvents(c, s, order, key, value, timeout, stamp)
    ensures Settles(c, StorePlan(c, s, order, key, value, timeout, stamp), s, h') && AllJustified(h')
  {
    VacantMeansNotFresh(s, h, key, now);
    ObservationSettles(c, s, h, Admitted(key, now));
    StoreSettles(c, s, h + [Admitted(key, now)], order, key, value, timeout, stamp);
  }

  lemma AddSettles(c: Config, s: Store, h: seq<Event>, t: Thread, op: Op, seen: nat, order: seq<Key>, now: real,
      stamp: real)
    requires Settles(c, [], s, h) && AllJustified(h) && Enumerates(order, s.cache.Keys) && op.Add?
    ensures var h' := h + Events(c, s, t, op, seen, order, now, stamp);
      Settles(c, AddPlan(c, s, order, op.key, op.value, op.timeout, now, stamp), s, h') && AllJustified(h')
  {
    var h' := h + Events(c, s, t, op, seen, order, now, stamp);
    if Vacant(s, op.key, now) {
      AdmittedSettles(c, s, h, order, op.key, op.value, op.timeout, now, stamp, h');
    } else {
      VacantMeansNotFresh(s, h, op.key, now);
      ObservationSettles(c, s, h, Refused(op.key, now));
    }
  }

  /** A section started on agreeing dictionaries ends on agreeing dictionaries. */
  lemma PlanSettles(c: Config, s: Store, h: seq<Event>, t: Thread, op: Op, seen: nat, order: seq<Key>, now: real,
      stamp: real)
    requires Settles(c, [], s, h) && AllJustified(h) && Enumerates(order, s.cache.Keys)
    requires Looks(op) ==> SawExpired(h, t, op.key, seen)
    ensures var h' := h + Events(c, s, t, op, seen, order, now, stamp);
      Settles(c, Plan(c, s, op, order, now, stamp), s, h') && AllJustified(h')
  {
    match op
    case Set(key, value, timeout) => StoreSettles(c, s, h, order, key, value, timeout, stamp);
    case Add(_, _, _) => AddSettles(c, s, h, t, op, seen, order, now, stamp);
    case Delete(key) => RemoveSettles(c, s, h, key, Deleted);
    case Get(key) => PurgeSettles(c, s, h, t, key, seen);
    case HasKey(key) => PurgeSettles(c, s, h, t, key, seen);
  }

  lemma PurgeSettles(c: Config, s: Store, h: seq<Event>, t: Thread, key: Key, seen: nat)
    requires Settles(c, [], s, h) && AllJustified(h) && SawExpired(h, t, key, seen)
    ensures var h' := h + if key in s.cache then [Removed(key, Purged(t, seen))] else [];
      Settles(c, PurgePlan(s, key), s, h') && AllJustified(h')
  {
    if key in s.cache {
      assert AgreeAt(s, h, key);
      RemoveSettles(c, s, h, key, Purged(t, seen));
      assert [key][1..] == [];
      assert PurgePlan(s, key) == DropBoth([key]);
    } else {
      assert h + [] == h;
    }
  }

  // ----- every step keeps the invariant -----

  lemma OthersKeepPhase(lock: State, t: Thread, a: Action, u: Thread)
    requires Enabled(lock, t, a) && u != t
    ensures PhaseOf(Step(lock, t, a), u) == PhaseOf(lock, u)
  {
  }

  /** While `t` reads or writes, nobody else is in the middle of writing. */
  lemma NobodyElseApplies(c: Config, s: System, t: Thread, u: Thread)
    requires Inv(c, s) && PhaseOf(s.lock, t) in {Reading, Writing} && u != t
    ensures !LocalOf(s, u).Applying?
    ensures PhaseOf(s.lock, t) == Writing ==> !LocalOf(s, u).FoundFresh?
  {
    InvExcludes(s.lock);
    assert LocalInv(c, s, u);
  }

  /** A step on the lock alone, together with the local state of the thread that makes it. */
  lemma LockSideKeepsInv(c: Config, s: System, s': System, t: Thread, action: Action)
    requires Inv(c, s) && Enabled(s.lock, t, action)
    requires s'.lock == Step(s.lock, t, action) && s'.store == s.store && s'.history == s.history
    requires forall u | u != t :: LocalOf(s', u) == LocalOf(s, u)
    requires LocalInv(c, s', t) && (LocalOf(s', t).Applying? <==> LocalOf(s, t).Applying?)
    ensures Inv(c, s')
  {
    StepKeepsInv(s.lock, t, action);
    forall u ensures LocalInv(c, s', u) && (LocalOf(s', u).Applying? <==> LocalOf(s, u).Applying?) {
      assert LocalInv(c, s, u);
      if u != t { OthersKeepPhase(s.lock, t, action, u); }
    }
  }

  lemma ArrivalKeepsLocals(c: Config, s: System, t: Thread, a: Act)
    requires Inv(c, s) && Can(s, t, a) && (a.Call? || a.EnterAgain?)
    ensures Inv(c, Next(c, s, t, a))
  {
    assert LocalInv(c, s, t);
    LockSideKeepsInv(c, s, Next(c, s, t, a), t, if a.Call? then Arrival(a.op) else WriterEnters);
  }

  lemma LockMoveKeepsInv(c: Config, s: System, t: Thread, a: Act)
    requires Inv(c, s) && Can(s, t, a) && (a.Lock? || a.LeaveReader?)
    ensures Inv(c, Next(c, s, t, a))
  {
    assert LocalInv(c, s, t);
    LockSideKeepsInv(c, s, Next(c, s, t, a), t, if a.Lock? then a.action else ReaderLeaves);
  }

  lemma LeaveWriterKeepsInv(c: Config, s: System, t: Thread)
    requires Inv(c, s) && Can(s, t, LeaveWriter)
    ensures Inv(c, Next(c, s, t, LeaveWriter))
  {
    var s' := Next(c, s, t, LeaveWriter);
    StepKeepsInv(s.lock, t, WriterLeaves);
    assert LocalInv(c, s, t);
    forall u ensures LocalInv(c, s', u) {
      assert LocalInv(c, s, u);
      if u != t { OthersKeepPhase(s.lock, t, WriterLeaves, u); }
    }
  }

  lemma NobodyApplies(c: Config, s: System, t: Thread)
    requires Inv(c, s) && PhaseOf(s.lock, t) in {Reading, Writing} && !LocalOf(s, t).Applying?
    ensures forall u :: !LocalOf(s, u).Applying?
    ensures Settles(c, [], s.store, s.history)
    ensures Agree(s.store, s.history)
  {
    forall u ensures !LocalOf(s, u).Applying? {
      if u != t { NobodyElseApplies(c, s, t, u); }
    }
    assert ApplyAll([], s.store) == s.store;
  }

  /** The thread `t` notes an answer, or nothing, and only its own local state changes. */
  lemma ObservingKeepsInv(c: Config, s: System, s': System, t: Thread, e: Event)
    requires Inv(c, s) && PhaseOf(s.lock, t) == Reading && !LocalOf(s, t).Applying? && !LocalOf(s', t).Applying?
    requires s'.lock == s.lock && s'.store == s.store && s'.history == s.history + [e]
    requires !e.Stored? && !e.Removed? && Justified(s.history, e) && forall u | u != t :: !By(e, u)
    requires forall u | u != t :: LocalOf(s', u) == LocalOf(s, u)
    requires LocalInv(c, s', t)
    ensures Inv(c, s')
  {
    NobodyApplies(c, s, t);
    ObservationSettles(c, s.store, s.history, e);
    forall u ensures LocalInv(c, s', u) {
      assert LocalInv(c, s, u);
      if u != t && HasSeen(LocalOf(s, u)) {
        SawExpiredStays(s.history, e, u, LocalOf(s, u).op.key, LocalOf(s, u).seen);
      }
    }
  }

  lemma FetchKeepsInv(c: Config, s: System, t: Thread)
    requires Inv(c, s) && Can(s, t, FetchValue)
    ensures Inv(c, Next(c, s, t, FetchValue))
  {
    var l := LocalOf(s, t);
    NobodyApplies(c, s, t);
    assert LocalInv(c, s, t);
    assert AgreeAt(s.store, s.history, l.op.key);
    ObservingKeepsInv(c, s, Next(c, s, t, FetchValue), t, Hit(t, l.op.key, s.store.cache[l.op.key], l.now));
  }

  lemma CheckKeepsInv(c: Config, s: System, t: Thread, now: real)
    requires Inv(c, s) && Can(s, t, CheckExpiry(now))
    ensures Inv(c, Next(c, s, t, CheckExpiry(now)))
  {
    var op := LocalOf(s, t).op;
    var s' := Next(c, s, t, CheckExpiry(now));
    var (l', events) := AfterCheck(s, t, op, now);
    NobodyApplies(c, s, t);
    assert LocalInv(c, s, t);
    assert AgreeAt(s.store, s.history, op.key);
    if events == [] {
      assert s'.history == s.history;
      forall u ensures LocalInv(c, s', u) && !LocalOf(s', u).Applying? { assert LocalInv(c, s, u); }
    } else {
      if l'.FoundStale? {
        assert s'.history[..|s.history|] == s.history && s'.history[|s.history|] == Missed(t, op.key, now);
        assert SawExpired(s'.history, t, op.key, |s.history|);
      }
      ObservingKeepsInv(c, s, s', t, events[0]);
    }
  }

  lemma DecideKeepsInv(c: Config, s: System, t: Thread, order: seq<Key>, now: real, stamp: real)
    requires Inv(c, s) && Can(s, t, Decide(order, now, stamp))
    ensures Inv(c, Next(c, s, t, Decide(order, now, stamp)))
  {
    var s' := Next(c, s, t, Decide(order, now, stamp));
    var op := LocalOf(s, t).op;
    var events := Events(c, s.store, t, op, LocalOf(s, t).seen, order, now, stamp);
    assert LocalInv(c, s, t);
    NobodyApplies(c, s, t);
    PlanSettles(c, s.store, s.history, t, op, LocalOf(s, t).seen, order, now, stamp);
    forall u ensures LocalInv(c, s', u) {
      assert LocalInv(c, s, u);
      if u != t {
        NobodyElseApplies(c, s, t, u);
        if HasSeen(LocalOf(s, u)) {
          EventsByOneself(c, s.store, t, op, LocalOf(s, t).seen, order, now, stamp, u);
          SawExpiredStaysAll(s.history, events, u, LocalOf(s, u).op.key, LocalOf(s, u).seen);
        }
      }
    }
    assert LocalOf(s', t).Applying?;
  }

  lemma WriteKeepsInv(c: Config, s: System, t: Thread)
    requires Inv(c, s) && Can(s, t, WriteNext)
    ensures Inv(c, Next(c, s, t, WriteNext))
  {
    var s' := Next(c, s, t, WriteNext);
    assert LocalInv(c, s, t);
    forall u ensures LocalInv(c, s', u) {
      assert LocalInv(c, s, u);
      if u != t { NobodyElseApplies(c, s, t, u); }
    }
    assert LocalOf(s', t).Applying?;
  }

  lemma NextKeepsInv(c: Config, s: System, t: Thread, a: Act)
    requires Inv(c, s) && Can(s, t, a)
    ensures Inv(c, Next(c, s, t, a))
  {
    match a
    case CheckExpiry(now) => CheckKeepsInv(c, s, t, now);
    case FetchValue => FetchKeepsInv(c, s, t);
    case Decide(order, now, stamp) => DecideKeepsInv(c, s, t, order, now, stamp);
    case WriteNext => WriteKeepsInv(c, s, t);
    case LeaveWriter => LeaveWriterKeepsInv(c, s, t);
    case Call(_) => ArrivalKeepsLocals(c, s, t, a);
    case EnterAgain => ArrivalKeepsLocals(c, s, t, a);
    case _ => LockMoveKeepsInv(c, s, t, a);
  }

  // ----- runs -----

  datatype Turn = Turn(thread: Thread, act: Act)

  predicate Runs(c: Config, s: System, turns: seq<Turn>)
    decreases turns
  {
    turns == [] ||
    (Can(s, turns[0].thread, turns[0].act) && Runs(c, Next(c, s, turns[0].thread, turns[0].act), turns[1..]))
  }

  function After(c: Config, s: System, turns: seq<Turn>): System
    requires Runs(c, s, turns)
    decreases turns
  {
    if turns == [] then s else After(c, Next(c, s, turns[0].thread, turns[0].act), turns[1..])
  }

  lemma {:induction false} RunKeepsInv(c: Config, s: System, turns: seq<Turn>)
    requires Inv(c, s) && Runs(c, s, turns)
    ensures Inv(c, After(c, s, turns))
    decreases turns
  {
    if turns != [] {
      NextKeepsInv(c, s, turns[0].thread, turns[0].act);
      RunKeepsInv(c, Next(c, s, turns[0].thread, turns[0].act), turns[1..]);
    }
  }

  ghost predicate Reachable(c: Config, s: System) {
    exists start, turns :: Start(start) && Runs(c, start, turns) && After(c, start, turns) == s
  }

  lemma ReachableInv(c: Config, s: System)
    requires Reachable(c, s)
    ensures Inv(c, s)
  {
    var start, turns :| Start(start) && Runs(c, start, turns) && After(c, start, turns) == s;
    InvAtStart(c, start);
    RunKeepsInv(c, start, turns);
  }

  ghost predicate NoWriterInside(s: System) {
    forall t :: PhaseOf(s.lock, t) != Writing
  }

  /** Whenever no writer is inside, the two dictionaries have the same keys and hold exactly
      the entries the history calls for; and the size is bounded at every moment, even in
      the middle of a section, for any culling frequency. */
  lemma DictionariesMatchHistory(c: Config, s: System)
    requires Reachable(c, s)
    ensures NoWriterInside(s) ==> s.store.cache.Keys == s.store.expire.Keys
    ensures NoWriterInside(s) ==> forall key :: AgreeAt(s.store, s.history, key)
    ensures |s.store.cache| <= if c.maxEntries > 1 then c.maxEntries else 1
  {
    ReachableInv(c, s);
    if t :| LocalOf(s, t).Applying? {
      assert LocalInv(c, s, t);
    } else {
      forall key ensures key in s.store.cache <==> key in s.store.expire {
        assert AgreeAt(ApplyAll([], s.store), s.history, key);
      }
    }
    if NoWriterInside(s) {
      forall t ensures !LocalOf(s, t).Applying? { assert LocalInv(c, s, t); }
      assert ApplyAll([], s.store) == s.store;
    }
  }

  /** Every answer in every run is the one the history before it calls for: `get` returns a
      value, and `has_key` yes, only for the latest entry stored under the key, not removed
      since and not expired; they answer no only when there is none; `add` stores exactly
      when there is none. */
  lemma EveryAnswerIsRight(c: Config, s: System, i: nat)
    requires Reachable(c, s) && i < |s.history|
    ensures Justified(s.history[..i], s.history[i])
  {
    ReachableInv(c, s);
    JustifiedAt(s.history, i);
  }

  /** A hit is traced to the store it comes from. */
  lemma HitComesFromLatestStore(c: Config, s: System, i: nat)
    requires Reachable(c, s) && i < |s.history| && s.history[i].Hit?
    ensures exists j, expiry | 0 <= j < i ::
      LatestStoreAt(s.history[..i], s.history[i].key, Entry(s.history[i].value, expiry), j) && expiry > s.history[i].now
  {
    EveryAnswerIsRight(c, s, i);
    var h, e := s.history[..i], s.history[i];
    var entry := Live(h, e.key).value;
    LiveIsLatestStore(h, e.key, entry);
    var j :| 0 <= j < i && LatestStoreAt(h, e.key, entry, j);
    assert LatestStoreAt(h, e.key, Entry(e.value, entry.expiry), j);
  }

  lemma {:induction false} HistoryGrows(c: Config, s: System, turns: seq<Turn>)
    requires Runs(c, s, turns)
    ensures s.history <= After(c, s, turns).history
    decreases turns
  {
    if turns != [] { HistoryGrows(c, Next(c, s, turns[0].thread, turns[0].act), turns[1..]); }
  }

  lemma {:induction false} UntouchedStaysLive(h: seq<Event>, more: seq<Event>, key: Key)
    requires forall e | e in more :: !Touches(e, key)
    ensures Live(h + more, key) == Live(h, key)
    decreases more
  {
    if more == [] {
      assert h + more == h;
    } else {
      var n := |more| - 1;
      assert more[n] in more && forall e | e in more[..n] :: e in more;
      UntouchedStaysLive(h, more[..n], key);
      LiveAppend(h + more[..n], more[n], key);
      assert h + more == h + more[..n] + [more[n]];
    }
  }

  /** `set` always stores, `add` when there is no entry or it has expired. */
  predicate WillStore(s: System, op: Op, now: real) {
    op.Set? || (op.Add? && (op.key in s.store.expire ==> s.store.expire[op.key] <= now))
  }

  function Seconds(c: Config, op: Op): real
    requires op.Set? || op.Add?
  {
    if op.timeout.Some? then op.timeout.value else c.defaultTimeout
  }

  lemma StoreEventsLive(c: Config, s: Store, h: seq<Event>, order: seq<Key>, op: Op, stamp: real)
    requires op.Set? || op.Add?
    ensures Live(h + StoreEvents(c, s, order, op.key, op.value, op.timeout, stamp), op.key) ==
      Some(Entry(op.value, stamp + Seconds(c, op)))
  {
    var events := StoreEvents(c, s, order, op.key, op.value, op.timeout, stamp);
    var stored := Stored(op.key, Entry(op.value, stamp + Seconds(c, op)));
    var before := events[..|events| - 1];
    assert events == before + [stored];
    LiveAppend(h + before, stored, op.key);
    assert h + events == h + before + [stored];
  }

  lemma StoringIsLive(c: Config, s: System, t: Thread, order: seq<Key>, now: real, stamp: real)
    requires Can(s, t, Decide(order, now, stamp)) && WillStore(s, LocalOf(s, t).op, now)
    ensures var op := LocalOf(s, t).op;
      Live(Next(c, s, t, Decide(order, now, stamp)).history, op.key) ==
        Some(Entry(op.value, stamp + Seconds(c, op)))
  {
    var op := LocalOf(s, t).op;
    if op.Set? {
      StoreEventsLive(c, s.store, s.history, order, op, stamp);
    } else {
      var events := StoreEvents(c, s.store, order, op.key, op.value, op.timeout, stamp);
      StoreEventsLive(c, s.store, s.history + [Admitted(op.key, now)], order, op, stamp);
      Assoc(s.history, [Admitted(op.key, now)], events);
    }
  }

  lemma RunKeepsLive(c: Config, s: System, turns: seq<Turn>, key: Key)
    requires Inv(c, s) && Runs(c, s, turns)
    requires forall m | |s.history| <= m < |After(c, s, turns).history| :: !Touches(After(c, s, turns).history[m], key)
    ensures Inv(c, After(c, s, turns)) && Live(After(c, s, turns).history, key) == Live(s.history, key)
  {
    RunKeepsInv(c, s, turns);
    HistoryGrows(c, s, turns);
    var more := After(c, s, turns).history[|s.history|..];
    assert After(c, s, turns).history == s.history + more;
    UntouchedStaysLive(s.history, more, key);
  }

  /** What the lookup of `t`, about to read the clock as `now`, puts on record: a hit with the
      value, or a yes of `has_key`, if `served`, and otherwise a miss. */
  predicate Answers(c: Config, s: System, t: Thread, now: real, value: Value, served: bool)
    requires Can(s, t, CheckExpiry(now))
  {
    var op, s' := LocalOf(s, t).op, Next(c, s, t, CheckExpiry(now));
    if !served then s'.history == s.history + [Missed(t, op.key, now)]
    else if op.HasKey? then s'.history == s.history + [Seen(t, op.key, now)]
    else
      && Can(s', t, FetchValue)
      && Next(c, s', t, FetchValue).history == s.history + [Hit(t, op.key, value, now)]
  }

  lemma LookupAnswers(c: Config, s: System, t: Thread, now: real, entry: Entry)
    requires Inv(c, s) && Can(s, t, CheckExpiry(now)) && Live(s.history, LocalOf(s, t).op.key) == Some(entry)
    ensures Answers(c, s, t, now, entry.value, entry.expiry > now)
  {
    NobodyApplies(c, s, t);
    assert AgreeAt(s.store, s.history, LocalOf(s, t).op.key);
    assert LocalInv(c, s, t);
  }

  /** How long an entry is served.  After a section of `set`, or of an `add` that stores, and
      any further run in which nothing stores or removes under the key, a lookup that reads the
      clock answers with the value exactly when less time has gone by since the store than the
      timeout given, or than the default one if none is given. */
  lemma ServedUntilTimeout(c: Config, s: System, t: Thread, order: seq<Key>, now: real, stamp: real,
      s': System, turns: seq<Turn>, s'': System, u: Thread, later: real)
    requires Reachable(c, s) && Can(s, t, Decide(order, now, stamp)) && WillStore(s, LocalOf(s, t).op, now)
    requires s' == Next(c, s, t, Decide(order, now, stamp)) && Runs(c, s', turns) && s'' == After(c, s', turns)
    requires forall m | |s'.history| <= m < |s''.history| :: !Touches(s''.history[m], LocalOf(s, t).op.key)
    requires Can(s'', u, CheckExpiry(later)) && LocalOf(s'', u).op.key == LocalOf(s, t).op.key
    ensures var op := LocalOf(s, t).op; Answers(c, s'', u, later, op.value, later - stamp < Seconds(c, op))
  {
    StoredInRun(c, s, t, order, now, stamp, s');
    AnsweredInRun(c, s', turns, s'', u, later, LocalOf(s, t).op, stamp);
  }

  lemma StoredInRun(c: Config, s: System, t: Thread, order: seq<Key>, now: real, stamp: real, s': System)
    requires Reachable(c, s) && Can(s, t, Decide(order, now, stamp)) && WillStore(s, LocalOf(s, t).op, now)
    requires s' == Next(c, s, t, Decide(order, now, stamp))
    ensures Inv(c, s') && IsServed(c, s', LocalOf(s, t).op, stamp)
  {
    ReachableInv(c, s);
    NextKeepsInv(c, s, t, Decide(order, now, stamp));
    StoringIsLive(c, s, t, order, now, stamp);
  }

  predicate IsServed(c: Config, s: System, op: Op, stamp: real) {
    (op.Set? || op.Add?) && Live(s.history, op.key) == Some(Entry(op.value, stamp + Seconds(c, op)))
  }

  lemma AnsweredInRun(c: Config, s: System, turns: seq<Turn>, s': System, u: Thread, later: real, op: Op, stamp: real)
    requires Inv(c, s) && IsServed(c, s, op, stamp) && Runs(c, s, turns) && s' == After(c, s, turns)
    requires forall m | |s.history| <= m < |s'.history| :: !Touches(s'.history[m], op.key)
    requires Can(s', u, CheckExpiry(later)) && LocalOf(s', u).op.key == op.key
    ensures Answers(c, s', u, later, op.value, later - stamp < Seconds(c, op))
  {
    RunKeepsLive(c, s, turns, op.key);
    LookupAnswers(c, s', u, later, Entry(op.value, stamp + Seconds(c, op)));
  }

  /** `get` never fails on the key whose expiry it has just read. */
  lemma NoKeyError(c: Config, s: System, t: Thread)
    requires Reachable(c, s) && LocalOf(s, t).FoundFresh?
    ensures Can(s, t, FetchValue)
  {
    ReachableInv(c, s);
    assert LocalInv(c, s, t);
    NobodyApplies(c, s, t);
    assert AgreeAt(s.store, s.history, LocalOf(s, t).op.key);
  }

  /** An entry leaves the cache in one of three ways: it is deleted, it is culled, or a lookup
      takes it out that has itself found the key expired, and done nothing else since. */
  lemma WhyEntriesDisappear(c: Config, s: System, i: nat)
    requires Reachable(c, s) && i < |s.history| && s.history[i].Removed?
    ensures s.history[i].cause in {Deleted, Culled} ||
      SawExpired(s.history[..i], s.history[i].cause.thread, s.history[i].key, s.history[i].cause.seen)
  {
    EveryAnswerIsRight(c, s, i);
  }

  predicate NoStoreSince(h: seq<Event>, key: Key, seen: nat) {
    forall m | seen < m < |h| :: !(h[m].Stored? && h[m].key == key)
  }

  /** The entry under `key` is still the one that was there at `seen`. */
  ghost predicate StillTheSame(h: seq<Event>, key: Key, seen: nat) {
    exists j, entry | 0 <= j < |h| && j < seen :: LatestStoreAt(h, key, entry, j)
  }

  /** It is one that was stored later. */
  ghost predicate StoredLater(h: seq<Event>, key: Key, seen: nat) {
    exists j, entry | seen < j < |h| :: LatestStoreAt(h, key, entry, j)
  }

  /** A lookup takes out the entry it found expired exactly when nothing was stored under the
      key between its two sections.  Otherwise it takes out what was stored meanwhile, however
      far the expiry of that lies ahead. */
  lemma PurgesItsOwnFindingExactlyWhen(c: Config, s: System, i: nat)
    requires Reachable(c, s) && i < |s.history| && s.history[i].Removed? && s.history[i].cause.Purged?
    ensures var h, key, seen := s.history[..i], s.history[i].key, s.history[i].cause.seen;
      && seen < i && s.history[seen].Missed? && s.history[seen].thread == s.history[i].cause.thread
      && (StillTheSame(h, key, seen) <==> NoStoreSince(h, key, seen))
      && (StoredLater(h, key, seen) <==> !NoStoreSince(h, key, seen))
  {
    EveryAnswerIsRight(c, s, i);
    var h, key, seen := s.history[..i], s.history[i].key, s.history[i].cause.seen;
    var entry := Live(h, key).value;
    LiveIsLatestStore(h, key, entry);
    var j :| 0 <= j < |h| && LatestStoreAt(h, key, entry, j);
    LatestIsUnique(h, key, j, entry);
    assert j != seen;
    if j > seen {
      assert h[j].Stored? && h[j].key == key;
    } else {
      assert forall m | seen < m < |h| :: !Touches(h[m], key);
    }
  }

  lemma LatestIsUnique(h: seq<Event>, key: Key, j: nat, entry: Entry)
    requires j < |h| && LatestStoreAt(h, key, entry, j)
    ensures forall m: nat, e | m < |h| && LatestStoreAt(h, key, e, m) :: m == j
  {
    forall m: nat, e | m < |h| && LatestStoreAt(h, key, e, m) ensures m == j {
      assert Touches(h[m], key) && Touches(h[j], key);
    }
  }

  /** The second section of a lookup leaves nothing under its key, neither in the dictionaries
      nor by the history, whatever was stored there since its first section. */
  lemma PurgeTakesFreshEntry(c: Config, s: System, t: Thread, order: seq<Key>, now: real, stamp: real)
    requires Reachable(c, s) && Can(s, t, Decide(order, now, stamp)) && Looks(LocalOf(s, t).op)
    ensures var key := LocalOf(s, t).op.key;
      && Live(Next(c, s, t, Decide(order, now, stamp)).history, key) == None
      && key !in ApplyAll(Plan(c, s.store, LocalOf(s, t).op, order, now, stamp), s.store).cache
  {
    ReachableInv(c, s);
    var key := LocalOf(s, t).op.key;
    var s' := Next(c, s, t, Decide(order, now, stamp));
    DecideKeepsInv(c, s, t, order, now, stamp);
    assert LocalInv(c, s', t);
    assert AgreeAt(ApplyAll(LocalOf(s', t).todo, s'.store), s'.history, key);
    if key in s.store.cache {
      LiveAppend(s.history, Removed(key, Purged(t, LocalOf(s, t).seen)), key);
      ApplyTwo(DropValue(key), DropExpiry(key), s.store);
    }
  }

  /** A section of `delete` leaves nothing under its key, and every other key as it was. */
  lemma DeleteTakesEffect(c: Config, s: System, t: Thread, order: seq<Key>, now: real, stamp: real, key: Key)
    requires Can(s, t, Decide(order, now, stamp)) && LocalOf(s, t).op.Delete?
    ensures Live(Next(c, s, t, Decide(order, now, stamp)).history, key) ==
      if key == LocalOf(s, t).op.key then None else Live(s.history, key)
  {
    LiveAppend(s.history, Removed(LocalOf(s, t).op.key, Deleted), key);
  }

  /** An entry that a later lookup misses although it has not expired was removed in between,
      for one of the three reasons above. */
  lemma LostEntryWasRemoved(c: Config, s: System, j: nat, i: nat)
    requires Reachable(c, s) && j < i < |s.history|
    requires s.history[j].Stored? && s.history[i].Missed? && s.history[i].key == s.history[j].key
    requires s.history[i].now < s.history[j].entry.expiry
    requires forall m | j < m < i && s.history[m].Stored? :: s.history[m].key != s.history[j].key
    ensures exists m | j < m < i :: s.history[m].Removed? && s.history[m].key == s.history[j].key
  {
    EveryAnswerIsRight(c, s, i);
    var h, key, entry := s.history[..i], s.history[j].key, s.history[j].entry;
    if forall m | j < m < i :: !(s.history[m].Removed? && s.history[m].key == key) {
      forall m | j < m < |h| ensures !Touches(h[m], key) {
        assert h[m] == s.history[m];
      }
      assert h[j] == s.history[j];
      assert LatestStoreAt(h, key, entry, j);
      LiveIsLatestStore(h, key, entry);
      assert false;
    }
  }

  // ----- a run that loses a fresh entry -----

  ghost predicate Quiet(l: State) {
    && l.counters == Counters(0, 0, 0, 0)
    && l.canRead == l.canWrite == l.owedRead == l.owedWrite == 0
    && l.holder.Free?
    && forall t :: PhaseOf(l, t) == Outside
  }

  lemma FirstTurn(c: Config, s: System, turn: Turn, turns: seq<Turn>)
    requires Can(s, turn.thread, turn.act) && Runs(c, Next(c, s, turn.thread, turn.act), turns)
    ensures Runs(c, s, [turn] + turns)
    ensures After(c, s, [turn] + turns) == After(c, Next(c, s, turn.thread, turn.act), turns)
  {
    assert ([turn] + turns)[1..] == turns;
  }

  lemma AfterFirst(c: Config, s: System, turns: seq<Turn>)
    requires turns != [] && Runs(c, s, turns)
    ensures var s' := Next(c, s, turns[0].thread, turns[0].act);
      Runs(c, s', turns[1..]) && After(c, s, turns) == After(c, s', turns[1..])
  {
  }

  lemma {:induction false} ThenTurns(c: Config, s: System, a: seq<Turn>, b: seq<Turn>)
    requires Runs(c, s, a) && Runs(c, After(c, s, a), b)
    ensures Runs(c, s, a + b) && After(c, s, a + b) == After(c, After(c, s, a), b)
    decreases a
  {
    if a == [] {
      assert a + b == b;
    } else {
      assert (a + b)[1..] == a[1..] + b && (a + b)[0] == a[0];
      AfterFirst(c, s, a);
      ThenTurns(c, Next(c, s, a[0].thread, a[0].act), a[1..], b);
    }
  }

  ghost predicate OnlyWritten(s: System, s': System, t: Thread, l: Local) {
    && LocalOf(s', t) == l
    && forall u | u != t :: LocalOf(s', u) == LocalOf(s, u)
  }

  /** One thread is inside, in phase `p`, with the lock at rest. */
  ghost predicate Inside(l: State, t: Thread, p: Phase) {
    && l.counters == (if p == Writing then Counters(0, 1, 0, 0) else Counters(1, 0, 0, 0))
    && l.canRead == l.canWrite == l.owedRead == l.owedWrite == 0
    && l.holder.Free?
    && PhaseOf(l, t) == p && forall u | u != t :: PhaseOf(l, u) == Outside
  }

  lemma LockEntered(l: State, t: Thread, asReader: bool) returns (l1: State, l2: State, l3: State, l4: State)
    requires Quiet(l)
    ensures var arrive, release, acquire := if asReader then ReaderEnters else WriterEnters,
      if asReader then ReleaseRead else ReleaseWrite, if asReader then AcquireRead else AcquireWrite;
      && Enabled(l, t, arrive) && l1 == Step(l, t, arrive)
      && Enabled(l1, t, release) && l2 == Step(l1, t, release)
      && Enabled(l2, t, Unlock) && l3 == Step(l2, t, Unlock)
      && Enabled(l3, t, acquire) && l4 == Step(l3, t, acquire)
    ensures Inside(l4, t, if asReader then Reading else Writing)
  {
    l1 := Step(l, t, if asReader then ReaderEnters else WriterEnters);
    l2 := Step(l1, t, if asReader then ReleaseRead else ReleaseWrite);
    l3 := Step(l2, t, Unlock);
    l4 := Step(l3, t, if asReader then AcquireRead else AcquireWrite);
    forall u | u != t ensures PhaseOf(l4, u) == Outside {
      assert PhaseOf(l, u) == Outside && PhaseOf(l1, u) == PhaseOf(l, u);
      assert PhaseOf(l4, u) == PhaseOf(l1, u);
    }
  }

  /** Entering an unused lock: the section, its token, the mutex, the token taken. */
  lemma {:induction false} Enters(c: Config, s: System, t: Thread, first: Act) returns (turns: seq<Turn>)
    requires Quiet(s.lock) && Can(s, t, first) && (first.Call? || first.EnterAgain?)
    ensures Runs(c, s, turns)
    ensures var s' := After(c, s, turns);
      && Inside(s'.lock, t, if first.Call? && Looks(first.op) then Reading else Writing)
      && s'.store == s.store && s'.history == s.history
      && OnlyWritten(s, s', t, LocalOf(Next(c, s, t, first), t))
  {
    var asReader := first.Call? && Looks(first.op);
    var release := Lock(if asReader then ReleaseRead else ReleaseWrite);
    var acquire := Lock(if asReader then AcquireRead else AcquireWrite);
    var l1, l2, l3, l4 := LockEntered(s.lock, t, asReader);
    var s1 := Next(c, s, t, first);
    var s2, s3 := s1.(lock := l2), s1.(lock := l3);
    assert Next(c, s1, t, release) == s2 && Next(c, s2, t, Lock(Unlock)) == s3;
    FirstTurn(c, s3, Turn(t, acquire), []);
    turns := [Turn(t, acquire)] + [];
    FirstTurn(c, s2, Turn(t, Lock(Unlock)), turns);
    turns := [Turn(t, Lock(Unlock))] + turns;
    FirstTurn(c, s1, Turn(t, release), turns);
    turns := [Turn(t, release)] + turns;
    FirstTurn(c, s, Turn(t, first), turns);
    turns := [Turn(t, first)] + turns;
  }

  /** Leaving it again. */
  lemma Leaves(c: Config, s: System, t: Thread, last: Act) returns (turns: seq<Turn>)
    requires Can(s, t, last) && (last.LeaveReader? || last.LeaveWriter?)
    requires Inside(s.lock, t, if last.LeaveReader? then Reading else Writing)
    ensures Runs(c, s, turns)
    ensures var s' := After(c, s, turns);
      && Quiet(s'.lock) && s'.store == s.store && s'.history == s.history
      && OnlyWritten(s, s', t, LocalOf(Next(c, s, t, last), t))
  {
    var s1 := Next(c, s, t, last);
    var l2 := Step(s1.lock, t, Unlock);
    forall u ensures PhaseOf(l2, u) == Outside {
      assert PhaseOf(s1.lock, u) == if u == t then Outside else PhaseOf(s.lock, u);
    }
    FirstTurn(c, s1, Turn(t, Lock(Unlock)), []);
    turns := [Turn(t, Lock(Unlock))] + [];
    FirstTurn(c, s, Turn(t, last), turns);
    turns := [Turn(t, last)] + turns;
  }

  lemma {:induction false} Writes(c: Config, s: System, t: Thread) returns (turns: seq<Turn>)
    requires LocalOf(s, t).Applying? && PhaseOf(s.lock, t) == Writing
    ensures Runs(c, s, turns)
    ensures var s', l := After(c, s, turns), LocalOf(s, t);
      && s'.lock == s.lock && s'.store == ApplyAll(l.todo, s.store) && s'.history == s.history
      && OnlyWritten(s, s', t, Applying(l.op, []))
    decreases |LocalOf(s, t).todo|
  {
    if LocalOf(s, t).todo == [] {
      turns := [];
    } else {
      turns := Writes(c, Next(c, s, t, WriteNext), t);
      FirstTurn(c, s, Turn(t, WriteNext), turns);
      turns := [Turn(t, WriteNext)] + turns;
    }
  }

  /** A whole writing section on an unused lock has the effect of its plan. */
  lemma {:induction false} WritingSection(c: Config, s: System, t: Thread, first: Act, order: seq<Key>, now: real,
      stamp: real)
    returns (turns: seq<Turn>)
    requires Quiet(s.lock) && Can(s, t, first) && ((first.Call? && !Looks(first.op)) || first.EnterAgain?)
    requires Enumerates(order, s.store.cache.Keys)
    ensures Runs(c, s, turns)
    ensures var s', l := After(c, s, turns), LocalOf(Next(c, s, t, first), t);
      && Quiet(s'.lock) && OnlyWritten(s, s', t, Idle)
      && s'.store == ApplyAll(Plan(c, s.store, l.op, order, now, stamp), s.store)
      && s'.history == s.history + Events(c, s.store, t, l.op, l.seen, order, now, stamp)
  {
    var enter := Enters(c, s, t, first);
    var s1 := After(c, s, enter);
    var decide := Turn(t, Decide(order, now, stamp));
    var s2 := Next(c, s1, t, decide.act);
    var write := Writes(c, s2, t);
    var s3 := After(c, s2, write);
    var leave := Leaves(c, s3, t, LeaveWriter);
    ThenTurns(c, s2, write, leave);
    FirstTurn(c, s1, decide, write + leave);
    ThenTurns(c, s, enter, [decide] + (write + leave));
    turns := enter + ([decide] + (write + leave));
  }

  /** The reading section of a lookup that finds its entry expired. */
  lemma StaleLookup(c: Config, s: System, t: Thread, op: Op, now: real) returns (turns: seq<Turn>)
    requires Quiet(s.lock) && LocalOf(s, t).Idle? && Looks(op)
    requires op.key in s.store.expire && s.store.expire[op.key] <= now
    ensures Runs(c, s, turns)
    ensures var s' := After(c, s, turns);
      && Quiet(s'.lock) && s'.store == s.store && s'.history == s.history + [Missed(t, op.key, now)]
      && OnlyWritten(s, s', t, Between(op, |s.history|))
  {
    var enter := Enters(c, s, t, Call(op));
    var s1 := After(c, s, enter);
    var check := Turn(t, CheckExpiry(now));
    var s2 := Next(c, s1, t, check.act);
    var leave := Leaves(c, s2, t, LeaveReader);
    FirstTurn(c, s1, check, leave);
    ThenTurns(c, s, enter, [check] + leave);
    turns := enter + ([check] + leave);
  }

  lemma SetEffect(c: Config, s: Store, t: Thread, order: seq<Key>, key: Key, entry: Entry)
    requires |s.cache| < c.maxEntries
    ensures var op := Set(key, entry.value, Some(entry.expiry));
      && ApplyAll(Plan(c, s, op, order, 0.0, 0.0), s) ==
        Store(s.cache[key := entry.value], s.expire[key := entry.expiry])
      && Events(c, s, t, op, 0, order, 0.0, 0.0) == [Stored(key, entry)]
  {
    var puts := [PutValue(key, entry.value), PutExpiry(key, 0.0 + entry.expiry)];
    assert [] + puts == puts;
    ApplyTwo(PutValue(key, entry.value), PutExpiry(key, 0.0 + entry.expiry), s);
    assert [] + [Stored(key, entry)] == [Stored(key, entry)];
  }

  lemma SetSection(c: Config, s: System, t: Thread, order: seq<Key>, key: Key, entry: Entry) returns (turns: seq<Turn>)
    requires Quiet(s.lock) && LocalOf(s, t).Idle?
    requires Enumerates(order, s.store.cache.Keys) && |s.store.cache| < c.maxEntries
    ensures Runs(c, s, turns)
    ensures var s' := After(c, s, turns);
      && Quiet(s'.lock) && OnlyWritten(s, s', t, Idle) && s'.history == s.history + [Stored(key, entry)]
      && s'.store == Store(s.store.cache[key := entry.value], s.store.expire[key := entry.expiry])
  {
    turns := WritingSection(c, s, t, Call(Set(key, entry.value, Some(entry.expiry))), order, 0.0, 0.0);
    SetEffect(c, s.store, t, order, key, entry);
  }

  lemma PurgeSection(c: Config, s: System, t: Thread, order: seq<Key>, key: Key, seen: nat) returns (turns: seq<Turn>)
    requires Quiet(s.lock) && LocalOf(s, t) == Between(Get(key), seen)
    requires Enumerates(order, s.store.cache.Keys) && key in s.store.cache
    ensures Runs(c, s, turns)
    ensures var s' := After(c, s, turns);
      s'.history == s.history + [Removed(key, Purged(t, seen))] && key !in s'.store.cache
  {
    turns := WritingSection(c, s, t, EnterAgain, order, 0.0, 0.0);
    ApplyTwo(DropValue(key), DropExpiry(key), s.store);
  }

  /** Between the two sections of a lookup another thread stores under its key. */
  lemma StoredInBetween(c: Config, s: System, key: Key, entry: Entry, seen: nat) returns (turns: seq<Turn>)
    requires Quiet(s.lock) && LocalOf(s, 1).Idle? && LocalOf(s, 2) == Between(Get(key), seen)
    requires c.maxEntries > 1 && s.store.cache.Keys == {key}
    ensures Runs(c, s, turns)
    ensures var s' := After(c, s, turns);
      s'.history == s.history + ([Stored(key, entry)] + [Removed(key, Purged(2, seen))]) && key !in s'.store.cache
  {
    OneEntry(s.store, key);
    var d := SetSection(c, s, 1, [key], key, entry);
    var s' := After(c, s, d);
    OneEntry(s'.store, key);
    var e := PurgeSection(c, s', 2, [key], key, seen);
    ThenTurns(c, s, d, e);
    turns := d + e;
    Assoc(s.history, [Stored(key, entry)], [Removed(key, Purged(2, seen))]);
  }

  /** What is left of a run that loses a fresh entry. */
  predicate LosesFreshEntry(h: seq<Event>, key: Key, first: Entry, second: Entry, now: real) {
    h == [Stored(key, first), Missed(2, key, now), Stored(key, second), Removed(key, Purged(2, 1))]
  }

  /** From a new cache: thread 1 stores, thread 2 looks and finds the entry expired, thread 1
      stores again, for as long as it likes, and thread 2 takes that out.  The cache is not
      full and nobody deleted anything. */
  lemma FreshEntryMayBeLost(c: Config, s: System, key: Key, first: Entry, second: Entry, now: real)
    returns (turns: seq<Turn>)
    requires Start(s) && c.maxEntries > 1 && first.expiry <= now
    ensures Runs(c, s, turns) && LosesFreshEntry(After(c, s, turns).history, key, first, second, now)
    ensures key !in After(c, s, turns).store.cache
  {
    assert Quiet(s.lock) by {
      assert forall t :: PhaseOf(s.lock, t) == Outside;
    }
    assert Enumerates([], s.store.cache.Keys) && |s.store.cache| == 0 by {
      assert KeySet([]) == {};
    }
    var a := SetSection(c, s, 1, [], key, first);
    var s1 := After(c, s, a);
    var b := StaleLookup(c, s1, 2, Get(key), now);
    var s2 := After(c, s1, b);
    var d := StoredInBetween(c, s2, key, second, 1);
    ThenTurns(c, s1, b, d);
    ThenTurns(c, s, a, b + d);
    turns := a + (b + d);
  }

  lemma OneEntry(s: Store, key: Key)
    requires s.cache.Keys == {key}
    ensures Enumerates([key], s.cache.Keys) && |s.cache| == 1
  {
    assert KeySet([key]) == {key};
    assert |s.cache| == |s.cache.Keys|;
  }
}
