/** Sharing one asynchronous call among all who ask for the same key
    (agent/mmc/support/cache.py:332-373).

    A Deferred is a result that may not be there yet and the links appended to it.  Users and
    operations are numbered in the order in which they come to be. */
module DeferredCache {
  import opened Basics
  import opened LocMemCache

  type User = nat

  datatype Outcome = Success(value: nat) | Failure(error: nat)

  /** The two links `call` appends: `addCallback` and `addErrback`. */
  datatype Link = OnSuccess(user: User) | OnFailure(user: User)

  /** One invocation of the wrapped operation; links not run yet wait for its outcome. */
  datatype Operation = Operation(key: Option<Key>, outcome: Option<Outcome>, links: seq<Link>)

  datatype State = State(
    store: Store,
    ops: seq<Operation>,
    fired: seq<seq<Outcome>>,   // every firing of each user's deferred
    waitsOn: seq<nat>)          // the operation each user was attached to

  datatype Reply = Attached(user: User) | Direct(op: nat) | Crashed

  /** What one link does with the result that reaches it: whom it fires, and the result it
      passes on. */
  function RunLink(fired: seq<seq<Outcome>>, link: Link, result: Outcome): (seq<seq<Outcome>>, Outcome)
    requires link.user < |fired|
  {
    if link.OnSuccess? == result.Success?
    then (fired[link.user := fired[link.user] + [result]], result)
    else (fired, result)
  }

  predicate LinksKnown(links: seq<Link>, users: nat) {
    forall link | link in links :: link.user < users
  }

  function RunLinks(fired: seq<seq<Outcome>>, links: seq<Link>, result: Outcome): (r: (seq<seq<Outcome>>, Outcome))
    requires LinksKnown(links, |fired|)
    ensures |r.0| == |fired|
    decreases links
  {
    if links == [] then (fired, result)
    else
      var (fired', result') := RunLink(fired, links[0], result);
      RunLinks(fired', links[1..], result')
  }

  /** The links that users waiting on `op` have appended to it, oldest first. */
  function Waiting(waitsOn: seq<nat>, op: nat): seq<Link> {
    if waitsOn == [] then []
    else
      var n := |waitsOn| - 1;
      Waiting(waitsOn[..n], op) + if waitsOn[n] == op then [OnSuccess(n), OnFailure(n)] else []
  }

  function Attach(s: State, op: nat): State
    requires op < |s.ops|
  {
    var user := |s.fired|;
    match s.ops[op].outcome
    case None =>
      s.(ops := s.ops[op := s.ops[op].(links := s.ops[op].links + [OnSuccess(user), OnFailure(user)])],
         fired := s.fired + [[]], waitsOn := s.waitsOn + [op])
    case Some(result) =>
      s.(fired := RunLinks(s.fired + [[]], [OnSuccess(user), OnFailure(user)], result).0, waitsOn := s.waitsOn + [op])
  }

  predicate StoreKnown(s: State) {
    && s.store.cache.Keys == s.store.expire.Keys
    && (forall k | k in s.store.cache :: s.store.cache[k] < |s.ops|)
  }

  /** Nothing cached: the operation is invoked and cached.  `immediate` is its outcome if it
      is done when it returns. */
  function Invoked(c: Config, s: State, k: Key, t1: real, order: seq<Key>, stamp: real,
      immediate: Option<Outcome>): State
  {
    var store := AfterLookup(s.store, k, t1);
    s.(store := ApplyAll(StorePlan(c, store, order, k, |s.ops|, None, stamp), store),
       ops := s.ops + [Operation(Some(k), immediate, [])])
  }

  /** `call`.  The clock is read by `has_key` at `t1`, by `get` at `t2` and by `set` at
      `stamp`. */
  function Called(c: Config, s: State, key: Option<Key>, t1: real, t2: real, order: seq<Key>, stamp: real,
      immediate: Option<Outcome>): (State, Reply)
    requires StoreKnown(s)
  {
    match key
    case None => (s.(ops := s.ops + [Operation(None, immediate, [])]), Direct(|s.ops|))
    case Some(k) =>
      if Vacant(s.store, k, t1) then
        (Attach(Invoked(c, s, k, t1, order, stamp, immediate), |s.ops|), Attached(|s.fired|))
      else if Vacant(s.store, k, t2) then (s.(store := AfterLookup(s.store, k, t2)), Crashed)
      else (Attach(s, s.store.cache[k]), Attached(|s.fired|))
  }

  /** The operation delivers its outcome. */
  function Completed(s: State, op: nat, result: Outcome): State
    requires op < |s.ops| && LinksKnown(s.ops[op].links, |s.fired|)
  {
    s.(ops := s.ops[op := Operation(s.ops[op].key, Some(result), [])],
       fired := RunLinks(s.fired, s.ops[op].links, result).0)
  }

  /** Every user's deferred has fired exactly once, with the outcome of the operation it was
      attached to, if that operation is done, and not at all if it is not; and everyone not
      yet served has both links in place. */
  predicate Served(s: State) {
    && |s.waitsOn| == |s.fired|
    && (forall u | 0 <= u < |s.fired| :: s.waitsOn[u] < |s.ops| &&
         s.fired[u] == match s.ops[s.waitsOn[u]].outcome case None => [] case Some(r) => [r])
    && (forall d | 0 <= d < |s.ops| :: s.ops[d].links == if s.ops[d].outcome.None? then Waiting(s.waitsOn, d) else [])
  }

  /** What is cached under a key is an invocation made for that key. */
  predicate Matches(s: State) {
    StoreKnown(s) && forall k | k in s.store.cache :: s.ops[s.store.cache[k]].key == Some(k)
  }

  predicate Inv(s: State) { Served(s) && Matches(s) }

  // ----- the object -----

  /** The wrapper around one operation.  The deferreds are fields here, numbered, rather than
      objects of their own. */
  class DeferredCache {
    const cache: LocMemCache
    var ops: seq<Operation>
    var fired: seq<seq<Outcome>>
    ghost var waitsOn: seq<nat>

    ghost function View(): State
      reads this, cache
    {
      State(cache.Data(), ops, fired, waitsOn)
    }

    constructor (config: Config)
      ensures fresh(cache) && cache.config == config && Inv(View())
      ensures ops == [] && fired == []
    {
      cache := new LocMemCache(config);
      ops, fired, waitsOn := [], [], [];
    }

    /** `addCallback` or `addErrback` with one of the two trigger functions: runs at once on a
        deferred that already has its result. */
    method Append(op: nat, link: Link)
      requires op < |ops| && link.user < |fired|
      modifies this`ops, this`fired
      ensures match old(ops)[op].outcome
        case None => ops == old(ops)[op := old(ops)[op].(links := old(ops)[op].links + [link])] && fired == old(fired)
        case Some(result) => ops == old(ops) && fired == RunLink(old(fired), link, result).0
    {
      match ops[op].outcome
      case None => ops := ops[op := ops[op].(links := ops[op].links + [link])];
      case Some(result) =>
        match (link, result)
        case (OnSuccess(u), Success(_)) => fired := fired[u := fired[u] + [result]];
        case (OnFailure(u), Failure(_)) => fired := fired[u := fired[u] + [result]];
        case _ =>
    }

    /** The tail of `call`: a fresh deferred for the user and the two links that feed it. */
    method AttachUser(op: nat) returns (user: User)
      requires op < |ops|
      modifies this`ops, this`fired, this`waitsOn
      ensures View() == Attach(old(View()), op) && user == |old(fired)|
    {
      user := |fired|;
      fired := fired + [[]];
      waitsOn := waitsOn + [op];
      ghost var before := fired;
      Append(op, OnSuccess(user));
      ghost var between := fired;
      Append(op, OnFailure(user));
      var pair := [OnSuccess(user), OnFailure(user)];
      assert pair[1..] == [OnFailure(user)] && pair[1..][1..] == [];
      if old(ops)[op].outcome.Some? {
        ghost var result := old(ops)[op].outcome.value;
        assert RunLinks(between, [OnFailure(user)], result).0 == RunLink(between, OnFailure(user), result).0;
        assert RunLinks(before, pair, result).0 == fired;
      } else {
        assert old(ops)[op].links + [OnSuccess(user)] + [OnFailure(user)] == old(ops)[op].links + pair;
      }
    }

    method Call(key: Option<Key>, t1: real, t2: real, order: seq<Key>, stamp: real, immediate: Option<Outcome>)
      returns (reply: Reply)
      requires Inv(View())
      requires key.Some? ==> Enumerates(order, AfterLookup(cache.Data(), key.value, t1).cache.Keys)
      modifies this, cache
      ensures (View(), reply) == Called(cache.config, old(View()), key, t1, t2, order, stamp, immediate)
      ensures Inv(View())
    {
      CallKeepsInv(cache.config, View(), key, t1, t2, order, stamp, immediate);
      if key.None? {
        ops := ops + [Operation(None, immediate, [])];
        return Direct(|ops| - 1);
      }
      var op;
      var there := cache.HasKey(key.value, t1);
      if there {
        var cached := cache.Get(key.value, t2);
        if cached.None? { return Crashed; }
        op := cached.value;
      } else {
        op := |ops|;
        ops := ops + [Operation(key, immediate, [])];
        cache.StoreEntry(key.value, op, None, order, stamp);
      }
      var user := AttachUser(op);
      return Attached(user);
    }

    /** The wrapped operation delivers: its deferred runs the links appended so far. */
    method Complete(op: nat, result: Outcome)
      requires Inv(View()) && op < |ops| && ops[op].outcome.None?
      modifies this`ops, this`fired
      ensures LinksKnown(old(ops)[op].links, |old(fired)|)
      ensures View() == Completed(old(View()), op, result) && Inv(View())
    {
      CompleteKeepsInv(View(), op, result);
      var links := ops[op].links;
      for i := 0 to |links|
        invariant ops == old(ops) && |fired| == |old(fired)|
        invariant LinksKnown(links[i..], |fired|)
        invariant RunLinks(fired, links[i..], result) == RunLinks(old(fired), links, result)
      {
        assert links[i..][0] == links[i] && links[i..][1..] == links[i + 1..];
        match (links[i], result)
        case (OnSuccess(u), Success(_)) => fired := fired[u := fired[u] + [result]];
        case (OnFailure(u), Failure(_)) => fired := fired[u := fired[u] + [result]];
        case _ =>
      }
      ops := ops[op := Operation(ops[op].key, Some(result), [])];
    }
  }

  // ----- links pass the result on -----

  lemma {:induction false} WaitingKnown(waitsOn: seq<nat>, op: nat, users: nat)
    requires |waitsOn| <= users
    ensures LinksKnown(Waiting(waitsOn, op), users)
  {
    if waitsOn != [] { WaitingKnown(waitsOn[..|waitsOn| - 1], op, users); }
  }

  /** Each link hands on the very result it got, so the whole chain does. */
  lemma {:induction false} LinksKeepResult(fired: seq<seq<Outcome>>, links: seq<Link>, result: Outcome)
    requires LinksKnown(links, |fired|)
    ensures RunLinks(fired, links, result).1 == result
    decreases links
  {
    if links != [] { LinksKeepResult(RunLink(fired, links[0], result).0, links[1..], result); }
  }

  lemma {:induction false} RunLinksConcat(fired: seq<seq<Outcome>>, a: seq<Link>, b: seq<Link>, result: Outcome)
    requires LinksKnown(a, |fired|) && LinksKnown(b, |fired|)
    ensures LinksKnown(a + b, |fired|)
    ensures RunLinks(fired, a + b, result).0 == RunLinks(RunLinks(fired, a, result).0, b, result).0
    decreases a
  {
    if a == [] {
      assert a + b == b;
    } else {
      assert (a + b)[1..] == a[1..] + b;
      RunLinksConcat(RunLink(fired, a[0], result).0, a[1..], b, result);
    }
  }

  /** The pair of links of one user fires that user once, whatever the result. */
  lemma PairFiresOnce(fired: seq<seq<Outcome>>, user: User, result: Outcome)
    requires user < |fired|
    ensures RunLinks(fired, [OnSuccess(user), OnFailure(user)], result).0 == fired[user := fired[user] + [result]]
  {
    var pair := [OnSuccess(user), OnFailure(user)];
    assert pair[1..] == [OnFailure(user)] && pair[1..][1..] == [];
    var one := RunLink(fired, OnSuccess(user), result).0;
    assert RunLinks(one, [OnFailure(user)], result).0 == RunLink(one, OnFailure(user), result).0;
  }

  /** Running the links waiting on `op` fires exactly the users attached to it, once each. */
  lemma {:induction false} WaitersFireOnce(fired: seq<seq<Outcome>>, waitsOn: seq<nat>, op: nat, result: Outcome)
    requires |waitsOn| <= |fired| && LinksKnown(Waiting(waitsOn, op), |fired|)
    ensures forall u | 0 <= u < |fired| :: RunLinks(fired, Waiting(waitsOn, op), result).0[u]
              == if u < |waitsOn| && waitsOn[u] == op then fired[u] + [result] else fired[u]
  {
    if waitsOn != [] {
      var n := |waitsOn| - 1;
      WaitingKnown(waitsOn[..n], op, |fired|);
      WaitersFireOnce(fired, waitsOn[..n], op, result);
      if waitsOn[n] == op {
        RunLinksConcat(fired, Waiting(waitsOn[..n], op), [OnSuccess(n), OnFailure(n)], result);
        PairFiresOnce(RunLinks(fired, Waiting(waitsOn[..n], op), result).0, n, result);
      } else {
        assert Waiting(waitsOn, op) == Waiting(waitsOn[..n], op);
      }
    }
  }

  // ----- what every step keeps -----

  lemma AttachKeepsServed(s: State, op: nat)
    requires Served(s) && op < |s.ops|
    ensures Served(Attach(s, op))
  {
    var user := |s.fired|;
    var s' := Attach(s, op);
    assert s'.waitsOn[..user] == s.waitsOn;
    if s.ops[op].outcome.Some? { PairFiresOnce(s.fired + [[]], user, s.ops[op].outcome.value); }
  }

  lemma StartKeepsServed(s: State, key: Option<Key>, immediate: Option<Outcome>)
    requires Served(s)
    ensures Served(s.(ops := s.ops + [Operation(key, immediate, [])]))
  {
    NobodyWaits(s.waitsOn, |s.ops|);
    var s' := s.(ops := s.ops + [Operation(key, immediate, [])]);
    forall d | 0 <= d < |s'.ops|
      ensures s'.ops[d].links == if s'.ops[d].outcome.None? then Waiting(s'.waitsOn, d) else []
    {
      if d < |s.ops| { assert s'.ops[d] == s.ops[d]; }
    }
  }

  lemma {:induction false} NobodyWaits(waitsOn: seq<nat>, op: nat)
    requires forall u | 0 <= u < |waitsOn| :: waitsOn[u] < op
    ensures Waiting(waitsOn, op) == []
  {
    if waitsOn != [] { NobodyWaits(waitsOn[..|waitsOn| - 1], op); }
  }

  lemma CompleteKeepsInv(s: State, op: nat, result: Outcome)
    requires Inv(s) && op < |s.ops| && s.ops[op].outcome.None?
    ensures LinksKnown(s.ops[op].links, |s.fired|) && Inv(Completed(s, op, result))
  {
    WaitingKnown(s.waitsOn, op, |s.fired|);
    WaitersFireOnce(s.fired, s.waitsOn, op, result);
  }

  /** What a lookup can do to the dictionaries. */
  lemma LookupOnlyDrops(s: Store, k: Key, now: real)
    requires s.cache.Keys == s.expire.Keys
    ensures AfterLookup(s, k, now).cache.Keys == AfterLookup(s, k, now).expire.Keys
    ensures forall j | j in AfterLookup(s, k, now).cache ::
      j in s.cache && AfterLookup(s, k, now).cache[j] == s.cache[j]
  {
    ApplyTwo(DropValue(k), DropExpiry(k), s);
  }

  lemma CullOnlyDrops(c: Config, s: Store, order: seq<Key>)
    requires s.cache.Keys == s.expire.Keys
    ensures var s' := ApplyAll(CullPlan(c, order), s);
      s'.cache.Keys == s'.expire.Keys && forall j | j in s'.cache :: j in s.cache && s'.cache[j] == s.cache[j]
  {
    if c.cullFrequency == 0 {
      ApplyTwo(ClearValues, ClearExpiries, s);
    } else {
      DropBothKeys(Doomed(order, c.cullFrequency), s);
    }
  }

  /** What a store can do: it puts its entry, and may drop others. */
  lemma StoreOnlyPutsItsKey(c: Config, s: Store, order: seq<Key>, k: Key, value: Value, stamp: real)
    requires s.cache.Keys == s.expire.Keys
    ensures var s' := ApplyAll(StorePlan(c, s, order, k, value, None, stamp), s);
      && s'.cache.Keys == s'.expire.Keys
      && k in s'.cache && s'.cache[k] == value
      && forall j | j in s'.cache && j != k :: j in s.cache && s'.cache[j] == s.cache[j]
  {
    var cull := if |s.cache| >= c.maxEntries then CullPlan(c, order) else [];
    if |s.cache| >= c.maxEntries { CullOnlyDrops(c, s, order); }
    ApplyConcat(cull, [PutValue(k, value), PutExpiry(k, Expiry(c, None, stamp))], s);
    ApplyTwo(PutValue(k, value), PutExpiry(k, Expiry(c, None, stamp)), ApplyAll(cull, s));
  }

  lemma InvokedKeepsInv(c: Config, s: State, k: Key, t1: real, order: seq<Key>, stamp: real, immediate: Option<Outcome>)
    requires Inv(s)
    ensures var s' := Invoked(c, s, k, t1, order, stamp, immediate);
      && Inv(s')
      && k in s'.store.cache && s'.store.cache[k] == |s.ops|
      && forall j | j in s'.store.cache && j != k :: j in s.store.cache && s'.store.cache[j] == s.store.cache[j]
  {
    StartKeepsServed(s, Some(k), immediate);
    LookupOnlyDrops(s.store, k, t1);
    StoreOnlyPutsItsKey(c, AfterLookup(s.store, k, t1), order, k, |s.ops|, stamp);
  }

  lemma CallKeepsInv(c: Config, s: State, key: Option<Key>, t1: real, t2: real, order: seq<Key>, stamp: real,
      immediate: Option<Outcome>)
    requires Inv(s)
    ensures Inv(Called(c, s, key, t1, t2, order, stamp, immediate).0)
  {
    if key.None? {
      StartKeepsServed(s, key, immediate);
    } else if Vacant(s.store, key.value, t1) {
      InvokedKeepsInv(c, s, key.value, t1, order, stamp, immediate);
      AttachKeepsInv(Invoked(c, s, key.value, t1, order, stamp, immediate), |s.ops|);
    } else if Vacant(s.store, key.value, t2) {
      LookupOnlyDrops(s.store, key.value, t2);
    } else {
      AttachKeepsInv(s, s.store.cache[key.value]);
    }
  }

  /** Attaching one more user changes nothing for the others. */
  lemma AttachKeepsInv(s: State, op: nat)
    requires Inv(s) && op < |s.ops|
    ensures var s' := Attach(s, op);
      && Inv(s') && s'.store == s.store
      && |s'.ops| == |s.ops| && (forall d | 0 <= d < |s.ops| :: s'.ops[d].key == s.ops[d].key)
      && s'.waitsOn == s.waitsOn + [op]
      && |s'.fired| == |s.fired| + 1 && s'.fired[..|s.fired|] == s.fired
  {
    AttachKeepsServed(s, op);
    if s.ops[op].outcome.Some? { PairFiresOnce(s.fired + [[]], |s.fired|, s.ops[op].outcome.value); }
  }

  // ----- runs -----

  datatype Turn =
    | Call(key: Option<Key>, t1: real, t2: real, order: seq<Key>, stamp: real, immediate: Option<Outcome>)
    | Complete(op: nat, result: Outcome)

  predicate Can(s: State, turn: Turn) {
    turn.Complete? ==> turn.op < |s.ops| && s.ops[turn.op].outcome.None?
  }

  function Next(c: Config, s: State, turn: Turn): State
    requires Inv(s) && Can(s, turn)
  {
    match turn
    case Call(key, t1, t2, order, stamp, immediate) => Called(c, s, key, t1, t2, order, stamp, immediate).0
    case Complete(op, result) =>
      CompleteKeepsInv(s, op, result);
      Completed(s, op, result)
  }

  lemma NextKeepsInv(c: Config, s: State, turn: Turn)
    requires Inv(s) && Can(s, turn)
    ensures Inv(Next(c, s, turn))
  {
    match turn
    case Call(key, t1, t2, order, stamp, immediate) => CallKeepsInv(c, s, key, t1, t2, order, stamp, immediate);
    case Complete(op, result) => CompleteKeepsInv(s, op, result);
  }

  predicate Runs(c: Config, s: State, turns: seq<Turn>)
    requires Inv(s)
    decreases turns
  {
    turns == [] ||
    (Can(s, turns[0]) && (NextKeepsInv(c, s, turns[0]); Runs(c, Next(c, s, turns[0]), turns[1..])))
  }

  function After(c: Config, s: State, turns: seq<Turn>): State
    requires Inv(s) && Runs(c, s, turns)
    decreases turns
  {
    if turns == [] then s
    else
      NextKeepsInv(c, s, turns[0]);
      After(c, Next(c, s, turns[0]), turns[1..])
  }

  /** After any run, every user has been served exactly once or is still waiting for an
      operation that is not done, whether it came before or after the outcome. */
  lemma {:induction false} EveryUserServedOnce(c: Config, s: State, turns: seq<Turn>)
    requires Inv(s) && Runs(c, s, turns)
    ensures Inv(After(c, s, turns))
    ensures |s.fired| <= |After(c, s, turns).fired|
    ensures forall u | 0 <= u < |s.fired| ::
      After(c, s, turns).waitsOn[u] == s.waitsOn[u] && s.fired[u] <= After(c, s, turns).fired[u]
    decreases turns
  {
    if turns != [] {
      var s' := Next(c, s, turns[0]);
      NextKeepsInv(c, s, turns[0]);
      NextKeepsUsers(c, s, turns[0]);
      EveryUserServedOnce(c, s', turns[1..]);
      var s'' := After(c, s', turns[1..]);
      forall u | 0 <= u < |s.fired| ensures s''.waitsOn[u] == s.waitsOn[u] && s.fired[u] <= s''.fired[u] {
        assert s'.waitsOn[u] == s.waitsOn[u] && s.fired[u] <= s'.fired[u];
      }
    }
  }

  lemma NextKeepsUsers(c: Config, s: State, turn: Turn)
    requires Inv(s) && Can(s, turn)
    ensures |s.fired| <= |Next(c, s, turn).fired| && |s.waitsOn| <= |Next(c, s, turn).waitsOn|
    ensures forall u | 0 <= u < |s.fired| ::
      Next(c, s, turn).waitsOn[u] == s.waitsOn[u] && s.fired[u] <= Next(c, s, turn).fired[u]
  {
    var s' := Next(c, s, turn);
    if turn.Complete? {
      CompleteKeepsInv(s, turn.op, turn.result);
      WaitersFireOnce(s.fired, s.waitsOn, turn.op, turn.result);
    } else if turn.key.Some? {
      var k := turn.key.value;
      if Vacant(s.store, k, turn.t1) {
        InvokedKeepsInv(c, s, k, turn.t1, turn.order, turn.stamp, turn.immediate);
        AttachKeepsInv(Invoked(c, s, k, turn.t1, turn.order, turn.stamp, turn.immediate), |s.ops|);
      } else if !Vacant(s.store, k, turn.t2) {
        AttachKeepsInv(s, s.store.cache[k]);
      }
      if s' .fired != s.fired {
        forall u | 0 <= u < |s.fired| ensures s'.fired[u] == s.fired[u] {
          assert s'.fired[..|s.fired|][u] == s.fired[u];
        }
      }
    }
  }

  /** What an operation was invoked for stays, and so does an outcome once delivered. */
  predicate KeepsOperations(ops: seq<Operation>, ops': seq<Operation>) {
    && |ops| <= |ops'|
    && forall d | 0 <= d < |ops| ::
         ops'[d].key == ops[d].key && (ops[d].outcome.Some? ==> ops'[d].outcome == ops[d].outcome)
  }

  lemma NextKeepsOperations(c: Config, s: State, turn: Turn)
    requires Inv(s) && Can(s, turn)
    ensures KeepsOperations(s.ops, Next(c, s, turn).ops)
  {
    if turn.Call? && turn.key.Some? {
      var k := turn.key.value;
      if Vacant(s.store, k, turn.t1) {
        var s1 := Invoked(c, s, k, turn.t1, turn.order, turn.stamp, turn.immediate);
        assert KeepsOperations(s.ops, s1.ops) && KeepsOperations(s1.ops, Attach(s1, |s.ops|).ops);
      }
    }
  }

  lemma {:induction false} RunKeepsOperations(c: Config, s: State, turns: seq<Turn>)
    requires Inv(s) && Runs(c, s, turns)
    ensures KeepsOperations(s.ops, After(c, s, turns).ops)
    decreases turns
  {
    if turns != [] {
      NextKeepsInv(c, s, turns[0]);
      NextKeepsOperations(c, s, turns[0]);
      RunKeepsOperations(c, Next(c, s, turns[0]), turns[1..]);
    }
  }

  // ----- what a caller gets -----

  /** A caller is given a deferred of its own, which nobody had before, waiting on an operation
      that was invoked for the caller's key; or the operation's own deferred, when its arguments
      cannot be hashed. */
  lemma ReplyIsNew(c: Config, s: State, call: Turn)
    requires Inv(s) && call.Call?
    ensures var s', reply := Next(c, s, call), ReplyTo(c, s, call);
      match reply
      case Attached(u) =>
        && u == |s.fired| && |s'.fired| == |s.fired| + 1 && |s'.waitsOn| == |s'.fired|
        && call.key.Some? && s'.waitsOn[u] < |s'.ops| && s'.ops[s'.waitsOn[u]].key == call.key
      case Direct(op) =>
        && call.key.None? && s'.ops == s.ops + [Operation(None, call.immediate, [])] && op == |s.ops|
        && s'.fired == s.fired && s'.store == s.store
      case Crashed => s'.fired == s.fired && s'.ops == s.ops
  {
    if call.key.Some? {
      var k := call.key.value;
      if Vacant(s.store, k, call.t1) {
        var s1 := Invoked(c, s, k, call.t1, call.order, call.stamp, call.immediate);
        InvokedKeepsInv(c, s, k, call.t1, call.order, call.stamp, call.immediate);
        AttachKeepsInv(s1, |s.ops|);
      } else if !Vacant(s.store, k, call.t2) {
        AttachKeepsInv(s, s.store.cache[k]);
      }
    }
  }

  function ReplyTo(c: Config, s: State, call: Turn): Reply
    requires Inv(s) && call.Call?
  {
    Called(c, s, call.key, call.t1, call.t2, call.order, call.stamp, call.immediate).1
  }

  /** Whatever happens after it, the deferred a call returned fires with exactly the outcome of
      an operation invoked for the call's own key, once there is one, and not before; and no
      later call returns the same deferred. */
  lemma ReplyStaysTheCallers(c: Config, s: State, call: Turn, turns: seq<Turn>, later: Turn)
    requires Inv(s) && call.Call? && ReplyTo(c, s, call).Attached? && later.Call?
    requires (NextKeepsInv(c, s, call); Runs(c, Next(c, s, call), turns))
    ensures (NextKeepsInv(c, s, call);
      var s'', u := After(c, Next(c, s, call), turns), ReplyTo(c, s, call).user;
      && Inv(s'') && u < |s''.fired| && s''.waitsOn[u] < |s''.ops| && call.key.Some?
      && s''.ops[s''.waitsOn[u]].key == call.key
      && s''.fired[u] == (match s''.ops[s''.waitsOn[u]].outcome case None => [] case Some(r) => [r])
      && ReplyTo(c, s'', later) != Attached(u))
  {
    NextKeepsInv(c, s, call);
    ReplyIsNew(c, s, call);
    var s' := Next(c, s, call);
    EveryUserServedOnce(c, s', turns);
    RunKeepsOperations(c, s', turns);
    ReplyIsNew(c, After(c, s', turns), later);
  }

  /** Who runs on what: the callback on success, the errback on failure. */
  lemma LinkRunsOn(fired: seq<seq<Outcome>>, user: User, value: nat)
    requires user < |fired|
    ensures RunLink(fired, OnSuccess(user), Success(value)).0 == fired[user := fired[user] + [Success(value)]]
    ensures RunLink(fired, OnFailure(user), Failure(value)).0 == fired[user := fired[user] + [Failure(value)]]
    ensures RunLink(fired, OnSuccess(user), Failure(value)).0 == fired
    ensures RunLink(fired, OnFailure(user), Success(value)).0 == fired
  {
  }

  /** For how long callers share: an operation invoked by a call that found nothing cached is
      the one that the next call with the key waits on, if both its lookups come within the
      default timeout; if already the first one comes later, another is invoked. */
  lemma SharedForTheTimeout(c: Config, s: State, first: Turn, s': State, second: Turn)
    requires Inv(s) && first.Call? && second.Call? && second.key == first.key && first.key.Some?
    requires first.key.value in s.store.expire ==> s.store.expire[first.key.value] <= first.t1
    requires s' == Next(c, s, first) && Inv(s')
    ensures var s'', reply := Next(c, s', second), ReplyTo(c, s', second);
      if second.t1 - first.stamp >= c.defaultTimeout then
        && reply == Attached(|s'.waitsOn|) && s''.waitsOn == s'.waitsOn + [|s'.ops|] && |s''.ops| == |s'.ops| + 1
      else if second.t2 - first.stamp >= c.defaultTimeout then reply.Crashed?
      else reply == Attached(|s'.waitsOn|) && s''.waitsOn == s'.waitsOn + [|s.ops|] && |s''.ops| == |s'.ops|
  {
    FreshUntilTimeout(c, s, first, second.t1);
    FreshUntilTimeout(c, s, first, second.t2);
    WhichOperation(c, s', second);
  }

  lemma FreshUntilTimeout(c: Config, s: State, first: Turn, now: real)
    requires Inv(s) && first.Call? && first.key.Some? && Vacant(s.store, first.key.value, first.t1)
    ensures var s' := Next(c, s, first);
      && first.key.value in s'.store.cache && s'.store.cache[first.key.value] == |s.ops|
      && (Vacant(s'.store, first.key.value, now) <==> now - first.stamp >= c.defaultTimeout)
  {
    var k := first.key.value;
    var s1 := Invoked(c, s, k, first.t1, first.order, first.stamp, first.immediate);
    InvokedKeepsInv(c, s, k, first.t1, first.order, first.stamp, first.immediate);
    AttachKeepsInv(s1, |s.ops|);
    StoredUntilTimeout(c, AfterLookup(s.store, k, first.t1), first.order, k, |s.ops|, None, first.stamp, now);
  }

  /** A new operation if the first lookup finds nothing, the cached one if both find it. */
  lemma WhichOperation(c: Config, s: State, call: Turn)
    requires Inv(s) && call.Call? && call.key.Some?
    ensures var s', reply, k := Next(c, s, call), ReplyTo(c, s, call), call.key.value;
      if Vacant(s.store, k, call.t1) then
        reply.Attached? && |s'.ops| == |s.ops| + 1 && s'.waitsOn == s.waitsOn + [|s.ops|] && reply.user == |s.waitsOn|
      else if Vacant(s.store, k, call.t2) then reply.Crashed?
      else
        && reply.Attached? && k in s.store.cache && |s'.ops| == |s.ops|
        && s'.waitsOn == s.waitsOn + [s.store.cache[k]] && reply.user == |s.waitsOn|
  {
    var k := call.key.value;
    if Vacant(s.store, k, call.t1) {
      InvokedKeepsInv(c, s, k, call.t1, call.order, call.stamp, call.immediate);
      AttachKeepsInv(Invoked(c, s, k, call.t1, call.order, call.stamp, call.immediate), |s.ops|);
    } else if !Vacant(s.store, k, call.t2) {
      AttachKeepsInv(s, s.store.cache[k]);
    }
  }

  // ----- one invocation while the entry lives -----

  /** The entry of `k` is fresh whenever a call asks for `k`, and is not culled. */
  predicate LivesOn(c: Config, s: State, k: Key, turns: seq<Turn>)
    requires Inv(s) && Runs(c, s, turns)
    decreases turns
  {
    k in s.store.cache &&
    (turns == [] ||
      (NextKeepsInv(c, s, turns[0]);
       && (turns[0].Call? && turns[0].key == Some(k) ==>
         !Vacant(s.store, k, turns[0].t1) && !Vacant(s.store, k, turns[0].t2))
       && LivesOn(c, Next(c, s, turns[0]), k, turns[1..])))
  }

  predicate AsksFor(turn: Turn, k: Key) {
    turn.Call? && turn.key == Some(k)
  }

  function Asked(turns: seq<Turn>, k: Key): nat {
    if turns == [] then 0 else (if AsksFor(turns[0], k) then 1 else 0) + Asked(turns[1..], k)
  }

  function Invocations(ops: seq<Operation>, k: Key): nat {
    if ops == [] then 0 else Invocations(ops[..|ops| - 1], k) + if ops[|ops| - 1].key == Some(k) then 1 else 0
  }

  function Sharing(waitsOn: seq<nat>, op: nat): nat {
    if waitsOn == [] then 0 else Sharing(waitsOn[..|waitsOn| - 1], op) + if waitsOn[|waitsOn| - 1] == op then 1 else 0
  }

  lemma {:induction false} SameKeysSameCount(ops: seq<Operation>, ops': seq<Operation>, k: Key)
    requires |ops| == |ops'| && forall d | 0 <= d < |ops| :: ops[d].key == ops'[d].key
    ensures Invocations(ops, k) == Invocations(ops', k)
  {
    if ops != [] { SameKeysSameCount(ops[..|ops| - 1], ops'[..|ops| - 1], k); }
  }

  lemma OneMoreSame(ops: seq<Operation>, ops': seq<Operation>, k: Key)
    requires |ops'| == |ops| + 1 && ops'[|ops|].key != Some(k)
    requires forall d | 0 <= d < |ops| :: ops[d].key == ops'[d].key
    ensures Invocations(ops', k) == Invocations(ops, k)
  {
    SameKeysSameCount(ops, ops'[..|ops|], k);
  }

  /** From `s` to `s'` the invocation cached under `k` stays the only one for `k`, and `more`
      users are attached to it. */
  predicate Shares(s: State, s': State, k: Key, more: nat) {
    && k in s.store.cache && k in s'.store.cache && s'.store.cache[k] == s.store.cache[k]
    && Invocations(s'.ops, k) == Invocations(s.ops, k)
    && Sharing(s'.waitsOn, s.store.cache[k]) == Sharing(s.waitsOn, s.store.cache[k]) + more
  }

  /** A new invocation for another key. */
  lemma InvokingShares(s: State, s1: State, k: Key)
    requires Inv(s) && Inv(s1) && |s1.ops| == |s.ops| + 1 && s1.ops[..|s.ops|] == s.ops &&
      s1.ops[|s.ops|].key != Some(k)
    requires s1.waitsOn == s.waitsOn
    requires k in s.store.cache && k in s1.store.cache && s1.store.cache[k] == s.store.cache[k]
    ensures Shares(s, Attach(s1, |s.ops|), k, 0)
  {
    var s2 := Attach(s1, |s.ops|);
    AttachKeepsInv(s1, |s.ops|);
    forall d | 0 <= d < |s.ops| ensures s.ops[d].key == s2.ops[d].key {
      assert s1.ops[..|s.ops|][d] == s1.ops[d];
    }
    OneMoreSame(s.ops, s2.ops, k);
  }

  lemma AttachingShares(s: State, k: Key, j: Key)
    requires Inv(s) && k in s.store.cache && j in s.store.cache
    ensures Shares(s, Attach(s, s.store.cache[j]), k, if j == k then 1 else 0)
  {
    var d := s.store.cache[j];
    AttachKeepsInv(s, d);
    SameKeysSameCount(s.ops, Attach(s, d).ops, k);
    assert s.ops[d].key == Some(j) && s.ops[s.store.cache[k]].key == Some(k);
  }

  lemma OneTurnShares(c: Config, s: State, k: Key, turn: Turn)
    requires Inv(s) && Can(s, turn) && k in s.store.cache && k in Next(c, s, turn).store.cache
    requires AsksFor(turn, k) ==> !Vacant(s.store, k, turn.t1) && !Vacant(s.store, k, turn.t2)
    ensures Shares(s, Next(c, s, turn), k, if AsksFor(turn, k) then 1 else 0)
  {
    match turn
    case Complete(_, _) => SameKeysSameCount(s.ops, Next(c, s, turn).ops, k);
    case Call(None, _, _, _, _, _) => OneMoreSame(s.ops, Next(c, s, turn).ops, k);
    case Call(Some(j), t1, t2, order, stamp, immediate) =>
      if Vacant(s.store, j, t1) {
        var s1 := Invoked(c, s, j, t1, order, stamp, immediate);
        assert Attach(s1, |s.ops|).store == s1.store;
        InvokedKeepsInv(c, s, j, t1, order, stamp, immediate);
        InvokingShares(s, s1, k);
      } else if Vacant(s.store, j, t2) {
        LookupOnlyDrops(s.store, j, t2);
      } else {
        AttachingShares(s, k, j);
      }
  }

  /** However many calls ask for the key while its entry lives, the operation is not invoked
      for it again, and every one of them is attached to the one invocation. */
  lemma {:induction false} OneInvocationWhileEntryLives(c: Config, s: State, k: Key, turns: seq<Turn>)
    requires Inv(s) && Runs(c, s, turns) && LivesOn(c, s, k, turns)
    ensures var s' := After(c, s, turns);
      var op := s.store.cache[k];
      && k in s'.store.cache && s'.store.cache[k] == op
      && Invocations(s'.ops, k) == Invocations(s.ops, k)
      && Sharing(s'.waitsOn, op) == Sharing(s.waitsOn, op) + Asked(turns, k)
    decreases turns
  {
    if turns != [] {
      NextKeepsInv(c, s, turns[0]);
      OneTurnShares(c, s, k, turns[0]);
      OneInvocationWhileEntryLives(c, Next(c, s, turns[0]), k, turns[1..]);
    }
  }

  /** `call` fails, leaving its user with nothing, exactly when the entry expires between
      `has_key` and `get`. */
  lemma CrashesOnlyOnExpiryInBetween(c: Config, s: State, key: Option<Key>, t1: real, t2: real, order: seq<Key>,
      stamp: real, immediate: Option<Outcome>)
    requires Inv(s)
    ensures Called(c, s, key, t1, t2, order, stamp, immediate).1.Crashed? <==>
            key.Some? && key.value in s.store.expire && t1 < s.store.expire[key.value] <= t2
  {
  }
}
