/** The expiring, culling cache (agent/mmc/support/cache.py:168-279), and the histories against
    which its answers are judged. */
module LocMemCache {
  import opened Basics
  import opened ReadWriteLock

  type Key = string
  type Value = nat

  /** The two dictionaries. */
  datatype Store = Store(cache: map<Key, Value>, expire: map<Key, real>)

  datatype Config = Config(maxEntries: int, cullFrequency: int, defaultTimeout: real)

  /** One dictionary operation.  Dropping an absent key does nothing: the source ignores the
      KeyError. */
  datatype Write = PutValue(key: Key, value: Value) | PutExpiry(key: Key, expiry: real)
                 | DropValue(key: Key) | DropExpiry(key: Key)
                 | ClearValues | ClearExpiries

  function ApplyWrite(w: Write, s: Store): Store {
    match w
    case PutValue(k, v) => s.(cache := s.cache[k := v])
    case PutExpiry(k, e) => s.(expire := s.expire[k := e])
    case DropValue(k) => s.(cache := s.cache - {k})
    case DropExpiry(k) => s.(expire := s.expire - {k})
    case ClearValues => s.(cache := map[])
    case ClearExpiries => s.(expire := map[])
  }

  function ApplyAll(ws: seq<Write>, s: Store): Store {
    if ws == [] then s else ApplyAll(ws[1..], ApplyWrite(ws[0], s))
  }

  // ----- what each critical section writes -----

  function Doomed(order: seq<Key>, frequency: int): seq<Key>
    requires frequency != 0
  {
    if order == [] then []
    else
      var n := |order| - 1;
      Doomed(order[..n], frequency) + if n % frequency == 0 then [order[n]] else []
  }

  function DropBoth(keys: seq<Key>): seq<Write> {
    if keys == [] then [] else [DropValue(keys[0]), DropExpiry(keys[0])] + DropBoth(keys[1..])
  }

  function CullPlan(c: Config, order: seq<Key>): seq<Write> {
    if c.cullFrequency == 0 then [ClearValues, ClearExpiries] else DropBoth(Doomed(order, c.cullFrequency))
  }

  function StorePlan(c: Config, s: Store, order: seq<Key>, key: Key, value: Value, timeout: Option<real>,
      stamp: real): seq<Write>
  {
    (if |s.cache| >= c.maxEntries then CullPlan(c, order) else [])
    + [PutValue(key, value), PutExpiry(key, Expiry(c, timeout, stamp))]
  }

  function Expiry(c: Config, timeout: Option<real>, stamp: real): real {
    stamp + match timeout case None => c.defaultTimeout case Some(t) => t
  }

  predicate Vacant(s: Store, key: Key, now: real) {
    key !in s.expire || s.expire[key] <= now
  }

  function AddPlan(c: Config, s: Store, order: seq<Key>, key: Key, value: Value, timeout: Option<real>, now: real,
      stamp: real): seq<Write>
  {
    if Vacant(s, key, now) then StorePlan(c, s, order, key, value, timeout, stamp) else []
  }

  /** The second section of `get` and `has_key`: it does not look at the expiry again. */
  function PurgePlan(s: Store, key: Key): seq<Write> {
    if key in s.cache then [DropValue(key), DropExpiry(key)] else []
  }

  function KeySet(keys: seq<Key>): set<Key> { set k | k in keys }

  /** What a lookup leaves behind: an expired entry is taken out on the way. */
  function AfterLookup(s: Store, key: Key, now: real): Store {
    if key in s.expire && s.expire[key] <= now then ApplyAll(PurgePlan(s, key), s) else s
  }

  /** `order` is the order in which a dictionary yields its keys. */
  predicate Enumerates(order: seq<Key>, keys: set<Key>) {
    && KeySet(order) == keys
    && (forall i, j | 0 <= i < j < |order| :: order[i] != order[j])
  }

  lemma {:induction false} ApplyConcat(ws: seq<Write>, vs: seq<Write>, s: Store)
    ensures ApplyAll(ws + vs, s) == ApplyAll(vs, ApplyAll(ws, s))
    decreases |ws|
  {
    if ws == [] {
      assert ws + vs == vs;
    } else {
      assert (ws + vs)[1..] == ws[1..] + vs;
      ApplyConcat(ws[1..], vs, ApplyWrite(ws[0], s));
    }
  }

  lemma ApplyTwo(w: Write, v: Write, s: Store)
    ensures ApplyAll([w, v], s) == ApplyWrite(v, ApplyWrite(w, s))
  {
    assert [w, v][1..] == [v];
    assert ApplyAll([v], ApplyWrite(w, s)) == ApplyWrite(v, ApplyWrite(w, s));
  }

  lemma {:induction false} DropBothKeys(keys: seq<Key>, s: Store)
    ensures ApplyAll(DropBoth(keys), s) == Store(s.cache - KeySet(keys), s.expire - KeySet(keys))
  {
    if keys == [] {
      assert KeySet(keys) == {};
    } else {
      var k := keys[0];
      var s' := Store(s.cache - {k}, s.expire - {k});
      ApplyTwo(DropValue(k), DropExpiry(k), s);
      ApplyConcat([DropValue(k), DropExpiry(k)], DropBoth(keys[1..]), s);
      DropBothKeys(keys[1..], s');
      assert KeySet(keys) == {k} + KeySet(keys[1..]);
    }
  }

  lemma {:induction false} DoomedExactly(order: seq<Key>, frequency: int, key: Key)
    requires frequency != 0
    ensures key in Doomed(order, frequency) <==> exists i | 0 <= i < |order| :: order[i] == key && i % frequency == 0
    decreases order
  {
    if order != [] {
      var n := |order| - 1;
      DoomedExactly(order[..n], frequency, key);
      assert forall i | 0 <= i < n :: order[..n][i] == order[i];
      assert n % frequency == 0 && order[n] == key ==> key in Doomed(order, frequency);
    }
  }

  /** Culling takes out the entries at every place that the frequency divides, in the order in
      which the dictionary yields its keys, and all of them for a frequency of zero. */
  lemma CullsExactly(c: Config, s: Store, order: seq<Key>, key: Key)
    ensures var s' := ApplyAll(CullPlan(c, order), s);
      var spared := c.cullFrequency != 0 &&
        forall i | 0 <= i < |order| && order[i] == key :: i % c.cullFrequency != 0;
      && (key in s'.cache <==> key in s.cache && spared) && (key in s'.expire <==> key in s.expire && spared)
      && (key in s'.cache ==> s'.cache[key] == s.cache[key]) && (key in s'.expire ==> s'.expire[key] == s.expire[key])
  {
    if c.cullFrequency == 0 {
      ApplyTwo(ClearValues, ClearExpiries, s);
    } else {
      DropBothKeys(Doomed(order, c.cullFrequency), s);
      DoomedExactly(order, c.cullFrequency, key);
    }
  }

  /** Storing culls exactly a full cache, and changes nothing else but the entry. */
  lemma StoresExactly(c: Config, s: Store, order: seq<Key>, key: Key, value: Value, timeout: Option<real>, stamp: real)
    ensures var s' := ApplyAll(StorePlan(c, s, order, key, value, timeout, stamp), s);
      var before := if |s.cache| < c.maxEntries then s else ApplyAll(CullPlan(c, order), s);
      s' == Store(before.cache[key := value], before.expire[key := Expiry(c, timeout, stamp)])
  {
    var culling := if |s.cache| >= c.maxEntries then CullPlan(c, order) else [];
    ApplyConcat(culling, [PutValue(key, value), PutExpiry(key, Expiry(c, timeout, stamp))], s);
    ApplyTwo(PutValue(key, value), PutExpiry(key, Expiry(c, timeout, stamp)), ApplyAll(culling, s));
  }

  /** How long an entry is served: from the time it is stored, for the timeout given, or for
      the default one. */
  lemma StoredUntilTimeout(c: Config, s: Store, order: seq<Key>, key: Key, value: Value, timeout: Option<real>,
      stamp: real, now: real)
    ensures var s' := ApplyAll(StorePlan(c, s, order, key, value, timeout, stamp), s);
      var seconds := if timeout.Some? then timeout.value else c.defaultTimeout;
      && key in s'.cache && s'.cache[key] == value && key in s'.expire
      && (s'.expire[key] > now <==> now - stamp < seconds)
      && (Vacant(s', key, now) <==> now - stamp >= seconds)
  {
    var culling := if |s.cache| >= c.maxEntries then CullPlan(c, order) else [];
    var puts := [PutValue(key, value), PutExpiry(key, Expiry(c, timeout, stamp))];
    ApplyConcat(culling, puts, s);
    ApplyTwo(puts[0], puts[1], ApplyAll(culling, s));
  }

  // ----- the object -----

  class LocMemCache {
    const config: Config
    var cache: map<Key, Value>
    var expireInfo: map<Key, real>

    ghost function Data(): Store
      reads this
    {
      Store(cache, expireInfo)
    }

    constructor (config: Config)
      ensures this.config == config && Data() == Store(map[], map[])
    {
      this.config := config;
      cache, expireInfo := map[], map[];
    }

    method Clear()
      modifies this
      ensures Data() == Store(map[], map[])
    {
      cache := map[];
      expireInfo := map[];
    }

    method DeleteEntry(key: Key)
      modifies this
      ensures Data() == ApplyAll(DropBoth([key]), old(Data()))
    {
      cache := cache - {key};
      expireInfo := expireInfo - {key};
      DropBothKeys([key], old(Data()));
      assert KeySet([key]) == {key};
    }

    method Cull(order: seq<Key>)
      requires Enumerates(order, cache.Keys)
      modifies this
      ensures Data() == ApplyAll(CullPlan(config, order), old(Data()))
    {
      if config.cullFrequency == 0 {
        Clear();
        ApplyTwo(ClearValues, ClearExpiries, old(Data()));
      } else {
        var doomed: seq<Key> := [];
        for i := 0 to |order|
          invariant doomed == Doomed(order[..i], config.cullFrequency)
          invariant Data() == old(Data())
        {
          assert order[..i + 1][..i] == order[..i];
          if i % config.cullFrequency == 0 {
            doomed := doomed + [order[i]];
          }
        }
        assert order[..|order|] == order;
        for i := 0 to |doomed|
          invariant Data() == Store(old(cache) - KeySet(doomed[..i]), old(expireInfo) - KeySet(doomed[..i]))
        {
          DropBothKeys([doomed[i]], Data());
          assert KeySet([doomed[i]]) == {doomed[i]};
          assert KeySet(doomed[..i + 1]) == KeySet(doomed[..i]) + {doomed[i]};
          DeleteEntry(doomed[i]);
        }
        assert doomed[..|doomed|] == doomed;
        DropBothKeys(doomed, old(Data()));
      }
    }

    /** `_set`: runs while the caller holds the lock for writing. */
    method StoreEntry(key: Key, value: Value, timeout: Option<real>, order: seq<Key>, stamp: real)
      requires Enumerates(order, cache.Keys)
      modifies this
      ensures Data() == ApplyAll(StorePlan(config, old(Data()), order, key, value, timeout, stamp), old(Data()))
      ensures key in cache && cache[key] == value
      ensures key in expireInfo &&
        expireInfo[key] == stamp + if timeout.Some? then timeout.value else config.defaultTimeout
    {
      ghost var culling := if |cache| >= config.maxEntries then CullPlan(config, order) else [];
      if |cache| >= config.maxEntries {
        Cull(order);
      }
      ghost var culled := Data();
      var seconds := match timeout case None => config.defaultTimeout case Some(t) => t;
      cache := cache[key := value];
      expireInfo := expireInfo[key := stamp + seconds];
      ApplyConcat(culling, [PutValue(key, value), PutExpiry(key, Expiry(config, timeout, stamp))], old(Data()));
      ApplyTwo(PutValue(key, value), PutExpiry(key, Expiry(config, timeout, stamp)), culled);
    }

    method Add(key: Key, value: Value, timeout: Option<real>, order: seq<Key>, now: real, stamp: real)
      returns (stored: bool)
      requires Enumerates(order, cache.Keys)
      modifies this
      ensures Data() == ApplyAll(AddPlan(config, old(Data()), order, key, value, timeout, now, stamp), old(Data()))
      ensures stored <==> !(key in old(expireInfo) && now < old(expireInfo)[key])
    {
      if key !in expireInfo || expireInfo[key] <= now {
        StoreEntry(key, value, timeout, order, stamp);
        return true;
      }
      return false;
    }

    method Delete(key: Key)
      modifies this
      ensures Data() == ApplyAll(DropBoth([key]), old(Data()))
    {
      DeleteEntry(key);
    }

    method Purge(key: Key)
      modifies this
      ensures Data() == ApplyAll(PurgePlan(old(Data()), key), old(Data()))
    {
      if key in cache {
        cache := cache - {key};
        ApplyTwo(DropValue(key), DropExpiry(key), old(Data()));
        if key in expireInfo {
          expireInfo := expireInfo - {key};
        }
        assert expireInfo == old(expireInfo) - {key};
      }
    }

    /** `has_key` when nobody else uses the cache meanwhile. */
    method HasKey(key: Key, now: real) returns (r: bool)
      modifies this
      ensures r <==> key in old(expireInfo) && now < old(expireInfo)[key]
      ensures Data() == AfterLookup(old(Data()), key, now)
    {
      if key !in expireInfo {
        return false;
      } else if expireInfo[key] > now {
        return true;
      }
      Purge(key);
      return false;
    }

    /** `get` when nobody else uses the cache meanwhile. */
    method Get(key: Key, now: real) returns (r: Option<Value>)
      requires cache.Keys == expireInfo.Keys
      modifies this
      ensures r == if key in old(expireInfo) && now < old(expireInfo)[key] then Some(old(cache)[key]) else None
      ensures Data() == AfterLookup(old(Data()), key, now)
    {
      if key !in expireInfo {
        return None;
      } else if expireInfo[key] > now {
        return Some(cache[key]);
      }
      Purge(key);
      return None;
    }
  }

  // ----- the history of a run -----

  datatype Entry = Entry(value: Value, expiry: real)

  /** `seen` is the place in the history where the lookup that purges missed the entry. */
  datatype Cause = Deleted | Culled | Purged(thread: Thread, seen: nat)

  /** What happened to the cache, in the order in which it took effect. */
  datatype Event =
    | Stored(key: Key, entry: Entry)               // `set`, or an `add` that went through
    | Removed(key: Key, cause: Cause)
    | Hit(thread: Thread, key: Key, value: Value, now: real)  // `get` returned the value
    | Seen(thread: Thread, key: Key, now: real)    // `has_key` said yes
    | Missed(thread: Thread, key: Key, now: real)  // `get` returned the default, `has_key` said no
    | Admitted(key: Key, now: real)                // `add` found room ...
    | Refused(key: Key, now: real)                 // ... or not

  /** The latest entry stored under a key and not removed since. */
  function Live(h: seq<Event>, key: Key): Option<Entry> {
    if h == [] then None
    else
      var n := |h| - 1;
      match h[n]
      case Stored(k, e) => if k == key then Some(e) else Live(h[..n], key)
      case Removed(k, _) => if k == key then None else Live(h[..n], key)
      case _ => Live(h[..n], key)
  }

  predicate Touches(e: Event, key: Key) {
    (e.Stored? && e.key == key) || (e.Removed? && e.key == key)
  }

  predicate LatestStoreAt(h: seq<Event>, key: Key, entry: Entry, i: nat)
    requires i < |h|
  {
    h[i] == Stored(key, entry) && forall j | i < j < |h| :: !Touches(h[j], key)
  }

  /** `Live` is what its name says: some event stored the entry and none touched the key
      after it. */
  lemma {:induction false} LiveIsLatestStore(h: seq<Event>, key: Key, entry: Entry)
    ensures Live(h, key) == Some(entry) <==> exists i | 0 <= i < |h| :: LatestStoreAt(h, key, entry, i)
  {
    if h != [] {
      var n := |h| - 1;
      var g := h[..n];
      LiveIsLatestStore(g, key, entry);
      if Live(h, key) == Some(entry) {
        if h[n] == Stored(key, entry) {
          assert LatestStoreAt(h, key, entry, n);
        } else {
          var i :| 0 <= i < n && LatestStoreAt(g, key, entry, i);
          assert h[i] == g[i];
          assert LatestStoreAt(h, key, entry, i) by {
            forall j | i < j < |h| ensures !Touches(h[j], key) {
              if j < n { assert g[j] == h[j]; }
            }
          }
        }
      }
      if i :| 0 <= i < |h| && LatestStoreAt(h, key, entry, i) && i < n {
        assert g[i] == h[i];
        assert forall j | i < j < n :: g[j] == h[j];
        assert LatestStoreAt(g, key, entry, i);
        assert !Touches(h[n], key);
      }
    }
  }

  lemma LiveAppend(h: seq<Event>, e: Event, key: Key)
    ensures Live(h + [e], key) ==
            if e.Stored? && e.key == key then Some(e.entry)
            else if e.Removed? && e.key == key then None
            else Live(h, key)
  {
    assert (h + [e])[..|h|] == h;
  }

  predicate Fresh(entry: Option<Entry>, now: real) {
    entry.Some? && entry.value.expiry > now
  }

  /** What thread `t` did or found in a lookup. */
  predicate By(e: Event, t: Thread) {
    match e
    case Hit(u, _, _, _) => u == t
    case Seen(u, _, _) => u == t
    case Missed(u, _, _) => u == t
    case Removed(_, Purged(u, _)) => u == t
    case _ => false
  }

  /** At `seen` thread `t` looked for `key` and found an entry that had expired; it has done
      nothing since. */
  predicate SawExpired(h: seq<Event>, t: Thread, key: Key, seen: nat) {
    && seen < |h| && h[seen].Missed? && h[seen].thread == t && h[seen].key == key
    && Live(h[..seen], key).Some?
    && forall m | seen < m < |h| :: !By(h[m], t)
  }

  /** `e` is the right answer after the history `h`. */
  ghost predicate Justified(h: seq<Event>, e: Event) {
    match e
    case Hit(_, key, value, now) => Fresh(Live(h, key), now) && Live(h, key).value.value == value
    case Seen(_, key, now) => Fresh(Live(h, key), now)
    case Missed(_, key, now) => !Fresh(Live(h, key), now)
    case Admitted(key, now) => !Fresh(Live(h, key), now)
    case Refused(key, now) => Fresh(Live(h, key), now)
    case Removed(key, Purged(t, seen)) => SawExpired(h, t, key, seen) && Live(h, key).Some?
    case _ => true
  }

  ghost predicate AllJustified(h: seq<Event>) {
    h == [] || (AllJustified(h[..|h| - 1]) && Justified(h[..|h| - 1], h[|h| - 1]))
  }

  lemma JustifiedAppend(h: seq<Event>, e: Event)
    requires AllJustified(h) && Justified(h, e)
    ensures AllJustified(h + [e])
  {
    assert (h + [e])[..|h|] == h;
  }

  lemma {:induction false} JustifiedAt(h: seq<Event>, i: nat)
    requires AllJustified(h) && i < |h|
    ensures Justified(h[..i], h[i])
  {
    var n := |h| - 1;
    if i < n {
      JustifiedAt(h[..n], i);
      assert h[..n][..i] == h[..i];
    }
  }

  lemma SawExpiredStays(h: seq<Event>, e: Event, t: Thread, key: Key, seen: nat)
    requires SawExpired(h, t, key, seen) && !By(e, t)
    ensures SawExpired(h + [e], t, key, seen)
  {
    assert (h + [e])[..seen] == h[..seen];
  }

  // ----- dictionaries and history agree -----

  predicate AgreeAt(s: Store, h: seq<Event>, key: Key) {
    match Live(h, key)
    case None => key !in s.cache && key !in s.expire
    case Some(e) => key in s.cache && key in s.expire && s.cache[key] == e.value && s.expire[key] == e.expiry
  }

  ghost predicate Agree(s: Store, h: seq<Event>) {
    forall key :: AgreeAt(s, h, key)
  }
}
