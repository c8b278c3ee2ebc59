/** Making values fit for XML-RPC (agent/mmc/support/mmctools.py:148-183). */
module XmlRpcCleanup {

  datatype Scalar = Bool(b: bool) | Int(n: int) | Float(x: real) | Str(s: string)

  /** `str` of a key is `s`, whether the key is a string or something else. */
  datatype Key = Text(s: string) | Other(id: int, s: string)

  datatype Entry = Entry(key: Key, value: Data)

  /** The items of a dictionary and of a set are in the order in which they are visited.  `Time`
      is any of the four kinds of date, with the fields of its time tuple. */
  datatype Data =
    | Plain(value: Scalar)
    | Nil
    | Long(n: int)
    | Dict(entries: seq<Entry>)
    | List(items: seq<Data>)
    | Set(items: seq<Data>)
    | Tuple(items: seq<Data>)
    | Time(fields: seq<Scalar>)

  function Digits(n: nat): string {
    (if n < 10 then "" else Digits(n / 10)) + [('0' as int + n % 10) as char]
  }

  function Shown(n: int): string { if n < 0 then "-" + Digits(-n) else Digits(n) }

  function AllPlain(fields: seq<Scalar>): (r: seq<Data>)
    ensures |r| == |fields| && forall x | x in r :: x.Plain?
  {
    seq(|fields|, i requires 0 <= i < |fields| => Plain(fields[i]))
  }

  /** Storing under a string key: a key that is there keeps its place. */
  function Store(entries: seq<Entry>, key: string, value: Data): seq<Entry> {
    if entries == [] then [Entry(Text(key), value)]
    else if entries[0].key == Text(key) then [Entry(Text(key), value)] + entries[1..]
    else [entries[0]] + Store(entries[1..], key, value)
  }

  /** `xmlrpcCleanup`. */
  function Clean(d: Data): Data {
    match d
    case Dict(entries) => Dict(CleanEntries(entries))
    case List(items) => List(CleanAll(items))
    case Set(items) => List(CleanAll(items))
    case Time(fields) => Tuple(AllPlain(fields))
    case Nil => Plain(Bool(false))
    case Tuple(items) => List(CleanAll(items))
    case Long(n) => Plain(Str(Shown(n)))
    case Plain(_) => d
  }

  function CleanAll(items: seq<Data>): seq<Data> {
    if items == [] then [] else CleanAll(items[..|items| - 1]) + [Clean(items[|items| - 1])]
  }

  function CleanEntries(entries: seq<Entry>): seq<Entry> {
    if entries == [] then []
    else
      var last := entries[|entries| - 1];
      Store(CleanEntries(entries[..|entries| - 1]), last.key.s, CleanValue(last))
  }

  function CleanValue(e: Entry): Data { Clean(e.value) }

  // ----- what may be sent -----

  predicate Sendable(v: Scalar) { v.Int? ==> -0x8000_0000 <= v.n < 0x8000_0000 }

  /** What the serializer accepts: no None, no long, no set and no date at any depth, keys that
      are strings, and integers of 32 bits.  Lists and tuples both become arrays. */
  predicate Marshals(d: Data) {
    match d
    case Plain(v) => Sendable(v)
    case Dict(entries) => forall e | e in entries :: e.key.Text? && Marshals(e.value)
    case List(items) => forall x | x in items :: Marshals(x)
    case Tuple(items) => forall x | x in items :: Marshals(x)
    case _ => false
  }

  /** No two keys of a dictionary look the same as strings. */
  predicate DistinctKeys(entries: seq<Entry>) {
    forall i, j | 0 <= i < j < |entries| :: entries[i].key.s != entries[j].key.s
  }

  /** No later entry has a key that looks the same. */
  predicate Survives(entries: seq<Entry>, i: nat)
    requires i < |entries|
  {
    forall j | i < j < |entries| :: entries[j].key.s != entries[i].key.s
  }

  /** All integers have 32 bits, except in entries that a later one replaces.  A long may be of
      any size. */
  predicate Fits(d: Data) {
    match d
    case Plain(v) => Sendable(v)
    case Time(fields) => forall v | v in fields :: Sendable(v)
    case Dict(entries) => forall i | 0 <= i < |entries| && Survives(entries, i) :: Fits(entries[i].value)
    case List(items) => forall x | x in items :: Fits(x)
    case Set(items) => forall x | x in items :: Fits(x)
    case Tuple(items) => forall x | x in items :: Fits(x)
    case _ => true
  }

  // ----- what becomes of values -----

  /** The number that a string of digits writes. */
  function Read(s: string): int {
    if s == "" then 0 else 10 * Read(s[..|s| - 1]) + (s[|s| - 1] as int - '0' as int)
  }

  lemma {:induction false} ReadDigits(n: nat)
    ensures Digits(n) != "" && Read(Digits(n)) == n
    ensures forall c | c in Digits(n) :: '0' <= c <= '9'
    ensures n > 0 ==> Digits(n)[0] != '0'
    decreases n
  {
    if n >= 10 { ReadDigits(n / 10); }
    var front := if n < 10 then "" else Digits(n / 10);
    assert Digits(n) == front + [('0' as int + n % 10) as char];
    assert Digits(n)[..|Digits(n)| - 1] == front;
  }

  /** A long becomes its decimal digits, with a minus sign if it is negative, and reads back as
      the same number. */
  lemma LongReadsBack(n: int)
    ensures var s := Shown(n);
      && Clean(Long(n)) == Plain(Str(s))
      && (n < 0 ==> s != "" && s[0] == '-')
      && var digits := if n < 0 then s[1..] else s;
         && digits != "" && (forall c | c in digits :: '0' <= c <= '9') && Read(digits) == if n < 0 then -n else n
  {
    ReadDigits(if n < 0 then -n else n);
    if n < 0 { assert Shown(n)[1..] == Digits(-n); }
  }

  /** `c` is what the value `d` should become. */
  ghost predicate FitForm(d: Data, c: Data) {
    match d
    case Plain(_) => c == d
    case Nil => c == Plain(Bool(false))
    case Long(n) => c == Plain(Str(Shown(n)))
    case Time(fields) => c.Tuple? && FieldsOf(fields, c.items)
    case List(items) => c.List? && |c.items| == |items| && forall i | 0 <= i < |items| :: FitForm(items[i], c.items[i])
    case Set(items) => c.List? && |c.items| == |items| && forall i | 0 <= i < |items| :: FitForm(items[i], c.items[i])
    case Tuple(items) => c.List? && |c.items| == |items| && forall i | 0 <= i < |items| :: FitForm(items[i], c.items[i])
    case Dict(entries) =>
      && c.Dict?
      && forall i | 0 <= i < |entries| && Survives(entries, i) ::
           exists e | e in c.entries :: e.key == Text(entries[i].key.s) && FitForm(entries[i].value, e.value)
  }

  predicate FieldsOf(fields: seq<Scalar>, items: seq<Data>) {
    |items| == |fields| && forall i | 0 <= i < |fields| :: items[i] == Plain(fields[i])
  }

  /** Every value, at every depth, takes the form that is meant for it: None becomes false, longs
      become strings, sets and tuples lists, and dates tuples of their fields. */
  lemma {:induction false} TakesItsForm(d: Data)
    ensures FitForm(d, Clean(d))
    decreases d
  {
    match d
    case List(items) => ItemsTakeTheirForm(items);
    case Set(items) => ItemsTakeTheirForm(items);
    case Tuple(items) => ItemsTakeTheirForm(items);
    case Dict(entries) =>
      forall i | 0 <= i < |entries| && Survives(entries, i)
        ensures exists e | e in CleanEntries(entries) ::
          e.key == Text(entries[i].key.s) && FitForm(entries[i].value, e.value)
      {
        TakesItsForm(entries[i].value);
        SurvivorsAreKept(entries, Cleaned(entries[i]));
        assert FromSurvivor(entries, Cleaned(entries[i]));
      }
    case _ =>
  }

  lemma {:induction false} ItemsTakeTheirForm(items: seq<Data>)
    ensures |CleanAll(items)| == |items|
    ensures forall i | 0 <= i < |items| :: FitForm(items[i], CleanAll(items)[i])
    decreases items
  {
    ItemsKept(items);
    forall i | 0 <= i < |items| ensures FitForm(items[i], CleanAll(items)[i]) {
      TakesItsForm(items[i]);
    }
  }

  /** Why cleaning is needed, and what it does not mend: None, longs, sets and dates cannot be
      sent as they are; integers beyond 32 bits cannot be sent even then, unless they are
      longs. */
  lemma BeyondTheSerializer(d: Data, n: int)
    ensures d.Nil? || d.Long? || d.Set? || d.Time? ==> !Marshals(d)
    ensures Marshals(Clean(Plain(Int(n)))) <==> -2147483648 <= n <= 2147483647
    ensures Marshals(Clean(Long(n)))
  {
  }

  // ----- which entries are kept -----

  lemma {:induction false} StoreMembers(entries: seq<Entry>, key: string, value: Data)
    ensures forall e | e in Store(entries, key, value) :: e == Entry(Text(key), value) || e in entries
    decreases entries
  {
    if entries != [] {
      StoreMembers(entries[1..], key, value);
      assert forall e | e in entries[1..] :: e in entries;
    }
  }

  lemma {:induction false} StoreDistinct(entries: seq<Entry>, key: string, value: Data)
    requires DistinctKeys(entries) && forall e | e in entries :: e.key.Text?
    ensures DistinctKeys(Store(entries, key, value))
    decreases entries
  {
    if entries != [] {
      assert entries[0] in entries && forall e | e in entries[1..] :: e in entries;
      if entries[0].key != Text(key) {
        StoreDistinct(entries[1..], key, value);
        StoreMembers(entries[1..], key, value);
        PrependDistinct(entries[0], Store(entries[1..], key, value), entries[1..], key, value);
      }
    }
  }

  lemma PrependDistinct(e: Entry, stored: seq<Entry>, rest: seq<Entry>, key: string, value: Data)
    requires DistinctKeys(stored) && e.key.s != key && DistinctKeys([e] + rest)
    requires forall x | x in stored :: x == Entry(Text(key), value) || x in rest
    ensures DistinctKeys([e] + stored)
  {
    forall x | x in rest ensures x.key.s != e.key.s {
      var i :| 0 <= i < |rest| && rest[i] == x;
      assert ([e] + rest)[0] == e && ([e] + rest)[i + 1] == x;
    }
    forall i | 0 <= i < |stored| ensures stored[i].key.s != e.key.s {
      assert stored[i] in stored;
    }
  }

  predicate AllText(entries: seq<Entry>) { forall e | e in entries :: e.key.Text? }

  function Texts(entries: seq<Entry>): set<string> { set e | e in entries :: e.key.s }

  /** Storing replaces the entry of the key, or adds one. */
  lemma {:induction false} StoreExactly(entries: seq<Entry>, key: string, value: Data)
    requires DistinctKeys(entries) && AllText(entries)
    ensures forall e ::
      e in Store(entries, key, value) <==> e == Entry(Text(key), value) || (e in entries && e.key.s != key)
    ensures |Store(entries, key, value)| == |entries| + if key in Texts(entries) then 0 else 1
    decreases entries
  {
    if entries != [] {
      var first, rest := entries[0], entries[1..];
      assert entries == [first] + rest && first in entries;
      assert Texts(entries) == {first.key.s} + Texts(rest);
      assert first.key.s !in Texts(rest);
      if first.key != Text(key) {
        StoreExactly(rest, key, value);
      }
    }
  }

  lemma TextsOfStore(entries: seq<Entry>, key: string, value: Data)
    requires DistinctKeys(entries) && AllText(entries)
    ensures Texts(Store(entries, key, value)) == Texts(entries) + {key}
  {
    var stored := Store(entries, key, value);
    StoreExactly(entries, key, value);
    assert Entry(Text(key), value) in stored;
    forall e | e in entries ensures e.key.s in Texts(stored) {
      if e.key.s != key { assert e in stored; }
    }
  }

  lemma TextsSnoc(front: seq<Entry>, last: Entry)
    ensures Texts(front + [last]) == Texts(front) + {last.key.s}
  {
    assert forall e :: e in front + [last] <==> e in front || e == last;
  }

  /** A dictionary with string keys, each once. */
  predicate Proper(entries: seq<Entry>) {
    AllText(entries) && DistinctKeys(entries) && |entries| == |Texts(entries)|
  }

  lemma StoreKeepsProper(entries: seq<Entry>, key: string, value: Data)
    requires Proper(entries)
    ensures Proper(Store(entries, key, value))
  {
    StoreDistinct(entries, key, value);
    StoreExactly(entries, key, value);
    TextsOfStore(entries, key, value);
    assert Texts(entries) + {key} == if key in Texts(entries) then Texts(entries) else Texts(entries) + {key};
  }

  lemma {:induction false} CleanEntriesText(entries: seq<Entry>)
    ensures Proper(CleanEntries(entries)) && Texts(CleanEntries(entries)) == Texts(entries)
    decreases entries
  {
    if entries != [] {
      var front, last := entries[..|entries| - 1], entries[|entries| - 1];
      CleanEntriesText(front);
      StoreKeepsProper(CleanEntries(front), last.key.s, CleanValue(last));
      TextsOfStore(CleanEntries(front), last.key.s, CleanValue(last));
      assert entries == front + [last];
      TextsSnoc(front, last);
    }
  }

  lemma DistinctSnoc(front: seq<Entry>, last: Entry)
    ensures DistinctKeys(front + [last]) <==> DistinctKeys(front) && last.key.s !in Texts(front)
  {
    var entries := front + [last];
    assert forall i | 0 <= i < |front| :: entries[i] == front[i] && front[i] in front;
    if last.key.s in Texts(front) {
      var e :| e in front && e.key.s == last.key.s;
      var i :| 0 <= i < |front| && front[i] == e;
      assert entries[i].key.s == entries[|front|].key.s;
    }
    if DistinctKeys(entries) {
      forall i, j | 0 <= i < j < |front| ensures front[i].key.s != front[j].key.s {
        assert entries[i].key.s != entries[j].key.s;
      }
    }
  }

  lemma {:induction false} TextsOfDistinct(entries: seq<Entry>)
    ensures |Texts(entries)| <= |entries|
    ensures |Texts(entries)| == |entries| <==> DistinctKeys(entries)
    decreases entries
  {
    if entries != [] {
      var front, last := entries[..|entries| - 1], entries[|entries| - 1];
      assert entries == front + [last];
      TextsOfDistinct(front);
      TextsSnoc(front, last);
      DistinctSnoc(front, last);
    }
  }

  /** As many entries are left as there are different keys, so none is lost exactly when no two
      keys look the same. */
  lemma ClashLosesEntriesExactlyWhen(entries: seq<Entry>)
    ensures |CleanEntries(entries)| == |Texts(entries)|
    ensures |CleanEntries(entries)| == |entries| <==> DistinctKeys(entries)
  {
    CleanEntriesText(entries);
    TextsOfDistinct(entries);
  }

  function Cleaned(e: Entry): Entry { Entry(Text(e.key.s), CleanValue(e)) }

  ghost predicate FromSurvivor(entries: seq<Entry>, c: Entry) {
    exists i | 0 <= i < |entries| :: Survives(entries, i) && c == Cleaned(entries[i])
  }

  lemma FromSurvivorSnoc(front: seq<Entry>, last: Entry, c: Entry)
    ensures FromSurvivor(front + [last], c) <==> c == Cleaned(last) || (FromSurvivor(front, c) && c.key.s != last.key.s)
  {
    var entries, n := front + [last], |front|;
    assert entries[n] == last && Survives(entries, n);
    if FromSurvivor(entries, c) && c != Cleaned(last) {
      var i :| 0 <= i <= n && Survives(entries, i) && c == Cleaned(entries[i]);
      assert entries[n].key.s != entries[i].key.s;
      assert forall j | i < j < n :: entries[j] == front[j];
      assert Survives(front, i) && entries[i] == front[i];
    }
    if FromSurvivor(front, c) && c.key.s != last.key.s {
      var i :| 0 <= i < n && Survives(front, i) && c == Cleaned(front[i]);
      assert forall j | i < j < n :: entries[j] == front[j];
      assert Survives(entries, i) && entries[i] == front[i];
    }
  }

  /** What is left is what the last entry of each key has become. */
  lemma {:induction false} SurvivorsAreKept(entries: seq<Entry>, c: Entry)
    ensures c in CleanEntries(entries) <==> FromSurvivor(entries, c)
    decreases entries
  {
    if entries != [] {
      var front, last := entries[..|entries| - 1], entries[|entries| - 1];
      assert entries == front + [last];
      CleanEntriesText(front);
      StoreExactly(CleanEntries(front), last.key.s, CleanValue(last));
      SurvivorsAreKept(front, c);
      FromSurvivorSnoc(front, last, c);
    }
  }

  lemma {:induction false} StoreNew(entries: seq<Entry>, key: string, value: Data)
    requires forall e | e in entries :: e.key.s != key
    ensures Store(entries, key, value) == entries + [Entry(Text(key), value)]
    decreases entries
  {
    if entries != [] {
      assert entries[0] in entries && forall e | e in entries[1..] :: e in entries;
      StoreNew(entries[1..], key, value);
    }
  }

  /** Without a clash every entry is kept, in place, under its key as a string. */
  lemma {:induction false} EntriesKept(entries: seq<Entry>)
    requires DistinctKeys(entries)
    ensures var cleaned := CleanEntries(entries);
      && |cleaned| == |entries|
      && forall i | 0 <= i < |entries| :: cleaned[i] == Entry(Text(entries[i].key.s), CleanValue(entries[i]))
    decreases entries
  {
    if entries != [] {
      var front, last := entries[..|entries| - 1], entries[|entries| - 1];
      EntriesKept(front);
      forall e | e in CleanEntries(front) ensures e.key.s != last.key.s {
        var i :| 0 <= i < |front| && CleanEntries(front)[i] == e;
        assert entries[i].key.s != last.key.s;
      }
      StoreNew(CleanEntries(front), last.key.s, CleanValue(last));
    }
  }

  lemma {:induction false} ItemsKept(items: seq<Data>)
    ensures |CleanAll(items)| == |items| && forall i | 0 <= i < |items| :: CleanAll(items)[i] == Clean(items[i])
    decreases items
  {
    if items != [] { ItemsKept(items[..|items| - 1]); }
  }

  // ----- what is cleaned up can be sent -----

  /** What is cleaned up can be sent exactly when its integers have 32 bits: a longer integer
      that is not a long is let through. */
  lemma {:induction false} MarshalsExactlyWhen(d: Data)
    ensures Marshals(Clean(d)) <==> Fits(d)
  {
    match d
    case Dict(entries) => EntriesFit(entries);
    case List(items) => AllExactlyWhen(items);
    case Set(items) => AllExactlyWhen(items);
    case Tuple(items) => AllExactlyWhen(items);
    case Time(fields) => FieldsFit(fields);
    case _ =>
  }

  lemma FieldsFit(fields: seq<Scalar>)
    ensures (forall x | x in AllPlain(fields) :: Marshals(x)) <==> forall v | v in fields :: Sendable(v)
  {
    var plain := AllPlain(fields);
    forall i | 0 <= i < |fields|
      ensures plain[i] in plain && fields[i] in fields && (Marshals(plain[i]) <==> Sendable(fields[i]))
    {
    }
  }

  lemma {:induction false} EntryExactlyWhen(e: Entry)
    ensures Marshals(CleanValue(e)) <==> Fits(e.value)
  {
    MarshalsExactlyWhen(e.value);
  }

  lemma {:induction false} EntriesFit(entries: seq<Entry>)
    ensures Marshals(Dict(CleanEntries(entries))) <==> Fits(Dict(entries))
  {
    var cleaned := CleanEntries(entries);
    CleanEntriesText(entries);
    forall i | 0 <= i < |entries| && Survives(entries, i)
      ensures Cleaned(entries[i]) in cleaned && (Marshals(Cleaned(entries[i]).value) <==> Fits(entries[i].value))
    {
      SurvivorsAreKept(entries, Cleaned(entries[i]));
      assert entries[i] in entries;
      EntryExactlyWhen(entries[i]);
    }
    forall c | c in cleaned ensures FromSurvivor(entries, c) {
      SurvivorsAreKept(entries, c);
    }
  }

  lemma {:induction false} AllExactlyWhen(items: seq<Data>)
    ensures (forall x | x in CleanAll(items) :: Marshals(x)) <==> forall x | x in items :: Fits(x)
  {
    if items != [] {
      var front, last := items[..|items| - 1], items[|items| - 1];
      assert items == front + [last];
      AllExactlyWhen(front);
      MarshalsExactlyWhen(last);
      assert forall x :: x in items <==> x in front || x == last;
      assert forall x :: x in CleanAll(items) <==> x in CleanAll(front) || x == Clean(last);
    }
  }

  // ----- cleaning up again -----

  /** Nothing is left to clean up. */
  predicate Settled(d: Data) {
    match d
    case Plain(_) => true
    case Dict(entries) => DistinctKeys(entries) && forall e | e in entries :: e.key.Text? && Settled(e.value)
    case List(items) => forall x | x in items :: Settled(x)
    case _ => false
  }

  /** Nothing is left but the tuples that dates have become. */
  predicate NearlySettled(d: Data) {
    match d
    case Plain(_) => true
    case Dict(entries) => DistinctKeys(entries) && forall e | e in entries :: e.key.Text? && NearlySettled(e.value)
    case List(items) => forall x | x in items :: NearlySettled(x)
    case Tuple(items) => forall x | x in items :: x.Plain?
    case _ => false
  }

  lemma {:induction false} OnceIsNearly(d: Data)
    ensures NearlySettled(Clean(d))
  {
    match d
    case Dict(entries) => EntriesNearly(entries);
    case List(items) => AllNearly(items);
    case Set(items) => AllNearly(items);
    case Tuple(items) => AllNearly(items);
    case _ =>
  }

  lemma {:induction false} AllNearly(items: seq<Data>)
    ensures forall x | x in CleanAll(items) :: NearlySettled(x)
  {
    if items != [] {
      AllNearly(items[..|items| - 1]);
      OnceIsNearly(items[|items| - 1]);
    }
  }

  lemma {:induction false} EntryNearly(e: Entry)
    ensures NearlySettled(CleanValue(e))
  {
    OnceIsNearly(e.value);
  }

  lemma {:induction false} EntriesNearly(entries: seq<Entry>)
    ensures DistinctKeys(CleanEntries(entries))
    ensures forall e | e in CleanEntries(entries) :: e.key.Text? && NearlySettled(e.value)
  {
    if entries != [] {
      var front, last := entries[..|entries| - 1], entries[|entries| - 1];
      EntriesNearly(front);
      EntryNearly(last);
      StoreDistinct(CleanEntries(front), last.key.s, CleanValue(last));
      StoreMembers(CleanEntries(front), last.key.s, CleanValue(last));
    }
  }

  lemma {:induction false} TwiceIsSettled(d: Data)
    requires NearlySettled(d)
    ensures Settled(Clean(d))
  {
    match d
    case Dict(entries) =>
      EntriesKept(entries);
      forall e | e in entries ensures Settled(CleanValue(e)) { EntrySettles(e); }
      DictSettles(entries);
    case List(items) => AllSettle(items);
    case Tuple(items) => PlainStay(items);
    case Plain(_) =>
  }

  lemma PlainStay(items: seq<Data>)
    requires forall x | x in items :: x.Plain?
    ensures CleanAll(items) == items
  {
    ItemsKept(items);
    forall i | 0 <= i < |items| ensures CleanAll(items)[i] == items[i] { assert items[i] in items; }
  }

  lemma {:induction false} EntrySettles(e: Entry)
    requires NearlySettled(e.value)
    ensures Settled(CleanValue(e))
  {
    TwiceIsSettled(e.value);
  }

  lemma DictSettles(entries: seq<Entry>)
    requires DistinctKeys(entries) && forall e | e in entries :: Settled(CleanValue(e))
    ensures Settled(Dict(CleanEntries(entries)))
  {
    EntriesKept(entries);
    var cleaned := CleanEntries(entries);
    forall c | c in cleaned ensures c.key.Text? && Settled(c.value) {
      var i :| 0 <= i < |cleaned| && cleaned[i] == c;
      assert entries[i] in entries;
    }
  }

  lemma {:induction false} AllSettle(items: seq<Data>)
    requires forall x | x in items :: NearlySettled(x)
    ensures forall x | x in CleanAll(items) :: Settled(x)
  {
    if items != [] {
      var front, last := items[..|items| - 1], items[|items| - 1];
      assert last in items && forall x | x in front :: x in items;
      AllSettle(front);
      TwiceIsSettled(last);
    }
  }

  lemma {:induction false} SettledStays(d: Data)
    requires Settled(d)
    ensures Clean(d) == d
  {
    match d
    case Dict(entries) =>
      EntriesKept(entries);
      forall i | 0 <= i < |entries| ensures CleanEntries(entries)[i] == entries[i] {
        assert entries[i] in entries;
        EntryStays(entries[i]);
      }
      assert CleanEntries(entries) == entries;
    case List(items) =>
      ItemsKept(items);
      forall i | 0 <= i < |items| ensures CleanAll(items)[i] == items[i] {
        assert items[i] in items;
        SettledStays(items[i]);
      }
      assert CleanAll(items) == items;
    case Plain(_) =>
  }

  lemma {:induction false} EntryStays(e: Entry)
    requires Settled(e.value)
    ensures CleanValue(e) == e.value
  {
    SettledStays(e.value);
  }

  /** The third clean-up changes nothing any more, whatever the value. */
  lemma ThirdTimeIsSecond(d: Data)
    ensures Clean(Clean(Clean(d))) == Clean(Clean(d))
  {
    OnceIsNearly(d);
    TwiceIsSettled(Clean(d));
    SettledStays(Clean(Clean(d)));
  }

  /** The second still can: a date becomes a tuple, and then a list. */
  lemma DateNeedsTwo(fields: seq<Scalar>)
    ensures Clean(Time(fields)).Tuple? && Clean(Clean(Time(fields))) == List(Clean(Time(fields)).items)
  {
    PlainStay(AllPlain(fields));
  }

  /** No date at any depth, except in entries that a later one replaces. */
  predicate NoDates(d: Data) {
    match d
    case Time(_) => false
    case Dict(entries) => forall i | 0 <= i < |entries| && Survives(entries, i) :: NoDates(entries[i].value)
    case List(items) => forall x | x in items :: NoDates(x)
    case Set(items) => forall x | x in items :: NoDates(x)
    case Tuple(items) => forall x | x in items :: NoDates(x)
    case _ => true
  }

  lemma {:induction false} SettledExactlyWhen(d: Data)
    ensures Settled(Clean(d)) <==> NoDates(d)
  {
    match d
    case Dict(entries) => EntriesDateless(entries);
    case List(items) => AllSettledExactlyWhen(items);
    case Set(items) => AllSettledExactlyWhen(items);
    case Tuple(items) => AllSettledExactlyWhen(items);
    case _ =>
  }

  lemma {:induction false} EntrySettledExactlyWhen(e: Entry)
    ensures Settled(CleanValue(e)) <==> NoDates(e.value)
  {
    SettledExactlyWhen(e.value);
  }

  lemma {:induction false} EntriesDateless(entries: seq<Entry>)
    ensures Settled(Dict(CleanEntries(entries))) <==> NoDates(Dict(entries))
  {
    var cleaned := CleanEntries(entries);
    CleanEntriesText(entries);
    forall i | 0 <= i < |entries| && Survives(entries, i)
      ensures Cleaned(entries[i]) in cleaned && (Settled(Cleaned(entries[i]).value) <==> NoDates(entries[i].value))
    {
      SurvivorsAreKept(entries, Cleaned(entries[i]));
      assert entries[i] in entries;
      EntrySettledExactlyWhen(entries[i]);
    }
    forall c | c in cleaned ensures FromSurvivor(entries, c) {
      SurvivorsAreKept(entries, c);
    }
  }

  lemma {:induction false} AllSettledExactlyWhen(items: seq<Data>)
    ensures (forall x | x in CleanAll(items) :: Settled(x)) <==> forall x | x in items :: NoDates(x)
  {
    if items != [] {
      var front, last := items[..|items| - 1], items[|items| - 1];
      assert items == front + [last];
      AllSettledExactlyWhen(front);
      SettledExactlyWhen(last);
      assert forall x :: x in items <==> x in front || x == last;
      assert forall x :: x in CleanAll(items) <==> x in CleanAll(front) || x == Clean(last);
    }
  }

  /** Once is enough exactly when there is no date at any depth, in entries that are kept. */
  lemma OnceIsEnoughExactlyWhen(d: Data)
    ensures Clean(Clean(d)) == Clean(d) <==> NoDates(d)
  {
    SettledExactlyWhen(d);
    OnceIsNearly(d);
    TwiceIsSettled(Clean(d));
    if Settled(Clean(d)) { SettledStays(Clean(d)); }
  }
}
