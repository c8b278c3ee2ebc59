/** Placing menu objects in slots by priority, with linear probing
    (web/includes/modules.inc.php:176-223). */
module PrioritySlots {
  import opened Basics

  datatype Item = Item(name: string, priority: int)

  type Slots = map<int, Item>

  function AtOrAbove(keys: set<int>, p: int): set<int> {
    set k | k in keys && k >= p
  }

  function InsertWithoutDelete(arr: Slots, ind: int, value: Item): Slots
    decreases |AtOrAbove(arr.Keys, ind)|
  {
    if ind in arr then
      Fewer(arr.Keys, ind);
      InsertWithoutDelete(arr, ind + 1, value)
    else arr[ind := value]
  }

  lemma Fewer(keys: set<int>, p: int)
    requires p in keys
    ensures |AtOrAbove(keys, p + 1)| < |AtOrAbove(keys, p)|
  {
    assert AtOrAbove(keys, p) == AtOrAbove(keys, p + 1) + {p};
  }

  // ----- the first free slot -----

  predicate IsFirstFree(keys: set<int>, p: int, slot: int) {
    p <= slot && slot !in keys && forall k | p <= k < slot :: k in keys
  }

  function FirstFree(keys: set<int>, p: int): (slot: int)
    ensures IsFirstFree(keys, p, slot)
    decreases |AtOrAbove(keys, p)|
  {
    if p in keys then
      Fewer(keys, p);
      FirstFree(keys, p + 1)
    else p
  }

  lemma FirstFreeUnique(keys: set<int>, p: int, slot: int)
    requires IsFirstFree(keys, p, slot)
    ensures slot == FirstFree(keys, p)
  {
    var f := FirstFree(keys, p);
    assert slot < f ==> slot in keys;
    assert f < slot ==> f in keys;
  }

  /** Insertion terminates with the object in the first free slot at or above its index, and
      nothing else changed. */
  lemma {:induction false} InsertionFindsFirstFree(arr: Slots, ind: int, value: Item)
    ensures InsertWithoutDelete(arr, ind, value) == arr[FirstFree(arr.Keys, ind) := value]
    decreases |AtOrAbove(arr.Keys, ind)|
  {
    if ind in arr {
      Fewer(arr.Keys, ind);
      InsertionFindsFirstFree(arr, ind + 1, value);
    }
  }

  // ----- the occupied slots do not depend on the order -----

  /** The slots that a list of priorities takes, in the order of insertion. */
  function Taken(keys: set<int>, prios: seq<int>): seq<int>
    decreases prios
  {
    if prios == [] then []
    else
      var slot := FirstFree(keys, prios[0]);
      [slot] + Taken(keys + {slot}, prios[1..])
  }

  /** Two neighbours in the list may change places: the same two slots are taken. */
  lemma SwapLemma(keys: set<int>, p: int, q: int)
    ensures var a := FirstFree(keys, p);
      var b := FirstFree(keys + {a}, q);
      var c := FirstFree(keys, q);
      var d := FirstFree(keys + {c}, p);
      (a == d && b == c) || (a == c && b == d)
  {
    var a, c := FirstFree(keys, p), FirstFree(keys, q);
    if a != c {
      FirstFreeUnique(keys + {a}, q, c);
      FirstFreeUnique(keys + {c}, p, a);
    } else {
      var b := FirstFree(keys + {a}, q);
      FirstFreeUnique(keys + {c}, p, b);
    }
  }

  lemma SwapFront(keys: set<int>, p: int, q: int, rest: seq<int>)
    ensures multiset(Taken(keys, [p, q] + rest)) == multiset(Taken(keys, [q, p] + rest))
  {
    SwapLemma(keys, p, q);
    TakenTwo(keys, p, q, rest);
    TakenTwo(keys, q, p, rest);
    var a, c := FirstFree(keys, p), FirstFree(keys, q);
    var b, d := FirstFree(keys + {a}, q), FirstFree(keys + {c}, p);
    assert keys + {a} + {b} == keys + {c} + {d};
    assert multiset([a, b]) == multiset([c, d]);
  }

  lemma TakenTwo(keys: set<int>, p: int, q: int, rest: seq<int>)
    ensures var a := FirstFree(keys, p);
      var b := FirstFree(keys + {a}, q);
      Taken(keys, [p, q] + rest) == [a, b] + Taken(keys + {a} + {b}, rest)
  {
    assert ([p, q] + rest)[1..] == [q] + rest;
    assert ([q] + rest)[1..] == rest;
  }

  function Without<T>(s: seq<T>, i: nat): seq<T>
    requires i < |s|
  {
    s[..i] + s[i + 1..]
  }

  lemma TakenCons(keys: set<int>, p: int, rest: seq<int>)
    ensures Taken(keys, [p] + rest) == [FirstFree(keys, p)] + Taken(keys + {FirstFree(keys, p)}, rest)
  {
    assert ([p] + rest)[1..] == rest;
  }

  lemma SecondToFront(keys: set<int>, p: int, x: int, tail: seq<int>, rest: seq<int>)
    requires multiset(Taken(keys + {FirstFree(keys, p)}, tail)) ==
      multiset(Taken(keys + {FirstFree(keys, p)}, [x] + rest))
    ensures multiset(Taken(keys, [p] + tail)) == multiset(Taken(keys, [x, p] + rest))
  {
    TakenCons(keys, p, tail);
    TakenCons(keys, p, [x] + rest);
    assert [p] + ([x] + rest) == [p, x] + rest;
    SwapFront(keys, p, x, rest);
  }

  lemma Regroup(prios: seq<int>, i: nat)
    requires 0 < i < |prios|
    ensures [prios[0]] + prios[1..] == prios
    ensures [prios[i]] + Without(prios, i) == [prios[i], prios[0]] + Without(prios[1..], i - 1)
  {
  }

  lemma {:induction false} MoveToFront(keys: set<int>, prios: seq<int>, i: nat)
    requires i < |prios|
    ensures multiset(Taken(keys, prios)) == multiset(Taken(keys, [prios[i]] + Without(prios, i)))
    decreases i
  {
    if i == 0 {
      assert [prios[0]] + Without(prios, 0) == prios;
    } else {
      MoveToFront(keys + {FirstFree(keys, prios[0])}, prios[1..], i - 1);
      SecondToFront(keys, prios[0], prios[i], prios[1..], Without(prios[1..], i - 1));
      Regroup(prios, i);
    }
  }

  lemma RemoveOne<T>(s: seq<T>, i: nat)
    requires i < |s|
    ensures multiset(s) == multiset{s[i]} + multiset(Without(s, i))
  {
    assert s == s[..i] + [s[i]] + s[i + 1..];
  }

  /** Where the first element of `s` is in a permutation of `s`, and what is left. */
  lemma Locate<T>(s: seq<T>, t: seq<T>) returns (i: nat)
    requires s != [] && multiset(s) == multiset(t)
    ensures i < |t| && t[i] == s[0]
    ensures multiset(s[1..]) == multiset(Without(t, i))
  {
    assert s[0] in multiset(t);
    i :| 0 <= i < |t| && t[i] == s[0];
    RemoveOne(t, i);
    RemoveOne(s, 0);
    assert Without(s, 0) == s[1..];
    assert multiset(s) - multiset{s[0]} == multiset(s[1..]);
    assert multiset(t) - multiset{s[0]} == multiset(Without(t, i));
  }

  lemma NothingLeft<T>(s: seq<T>)
    requires multiset(s) == multiset{}
    ensures s == []
  {
    assert |s| == |multiset(s)|;
  }

  /** Which slots are taken depends only on which priorities are inserted, not on the order
      of insertion. */
  lemma {:induction false} TakenOrderIndependent(keys: set<int>, prios: seq<int>, prios': seq<int>)
    requires multiset(prios) == multiset(prios')
    ensures multiset(Taken(keys, prios)) == multiset(Taken(keys, prios'))
    decreases prios
  {
    if prios == [] {
      NothingLeft(prios');
    } else {
      var i := Locate(prios, prios');
      MoveToFront(keys, prios', i);
      assert ([prios[0]] + Without(prios', i))[1..] == Without(prios', i);
      TakenOrderIndependent(keys + {FirstFree(keys, prios[0])}, prios[1..], Without(prios', i));
    }
  }

  function Sum(s: seq<int>): int {
    if s == [] then 0 else s[0] + Sum(s[1..])
  }

  lemma {:induction false} SumWithout(s: seq<int>, i: nat)
    requires i < |s|
    ensures Sum(s) == s[i] + Sum(Without(s, i))
    decreases i
  {
    if i == 0 {
      assert Without(s, 0) == s[1..];
    } else {
      SumWithout(s[1..], i - 1);
      assert Without(s, i)[1..] == Without(s[1..], i - 1);
    }
  }

  lemma {:induction false} SumOrderIndependent(s: seq<int>, t: seq<int>)
    requires multiset(s) == multiset(t)
    ensures Sum(s) == Sum(t)
    decreases s
  {
    if s == [] {
      NothingLeft(t);
    } else {
      var i := Locate(s, t);
      SumWithout(t, i);
      SumOrderIndependent(s[1..], Without(t, i));
    }
  }

  // ----- placing a list of objects -----

  function Placed(items: seq<Item>): Slots {
    if items == [] then map[]
    else
      var n := |items| - 1;
      InsertWithoutDelete(Placed(items[..n]), items[n].priority, items[n])
  }

  lemma PlacedSnoc(items: seq<Item>, item: Item)
    ensures Placed(items + [item]) == InsertWithoutDelete(Placed(items), item.priority, item)
  {
    assert (items + [item])[..|items|] == items;
  }

  /** The slots the objects are given, in the order in which they come. */
  function SlotList(items: seq<Item>): (slots: seq<int>)
    ensures |slots| == |items|
  {
    if items == [] then []
    else
      var n := |items| - 1;
      SlotList(items[..n]) + [FirstFree(Placed(items[..n]).Keys, items[n].priority)]
  }

  /** Every object sits at or above its priority and every slot in between is occupied. */
  predicate Packed(m: Slots) {
    forall s | s in m :: m[s].priority <= s && forall k | m[s].priority <= k < s :: k in m
  }

  lemma {:induction false} PlacedPacked(items: seq<Item>)
    ensures Packed(Placed(items))
  {
    if items != [] {
      var n := |items| - 1;
      PlacedPacked(items[..n]);
      InsertionFindsFirstFree(Placed(items[..n]), items[n].priority, items[n]);
    }
  }

  /** No object is lost, moved or overwritten: each sits in the slot it was given when it
      came, no two share a slot, and no slot holds anything else. */
  lemma {:induction false} EveryObjectInItsSlot(items: seq<Item>)
    ensures forall i | 0 <= i < |items| ::
      SlotList(items)[i] in Placed(items) && Placed(items)[SlotList(items)[i]] == items[i]
    ensures multiset(SlotList(items)) == multiset(Placed(items).Keys)
  {
    if items == [] {
      assert Placed(items).Keys == {};
    } else {
      var n := |items| - 1;
      var m := Placed(items[..n]);
      var slot := FirstFree(m.Keys, items[n].priority);
      EveryObjectInItsSlot(items[..n]);
      InsertionFindsFirstFree(m, items[n].priority, items[n]);
      assert Placed(items) == m[slot := items[n]] && slot !in m;
      assert SlotList(items) == SlotList(items[..n]) + [slot];
      OneMoreSlot(m, slot, items[n]);
      forall i | 0 <= i < |items|
        ensures SlotList(items)[i] in Placed(items) && Placed(items)[SlotList(items)[i]] == items[i]
      {
        if i < n { assert SlotList(items)[i] == SlotList(items[..n])[i] && items[..n][i] == items[i]; }
      }
    }
  }

  lemma OneMoreSlot(m: Slots, slot: int, item: Item)
    requires slot !in m
    ensures multiset(m[slot := item].Keys) == multiset(m.Keys) + multiset{slot}
  {
    assert m[slot := item].Keys == m.Keys + {slot};
  }

  lemma {:induction false} SlotListPrefix(items: seq<Item>, j: nat)
    requires j <= |items|
    ensures SlotList(items)[..j] == SlotList(items[..j])
    ensures j < |items| ==> SlotList(items)[j] == FirstFree(Placed(items[..j]).Keys, items[j].priority)
  {
    if j == |items| {
      assert items[..j] == items;
    } else {
      var n := |items| - 1;
      SlotListPrefix(items[..n], j);
      assert items[..n][..j] == items[..j];
    }
  }

  /** An object that comes later with the same or a higher priority goes further down: equal
      priorities stay in the order of insertion. */
  lemma {:induction false} LaterGoesLower(items: seq<Item>, i: nat, j: nat)
    requires i < j < |items| && items[i].priority <= items[j].priority
    ensures SlotList(items)[i] < SlotList(items)[j]
  {
    var before, after := Placed(items[..i]).Keys, Placed(items[..j]).Keys;
    SlotListPrefix(items, i);
    SlotListPrefix(items, j);
    assert items[..j][..i] == items[..i];
    KeysGrow(items[..j], i);
    EveryObjectInItsSlot(items[..j]);
    assert SlotList(items)[i] == SlotList(items)[..j][i] == SlotList(items[..j])[i];
    assert SlotList(items[..j])[i] in after;
    assert IsFirstFree(before, items[i].priority, SlotList(items)[i]);
    assert IsFirstFree(after, items[j].priority, SlotList(items)[j]);
  }

  lemma {:induction false} KeysGrow(items: seq<Item>, i: nat)
    requires i <= |items|
    ensures Placed(items[..i]).Keys <= Placed(items).Keys
  {
    if i == |items| {
      assert items[..i] == items;
    } else {
      var n := |items| - 1;
      KeysGrow(items[..n], i);
      assert items[..n][..i] == items[..i];
      InsertionFindsFirstFree(Placed(items[..n]), items[n].priority, items[n]);
    }
  }

  // ----- order independence of the slots of a list of objects -----

  function Priorities(items: seq<Item>): seq<int> {
    if items == [] then [] else Priorities(items[..|items| - 1]) + [items[|items| - 1].priority]
  }

  function Elements(s: seq<int>): set<int> { set k | k in s }

  lemma {:induction false} TakenSnoc(keys: set<int>, prios: seq<int>, p: int)
    ensures Taken(keys, prios + [p]) == Taken(keys, prios) + [FirstFree(keys + Elements(Taken(keys, prios)), p)]
    decreases prios
  {
    if prios == [] {
      assert Elements(Taken(keys, prios)) == {};
      assert keys + {} == keys;
      assert (prios + [p])[1..] == [];
    } else {
      var slot := FirstFree(keys, prios[0]);
      TakenSnoc(keys + {slot}, prios[1..], p);
      assert (prios + [p])[1..] == prios[1..] + [p];
      assert Elements(Taken(keys, prios)) == {slot} + Elements(Taken(keys + {slot}, prios[1..]));
      assert keys + {slot} + Elements(Taken(keys + {slot}, prios[1..])) == keys + Elements(Taken(keys, prios));
    }
  }

  lemma {:induction false} TakenBySlotList(items: seq<Item>)
    ensures Taken({}, Priorities(items)) == SlotList(items)
    ensures Elements(SlotList(items)) == Placed(items).Keys
  {
    if items == [] {
      assert Placed(items).Keys == {};
    } else {
      var n := |items| - 1;
      var m := Placed(items[..n]);
      TakenBySlotList(items[..n]);
      TakenSnoc({}, Priorities(items[..n]), items[n].priority);
      assert {} + m.Keys == m.Keys;
      InsertionFindsFirstFree(m, items[n].priority, items[n]);
      assert Elements(SlotList(items)) == Elements(SlotList(items[..n])) + {SlotList(items)[n]};
    }
  }

  /** How far the objects end up from where they wanted to be, all together. */
  function Displacement(items: seq<Item>): int {
    Sum(SlotList(items)) - Sum(Priorities(items))
  }

  lemma SameBagSameSet(s: set<int>, t: set<int>)
    requires multiset(s) == multiset(t)
    ensures s == t
  {
    forall k ensures k in s <==> k in t {
      assert k in s <==> k in multiset(s);
      assert k in t <==> k in multiset(t);
    }
  }

  /** The occupied slots are the same for every order in which objects with the same
      priorities may come, and so is how far they are displaced in total. */
  lemma OccupiedSlotsOrderIndependent(items: seq<Item>, items': seq<Item>)
    requires multiset(Priorities(items)) == multiset(Priorities(items'))
    ensures multiset(SlotList(items)) == multiset(SlotList(items'))
    ensures Placed(items).Keys == Placed(items').Keys
  {
    TakenBySlotList(items);
    TakenBySlotList(items');
    TakenOrderIndependent({}, Priorities(items), Priorities(items'));
    EveryObjectInItsSlot(items);
    EveryObjectInItsSlot(items');
    SameBagSameSet(Placed(items).Keys, Placed(items').Keys);
  }

  lemma DisplacementOrderIndependent(items: seq<Item>, items': seq<Item>)
    requires multiset(Priorities(items)) == multiset(Priorities(items'))
    ensures Displacement(items) == Displacement(items')
  {
    OccupiedSlotsOrderIndependent(items, items');
    SumOrderIndependent(SlotList(items), SlotList(items'));
    SumOrderIndependent(Priorities(items), Priorities(items'));
  }

  // ----- reading the slots in key order -----

  lemma {:induction false} HasMin(keys: set<int>)
    requires keys != {}
    ensures exists m :: m in keys && forall k | k in keys :: m <= k
    decreases |keys|
  {
    EmptyOrNot(keys);
    var x: int :| x in keys;
    if y: int :| y in keys && y < x {
      assert y in keys - {x};
      HasMin(keys - {x});
      var m :| m in keys - {x} && forall k | k in keys - {x} :: m <= k;
      forall k | k in keys ensures m <= k {
        if k != x { assert k in keys - {x}; }
      }
    } else {
      assert forall k | k in keys :: x <= k;
    }
  }

  function SortedKeys(keys: set<int>): seq<int> {
    if keys == {} then []
    else
      HasMin(keys);
      var m :| m in keys && forall k | k in keys :: m <= k;
      [m] + SortedKeys(keys - {m})
  }

  lemma {:induction false} SortedKeysSorted(keys: set<int>)
    ensures forall i | 0 <= i < |SortedKeys(keys)| :: SortedKeys(keys)[i] in keys
    ensures forall i, j | 0 <= i < j < |SortedKeys(keys)| :: SortedKeys(keys)[i] < SortedKeys(keys)[j]
    ensures multiset(SortedKeys(keys)) == multiset(keys)
  {
    if keys != {} {
      var m := SortedKeys(keys)[0];
      var rest := SortedKeys(keys - {m});
      SortedKeysSorted(keys - {m});
      assert SortedKeys(keys) == [m] + rest;
      assert multiset(keys) == multiset(keys - {m}) + multiset{m};
    }
  }

  function Read(m: Slots, keys: seq<int>): seq<Item>
    requires forall i | 0 <= i < |keys| :: keys[i] in m
  {
    seq(|keys|, i requires 0 <= i < |keys| => m[keys[i]])
  }

  /** What `ksort` makes of the slots: the objects in key order. */
  function InKeyOrder(m: Slots): seq<Item> {
    SortedKeysSorted(m.Keys);
    Read(m, SortedKeys(m.Keys))
  }

  function Present(objects: seq<Option<Item>>): seq<Item> {
    if objects == [] then []
    else
      var n := |objects| - 1;
      Present(objects[..n]) + match objects[n] case None => [] case Some(item) => [item]
  }

  /** `getSorted`. */
  method GetSorted(objects: seq<Option<Item>>) returns (sorted: seq<Item>)
    ensures sorted == InKeyOrder(Placed(Present(objects)))
  {
    var prio: Slots := map[];
    for i := 0 to |objects|
      invariant prio == Placed(Present(objects[..i]))
    {
      assert objects[..i + 1][..i] == objects[..i];
      if objects[i].Some? {
        var item := objects[i].value;
        prio := InsertWithoutDelete(prio, item.priority, item);
        PlacedSnoc(Present(objects[..i]), item);
      } else {
        assert Present(objects[..i + 1]) == Present(objects[..i]);
      }
    }
    assert objects[..|objects|] == objects;
    sorted := InKeyOrder(prio);
  }

  /** A submodule of the navigation bar; for each of its pages, whether the user may see it. */
  datatype Submodule = Submodule(item: Item, pages: seq<bool>)

  predicate Visible(submodule: Option<Submodule>) {
    submodule.Some? && true in submodule.value.pages
  }

  function Shown(submodules: seq<Option<Submodule>>): seq<Item> {
    if submodules == [] then []
    else
      var n := |submodules| - 1;
      Shown(submodules[..n]) + if Visible(submodules[n]) then [submodules[n].value.item] else []
  }

  function AllShown(modules: seq<seq<Option<Submodule>>>): seq<Item> {
    if modules == [] then []
    else AllShown(modules[..|modules| - 1]) + Shown(modules[|modules| - 1])
  }

  /** Inserted are, from the first module to the last and in each from the first submodule to
      the last, those of which the user may see some page. */
  lemma {:induction false} ShownInOrder(first: Option<Submodule>, rest: seq<Option<Submodule>>)
    ensures Shown([first] + rest) ==
      (match first
       case None => []
       case Some(s) => if exists i | 0 <= i < |s.pages| :: s.pages[i] then [s.item] else [])
      + Shown(rest)
    decreases rest
  {
    if rest == [] {
      assert [first] + rest == [first] && [first][..0] == [];
      assert Shown([first]) == Shown([]) + if Visible(first) then [first.value.item] else [];
    } else {
      var n := |rest| - 1;
      ShownInOrder(first, rest[..n]);
      assert ([first] + rest)[..n + 1] == [first] + rest[..n] && ([first] + rest)[n + 1] == rest[n];
    }
  }

  lemma {:induction false} AllShownInOrder(first: seq<Option<Submodule>>, rest: seq<seq<Option<Submodule>>>)
    ensures AllShown([first] + rest) == Shown(first) + AllShown(rest)
    decreases rest
  {
    if rest == [] {
      assert [first] + rest == [first] && [first][..0] == [];
      assert AllShown([first]) == AllShown([]) + Shown(first);
    } else {
      var n := |rest| - 1;
      AllShownInOrder(first, rest[..n]);
      assert ([first] + rest)[..n + 1] == [first] + rest[..n] && ([first] + rest)[n + 1] == rest[n];
      Assoc(Shown(first), AllShown(rest[..n]), Shown(rest[n]));
    }
  }

  lemma {:induction false} PresentInOrder(first: Option<Item>, rest: seq<Option<Item>>)
    ensures Present([first] + rest) == (if first.Some? then [first.value] else []) + Present(rest)
    decreases rest
  {
    if rest == [] {
      assert [first] + rest == [first] && [first][..0] == [];
      assert Present([first]) == Present([]) + match first case None => [] case Some(item) => [item];
    } else {
      var n := |rest| - 1;
      PresentInOrder(first, rest[..n]);
      assert ([first] + rest)[..n + 1] == [first] + rest[..n] && ([first] + rest)[n + 1] == rest[n];
    }
  }

  /** The loop over the pages, left at the first one the user may see. */
  method AnyVisible(pages: seq<bool>) returns (add: bool)
    ensures add <==> true in pages
  {
    add := false;
    for i := 0 to |pages|
      invariant !add && true !in pages[..i]
    {
      add := pages[i];
      if add { break; }
    }
  }

  /** The insertion loops of `autoGenerateNavbar`. */
  method NavbarOrder(modules: seq<seq<Option<Submodule>>>) returns (bar: seq<Item>)
    ensures bar == InKeyOrder(Placed(AllShown(modules)))
  {
    var prio: Slots := map[];
    for i := 0 to |modules|
      invariant prio == Placed(AllShown(modules[..i]))
    {
      prio := InsertShown(prio, modules[i], AllShown(modules[..i]));
      assert modules[..i + 1][..i] == modules[..i];
    }
    assert modules[..|modules|] == modules;
    bar := InKeyOrder(prio);
  }

  method InsertShown(start: Slots, submodules: seq<Option<Submodule>>, ghost before: seq<Item>) returns (prio: Slots)
    requires start == Placed(before)
    ensures prio == Placed(before + Shown(submodules))
  {
    prio := start;
    assert before + [] == before;
    for j := 0 to |submodules|
      invariant prio == Placed(before + Shown(submodules[..j]))
    {
      var add := false;
      if submodules[j].Some? {
        add := AnyVisible(submodules[j].value.pages);
      }
      assert submodules[..j + 1][..j] == submodules[..j];
      ghost var all := before + Shown(submodules[..j]);
      if add {
        var item := submodules[j].value.item;
        prio := InsertWithoutDelete(prio, item.priority, item);
        PlacedSnoc(all, item);
        assert before + Shown(submodules[..j + 1]) == all + [item];
      } else {
        assert before + Shown(submodules[..j + 1]) == all;
      }
    }
    assert submodules[..|submodules|] == submodules;
  }

  // ----- what the sorted list is -----

  lemma {:induction false} ReadPermuted(m: Slots, a: seq<int>, b: seq<int>)
    requires multiset(a) == multiset(b) && forall i | 0 <= i < |a| :: a[i] in m
    ensures forall i | 0 <= i < |b| :: b[i] in m
    ensures multiset(Read(m, a)) == multiset(Read(m, b))
    decreases a
  {
    forall i | 0 <= i < |b| ensures b[i] in m { assert b[i] in multiset(b); assert b[i] in a; }
    if a == [] {
      NothingLeft(b);
    } else {
      var i := Locate(a, b);
      ReadPermuted(m, a[1..], Without(b, i));
      RemoveOne(Read(m, b), i);
      RemoveOne(Read(m, a), 0);
      assert Without(Read(m, a), 0) == Read(m, a[1..]);
      assert Without(Read(m, b), i) == Read(m, Without(b, i));
    }
  }

  /** The sorted list has exactly the objects of the input, each as often as it occurs. */
  lemma SortedIsPermutation(items: seq<Item>)
    ensures multiset(InKeyOrder(Placed(items))) == multiset(items)
  {
    var m := Placed(items);
    SortedKeysSorted(m.Keys);
    EveryObjectInItsSlot(items);
    ReadPermuted(m, SlotList(items), SortedKeys(m.Keys));
    assert Read(m, SlotList(items)) == items;
  }

  predicate ByPriority(items: seq<Item>) {
    forall i, j | 0 <= i < j < |items| :: items[i].priority <= items[j].priority
  }

  predicate SlotsByPriority(m: Slots) {
    forall s, t | s in m && t in m && s < t :: m[s].priority <= m[t].priority
  }

  /** Whenever an object was turned away from an occupied slot, the object in it had the same
      or a lower priority. */
  predicate ProbesPassOnlyLower(items: seq<Item>) {
    items == [] ||
    var n := |items| - 1;
    var m := Placed(items[..n]);
    && ProbesPassOnlyLower(items[..n])
    && (forall k | items[n].priority <= k < FirstFree(m.Keys, items[n].priority) ::
      k in m && m[k].priority <= items[n].priority)
  }

  lemma ReadInOrder(m: Slots)
    ensures ByPriority(InKeyOrder(m)) <==> SlotsByPriority(m)
  {
    var keys := SortedKeys(m.Keys);
    SortedKeysSorted(m.Keys);
    if ByPriority(InKeyOrder(m)) {
      forall s, t | s in m && t in m && s < t ensures m[s].priority <= m[t].priority {
        assert s in multiset(keys) && t in multiset(keys);
        var i :| 0 <= i < |keys| && keys[i] == s;
        var j :| 0 <= j < |keys| && keys[j] == t;
        assert i < j;
        assert InKeyOrder(m)[i].priority <= InKeyOrder(m)[j].priority;
      }
    }
    if SlotsByPriority(m) {
      forall i, j | 0 <= i < j < |keys| ensures InKeyOrder(m)[i].priority <= InKeyOrder(m)[j].priority {
        assert keys[i] < keys[j];
      }
    }
  }

  lemma OneMoreInOrder(m: Slots, item: Item)
    requires Packed(m)
    ensures var slot := FirstFree(m.Keys, item.priority);
      SlotsByPriority(m[slot := item]) <==>
        SlotsByPriority(m) && forall k | item.priority <= k < slot :: m[k].priority <= item.priority
  {
    var slot := FirstFree(m.Keys, item.priority);
    var m' := m[slot := item];
    if SlotsByPriority(m') {
      forall s, t | s in m && t in m && s < t ensures m[s].priority <= m[t].priority {
        assert m'[s].priority <= m'[t].priority;
      }
      forall k | item.priority <= k < slot ensures m[k].priority <= item.priority {
        assert m'[k].priority <= m'[slot].priority;
      }
    }
    if SlotsByPriority(m) && forall k | item.priority <= k < slot :: m[k].priority <= item.priority {
      forall s, t | s in m' && t in m' && s < t ensures m'[s].priority <= m'[t].priority {
        if t == slot {
          assert m[s].priority <= s;
        } else if s == slot {
          assert forall k | m[t].priority <= k < t :: k in m;
        }
      }
    }
  }

  lemma {:induction false} SlotsByPriorityExactlyWhen(items: seq<Item>)
    ensures SlotsByPriority(Placed(items)) <==> ProbesPassOnlyLower(items)
  {
    if items != [] {
      var n := |items| - 1;
      SlotsByPriorityExactlyWhen(items[..n]);
      PlacedPacked(items[..n]);
      InsertionFindsFirstFree(Placed(items[..n]), items[n].priority, items[n]);
      OneMoreInOrder(Placed(items[..n]), items[n]);
    }
  }

  // ----- which slots are free, from the priorities alone -----

  /** How many of the priorities lie between `a` and `k`. */
  function CountIn(prios: seq<int>, a: int, k: int): nat {
    if prios == [] then 0
    else
      var n := |prios| - 1;
      CountIn(prios[..n], a, k) + if a <= prios[n] <= k then 1 else 0
  }

  /** There is room for `k`: no stretch of slots that ends at `k` is filled by those who want
      into it. */
  predicate Room(prios: seq<int>, k: int) {
    forall a | a in prios && a <= k :: CountIn(prios, a, k) <= k - a
  }

  function Holding(m: Slots, a: int, k: int): set<int> {
    set s | s in m && a <= m[s].priority <= k
  }

  function Span(low: int, high: int): (r: set<int>)
    requires low <= high
    ensures |r| == high - low && forall x :: x in r <==> low <= x < high
    decreases high - low
  {
    if low < high then Span(low, high - 1) + {high - 1} else {}
  }

  lemma NotLarger(s: set<int>, t: set<int>)
    requires s <= t
    ensures |s| <= |t|
  {
    assert t == s + (t - s);
  }

  lemma {:induction false} CountHolding(items: seq<Item>, a: int, k: int)
    ensures CountIn(Priorities(items), a, k) == |Holding(Placed(items), a, k)|
    decreases items
  {
    if items != [] {
      var n := |items| - 1;
      var m := Placed(items[..n]);
      CountHolding(items[..n], a, k);
      InsertionFindsFirstFree(m, items[n].priority, items[n]);
      HoldingOneMore(m, FirstFree(m.Keys, items[n].priority), items[n], a, k);
      PrioritiesSnoc(items);
    }
  }

  lemma HoldingOneMore(m: Slots, slot: int, item: Item, a: int, k: int)
    requires slot !in m
    ensures |Holding(m[slot := item], a, k)| == |Holding(m, a, k)| + if a <= item.priority <= k then 1 else 0
  {
    var more := if a <= item.priority <= k then {slot} else {};
    assert Holding(m[slot := item], a, k) == Holding(m, a, k) + more;
  }

  lemma PrioritiesSnoc(items: seq<Item>)
    requires items != []
    ensures var n := |items| - 1;
      && Priorities(items) == Priorities(items[..n]) + [items[n].priority]
      && |Priorities(items)| == n + 1 && Priorities(items)[..n] == Priorities(items[..n])
  {
    PrioritiesAt(items[..|items| - 1]);
  }

  lemma {:induction false} PrioritiesAt(items: seq<Item>)
    ensures |Priorities(items)| == |items| && forall i | 0 <= i < |items| :: Priorities(items)[i] == items[i].priority
    decreases items
  {
    if items != [] { PrioritiesAt(items[..|items| - 1]); }
  }

  function Below(keys: set<int>, p: int): set<int> {
    set k | k in keys && k < p
  }

  /** Where the stretch of occupied slots that ends at `k` begins. */
  function RunStart(keys: set<int>, k: int): (a: int)
    requires k in keys
    ensures a <= k && a - 1 !in keys && forall s | a <= s <= k :: s in keys
    decreases |Below(keys, k)|
  {
    if k - 1 in keys then
      assert Below(keys, k) == Below(keys, k - 1) + {k - 1};
      RunStart(keys, k - 1)
    else k
  }

  /** Every occupied slot holds one of the objects. */
  lemma Origin(items: seq<Item>, s: int) returns (i: nat)
    requires s in Placed(items)
    ensures i < |items| && SlotList(items)[i] == s && Placed(items)[s] == items[i]
  {
    EveryObjectInItsSlot(items);
    assert s in multiset(SlotList(items));
    i :| 0 <= i < |items| && SlotList(items)[i] == s;
  }

  lemma FreeSlotHasRoom(items: seq<Item>, k: int, a: int)
    requires k !in Placed(items) && a <= k
    ensures CountIn(Priorities(items), a, k) <= k - a
  {
    var m := Placed(items);
    PlacedPacked(items);
    CountHolding(items, a, k);
    assert Holding(m, a, k) <= Span(a, k);
    NotLarger(Holding(m, a, k), Span(a, k));
  }

  lemma TakenSlotHasNoRoom(items: seq<Item>, k: int)
    requires k in Placed(items)
    ensures !Room(Priorities(items), k)
  {
    var m := Placed(items);
    var a := RunStart(m.Keys, k);
    PlacedPacked(items);
    CountHolding(items, a, k);
    assert Span(a, k + 1) <= Holding(m, a, k);
    NotLarger(Span(a, k + 1), Holding(m, a, k));
    var i := Origin(items, a);
    PrioritiesAt(items);
    assert Priorities(items)[i] == a;
  }

  /** The occupied slots, from the priorities alone: a slot is free exactly when, for every
      start, fewer objects want to be between the start and the slot than there are slots. */
  lemma FreeExactlyWhenRoom(items: seq<Item>, k: int)
    ensures k !in Placed(items) <==> Room(Priorities(items), k)
  {
    if k in Placed(items) {
      TakenSlotHasNoRoom(items, k);
    } else {
      forall a | a in Priorities(items) && a <= k ensures CountIn(Priorities(items), a, k) <= k - a {
        FreeSlotHasRoom(items, k, a);
      }
    }
  }

  /** Whoever comes after an object of higher priority finds room below that priority. */
  predicate RoomBelowHigher(prios: seq<int>) {
    forall i, j | 0 <= i < j < |prios| && prios[i] > prios[j] ::
      exists k | prios[j] <= k < prios[i] :: Room(prios[..j], k)
  }

  /** The same for one more, who wants `p`. */
  predicate RoomBelowFor(prios: seq<int>, p: int) {
    forall i | 0 <= i < |prios| && prios[i] > p :: exists k | p <= k < prios[i] :: Room(prios, k)
  }

  lemma RoomBelowSnoc(prios: seq<int>, p: int)
    ensures RoomBelowHigher(prios + [p]) <==> RoomBelowHigher(prios) && RoomBelowFor(prios, p)
  {
    var n, more := |prios|, prios + [p];
    assert forall j | 0 <= j <= n :: more[..j] == prios[..j];
    assert more[..n] == prios;
    if RoomBelowHigher(more) {
      forall i | 0 <= i < n && prios[i] > p ensures exists k | p <= k < prios[i] :: Room(prios, k) {
        assert more[i] > more[n];
      }
      forall i, j | 0 <= i < j < n && prios[i] > prios[j]
        ensures exists k | prios[j] <= k < prios[i] :: Room(prios[..j], k)
      {
        assert more[i] > more[j];
      }
    }
  }

  lemma {:induction false} LastFindsRoom(items: seq<Item>, p: int)
    requires var m := Placed(items);
      forall k | p <= k < FirstFree(m.Keys, p) :: m[k].priority <= p
    ensures RoomBelowFor(Priorities(items), p)
  {
    var m, prios := Placed(items), Priorities(items);
    var f := FirstFree(m.Keys, p);
    PlacedPacked(items);
    PrioritiesAt(items);
    EveryObjectInItsSlot(items);
    FreeExactlyWhenRoom(items, f);
    forall i | 0 <= i < |prios| && prios[i] > p ensures exists k | p <= k < prios[i] :: Room(prios, k) {
      var s := SlotList(items)[i];
      assert m[s] == items[i];
      assert f < items[i].priority;
    }
  }

  lemma RoomMeansPassingLower(items: seq<Item>, p: int, k: int)
    requires RoomBelowFor(Priorities(items), p) && p <= k < FirstFree(Placed(items).Keys, p)
    ensures Placed(items)[k].priority <= p
  {
    var m := Placed(items);
    if m[k].priority > p {
      var i := Origin(items, k);
      PlacedPacked(items);
      PrioritiesAt(items);
      var free :| p <= free < Priorities(items)[i] && Room(Priorities(items), free);
      FreeExactlyWhenRoom(items, free);
    }
  }

  lemma {:induction false} PassingLowerIsRoom(items: seq<Item>)
    ensures ProbesPassOnlyLower(items) <==> RoomBelowHigher(Priorities(items))
    decreases items
  {
    if items != [] {
      var n := |items| - 1;
      var front, p := items[..n], items[n].priority;
      var m := Placed(front);
      PassingLowerIsRoom(front);
      RoomBelowSnoc(Priorities(front), p);
      if forall k | p <= k < FirstFree(m.Keys, p) :: m[k].priority <= p {
        LastFindsRoom(front, p);
      }
      if RoomBelowFor(Priorities(front), p) {
        forall k | p <= k < FirstFree(m.Keys, p) ensures m[k].priority <= p {
          RoomMeansPassingLower(front, p, k);
        }
      }
    }
  }

  /** The list is in order of priority exactly when everyone who comes after an object of
      higher priority finds room below that priority.  The priorities alone decide it. */
  lemma SortedExactlyWhen(items: seq<Item>)
    ensures ByPriority(InKeyOrder(Placed(items))) <==> RoomBelowHigher(Priorities(items))
  {
    ReadInOrder(Placed(items));
    SlotsByPriorityExactlyWhen(items);
    PassingLowerIsRoom(items);
  }

  /** A list that comes in order of priority is returned as it is. */
  lemma SortedInputKept(items: seq<Item>)
    requires ByPriority(items)
    ensures InKeyOrder(Placed(items)) == items
  {
    var m := Placed(items);
    var keys, slots := SortedKeys(m.Keys), SlotList(items);
    SortedKeysSorted(m.Keys);
    EveryObjectInItsSlot(items);
    forall i, j | 0 <= i < j < |slots| ensures slots[i] < slots[j] {
      LaterGoesLower(items, i, j);
    }
    SameSlots(slots, keys);
  }

  lemma SameSlots(slots: seq<int>, keys: seq<int>)
    requires Increasing(slots) && Increasing(keys) && multiset(slots) == multiset(keys)
    ensures slots == keys
  {
    assert forall x :: x in slots <==> x in multiset(slots);
    assert forall x :: x in keys <==> x in multiset(keys);
    IncreasingUnique(slots, keys);
  }

  /** Three objects suffice to get a list out of order: the third wanted slot 0, was pushed
      past priority 1 and ends up last. */
  lemma SortedMayFail(a: Item, b: Item, c: Item)
    requires a.priority == 1 && b.priority == c.priority == 0
    ensures !ByPriority(InKeyOrder(Placed([a] + [b] + [c])))
  {
    var m := map[1 := a, 0 := b];
    PlacedSnoc([], a);
    assert [] + [a] == [a];
    PlacedSnoc([a], b);
    PlacedSnoc([a] + [b], c);
    assert Placed([a] + [b]) == m;
    assert InsertWithoutDelete(m, 0, c) == InsertWithoutDelete(m, 1, c) == InsertWithoutDelete(m, 2, c) == m[2 := c];
    ReadInOrder(m[2 := c]);
    assert m[2 := c][1].priority > m[2 := c][2].priority;
  }
}
