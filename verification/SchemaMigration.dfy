/** Choosing and running the scripts that bring a database to its latest schema
    (agent/mmc/database/ddl.py:36, 192-278, 388-442). */
module SchemaMigration {
  import opened Basics

  predicate ThreeDigits(d: string) { |d| == 3 && Digit(d[0]) && Digit(d[1]) && Digit(d[2]) }

  /** All groups of three digits, left to right, without overlap. */
  function FindAll(s: string): (r: seq<string>)
    ensures forall d | d in r :: ThreeDigits(d)
  {
    if |s| < 3 then []
    else if ThreeDigits(s[..3]) then [s[..3]] + FindAll(s[3..])
    else FindAll(s[1..])
  }

  /** `get_script_number`: the group of three digits, if there is exactly one. */
  function ScriptNumber(filename: string): (d: Option<string>)
    ensures d.Some? ==> ThreeDigits(d.value) && FindAll(filename) == [d.value]
  {
    var numbers := FindAll(filename);
    if |numbers| == 1 then Some(numbers[0]) else None
  }

  /** Every occurrence, left to right, without overlap. */
  function Replace(s: string, what: string, with: string): string
    requires what != ""
  {
    if s == "" then ""
    else if what <= s then with + Replace(s[|what|..], what, with)
    else [s[0]] + Replace(s[1..], what, with)
  }

  const STEM := "schema"
  const HEAD := STEM + "-"
  const HOLE := "xxx"
  const TAIL := ".sql"
  const MASK := HEAD + HOLE + TAIL

  predicate IsSchemaBuilder(filename: string) {
    match ScriptNumber(filename)
    case Some(number) => Replace(filename, number, HOLE) == MASK
    case None => false
  }

  function Name(d: string): string { HEAD + d + TAIL }

  // ----- which names are accepted -----

  predicate NoDigits(s: string) { forall c | c in s :: !Digit(c) }

  lemma {:induction false} NoDigitsNoGroups(s: string)
    requires NoDigits(s)
    ensures FindAll(s) == []
    decreases s
  {
    if |s| >= 3 {
      assert s[0] in s && forall c | c in s[1..] :: c in s;
      assert s[..3][0] == s[0];
      NoDigitsNoGroups(s[1..]);
    }
  }

  /** A character that is not a digit separates. */
  lemma {:induction false} GroupsSeparate(a: string, c: char, b: string)
    requires !Digit(c)
    ensures FindAll(a + [c] + b) == FindAll(a) + FindAll(b)
    decreases a
  {
    if |a| >= 3 && ThreeDigits(a[..3]) {
      GroupsSeparate(a[3..], c, b);
      GroupInFront(a[..3], a[3..]);
      GroupInFront(a[..3], a[3..] + [c] + b);
      assert a == a[..3] + a[3..];
      AssocFour(a[..3], a[3..], [c], b);
    } else if a == "" {
      assert a + [c] + b == [c] + b;
    } else {
      GroupsSeparate(a[1..], c, b);
      AssocFour([a[0]], a[1..], [c], b);
      assert a == [a[0]] + a[1..];
      if |a + [c] + b| >= 3 { ShortGroup(a, c, b); }
    }
  }

  lemma AssocFour(a: string, b: string, c: string, d: string)
    ensures a + (b + c + d) == (a + b) + c + d
  {
  }

  lemma GroupInFront(d: string, rest: string)
    requires ThreeDigits(d)
    ensures FindAll(d + rest) == [d] + FindAll(rest)
  {
    assert (d + rest)[..3] == d && (d + rest)[3..] == rest;
  }

  lemma ShortGroup(a: string, c: char, b: string)
    requires !Digit(c) && a != "" && |a + [c] + b| >= 3 && !(|a| >= 3 && ThreeDigits(a[..3]))
    ensures !ThreeDigits((a + [c] + b)[..3])
  {
    var s := a + [c] + b;
    if |a| >= 3 {
      assert s[..3] == a[..3];
    } else {
      assert s[..3][|a|] == c;
    }
  }

  lemma GroupItself(d: string)
    requires ThreeDigits(d)
    ensures FindAll(d) == [d]
  {
    assert d[..3] == d && d[3..] == "";
  }

  lemma NumberOfName(d: string)
    requires ThreeDigits(d)
    ensures FindAll(Name(d)) == [d]
  {
    NoDigitsNoGroups(STEM);
    GroupItself(d);
    GroupsOfTail(d);
    GroupsSeparate(STEM, '-', d + TAIL);
    assert Name(d) == STEM + ['-'] + (d + TAIL);
  }

  lemma GroupsOfTail(d: string)
    ensures FindAll(d + TAIL) == FindAll(d)
  {
    NoDigitsNoGroups("sql");
    GroupsSeparate(d, '.', "sql");
    assert d + TAIL == d + ['.'] + "sql";
  }

  lemma {:induction false} ReplaceSkips(p: string, s: string, d: string)
    requires NoDigits(p) && ThreeDigits(d)
    ensures Replace(p + s, d, HOLE) == p + Replace(s, d, HOLE)
    decreases p
  {
    if p == "" {
      assert p + s == s;
    } else {
      assert p[0] in p && forall c | c in p[1..] :: c in p;
      ReplaceSkips(p[1..], s, d);
      Together(p, s);
      Together(p, Replace(s, d, HOLE));
    }
  }

  lemma Together(p: string, s: string)
    requires p != ""
    ensures [p[0]] + (p[1..] + s) == p + s
  {
  }

  lemma NameAccepted(d: string)
    requires ThreeDigits(d)
    ensures IsSchemaBuilder(Name(d)) && ScriptNumber(Name(d)) == Some(d)
  {
    NumberOfName(d);
    ReplaceSkips(HEAD, d + TAIL, d);
    assert Name(d) == HEAD + (d + TAIL);
    assert (d + TAIL)[3..] == TAIL;
    ReplaceSkips(TAIL, "", d);
    assert TAIL + "" == TAIL;
  }

  predicate Occurs(s: string, d: string) { exists i | 0 <= i <= |s| - |d| :: d <= s[i..] }

  lemma {:induction false} GroupOccurs(s: string, d: string)
    requires d in FindAll(s)
    ensures Occurs(s, d)
    decreases s
  {
    if ThreeDigits(s[..3]) {
      if d == s[..3] {
        assert d <= s[0..];
      } else {
        GroupOccurs(s[3..], d);
        var i :| 0 <= i <= |s[3..]| - |d| && d <= s[3..][i..];
        assert s[3..][i..] == s[i + 3..];
      }
    } else {
      GroupOccurs(s[1..], d);
      var i :| 0 <= i <= |s[1..]| - |d| && d <= s[1..][i..];
      assert s[1..][i..] == s[i + 1..];
    }
  }

  /** Either there is nothing to replace, or the text splits around the first occurrence. */
  lemma {:induction false} FirstOccurrence(s: string, d: string) returns (a: string, b: string)
    requires ThreeDigits(d)
    ensures Occurs(s, d) ==> s == a + d + b && Replace(s, d, HOLE) == a + HOLE + Replace(b, d, HOLE)
    ensures !Occurs(s, d) ==> Replace(s, d, HOLE) == s
    decreases s
  {
    a, b := "", "";
    if s == "" {
    } else if d <= s {
      b := s[3..];
      assert d <= s[0..];
      assert s == "" + d + b;
      assert Replace(s, d, HOLE) == "" + HOLE + Replace(b, d, HOLE);
    } else {
      OccursLater(s, d);
      var a';
      a', b := FirstOccurrence(s[1..], d);
      a := [s[0]] + a';
      if Occurs(s, d) {
        AssocFour([s[0]], a', d, b);
        AssocFour([s[0]], a', HOLE, Replace(b, d, HOLE));
      } else {
        assert s == [s[0]] + s[1..];
      }
    }
  }

  lemma OccursLater(s: string, d: string)
    requires s != "" && !(d <= s)
    ensures Occurs(s, d) <==> Occurs(s[1..], d)
  {
    if Occurs(s, d) {
      var i :| 0 <= i <= |s| - |d| && d <= s[i..];
      assert s[0..] == s;
      assert s[1..][i - 1..] == s[i..];
    }
    if Occurs(s[1..], d) {
      var i :| 0 <= i <= |s[1..]| - |d| && d <= s[1..][i..];
      assert s[1..][i..] == s[i + 1..];
    }
  }

  /** The mask has its hole in one place only. */
  lemma HoleIsUnique(a: string, b: string)
    requires a + HOLE + b == MASK
    ensures a == HEAD && b == TAIL
  {
    var m := a + HOLE + b;
    assert m[|a|] == 'x' && m[|a| + 1] == 'x' && m[|a| + 2] == 'x';
    assert |a| == 7;
    assert m[..7] == a && MASK[..7] == HEAD && m[10..] == b && MASK[10..] == TAIL;
  }

  lemma TailIsWhole(b: string, d: string)
    requires ThreeDigits(d) && Replace(b, d, HOLE) == TAIL
    ensures b == TAIL
  {
    var p, q := FirstOccurrence(b, d);
  }

  /** Accepted are exactly the names schema-DDD.sql. */
  lemma AcceptedExactlyWhen(filename: string)
    ensures IsSchemaBuilder(filename) <==> exists d :: ThreeDigits(d) && filename == "schema-" + d + ".sql"
    ensures IsSchemaBuilder(filename) ==> filename == Name(ScriptNumber(filename).value)
  {
    assert HEAD == "schema-";
    if IsSchemaBuilder(filename) {
      var d := ScriptNumber(filename).value;
      assert d in FindAll(filename);
      GroupOccurs(filename, d);
      var a, b := FirstOccurrence(filename, d);
      HoleIsUnique(a, Replace(b, d, HOLE));
      TailIsWhole(b, d);
      assert ThreeDigits(d) && filename == "schema-" + d + ".sql";
    }
    forall d | ThreeDigits(d) && filename == "schema-" + d + ".sql" ensures IsSchemaBuilder(filename) {
      assert filename == Name(d);
      NameAccepted(d);
    }
  }

  // ----- their order -----

  function Value(d: string): nat
    requires ThreeDigits(d)
  {
    100 * (d[0] - '0') as nat + 10 * (d[1] - '0') as nat + (d[2] - '0') as nat
  }

  function VersionOf(filename: string): nat {
    match ScriptNumber(filename) case Some(d) => Value(d) case None => 0
  }

  /** The version of a script is the number its three digits write in base ten. */
  lemma VersionInBaseTen(a: char, b: char, c: char)
    requires '0' <= a <= '9' && '0' <= b <= '9' && '0' <= c <= '9'
    ensures VersionOf("schema-" + [a, b, c] + ".sql") ==
      10 * (10 * (a - '0') as int + (b - '0') as int) + (c - '0') as int
  {
    assert "schema-" + [a, b, c] + ".sql" == Name([a, b, c]);
    NameAccepted([a, b, c]);
  }

  /** The order of strings. */
  predicate Leq(a: string, b: string) {
    a == "" || (b != "" && (a[0] < b[0] || (a[0] == b[0] && Leq(a[1..], b[1..]))))
  }

  lemma {:induction false} LeqTotal(a: string, b: string)
    ensures Leq(a, b) || Leq(b, a)
    decreases a
  {
    if a != "" && b != "" && a[0] == b[0] { LeqTotal(a[1..], b[1..]); }
  }

  lemma {:induction false} LeqPrefix(p: string, a: string, b: string)
    ensures Leq(p + a, p + b) <==> Leq(a, b)
    decreases p
  {
    if p == "" {
      assert p + a == a && p + b == b;
    } else {
      LeqPrefix(p[1..], a, b);
      assert (p + a)[1..] == p[1..] + a && (p + b)[1..] == p[1..] + b;
    }
  }

  lemma {:induction false} LeqReflexive(a: string)
    ensures Leq(a, a)
    decreases a
  {
    if a != "" { LeqReflexive(a[1..]); }
  }

  lemma {:induction false} LeqSuffix(a: string, b: string, t: string)
    requires |a| == |b|
    ensures Leq(a + t, b + t) <==> Leq(a, b)
    decreases a
  {
    if a == "" {
      LeqReflexive(t);
      assert a + t == t && b + t == t;
    } else {
      LeqSuffix(a[1..], b[1..], t);
      assert (a + t)[1..] == a[1..] + t && (b + t)[1..] == b[1..] + t;
    }
  }

  lemma LeqDigits(d: string, e: string)
    requires ThreeDigits(d) && ThreeDigits(e)
    ensures Leq(d, e) <==> Value(d) <= Value(e)
    ensures Value(d) == Value(e) <==> d == e
  {
    assert Leq(d[3..], e[3..]);
    assert d[2..][1..] == d[3..] && e[2..][1..] == e[3..];
    assert d[1..][1..] == d[2..] && e[1..][1..] == e[2..];
    assert Leq(d[2..], e[2..]) <==> d[2] <= e[2];
    assert Leq(d[1..], e[1..]) <==> d[1] < e[1] || (d[1] == e[1] && d[2] <= e[2]);
  }

  /** On accepted names the order of strings is the order of their numbers. */
  lemma StringOrderIsNumeric(f: string, g: string)
    requires IsSchemaBuilder(f) && IsSchemaBuilder(g)
    ensures Leq(f, g) <==> VersionOf(f) <= VersionOf(g)
    ensures VersionOf(f) == VersionOf(g) <==> f == g
  {
    AcceptedExactlyWhen(f);
    AcceptedExactlyWhen(g);
    var d, e := ScriptNumber(f).value, ScriptNumber(g).value;
    assert f == HEAD + (d + TAIL) && g == HEAD + (e + TAIL);
    LeqPrefix(HEAD, d + TAIL, e + TAIL);
    LeqSuffix(d, e, TAIL);
    LeqDigits(d, e);
  }

  function Insert(x: string, s: seq<string>): seq<string> {
    if s == [] then [x] else if Leq(x, s[0]) then [x] + s else [s[0]] + Insert(x, s[1..])
  }

  function Sorted(s: seq<string>): seq<string> {
    if s == [] then [] else Insert(s[0], Sorted(s[1..]))
  }

  function SchemaNames(listing: seq<string>): seq<string> {
    if listing == [] then []
    else (if IsSchemaBuilder(listing[0]) then [listing[0]] else []) + SchemaNames(listing[1..])
  }

  /** `get_scripts` without its path. */
  function Scripts(listing: seq<string>): seq<string> { Sorted(SchemaNames(listing)) }

  predicate AllSchema(names: seq<string>) { forall n | n in names :: IsSchemaBuilder(n) }

  predicate Ascending(names: seq<string>) {
    forall i, j | 0 <= i < j < |names| :: VersionOf(names[i]) < VersionOf(names[j])
  }

  lemma {:induction false} InsertMembers(x: string, s: seq<string>)
    ensures forall n :: n in Insert(x, s) <==> n == x || n in s
    decreases s
  {
    if s != [] && !Leq(x, s[0]) {
      InsertMembers(x, s[1..]);
      assert forall n :: n in s <==> n == s[0] || n in s[1..];
    }
  }

  lemma PrependAscending(x: string, s: seq<string>)
    requires Ascending(s) && forall n | n in s :: VersionOf(x) < VersionOf(n)
    ensures Ascending([x] + s)
  {
  }

  lemma {:induction false} InsertAscending(x: string, s: seq<string>)
    requires IsSchemaBuilder(x) && AllSchema(s) && Ascending(s) && x !in s
    ensures Ascending(Insert(x, s))
    decreases s
  {
    if s != [] {
      assert s[0] in s && forall n | n in s[1..] :: n in s;
      if Leq(x, s[0]) {
        InsertInFront(x, s);
      } else {
        StringOrderIsNumeric(x, s[0]);
        InsertAscending(x, s[1..]);
        InsertMembers(x, s[1..]);
        PrependAscending(s[0], Insert(x, s[1..]));
      }
    }
  }

  lemma InsertInFront(x: string, s: seq<string>)
    requires IsSchemaBuilder(x) && s != [] && IsSchemaBuilder(s[0]) && Ascending(s) && x != s[0] && Leq(x, s[0])
    ensures Ascending([x] + s)
  {
    StringOrderIsNumeric(x, s[0]);
    assert forall n | n in s :: n == s[0] || n in s[1..];
    PrependAscending(x, s);
  }

  lemma {:induction false} SchemaNamesMembers(listing: seq<string>)
    ensures forall n :: n in SchemaNames(listing) <==> n in listing && IsSchemaBuilder(n)
    ensures Distinct(listing) ==> Distinct(SchemaNames(listing))
    decreases listing
  {
    if listing != [] {
      SchemaNamesMembers(listing[1..]);
      assert forall n :: n in listing <==> n == listing[0] || n in listing[1..];
      assert Distinct(listing) ==> listing[0] !in listing[1..];
    }
  }

  lemma {:induction false} SortedAscending(names: seq<string>)
    requires AllSchema(names) && Distinct(names)
    ensures Ascending(Sorted(names)) && forall n :: n in Sorted(names) <==> n in names
    decreases names
  {
    if names != [] {
      assert forall n :: n in names <==> n == names[0] || n in names[1..];
      SortedAscending(names[1..]);
      InsertMembers(names[0], Sorted(names[1..]));
      InsertAscending(names[0], Sorted(names[1..]));
    }
  }

  /** `get_scripts` yields exactly the accepted names of the directory, in strictly ascending
      order of their numbers. */
  lemma ScriptsAscend(listing: seq<string>)
    requires Distinct(listing)
    ensures Ascending(Scripts(listing)) && AllSchema(Scripts(listing))
    ensures forall n :: n in Scripts(listing) <==> n in listing && IsSchemaBuilder(n)
  {
    SchemaNamesMembers(listing);
    SortedAscending(SchemaNames(listing));
  }

  // ----- the version to install -----

  function Lower(s: string): string {
    seq(|s|, i requires 0 <= i < |s| => if 'A' <= s[i] <= 'Z' then s[i] + 32 as char else s[i])
  }

  const BLACKLIST := "glpi"

  /** The list of databases to skip is a parenthesised string, so that membership is that of a
      substring. */
  predicate Blacklisted(module_: string) {
    exists i, j | 0 <= i <= j <= |BLACKLIST| :: BLACKLIST[i..j] == Lower(module_)
  }

  datatype Target = Known(version: int) | Unknown

  function MaxVersion(names: seq<string>): nat
    requires names != []
  {
    if |names| == 1 then VersionOf(names[0])
    else
      var rest := MaxVersion(names[1..]);
      if VersionOf(names[0]) >= rest then VersionOf(names[0]) else rest
  }

  /** Unknown where the source raises an exception: there is no directory, or nothing in it. */
  function GetVersion(module_: string, dir: Option<seq<string>>): Target {
    if Blacklisted(module_) then Known(-1)
    else if dir.None? || Scripts(dir.value) == [] then Unknown
    else Known(MaxVersion(Scripts(dir.value)))
  }

  lemma {:induction false} MaxIsLast(names: seq<string>)
    requires Ascending(names) && names != []
    ensures MaxVersion(names) == VersionOf(names[|names| - 1])
    decreases names
  {
    if |names| > 1 { MaxIsLast(names[1..]); }
  }

  // ----- the scripts to install -----

  function Path(dir: string, name: string): string { dir + ['/'] + name }

  function Paths(dir: string, names: seq<string>): seq<string> {
    seq(|names|, i requires 0 <= i < |names| => Path(dir, names[i]))
  }

  /** `_get_scripts_to_install`: the number is looked for in the whole path. */
  function ToInstall(dir: string, names: seq<string>, low: int, high: int): seq<string> {
    if names == [] then [] else Chosen(dir, names[0], low, high) + ToInstall(dir, names[1..], low, high)
  }

  function Chosen(dir: string, name: string, low: int, high: int): seq<string> {
    var number := ScriptNumber(Path(dir, name));
    if number.Some? && low < Value(number.value) <= high then [Path(dir, name)] else []
  }

  function InRange(names: seq<string>, low: int, high: int): seq<string> {
    if names == [] then [] else Wanted(names[0], low, high) + InRange(names[1..], low, high)
  }

  function Wanted(name: string, low: int, high: int): seq<string> {
    if low < VersionOf(name) <= high then [name] else []
  }

  lemma NumberOfPath(dir: string, name: string)
    requires IsSchemaBuilder(name)
    ensures ScriptNumber(Path(dir, name)) == if FindAll(dir) == [] then ScriptNumber(name) else None
  {
    GroupsSeparate(dir, '/', name);
  }

  /** The versions to install are those above the installed one, up to the one wanted; but if
      the directory's own path has three digits in a row, none is. */
  lemma {:induction false} ToInstallExactly(dir: string, names: seq<string>, low: int, high: int)
    requires AllSchema(names)
    ensures ToInstall(dir, names, low, high) == if FindAll(dir) == [] then Paths(dir, InRange(names, low, high)) else []
    decreases names
  {
    if names != [] {
      assert names[0] in names && forall n | n in names[1..] :: n in names;
      ToInstallExactly(dir, names[1..], low, high);
      ChosenExactly(dir, names[0], low, high);
      PathsAppend(dir, Wanted(names[0], low, high), InRange(names[1..], low, high));
    }
  }

  lemma PathsAppend(dir: string, a: seq<string>, b: seq<string>)
    ensures Paths(dir, a + b) == Paths(dir, a) + Paths(dir, b)
  {
  }

  lemma ChosenExactly(dir: string, name: string, low: int, high: int)
    requires IsSchemaBuilder(name)
    ensures Chosen(dir, name, low, high) == if FindAll(dir) == [] then Paths(dir, Wanted(name, low, high)) else []
  {
    NumberOfPath(dir, name);
  }

  lemma {:induction false} InRangeMembers(names: seq<string>, low: int, high: int)
    ensures forall n :: n in InRange(names, low, high) <==> n in names && low < VersionOf(n) <= high
    decreases names
  {
    if names != [] {
      InRangeMembers(names[1..], low, high);
      assert forall n :: n in names <==> n == names[0] || n in names[1..];
    }
  }

  lemma {:induction false} InRangeAscending(names: seq<string>, low: int, high: int)
    requires Ascending(names)
    ensures Ascending(InRange(names, low, high))
    decreases names
  {
    if names != [] {
      InRangeAscending(names[1..], low, high);
      InRangeMembers(names[1..], low, high);
      if low < VersionOf(names[0]) <= high {
        forall n | n in InRange(names[1..], low, high) ensures VersionOf(names[0]) < VersionOf(n) {
          assert n in names[1..];
          var i :| 0 <= i < |names[1..]| && names[1..][i] == n;
        }
        PrependAscending(names[0], InRange(names[1..], low, high));
      }
    }
  }

  lemma {:induction false} LowerBoundMoot(names: seq<string>, low: int, low': int, high: int)
    requires forall n | n in names :: VersionOf(n) > low && VersionOf(n) > low'
    ensures InRange(names, low, high) == InRange(names, low', high)
    decreases names
  {
    if names != [] {
      assert names[0] in names && forall n | n in names[1..] :: n in names;
      LowerBoundMoot(names[1..], low, low', high);
    }
  }

  /** What is left once the first `k` versions are in. */
  lemma {:induction false} WhatIsLeft(names: seq<string>, low: int, high: int, k: nat)
    requires Ascending(names) && 0 < k <= |InRange(names, low, high)|
    ensures var r := InRange(names, low, high); InRange(names, VersionOf(r[k - 1]), high) == r[k..]
    decreases names
  {
    var first, rest := Wanted(names[0], low, high), names[1..];
    var r := InRange(rest, low, high);
    if k == |first| {
      InRangeMembers(rest, low, high);
      LowerBoundMoot(rest, VersionOf(names[0]), low, high);
    } else {
      WhatIsLeft(rest, low, high, k - |first|);
      VersionAbove(rest, low, high, k - |first|, VersionOf(names[0]));
    }
  }

  lemma VersionAbove(names: seq<string>, low: int, high: int, k: nat, bound: int)
    requires 0 < k <= |InRange(names, low, high)| && forall n | n in names :: bound < VersionOf(n)
    ensures bound < VersionOf(InRange(names, low, high)[k - 1])
  {
    InRangeMembers(names, low, high);
    assert InRange(names, low, high)[k - 1] in InRange(names, low, high);
  }

  // ----- running them -----

  /** A script that succeeds leaves its own number as the version of the database. */
  datatype Db = Db(present: bool, version: nat, executed: seq<string>)

  function RunScripts(db: Db, scripts: seq<string>, ok: string -> bool): (Db, bool)
    decreases scripts
  {
    if scripts == [] then (db, true)
    else
      var db' := db.(executed := db.executed + [scripts[0]]);
      if !ok(scripts[0]) then (db', false)
      else RunScripts(db'.(version := VersionOf(scripts[0])), scripts[1..], ok)
  }

  /** How many scripts succeed before the first that fails. */
  function Passed(scripts: seq<string>, ok: string -> bool): (k: nat)
    ensures k <= |scripts|
    ensures forall i | 0 <= i < k :: ok(scripts[i])
    ensures k < |scripts| ==> !ok(scripts[k])
  {
    if scripts == [] || !ok(scripts[0]) then 0 else 1 + Passed(scripts[1..], ok)
  }

  function Upto(scripts: seq<string>, k: nat): seq<string> {
    if k < |scripts| then scripts[..k + 1] else scripts
  }

  lemma {:induction false} RunScriptsMeans(db: Db, scripts: seq<string>, ok: string -> bool)
    ensures var (db', done) := RunScripts(db, scripts, ok);
      var k := Passed(scripts, ok);
      && db' == Db(db.present, if k == 0 then db.version else VersionOf(scripts[k - 1]), db.executed + Upto(scripts, k))
      && (done <==> k == |scripts|)
    decreases scripts
  {
    if scripts == [] {
      assert db.executed + [] == db.executed;
    } else if !ok(scripts[0]) {
      assert scripts[..1] == [scripts[0]];
    } else {
      var db' := Db(db.present, VersionOf(scripts[0]), db.executed + [scripts[0]]);
      var rest := scripts[1..];
      RunScriptsMeans(db', rest, ok);
      var k := Passed(rest, ok);
      assert RunScripts(db, scripts, ok) == RunScripts(db', rest, ok);
      assert k > 0 ==> rest[k - 1] == scripts[k];
      assert Upto(scripts, k + 1) == [scripts[0]] + Upto(rest, k);
      Assoc(db.executed, [scripts[0]], Upto(rest, k));
    }
  }

  datatype Result = UpToDate | Updated | ScriptFailed | Conflict | NoTarget

  function Processed(module_: string, path: string, dir: Option<seq<string>>, db: Db, ok: string -> bool):
    (Db, Result)
  {
    match GetVersion(module_, dir)
    case Unknown => (db, NoTarget)
    case Known(target) =>
      var db0 := if db.present then db else Db(true, 0, db.executed);
      if db0.version == target then (db0, UpToDate)
      else if db0.version < target then
        var (db', done) := RunScripts(db0, ToInstall(path, Scripts(dir.value), db0.version, target), ok);
        (db', if done then Updated else ScriptFailed)
      else (db0, Conflict)
  }

  lemma TargetIsLast(module_: string, listing: seq<string>)
    requires Distinct(listing) && !Blacklisted(module_) && Scripts(listing) != []
    ensures var names := Scripts(listing);
      GetVersion(module_, Some(listing)) == Known(VersionOf(names[|names| - 1]))
  {
    ScriptsAscend(listing);
    MaxIsLast(Scripts(listing));
  }

  /** What is still to be installed, in order: every available version above the installed
      one, if there is one to install and the path has no three digits in a row. */
  function Pending(module_: string, path: string, dir: Option<seq<string>>, version: int): seq<string> {
    match GetVersion(module_, dir)
    case Known(target) => if dir.Some? && FindAll(path) == [] then InRange(Scripts(dir.value), version, target) else []
    case Unknown => []
  }

  function Created(db: Db): Db { if db.present then db else Db(true, 0, db.executed) }

  predicate Behind(module_: string, dir: Option<seq<string>>, db: Db) {
    var target := GetVersion(module_, dir);
    target.Known? && Created(db).version < target.version
  }

  /** When the database is behind, exactly the pending scripts are executed, in order, up to
      and including the first that fails; the database is left at the last that succeeded. */
  lemma ProcessRunsExactly(module_: string, path: string, dir: Option<seq<string>>, db: Db, ok: string -> bool)
    requires Behind(module_, dir, db)
    ensures var (db', result) := Processed(module_, path, dir, db, ok);
      var scripts := Paths(path, Pending(module_, path, dir, Created(db).version));
      var k := Passed(scripts, ok);
      && db'.executed == db.executed + Upto(scripts, k)
      && db'.version == (if k == 0 then Created(db).version else VersionOf(scripts[k - 1]))
      && db'.present
      && result == (if k == |scripts| then Updated else ScriptFailed)
  {
    var names := Scripts(dir.value);
    SchemaOnly(dir.value);
    ToInstallExactly(path, names, Created(db).version, GetVersion(module_, dir).version);
    RunScriptsMeans(Created(db), ToInstall(path, names, Created(db).version, GetVersion(module_, dir).version), ok);
  }

  lemma SchemaOnly(listing: seq<string>)
    ensures AllSchema(Scripts(listing))
  {
    SchemaNamesMembers(listing);
    SortedMembers(SchemaNames(listing));
  }

  lemma {:induction false} SortedMembers(names: seq<string>)
    ensures forall n :: n in Sorted(names) <==> n in names
    decreases names
  {
    if names != [] {
      assert forall n :: n in names <==> n == names[0] || n in names[1..];
      SortedMembers(names[1..]);
      InsertMembers(names[0], Sorted(names[1..]));
    }
  }

  lemma {:induction false} LastInRange(names: seq<string>, low: int)
    requires Ascending(names) && names != [] && low < VersionOf(names[|names| - 1])
    ensures var r := InRange(names, low, VersionOf(names[|names| - 1]));
      r != [] && r[|r| - 1] == names[|names| - 1]
    decreases names
  {
    var last := names[|names| - 1];
    if |names| == 1 {
      assert InRange(names[1..], low, VersionOf(last)) == [];
    } else {
      assert names[1..][|names| - 2] == last;
      LastInRange(names[1..], low);
    }
  }

  lemma VersionOfPath(dir: string, name: string)
    requires IsSchemaBuilder(name) && FindAll(dir) == []
    ensures VersionOf(Path(dir, name)) == VersionOf(name)
  {
    NumberOfPath(dir, name);
  }

  /** With three digits in a row in the path of the scripts nothing is executed, and the
      database is reported as updated all the same. */
  lemma DigitsHideTheScripts(module_: string, path: string, dir: Option<seq<string>>, db: Db, ok: string -> bool)
    requires Behind(module_, dir, db) && FindAll(path) != []
    ensures Processed(module_, path, dir, db, ok) == (Created(db), Updated)
  {
    ProcessRunsExactly(module_, path, dir, db, ok);
    assert Upto([], 0) == [];
    assert db.executed + [] == db.executed;
  }

  lemma UpdatedReachesTarget(module_: string, path: string, listing: seq<string>, db: Db, ok: string -> bool)
    requires Distinct(listing) && Behind(module_, Some(listing), db) && FindAll(path) == []
    ensures var (db', result) := Processed(module_, path, Some(listing), db, ok);
      result == Updated ==> db'.version == GetVersion(module_, Some(listing)).version
  {
    var names, low := Scripts(listing), Created(db).version;
    ScriptsAscend(listing);
    TargetIsLast(module_, listing);
    ProcessRunsExactly(module_, path, Some(listing), db, ok);
    LastInRange(names, low);
    assert names[|names| - 1] in names;
    VersionOfPath(path, names[|names| - 1]);
  }

  /** A database that was behind and is reported as updated is at the version to install
      exactly when the path of the scripts has no three digits in a row. */
  lemma UpdatedMeansAtTargetExactlyWhen(module_: string, path: string, listing: seq<string>, db: Db, ok: string -> bool)
    requires Distinct(listing) && Behind(module_, Some(listing), db)
    requires Processed(module_, path, Some(listing), db, ok).1 == Updated
    ensures Processed(module_, path, Some(listing), db, ok).0.version == GetVersion(module_, Some(listing)).version
      <==> FindAll(path) == []
  {
    if FindAll(path) == [] {
      UpdatedReachesTarget(module_, path, listing, db, ok);
    } else {
      DigitsHideTheScripts(module_, path, Some(listing), db, ok);
    }
  }

  /** After a failure nothing is repeated and nothing is lost: a second run has to install
      exactly the scripts from the one that failed on. */
  lemma RerunInstallsTheRest(module_: string, path: string, listing: seq<string>, db: Db, ok: string -> bool)
    requires Distinct(listing) && Behind(module_, Some(listing), db) && FindAll(path) == []
    ensures var (db', _) := Processed(module_, path, Some(listing), db, ok);
      var pending := Pending(module_, path, Some(listing), Created(db).version);
      var k := Passed(Paths(path, pending), ok);
      Created(db') == db' && Pending(module_, path, Some(listing), db'.version) == pending[k..]
  {
    var names, low := Scripts(listing), Created(db).version;
    var pending := Pending(module_, path, Some(listing), low);
    var k := Passed(Paths(path, pending), ok);
    ScriptsAscend(listing);
    ProcessRunsExactly(module_, path, Some(listing), db, ok);
    if k > 0 {
      InRangeMembers(names, low, GetVersion(module_, Some(listing)).version);
      assert pending[k - 1] in pending;
      VersionOfPath(path, pending[k - 1]);
      WhatIsLeft(names, low, GetVersion(module_, Some(listing)).version, k);
    }
  }

  /** So two runs, the second of which succeeds, execute every pending script, in order, the
      one that failed twice, and leave the database at the version to install. */
  lemma {:induction false} TwoRunsReachTheTarget(module_: string, path: string, listing: seq<string>, db: Db,
      ok: string -> bool, ok': string -> bool)
    requires Distinct(listing) && Behind(module_, Some(listing), db) && FindAll(path) == []
    requires var (db', result) := Processed(module_, path, Some(listing), db, ok);
      result == ScriptFailed && Processed(module_, path, Some(listing), db', ok').1 == Updated
    ensures var (db', _) := Processed(module_, path, Some(listing), db, ok);
      var (db'', _) := Processed(module_, path, Some(listing), db', ok');
      var scripts := Paths(path, Pending(module_, path, Some(listing), Created(db).version));
      exists k | 0 <= k < |scripts| ::
        && db''.executed == db.executed + scripts[..k + 1] + scripts[k..]
        && db''.version == GetVersion(module_, Some(listing)).version
  {
    var (db', result) := Processed(module_, path, Some(listing), db, ok);
    var pending := Pending(module_, path, Some(listing), Created(db).version);
    var scripts := Paths(path, pending);
    var k := Passed(scripts, ok);
    ProcessRunsExactly(module_, path, Some(listing), db, ok);
    RerunInstallsTheRest(module_, path, listing, db, ok);
    ProcessRunsExactly(module_, path, Some(listing), db', ok');
    UpdatedReachesTarget(module_, path, listing, db', ok');
    assert scripts[k..] == Paths(path, pending[k..]);
  }

  lemma ScriptIsAbove(module_: string, path: string, dir: Option<seq<string>>, low: int, k: nat)
    requires 0 < k <= |Pending(module_, path, dir, low)|
    ensures VersionOf(Paths(path, Pending(module_, path, dir, low))[k - 1]) > low
  {
    var pending := Pending(module_, path, dir, low);
    SchemaOnly(dir.value);
    InRangeMembers(Scripts(dir.value), low, GetVersion(module_, dir).version);
    assert pending[k - 1] in pending;
    VersionOfPath(path, pending[k - 1]);
  }

  /** No run takes a database back or forgets what was executed, and one executes something
      exactly when the database is behind and a script is pending. */
  lemma NeverGoesBack(module_: string, path: string, dir: Option<seq<string>>, db: Db, ok: string -> bool)
    ensures var (db', result) := Processed(module_, path, dir, db, ok);
      && db.executed <= db'.executed
      && (db.present ==> db'.present && db'.version >= db.version)
      && (db'.executed != db.executed <==>
            Behind(module_, dir, db) && Pending(module_, path, dir, Created(db).version) != [])
  {
    if Behind(module_, dir, db) {
      ProcessRunsExactly(module_, path, dir, db, ok);
      var low := Created(db).version;
      var scripts := Paths(path, Pending(module_, path, dir, low));
      var k := Passed(scripts, ok);
      if k > 0 { ScriptIsAbove(module_, path, dir, low, k); }
      if scripts != [] { assert |Upto(scripts, k)| > 0; } else { assert Upto(scripts, k) == []; }
      assert db.executed + [] == db.executed;
    }
  }

  /** What is reported, from the listing and the installed version, which is zero for a
      database just created; and what is left of the database when no script is run. */
  lemma ReportedExactlyWhen(module_: string, path: string, dir: Option<seq<string>>, db: Db, ok: string -> bool)
    requires dir.Some? ==> Distinct(dir.value)
    ensures var (db', result) := Processed(module_, path, dir, db, ok);
      var names := if dir.Some? then Scripts(dir.value) else [];
      var version := if db.present then db.version else 0;
      && (result == NoTarget <==> names == [] && !Blacklisted(module_))
      && (result == UpToDate <==>
            names != [] && version == VersionOf(names[|names| - 1]) && !Blacklisted(module_))
      && (result == Conflict <==>
            Blacklisted(module_) || (names != [] && version > VersionOf(names[|names| - 1])))
      && (result == Updated || result == ScriptFailed <==>
            names != [] && version < VersionOf(names[|names| - 1]) && !Blacklisted(module_))
      && (result == NoTarget ==> db' == db)
      && (result == UpToDate || result == Conflict ==> db' == Db(true, version, db.executed))
  {
    if dir.Some? && !Blacklisted(module_) && Scripts(dir.value) != [] {
      TargetIsLast(module_, dir.value);
      if Behind(module_, dir, db) { ProcessRunsExactly(module_, path, dir, db, ok); }
    }
  }

  /** Whatever is executed is a schema script of the directory, by its full path, with a number
      above the installed version. */
  lemma ExecutesOnlyListedScripts(module_: string, path: string, listing: seq<string>, db: Db, ok: string -> bool,
      i: nat)
    requires Distinct(listing)
    requires |db.executed| <= i < |Processed(module_, path, Some(listing), db, ok).0.executed|
    ensures var script := Processed(module_, path, Some(listing), db, ok).0.executed[i];
      exists n | n in listing ::
        && script == path + "/" + n && IsSchemaBuilder(n)
        && (if db.present then db.version else 0) < VersionOf(n)
  {
    NeverGoesBack(module_, path, Some(listing), db, ok);
    var names := Pending(module_, path, Some(listing), Created(db).version);
    assert Processed(module_, path, Some(listing), db, ok).0.executed[i] == Path(path, names[i - |db.executed|]) by {
      ProcessRunsExactly(module_, path, Some(listing), db, ok);
    }
    ScriptsAscend(listing);
    InRangeMembers(Scripts(listing), Created(db).version, GetVersion(module_, Some(listing)).version);
    assert i - |db.executed| < |names| by { ProcessRunsExactly(module_, path, Some(listing), db, ok); }
    assert names[i - |db.executed|] in names;
  }

  /** A module that counts as listed has the version -1 to install, so it is never up to
      date. */
  lemma BlacklistedConflicts(module_: string, path: string, dir: Option<seq<string>>, db: Db, ok: string -> bool)
    requires Blacklisted(module_)
    ensures GetVersion(module_, dir) == Known(-1)
    ensures Processed(module_, path, dir, db, ok) == (Created(db), Conflict)
  {
  }

  /** The letters of `module_`, small or capital, are those of the listed name from `i` on. */
  predicate PieceAt(module_: string, i: nat) {
    i + |module_| <= 4 && forall k | 0 <= k < |module_| :: module_[k] == "glpi"[i + k] || module_[k] == "GLPI"[i + k]
  }

  /** Listed are exactly the pieces of "glpi", in any mixture of small and capital letters. */
  lemma BlacklistedExactlyWhen(module_: string)
    ensures Blacklisted(module_) <==> exists i: nat :: PieceAt(module_, i)
  {
    if i, j :| 0 <= i <= j <= |BLACKLIST| && BLACKLIST[i..j] == Lower(module_) {
      assert |module_| == |BLACKLIST[i..j]| == j - i;
      forall k | 0 <= k < |module_| ensures module_[k] == "glpi"[i + k] || module_[k] == "GLPI"[i + k] {
        assert BLACKLIST[i..j][k] == Lower(module_)[k] == "glpi"[i + k];
      }
      assert PieceAt(module_, i);
    }
    if i: nat :| PieceAt(module_, i) {
      assert BLACKLIST[i..i + |module_|] == Lower(module_);
    }
  }

  /** Every piece of the listed name counts as listed, the empty name too. */
  lemma PiecesAreBlacklisted(i: nat, j: nat)
    requires i <= j <= |BLACKLIST|
    ensures Blacklisted(BLACKLIST[i..j])
  {
    assert forall c | c in BLACKLIST :: !('A' <= c <= 'Z');
    assert forall k | i <= k < j :: BLACKLIST[k] in BLACKLIST;
    assert Lower(BLACKLIST[i..j]) == BLACKLIST[i..j];
  }

  // ----- the installer -----

  class DbControl {
    const module_: string
    const path: string
    var present: bool
    var version: nat
    var executed: seq<string>

    function View(): Db
      reads this
    {
      Db(present, version, executed)
    }

    constructor (module_: string, path: string, db: Db)
      ensures View() == db && this.module_ == module_ && this.path == path
    {
      this.module_, this.path := module_, path;
      present, version, executed := db.present, db.version, db.executed;
    }

    method GetScriptsToInstall(names: seq<string>, low: int, high: int) returns (scripts: seq<string>)
      ensures scripts == ToInstall(path, names, low, high)
    {
      scripts := [];
      for i := 0 to |names|
        invariant scripts + ToInstall(path, names[i..], low, high) == ToInstall(path, names, low, high)
      {
        var script := Path(path, names[i]);
        var number := ScriptNumber(script);
        InstallStep(path, names, i, low, high, scripts);
        if number.Some? && low < Value(number.value) <= high {
          scripts := scripts + [script];
        }
      }
      assert scripts + [] == scripts;
    }

    /** Runs one script; on success the script itself has set the version. */
    method Execute(script: string, ok: bool)
      modifies this`executed, this`version
      ensures executed == old(executed) + [script] && version == if ok then VersionOf(script) else old(version)
    {
      executed := executed + [script];
      if ok { version := VersionOf(script); }
    }

    method Process(dir: Option<seq<string>>, ok: string -> bool) returns (result: Result)
      modifies this
      ensures (View(), result) == Processed(module_, path, dir, old(View()), ok)
    {
      var wanted := GetVersion(module_, dir);
      if wanted.Unknown? { return NoTarget; }
      var target := wanted.version;
      if !present { present, version := true, 0; }
      if version == target { return UpToDate; }
      if version > target { return Conflict; }
      ghost var db := View();
      var scripts := GetScriptsToInstall(Scripts(dir.value), version, target);
      for i := 0 to |scripts|
        invariant RunScripts(View(), scripts[i..], ok) == RunScripts(db, scripts, ok)
      {
        RunStep(View(), scripts, i, ok);
        Execute(scripts[i], ok(scripts[i]));
        if !ok(scripts[i]) { return ScriptFailed; }
      }
      return Updated;
    }
  }

  lemma InstallStep(dir: string, names: seq<string>, i: nat, low: int, high: int, before: seq<string>)
    requires i < |names|
    ensures before + ToInstall(dir, names[i..], low, high) ==
      before + Chosen(dir, names[i], low, high) + ToInstall(dir, names[i + 1..], low, high)
    ensures before + [] == before
  {
    assert names[i..][1..] == names[i + 1..];
  }

  lemma RunStep(db: Db, scripts: seq<string>, i: nat, ok: string -> bool)
    requires i < |scripts|
    ensures var db' := db.(executed := db.executed + [scripts[i]]);
      RunScripts(db, scripts[i..], ok) ==
      if ok(scripts[i]) then RunScripts(db'.(version := VersionOf(scripts[i])), scripts[i + 1..], ok) else (db', false)
  {
    assert scripts[i..][1..] == scripts[i + 1..];
  }
}
