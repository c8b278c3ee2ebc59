/** The variables of a template and their substitution
    (web/includes/template.inc.php:376-526, 592-622, 696-702, 879-940).

    The engine keeps two hashes in insertion order, one of patterns and one of values, and
    hands both to one replacement call, which pairs them by position. */
module TemplateVars {
  import opened Basics
  import opened TemplateTags

  datatype Binding<V> = Binding(key: string, value: V)

  /** None is the null that a failed replacement returns. */
  type Text = Option<string>

  // ----- ordered hashes -----

  function Keys<V>(h: seq<Binding<V>>): seq<string> {
    seq(|h|, i requires 0 <= i < |h| => h[i].key)
  }

  function Values<V>(h: seq<Binding<V>>): seq<V> {
    seq(|h|, i requires 0 <= i < |h| => h[i].value)
  }

  function Find(keys: seq<string>, key: string): (i: Option<nat>)
    ensures i.Some? ==> i.value < |keys| && keys[i.value] == key && key !in keys[..i.value]
    ensures i.None? ==> key !in keys
  {
    if keys == [] then None
    else if keys[0] == key then Some(0)
    else match Find(keys[1..], key) case None => None case Some(i) => Some(i + 1)
  }

  function Assign<V>(h: seq<Binding<V>>, key: string, value: V): seq<Binding<V>> {
    match Find(Keys(h), key)
    case None => h + [Binding(key, value)]
    case Some(i) => h[i := Binding(key, value)]
  }

  function Unset<V>(h: seq<Binding<V>>, key: string): seq<Binding<V>> {
    match Find(Keys(h), key)
    case None => h
    case Some(i) => h[..i] + h[i + 1..]
  }

  lemma AssignKeys<V>(h: seq<Binding<V>>, key: string, value: V)
    requires Distinct(Keys(h))
    ensures Keys(Assign(h, key, value)) == if key in Keys(h) then Keys(h) else Keys(h) + [key]
    ensures Distinct(Keys(Assign(h, key, value)))
  {
  }

  lemma {:induction false} UnsetKeys<V>(h: seq<Binding<V>>, key: string)
    requires Distinct(Keys(h))
    ensures Keys(Unset(h, key)) ==
      match Find(Keys(h), key) case None => Keys(h) case Some(i) => Keys(h)[..i] + Keys(h)[i + 1..]
    ensures Distinct(Keys(Unset(h, key))) && key !in Keys(Unset(h, key))
  {
    if Find(Keys(h), key).Some? {
      var i := Find(Keys(h), key).value;
      assert Keys(h[..i] + h[i + 1..]) == Keys(h)[..i] + Keys(h)[i + 1..];
    }
  }

  // ----- patterns -----

  const SPECIAL := ".\\+*?[^]$(){}=!<>|:-"

  /** `preg_quote`. */
  function Quote(s: string): string {
    if s == "" then ""
    else (if s[0] in SPECIAL then ['\\', s[0]] else [s[0]]) + Quote(s[1..])
  }

  function Pattern(name: string): string { "/" + Quote("{" + name + "}") + "/" }

  /** The literal text a pattern body stands for, up to its closing delimiter, and what
      follows the delimiter.  None if the body is not a plain literal. */
  function Literal(body: string): Option<(string, string)> {
    if body == "" then None
    else if body[0] == '/' then Some(("", body[1..]))
    else if body[0] == '\\' then
      if |body| == 1 then None
      else match Literal(body[2..]) case None => None case Some((lit, rest)) => Some(([body[1]] + lit, rest))
    else if body[0] in SPECIAL then None
    else match Literal(body[1..]) case None => None case Some((lit, rest)) => Some(([body[0]] + lit, rest))
  }

  /** What a pattern matches.  Anything after the closing delimiter would have to be a list of
      modifiers; with a backslash in it the pattern is refused. */
  function Compile(pattern: string): (r: Option<string>)
    ensures r.Some? ==> r.value != ""
  {
    if pattern == "" || pattern[0] != '/' then None
    else
      match Literal(pattern[1..])
      case None => None
      case Some((lit, rest)) => if rest == "" && lit != "" then Some(lit) else None
  }

  /** Quoting takes away every special meaning, but not that of the delimiter. */
  lemma {:induction false} QuotedIsLiteral(s: string, rest: string)
    ensures '/' !in s ==> Literal(Quote(s) + "/" + rest) == Some((s, rest))
    ensures '/' in s ==> exists lit, tail :: Literal(Quote(s) + "/" + rest) == Some((lit, tail)) && |tail| > |rest|
    decreases s
  {
    if s == "" {
      assert Quote(s) + "/" + rest == "/" + rest;
      assert ("/" + rest)[1..] == rest;
    } else {
      var body := Quote(s) + "/" + rest;
      var front := if s[0] in SPECIAL then ['\\', s[0]] else [s[0]];
      var tail := Quote(s[1..]) + "/" + rest;
      assert body == front + tail;
      assert body[|front|..] == tail;
      assert s == [s[0]] + s[1..];
      QuotedIsLiteral(s[1..], rest);
      if s[0] == '/' {
        assert front == "/";
        assert Literal(body) == Some(("", tail));
      } else if '/' in s {
        assert '/' in s[1..];
        var lit, t :| Literal(tail) == Some((lit, t)) && |t| > |rest|;
        assert Literal(body) == Some(([s[0]] + lit, t));
      }
    }
  }

  /** The pattern of a name matches exactly the tag of that name, unless the name contains a
      slash: then the pattern is malformed. */
  lemma PatternMatchesItsTag(name: string)
    ensures Compile(Pattern(name)) == if '/' in name then None else Some("{" + name + "}")
  {
    var tag := "{" + name + "}";
    QuotedIsLiteral(tag, "");
    assert Pattern(name)[1..] == Quote(tag) + "/" + "";
    assert '/' in tag <==> '/' in name;
  }

  // ----- replacement strings -----

  /** The backreference that starts at `i` (a backslash or dollar, possibly a brace, one or two
      digits): its number and where it ends. */
  function BackReference(r: string, i: nat): (ref: Option<(nat, nat)>)
    requires i < |r|
    ensures ref.Some? ==> i < ref.value.1 <= |r|
  {
    var braced := r[i] == '$' && i + 1 < |r| && r[i + 1] == '{';
    var d := if braced then i + 2 else i + 1;
    if d >= |r| || !Digit(r[d]) then None
    else
      var first := r[d] as int - '0' as int;
      var (number, end) :=
        if d + 1 < |r| && Digit(r[d + 1]) then (10 * first + (r[d + 1] as int - '0' as int), d + 2)
        else (first, d + 1);
      if !braced then Some((number, end))
      else if end < |r| && r[end] == '}' then Some((number, end + 1))
      else None
  }

  /** How a replacement string is read from `i` on: `out` is what has been written, `escape`
      whether its last character is a backslash that may still turn out to be an escape.  The
      patterns have no groups, so the only reference with a value is the whole match. */
  function Expand(r: string, i: nat, match_: string, out: string, escape: bool): string
    requires i <= |r| && (escape ==> out != "")
    decreases |r| - i
  {
    if i == |r| then out
    else if r[i] == '\\' || r[i] == '$' then
      if escape then Expand(r, i + 1, match_, out[..|out| - 1] + [r[i]], false)
      else
        match BackReference(r, i)
        case Some((number, end)) => Expand(r, end, match_, out + if number == 0 then match_ else "", false)
        case None => Expand(r, i + 1, match_, out + [r[i]], r[i] == '\\')
    else Expand(r, i + 1, match_, out + [r[i]], false)
  }

  /** A reference is one or two digits behind a backslash or a dollar, or between braces behind
      a dollar. */
  lemma ReferencesAre(sign: char, a: char, b: char, rest: string)
    requires (sign == '\\' || sign == '$') && '0' <= a <= '9' && '0' <= b <= '9'
    requires rest == "" || !('0' <= rest[0] <= '9')
    ensures var one, two := a as int - '0' as int, 10 * (a as int - '0' as int) + (b as int - '0' as int);
      && BackReference([sign, a] + rest, 0) == Some((one, 2))
      && BackReference([sign, a, b] + rest, 0) == Some((two, 3))
      && BackReference(['$', '{', a, '}'] + rest, 0) == Some((one, 4))
      && BackReference(['$', '{', a, b, '}'] + rest, 0) == Some((two, 5))
      && BackReference(['\\', '{', a, '}'] + rest, 0) == None
      && (rest == "" || rest[0] != '}' ==> BackReference(['$', '{', a] + rest, 0) == None)
  {
  }

  /** Why values are quoted: one that is a reference would give way to the tag it replaces, or
      to nothing. */
  lemma UnquotedValueIsNotLiteral(digit: char, match_: string)
    requires '0' <= digit <= '9'
    ensures Expand(['$', digit], 0, match_, "", false) == if digit == '0' then match_ else ""
  {
    ReferencesAre('$', digit, digit, "");
    assert ['$', digit] + "" == ['$', digit];
    assert "" + match_ == match_;
  }

  /** All occurrences of a literal, left to right, without overlap. */
  function ReplaceAll(s: string, literal: string, replacement: string): string
    requires literal != ""
    decreases |s|
  {
    if s == "" then ""
    else if literal <= s then
      Expand(replacement, 0, literal, "", false) + ReplaceAll(s[|literal|..], literal, replacement)
    else [s[0]] + ReplaceAll(s[1..], literal, replacement)
  }

  /** How `subst` protects a value: one replacement doubles its backslashes, another puts a
      backslash before its dollars. */
  function QuoteValue(v: string): string {
    ReplaceAll(ReplaceAll(v, "\\", "\\\\\\\\"), "$", "\\\\$")
  }

  function Protected(v: string): string {
    if v == "" then ""
    else (if v[0] == '\\' || v[0] == '$' then ['\\', v[0]] else [v[0]]) + Protected(v[1..])
  }

  lemma QuotingConstants()
    ensures Expand("\\\\\\\\", 0, "\\", "", false) == "\\\\"
    ensures Expand("\\\\$", 0, "$", "", false) == "\\$"
  {
    var four := "\\\\\\\\";
    assert Expand(four, 4, "\\", "\\\\", false) == "\\\\";
    assert Expand(four, 3, "\\", "\\\\", true) == Expand(four, 4, "\\", "\\" + "\\", false);
    assert Expand(four, 2, "\\", "\\", false) == Expand(four, 3, "\\", "\\" + "\\", true);
    assert Expand(four, 1, "\\", "\\", true) == Expand(four, 2, "\\", "" + "\\", false);
    assert Expand(four, 0, "\\", "", false) == Expand(four, 1, "\\", "" + "\\", true);
    var three := "\\\\$";
    assert Expand(three, 3, "$", "\\$", false) == "\\$";
    assert Expand(three, 2, "$", "\\", false) == Expand(three, 3, "$", "\\" + "$", false);
    assert Expand(three, 1, "$", "\\", true) == Expand(three, 2, "$", "" + "\\", false);
    assert Expand(three, 0, "$", "", false) == Expand(three, 1, "$", "" + "\\", true);
  }

  function Doubled(v: string): string {
    if v == "" then "" else (if v[0] == '\\' then "\\\\" else [v[0]]) + Doubled(v[1..])
  }

  lemma {:induction false} FirstPass(v: string)
    ensures ReplaceAll(v, "\\", "\\\\\\\\") == Doubled(v)
    decreases v
  {
    if v != "" {
      FirstPass(v[1..]);
      assert "\\" <= v <==> v[0] == '\\';
    }
  }

  lemma SkipChar(c: char, rest: string, literal: string, replacement: string)
    requires literal != "" && literal[0] != c
    ensures ReplaceAll([c] + rest, literal, replacement) == [c] + ReplaceAll(rest, literal, replacement)
  {
    assert ([c] + rest)[1..] == rest;
  }

  lemma DollarReplaced(rest: string)
    ensures ReplaceAll(['$'] + rest, "$", "\\\\$") == "\\$" + ReplaceAll(rest, "$", "\\\\$")
  {
    QuotingConstants();
    assert "$" <= ['$'] + rest && (['$'] + rest)[1..] == rest;
  }

  lemma BackslashesKept(rest: string)
    ensures ReplaceAll("\\\\" + rest, "$", "\\\\$") == "\\\\" + ReplaceAll(rest, "$", "\\\\$")
  {
    SkipChar('\\', rest, "$", "\\\\$");
    SkipChar('\\', ['\\'] + rest, "$", "\\\\$");
    assert "\\\\" + rest == ['\\'] + (['\\'] + rest);
  }

  lemma {:induction false} SecondPass(v: string)
    ensures ReplaceAll(Doubled(v), "$", "\\\\$") == Protected(v)
    decreases v
  {
    if v != "" {
      SecondPass(v[1..]);
      if v[0] == '$' {
        DollarReplaced(Doubled(v[1..]));
      } else if v[0] == '\\' {
        BackslashesKept(Doubled(v[1..]));
      } else {
        SkipChar(v[0], Doubled(v[1..]), "$", "\\\\$");
      }
    }
  }

  /** Reading a protected value writes the value. */
  lemma {:induction false} ExpandProtected(before: string, v: string, match_: string, out: string)
    ensures Expand(before + Protected(v), |before|, match_, out, false) == out + v
    decreases v
  {
    var r := before + Protected(v);
    if v == "" {
      assert out + v == out;
    } else {
      var rest := v[1..];
      assert out + [v[0]] + rest == out + v;
      if v[0] == '\\' || v[0] == '$' {
        var before' := before + ['\\', v[0]];
        assert r == before' + Protected(rest);
        assert r[|before|] == '\\' && r[|before| + 1] == v[0];
        assert BackReference(r, |before|) == None;
        assert (out + ['\\'])[..|out|] == out;
        assert Expand(r, |before|, match_, out, false) == Expand(r, |before| + 1, match_, out + ['\\'], true);
        assert Expand(r, |before| + 1, match_, out + ['\\'], true) ==
          Expand(r, |before| + 2, match_, out + [v[0]], false);
        ExpandProtected(before', rest, match_, out + [v[0]]);
      } else {
        var before' := before + [v[0]];
        assert r == before' + Protected(rest);
        ExpandProtected(before', rest, match_, out + [v[0]]);
      }
    }
  }

  /** The protection works: whatever the value, with backslashes, dollars and digits in any
      arrangement, it goes in literally. */
  lemma QuotedValueIsLiteral(v: string, match_: string)
    ensures Expand(QuoteValue(v), 0, match_, "", false) == v
  {
    FirstPass(v);
    SecondPass(v);
    ExpandProtected("", v, match_, "");
    assert "" + Protected(v) == Protected(v);
    assert "" + v == v;
  }

  // ----- one replacement call over all the variables -----

  /** Patterns and replacements are paired by position, and each pair works on what the ones
      before it left. */
  function Substitute(patterns: seq<string>, replacements: seq<string>, s: string): Text
    decreases patterns
  {
    if patterns == [] then Some(s)
    else
      match Compile(patterns[0])
      case None => None
      case Some(literal) =>
        var replacement := if replacements == [] then "" else replacements[0];
        var others := if replacements == [] then [] else replacements[1..];
        Substitute(patterns[1..], others, ReplaceAll(s, literal, replacement))
  }

  function Value(t: Text): string { match t case None => "" case Some(v) => v }

  function PatternsOf(vals: seq<Binding<Text>>): seq<string> {
    seq(|vals|, i requires 0 <= i < |vals| => Pattern(vals[i].key))
  }

  function QuotedOf(vals: seq<Binding<Text>>): seq<string> {
    seq(|vals|, i requires 0 <= i < |vals| => QuoteValue(Value(vals[i].value)))
  }

  predicate SlashFree(vals: seq<Binding<Text>>) {
    forall b | b in vals :: '/' !in b.key
  }

  lemma SubstituteStep(vals: seq<Binding<Text>>, s: string)
    requires vals != []
    ensures Substitute(PatternsOf(vals), QuotedOf(vals), s) ==
      if '/' in vals[0].key then None
      else Substitute(PatternsOf(vals[1..]), QuotedOf(vals[1..]),
                      ReplaceAll(s, "{" + vals[0].key + "}", QuoteValue(Value(vals[0].value))))
  {
    PatternMatchesItsTag(vals[0].key);
    assert PatternsOf(vals)[1..] == PatternsOf(vals[1..]);
    assert QuotedOf(vals)[1..] == QuotedOf(vals[1..]);
  }

  /** One variable with a slash in its name spoils every substitution, of any template: the
      call returns null exactly when there is one. */
  lemma {:induction false} SubstituteFailsExactlyOnSlash(vals: seq<Binding<Text>>, s: string)
    ensures Substitute(PatternsOf(vals), QuotedOf(vals), s).Some? <==> SlashFree(vals)
    decreases vals
  {
    if vals != [] {
      SubstituteStep(vals, s);
      if '/' in vals[0].key {
        assert vals[0] in vals;
      } else {
        var replaced := ReplaceAll(s, "{" + vals[0].key + "}", QuoteValue(Value(vals[0].value)));
        SubstituteFailsExactlyOnSlash(vals[1..], replaced);
        assert forall b :: b in vals <==> b == vals[0] || b in vals[1..];
      }
    }
  }

  // ----- the object -----

  /** PHP's `empty` on a string. */
  predicate Empty(s: string) { s == "" || s == "0" }

  function Current(vals: seq<Binding<Text>>, key: string): Text {
    match Find(Keys(vals), key) case None => None case Some(i) => vals[i].value
  }

  /** What `set_var` makes of the values; names that count as empty are ignored. */
  function WithVar(vals: seq<Binding<Text>>, name: string, value: Text, append: bool): seq<Binding<Text>> {
    if Empty(name) then vals
    else if append && Current(vals, name).Some? then Assign(vals, name, Some(Current(vals, name).value + Value(value)))
    else Assign(vals, name, value)
  }

  function WithVars(vals: seq<Binding<Text>>, vars: seq<Binding<Text>>, append: bool): seq<Binding<Text>> {
    if vars == [] then vals
    else
      var n := |vars| - 1;
      WithVar(WithVars(vals, vars[..n], append), vars[n].key, vars[n].value, append)
  }

  function Without(vals: seq<Binding<Text>>, name: string): seq<Binding<Text>> {
    if Empty(name) then vals else Unset(vals, name)
  }

  function Cleared(vals: seq<Binding<Text>>, names: seq<string>): seq<Binding<Text>> {
    if names == [] then vals
    else WithVar(Cleared(vals, names[..|names| - 1]), names[|names| - 1], Some(""), false)
  }

  function WithoutAll(vals: seq<Binding<Text>>, names: seq<string>): seq<Binding<Text>> {
    if names == [] then vals else Without(WithoutAll(vals, names[..|names| - 1]), names[|names| - 1])
  }

  /** Whether loading works, the variables after it, and the substituted text. */
  function Substituted(vals: seq<Binding<Text>>, file: map<string, string>, contents: map<string, string>,
      name: string): (bool, seq<Binding<Text>>, Text)
  {
    if Loads(vals, file, name) && Empty(FileText(file[name], contents)) then (false, vals, None)
    else
      var loaded := AfterLoad(vals, file, contents, name);
      (true, loaded, Substitute(PatternsOf(loaded), QuotedOf(loaded), Value(Current(loaded, name))))
  }

  /** The names of the tags in the value of a variable. */
  function TagsOf(vals: seq<Binding<Text>>, name: string): seq<string> {
    Names(Parts(Value(Current(vals, name)), 0))
  }

  /** After a failed load the source goes on with false, which is stored as an empty value. */
  function Parsed(vals: seq<Binding<Text>>, file: map<string, string>, contents: map<string, string>,
                  target: string, name: string, append: bool): seq<Binding<Text>>
  {
    var (ok, loaded, result) := Substituted(vals, file, contents, name);
    var str := if ok then result else Some("");
    WithVar(loaded, target, if append then Some(Value(Current(loaded, target)) + Value(str)) else str, false)
  }

  function ParsedAll(vals: seq<Binding<Text>>, file: map<string, string>, contents: map<string, string>,
                     target: string, names: seq<string>, append: bool): seq<Binding<Text>>
  {
    if names == [] then vals
    else
      var before := ParsedAll(vals, file, contents, target, names[..|names| - 1], append);
      Parsed(before, file, contents, target, names[|names| - 1], append)
  }

  /** Whether asking for `name` reads a file: it has one and has no value yet. */
  predicate Loads(vals: seq<Binding<Text>>, file: map<string, string>, name: string) {
    name in file && Current(vals, name).None?
  }

  function FileText(filename: string, contents: map<string, string>): string {
    if filename in contents then contents[filename] else ""
  }

  function AfterLoad(vals: seq<Binding<Text>>, file: map<string, string>, contents: map<string, string>, name: string):
    seq<Binding<Text>>
  {
    if Loads(vals, file, name) && !Empty(FileText(file[name], contents))
    then WithVar(vals, name, Some(FileText(file[name], contents)), false)
    else vals
  }

  // ----- what the operations do to the variables -----

  lemma FindUnique(keys: seq<string>, key: string, i: nat)
    requires Distinct(keys) && i < |keys| && keys[i] == key
    ensures Find(keys, key) == Some(i)
  {
  }

  lemma AssignedIsCurrent(vals: seq<Binding<Text>>, name: string, value: Text, other: string)
    requires Distinct(Keys(vals))
    ensures Current(Assign(vals, name, value), other) == if other == name then value else Current(vals, other)
  {
    AssignKeys(vals, name, value);
    var vals' := Assign(vals, name, value);
    match Find(Keys(vals'), other)
    case Some(i) =>
      if other == name {
        FindUnique(Keys(vals'), name, if Find(Keys(vals), name).Some? then Find(Keys(vals), name).value else |vals|);
      } else {
        assert Keys(vals)[i] == other;
        FindUnique(Keys(vals), other, i);
      }
    case None =>
      assert other !in Keys(vals') && other !in Keys(vals);
  }

  /** Setting a variable: it gets the value, at the end of what it has if that is asked for and
      it has something; a new one comes last; all others keep theirs.  No variable is named ""
      or "0". */
  lemma SetVarMeans(vals: seq<Binding<Text>>, name: string, value: Text, append: bool)
    requires Distinct(Keys(vals))
    ensures var vals' := WithVar(vals, name, value, append);
      if name == "" || name == "0" then vals' == vals
      else
        && Keys(vals') == (if name in Keys(vals) then Keys(vals) else Keys(vals) + [name])
        && Current(vals', name) == (match (Current(vals, name), value)
             case (Some(old_), Some(new_)) => if append then Some(old_ + new_) else value
             case (Some(_), None) => if append then Current(vals, name) else None
             case (None, _) => value)
        && forall other | other != name :: Current(vals', other) == Current(vals, other)
  {
    if !Empty(name) {
      var v := if append && Current(vals, name).Some? then Some(Current(vals, name).value + Value(value)) else value;
      assert Current(vals, name).Some? ==> Current(vals, name).value + "" == Current(vals, name).value;
      AssignKeys(vals, name, v);
      AssignedIsCurrent(vals, name, v, name);
      forall other | other != name ensures Current(WithVar(vals, name, value, append), other) == Current(vals, other) {
        AssignedIsCurrent(vals, name, v, other);
      }
    }
  }

  lemma WithVarDistinct(vals: seq<Binding<Text>>, name: string, value: Text, append: bool)
    requires Distinct(Keys(vals))
    ensures Distinct(Keys(WithVar(vals, name, value, append)))
  {
    if !Empty(name) {
      AssignKeys(vals, name,
        if append && Current(vals, name).Some? then Some(Current(vals, name).value + Value(value)) else value);
    }
  }

  /** A hash is set from its first pair to its last. */
  lemma {:induction false} SetVarsInOrder(vals: seq<Binding<Text>>, first: Binding<Text>, rest: seq<Binding<Text>>,
      append: bool)
    ensures WithVars(vals, [first] + rest, append) ==
      WithVars(WithVar(vals, first.key, first.value, append), rest, append)
    ensures WithVars(vals, [], append) == vals
    decreases rest
  {
    if rest == [] {
      assert [first] + rest == [first] && [first][..0] == [];
      assert WithVars(vals, [first], append) == WithVar(WithVars(vals, [], append), first.key, first.value, append);
    } else {
      var n := |rest| - 1;
      SetVarsInOrder(vals, first, rest[..n], append);
      assert ([first] + rest)[..n + 1] == [first] + rest[..n] && ([first] + rest)[n + 1] == rest[n];
    }
  }

  /** Clearing variables empties exactly those named, and makes the ones that were not there. */
  lemma {:induction false} ClearVarsMeans(vals: seq<Binding<Text>>, names: seq<string>, key: string)
    requires Distinct(Keys(vals))
    ensures Distinct(Keys(Cleared(vals, names)))
    ensures Current(Cleared(vals, names), key) ==
      if key in names && key != "" && key != "0" then Some("") else Current(vals, key)
    ensures key in Keys(Cleared(vals, names)) <==> key in Keys(vals) || (key in names && key != "" && key != "0")
    decreases names
  {
    if names != [] {
      var n := |names| - 1;
      ClearVarsMeans(vals, names[..n], key);
      SetVarMeans(Cleared(vals, names[..n]), names[n], Some(""), false);
      WithVarDistinct(Cleared(vals, names[..n]), names[n], Some(""), false);
      assert key in names <==> key in names[..n] || key == names[n];
    }
  }

  /** Unsetting variables takes out exactly those named. */
  lemma {:induction false} UnsetVarsMeans(vals: seq<Binding<Text>>, names: seq<string>, key: string)
    requires Distinct(Keys(vals))
    ensures Distinct(Keys(WithoutAll(vals, names)))
    ensures Current(WithoutAll(vals, names), key) ==
      if key in names && key != "" && key != "0" then None else Current(vals, key)
    ensures key in Keys(WithoutAll(vals, names)) <==>
      key in Keys(vals) && !(key in names && key != "" && key != "0")
    decreases names
  {
    if names != [] {
      var n := |names| - 1;
      UnsetVarsMeans(vals, names[..n], key);
      UnsetVarMeans(WithoutAll(vals, names[..n]), names[n], key);
      assert key in names <==> key in names[..n] || key == names[n];
    }
  }

  lemma UnsetVarMeans(vals: seq<Binding<Text>>, name: string, key: string)
    requires Distinct(Keys(vals))
    ensures Distinct(Keys(Without(vals, name)))
    ensures Current(Without(vals, name), key) ==
      if key == name && key != "" && key != "0" then None else Current(vals, key)
    ensures key in Keys(Without(vals, name)) <==> key in Keys(vals) && !(key == name && key != "" && key != "0")
  {
    UnsetKeys(vals, name);
    if !Empty(name) && Find(Keys(vals), name).Some? {
      var i, vals' := Find(Keys(vals), name).value, Without(vals, name);
      if key == name {
        assert key !in Keys(vals');
      } else if Find(Keys(vals), key).Some? {
        var k := Find(Keys(vals), key).value;
        FindUnique(Keys(vals'), key, if k < i then k else k - 1);
      }
    }
  }

  /** Loading gives a variable that has a file and no value the text of the file, and changes no
      other; it fails exactly when that text is not there, empty, or "0". */
  lemma LoadMeans(vals: seq<Binding<Text>>, file: map<string, string>, contents: map<string, string>, name: string,
      key: string)
    requires Distinct(Keys(vals))
    ensures var asks := name in file && Current(vals, name) == None;
      var there := asks && file[name] in contents && contents[file[name]] != "" && contents[file[name]] != "0";
      && (Substituted(vals, file, contents, name).0 <==> (asks ==> there))
      && Distinct(Keys(AfterLoad(vals, file, contents, name)))
      && Current(AfterLoad(vals, file, contents, name), key) ==
           if there && key == name && name != "" && name != "0" then Some(contents[file[name]]) else Current(vals, key)
  {
    if Loads(vals, file, name) {
      SetVarMeans(vals, name, Some(FileText(file[name], contents)), false);
      WithVarDistinct(vals, name, Some(FileText(file[name], contents)), false);
    }
  }

  /** A failed load does not leave the target alone: it is emptied, or appended nothing to. */
  lemma FailedLoadEmptiesTarget(vals: seq<Binding<Text>>, file: map<string, string>,
      contents: map<string, string>, target: string, name: string, append: bool)
    requires Distinct(Keys(vals)) && !Empty(target) && !Substituted(vals, file, contents, name).0
    ensures Current(Parsed(vals, file, contents, target, name, append), target) ==
      Some(if append then Value(Current(vals, target)) else "")
  {
    var kept := if append then Value(Current(vals, target)) + "" else "";
    AssignedIsCurrent(vals, target, Some(kept), target);
    assert append ==> kept == Value(Current(vals, target));
  }

  /** A list is parsed from its first variable to its last. */
  lemma {:induction false} ParseAllInOrder(vals: seq<Binding<Text>>, file: map<string, string>,
      contents: map<string, string>, target: string, first: string, rest: seq<string>, append: bool)
    ensures ParsedAll(vals, file, contents, target, [first] + rest, append) ==
      ParsedAll(Parsed(vals, file, contents, target, first, append), file, contents, target, rest, append)
    ensures ParsedAll(vals, file, contents, target, [], append) == vals
    decreases rest
  {
    if rest == [] {
      assert [first] + rest == [first] && [first][..0] == [];
      assert ParsedAll(vals, file, contents, target, [first], append) ==
        Parsed(ParsedAll(vals, file, contents, target, [], append), file, contents, target, first, append);
    } else {
      var n := |rest| - 1;
      ParseAllInOrder(vals, file, contents, target, first, rest[..n], append);
      assert ([first] + rest)[..n + 1] == [first] + rest[..n] && ([first] + rest)[n + 1] == rest[n];
    }
  }

  /** The two hashes have the same names in the same order, and every name its own pattern. */
  ghost predicate InStep(varkeys: seq<Binding<string>>, varvals: seq<Binding<Text>>) {
    && Distinct(Keys(varvals))
    && varkeys == seq(|varvals|, i requires 0 <= i < |varvals| => Binding(varvals[i].key, Pattern(varvals[i].key)))
  }

  lemma InStepKeys(varkeys: seq<Binding<string>>, varvals: seq<Binding<Text>>)
    requires InStep(varkeys, varvals)
    ensures Keys(varkeys) == Keys(varvals)
    ensures Values(varkeys) == PatternsOf(varvals)
  {
  }

  /** In the replacement call each pattern, which matches the tag of one name, has at the same
      place a replacement that writes that very variable's value. */
  lemma PairedByPosition(varkeys: seq<Binding<string>>, varvals: seq<Binding<Text>>, i: nat, match_: string)
    requires InStep(varkeys, varvals) && i < |varvals| && '/' !in varvals[i].key
    ensures |Values(varkeys)| == |QuotedOf(varvals)| == |varvals|
    ensures Compile(Values(varkeys)[i]) == Some("{" + varvals[i].key + "}")
    ensures Expand(QuotedOf(varvals)[i], 0, match_, "", false) == Value(varvals[i].value)
  {
    InStepKeys(varkeys, varvals);
    PatternMatchesItsTag(varvals[i].key);
    QuotedValueIsLiteral(Value(varvals[i].value), match_);
  }

  lemma AssignKeepsStep(varkeys: seq<Binding<string>>, varvals: seq<Binding<Text>>, name: string, value: Text)
    requires InStep(varkeys, varvals)
    ensures InStep(Assign(varkeys, name, Pattern(name)), Assign(varvals, name, value))
  {
    InStepKeys(varkeys, varvals);
    AssignKeys(varvals, name, value);
  }

  lemma UnsetKeepsStep(varkeys: seq<Binding<string>>, varvals: seq<Binding<Text>>, name: string)
    requires InStep(varkeys, varvals)
    ensures InStep(Unset(varkeys, name), Unset(varvals, name))
  {
    InStepKeys(varkeys, varvals);
    UnsetKeys(varvals, name);
    if Find(Keys(varvals), name).Some? {
      DropKeepsStep(varkeys, varvals, Find(Keys(varvals), name).value);
    }
  }

  lemma DropKeepsStep(varkeys: seq<Binding<string>>, varvals: seq<Binding<Text>>, i: nat)
    requires InStep(varkeys, varvals) && i < |varvals| && Distinct(Keys(varvals[..i] + varvals[i + 1..]))
    ensures InStep(varkeys[..i] + varkeys[i + 1..], varvals[..i] + varvals[i + 1..])
  {
    var keys', vals' := varkeys[..i] + varkeys[i + 1..], varvals[..i] + varvals[i + 1..];
    assert forall k | 0 <= k < |vals'| :: vals'[k] == varvals[if k < i then k else k + 1];
    assert forall k | 0 <= k < |keys'| :: keys'[k] == varkeys[if k < i then k else k + 1];
  }

  class Template {
    var varkeys: seq<Binding<string>>
    var varvals: seq<Binding<Text>>
    var file: map<string, string>          // names of files to load variables from
    const contents: map<string, string>    // the files

    ghost predicate Valid()
      reads this
    {
      InStep(varkeys, varvals)
    }

    constructor (contents: map<string, string>)
      ensures Valid() && varvals == [] && this.contents == contents
    {
      varkeys, varvals, file := [], [], map[];
      this.contents := contents;
    }

    method SetVar(name: string, value: Text, append: bool)
      requires Valid()
      modifies this`varkeys, this`varvals
      ensures Valid() && varvals == WithVar(old(varvals), name, value, append)
    {
      if !Empty(name) {
        ghost var v :=
          if append && Current(varvals, name).Some? then Some(Current(varvals, name).value + Value(value)) else value;
        AssignKeepsStep(varkeys, varvals, name, v);
        varkeys := Assign(varkeys, name, Pattern(name));
        var current := Current(varvals, name);
        if append && current.Some? {
          varvals := Assign(varvals, name, Some(current.value + Value(value)));
        } else {
          varvals := Assign(varvals, name, value);
        }
      }
    }

    /** `set_var` with a hash. */
    method SetVars(vars: seq<Binding<Text>>, append: bool)
      requires Valid()
      modifies this`varkeys, this`varvals
      ensures Valid() && varvals == WithVars(old(varvals), vars, append)
    {
      for i := 0 to |vars|
        invariant Valid() && varvals == WithVars(old(varvals), vars[..i], append)
      {
        SetVar(vars[i].key, vars[i].value, append);
        assert vars[..i + 1][..i] == vars[..i];
      }
      assert vars[..|vars|] == vars;
    }

    method ClearVar(name: string)
      requires Valid()
      modifies this`varkeys, this`varvals
      ensures Valid() && varvals == WithVar(old(varvals), name, Some(""), false)
    {
      if !Empty(name) {
        SetVar(name, Some(""), false);
      }
    }

    method UnsetVar(name: string)
      requires Valid()
      modifies this`varkeys, this`varvals
      ensures Valid() && varvals == Without(old(varvals), name)
    {
      if !Empty(name) {
        UnsetKeepsStep(varkeys, varvals, name);
        varkeys := Unset(varkeys, name);
        varvals := Unset(varvals, name);
      }
    }

    /** `clear_var` with a list of names. */
    method ClearVars(names: seq<string>)
      requires Valid()
      modifies this`varkeys, this`varvals
      ensures Valid() && varvals == Cleared(old(varvals), names)
    {
      for i := 0 to |names|
        invariant Valid() && varvals == Cleared(old(varvals), names[..i])
      {
        ClearVar(names[i]);
        assert names[..i + 1][..i] == names[..i];
      }
      assert names[..|names|] == names;
    }

    /** `unset_var` with a list of names. */
    method UnsetVars(names: seq<string>)
      requires Valid()
      modifies this`varkeys, this`varvals
      ensures Valid() && varvals == WithoutAll(old(varvals), names)
    {
      for i := 0 to |names|
        invariant Valid() && varvals == WithoutAll(old(varvals), names[..i])
      {
        UnsetVar(names[i]);
        assert names[..i + 1][..i] == names[..i];
      }
      assert names[..|names|] == names;
    }

    /** False where the source reports a file that does not exist or is empty. */
    method LoadFile(name: string) returns (ok: bool)
      requires Valid()
      modifies this`varkeys, this`varvals
      ensures Valid()
      ensures ok <==> !Loads(old(varvals), file, name) || !Empty(FileText(file[name], contents))
      ensures varvals == AfterLoad(old(varvals), file, contents, name)
    {
      if name !in file { return true; }
      if Current(varvals, name).Some? { return true; }
      var text := FileText(file[name], contents);
      if Empty(text) { return false; }
      SetVar(name, Some(text), false);
      return true;
    }

    /** The variable `name` with all variables substituted in it.  `ok` is false where loading
        fails; a null result is that of a malformed pattern. */
    method Subst(name: string) returns (ok: bool, result: Text)
      requires Valid()
      modifies this`varkeys, this`varvals
      ensures Valid() && (ok, varvals, result) == Substituted(old(varvals), file, contents, name)
    {
      ok := LoadFile(name);
      if !ok { return false, None; }
      var quoted := QuoteAll();
      InStepKeys(varkeys, varvals);
      result := ReplaceEach(Values(varkeys), quoted, Value(Current(varvals, name)));
    }

    method QuoteAll() returns (quoted: seq<string>)
      ensures quoted == QuotedOf(varvals)
    {
      quoted := [];
      for i := 0 to |varvals|
        invariant quoted == QuotedOf(varvals[..i])
      {
        quoted := quoted + [QuoteValue(Value(varvals[i].value))];
      }
      assert varvals[..|varvals|] == varvals;
    }

    /** The replacement call on two arrays. */
    static method ReplaceEach(patterns: seq<string>, replacements: seq<string>, subject: string) returns (result: Text)
      ensures result == Substitute(patterns, replacements, subject)
    {
      var s := subject;
      for i := 0 to |patterns|
        invariant Substitute(patterns[i..], if i <= |replacements| then replacements[i..] else [], s) ==
          Substitute(patterns, replacements, subject)
      {
        assert patterns[i..][1..] == patterns[i + 1..];
        if i < |replacements| { assert replacements[i..][1..] == replacements[i + 1..]; }
        match Compile(patterns[i])
        case None => return None;
        case Some(literal) => s := ReplaceAll(s, literal, if i < |replacements| then replacements[i] else "");
      }
      result := Some(s);
    }

    /** `parse` for one variable: the substituted value is stored in, or appended to,
        `target`. */
    method Parse(target: string, name: string, append: bool) returns (ok: bool, result: Text)
      requires Valid()
      modifies this`varkeys, this`varvals
      ensures Valid() && varvals == Parsed(old(varvals), file, contents, target, name, append)
      ensures var (loads, _, text) := Substituted(old(varvals), file, contents, name); ok == loads && result == text
    {
      ok, result := Subst(name);
      var str := if ok then result else Some("");
      if append {
        SetVar(target, Some(Value(Current(varvals, target)) + Value(str)), false);
      } else {
        SetVar(target, str, false);
      }
    }

    /** `parse` with a list of variables. */
    method ParseAll(target: string, names: seq<string>, append: bool)
      requires Valid()
      modifies this`varkeys, this`varvals
      ensures Valid() && varvals == ParsedAll(old(varvals), file, contents, target, names, append)
    {
      for i := 0 to |names|
        invariant Valid() && varvals == ParsedAll(old(varvals), file, contents, target, names[..i], append)
      {
        var ok, result := Parse(target, names[i], append);
        assert names[..i + 1][..i] == names[..i];
      }
      assert names[..|names|] == names;
    }

    /** `get_undefined`: the names of the tags in the value of `name` that are no variables;
        none where the source answers false. */
    method GetUndefined(name: string) returns (undefined: Option<seq<string>>)
      requires Valid()
      modifies this`varkeys, this`varvals
      ensures Valid() && varvals == AfterLoad(old(varvals), file, contents, name)
      ensures undefined.Some? ==> undefined.value != [] && Distinct(undefined.value)
      ensures undefined.Some? ==>
        forall n :: n in undefined.value <==> n in TagsOf(varvals, name) && n !in Keys(varvals)
      ensures undefined.Some? ==> forall i, j | 0 <= i < j < |undefined.value| ::
        ComesFirst(TagsOf(varvals, name), undefined.value[i], undefined.value[j])
      ensures undefined.None? && Substituted(old(varvals), file, contents, name).0 ==>
        forall n | n in TagsOf(varvals, name) :: n in Keys(varvals)
    {
      var ok := LoadFile(name);
      if !ok { return None; }
      InStepKeys(varkeys, varvals);
      var defined := set k | k in Keys(varkeys);
      var names := TemplateTags.GetUndefined(Value(Current(varvals, name)), defined);
      if names == [] { return None; }
      return Some(names);
    }
  }
}
