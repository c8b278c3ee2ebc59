/** The variables of a template are substituted one after the other, each in what the ones
    before it left.  When that is the same as filling all tags at once, and when their order
    does not matter (web/includes/template.inc.php:507-526). */
module TemplateOrder {
  import opened Basics
  import opened TemplateVars

  function TagOf(name: string): string { "{" + name + "}" }

  predicate BraceFree(s: string) {
    forall i | 0 <= i < |s| :: s[i] != '{' && s[i] != '}'
  }

  // ----- one replacement after the other -----

  /** Every occurrence of `literal`, left to right, gives way to `value`. */
  function Swap(s: string, literal: string, value: string): string
    requires literal != ""
    decreases |s|
  {
    if s == "" then ""
    else if literal <= s then value + Swap(s[|literal|..], literal, value)
    else [s[0]] + Swap(s[1..], literal, value)
  }

  function SwapEach(vals: seq<Binding<Text>>, s: string): string
    decreases |vals|
  {
    if vals == [] then s else SwapEach(vals[1..], Swap(s, TagOf(vals[0].key), Value(vals[0].value)))
  }

  lemma {:induction false} SwapIsReplace(s: string, literal: string, value: string)
    requires literal != ""
    ensures ReplaceAll(s, literal, QuoteValue(value)) == Swap(s, literal, value)
    decreases |s|
  {
    if s != "" {
      if literal <= s {
        QuotedValueIsLiteral(value, literal);
        SwapIsReplace(s[|literal|..], literal, value);
      } else {
        SwapIsReplace(s[1..], literal, value);
      }
    }
  }

  /** The replacement call, with its patterns and its quoting, comes down to that. */
  lemma {:induction false} SubstituteSwapsEach(vals: seq<Binding<Text>>, s: string)
    requires SlashFree(vals)
    ensures Substitute(PatternsOf(vals), QuotedOf(vals), s) == Some(SwapEach(vals, s))
    decreases |vals|
  {
    if vals != [] {
      assert vals[0] in vals && forall b | b in vals[1..] :: b in vals;
      SubstituteStep(vals, s);
      SwapIsReplace(s, TagOf(vals[0].key), Value(vals[0].value));
      SubstituteSwapsEach(vals[1..], Swap(s, TagOf(vals[0].key), Value(vals[0].value)));
    }
  }

  /** Parsing stores the text of the variable with all variables substituted, or puts it at the
      end of what the target has; no other variable is touched.  Where a name with a slash
      makes the substitution fail, nothing is appended, or the target has no value. */
  lemma ParseMeans(vals: seq<Binding<Text>>, file: map<string, string>, contents: map<string, string>,
      target: string, name: string, append: bool, key: string)
    requires Distinct(Keys(vals)) && target != "" && target != "0" && Substituted(vals, file, contents, name).0
    ensures var loaded := AfterLoad(vals, file, contents, name);
      var template := match Current(loaded, name) case Some(text) => text case None => "";
      var before := match Current(loaded, target) case Some(text) => text case None => "";
      Current(Parsed(vals, file, contents, target, name, append), key) ==
        if key != target then Current(loaded, key)
        else if SlashFree(loaded) then
          if append then Some(before + SwapEach(loaded, template)) else Some(SwapEach(loaded, template))
        else if append then Some(before) else None
  {
    var loaded := AfterLoad(vals, file, contents, name);
    var template := Value(Current(loaded, name));
    LoadMeans(vals, file, contents, name, key);
    SubstituteFailsExactlyOnSlash(loaded, template);
    if SlashFree(loaded) { SubstituteSwapsEach(loaded, template); }
    var result := Substitute(PatternsOf(loaded), QuotedOf(loaded), template);
    var str := if append then Some(Value(Current(loaded, target)) + Value(result)) else result;
    assert append ==> Value(Current(loaded, target)) + "" == Value(Current(loaded, target));
    SetVarMeans(loaded, target, str, false);
  }

  /** What a list of variables appends, each on what the ones before it left. */
  function Appended(vals: seq<Binding<Text>>, file: map<string, string>, contents: map<string, string>,
      target: string, names: seq<string>): string
    decreases names
  {
    if names == [] then ""
    else
      Value(Substituted(vals, file, contents, names[0]).2)
      + Appended(Parsed(vals, file, contents, target, names[0], true), file, contents, target, names[1..])
  }

  /** Appending a list of variables puts their texts one behind the other, in the order of the
      list, at the end of what the target has. */
  lemma {:induction false} ParseAllAppends(vals: seq<Binding<Text>>, file: map<string, string>,
      contents: map<string, string>, target: string, names: seq<string>)
    requires Distinct(Keys(vals)) && target != "" && target != "0" && target !in file
    ensures Value(Current(ParsedAll(vals, file, contents, target, names, true), target)) ==
      Value(Current(vals, target)) + Appended(vals, file, contents, target, names)
    decreases names
  {
    if names == [] {
      assert Value(Current(vals, target)) + "" == Value(Current(vals, target));
    } else {
      var next := Parsed(vals, file, contents, target, names[0], true);
      ParseAppends(vals, file, contents, target, names[0]);
      ParseAllAppends(next, file, contents, target, names[1..]);
      ParseAllInOrder(vals, file, contents, target, names[0], names[1..], true);
      assert names == [names[0]] + names[1..];
      Assoc(Value(Current(vals, target)), Value(Substituted(vals, file, contents, names[0]).2),
        Appended(next, file, contents, target, names[1..]));
    }
  }

  lemma ParseAppends(vals: seq<Binding<Text>>, file: map<string, string>, contents: map<string, string>,
      target: string, name: string)
    requires Distinct(Keys(vals)) && target != "" && target != "0" && target !in file
    ensures var vals', text := Parsed(vals, file, contents, target, name, true),
        Value(Substituted(vals, file, contents, name).2);
      Distinct(Keys(vals')) && Value(Current(vals', target)) == Value(Current(vals, target)) + text
  {
    var loaded := Substituted(vals, file, contents, name).1;
    LoadMeans(vals, file, contents, name, target);
    var before, added := Value(Current(loaded, target)), Value(Substituted(vals, file, contents, name).2);
    SetVarMeans(loaded, target, Some(before + added), false);
    WithVarDistinct(loaded, target, Some(before + added), false);
  }

  // ----- templates -----

  datatype Piece = Lit(text: string) | Tag(name: string)

  function RenderPiece(p: Piece): string {
    match p case Lit(text) => text case Tag(name) => TagOf(name)
  }

  function Render(pieces: seq<Piece>): string {
    if pieces == [] then "" else RenderPiece(pieces[0]) + Render(pieces[1..])
  }

  /** One pass over the template: every tag with a defined name gives way to its value. */
  function OnePass(pieces: seq<Piece>, vals: seq<Binding<Text>>): seq<Piece> {
    seq(|pieces|, i requires 0 <= i < |pieces| => Filled(pieces[i], vals))
  }

  function Filled(p: Piece, vals: seq<Binding<Text>>): Piece {
    if p.Lit? then p
    else match Find(Keys(vals), p.name) case None => p case Some(i) => Lit(Value(vals[i].value))
  }

  /** The tag of `key` occurs in the text, or the text ends in a beginning of it, which what
      follows may complete. */
  predicate Exposes(text: string, key: string) {
    exists q | 0 <= q < |text| :: TagOf(key) <= text[q..] || text[q..] <= TagOf(key)
  }

  /** The variable `b` cannot spoil the text: it finds no tag of its own in it, or its value is
      that very tag. */
  predicate Harmless(text: string, b: Binding<Text>) {
    !Exposes(text, b.key) || Value(b.value) == TagOf(b.key)
  }

  predicate HarmlessAll(text: string, vals: seq<Binding<Text>>) {
    forall b | b in vals :: Harmless(text, b)
  }

  /** A template cut into tags and texts that no variable can spoil. */
  predicate WellFormed(pieces: seq<Piece>, vals: seq<Binding<Text>>) {
    forall p | p in pieces :: match p case Lit(text) => HarmlessAll(text, vals) case Tag(name) => BraceFree(name)
  }

  /** A template whose texts have no opening brace. */
  predicate PlainTemplate(pieces: seq<Piece>) {
    forall p | p in pieces :: match p case Lit(text) => '{' !in text case Tag(name) => BraceFree(name)
  }

  predicate ProperNames(vals: seq<Binding<Text>>) {
    Distinct(Keys(vals)) && SlashFree(vals) && forall b | b in vals :: BraceFree(b.key)
  }

  /** No value is spoiled by a variable that comes after it. */
  predicate Orderly(vals: seq<Binding<Text>>) {
    forall i, j | 0 <= i < j < |vals| :: Harmless(Value(vals[i].value), vals[j])
  }

  lemma PlainIsWellFormed(pieces: seq<Piece>, vals: seq<Binding<Text>>)
    requires PlainTemplate(pieces)
    ensures WellFormed(pieces, vals)
  {
    forall p | p in pieces && p.Lit? ensures HarmlessAll(p.text, vals) {
      forall b | b in vals ensures Harmless(p.text, b) {
        OpenFreeExposesNothing(p.text, b.key);
      }
    }
  }

  lemma OpenFreeExposesNothing(text: string, key: string)
    requires '{' !in text
    ensures !Exposes(text, key)
  {
    forall q | 0 <= q < |text| ensures !(TagOf(key) <= text[q..] || text[q..] <= TagOf(key)) {
      assert text[q..][0] == text[q] && text[q] in text && TagOf(key)[0] == '{';
    }
  }

  // ----- one variable in one template -----

  /** A text that does not show the tag is copied. */
  lemma {:induction false} SwapText(text: string, rest: string, key: string, value: string)
    requires !Exposes(text, key)
    ensures Swap(text + rest, TagOf(key), value) == text + Swap(rest, TagOf(key), value)
    decreases text
  {
    if text == "" {
      assert text + rest == rest;
    } else {
      SwapText(text[1..], rest, key, value);
      assert !(TagOf(key) <= text + rest) by {
        assert text[0..] == text;
        if TagOf(key) <= text + rest { PrefixOfEither(TagOf(key), text, rest); }
      }
      assert (text + rest)[1..] == text[1..] + rest;
      assert [text[0]] + (text[1..] + Swap(rest, TagOf(key), value)) == text + Swap(rest, TagOf(key), value);
    }
  }

  lemma PrefixOfEither(tag: string, text: string, rest: string)
    requires tag <= text + rest
    ensures tag <= text || text <= tag
  {
    assert forall i | 0 <= i < |tag| :: tag[i] == (text + rest)[i];
  }

  /** The tag of one name is a prefix of a text that starts with the tag of another only if
      the names are the same. */
  lemma TagPrefix(key: string, name: string, rest: string)
    requires BraceFree(key) && BraceFree(name)
    ensures TagOf(key) <= TagOf(name) + rest <==> key == name
  {
    var k, n := TagOf(key), TagOf(name) + rest;
    if key == name { assert n == k + rest; }
    if k <= n {
      assert forall i | 0 <= i < |key| :: k[i + 1] == key[i] && k[i + 1] == n[i + 1];
      assert forall i | 0 <= i < |name| :: n[i + 1] == name[i];
      assert k[|key| + 1] == '}' && n[|name| + 1] == '}' && n[|key| + 1] == '}';
      assert |key| == |name|;
    }
  }

  lemma SwapTag(key: string, name: string, rest: string, value: string)
    requires BraceFree(key) && BraceFree(name)
    ensures Swap(TagOf(name) + rest, TagOf(key), value) ==
      (if key == name then value else TagOf(name)) + Swap(rest, TagOf(key), value)
  {
    var s := TagOf(name) + rest;
    TagPrefix(key, name, rest);
    if key == name {
      assert s[|TagOf(key)|..] == rest;
    } else {
      var inner := name + "}";
      OpenFreeExposesNothing(inner, key);
      SwapText(inner, rest, key, value);
      assert s[0] == '{' && s[1..] == inner + rest;
      assert ['{'] + (inner + Swap(rest, TagOf(key), value)) == TagOf(name) + Swap(rest, TagOf(key), value);
    }
  }

  function Put(pieces: seq<Piece>, key: string, value: string): seq<Piece> {
    seq(|pieces|, i requires 0 <= i < |pieces| => PutPiece(pieces[i], key, value))
  }

  function PutPiece(p: Piece, key: string, value: string): Piece {
    if p == Tag(key) then Lit(value) else p
  }

  predicate Hides(p: Piece, key: string) {
    match p case Lit(text) => !Exposes(text, key) case Tag(name) => BraceFree(name)
  }

  lemma SwapPiece(p: Piece, rest: string, key: string, value: string)
    requires BraceFree(key) && Hides(p, key)
    ensures Swap(RenderPiece(p) + rest, TagOf(key), value) ==
      RenderPiece(PutPiece(p, key, value)) + Swap(rest, TagOf(key), value)
  {
    match p
    case Lit(text) => SwapText(text, rest, key, value);
    case Tag(name) => SwapTag(key, name, rest, value);
  }

  lemma RenderPut(pieces: seq<Piece>, key: string, value: string)
    requires pieces != []
    ensures Render(Put(pieces, key, value)) ==
      RenderPiece(PutPiece(pieces[0], key, value)) + Render(Put(pieces[1..], key, value))
  {
    assert Put(pieces, key, value)[1..] == Put(pieces[1..], key, value);
  }

  /** One variable: its tags, and nothing else, are replaced by its value. */
  lemma {:induction false} SwapIsPut(pieces: seq<Piece>, key: string, value: string)
    requires BraceFree(key) && forall p | p in pieces :: Hides(p, key)
    ensures Swap(Render(pieces), TagOf(key), value) == Render(Put(pieces, key, value))
    decreases pieces
  {
    if pieces != [] {
      assert pieces[0] in pieces && forall q | q in pieces[1..] :: q in pieces;
      SwapIsPut(pieces[1..], key, value);
      RenderPut(pieces, key, value);
      SwapPiece(pieces[0], Render(pieces[1..]), key, value);
    }
  }

  lemma {:induction false} SwapSelf(s: string, literal: string)
    requires literal != ""
    ensures Swap(s, literal, literal) == s
    decreases |s|
  {
    if s != "" {
      if literal <= s {
        SwapSelf(s[|literal|..], literal);
        assert literal + s[|literal|..] == s;
      } else {
        SwapSelf(s[1..], literal);
      }
    }
  }

  lemma {:induction false} PutSelf(pieces: seq<Piece>, key: string)
    ensures Render(Put(pieces, key, TagOf(key))) == Render(pieces)
    decreases pieces
  {
    if pieces != [] {
      PutSelf(pieces[1..], key);
      RenderPut(pieces, key, TagOf(key));
    }
  }

  /** The same for a variable that may find its own tag, but leaves it as it is. */
  lemma {:induction false} HarmlessSwapIsPut(pieces: seq<Piece>, b: Binding<Text>)
    requires BraceFree(b.key)
    requires forall p | p in pieces :: match p case Lit(text) => Harmless(text, b) case Tag(name) => BraceFree(name)
    ensures Swap(Render(pieces), TagOf(b.key), Value(b.value)) == Render(Put(pieces, b.key, Value(b.value)))
  {
    if Value(b.value) == TagOf(b.key) {
      SwapSelf(Render(pieces), TagOf(b.key));
      PutSelf(pieces, b.key);
    } else {
      SwapIsPut(pieces, b.key, Value(b.value));
    }
  }

  // ----- all variables -----

  lemma TailProper(vals: seq<Binding<Text>>)
    requires vals != [] && ProperNames(vals) && Orderly(vals)
    ensures ProperNames(vals[1..]) && Orderly(vals[1..]) && HarmlessAll(Value(vals[0].value), vals[1..])
  {
    assert Keys(vals)[1..] == Keys(vals[1..]);
    forall b | b in vals[1..] ensures Harmless(Value(vals[0].value), b) {
      var j :| 0 <= j < |vals[1..]| && vals[1..][j] == b;
      assert vals[j + 1] == b;
    }
  }

  lemma PutWellFormed(pieces: seq<Piece>, vals: seq<Binding<Text>>)
    requires vals != [] && WellFormed(pieces, vals) && HarmlessAll(Value(vals[0].value), vals[1..])
    ensures WellFormed(Put(pieces, vals[0].key, Value(vals[0].value)), vals[1..])
  {
    var put := Put(pieces, vals[0].key, Value(vals[0].value));
    forall p | p in put
      ensures match p case Lit(text) => HarmlessAll(text, vals[1..]) case Tag(name) => BraceFree(name)
    {
      var i :| 0 <= i < |put| && put[i] == p;
      assert pieces[i] in pieces;
    }
  }

  lemma FillAfterPut(p: Piece, vals: seq<Binding<Text>>)
    requires vals != [] && Distinct(Keys(vals))
    ensures Filled(PutPiece(p, vals[0].key, Value(vals[0].value)), vals[1..]) == Filled(p, vals)
  {
    assert Keys(vals)[1..] == Keys(vals[1..]);
  }

  lemma OnePassAfterPut(vals: seq<Binding<Text>>, pieces: seq<Piece>)
    requires vals != [] && Distinct(Keys(vals))
    ensures OnePass(Put(pieces, vals[0].key, Value(vals[0].value)), vals[1..]) == OnePass(pieces, vals)
  {
    forall i | 0 <= i < |pieces|
      ensures Filled(Put(pieces, vals[0].key, Value(vals[0].value))[i], vals[1..]) == Filled(pieces[i], vals)
    {
      FillAfterPut(pieces[i], vals);
    }
  }

  lemma {:induction false} SwapEachIsOnePass(vals: seq<Binding<Text>>, pieces: seq<Piece>)
    requires ProperNames(vals) && Orderly(vals) && WellFormed(pieces, vals)
    ensures SwapEach(vals, Render(pieces)) == Render(OnePass(pieces, vals))
    decreases |vals|
  {
    if vals == [] {
      assert OnePass(pieces, vals) == pieces;
    } else {
      assert vals[0] in vals;
      HarmlessSwapIsPut(pieces, vals[0]);
      TailProper(vals);
      PutWellFormed(pieces, vals);
      SwapEachIsOnePass(vals[1..], Put(pieces, vals[0].key, Value(vals[0].value)));
      OnePassAfterPut(vals, pieces);
    }
  }

  function Result(vals: seq<Binding<Text>>, pieces: seq<Piece>): Text {
    Substitute(PatternsOf(vals), QuotedOf(vals), Render(pieces))
  }

  predicate Simultaneous(vals: seq<Binding<Text>>, pieces: seq<Piece>) {
    Result(vals, pieces) == Some(Render(OnePass(pieces, vals)))
  }

  /** Substituting the variables one after the other is filling all tags at once, for values
      and templates with any braces in them that no later variable can take for its tag. */
  lemma SubstitutionIsSimultaneous(vals: seq<Binding<Text>>, pieces: seq<Piece>)
    requires ProperNames(vals) && Orderly(vals) && WellFormed(pieces, vals)
    ensures Simultaneous(vals, pieces)
  {
    SubstituteSwapsEach(vals, Render(pieces));
    SwapEachIsOnePass(vals, pieces);
  }

  // ----- when it is not -----

  predicate Occurs(s: string, literal: string) { exists q | 0 <= q <= |s| :: literal <= s[q..] }

  lemma {:induction false} SwapLength(s: string, literal: string, value: string)
    requires literal != ""
    ensures |value| >= |literal| ==> |Swap(s, literal, value)| >= |s|
    ensures |value| <= |literal| ==> |Swap(s, literal, value)| <= |s|
    decreases |s|
  {
    if s != "" {
      if literal <= s {
        SwapLength(s[|literal|..], literal, value);
      } else {
        SwapLength(s[1..], literal, value);
      }
    }
  }

  /** Replacing a text that occurs by another one changes something. */
  lemma {:induction false} SwapChanges(s: string, literal: string, value: string)
    requires literal != "" && value != literal && Occurs(s, literal)
    ensures Swap(s, literal, value) != s
    decreases |s|
  {
    var swapped := Swap(s, literal, value);
    if literal <= s {
      SwapLength(s[|literal|..], literal, value);
      if |value| == |literal| {
        assert swapped[..|literal|] == value && s[..|literal|] == literal;
      }
    } else {
      var q :| 0 <= q <= |s| && literal <= s[q..];
      assert s[0..] == s;
      assert s[1..][q - 1..] == s[q..];
      SwapChanges(s[1..], literal, value);
      assert swapped[1..] == Swap(s[1..], literal, value);
    }
  }

  lemma SwapOpenFree(s: string, key: string, value: string)
    requires '{' !in s
    ensures Swap(s, TagOf(key), value) == s
  {
    OpenFreeExposesNothing(s, key);
    SwapText(s, "", key, value);
    assert s + "" == s;
  }

  /** What completes the tag that a text exposes. */
  lemma Completion(text: string, key: string) returns (rest: string)
    requires BraceFree(key) && Exposes(text, key)
    ensures '{' !in rest && Occurs(text + rest, TagOf(key))
  {
    var q :| 0 <= q < |text| && (TagOf(key) <= text[q..] || text[q..] <= TagOf(key));
    if TagOf(key) <= text[q..] {
      rest := "";
      assert (text + rest)[q..] == text[q..];
    } else {
      rest := TagOf(key)[|text| - q..];
      assert (text + rest)[q..] == text[q..] + rest == TagOf(key);
      assert forall i | 0 <= i < |rest| :: rest[i] == TagOf(key)[|text| - q + i];
    }
  }

  /** A template of one tag and one text that tells the two orders apart. */
  lemma Spoiled(a: Binding<Text>, b: Binding<Text>) returns (pieces: seq<Piece>)
    requires BraceFree(a.key) && BraceFree(b.key) && a.key != b.key && '/' !in a.key && '/' !in b.key
    requires !Harmless(Value(a.value), b)
    ensures PlainTemplate(pieces)
    ensures !Simultaneous([a, b], pieces) && Simultaneous([b, a], pieces)
    ensures Result([a, b], pieces) != Result([b, a], pieces)
  {
    var rest := Completion(Value(a.value), b.key);
    pieces := [Tag(a.key), Lit(rest)];
    var s := Value(a.value) + rest;
    RenderTwo(Tag(a.key), Lit(rest));
    SwapTag(a.key, a.key, rest, Value(a.value));
    SwapOpenFree(rest, a.key, Value(a.value));
    SwapTag(b.key, a.key, rest, Value(b.value));
    SwapOpenFree(rest, b.key, Value(b.value));
    SwapTwo(a, b, TagOf(a.key) + rest);
    SwapTwo(b, a, TagOf(a.key) + rest);
    SwapChanges(s, TagOf(b.key), Value(b.value));
    OnePassTwo(a, b, rest);
    OnePassTwo(b, a, rest);
  }

  lemma RenderTwo(p: Piece, q: Piece)
    ensures Render([p, q]) == RenderPiece(p) + RenderPiece(q)
  {
    assert [p, q][1..] == [q] && [q][1..] == [];
    assert Render([q]) == RenderPiece(q) + Render([]);
    assert RenderPiece(q) + "" == RenderPiece(q);
  }

  lemma SwapTwo(a: Binding<Text>, b: Binding<Text>, s: string)
    requires '/' !in a.key && '/' !in b.key
    ensures Substitute(PatternsOf([a, b]), QuotedOf([a, b]), s) ==
      Some(Swap(Swap(s, TagOf(a.key), Value(a.value)), TagOf(b.key), Value(b.value)))
  {
    SubstituteSwapsEach([a, b], s);
    assert [a, b][1..] == [b] && [b][1..] == [];
    assert SwapEach([b], Swap(s, TagOf(a.key), Value(a.value))) ==
      SwapEach([], Swap(Swap(s, TagOf(a.key), Value(a.value)), TagOf(b.key), Value(b.value)));
  }

  /** One pass over a tag of `x`, whichever place `x` has among the two. */
  lemma OnePassTwo(a: Binding<Text>, b: Binding<Text>, rest: string)
    requires a.key != b.key
    ensures Render(OnePass([Tag(a.key), Lit(rest)], [a, b])) == Value(a.value) + rest
    ensures Render(OnePass([Tag(b.key), Lit(rest)], [a, b])) == Value(b.value) + rest
  {
    var vals := [a, b];
    assert Keys(vals) == [a.key, b.key];
    assert OnePass([Tag(a.key), Lit(rest)], vals) == [Lit(Value(a.value)), Lit(rest)];
    assert OnePass([Tag(b.key), Lit(rest)], vals) == [Lit(Value(b.value)), Lit(rest)];
    RenderTwo(Lit(Value(a.value)), Lit(rest));
    RenderTwo(Lit(Value(b.value)), Lit(rest));
  }

  // ----- exactly when it is -----

  /** `sub` is some of the variables, in the order they have. */
  predicate Selects(sub: seq<Binding<Text>>, vals: seq<Binding<Text>>)
    decreases |vals|
  {
    sub == [] ||
    (vals != [] && ((sub[0] == vals[0] && Selects(sub[1..], vals[1..])) || Selects(sub, vals[1..])))
  }

  lemma {:induction false} SelectionMembers(sub: seq<Binding<Text>>, vals: seq<Binding<Text>>)
    requires Selects(sub, vals)
    ensures forall b | b in sub :: b in vals
    decreases |vals|
  {
    if sub != [] {
      assert forall b | b in vals[1..] :: b in vals;
      if sub[0] == vals[0] && Selects(sub[1..], vals[1..]) {
        SelectionMembers(sub[1..], vals[1..]);
        assert forall b | b in sub :: b == sub[0] || b in sub[1..];
      } else {
        SelectionMembers(sub, vals[1..]);
      }
    }
  }

  lemma DistinctHead(vals: seq<Binding<Text>>)
    requires vals != [] && Distinct(Keys(vals))
    ensures forall x | x in vals[1..] :: x.key != vals[0].key
  {
    forall x | x in vals[1..] ensures x.key != vals[0].key {
      var i :| 1 <= i < |vals| && vals[i] == x;
      assert Keys(vals)[0] != Keys(vals)[i];
    }
  }

  lemma DistinctCons(b: Binding<Text>, rest: seq<Binding<Text>>)
    requires Distinct(Keys(rest)) && forall x | x in rest :: x.key != b.key
    ensures Distinct(Keys([b] + rest))
  {
    assert Keys([b] + rest) == [b.key] + Keys(rest);
    assert forall i | 0 <= i < |rest| :: Keys(rest)[i] == rest[i].key && rest[i] in rest;
  }

  lemma OrderlyCons(b: Binding<Text>, rest: seq<Binding<Text>>)
    requires Orderly(rest) && HarmlessAll(Value(b.value), rest)
    ensures Orderly([b] + rest)
  {
    var all := [b] + rest;
    forall i, j | 0 <= i < j < |all| ensures Harmless(Value(all[i].value), all[j]) {
      assert all[j] == rest[j - 1] && rest[j - 1] in rest;
      if i > 0 { assert Harmless(Value(rest[i - 1].value), rest[j - 1]); }
    }
  }

  lemma {:induction false} SelectionKeeps(sub: seq<Binding<Text>>, vals: seq<Binding<Text>>)
    requires Selects(sub, vals) && ProperNames(vals) && Orderly(vals)
    ensures ProperNames(sub) && Orderly(sub)
    decreases |vals|
  {
    SelectionMembers(sub, vals);
    if sub != [] {
      assert vals == [vals[0]] + vals[1..] && sub == [sub[0]] + sub[1..];
      TailProper(vals);
      if sub[0] == vals[0] && Selects(sub[1..], vals[1..]) {
        SelectionKeeps(sub[1..], vals[1..]);
        SelectionMembers(sub[1..], vals[1..]);
        DistinctHead(vals);
        DistinctCons(sub[0], sub[1..]);
        OrderlyCons(sub[0], sub[1..]);
      } else {
        SelectionKeeps(sub, vals[1..]);
      }
    }
  }

  lemma {:induction false} SelectsOne(vals: seq<Binding<Text>>, j: nat)
    requires j < |vals|
    ensures Selects([vals[j]], vals)
    decreases |vals|
  {
    if j > 0 { SelectsOne(vals[1..], j - 1); }
  }

  lemma {:induction false} SelectsTwo(vals: seq<Binding<Text>>, i: nat, j: nat)
    requires i < j < |vals|
    ensures Selects([vals[i], vals[j]], vals)
    decreases |vals|
  {
    if i > 0 {
      SelectsTwo(vals[1..], i - 1, j - 1);
    } else {
      SelectsOne(vals[1..], j - 1);
      assert [vals[i], vals[j]][1..] == [vals[1..][j - 1]];
    }
  }

  ghost predicate AlwaysSimultaneous(vals: seq<Binding<Text>>) {
    forall sub, pieces :: Selects(sub, vals) && PlainTemplate(pieces) ==> Simultaneous(sub, pieces)
  }

  /** For whichever of the variables are defined, and for every template, substitution is
      simultaneous exactly when no value shows the tag of a later variable, whole or as a
      beginning at its end, unless that variable's value is its own tag. */
  lemma SimultaneousExactlyWhen(vals: seq<Binding<Text>>)
    requires ProperNames(vals)
    ensures AlwaysSimultaneous(vals) <==> Orderly(vals)
  {
    if Orderly(vals) {
      forall sub, pieces | Selects(sub, vals) && PlainTemplate(pieces) ensures Simultaneous(sub, pieces) {
        SelectionKeeps(sub, vals);
        PlainIsWellFormed(pieces, sub);
        SubstitutionIsSimultaneous(sub, pieces);
      }
    }
    if AlwaysSimultaneous(vals) {
      forall i, j | 0 <= i < j < |vals| ensures Harmless(Value(vals[i].value), vals[j]) {
        if !Harmless(Value(vals[i].value), vals[j]) {
          assert Keys(vals)[i] != Keys(vals)[j] && vals[i] in vals && vals[j] in vals;
          var pieces := Spoiled(vals[i], vals[j]);
          SelectsTwo(vals, i, j);
        }
      }
    }
  }

  // ----- the order of the variables -----

  lemma FindBinding(vals: seq<Binding<Text>>, b: Binding<Text>)
    requires Distinct(Keys(vals)) && b in vals
    ensures Find(Keys(vals), b.key).Some? && vals[Find(Keys(vals), b.key).value] == b
  {
    var i :| 0 <= i < |vals| && vals[i] == b;
    assert Keys(vals)[i] == b.key;
  }

  lemma SameFill(name: string, vals: seq<Binding<Text>>, vals': seq<Binding<Text>>)
    requires Distinct(Keys(vals)) && Distinct(Keys(vals')) && forall b :: b in vals <==> b in vals'
    ensures Filled(Tag(name), vals) == Filled(Tag(name), vals')
  {
    match (Find(Keys(vals), name), Find(Keys(vals'), name))
    case (Some(i), _) => FindBinding(vals', vals[i]);
    case (_, Some(i)) => FindBinding(vals, vals'[i]);
    case (None, None) =>
  }

  /** Two orders of the same variables give the same result on the same template. */
  lemma VariableOrderIrrelevant(vals: seq<Binding<Text>>, vals': seq<Binding<Text>>, pieces: seq<Piece>)
    requires ProperNames(vals) && ProperNames(vals') && Orderly(vals) && Orderly(vals')
    requires WellFormed(pieces, vals) && forall b :: b in vals <==> b in vals'
    ensures Result(vals, pieces) == Result(vals', pieces)
  {
    assert WellFormed(pieces, vals');
    SubstitutionIsSimultaneous(vals, pieces);
    SubstitutionIsSimultaneous(vals', pieces);
    forall i | 0 <= i < |pieces| ensures Filled(pieces[i], vals) == Filled(pieces[i], vals') {
      if pieces[i].Tag? { SameFill(pieces[i].name, vals, vals'); }
    }
    assert OnePass(pieces, vals) == OnePass(pieces, vals');
  }

  /** `sub` is some of the variables, each once, in any order. */
  predicate Among(sub: seq<Binding<Text>>, vals: seq<Binding<Text>>) {
    Distinct(Keys(sub)) && forall b | b in sub :: b in vals
  }

  ghost predicate AnyOrder(vals: seq<Binding<Text>>) {
    forall sub, sub', pieces ::
      Among(sub, vals) && Among(sub', vals) && (forall b :: b in sub <==> b in sub') && PlainTemplate(pieces)
      ==> Result(sub, pieces) == Result(sub', pieces)
  }

  /** No value is spoiled by any other variable. */
  predicate AllHarmless(vals: seq<Binding<Text>>) {
    forall a, b | a in vals && b in vals && a.key != b.key :: Harmless(Value(a.value), b)
  }

  lemma AmongKeeps(sub: seq<Binding<Text>>, vals: seq<Binding<Text>>)
    requires Among(sub, vals) && ProperNames(vals) && AllHarmless(vals)
    ensures ProperNames(sub) && Orderly(sub)
  {
    forall i, j | 0 <= i < j < |sub| ensures Harmless(Value(sub[i].value), sub[j]) {
      assert Keys(sub)[i] != Keys(sub)[j] && sub[i] in sub && sub[j] in sub;
    }
  }

  lemma HarmlessInAnyOrder(vals: seq<Binding<Text>>, sub: seq<Binding<Text>>, sub': seq<Binding<Text>>,
      pieces: seq<Piece>)
    requires ProperNames(vals) && AllHarmless(vals) && PlainTemplate(pieces)
    requires Among(sub, vals) && Among(sub', vals) && forall b :: b in sub <==> b in sub'
    ensures Result(sub, pieces) == Result(sub', pieces)
  {
    AmongKeeps(sub, vals);
    AmongKeeps(sub', vals);
    PlainIsWellFormed(pieces, sub);
    VariableOrderIrrelevant(sub, sub', pieces);
  }

  /** The order of the variables does not matter, whichever of them are defined and for every
      template, exactly when no value shows the tag of another variable. */
  lemma OrderIrrelevantExactlyWhen(vals: seq<Binding<Text>>)
    requires ProperNames(vals)
    ensures AnyOrder(vals) <==> AllHarmless(vals)
  {
    if AllHarmless(vals) {
      forall sub, sub', pieces |
        Among(sub, vals) && Among(sub', vals) && (forall b :: b in sub <==> b in sub') && PlainTemplate(pieces)
        ensures Result(sub, pieces) == Result(sub', pieces)
      {
        HarmlessInAnyOrder(vals, sub, sub', pieces);
      }
    }
    if AnyOrder(vals) {
      forall a, b | a in vals && b in vals && a.key != b.key ensures Harmless(Value(a.value), b) {
        if !Harmless(Value(a.value), b) {
          var pieces := Spoiled(a, b);
          PairAmong(a, b, vals);
        }
      }
    }
  }

  lemma PairAmong(a: Binding<Text>, b: Binding<Text>, vals: seq<Binding<Text>>)
    requires a in vals && b in vals && a.key != b.key
    ensures Among([a, b], vals) && Among([b, a], vals) && forall x :: x in [a, b] <==> x in [b, a]
  {
  }

  /** With a brace in a value the order can show: a value that is itself a tag is substituted
      again by a variable defined later, and left alone by one defined earlier. */
  lemma BracesMakeOrderMatter(x: string, y: string, value: string, a: Binding<Text>, b: Binding<Text>)
    requires BraceFree(x) && BraceFree(y) && x != y && '/' !in x && '/' !in y
    requires a == Binding(x, Some(TagOf(y))) && b == Binding(y, Some(value))
    ensures Substitute(PatternsOf([a, b]), QuotedOf([a, b]), TagOf(x)) == Some(value)
    ensures Substitute(PatternsOf([b, a]), QuotedOf([b, a]), TagOf(x)) == Some(TagOf(y))
  {
    SwapTwo(a, b, TagOf(x));
    SwapTwo(b, a, TagOf(x));
    OneTag(x, x, TagOf(y));
    OneTag(y, y, value);
    OneTag(y, x, value);
  }

  lemma OneTag(key: string, name: string, value: string)
    requires BraceFree(key) && BraceFree(name)
    ensures Swap(TagOf(name), TagOf(key), value) == if key == name then value else TagOf(name)
  {
    SwapTag(key, name, "", value);
    assert TagOf(name) + "" == TagOf(name);
    assert value + "" == value;
  }
}
