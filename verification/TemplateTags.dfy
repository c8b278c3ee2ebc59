/** Variable tags in templates, and what `finish` does with the ones left undefined
    (web/includes/template.inc.php:737-798).

    A tag is an opening brace, one or more characters that are neither white space nor a
    closing brace, and a closing brace.  An opening brace may occur inside. */
module TemplateTags {
  import opened Basics

  predicate TagChar(c: char) {
    c != ' ' && c != '\t' && c != '\r' && c != '\n' && c != '}'
  }

  predicate IsTag(s: string, i: int, j: int) {
    && 0 <= i && i + 3 <= j <= |s|
    && s[i] == '{' && s[j - 1] == '}'
    && forall k | i < k < j - 1 :: TagChar(s[k])
  }

  predicate NoTagInFront(s: string) {
    forall j | 0 <= j <= |s| :: !IsTag(s, 0, j)
  }

  predicate NoTags(s: string) {
    forall i, j | 0 <= i <= j <= |s| :: !IsTag(s, i, j)
  }

  /** Where the run of tag characters that starts at `i` ends. */
  function RunEnd(s: string, i: nat): (k: nat)
    requires i <= |s|
    ensures i <= k <= |s|
    ensures forall m | i <= m < k :: TagChar(s[m])
    ensures k < |s| ==> !TagChar(s[k])
    decreases |s| - i
  {
    if i == |s| || !TagChar(s[i]) then i else RunEnd(s, i + 1)
  }

  /** The end of the tag that starts at `i`, if one does. */
  function TagAt(s: string, i: nat): (j: Option<nat>)
    requires i < |s|
    ensures j.Some? ==> i + 3 <= j.value <= |s|
  {
    if s[i] != '{' then None
    else
      var k := RunEnd(s, i + 1);
      if k > i + 1 && k < |s| && s[k] == '}' then Some(k + 1) else None
  }

  lemma TagAtExactlyWhen(s: string, i: nat)
    requires i < |s|
    ensures forall e | i <= e <= |s| :: TagAt(s, i) == Some(e) <==> IsTag(s, i, e)
    ensures forall e | i <= e <= |s| :: TagAt(s, i) == Some(e) <==>
      i + 3 <= e && s[i] == '{' && s[e - 1] == '}' && forall k | i < k < e - 1 :: s[k] !in " \t\r\n}"
  {
    if s[i] == '{' {
      var k := RunEnd(s, i + 1);
      assert forall e | i <= e <= |s| && IsTag(s, i, e) :: e - 1 == k;
    }
  }

  datatype Policy = Keep | Remove | Comment | Unknown

  function CommentStart(): (s: string)
    ensures '{' !in s && '}' !in s
  {
    "<!-- Template variable "
  }

  function CommentEnd(): (s: string)
    ensures '{' !in s && '}' !in s && s != "" && s[0] == ' '
  {
    " undefined -->"
  }

  function Rewrite(policy: Policy, name: string): string {
    if policy.Comment? then CommentStart() + name + CommentEnd() else ""
  }

  /** Replacing the leftmost tag, then the leftmost one after it, and so on. */
  function ReplaceTags(policy: Policy, s: string, i: nat): string
    requires i <= |s|
    decreases |s| - i
  {
    if i == |s| then ""
    else
      match TagAt(s, i)
      case Some(j) => Rewrite(policy, s[i + 1..j - 1]) + ReplaceTags(policy, s, j)
      case None => [s[i]] + ReplaceTags(policy, s, i + 1)
  }

  function Finish(policy: Policy, s: string): string {
    match policy
    case Keep => s
    case Unknown => s
    case _ => ReplaceTags(policy, s, 0)
  }

  // ----- no tag survives -----

  /** Between `i` and `k` no tag starts: the text is copied. */
  lemma {:induction false} TextIsCopied(policy: Policy, s: string, i: nat, k: nat)
    requires i <= k <= |s| && forall m | i <= m < k :: TagAt(s, m).None?
    ensures ReplaceTags(policy, s, i) == s[i..k] + ReplaceTags(policy, s, k)
    decreases k - i
  {
    if i < k {
      TextIsCopied(policy, s, i + 1, k);
      assert [s[i]] + s[i + 1..k] == s[i..k];
      Assoc([s[i]], s[i + 1..k], ReplaceTags(policy, s, k));
    } else {
      assert s[i..k] == "";
    }
  }

  lemma PrependChar(c: char, rest: string)
    requires NoTags(rest) && NoTagInFront([c] + rest)
    ensures NoTags([c] + rest)
  {
    var out := [c] + rest;
    forall i, j | 0 <= i <= j <= |out| ensures !IsTag(out, i, j) {
      if i > 0 && IsTag(out, i, j) {
        assert IsTag(rest, i - 1, j - 1) by {
          assert forall k | i - 1 < k < j - 2 :: rest[k] == out[k + 1];
        }
      }
    }
  }

  /** An opening brace that starts no tag in the text starts none in the result: the run of
      tag characters after it is copied, and so is the character that stops it. */
  lemma LoneBraceStaysLone(policy: Policy, s: string, i: nat)
    requires i < |s| && s[i] == '{' && TagAt(s, i).None?
    ensures NoTagInFront([s[i]] + ReplaceTags(policy, s, i + 1))
  {
    var k := RunEnd(s, i + 1);
    forall m | i + 1 <= m < k ensures TagAt(s, m).None? {
      assert RunEnd(s, m + 1) == k;
    }
    TextIsCopied(policy, s, i + 1, k);
    var rest := ReplaceTags(policy, s, i + 1);
    var tail := ReplaceTags(policy, s, k);
    if k < |s| {
      assert TagAt(s, k).None?;
      assert tail[0] == s[k];
    }
    RunStoppedShort(s, i, k, tail);
    Assoc([s[i]], s[i + 1..k], tail);
  }

  /** A brace and a run of tag characters that the end of the text, or a character other than
      the closing brace of a tag, cuts off. */
  lemma RunStoppedShort(s: string, i: nat, k: nat, tail: string)
    requires i < k <= |s| && (forall m | i < m < k :: TagChar(s[m]))
    requires tail == "" || (!TagChar(tail[0]) && (tail[0] == '}' ==> k == i + 1))
    ensures NoTagInFront([s[i]] + s[i + 1..k] + tail)
  {
    var out := [s[i]] + s[i + 1..k] + tail;
    assert forall m | i < m < k :: out[m - i] == s[m];
    forall j | 0 <= j <= |out| ensures !IsTag(out, 0, j) {
      if 0 < j - 1 < k - i {
        assert out[j - 1] == s[i + j - 1] && TagChar(s[i + j - 1]);
      } else if j - 1 >= k - i {
        assert out[k - i] == tail[0];
      }
    }
  }

  /** The comment for a tag leaves no tag, alone or together with what follows it. */
  lemma CommentIsSealed(name: string, rest: string)
    requires (forall k | 0 <= k < |name| :: TagChar(name[k])) && NoTags(rest)
    ensures NoTags(Rewrite(Comment, name) + rest)
  {
    var pre, post := CommentStart(), CommentEnd();
    var comment := Rewrite(Comment, name);
    var out := comment + rest;
    assert comment == pre + name + post;
    var q := |pre| + |name|;
    assert comment[q] == ' ' && out[q] == ' ';
    forall i, j | 0 <= i <= j <= |out| ensures !IsTag(out, i, j) {
      if i >= |comment| {
        if IsTag(out, i, j) {
          assert IsTag(rest, i - |comment|, j - |comment|) by {
            assert forall k | i - |comment| < k < j - |comment| - 1 :: rest[k] == out[k + |comment|];
          }
        }
      } else {
        NoBraceAround(name, i);
        if 0 <= j - 1 < |comment| { NoBraceAround(name, j - 1); }
      }
    }
  }

  lemma NoBraceAround(name: string, i: nat)
    requires (forall k | 0 <= k < |name| :: TagChar(name[k])) && i < |Rewrite(Comment, name)|
    ensures Rewrite(Comment, name)[i] != '}'
    ensures Rewrite(Comment, name)[i] == '{' ==> i < |CommentStart()| + |name|
  {
    var pre, post := CommentStart(), CommentEnd();
    assert Rewrite(Comment, name) == pre + name + post;
    assert forall k | 0 <= k < |pre| :: pre[k] in pre;
    assert forall k | 0 <= k < |post| :: post[k] in post;
  }

  lemma {:induction false} NoTagsFrom(policy: Policy, s: string, i: nat)
    requires i <= |s| && (policy.Remove? || policy.Comment?)
    ensures NoTags(ReplaceTags(policy, s, i))
    decreases |s| - i
  {
    if i < |s| {
      match TagAt(s, i)
      case Some(j) =>
        var rest := ReplaceTags(policy, s, j);
        NoTagsFrom(policy, s, j);
        if policy.Comment? {
          CommentIsSealed(s[i + 1..j - 1], rest);
        } else {
          assert "" + rest == rest;
        }
      case None =>
        NoTagsFrom(policy, s, i + 1);
        if s[i] == '{' {
          LoneBraceStaysLone(policy, s, i);
        } else {
          assert ([s[i]] + ReplaceTags(policy, s, i + 1))[0] == s[i];
        }
        PrependChar(s[i], ReplaceTags(policy, s, i + 1));
    }
  }

  /** Under "remove" and "comment" no tag is left, for any text at all. */
  lemma FinishLeavesNoTag(policy: Policy, s: string)
    requires policy.Remove? || policy.Comment?
    ensures NoTags(Finish(policy, s))
  {
    NoTagsFrom(policy, s, 0);
  }

  /** A text is changed only where it has tags ... */
  lemma FinishKeepsTagFree(policy: Policy, s: string)
    requires NoTags(s)
    ensures Finish(policy, s) == s
  {
    forall i | 0 <= i < |s| ensures TagAt(s, i).None? {
      TagAtExactlyWhen(s, i);
    }
    TextIsCopied(policy, s, 0, |s|);
    assert s[0..|s|] == s;
  }

  /** ... so finishing twice is finishing once. */
  lemma FinishIsIdempotent(policy: Policy, s: string)
    ensures Finish(policy, Finish(policy, s)) == Finish(policy, s)
  {
    if policy.Remove? || policy.Comment? {
      FinishLeavesNoTag(policy, s);
      FinishKeepsTagFree(policy, Finish(policy, s));
    }
  }

  // ----- which tags are rewritten -----

  datatype Part = Plain(c: char) | Tagged(name: string)

  function Parts(s: string, i: nat): seq<Part>
    requires i <= |s|
    decreases |s| - i
  {
    if i == |s| then []
    else
      match TagAt(s, i)
      case Some(j) => [Tagged(s[i + 1..j - 1])] + Parts(s, j)
      case None => [Plain(s[i])] + Parts(s, i + 1)
  }

  /** What a part is to become under a policy. */
  function Written(part: Part, policy: Policy): string {
    match (part, policy)
    case (Plain(c), _) => [c]
    case (Tagged(_), Remove) => ""
    case (Tagged(name), Comment) => "<!-- Template variable " + name + " undefined -->"
    case (Tagged(name), _) => "{" + name + "}"
  }

  function Write(parts: seq<Part>, policy: Policy): string {
    if parts == [] then "" else Written(parts[0], policy) + Write(parts[1..], policy)
  }

  lemma WriteCons(part: Part, rest: seq<Part>, policy: Policy)
    ensures Write([part] + rest, policy) == Written(part, policy) + Write(rest, policy)
  {
    assert ([part] + rest)[1..] == rest;
  }

  lemma TagIsWritten(s: string, i: nat, j: nat)
    requires IsTag(s, i, j)
    ensures Written(Tagged(s[i + 1..j - 1]), Keep) + s[j..] == s[i..]
  {
    assert s[i..j] == "{" + s[i + 1..j - 1] + "}";
  }

  /** The parts of a text are the text ... */
  lemma {:induction false} PartsAreTheText(s: string, i: nat)
    requires i <= |s|
    ensures Write(Parts(s, i), Keep) == s[i..]
    decreases |s| - i
  {
    if i < |s| {
      match TagAt(s, i)
      case Some(j) =>
        PartsAreTheText(s, j);
        WriteCons(Tagged(s[i + 1..j - 1]), Parts(s, j), Keep);
        TagAtExactlyWhen(s, i);
        TagIsWritten(s, i, j);
      case None =>
        PartsAreTheText(s, i + 1);
        WriteCons(Plain(s[i]), Parts(s, i + 1), Keep);
    }
  }

  lemma {:induction false} ReplaceRewritesParts(policy: Policy, s: string, i: nat)
    requires i <= |s| && (policy.Remove? || policy.Comment?)
    ensures Write(Parts(s, i), policy) == ReplaceTags(policy, s, i)
    decreases |s| - i
  {
    if i < |s| {
      match TagAt(s, i)
      case Some(j) =>
        ReplaceRewritesParts(policy, s, j);
        WriteCons(Tagged(s[i + 1..j - 1]), Parts(s, j), policy);
      case None =>
        ReplaceRewritesParts(policy, s, i + 1);
        WriteCons(Plain(s[i]), Parts(s, i + 1), policy);
    }
  }

  lemma {:induction false} UnknownIsKeep(parts: seq<Part>)
    ensures Write(parts, Unknown) == Write(parts, Keep)
    decreases parts
  {
    if parts != [] { UnknownIsKeep(parts[1..]); }
  }

  /** ... and finishing writes the same parts: nothing or the comment for every tag, or the tag
      itself, and everything else as it was. */
  lemma FinishRewritesParts(policy: Policy, s: string)
    ensures Finish(policy, s) == Write(Parts(s, 0), policy)
  {
    PartsAreTheText(s, 0);
    assert s[0..] == s;
    if policy.Remove? || policy.Comment? { ReplaceRewritesParts(policy, s, 0); }
    if policy.Unknown? { UnknownIsKeep(Parts(s, 0)); }
  }

  function Names(parts: seq<Part>): seq<string> {
    if parts == [] then []
    else (if parts[0].Tagged? then [parts[0].name] else []) + Names(parts[1..])
  }

  /** The first place of `x` comes before any of `y`. */
  predicate ComesFirst(names: seq<string>, x: string, y: string) {
    exists k | 0 <= k < |names| :: names[k] == x && y !in names[..k + 1]
  }

  /** The names of the tags that are not defined, each once, in the order of their first
      places. */
  method GetUndefined(value: string, defined: set<string>) returns (undefined: seq<string>)
    ensures forall n :: n in undefined <==> n in Names(Parts(value, 0)) && n !in defined
    ensures forall i, j | 0 <= i < j < |undefined| :: ComesFirst(Names(Parts(value, 0)), undefined[i], undefined[j])
    ensures forall i, j | 0 <= i < j < |undefined| :: undefined[i] != undefined[j]
  {
    var found := Names(Parts(value, 0));
    undefined := [];
    for i := 0 to |found|
      invariant forall n :: n in undefined <==> n in found[..i] && n !in defined
      invariant forall p, q | 0 <= p < q < |undefined| :: ComesFirst(found, undefined[p], undefined[q])
      invariant forall p, q | 0 <= p < q < |undefined| :: undefined[p] != undefined[q]
    {
      assert found[..i + 1] == found[..i] + [found[i]];
      if found[i] !in defined && found[i] !in undefined {
        forall p | 0 <= p < |undefined| ensures ComesFirst(found, undefined[p], found[i]) {
          assert undefined[p] in found[..i];
          var k :| 0 <= k < i && found[..i][k] == undefined[p];
          assert found[i] !in found[..i] && found[..k + 1] <= found[..i];
        }
        undefined := undefined + [found[i]];
      }
    }
  }
}
