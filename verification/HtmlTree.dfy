/** The widget tree that `push` and `pop` build and `display` prints
    (web/includes/PageGenerator.php:2398-2496). */
module HtmlTree {
  import opened Basics

  /** What is printed: a container's begin and end, and a leaf. */
  datatype Token = Begin(tag: string) | Text(text: string) | End(tag: string)

  /** The value of a widget tree.  A leaf is always closed, a container once it is popped. */
  datatype Tree = Leaf(text: string) | Node(tag: string, popped: bool, kids: seq<Tree>)

  predicate Closed(t: Tree) {
    t.Leaf? || t.popped
  }

  function Last(kids: seq<Tree>): Tree
    requires kids != []
  {
    kids[|kids| - 1]
  }

  function WithLast(kids: seq<Tree>, t: Tree): seq<Tree>
    requires kids != []
  {
    kids[|kids| - 1 := t]
  }

  /** The place for a new element: this container, or the one still open at its end. */
  predicate TakesItself(t: Tree)
    requires t.Node?
  {
    t.kids == [] || Closed(Last(t.kids))
  }

  function Pushed(t: Tree, e: Tree): (r: Tree)
    requires t.Node?
    ensures r.Node? && r.popped == t.popped && r.tag == t.tag && r.kids != []
  {
    if TakesItself(t) then t.(kids := t.kids + [e])
    else t.(kids := WithLast(t.kids, Pushed(Last(t.kids), e)))
  }

  /** None where the source dies with "Nothing more to pop". */
  function Popped(t: Tree): (r: Option<Tree>)
    requires t.Node?
    ensures r.None? <==> t.popped
    ensures r.Some? ==> r.value.Node? && r.value.tag == t.tag
  {
    if t.popped then None
    else if TakesItself(t) then Some(t.(popped := true))
    else Some(t.(kids := WithLast(t.kids, Popped(Last(t.kids)).value)))
  }

  function Print(t: Tree): seq<Token> {
    match t
    case Leaf(text) => [Text(text)]
    case Node(tag, _, kids) => [Begin(tag)] + PrintAll(kids) + [End(tag)]
  }

  function PrintAll(kids: seq<Tree>): seq<Token> {
    if kids == [] then [] else PrintAll(kids[..|kids| - 1]) + Print(kids[|kids| - 1])
  }

  // ----- the object -----

  datatype Element = LeafElement(text: string) | ContainerElement(container: HtmlContainer)

  class HtmlContainer {
    const tag: string
    var elements: seq<Element>
    var index: int
    var popped: bool
    ghost var Repr: set<object>

    ghost predicate Valid()
      reads this, Repr
      ensures Valid() ==> this in Repr
      decreases Repr
    {
      && this in Repr
      && index == |elements| - 1
      && (forall i | 0 <= i < |elements| && elements[i].ContainerElement? :: Owns(elements[i].container))
      && (forall i, j | 0 <= i < j < |elements| && elements[i].ContainerElement? && elements[j].ContainerElement? ::
           elements[i].container.Repr !! elements[j].container.Repr)
    }

    ghost predicate Owns(c: HtmlContainer)
      requires this in Repr
      reads this, Repr
      decreases Repr, 0
    {
      c in Repr && c.Repr < Repr && this !in c.Repr && c.Valid()
    }

    ghost function View(): (t: Tree)
      requires Valid()
      reads this, Repr
      ensures t.Node? && t.tag == tag && t.popped == popped && |t.kids| == |elements|
      decreases Repr, |elements| + 1
    {
      Node(tag, popped, Kids(|elements|))
    }

    ghost function Kids(n: nat): (kids: seq<Tree>)
      requires Valid() && n <= |elements|
      reads this, Repr
      ensures |kids| == n
      decreases Repr, n
    {
      if n == 0 then [] else Kids(n - 1) + [ElementView(n - 1)]
    }

    ghost function ElementView(i: nat): Tree
      requires Valid() && i < |elements|
      reads this, Repr
      decreases Repr, 0
    {
      match elements[i]
      case LeafElement(text) => Leaf(text)
      case ContainerElement(c) => assert Owns(c); c.View()
    }

    constructor (tag: string)
      ensures Valid() && fresh(Repr) && View() == Node(tag, false, [])
    {
      this.tag := tag;
      elements := [];
      popped := false;
      index := -1;
      Repr := {this};
    }

    ghost predicate Adoptable(e: Element)
      reads this, if e.ContainerElement? then {e.container} + e.container.Repr else {}
    {
      e.ContainerElement? ==> e.container.Valid() && e.container.Repr !! Repr
    }

    ghost function Footprint(e: Element): set<object>
      reads if e.ContainerElement? then {e.container} else {}
    {
      if e.ContainerElement? then e.container.Repr else {}
    }

    ghost function Value(e: Element): Tree
      requires e.ContainerElement? ==> e.container.Valid()
      reads if e.ContainerElement? then {e.container} + e.container.Repr else {}
    {
      match e
      case LeafElement(text) => Leaf(text)
      case ContainerElement(c) => c.View()
    }

    /** The first `n` elements look as they did. */
    twostate lemma KidsKept(n: nat)
      requires old(Valid()) && Valid()
      requires n <= old(|elements|) && n <= |elements| && elements[..n] == old(elements)[..n]
      requires forall i | 0 <= i < n && elements[i].ContainerElement? ::
                 unchanged(elements[i].container) && forall o | o in old(elements[i].container.Repr) :: unchanged(o)
      ensures Kids(n) == old(Kids(n))
    {
      if n > 0 {
        assert elements[n - 1] == elements[..n][n - 1];
        KidsKept(n - 1);
      }
    }

    method HasBeenPopped() returns (r: bool)
      requires Valid()
      ensures r == Closed(View())
    {
      if popped {
        r := true;
      } else if index == -1 {
        r := false;
      } else {
        r := false;
      }
    }

    method LastHasBeenPopped() returns (r: bool)
      requires Valid() && index >= 0
      ensures r == Closed(Last(View().kids))
    {
      assert Last(View().kids) == ElementView(index);
      match elements[index]
      case LeafElement(_) => r := true;
      case ContainerElement(c) =>
        assert Owns(c);
        r := c.HasBeenPopped();
    }

    method Append(e: Element)
      requires Valid() && Adoptable(e)
      modifies this
      ensures Valid() && Repr == old(Repr) + old(Footprint(e))
      ensures View() == Node(tag, old(popped), old(View()).kids + [old(Value(e))])
    {
      ghost var kids := Kids(|elements|);
      index := index + 1;
      elements := elements + [e];
      Repr := Repr + Footprint(e);
      assert ElementView(|elements| - 1) == old(Value(e));
      KidsKept(|elements| - 1);
      assert Kids(|elements|) == kids + [old(Value(e))];
    }

    /** The last element is a container still open: the element goes into it. */
    method PushIntoLast(e: Element)
      requires Valid() && Adoptable(e) && index >= 0 && !Closed(Last(View().kids))
      modifies Repr
      ensures Valid() && Repr == old(Repr) + old(Footprint(e))
      ensures View() ==
        Node(tag, old(popped), WithLast(old(View()).kids, Pushed(Last(old(View()).kids), old(Value(e)))))
      decreases Repr, 0
    {
      assert Last(View().kids) == ElementView(index);
      var c := elements[index].container;
      assert Owns(c);
      ghost var kids, front := Kids(|elements|), Kids(index);
      c.Push(e);
      Repr := Repr + old(Footprint(e));
      KidsKept(index);
      assert ElementView(index) == Pushed(Last(kids), old(Value(e)));
      assert Kids(|elements|) == front + [ElementView(index)];
    }

    method Push(e: Element)
      requires Valid() && Adoptable(e)
      modifies Repr
      ensures Valid() && Repr == old(Repr) + old(Footprint(e))
      ensures View() == Pushed(old(View()), old(Value(e)))
      decreases Repr, 1
    {
      if index == -1 {
        Append(e);
      } else {
        var closed := LastHasBeenPopped();
        if closed {
          Append(e);
        } else {
          PushIntoLast(e);
        }
      }
    }

    method PopLast()
      requires Valid() && index >= 0 && !Closed(Last(View().kids))
      modifies Repr
      ensures Valid() && Repr == old(Repr)
      ensures View() == Node(tag, old(popped), WithLast(old(View()).kids, Popped(Last(old(View()).kids)).value))
      decreases Repr, 0
    {
      assert Last(View().kids) == ElementView(index);
      var c := elements[index].container;
      assert Owns(c);
      ghost var kids, front := Kids(|elements|), Kids(index);
      var ok := c.Pop();
      KidsKept(index);
      assert ElementView(index) == Popped(Last(kids)).value;
      assert Kids(|elements|) == front + [ElementView(index)];
    }

    /** False where the source dies. */
    method Pop() returns (ok: bool)
      requires Valid()
      modifies Repr
      ensures Valid() && Repr == old(Repr)
      ensures match Popped(old(View())) case None => !ok && View() == old(View()) case Some(t) => ok && View() == t
      decreases Repr, 1
    {
      if !popped {
        if index == -1 {
          Close();
        } else {
          var closed := LastHasBeenPopped();
          if closed {
            Close();
          } else {
            PopLast();
          }
        }
        ok := true;
      } else {
        ok := false;
      }
    }

    method Close()
      requires Valid()
      modifies this`popped
      ensures Valid() && View() == Node(tag, true, old(View()).kids)
    {
      popped := true;
      KidsKept(|elements|);
    }

    lemma KidsAt(n: nat, i: nat)
      requires Valid() && i < n <= |elements|
      ensures Kids(n)[i] == ElementView(i)
    {
      if i < n - 1 { KidsAt(n - 1, i); }
    }

    method DisplayElement(i: nat) returns (out: seq<Token>)
      requires Valid() && i < |elements|
      ensures out == Print(View().kids[i])
      decreases Repr, 0
    {
      KidsAt(|elements|, i);
      match elements[i]
      case LeafElement(text) => out := [Text(text)];
      case ContainerElement(c) =>
        assert Owns(c);
        out := c.Display();
    }

    method Display() returns (out: seq<Token>)
      requires Valid()
      ensures out == Print(View())
      decreases Repr, 1
    {
      ghost var kids, inside := View().kids, [];
      out := [Begin(tag)];
      for i := 0 to |elements|
        invariant View().kids == kids
        invariant inside == PrintAll(kids[..i])
        invariant out == [Begin(tag)] + inside
      {
        var shown := DisplayElement(i);
        Assoc([Begin(tag)], inside, shown);
        assert kids[..i + 1] == kids[..i] + [kids[i]];
        out := out + shown;
        inside := inside + shown;
      }
      assert kids[..|elements|] == kids;
      out := out + [End(tag)];
    }
  }

  // ----- building from a stream of tokens -----

  /** A leaf is pushed for a text, a new container for a begin; an end pops. */
  function Feed(t: Tree, token: Token): (r: Option<Tree>)
    requires t.Node?
    ensures r.Some? ==> r.value.Node? && r.value.tag == t.tag
  {
    match token
    case Text(text) => Some(Pushed(t, Leaf(text)))
    case Begin(tag) => Some(Pushed(t, Node(tag, false, [])))
    case End(_) => Popped(t)
  }

  function Build(t: Tree, tokens: seq<Token>): (r: Option<Tree>)
    requires t.Node?
    ensures r.Some? ==> r.value.Node? && r.value.tag == t.tag
    decreases tokens
  {
    if tokens == [] then Some(t)
    else
      match Feed(t, tokens[0])
      case None => None
      case Some(t') => Build(t', tokens[1..])
  }

  /** What the source relies on: in an open container every element but the last is closed,
      and a closed one has only closed elements below it. */
  predicate Done(t: Tree) {
    t.Leaf? || (t.popped && forall kid | kid in t.kids :: Done(kid))
  }

  predicate InOrder(t: Tree)
    requires t.Node?
  {
    if t.popped then Done(t)
    else
      && (forall i | 0 <= i < |t.kids| - 1 :: Done(t.kids[i]))
      && (t.kids != [] ==> Done(Last(t.kids)) || (Last(t.kids).Node? && !Last(t.kids).popped && InOrder(Last(t.kids))))
  }

  lemma {:induction false} PushKeepsOrder(t: Tree, e: Tree)
    requires t.Node? && !t.popped && InOrder(t)
    requires Done(e) || (e.Node? && !e.popped && InOrder(e))
    ensures InOrder(Pushed(t, e))
    decreases t
  {
    if !TakesItself(t) { PushKeepsOrder(Last(t.kids), e); }
  }

  lemma {:induction false} PopKeepsOrder(t: Tree)
    requires t.Node? && !t.popped && InOrder(t)
    ensures InOrder(Popped(t).value)
    decreases t
  {
    if !TakesItself(t) {
      PopKeepsOrder(Last(t.kids));
    } else {
      forall kid | kid in t.kids ensures Done(kid) {
        var i :| 0 <= i < |t.kids| && t.kids[i] == kid;
      }
    }
  }

  // ----- printing what was built -----

  /** What `display` prints before the ends of the containers still open ... */
  function Front(t: Tree): seq<Token> {
    match t
    case Leaf(text) => [Text(text)]
    case Node(tag, popped, kids) => if popped then Print(t) else [Begin(tag)] + FrontAll(kids)
  }

  function FrontAll(kids: seq<Tree>): seq<Token> {
    if kids == [] then [] else PrintAll(kids[..|kids| - 1]) + Front(kids[|kids| - 1])
  }

  /** ... and their tags, innermost first. */
  function Open(t: Tree): seq<string> {
    if Closed(t) then [] else (if t.kids == [] then [] else Open(t.kids[|t.kids| - 1])) + [t.tag]
  }

  function Ends(tags: seq<string>): seq<Token> {
    seq(|tags|, i requires 0 <= i < |tags| => End(tags[i]))
  }

  lemma ClosedFront(t: Tree)
    requires Closed(t)
    ensures Front(t) == Print(t) && Open(t) == []
  {
  }

  lemma FrontWhenClosed(kids: seq<Tree>)
    requires kids == [] || Closed(Last(kids))
    ensures FrontAll(kids) == PrintAll(kids)
  {
    if kids != [] { ClosedFront(Last(kids)); }
  }

  lemma {:induction false} PrintIsFrontAndEnds(t: Tree)
    ensures Print(t) == Front(t) + Ends(Open(t))
    decreases t
  {
    if Closed(t) {
      ClosedFront(t);
      assert Ends(Open(t)) == [];
    } else if t.kids == [] {
      assert Ends([] + [t.tag]) == [End(t.tag)];
    } else {
      var last, before := Last(t.kids), PrintAll(t.kids[..|t.kids| - 1]);
      PrintIsFrontAndEnds(last);
      assert Ends(Open(last) + [t.tag]) == Ends(Open(last)) + [End(t.tag)];
      Assoc(before, Front(last), Ends(Open(last)));
      Assoc([Begin(t.tag)], before + Front(last), Ends(Open(last)));
      Assoc([Begin(t.tag)] + (before + Front(last)), Ends(Open(last)), [End(t.tag)]);
    }
  }

  lemma {:induction false} PushedFront(t: Tree, e: Tree)
    requires t.Node? && !t.popped
    ensures Front(Pushed(t, e)) == Front(t) + Front(e)
    decreases t
  {
    if TakesItself(t) {
      FrontWhenClosed(t.kids);
      Assoc([Begin(t.tag)], PrintAll(t.kids), Front(e));
    } else {
      PushedFront(Last(t.kids), e);
      PushedFrontBelow(t, e);
    }
  }

  lemma PushedFrontBelow(t: Tree, e: Tree)
    requires t.Node? && !t.popped && !TakesItself(t)
    requires Front(Pushed(Last(t.kids), e)) == Front(Last(t.kids)) + Front(e)
    ensures Front(Pushed(t, e)) == Front(t) + Front(e)
  {
    var last, before := Last(t.kids), PrintAll(t.kids[..|t.kids| - 1]);
    Assoc(before, Front(last), Front(e));
    Assoc([Begin(t.tag)], before + Front(last), Front(e));
  }

  lemma {:induction false} PushedOpen(t: Tree, e: Tree)
    requires t.Node? && !t.popped
    ensures Open(Pushed(t, e)) == Open(e) + Open(t)
    decreases t
  {
    if TakesItself(t) {
      assert Open(t) == [] + [t.tag];
    } else {
      PushedOpen(Last(t.kids), e);
      Assoc(Open(e), Open(Last(t.kids)), [t.tag]);
    }
  }

  lemma {:induction false} PoppedFront(t: Tree)
    requires t.Node? && !t.popped
    ensures Open(t) != []
    ensures Front(Popped(t).value) == Front(t) + [End(Open(t)[0])]
    ensures Open(Popped(t).value) == Open(t)[1..]
    decreases t
  {
    if TakesItself(t) {
      FrontWhenClosed(t.kids);
      if t.kids != [] { ClosedFront(Last(t.kids)); }
      assert Open(t) == [] + [t.tag];
    } else {
      var last, before := Last(t.kids), PrintAll(t.kids[..|t.kids| - 1]);
      var end := [End(Open(last)[0])];
      PoppedFront(last);
      Assoc(before, Front(last), end);
      Assoc([Begin(t.tag)], before + Front(last), end);
      assert (Open(last) + [t.tag])[1..] == Open(last)[1..] + [t.tag];
    }
  }

  /** `token` may come next while the containers `open` are open, the innermost first: an
      end names the innermost one, and nothing comes after the end of the root. */
  predicate MayFollow(open: seq<string>, token: Token) {
    open != [] && (token.End? ==> open[0] == token.tag)
  }

  function OpenAfter(open: seq<string>, token: Token): seq<string>
    requires MayFollow(open, token)
  {
    match token
    case Text(_) => open
    case Begin(tag) => [tag] + open
    case End(_) => open[1..]
  }

  predicate Nested(open: seq<string>, tokens: seq<Token>)
    decreases tokens
  {
    tokens == [] || (MayFollow(open, tokens[0]) && Nested(OpenAfter(open, tokens[0]), tokens[1..]))
  }

  function StillOpen(open: seq<string>, tokens: seq<Token>): seq<string>
    requires Nested(open, tokens)
    decreases tokens
  {
    if tokens == [] then open else StillOpen(OpenAfter(open, tokens[0]), tokens[1..])
  }

  lemma FeedFront(t: Tree, token: Token)
    requires t.Node? && InOrder(t) && MayFollow(Open(t), token)
    ensures Feed(t, token).Some?
    ensures var r := Feed(t, token).value;
      InOrder(r) && Front(r) == Front(t) + [token] && Open(r) == OpenAfter(Open(t), token)
  {
    match token
    case Text(text) =>
      PushedFront(t, Leaf(text));
      PushedOpen(t, Leaf(text));
      PushKeepsOrder(t, Leaf(text));
      assert [] + Open(t) == Open(t);
    case Begin(tag) =>
      PushedFront(t, Node(tag, false, []));
      PushedOpen(t, Node(tag, false, []));
      PushKeepsOrder(t, Node(tag, false, []));
      assert Open(Node(tag, false, [])) == [] + [tag] == [tag];
      assert Front(Node(tag, false, [])) == [Begin(tag)] + [] == [Begin(tag)];
    case End(tag) =>
      PoppedFront(t);
      PopKeepsOrder(t);
  }

  /** Printing gives back the stream a tree was built from, however the brackets nest, and
      closes what the stream left open. */
  lemma {:induction false} DisplayPrintsTheStream(t: Tree, tokens: seq<Token>)
    requires t.Node? && InOrder(t) && Nested(Open(t), tokens)
    ensures Build(t, tokens).Some?
    ensures var r := Build(t, tokens).value;
      && InOrder(r) && Open(r) == StillOpen(Open(t), tokens)
      && Print(r) == Front(t) + tokens + Ends(StillOpen(Open(t), tokens))
    decreases tokens
  {
    if tokens == [] {
      PrintIsFrontAndEnds(t);
      assert Front(t) + tokens == Front(t);
    } else {
      assert [tokens[0]] + tokens[1..] == tokens;
      FeedFront(t, tokens[0]);
      DisplayPrintsTheStream(Feed(t, tokens[0]).value, tokens[1..]);
      Assoc(Front(t), [tokens[0]], tokens[1..]);
    }
  }

  /** From a fresh root. */
  lemma DisplayAfterBuild(root: string, tokens: seq<Token>)
    requires Nested([root], tokens)
    ensures var built := Build(Node(root, false, []), tokens);
      built.Some? && Print(built.value) == [Begin(root)] + tokens + Ends(StillOpen([root], tokens))
  {
    var t := Node(root, false, []);
    assert Open(t) == [root];
    assert Front(t) == [Begin(root)] + [] == [Begin(root)];
    DisplayPrintsTheStream(t, tokens);
  }

  // ----- building what was printed -----

  function PushedAll(t: Tree, kids: seq<Tree>): (r: Tree)
    requires t.Node?
    ensures r.Node? && r.popped == t.popped && r.tag == t.tag
    decreases kids
  {
    if kids == [] then t else PushedAll(Pushed(t, kids[0]), kids[1..])
  }

  lemma {:induction false} PushIntoOpen(t: Tree, n: Tree, e: Tree)
    requires t.Node? && !t.popped && n.Node? && !n.popped
    ensures Pushed(Pushed(t, n), e) == Pushed(t, Pushed(n, e))
    decreases t
  {
    if !TakesItself(t) {
      PushIntoOpen(Last(t.kids), n, e);
    }
  }

  lemma {:induction false} PopOpen(t: Tree, n: Tree)
    requires t.Node? && !t.popped && n.Node? && !n.popped && TakesItself(n)
    ensures Popped(Pushed(t, n)) == Some(Pushed(t, n.(popped := true)))
    decreases t
  {
    var m := n.(popped := true);
    if TakesItself(t) {
      assert WithLast(t.kids + [n], m) == t.kids + [m];
    } else {
      var last := Last(t.kids);
      PopOpen(last, n);
      assert WithLast(WithLast(t.kids, Pushed(last, n)), Pushed(last, m)) == WithLast(t.kids, Pushed(last, m));
    }
  }

  lemma {:induction false} PushAllIntoOpen(t: Tree, n: Tree, kids: seq<Tree>)
    requires t.Node? && !t.popped && n.Node? && !n.popped
    ensures PushedAll(Pushed(t, n), kids) == Pushed(t, PushedAll(n, kids))
    decreases kids
  {
    if kids != [] {
      PushIntoOpen(t, n, kids[0]);
      PushAllIntoOpen(t, Pushed(n, kids[0]), kids[1..]);
    }
  }

  /** Closed elements pushed into a container that takes them itself end up in it one by one. */
  lemma {:induction false} PushAllClosed(n: Tree, kids: seq<Tree>)
    requires n.Node? && TakesItself(n) && forall kid | kid in kids :: Closed(kid)
    ensures PushedAll(n, kids) == n.(kids := n.kids + kids) && TakesItself(PushedAll(n, kids))
    decreases kids
  {
    if kids == [] {
      assert n.kids + kids == n.kids;
    } else {
      PushAllClosed(Pushed(n, kids[0]), kids[1..]);
      assert n.kids + [kids[0]] + kids[1..] == n.kids + kids;
    }
  }

  lemma {:induction false} BuildConcat(t: Tree, a: seq<Token>, b: seq<Token>)
    requires t.Node? && Build(t, a).Some?
    ensures Build(t, a + b) == Build(Build(t, a).value, b)
    decreases a
  {
    if a == [] {
      assert a + b == b;
    } else {
      assert (a + b)[1..] == a[1..] + b;
      BuildConcat(Feed(t, a[0]).value, a[1..], b);
    }
  }

  lemma BuildOne(t: Tree, token: Token)
    requires t.Node?
    ensures Build(t, [token]) == Feed(t, token)
  {
    assert [token][1..] == [];
  }

  lemma {:induction false} PushedAllSnoc(t: Tree, kids: seq<Tree>, kid: Tree)
    requires t.Node?
    ensures PushedAll(t, kids + [kid]) == Pushed(PushedAll(t, kids), kid)
    decreases kids
  {
    if kids == [] {
      assert (kids + [kid])[1..] == [];
    } else {
      assert (kids + [kid])[1..] == kids[1..] + [kid];
      PushedAllSnoc(Pushed(t, kids[0]), kids[1..], kid);
    }
  }

  /** Reading a finished element back pushes that element. */
  lemma {:induction false} BuildPrintedOne(t: Tree, e: Tree)
    requires t.Node? && !t.popped && Done(e)
    ensures Build(t, Print(e)) == Some(Pushed(t, e))
    decreases e, 1
  {
    match e
    case Leaf(text) => BuildOne(t, Text(text));
    case Node(tag, _, kids) =>
      var n := Node(tag, false, []);
      var t1 := Pushed(t, n);
      BuildOne(t, Begin(tag));
      BuildPrintedAll(t1, e, kids);
      PushAllIntoOpen(t, n, kids);
      PushAllClosed(n, kids);
      assert n.kids + kids == kids;
      PopOpen(t, PushedAll(n, kids));
      BuildOne(PushedAll(t1, kids), End(tag));
      BuildConcat(t, [Begin(tag)], PrintAll(kids));
      BuildConcat(t, [Begin(tag)] + PrintAll(kids), [End(tag)]);
  }

  lemma {:induction false} BuildPrintedAll(t: Tree, parent: Tree, kids: seq<Tree>)
    requires t.Node? && !t.popped && parent.Node?
    requires forall kid | kid in kids :: kid in parent.kids && Done(kid)
    ensures Build(t, PrintAll(kids)) == Some(PushedAll(t, kids))
    decreases parent, 0, kids
  {
    if kids != [] {
      var n := |kids| - 1;
      BuildPrintedAll(t, parent, kids[..n]);
      BuildConcat(t, PrintAll(kids[..n]), Print(kids[n]));
      assert kids[n] in parent.kids;
      BuildPrintedOne(PushedAll(t, kids[..n]), kids[n]);
      PushedAllSnoc(t, kids[..n], kids[n]);
      assert kids[..n] + [kids[n]] == kids;
    }
  }

  /** The tree built from a balanced stream is the one its brackets describe: reading back
      what a list of finished elements prints puts exactly those elements into the root, and
      closing the root gives the printed tree itself. */
  lemma BuildAfterDisplay(t: Tree)
    requires t.Node? && Done(t)
    ensures Print(t) == [Begin(t.tag)] + PrintAll(t.kids) + [End(t.tag)]
    ensures Build(Node(t.tag, false, []), PrintAll(t.kids)) == Some(Node(t.tag, false, t.kids))
    ensures Build(Node(t.tag, false, []), PrintAll(t.kids) + [End(t.tag)]) == Some(t)
  {
    var root := Node(t.tag, false, []);
    BuildPrintedAll(root, t, t.kids);
    PushAllClosed(root, t.kids);
    assert root.kids + t.kids == t.kids;
    BuildConcat(root, PrintAll(t.kids), [End(t.tag)]);
    BuildOne(Node(t.tag, false, t.kids), End(t.tag));
  }
}
