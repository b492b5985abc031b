/** `router`: one mutable tree of nodes for each HTTP method. */
module Router {
  import opened Wrappers
  import opened RouteTree
  import opened RoutePaths
  import opened Strings

  /** Where a child hangs. */
  datatype Slot = StaticSlot(name: string) | StarSlot | ParamSlot

  function SlotFor(seg: string): Slot {
    if IsParam(seg) then ParamSlot else if IsStar(seg) then StarSlot else StaticSlot(seg)
  }

  function InSlot(n: Node, slot: Slot): Option<Node> {
    match slot
    case StaticSlot(k) => if k in n.children then Some(n.children[k]) else None
    case StarSlot => n.star
    case ParamSlot => n.param
  }

  class TreeNode {
    var route: string
    var path: string
    var children: map<string, TreeNode>
    var starChild: TreeNode?
    var paramChild: TreeNode?
    var handler: Option<Handler>

    /** This node and every node below it, and the value it stands for. */
    ghost var Repr: set<TreeNode>
    ghost var tree: Node

    constructor (path: string)
      ensures Valid() && Repr == {this} && tree == NewNode(path) && this.path == path
    {
      route, this.path, handler := "", path, None;
      children, starChild, paramChild := map[], null, null;
      Repr := {this};
      tree := NewNode(path);
    }

    ghost function Kid(slot: Slot): TreeNode?
      reads this
    {
      match slot
      case StaticSlot(k) => if k in children then children[k] else null
      case StarSlot => starChild
      case ParamSlot => paramChild
    }

    ghost predicate Sees(slot: Slot)
      reads this, Kid(slot)
    {
      var c := Kid(slot);
      if c == null then InSlot(tree, slot) == None
      else InSlot(tree, slot) == Some(c.tree) && SlotFor(c.path) == slot
    }

    ghost predicate Valid()
      reads this, Repr
      decreases Repr
    {
      && this in Repr && tree.route == route && tree.path == path && tree.handler == handler
      && (forall slot :: Kid(slot) != null ==>
            Kid(slot) in Repr && Kid(slot).Repr <= Repr - {this} && Kid(slot).Valid())
      && (forall slot, other :: Kid(slot) != null && Kid(other) != null && slot != other ==>
            Kid(slot) in Repr && Kid(other) in Repr && Kid(slot).Repr !! Kid(other).Repr)
      && (forall slot :: Kid(slot) != null ==> Kid(slot) in Repr && Sees(slot))
      && (forall slot :: Kid(slot) == null ==> InSlot(tree, slot) == None)
    }
  }

  method LinkParam(n: TreeNode, child: TreeNode)
    requires n.Valid() && child.Valid() && child.Repr !! n.Repr && IsParam(child.path)
    modifies n
    ensures n.Valid() && n.Repr == old(n.Repr) + child.Repr
    ensures n.tree == old(n.tree).(param := Some(child.tree)) && n.paramChild == child
  {
    n.paramChild := child;
    n.Repr := n.Repr + child.Repr;
    n.tree := n.tree.(param := Some(child.tree));
    assert forall slot :: slot != ParamSlot ==> n.Kid(slot) == old(n.Kid(slot)) && InSlot(n.tree, slot) == InSlot(old(n.tree), slot);
  }

  method LinkStar(n: TreeNode, child: TreeNode)
    requires n.Valid() && child.Valid() && child.Repr !! n.Repr && IsStar(child.path)
    modifies n
    ensures n.Valid() && n.Repr == old(n.Repr) + child.Repr
    ensures n.tree == old(n.tree).(star := Some(child.tree)) && n.starChild == child
  {
    n.starChild := child;
    n.Repr := n.Repr + child.Repr;
    n.tree := n.tree.(star := Some(child.tree));
    assert forall slot :: slot != StarSlot ==> n.Kid(slot) == old(n.Kid(slot)) && InSlot(n.tree, slot) == InSlot(old(n.tree), slot);
  }

  method LinkStatic(n: TreeNode, child: TreeNode)
    requires n.Valid() && child.Valid() && child.Repr !! n.Repr && IsStatic(child.path)
    modifies n
    ensures n.Valid() && n.Repr == old(n.Repr) + child.Repr
    ensures n.tree == old(n.tree).(children := old(n.tree).children[child.path := child.tree])
    ensures child.path in n.children && n.children[child.path] == child
  {
    n.children := n.children[child.path := child];
    n.Repr := n.Repr + child.Repr;
    n.tree := n.tree.(children := n.tree.children[child.path := child.tree]);
    assert forall slot :: slot != StaticSlot(child.path) ==>
      n.Kid(slot) == old(n.Kid(slot)) && InSlot(n.tree, slot) == InSlot(old(n.tree), slot);
  }

  /** `childOrCreate`: a wildcard always gets a new node, in place of whatever was there. */
  method ChildOrCreate(n: TreeNode, seg: string) returns (panic: Option<Panic>, child: TreeNode)
    requires n.Valid() && seg != ""
    modifies n
    ensures n.Valid() && fresh(n.Repr - old(n.Repr)) && panic == Blocked(old(n.tree), seg)
    ensures panic.Some? ==> n.tree == old(n.tree)
    ensures panic.None? ==>
              n.Kid(SlotFor(seg)) == child && child.tree == ChildFor(old(n.tree), seg)
              && n.tree == WithChild(old(n.tree), seg, child.tree)
  {
    panic, child := None, n;
    assert (n.Kid(StarSlot) == null <==> n.tree.star == None) && (n.Kid(ParamSlot) == null <==> n.tree.param == None) by {
      assert InSlot(n.tree, StarSlot) == n.tree.star && InSlot(n.tree, ParamSlot) == n.tree.param;
    }
    if seg[0] == ':' {
      if n.starChild != null {
        return Some(StarThere), n;
      }
      child := new TreeNode(seg);
      LinkParam(n, child);
    } else if seg == "*" {
      if n.paramChild != null {
        return Some(ParamThere), n;
      }
      child := new TreeNode(seg);
      LinkStar(n, child);
    } else {
      assert n.Kid(StaticSlot(seg)) != null <==> seg in n.tree.children by {
        assert InSlot(n.tree, StaticSlot(seg)) == if seg in n.tree.children then Some(n.tree.children[seg]) else None;
      }
      if seg in n.children {
        child := n.children[seg];
        assert n.Sees(StaticSlot(seg));
        assert n.tree == WithChild(n.tree, seg, child.tree);
      } else {
        child := new TreeNode(seg);
        LinkStatic(n, child);
      }
    }
  }

  /** The rest of the walk happens below `child`; the nodes above take on its new value. */
  method AddBelow(n: TreeNode, seg: string, child: TreeNode, rest: Segments, route: string, h: Handler)
    returns (panic: Option<Panic>)
    requires n.Valid() && n.Kid(SlotFor(seg)) == child
    modifies n.Repr
    ensures n.Valid() && fresh(n.Repr - old(n.Repr))
    ensures var (tree, p) := Add(old(child.tree), rest, route, h);
            panic == p && n.tree == WithChild(old(n.tree), seg, tree)
    decreases |rest|, 1
  {
    panic := AddSegments(child, rest, route, h);
    AddKeepsPath(old(child.tree), rest, route, h);
    forall slot | slot != SlotFor(seg) && n.Kid(slot) != null
      ensures n.Kid(slot) in n.Repr && n.Kid(slot).Repr <= n.Repr - {n} && n.Kid(slot).Valid()
      ensures n.Kid(slot).Repr !! child.Repr && n.Sees(slot) && n.Kid(slot).Repr == old(n.Kid(slot).Repr)
    {
      assert old(n.Kid(slot)) == n.Kid(slot) && old(n.Kid(slot).Repr) !! old(child.Repr);
      assert old(n.Kid(slot).Valid()) && old(n.Sees(slot));
    }
    Renew(n, seg, child);
  }

  /** All of `n` is in order but for what it knows about the child under `slot`. */
  ghost predicate ValidBut(n: TreeNode, slot: Slot, child: TreeNode)
    reads n, n.Repr, child, child.Repr
  {
    && n in n.Repr && n.tree.route == n.route && n.tree.path == n.path && n.tree.handler == n.handler
    && n.Kid(slot) == child && child.Valid() && n !in child.Repr && SlotFor(child.path) == slot
    && (forall s :: s != slot && n.Kid(s) != null ==>
          n.Kid(s) in n.Repr && n.Kid(s).Repr <= n.Repr - {n} && n.Kid(s).Valid() && n.Sees(s) && n.Kid(s).Repr !! child.Repr)
    && (forall s, t :: s != slot && t != slot && s != t && n.Kid(s) != null && n.Kid(t) != null ==>
          n.Kid(s) in n.Repr && n.Kid(t) in n.Repr && n.Kid(s).Repr !! n.Kid(t).Repr)
    && (forall s :: n.Kid(s) == null ==> InSlot(n.tree, s) == None)
  }

  ghost method Renew(n: TreeNode, seg: string, child: TreeNode)
    requires ValidBut(n, SlotFor(seg), child)
    modifies n`Repr, n`tree
    ensures n.Valid() && n.Repr == old(n.Repr) + child.Repr && n.tree == WithChild(old(n.tree), seg, child.tree)
  {
    n.Repr := n.Repr + child.Repr;
    n.tree := WithChild(n.tree, seg, child.tree);
    assert forall slot :: n.Kid(slot) == old(n.Kid(slot));
    assert forall slot :: slot != SlotFor(seg) ==> InSlot(n.tree, slot) == InSlot(old(n.tree), slot);
    assert InSlot(n.tree, SlotFor(seg)) == Some(child.tree);
    forall slot | n.Kid(slot) != null
      ensures n.Kid(slot) in n.Repr && n.Kid(slot).Repr <= n.Repr - {n} && n.Kid(slot).Valid() && n.Sees(slot)
    {
      if slot != SlotFor(seg) {
        assert old(n.Kid(slot).Valid()) && old(n.Sees(slot));
      } else {
        assert old(child.Valid());
      }
    }
  }

  lemma WithChildTwice(n: Node, seg: string, a: Node, b: Node)
    ensures WithChild(WithChild(n, seg, a), seg, b) == WithChild(n, seg, b)
  {
    assert n.children[seg := a][seg := b] == n.children[seg := b];
  }

  method AddSegments(n: TreeNode, segs: Segments, route: string, h: Handler) returns (panic: Option<Panic>)
    requires n.Valid()
    modifies n.Repr
    ensures n.Valid() && fresh(n.Repr - old(n.Repr)) && (n.tree, panic) == Add(old(n.tree), segs, route, h)
    decreases |segs|, 0
  {
    if segs == [] {
      if n.handler.Some? {
        return Some(Duplicate);
      }
      SetHandler(n, route, h);
      return None;
    }
    if segs[0] == "" {
      return Some(EmptySegment);
    }
    var child;
    panic, child := ChildOrCreate(n, segs[0]);
    if panic.None? {
      WithChildTwice(old(n.tree), segs[0], child.tree, Add(child.tree, segs[1..], route, h).0);
      panic := AddBelow(n, segs[0], child, segs[1..], route, h);
    }
  }

  method SetHandler(n: TreeNode, route: string, h: Handler)
    requires n.Valid()
    modifies n
    ensures n.Valid() && n.Repr == old(n.Repr) && n.tree == old(n.tree).(handler := Some(h), route := route)
  {
    n.handler := Some(h);
    n.route := route;
    n.tree := n.tree.(handler := Some(h), route := route);
    assert forall slot :: n.Kid(slot) == old(n.Kid(slot)) && InSlot(n.tree, slot) == InSlot(old(n.tree), slot);
  }

  /** `childOf` */
  method ChildOfSegment(n: TreeNode, seg: string) returns (child: TreeNode?, isParam: bool)
    requires n.Valid()
    ensures child == null <==> ChildOf(n.tree, seg).None?
    ensures child != null ==> child in n.Repr && child.Valid() && child.Repr < n.Repr
    ensures child != null ==> ChildOf(n.tree, seg) == Some(Found(child.tree, isParam)) && child.path == child.tree.path
  {
    assert InSlot(n.tree, StarSlot) == n.tree.star && InSlot(n.tree, ParamSlot) == n.tree.param;
    assert InSlot(n.tree, StaticSlot(seg)) == if seg in n.tree.children then Some(n.tree.children[seg]) else None;
    assert n.Kid(StarSlot) == n.starChild && n.Kid(ParamSlot) == n.paramChild;
    assert n.Kid(StaticSlot(seg)) == if seg in n.children then n.children[seg] else null;
    if seg in n.children {
      assert n.Sees(StaticSlot(seg));
      return n.children[seg], false;
    }
    if n.paramChild != null {
      assert n.Sees(ParamSlot);
      return n.paramChild, true;
    }
    if n.starChild != null {
      assert n.Sees(StarSlot);
    }
    return n.starChild, false;
  }

  /** The lookup loop of `findRoute`. */
  method FindSegments(root: TreeNode, segs: Segments) returns (node: TreeNode?, params: Params)
    requires root.Valid()
    ensures node == null <==> Find(root.tree, segs, map[]).None?
    ensures node != null ==>
              node in root.Repr && node.Valid() && Find(root.tree, segs, map[]) == Some(Match(node.tree, params))
  {
    node, params := root, map[];
    var i := 0;
    assert segs[0..] == segs;
    while i < |segs|
      invariant i <= |segs| && node != null && node in root.Repr && node.Valid() && node.Repr <= root.Repr
      invariant Find(root.tree, segs, map[]) == Find(node.tree, segs[i..], params)
    {
      assert segs[i..][0] == segs[i] && segs[i..][1..] == segs[i + 1..];
      var child, isParam := ChildOfSegment(node, segs[i]);
      if child == null {
        return null, params;
      }
      if isParam && child.path != "" {
        params := params[child.path[1..] := segs[i]];
      }
      node := child;
      i := i + 1;
    }
    assert segs[i..] == [];
  }

  class Router {
    var trees: map<string, TreeNode>

    /** Every node of every tree, and the tree of each method as a value. */
    ghost var Repr: set<TreeNode>
    ghost var view: Trees

    ghost predicate Valid()
      reads this, Repr
    {
      && view.Keys == trees.Keys
      && (forall m :: m in trees ==>
            trees[m] in Repr && trees[m].Repr <= Repr && trees[m].Valid() && view[m] == trees[m].tree)
      && (forall m, k :: m in trees && k in trees && m != k ==>
            trees[m] in Repr && trees[k] in Repr && trees[m].Repr !! trees[k].Repr)
    }

    constructor ()
      ensures Valid() && Repr == {} && view == map[]
    {
      trees, Repr, view := map[], {}, map[];
    }

    method AddRoute(verb: string, path: string, h: Handler) returns (panic: Option<Panic>)
      requires Valid()
      modifies this, Repr
      ensures Valid() && fresh(Repr - old(Repr))
      ensures view == Register(old(view), verb, path, h).0 && panic == Register(old(view), verb, path, h).1
    {
      if path == "" {
        return Some(EmptyPath);
      }
      EnsureRoot(verb);
      if path[0] != '/' {
        return Some(NoLeadingSlash);
      }
      if path != "/" && path[|path| - 1] == '/' {
        return Some(TrailingSlash);
      }
      SetTwice(old(view), verb, view[verb], Add(view[verb], PatternOf(path), path, h).0);
      panic := AddTo(verb, if path == "/" then [] else Split(path[1..], '/'), path, h);
    }

    /** The method's tree, made on its first registration. */
    method EnsureRoot(verb: string)
      requires Valid()
      modifies this
      ensures Valid() && fresh(Repr - old(Repr)) && old(Repr) <= Repr
      ensures verb in trees
      ensures view == old(view)[verb := if verb in old(view) then old(view)[verb] else NewNode("/")]
    {
      if verb in trees {
        assert view[verb := view[verb]] == view;
      } else {
        AddRoot(verb);
      }
    }

    method AddRoot(verb: string)
      requires Valid() && verb !in trees
      modifies this
      ensures Valid() && fresh(Repr - old(Repr)) && old(Repr) <= Repr
      ensures verb in trees && view == old(view)[verb := NewNode("/")]
    {
      var root := new TreeNode("/");
      Hang(verb, root);
    }

    method Hang(verb: string, root: TreeNode)
      requires Valid() && verb !in trees && root.Valid() && root.Repr !! Repr
      modifies this
      ensures Valid() && Repr == old(Repr) + root.Repr
      ensures verb in trees && view == old(view)[verb := root.tree]
    {
      trees := trees[verb := root];
      view := view[verb := root.tree];
      forall m | m in trees && m != verb
        ensures trees[m].Valid()
      {
        assert old(trees[m].Valid());
      }
      Adopt(verb, root);
      SetTwice(old(view), verb, root.tree, root.tree);
    }

    method AddTo(verb: string, segs: Segments, path: string, h: Handler) returns (panic: Option<Panic>)
      requires Valid() && verb in trees
      modifies this`Repr, this`view, trees[verb].Repr
      ensures Valid() && fresh(Repr - old(Repr))
      ensures var (tree, p) := Add(old(view)[verb], segs, path, h);
              panic == p && view == old(view)[verb := tree]
    {
      var root := trees[verb];
      panic := AddSegments(root, segs, path, h);
      forall m | m in trees && m != verb
        ensures trees[m].Valid() && trees[m].Repr !! root.Repr && trees[m].Repr == old(trees[m].Repr)
        ensures view[m] == trees[m].tree
      {
        assert old(trees[m].Valid()) && old(trees[m].Repr) !! old(root.Repr);
      }
      Adopt(verb, root);
    }

    /** The router takes on the new value of one of its trees. */
    ghost method Adopt(verb: string, root: TreeNode)
      requires verb in trees && trees[verb] == root && root.Valid() && view.Keys == trees.Keys
      requires forall m :: m in trees && m != verb ==>
                 trees[m] in Repr && trees[m].Repr <= Repr && trees[m].Valid() && view[m] == trees[m].tree
                 && trees[m].Repr !! root.Repr
      requires forall m, k :: m in trees && k in trees && m != k && m != verb && k != verb ==> trees[m].Repr !! trees[k].Repr
      modifies this`Repr, this`view
      ensures Valid() && Repr == old(Repr) + root.Repr && view == old(view)[verb := root.tree]
    {
      Repr := Repr + root.Repr;
      view := view[verb := root.tree];
      forall m | m in trees
        ensures trees[m] in Repr && trees[m].Repr <= Repr && trees[m].Valid() && view[m] == trees[m].tree
      {
        assert old(trees[m].Valid());
        assert m == verb ==> trees[m] == root;
      }
      forall m, k | m in trees && k in trees && m != k
        ensures trees[m].Repr !! trees[k].Repr
      {
        assert m == verb ==> trees[k].Repr !! root.Repr;
        assert k == verb ==> trees[m].Repr !! root.Repr;
      }
    }

    method FindRoute(verb: string, path: string) returns (node: TreeNode?, params: Params)
      requires Valid()
      ensures node == null <==> Lookup(view, verb, path).None?
      ensures node != null ==> Lookup(view, verb, path) == Some(Match(node.tree, params))
    {
      if verb !in trees {
        return null, map[];
      }
      if path == "/" {
        return trees[verb], map[];
      }
      node, params := FindSegments(trees[verb], Split(Trim(path), '/'));
    }
  }

  lemma SetTwice(trees: Trees, verb: string, a: Node, b: Node)
    ensures trees[verb := a][verb := b] == trees[verb := b]
  {
  }
}
