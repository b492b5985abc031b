/**
  The routing tree: what registering a path does to the patterns it holds, and which pattern a request finds.
  A pattern is a list of segments; `:name` and `*` are wildcards, everything else is static.
 */
module RouteTree {
  import opened Wrappers

  type Handler = nat

  type Segments = seq<string>

  datatype Node = Node(
    route: string, path: string, children: map<string, Node>,
    star: Option<Node>, param: Option<Node>, handler: Option<Handler>)

  datatype Panic = EmptySegment | StarThere | ParamThere | Duplicate | EmptyPath | NoLeadingSlash | TrailingSlash

  predicate IsParam(seg: string) {
    seg != "" && seg[0] == ':'
  }

  predicate IsStar(seg: string) {
    seg == "*"
  }

  predicate IsStatic(seg: string) {
    !IsParam(seg) && !IsStar(seg)
  }

  function NewNode(path: string): Node {
    Node("", path, map[], None, None, None)
  }

  /** The node a wildcard segment always makes, or a static one finds or makes. */
  function ChildFor(n: Node, seg: string): Node {
    if IsStatic(seg) && seg in n.children then n.children[seg] else NewNode(seg)
  }

  function WithChild(n: Node, seg: string, child: Node): Node {
    if IsParam(seg) then n.(param := Some(child))
    else if IsStar(seg) then n.(star := Some(child))
    else n.(children := n.children[seg := child])
  }

  /** What stops the walk at this segment. */
  function Blocked(n: Node, seg: string): Option<Panic> {
    if seg == "" then Some(EmptySegment)
    else if IsParam(seg) && n.star.Some? then Some(StarThere)
    else if IsStar(seg) && n.param.Some? then Some(ParamThere)
    else None
  }

  /** Registering; when the code panics the tree keeps what was done before. */
  function Add(n: Node, segs: Segments, route: string, h: Handler): (Node, Option<Panic>)
    decreases |segs|
  {
    if segs == [] then
      if n.handler.Some? then (n, Some(Duplicate)) else (n.(handler := Some(h), route := route), None)
    else if Blocked(n, segs[0]).Some? then (n, Blocked(n, segs[0]))
    else
      var (child, panic) := Add(ChildFor(n, segs[0]), segs[1..], route, h);
      (WithChild(n, segs[0], child), panic)
  }

  // ---- What a tree holds ----

  /** One step along a pattern. */
  function Step(n: Node, seg: string): Option<Node> {
    if IsParam(seg) then (if n.param.Some? && n.param.value.path == seg then n.param else None)
    else if IsStar(seg) then n.star
    else if seg in n.children then Some(n.children[seg]) else None
  }

  function At(n: Node, pattern: Segments): Option<Node>
    decreases |pattern|
  {
    if pattern == [] then Some(n)
    else match Step(n, pattern[0])
      case None => None
      case Some(child) => At(child, pattern[1..])
  }

  datatype Registration = Registration(handler: Handler, route: string)

  /** What is registered under a pattern. */
  function Registered(n: Node, pattern: Segments): Option<Registration> {
    match At(n, pattern)
    case None => None
    case Some(m) => if m.handler.Some? then Some(Registration(m.handler.value, m.route)) else None
  }

  /** Position of the first wildcard, or the length. */
  function FirstWild(segs: Segments): (k: nat)
    ensures k <= |segs|
  {
    if segs == [] || !IsStatic(segs[0]) then 0 else 1 + FirstWild(segs[1..])
  }

  predicate SameKind(a: string, b: string) {
    (IsParam(a) && IsParam(b)) || (IsStar(a) && IsStar(b))
  }

  /** Patterns that go through the wildcard subtree which registering `segs` replaces. */
  predicate Discarded(segs: Segments, pattern: Segments) {
    var k := FirstWild(segs);
    k < |segs| && k < |pattern| && pattern[..k] == segs[..k] && SameKind(pattern[k], segs[k])
  }

  lemma DiscardedStep(segs: Segments, pattern: Segments)
    requires segs != [] && IsStatic(segs[0])
    ensures Discarded(segs, pattern) <==> pattern != [] && pattern[0] == segs[0] && Discarded(segs[1..], pattern[1..])
  {
    var k := FirstWild(segs[1..]);
    assert FirstWild(segs) == k + 1;
    if k + 1 < |pattern| && k + 1 < |segs| {
      assert pattern[..k + 1] == [pattern[0]] + pattern[1..][..k];
      assert segs[..k + 1] == [segs[0]] + segs[1..][..k];
    }
  }

  lemma NewNodeIsEmpty(path: string, pattern: Segments)
    ensures Registered(NewNode(path), pattern) == None
  {
  }

  /**
    Registration refines map update: when it succeeds, the pattern has the new handler and route, the
    patterns through a replaced wildcard subtree are gone, and every other pattern is as it was.
   */
  lemma {:induction false} AddDenotes(n: Node, segs: Segments, route: string, h: Handler, pattern: Segments)
    requires Add(n, segs, route, h).1 == None
    ensures Registered(Add(n, segs, route, h).0, pattern)
         == if pattern == segs then Some(Registration(h, route))
            else if Discarded(segs, pattern) then None
            else Registered(n, pattern)
    decreases |segs|
  {
    if segs != [] {
      var seg, rest := segs[0], segs[1..];
      var child := ChildFor(n, seg);
      if pattern != [] {
        var tail := pattern[1..];
        AddDenotes(child, rest, route, h, tail);
        NewNodeIsEmpty(seg, tail);
        AddKeepsPath(child, rest, route, h);
        assert pattern == segs <==> pattern[0] == seg && tail == rest;
        if IsStatic(seg) {
          DiscardedStep(segs, pattern);
        }
      }
    }
  }

  lemma AddKeepsPath(n: Node, segs: Segments, route: string, h: Handler)
    ensures Add(n, segs, route, h).0.path == n.path
  {
  }

  /** The patterns of a tree, as a map. */
  ghost function Routes(n: Node): imap<Segments, Registration> {
    imap p: Segments | Registered(n, p).Some? :: Registered(n, p).value
  }

  /** The same, for the whole map at once. */
  lemma RegisterIsMapUpdate(n: Node, segs: Segments, route: string, h: Handler)
    requires Add(n, segs, route, h).1 == None
    ensures Routes(Add(n, segs, route, h).0)
         == (imap p | p in Routes(n) && !Discarded(segs, p) :: Routes(n)[p])[segs := Registration(h, route)]
  {
    forall p
      ensures Registered(Add(n, segs, route, h).0, p)
           == if p == segs then Some(Registration(h, route)) else if Discarded(segs, p) then None else Registered(n, p)
    {
      AddDenotes(n, segs, route, h, p);
    }
  }

  // ---- When registering succeeds ----

  /** The wildcard of the other kind is in the way of the first wildcard. */
  predicate Conflicts(n: Node, segs: Segments) {
    var k := FirstWild(segs);
    k < |segs|
    && (match At(n, segs[..k])
        case None => false
        case Some(m) => if IsParam(segs[k]) then m.star.Some? else m.param.Some?)
  }

  lemma {:induction false} NewNodeTakesAny(path: string, segs: Segments, route: string, h: Handler)
    ensures Add(NewNode(path), segs, route, h).1 == None <==> "" !in segs
    decreases |segs|
  {
    if segs != [] {
      NewNodeTakesAny(segs[0], segs[1..], route, h);
      assert segs == [segs[0]] + segs[1..];
    }
  }

  /** A registration succeeds exactly when no segment is empty, no other kind of wildcard is there, and it is not a static duplicate. */
  lemma {:induction false} AddSucceedsIff(n: Node, segs: Segments, route: string, h: Handler)
    ensures Add(n, segs, route, h).1 == None
       <==> "" !in segs && !Conflicts(n, segs) && (FirstWild(segs) == |segs| ==> Registered(n, segs) == None)
    decreases |segs|
  {
    if segs != [] {
      var seg, rest := segs[0], segs[1..];
      assert segs == [seg] + rest;
      if !IsStatic(seg) {
        NewNodeTakesAny(seg, rest, route, h);
      } else {
        var k := FirstWild(rest);
        assert k < |rest| ==> segs[..k + 1] == [seg] + rest[..k];
        if seg in n.children {
          AddSucceedsIff(n.children[seg], rest, route, h);
          assert k < |rest| ==> At(n, segs[..k + 1]) == At(n.children[seg], rest[..k]);
        } else {
          NewNodeTakesAny(seg, rest, route, h);
        }
      }
    }
  }

  /** And when it does not, which panic it is: the first obstacle on the way down. */
  lemma {:induction false} AddPanics(n: Node, segs: Segments, route: string, h: Handler)
    ensures var panic := Add(n, segs, route, h).1; var k := FirstWild(segs);
            var clash := Conflicts(n, segs) && "" !in segs[..k];
            && (panic == Some(StarThere) <==> clash && IsParam(segs[k]))
            && (panic == Some(ParamThere) <==> clash && IsStar(segs[k]))
            && (panic == Some(EmptySegment) <==> !clash && "" in segs)
            && (panic == Some(Duplicate) <==> !clash && "" !in segs && k == |segs| && Registered(n, segs) != None)
    decreases |segs|
  {
    if segs != [] {
      var seg, rest := segs[0], segs[1..];
      assert segs == [seg] + rest;
      AddPanics(ChildFor(n, seg), rest, route, h);
      if IsStatic(seg) {
        var k := FirstWild(rest);
        assert segs[..k + 1] == [seg] + rest[..k];
        NewNodeHasNoConflict(seg, rest);
        assert k < |rest| && seg in n.children ==> At(n, segs[..k + 1]) == At(n.children[seg], rest[..k]);
        NewNodeIsEmpty(seg, rest);
      } else {
        NewNodeTakesAny(seg, rest, route, h);
        assert segs[..0] == [];
        NewNodeNeverClashes(seg, rest, route, h);
      }
    }
  }

  lemma {:induction false} NewNodeNeverClashes(path: string, segs: Segments, route: string, h: Handler)
    ensures var panic := Add(NewNode(path), segs, route, h).1; panic == if "" in segs then Some(EmptySegment) else None
    decreases |segs|
  {
    if segs != [] {
      NewNodeNeverClashes(segs[0], segs[1..], route, h);
      assert segs == [segs[0]] + segs[1..];
    }
  }

  // ---- The shape of every tree ----

  ghost predicate Tidy(n: Node) {
    && !(n.star.Some? && n.param.Some?)
    && (forall k :: k in n.children ==> IsStatic(k) && n.children[k].path == k && Tidy(n.children[k]))
    && (n.star.Some? ==> Tidy(n.star.value))
    && (n.param.Some? ==> IsParam(n.param.value.path) && Tidy(n.param.value))
  }

  /** No node ever has both a param and a star child, whether or not a registration succeeds. */
  lemma {:induction false} AddKeepsTidy(n: Node, segs: Segments, route: string, h: Handler)
    requires Tidy(n)
    ensures Tidy(Add(n, segs, route, h).0)
    decreases |segs|
  {
    if segs != [] && Blocked(n, segs[0]).None? {
      AddKeepsTidy(ChildFor(n, segs[0]), segs[1..], route, h);
      AddKeepsPath(ChildFor(n, segs[0]), segs[1..], route, h);
    }
  }

  // ---- Lookup ----

  datatype Found = Found(child: Node, isParam: bool)

  /** `childOf`: static first, then the param child, then the star child. */
  function ChildOf(n: Node, seg: string): Option<Found> {
    if seg in n.children then Some(Found(n.children[seg], false))
    else if n.param.Some? then Some(Found(n.param.value, true))
    else if n.star.Some? then Some(Found(n.star.value, false))
    else None
  }

  type Params = map<string, string>

  datatype Match = Match(node: Node, params: Params)

  function Bind(params: Params, f: Found, seg: string): Params {
    if f.isParam && f.child.path != "" then params[f.child.path[1..] := seg] else params
  }

  function Find(n: Node, segs: Segments, params: Params): Option<Match>
    decreases |segs|
  {
    if segs == [] then Some(Match(n, params))
    else match ChildOf(n, segs[0])
      case None => None
      case Some(f) => Find(f.child, segs[1..], Bind(params, f, segs[0]))
  }

  /** The pattern segment a request segment must be answered by: static over param over star. */
  predicate Preferred(n: Node, seg: string, p: string) {
    if seg in n.children then p == seg
    else if n.param.Some? then p == n.param.value.path
    else n.star.Some? && p == "*"
  }

  /** At every step the pattern takes the preferred branch. */
  predicate Best(n: Node, segs: Segments, pattern: Segments)
    decreases |segs|
  {
    if segs == [] || pattern == [] then segs == pattern
    else
      Preferred(n, segs[0], pattern[0])
      && (match Step(n, pattern[0]) case None => false case Some(child) => Best(child, segs[1..], pattern[1..]))
  }

  /** Segment by segment: equal, or a wildcard. */
  predicate Matches(pattern: Segments, segs: Segments) {
    |pattern| == |segs| && forall i :: 0 <= i < |segs| ==> pattern[i] == segs[i] || !IsStatic(pattern[i])
  }

  lemma PreferredStep(n: Node, seg: string)
    requires Tidy(n) && ChildOf(n, seg).Some?
    ensures var f := ChildOf(n, seg).value; var p := if seg in n.children then seg else if n.param.Some? then f.child.path else "*";
            Preferred(n, seg, p) && Step(n, p) == Some(f.child) && (p == seg || !IsStatic(p)) && (f.isParam ==> p == f.child.path && IsParam(p))
            && (!f.isParam ==> !IsParam(p)) && Tidy(f.child)
  {
  }

  /** Every result is the node of a pattern that matches the request and takes the preferred branch at each step. */
  lemma {:induction false} FoundIsBest(n: Node, segs: Segments, params: Params) returns (pattern: Segments)
    requires Tidy(n) && Find(n, segs, params).Some?
    ensures Best(n, segs, pattern) && Matches(pattern, segs) && At(n, pattern) == Some(Find(n, segs, params).value.node)
    decreases |segs|
  {
    if segs == [] {
      pattern := [];
    } else {
      var f := ChildOf(n, segs[0]).value;
      PreferredStep(n, segs[0]);
      var rest := FoundIsBest(f.child, segs[1..], Bind(params, f, segs[0]));
      var p := if segs[0] in n.children then segs[0] else if n.param.Some? then f.child.path else "*";
      pattern := [p] + rest;
      assert pattern[1..] == rest;
    }
  }

  /** Conversely the one pattern that is preferred at each step is found, and its node returned. */
  lemma {:induction false} BestIsFound(n: Node, segs: Segments, pattern: Segments, params: Params)
    requires Tidy(n) && Best(n, segs, pattern)
    ensures Find(n, segs, params).Some? && At(n, pattern) == Some(Find(n, segs, params).value.node)
    decreases |segs|
  {
    if segs != [] {
      PreferredStep(n, segs[0]);
      var f := ChildOf(n, segs[0]).value;
      BestIsFound(f.child, segs[1..], pattern[1..], Bind(params, f, segs[0]));
    }
  }

  /** No static child stands in front of a wildcard of the pattern. */
  predicate Unshadowed(n: Node, segs: Segments, pattern: Segments)
    decreases |segs|
  {
    if segs == [] || pattern == [] then true
    else
      (!IsStatic(pattern[0]) ==> segs[0] !in n.children)
      && (match Step(n, pattern[0]) case None => true case Some(child) => Unshadowed(child, segs[1..], pattern[1..]))
  }

  /** A registered pattern that matches and is not shadowed by a static child is found. */
  lemma {:induction false} UnshadowedIsFound(n: Node, segs: Segments, pattern: Segments)
    requires Tidy(n) && At(n, pattern).Some? && Matches(pattern, segs) && Unshadowed(n, segs, pattern)
    ensures Best(n, segs, pattern)
    decreases |segs|
  {
    if segs != [] {
      var child := Step(n, pattern[0]).value;
      assert pattern[0] == segs[0] || !IsStatic(pattern[0]);
      UnshadowedIsFound(child, segs[1..], pattern[1..]);
    }
  }

  // ---- Path parameters ----

  /** No later parameter of the pattern has the same name. */
  predicate LastOfItsName(pattern: Segments, i: nat)
    requires i < |pattern|
  {
    forall j :: i < j < |pattern| ==> pattern[j] != pattern[i]
  }

  lemma {:induction false} ParamsKept(n: Node, segs: Segments, pattern: Segments, params: Params, name: string)
    requires Tidy(n) && Best(n, segs, pattern) && ":" + name !in pattern
    ensures Find(n, segs, params).Some?
    ensures var found := Find(n, segs, params).value.params;
            (name in found <==> name in params) && (name in params ==> found[name] == params[name])
    decreases |segs|
  {
    if segs != [] {
      PreferredStep(n, segs[0]);
      var f := ChildOf(n, segs[0]).value;
      assert pattern == [pattern[0]] + pattern[1..];
      assert f.isParam ==> f.child.path == ":" + f.child.path[1..];
      ParamsKept(f.child, segs[1..], pattern[1..], Bind(params, f, segs[0]), name);
    }
  }

  /** A parameter gives back its request segment; of two with one name, the later one. */
  lemma {:induction false} ParamsGiveBackSegments(n: Node, segs: Segments, pattern: Segments, params: Params, i: nat)
    requires Tidy(n) && Best(n, segs, pattern) && i < |pattern| == |segs| && IsParam(pattern[i]) && LastOfItsName(pattern, i)
    ensures Find(n, segs, params).Some?
    ensures var found := Find(n, segs, params).value.params;
            pattern[i][1..] in found && found[pattern[i][1..]] == segs[i]
    decreases |segs|
  {
    PreferredStep(n, segs[0]);
    var f := ChildOf(n, segs[0]).value;
    var params' := Bind(params, f, segs[0]);
    if i == 0 {
      var name := pattern[0][1..];
      assert pattern[0] == ":" + name;
      ParamsKept(f.child, segs[1..], pattern[1..], params', name);
    } else {
      assert pattern[1..][i - 1] == pattern[i];
      assert LastOfItsName(pattern[1..], i - 1);
      ParamsGiveBackSegments(f.child, segs[1..], pattern[1..], params', i - 1);
    }
  }

  // ---- Static routes last ----

  ghost predicate AllStatic(segs: Segments) {
    forall i :: 0 <= i < |segs| ==> IsStatic(segs[i])
  }

  /** Whatever is registered later, and whether or not it succeeds, a static route keeps its handler and route. */
  lemma {:induction false} StaticRouteStays(n: Node, segs: Segments, r: Registration, other: Segments, route: string, h: Handler)
    requires AllStatic(segs) && Registered(n, segs) == Some(r)
    ensures Registered(Add(n, other, route, h).0, segs) == Some(r)
    decreases |other|
  {
    if other != [] && Blocked(n, other[0]).None? {
      if segs != [] && segs[0] == other[0] {
        StaticRouteStays(n.children[segs[0]], segs[1..], r, other[1..], route, h);
      }
    }
  }

  lemma {:induction false} StaticIsBest(n: Node, segs: Segments)
    requires AllStatic(segs) && At(n, segs).Some?
    ensures Best(n, segs, segs)
    decreases |segs|
  {
    if segs != [] {
      StaticIsBest(n.children[segs[0]], segs[1..]);
    }
  }

  datatype Request = Request(segs: Segments, route: string, handler: Handler)

  function AddAll(n: Node, requests: seq<Request>): Node
    decreases |requests|
  {
    if requests == [] then n
    else AddAll(Add(n, requests[0].segs, requests[0].route, requests[0].handler).0, requests[1..])
  }

  /** A static route is found with its own handler and route after any later registrations. */
  lemma {:induction false} StaticRouteIsFound(n: Node, segs: Segments, r: Registration, later: seq<Request>)
    requires Tidy(n) && AllStatic(segs) && Registered(n, segs) == Some(r)
    ensures var found := Find(AddAll(n, later), segs, map[]);
            found.Some? && found.value.node.handler == Some(r.handler) && found.value.node.route == r.route
            && found.value.params == map[]
    decreases |later|
  {
    if later == [] {
      StaticIsBest(n, segs);
      BestIsFound(n, segs, segs, map[]);
      NoParams(n, segs);
    } else {
      var q := later[0];
      StaticRouteStays(n, segs, r, q.segs, q.route, q.handler);
      AddKeepsTidy(n, q.segs, q.route, q.handler);
      StaticRouteIsFound(Add(n, q.segs, q.route, q.handler).0, segs, r, later[1..]);
    }
  }

  lemma {:induction false} NoParams(n: Node, segs: Segments)
    requires AllStatic(segs) && At(n, segs).Some?
    ensures Find(n, segs, map[]).Some? && Find(n, segs, map[]).value.params == map[]
    decreases |segs|
  {
    if segs != [] {
      NoParams(n.children[segs[0]], segs[1..]);
    }
  }

  /** A registration, also a failed one, registers nothing but what it was asked to. */
  lemma {:induction false} AddRegistersNothingElse(n: Node, segs: Segments, route: string, h: Handler, pattern: Segments)
    ensures var after := Registered(Add(n, segs, route, h).0, pattern);
            after == None || after == Registered(n, pattern) || (pattern == segs && after == Some(Registration(h, route)))
    decreases |segs|
  {
    if segs != [] && pattern != [] && Blocked(n, segs[0]).None? {
      var child := ChildFor(n, segs[0]);
      AddRegistersNothingElse(child, segs[1..], route, h, pattern[1..]);
      NewNodeIsEmpty(segs[0], pattern[1..]);
      AddKeepsPath(child, segs[1..], route, h);
      assert pattern == segs <==> pattern[0] == segs[0] && pattern[1..] == segs[1..];
    }
  }

  // ---- What a failed registration loses ----

  /** The walk got as far as the first wildcard and replaced its subtree before it panicked. */
  predicate Replaced(n: Node, segs: Segments) {
    FirstWild(segs) < |segs| && !Conflicts(n, segs) && "" !in segs[..FirstWild(segs)]
  }

  lemma ReplacedStep(n: Node, segs: Segments)
    requires segs != [] && IsStatic(segs[0])
    ensures segs[0] in n.children ==> (Replaced(n, segs) <==> segs[0] != "" && Replaced(n.children[segs[0]], segs[1..]))
    ensures segs[0] !in n.children ==>
              (Replaced(n, segs) <==> segs[0] != "" && Replaced(NewNode(segs[0]), segs[1..]))
  {
    var rest := segs[1..];
    var k := FirstWild(rest);
    if k < |rest| {
      assert segs[..k + 1] == [segs[0]] + rest[..k];
      assert segs[0] in n.children ==> At(n, segs[..k + 1]) == At(n.children[segs[0]], rest[..k]);
      assert segs[0] !in n.children ==> At(n, segs[..k + 1]) == None;
      NewNodeHasNoConflict(segs[0], rest);
    }
  }

  lemma NewNodeHasNoConflict(path: string, segs: Segments)
    ensures !Conflicts(NewNode(path), segs)
  {
    var k := FirstWild(segs);
    if k == 0 && segs != [] {
      assert segs[..k] == [];
    }
  }

  /**
    A registration that panics adds nothing, and takes away exactly the patterns through the wildcard
    subtree it had already replaced.
   */
  lemma {:induction false} FailedAddDenotes(n: Node, segs: Segments, route: string, h: Handler, pattern: Segments)
    requires Add(n, segs, route, h).1 != None
    ensures Registered(Add(n, segs, route, h).0, pattern)
         == if Replaced(n, segs) && Discarded(segs, pattern) then None else Registered(n, pattern)
    decreases |segs|
  {
    if segs != [] && Blocked(n, segs[0]).None? {
      var seg, rest, child := segs[0], segs[1..], ChildFor(n, segs[0]);
      AddKeepsPath(child, rest, route, h);
      if IsStatic(seg) {
        ReplacedStep(n, segs);
        DiscardedStep(segs, pattern);
      }
      if pattern != [] {
        FailedAddDenotes(child, rest, route, h, pattern[1..]);
        NewNodeIsEmpty(seg, pattern[1..]);
      }
    }
  }

  /** `/:id` is registered; registering `/:id//x` panics on the empty segment, and `/:id` is gone. */
  lemma FailedAddLosesRoute(h: Handler)
    ensures var before := Add(NewNode("/"), [":id"], "/:id", h).0;
            var (after, panic) := Add(before, [":id", "", "x"], "/:id//x", h);
            Registered(before, [":id"]) == Some(Registration(h, "/:id")) && panic == Some(EmptySegment)
            && Registered(after, [":id"]) == None
  {
    var before := Add(NewNode("/"), [":id"], "/:id", h).0;
    AddSucceedsIff(NewNode("/"), [":id"], "/:id", h);
    AddDenotes(NewNode("/"), [":id"], "/:id", h, [":id"]);
    var segs := [":id", "", "x"];
    assert segs[1..][0] == "" && Blocked(NewNode(":id"), "") == Some(EmptySegment);
    FailedAddDenotes(before, segs, "/:id//x", h, [":id"]);
    assert segs[..0] == [];
  }
}
