/** Paths as the router takes them apart, and what holds of a router over any number of registrations. */
module RoutePaths {
  import opened Wrappers
  import opened RouteTree
  import opened Strings

  function TrimLeft(s: string): string {
    if s != "" && s[0] == '/' then TrimLeft(s[1..]) else s
  }

  function TrimRight(s: string): string {
    if s != "" && s[|s| - 1] == '/' then TrimRight(s[..|s| - 1]) else s
  }

  /** `strings.Trim(s, "/")` */
  function Trim(s: string): string {
    TrimRight(TrimLeft(s))
  }

  /** The pattern a registered path stands for. */
  function PatternOf(path: string): Segments {
    if path == "" || path == "/" then [] else Split(path[1..], '/')
  }

  /** The segments a request path is looked up by. */
  function RequestOf(path: string): Segments {
    if path == "/" then [] else Split(Trim(path), '/')
  }

  lemma {:induction false} SplitEnds(s: string)
    ensures Split(s, '/')[0] == "" <==> s == "" || s[0] == '/'
    ensures Split(s, '/')[|Split(s, '/')| - 1] == "" <==> s == "" || s[|s| - 1] == '/'
  {
    if s != "" {
      SplitEnds(s[1..]);
    }
  }

  /** A path without empty segments is looked up by the segments it was registered under. */
  lemma RequestOfRegistered(path: string)
    requires path != "" && path[0] == '/' && (path == "/" || "" !in PatternOf(path))
    ensures RequestOf(path) == PatternOf(path)
  {
    if path != "/" {
      var s := path[1..];
      SplitEnds(s);
      assert Split(s, '/')[0] in Split(s, '/') && Split(s, '/')[|Split(s, '/')| - 1] in Split(s, '/');
      assert TrimLeft(path) == TrimLeft(s) == s;
    }
  }

  // ---- The router ----

  type Trees = map<string, Node>

  /** `addRoute`; the method's tree is made before the path is looked at. */
  function Register(trees: Trees, verb: string, path: string, h: Handler): (Trees, Option<Panic>) {
    if path == "" then (trees, Some(EmptyPath))
    else
      var root := if verb in trees then trees[verb] else NewNode("/");
      if path[0] != '/' then (trees[verb := root], Some(NoLeadingSlash))
      else if path != "/" && path[|path| - 1] == '/' then (trees[verb := root], Some(TrailingSlash))
      else
        var (tree, panic) := Add(root, PatternOf(path), path, h);
        (trees[verb := tree], panic)
  }

  /** `findRoute` */
  function Lookup(trees: Trees, verb: string, path: string): Option<Match> {
    if verb !in trees then None else Find(trees[verb], RequestOf(path), map[])
  }

  datatype Route = Route(verb: string, path: string, handler: Handler)

  function RegisterAll(trees: Trees, routes: seq<Route>): Trees
    decreases |routes|
  {
    if routes == [] then trees
    else RegisterAll(Register(trees, routes[0].verb, routes[0].path, routes[0].handler).0, routes[1..])
  }

  /** Every tree in shape, and every handler under the pattern its own route stands for. */
  ghost predicate Sound(trees: Trees) {
    forall m :: m in trees ==> SoundTree(trees[m])
  }

  ghost predicate SoundTree(n: Node) {
    Tidy(n) && forall p :: OwnRoute(n, p)
  }

  ghost predicate OwnRoute(n: Node, pattern: Segments) {
    Registered(n, pattern).Some? ==> PatternOf(Registered(n, pattern).value.route) == pattern
  }

  lemma NewNodeIsSound(path: string)
    ensures SoundTree(NewNode(path))
  {
    forall p
      ensures OwnRoute(NewNode(path), p)
    {
      NewNodeIsEmpty(path, p);
    }
  }

  lemma AddKeepsSound(n: Node, path: string, h: Handler)
    requires SoundTree(n)
    ensures SoundTree(Add(n, PatternOf(path), path, h).0)
  {
    var segs := PatternOf(path);
    AddKeepsTidy(n, segs, path, h);
    forall p
      ensures OwnRoute(Add(n, segs, path, h).0, p)
    {
      AddRegistersNothingElse(n, segs, path, h, p);
      assert OwnRoute(n, p);
    }
  }

  lemma RegisterKeepsSound(trees: Trees, r: Route)
    requires Sound(trees)
    ensures Sound(Register(trees, r.verb, r.path, r.handler).0)
  {
    NewNodeIsSound("/");
    AddKeepsSound(if r.verb in trees then trees[r.verb] else NewNode("/"), r.path, r.handler);
  }

  lemma {:induction false} AllKeepSound(trees: Trees, routes: seq<Route>)
    requires Sound(trees)
    ensures Sound(RegisterAll(trees, routes))
    decreases |routes|
  {
    if routes != [] {
      RegisterKeepsSound(trees, routes[0]);
      AllKeepSound(Register(trees, routes[0].verb, routes[0].path, routes[0].handler).0, routes[1..]);
    }
  }

  /**
    In every router, a request that reaches a handler reaches one whose own route matches the request
    segment by segment and takes the static, param or star branch in that order at each step.
   */
  lemma RequestFindsItsRoute(routes: seq<Route>, verb: string, path: string)
    requires var found := Lookup(RegisterAll(map[], routes), verb, path);
             found.Some? && found.value.node.handler.Some?
    ensures var trees := RegisterAll(map[], routes);
            var pattern := PatternOf(Lookup(trees, verb, path).value.node.route);
            Matches(pattern, RequestOf(path)) && Best(trees[verb], RequestOf(path), pattern)
  {
    var trees := RegisterAll(map[], routes);
    AllKeepSound(map[], routes);
    var pattern := FoundIsBest(trees[verb], RequestOf(path), map[]);
    assert SoundTree(trees[verb]) && OwnRoute(trees[verb], pattern);
  }

  lemma RegisterKeepsStatic(trees: Trees, verb: string, segs: Segments, r: Registration, q: Route)
    requires verb in trees && AllStatic(segs) && Registered(trees[verb], segs) == Some(r)
    ensures var after := Register(trees, q.verb, q.path, q.handler).0;
            verb in after && Registered(after[verb], segs) == Some(r)
  {
    StaticRouteStays(trees[verb], segs, r, PatternOf(q.path), q.path, q.handler);
  }

  lemma {:induction false} AllKeepStatic(trees: Trees, verb: string, segs: Segments, r: Registration, later: seq<Route>)
    requires verb in trees && AllStatic(segs) && Registered(trees[verb], segs) == Some(r)
    ensures var after := RegisterAll(trees, later);
            verb in after && Registered(after[verb], segs) == Some(r)
    decreases |later|
  {
    if later != [] {
      var q := later[0];
      RegisterKeepsStatic(trees, verb, segs, r, q);
      AllKeepStatic(Register(trees, q.verb, q.path, q.handler).0, verb, segs, r, later[1..]);
    }
  }

  /** A static path that was registered is found, with its own handler and route, after any later registrations. */
  lemma StaticRouteSurvives(before: seq<Route>, r: Route, later: seq<Route>)
    requires AllStatic(PatternOf(r.path))
    requires Register(RegisterAll(map[], before), r.verb, r.path, r.handler).1 == None
    ensures var trees := Register(RegisterAll(map[], before), r.verb, r.path, r.handler).0;
            var found := Lookup(RegisterAll(trees, later), r.verb, r.path);
            found.Some? && found.value.node.handler == Some(r.handler) && found.value.node.route == r.path
            && found.value.params == map[]
  {
    var trees0 := RegisterAll(map[], before);
    var root := if r.verb in trees0 then trees0[r.verb] else NewNode("/");
    var segs := PatternOf(r.path);
    var trees := Register(trees0, r.verb, r.path, r.handler).0;
    AddSucceedsIff(root, segs, r.path, r.handler);
    AddDenotes(root, segs, r.path, r.handler, segs);
    AllKeepStatic(trees, r.verb, segs, Registration(r.handler, r.path), later);
    AllKeepSound(map[], before);
    RegisterKeepsSound(trees0, r);
    AllKeepSound(trees, later);
    RequestOfRegistered(r.path);
    var end := RegisterAll(trees, later);
    StaticRouteIsFound(end[r.verb], segs, Registration(r.handler, r.path), []);
  }

  // ---- Paths, written out ----

  /** A pattern is the text between the slashes. */
  lemma PatternOfJoin(segs: Segments)
    requires segs != [] && segs != [""] && forall i :: 0 <= i < |segs| ==> '/' !in segs[i]
    ensures PatternOf("/" + Join(segs, '/')) == segs
  {
    var path := "/" + Join(segs, '/');
    assert path[1..] == Join(segs, '/');
    SplitOfJoin(segs, '/');
  }

  function Slashes(n: nat): string {
    if n == 0 then "" else "/" + Slashes(n - 1)
  }

  lemma {:induction false} SlashesLast(n: nat)
    requires n > 0
    ensures Slashes(n) == Slashes(n - 1) + "/"
  {
    if n > 1 {
      SlashesLast(n - 1);
    }
  }

  lemma {:induction false} TrimLeftSlashes(n: nat, s: string)
    requires s == "" || s[0] != '/'
    ensures TrimLeft(Slashes(n) + s) == s
  {
    if n == 0 {
      assert Slashes(n) + s == s;
    } else {
      TrimLeftSlashes(n - 1, s);
      assert (Slashes(n) + s)[1..] == Slashes(n - 1) + s;
    }
  }

  lemma {:induction false} TrimRightSlashes(n: nat, s: string)
    requires s == "" || s[|s| - 1] != '/'
    ensures TrimRight(s + Slashes(n)) == s
  {
    if n == 0 {
      assert s + Slashes(n) == s;
    } else {
      SlashesLast(n);
      TrimRightSlashes(n - 1, s);
      var t := s + Slashes(n);
      assert t[|t| - 1] == '/' && t[..|t| - 1] == s + Slashes(n - 1);
    }
  }

  /** Slashes before and behind a request path make no difference. */
  lemma OuterSlashesDoNotCount(core: string, before: nat, behind: nat)
    requires core != "" && core[0] != '/' && core[|core| - 1] != '/'
    ensures RequestOf(Slashes(before) + core + Slashes(behind)) == Split(core, '/')
  {
    var path := Slashes(before) + core + Slashes(behind);
    assert path == Slashes(before) + (core + Slashes(behind));
    TrimLeftSlashes(before, core + Slashes(behind));
    TrimRightSlashes(behind, core);
    assert path[before..] == core + Slashes(behind) by {
      SlashesLength(before);
    }
    assert core[0] == path[before];
  }

  lemma {:induction false} SlashesLength(n: nat)
    ensures |Slashes(n)| == n
  {
    if n > 0 {
      SlashesLength(n - 1);
    }
  }

  // ---- Registering a path ----

  function RootOf(trees: Trees, verb: string): Node {
    if verb in trees then trees[verb] else NewNode("/")
  }

  /** Exactly which paths can be registered, wildcards included; another verb's tree is never touched. */
  lemma RegisterSucceedsIff(trees: Trees, verb: string, path: string, h: Handler)
    ensures Register(trees, verb, path, h).1 == None
       <==> && path != "" && path[0] == '/' && (path != "/" ==> path[|path| - 1] != '/') && "" !in PatternOf(path)
            && !Conflicts(RootOf(trees, verb), PatternOf(path))
            && (AllStatic(PatternOf(path)) ==> Registered(RootOf(trees, verb), PatternOf(path)) == None)
    ensures forall v :: v != verb ==>
              var after := Register(trees, verb, path, h).0;
              (v in after <==> v in trees) && (v in trees ==> after[v] == trees[v])
  {
    AddSucceedsIff(RootOf(trees, verb), PatternOf(path), path, h);
    AllStaticIff(PatternOf(path));
  }

  lemma {:induction false} AllStaticIff(segs: Segments)
    ensures FirstWild(segs) == |segs| <==> AllStatic(segs)
  {
    if segs != [] {
      AllStaticIff(segs[1..]);
      assert segs == [segs[0]] + segs[1..];
    }
  }

  /** The checks of a path, in their order. */
  lemma RegisterPanics(trees: Trees, verb: string, path: string, h: Handler)
    ensures var panic := Register(trees, verb, path, h).1;
            && (panic == Some(EmptyPath) <==> path == "")
            && (path != "" && path[0] != '/' ==> panic == Some(NoLeadingSlash))
            && (path != "" && path[0] == '/' && path != "/" && path[|path| - 1] == '/' ==> panic == Some(TrailingSlash))
  {
    AddNeverSaysEmptyPath(RootOf(trees, verb), PatternOf(path), path, h);
  }

  lemma {:induction false} AddNeverSaysEmptyPath(n: Node, segs: Segments, route: string, h: Handler)
    ensures Add(n, segs, route, h).1 != Some(EmptyPath)
    decreases |segs|
  {
    if segs != [] {
      AddNeverSaysEmptyPath(ChildFor(n, segs[0]), segs[1..], route, h);
    }
  }

  /**
    A path just registered, wildcards or not, is found by every request it matches and no static child
    stands in the way of, with its own handler and route, and its parameters give back their segments.
   */
  lemma RegisteredPathIsFound(trees: Trees, r: Route, path: string)
    requires Sound(trees) && Register(trees, r.verb, r.path, r.handler).1 == None
    requires Matches(PatternOf(r.path), RequestOf(path))
    requires Unshadowed(Register(trees, r.verb, r.path, r.handler).0[r.verb], RequestOf(path), PatternOf(r.path))
    ensures var found := Lookup(Register(trees, r.verb, r.path, r.handler).0, r.verb, path);
            && found.Some? && found.value.node.handler == Some(r.handler) && found.value.node.route == r.path
            && forall i :: 0 <= i < |PatternOf(r.path)| && IsParam(PatternOf(r.path)[i]) && LastOfItsName(PatternOf(r.path), i) ==>
                 var name := PatternOf(r.path)[i][1..];
                 name in found.value.params && found.value.params[name] == RequestOf(path)[i]
  {
    var root, segs := RootOf(trees, r.verb), PatternOf(r.path);
    var after := Register(trees, r.verb, r.path, r.handler).0[r.verb];
    NewNodeIsSound("/");
    RegisterKeepsSound(trees, r);
    assert SoundTree(after);
    RegisterSucceedsIff(trees, r.verb, r.path, r.handler);
    AddDenotes(root, segs, r.path, r.handler, segs);
    UnshadowedIsFound(after, RequestOf(path), segs);
    BestIsFound(after, RequestOf(path), segs, map[]);
    forall i | 0 <= i < |segs| && IsParam(segs[i]) && LastOfItsName(segs, i)
      ensures var found := Find(after, RequestOf(path), map[]).value.params;
              segs[i][1..] in found && found[segs[i][1..]] == RequestOf(path)[i]
    {
      ParamsGiveBackSegments(after, RequestOf(path), segs, map[], i);
    }
  }
}
