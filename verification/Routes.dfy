/** Which functions a request's path reaches, how discovery warns of functions that share a route or a name, and what is
    left of the path for the function. */
module Routes {
  import opened Options

  datatype Warning = SharedRoute(route: string, names: seq<string>) | DuplicateName(name: string, dirs: seq<string>)

  datatype Fn = Fn(name: string, dir: string, route: string, warnings: seq<Warning>)

  // ---------------------------------------------------------------------------------------------
  // matchRoute
  // ---------------------------------------------------------------------------------------------

  /** The path is the route, or lies under it at a segment boundary. */
  predicate Under(path: string, route: string) { path == route || route + "/" <= path }

  predicate Matches(f: Fn, path: string) { f.route != "" && Under(path, f.route) }

  /** The functions that have a key, in order. */
  function Group(fns: seq<Fn>, key: Fn -> string, k: string): seq<Fn> {
    if fns == [] then [] else
      var last := fns[|fns| - 1];
      Group(fns[..|fns| - 1], key, k) + if key(last) == k then [last] else []
  }

  function RouteOf(f: Fn): string { f.route }
  function NameOf(f: Fn): string { f.name }

  /** The longest of the routes that the path lies under, and all the functions that have it. */
  ghost predicate IsMatch(fns: seq<Fn>, path: string, best: seq<Fn>) {
    if best == [] then forall f :: f in fns ==> !Matches(f, path)
    else
      && best[0] in fns && Matches(best[0], path)
      && (forall f :: f in fns && Matches(f, path) ==> |f.route| <= |best[0].route|)
      && best == Group(fns, RouteOf, best[0].route)
  }

  method MatchRoute(fns: seq<Fn>, path: string) returns (best: seq<Fn>)
    ensures IsMatch(fns, path, best)
  {
    best := [];
    var bestLen := -1;
    for k := 0 to |fns|
      invariant IsMatch(fns[..k], path, best)
      invariant bestLen == if best == [] then -1 else |best[0].route|
    {
      var f := fns[k];
      MatchOneMore(fns[..k], path, best, f);
      assert fns[..k + 1] == fns[..k] + [f];
      if f.route == "" { continue; }
      if path != f.route && !(f.route + "/" <= path) { continue; }
      if |f.route| > bestLen {
        bestLen := |f.route|;
        best := [f];
      } else if |f.route| == bestLen {
        best := best + [f];
      }
    }
    assert fns[..|fns|] == fns;
  }

  /** Two routes of one length that a path lies under are one route. */
  lemma SameLengthSameRoute(path: string, a: string, b: string)
    requires Under(path, a) && Under(path, b) && |a| == |b|
    ensures a == b
  {
    assert a == path[..|a|] && b == path[..|b|];
  }

  lemma MatchOneMore(fns: seq<Fn>, path: string, best: seq<Fn>, f: Fn)
    requires IsMatch(fns, path, best)
    ensures IsMatch(fns + [f], path,
                    if !Matches(f, path) || (best != [] && |f.route| < |best[0].route|) then best
                    else if best == [] || |f.route| > |best[0].route| then [f]
                    else best + [f])
  {
    assert (fns + [f])[..|fns|] == fns;
    if Matches(f, path) && best != []
        && |f.route| == |best[0].route| { SameLengthSameRoute(path, f.route, best[0].route); }
    if best != [] && f.route == best[0].route { assert Matches(f, path); }
    if Matches(f, path) && (best == [] || |f.route| > |best[0].route|) { NoneWith(fns, f.route, path); }
  }

  lemma {:induction false} NoneWith(fns: seq<Fn>, route: string, path: string)
    requires route != "" && Under(path, route)
    requires forall f :: f in fns && Matches(f, path) ==> |f.route| < |route|
    ensures Group(fns, RouteOf, route) == []
  {
    if fns != [] {
      NoneWith(fns[..|fns| - 1], route, path);
      assert fns[|fns| - 1] in fns;
    }
  }

  // ---------------------------------------------------------------------------------------------
  // warnCollisions
  // ---------------------------------------------------------------------------------------------

  function DirOf(f: Fn): string { f.dir }

  /** One field of the functions that have a key, in order. */
  function Fields(fns: seq<Fn>, key: Fn -> string, k: string, field: Fn -> string): seq<string> {
    if fns == [] then [] else
      var last := fns[|fns| - 1];
      Fields(fns[..|fns| - 1], key, k, field) + if key(last) == k then [field(last)] else []
  }

  /** The message the members of a group get, if there are two or more of them. */
  function Messages(fns: seq<Fn>, key: Fn -> string, k: string, field: Fn -> string,
                    message: (string, seq<string>) -> Warning): seq<Warning> {
    var group := Fields(fns, key, k, field);
    if |group| < 2 then [] else [message(k, group)]
  }

  /** The indexes, of the first n, of the functions that have a key. */
  function Indexes(fns: seq<Fn>, key: Fn -> string, k: string, n: nat): (idxs: seq<nat>)
    requires n <= |fns|
    ensures forall j :: 0 <= j < |idxs| ==> idxs[j] < n && key(fns[idxs[j]]) == k
    ensures forall i, j :: 0 <= i < j < |idxs| ==> idxs[i] < idxs[j]
  {
    if n == 0 then [] else
      var front := Indexes(fns, key, k, n - 1);
      if key(fns[n - 1]) == k then front + [n - 1] else front
  }

  lemma {:induction false} IndexesHas(fns: seq<Fn>, key: Fn -> string, i: nat, n: nat)
    requires i < n <= |fns|
    ensures i in Indexes(fns, key, key(fns[i]), n)
  {
    if i < n - 1 { IndexesHas(fns, key, i, n - 1); }
  }

  lemma {:induction false} FieldsAtIndexes(fns: seq<Fn>, key: Fn -> string, k: string, field: Fn -> string, n: nat)
    requires n <= |fns|
    ensures var idxs := Indexes(fns, key, k, n);
            && |Fields(fns[..n], key, k, field)| == |idxs|
            && forall j :: 0 <= j < |idxs| ==> Fields(fns[..n], key, k, field)[j] == field(fns[idxs[j]])
  {
    if n > 0 {
      FieldsAtIndexes(fns, key, k, field, n - 1);
      assert fns[..n][..n - 1] == fns[..n - 1];
    }
  }

  function With(f: Fn, messages: seq<Warning>): Fn { f.(warnings := f.warnings + messages) }

  /** One of warnCollisions's two passes: indexes are grouped in a map by a key, and every member of a group of two or
      more gets the group's message. */
  method WarnGroups(functions: array<Fn>, key: Fn -> string, field: Fn -> string,
                    message: (string, seq<string>) -> Warning)
    modifies functions
    ensures forall i :: 0 <= i < functions.Length ==>
              var was, f := old(functions[..]), old(functions[i]);
              functions[i] == f.(warnings := f.warnings + Messages(was, key, key(f), field, message))
  {
    ghost var was := functions[..];
    var groups := GroupIndexes(functions, key);
    forall i | 0 <= i < |was| ensures key(was[i]) in groups { IndexesHas(was, key, i, |was|); }
    var rest := groups.Keys;
    while rest != {}
      invariant rest <= groups.Keys
      invariant forall i :: 0 <= i < functions.Length ==>
                  functions[i] == if key(was[i]) in rest then was[i]
                                  else With(was[i], Messages(was, key, key(was[i]), field, message))
      decreases rest
    {
      var k :| k in rest;
      forall i | 0 <= i < |was| ensures i in groups[k] <==> key(was[i]) == k { IndexesHas(was, key, i, |was|); }
      WarnGroup(functions, groups[k], k, field, message, key, was);
      rest := rest - {k};
    }
  }

  ghost predicate Grouped(groups: map<string, seq<nat>>, fns: seq<Fn>, key: Fn -> string, n: nat)
    requires n <= |fns|
  {
    forall k :: Indexes(fns, key, k, n) == if k in groups then groups[k] else []
  }

  lemma GroupedOneMore(groups: map<string, seq<nat>>, fns: seq<Fn>, key: Fn -> string, n: nat)
    requires n < |fns| && Grouped(groups, fns, key, n)
    ensures var k := key(fns[n]);
            Grouped(groups[k := (if k in groups then groups[k] else []) + [n]], fns, key, n + 1)
  {
  }

  method GroupIndexes(functions: array<Fn>, key: Fn -> string) returns (groups: map<string, seq<nat>>)
    ensures Grouped(groups, functions[..], key, functions.Length)
  {
    groups := map[];
    ghost var fns := functions[..];
    for i := 0 to functions.Length
      invariant Grouped(groups, fns, key, i)
    {
      GroupedOneMore(groups, fns, key, i);
      var k := key(functions[i]);
      groups := groups[k := (if k in groups then groups[k] else []) + [i]];
    }
  }

  method WarnGroup(functions: array<Fn>, idxs: seq<nat>, k: string, field: Fn -> string,
                   message: (string, seq<string>) -> Warning, ghost key: Fn -> string, ghost was: seq<Fn>)
    requires |was| == functions.Length && idxs == Indexes(was, key, k, |was|)
             && forall i :: i in idxs ==> functions[i] == was[i]
    modifies functions
    ensures forall i :: 0 <= i < functions.Length ==>
              functions[i] == if i in idxs then With(was[i], Messages(was, key, k, field, message)) else old(functions[i])
  {
    FieldsAtIndexes(was, key, k, field, |was|);
    assert was[..|was|] == was;
    if |idxs| < 2 { return; }
    var fields := [];
    for j := 0 to |idxs|
      invariant |fields| == j && forall i :: 0 <= i < j ==> fields[i] == field(was[idxs[i]])
    {
      assert idxs[j] in idxs;
      fields := fields + [field(functions[idxs[j]])];
    }
    assert fields == Fields(was, key, k, field);
    AddTo(functions, idxs, message(k, fields));
  }

  method AddTo(functions: array<Fn>, idxs: seq<nat>, msg: Warning)
    requires (forall i :: i in idxs ==> i < functions.Length) && forall i, j :: 0 <= i < j < |idxs| ==> idxs[i] < idxs[j]
    modifies functions
    ensures forall i :: 0 <= i < functions.Length ==>
              functions[i] == if i in idxs then With(old(functions[i]), [msg]) else old(functions[i])
  {
    for j := 0 to |idxs|
      invariant forall i :: 0 <= i < functions.Length ==>
                  functions[i] == if i in idxs[..j] then With(old(functions[i]), [msg]) else old(functions[i])
    {
      var idx := idxs[j];
      assert idx in idxs && idx !in idxs[..j];
      assert idxs[..j + 1] == idxs[..j] + [idx];
      functions[idx] := With(functions[idx], [msg]);
    }
    assert idxs[..|idxs|] == idxs;
  }

  /** warnCollisions: every function is warned of the others on its route, then of the others of its name. */
  method WarnCollisions(functions: array<Fn>)
    modifies functions
    ensures forall i :: 0 <= i < functions.Length ==>
              var was, f := old(functions[..]), old(functions[i]);
              functions[i] == f.(warnings := f.warnings + RouteMessages(was, f.route) + NameMessages(was, f.name))
  {
    ghost var was := functions[..];
    WarnGroups(functions, RouteOf, NameOf, (k, names) => SharedRoute(k, names));
    ghost var routed := functions[..];
    WarnGroups(functions, NameOf, DirOf, (k, dirs) => DuplicateName(k, dirs));
    forall i | 0 <= i < functions.Length
      ensures Fields(routed, NameOf, was[i].name, DirOf) == Fields(was, NameOf, was[i].name, DirOf)
    {
      SameFields(was, routed, NameOf, was[i].name, DirOf);
    }
  }

  function RouteMessages(fns: seq<Fn>, route: string): seq<Warning> {
    Messages(fns, RouteOf, route, NameOf, (k, names) => SharedRoute(k, names))
  }

  function NameMessages(fns: seq<Fn>, name: string): seq<Warning> {
    Messages(fns, NameOf, name, DirOf, (k, dirs) => DuplicateName(k, dirs))
  }

  /** A group is the functions that have the key, in order: the j-th is at the j-th of their indexes. */
  lemma {:induction false} GroupAtIndexes(fns: seq<Fn>, key: Fn -> string, k: string, n: nat)
    requires n <= |fns|
    ensures var idxs := Indexes(fns, key, k, n);
            && |Group(fns[..n], key, k)| == |idxs|
            && forall j :: 0 <= j < |idxs| ==> Group(fns[..n], key, k)[j] == fns[idxs[j]]
  {
    if n > 0 {
      GroupAtIndexes(fns, key, k, n - 1);
      assert fns[..n][..n - 1] == fns[..n - 1];
    }
  }

  /** There is a message for a function exactly if another shares its route, and it names all that do, in the order they
      are in: `routes` is where. The same for its name, and the directories of those that have it. */
  lemma MessagesNameAll(fns: seq<Fn>, i: nat)
    returns (routes: seq<nat>, sharing: seq<string>, names: seq<nat>, dirs: seq<string>)
    requires i < |fns|
    ensures AllWith(fns, routes, (f: Fn) => f.route, fns[i].route) && AllWith(fns, names, (f: Fn) => f.name, fns[i].name)
    ensures |sharing| == |routes| && forall j :: 0 <= j < |routes| ==> sharing[j] == fns[routes[j]].name
    ensures |dirs| == |names| && forall j :: 0 <= j < |names| ==> dirs[j] == fns[names[j]].dir
    ensures RouteMessages(fns, fns[i].route) == if |routes| < 2 then [] else [SharedRoute(fns[i].route, sharing)]
    ensures NameMessages(fns, fns[i].name) == if |names| < 2 then [] else [DuplicateName(fns[i].name, dirs)]
  {
    routes, names := Indexes(fns, RouteOf, fns[i].route, |fns|), Indexes(fns, NameOf, fns[i].name, |fns|);
    AllIndexes(fns, RouteOf, fns[i].route);
    AllIndexes(fns, NameOf, fns[i].name);
    FieldsAtIndexes(fns, RouteOf, fns[i].route, NameOf, |fns|);
    FieldsAtIndexes(fns, NameOf, fns[i].name, DirOf, |fns|);
    assert fns[..|fns|] == fns;
    sharing := Fields(fns, RouteOf, fns[i].route, NameOf);
    dirs := Fields(fns, NameOf, fns[i].name, DirOf);
  }

  /** These are the indexes of the functions that have a key, all of them, in order. */
  ghost predicate AllWith(fns: seq<Fn>, idxs: seq<nat>, key: Fn -> string, k: string) {
    && (forall i, j :: 0 <= i < j < |idxs| ==> idxs[i] < idxs[j])
    && (forall j :: 0 <= j < |idxs| ==> idxs[j] < |fns| && key(fns[idxs[j]]) == k)
    && (forall n: nat :: n < |fns| && key(fns[n]) == k ==> n in idxs)
  }

  lemma AllIndexes(fns: seq<Fn>, key: Fn -> string, k: string)
    ensures AllWith(fns, Indexes(fns, key, k, |fns|), key, k)
  {
    forall n: nat | n < |fns| && key(fns[n]) == k ensures n in Indexes(fns, key, k, |fns|) {
      IndexesHas(fns, key, n, |fns|);
    }
  }

  lemma {:induction false} SameFields(a: seq<Fn>, b: seq<Fn>, key: Fn -> string, k: string, field: Fn -> string)
    requires |a| == |b| && forall i :: 0 <= i < |a| ==> key(a[i]) == key(b[i]) && field(a[i]) == field(b[i])
    ensures Fields(a, key, k, field) == Fields(b, key, k, field)
  {
    if a != [] { SameFields(a[..|a| - 1], b[..|b| - 1], key, k, field); }
  }

  lemma {:induction false} FieldsOfGroup(fns: seq<Fn>, key: Fn -> string, k: string, field: Fn -> string)
    ensures |Fields(fns, key, k, field)| == |Group(fns, key, k)|
    ensures forall j :: 0 <= j < |Group(fns, key, k)| ==> Fields(fns, key, k, field)[j] == field(Group(fns, key, k)[j])
  {
    if fns != [] { FieldsOfGroup(fns[..|fns| - 1], key, k, field); }
  }

  /** The names writeCollision answers with. */
  function NamesOf(fns: seq<Fn>): (names: seq<string>)
    ensures |names| == |fns| && forall i :: 0 <= i < |fns| ==> names[i] == fns[i].name
  {
    if fns == [] then [] else NamesOf(fns[..|fns| - 1]) + [fns[|fns| - 1].name]
  }

  lemma {:induction false} InGroup(fns: seq<Fn>, key: Fn -> string, f: Fn)
    requires f in fns
    ensures f in Group(fns, key, key(f))
  {
    var n := |fns| - 1;
    assert fns == fns[..n] + [fns[n]];
    if f in fns[..n] { InGroup(fns[..n], key, f); }
  }

  /** A request for a function's own route reaches exactly the functions that discovery groups with it: there is a
      conflict to answer with exactly when there was one to warn of, and it names the same functions in the same order. */
  lemma RouterAgreesWithDiscovery(fns: seq<Fn>, f: Fn, best: seq<Fn>)
    requires f in fns && f.route != "" && IsMatch(fns, f.route, best)
    ensures best == Group(fns, RouteOf, f.route) && f in best
    ensures |best| > 1 <==> RouteMessages(fns, f.route) != []
    ensures |best| > 1 ==> RouteMessages(fns, f.route) == [SharedRoute(f.route, NamesOf(best))]
  {
    assert Matches(f, f.route);
    SameLengthSameRoute(f.route, f.route, best[0].route);
    FieldsOfGroup(fns, RouteOf, f.route, NameOf);
    InGroup(fns, RouteOf, f);
    assert Fields(fns, RouteOf, f.route, NameOf) == NamesOf(best);
  }

  // ---------------------------------------------------------------------------------------------
  // stripRoutePrefix
  // ---------------------------------------------------------------------------------------------

  function StripRoutePrefix(path: string, prefix: string): string {
    if prefix == "" || prefix == "/" then path
    else if path == prefix || path == prefix + "/" then "/"
    else if prefix + "/" <= path then "/" + path[|prefix| + 1..]
    else path
  }

  /** For a path that was matched by a route other than "/", the route and what is left of the path are the path again,
      but for the slash that a bare hit gains; and what is left starts with a slash. */
  lemma RouteAndRest(f: Fn, path: string)
    requires Matches(f, path) && f.route != "/"
    ensures var rest := StripRoutePrefix(path, f.route);
            && rest != "" && rest[0] == '/'
            && f.route + rest == (if path == f.route then path + "/" else path)
  {
    if path != f.route && path != f.route + "/" {
      assert path == path[..|f.route| + 1] + path[|f.route| + 1..];
    }
  }

  /** The route "/" is no catch-all: it matches only "/" itself and what starts with two slashes, and strips nothing. */
  lemma RootRoute(f: Fn, path: string)
    requires f.route == "/"
    ensures Matches(f, path) <==> path == "/" || "//" <= path
    ensures StripRoutePrefix(path, f.route) == path
  {
    assert f.route + "/" == "//";
  }
}
