/**
Content-addressed image tags.  The tag of an image is computed from its Dockerfile, its extra
arguments and the tags of the images it depends on; the builder memoises the tags.

The hash and the layout of a tag are parameters.  A topological order is what the library sorter
promises: every dependency comes before the images that depend on it.
*/
module Tags {
  import opened Options

  type Name = string

  // A dependency: the build argument that receives its tag, and the image.
  datatype Dep = Dep(arg: string, image: Name)

  // `dockerfile` is what the search paths hold for the image, `extras` its other build arguments.
  datatype Image = Image(deps: seq<Dep>, dockerfile: Option<string>, extras: seq<string>)

  type Configs = map<Name, Image>

  datatype Naming = Naming(sha: string -> string, tag: (Name, string) -> string)

  function DepNames(image: Image): set<Name> {
    set d | d in image.deps :: d.image
  }

  // ---------------------------------------------------------------- the dependency subgraph

  // A path along dependencies.
  ghost predicate Path(c: Configs, p: seq<Name>) {
    |p| > 0 && forall i | 0 <= i < |p| - 1 :: p[i] in c && p[i + 1] in DepNames(c[p[i]])
  }

  ghost predicate Reaches(c: Configs, from: Name, to: Name) {
    exists p :: Path(c, p) && p[0] == from && p[|p| - 1] == to
  }

  ghost predicate Reachable(c: Configs, targets: set<Name>, n: Name) {
    exists t :: t in targets && Reaches(c, t, n)
  }

  lemma {:induction false} ReachesItself(c: Configs, n: Name)
    ensures Reaches(c, n, n)
  {
    assert Path(c, [n]) && [n][0] == n;
  }

  lemma {:induction false} ReachesOn(c: Configs, from: Name, mid: Name, to: Name)
    requires Reaches(c, from, mid) && mid in c && to in DepNames(c[mid])
    ensures Reaches(c, from, to)
  {
    var p :| Path(c, p) && p[0] == from && p[|p| - 1] == mid;
    var q := p + [to];
    assert Path(c, q) && q[0] == from && q[|q| - 1] == to;
  }

  // A set that contains the start of a path and is closed contains its end.
  lemma {:induction false} PathStays(c: Configs, p: seq<Name>, closed: set<Name>)
    requires Path(c, p) && p[0] in closed
    requires forall n | n in closed && n in c :: DepNames(c[n]) <= closed
    ensures p[|p| - 1] in closed
    decreases |p|
  {
    if |p| > 1 {
      assert p[0 + 1] in DepNames(c[p[0]]);
      assert forall i | 0 <= i < |p[1..]| :: p[1..][i] == p[i + 1];
      PathStays(c, p[1..], closed);
    }
  }

  lemma {:induction false} ReachableStays(c: Configs, targets: set<Name>, n: Name, closed: set<Name>)
    requires Reachable(c, targets, n) && targets <= closed
    requires forall m | m in closed && m in c :: DepNames(c[m]) <= closed
    ensures n in closed
  {
    var t :| t in targets && Reaches(c, t, n);
    var p :| Path(c, p) && p[0] == t && p[|p| - 1] == n;
    PathStays(c, p, closed);
  }

  // Everything a configuration mentions.
  function Universe(c: Configs): set<Name> {
    c.Keys + set n, d | n in c && d in DepNames(c[n]) :: d
  }

  // The worklist: what is visited or noted is reachable, and nothing else is missing than what the
  // noted images lead to.
  ghost predicate Working(c: Configs, targets: set<Name>, visited: set<Name>, toVisit: set<Name>) {
    && (forall n | n in visited + toVisit :: Reachable(c, targets, n))
    && targets <= visited + toVisit <= targets + Universe(c)
    && (forall n | n in visited && n in c :: DepNames(c[n]) <= visited + toVisit)
  }

  // What a visit of the image adds to the worklist.
  function Noted(c: Configs, n: Name): set<Name> {
    if n in c then DepNames(c[n]) else {}
  }

  lemma {:induction false} VisitKeeps(c: Configs, targets: set<Name>, visited: set<Name>, toVisit: set<Name>, n: Name)
    requires Working(c, targets, visited, toVisit) && n in toVisit
    ensures Working(c, targets, visited + {n}, toVisit - {n} + Noted(c, n))
    ensures n in targets + Universe(c)
  {
    hide Reachable;
    if n in c {
      ExtendReach(c, targets, n);
      assert DepNames(c[n]) <= Universe(c);
    }
    var visited', toVisit' := visited + {n}, toVisit - {n} + Noted(c, n);
    assert visited' + toVisit' == visited + toVisit + Noted(c, n);
    forall m | m in visited' && m in c ensures DepNames(c[m]) <= visited' + toVisit' { }
  }

  // An empty worklist: everything reachable has been visited.
  lemma {:induction false} VisitedAll(c: Configs, targets: set<Name>, visited: set<Name>)
    requires Working(c, targets, visited, {})
    ensures forall n :: n in visited <==> Reachable(c, targets, n)
  {
    assert visited + {} == visited;
    assert forall n | n in visited :: Reachable(c, targets, n);
    assert forall n | n in visited && n in c :: DepNames(c[n]) <= visited;
    hide Working, Reachable;
    forall n | Reachable(c, targets, n) ensures n in visited {
      ReachableStays(c, targets, n, visited);
    }
  }

  lemma {:induction false} WorkBegins(c: Configs, targets: set<Name>)
    ensures Working(c, targets, {}, targets)
  {
    forall t | t in targets ensures Reachable(c, targets, t) { ReachesItself(c, t); }
  }

  lemma {:induction false} SkipKeeps(c: Configs, targets: set<Name>, visited: set<Name>, toVisit: set<Name>, n: Name)
    requires Working(c, targets, visited, toVisit) && n in visited && n in toVisit
    ensures Working(c, targets, visited, toVisit - {n})
  {
    hide Reachable;
    assert visited + (toVisit - {n}) == visited + toVisit;
  }

  /** The worklist visits exactly what the targets depend on, directly or not. */
  method DependencySubgraph(targets: set<Name>, c: Configs) returns (visited: set<Name>)
    ensures forall n :: n in visited <==> Reachable(c, targets, n)
  {
    hide Working, Universe, Reachable;
    var toVisit := targets;
    visited := {};
    WorkBegins(c, targets);
    ghost var all := targets + Universe(c);
    while toVisit != {}
      invariant Working(c, targets, visited, toVisit)
      decreases all - visited, toVisit
    {
      var current :| current in toVisit;
      if current in visited {
        SkipKeeps(c, targets, visited, toVisit, current);
        toVisit := toVisit - {current};
      } else {
        VisitKeeps(c, targets, visited, toVisit, current);
        visited, toVisit := visited + {current}, toVisit - {current} + Noted(c, current);
      }
    }
    VisitedAll(c, targets, visited);
  }

  lemma {:induction false} ExtendReach(c: Configs, targets: set<Name>, mid: Name)
    requires Reachable(c, targets, mid) && mid in c
    ensures forall d | d in DepNames(c[mid]) :: Reachable(c, targets, d)
  {
    var t :| t in targets && Reaches(c, t, mid);
    forall d | d in DepNames(c[mid]) ensures Reachable(c, targets, d) {
      ReachesOn(c, t, mid, d);
    }
  }

  // ---------------------------------------------------------------- sorted arguments

  // Strings in the order of their characters.
  predicate Le(a: string, b: string) {
    a == [] || (b != [] && (a[0] < b[0] || (a[0] == b[0] && Le(a[1..], b[1..]))))
  }

  lemma {:induction false} LeTotal(a: string, b: string)
    ensures Le(a, b) || Le(b, a)
    ensures Le(a, b) && Le(b, a) ==> a == b
  {
    if a != [] && b != [] {
      LeTotal(a[1..], b[1..]);
      assert a == [a[0]] + a[1..] && b == [b[0]] + b[1..];
    }
  }

  lemma {:induction false} LeTransitive(a: string, b: string, c: string)
    requires Le(a, b) && Le(b, c)
    ensures Le(a, c)
  {
    if a != [] && a[0] == b[0] == c[0] {
      LeTransitive(a[1..], b[1..], c[1..]);
    }
  }

  lemma {:induction false} BagWithout<T>(s: seq<T>, i: nat)
    requires i < |s|
    ensures multiset(s) == multiset{s[i]} + multiset(s[..i] + s[i + 1..])
    ensures i == 0 ==> s[..i] + s[i + 1..] == s[1..]
  {
    assert s == s[..i] + [s[i]] + s[i + 1..];
  }

  lemma {:induction false} BagCancel<T>(x: T, a: multiset<T>, b: multiset<T>)
    requires multiset{x} + a == multiset{x} + b
    ensures a == b
  {
    assert a == multiset{x} + a - multiset{x};
    assert b == multiset{x} + b - multiset{x};
  }

  // Not after any of them.
  ghost predicate Least(x: string, s: seq<string>) {
    forall y | y in s :: Le(x, y)
  }

  ghost predicate InOrder(s: seq<string>) {
    s == [] || (Least(s[0], s[1..]) && InOrder(s[1..]))
  }

  function Insert(x: string, s: seq<string>): seq<string> {
    if s == [] || Le(x, s[0]) then [x] + s else [s[0]] + Insert(x, s[1..])
  }

  function Sorted(s: seq<string>): seq<string> {
    if s == [] then [] else Insert(s[0], Sorted(s[1..]))
  }

  lemma {:induction false} InsertSorts(x: string, s: seq<string>)
    requires InOrder(s)
    ensures InOrder(Insert(x, s)) && multiset(Insert(x, s)) == multiset{x} + multiset(s)
  {
    if s != [] {
      assert s == [s[0]] + s[1..];
      LeTotal(x, s[0]);
      if Le(x, s[0]) {
        assert ([x] + s)[1..] == s;
        forall y | y in s ensures Le(x, y) {
          if y != s[0] { LeTransitive(x, s[0], y); }
        }
      } else {
        InsertSorts(x, s[1..]);
        var t := Insert(x, s[1..]);
        assert ([s[0]] + t)[1..] == t;
        forall y | y in t ensures Le(s[0], y) {
          assert y in multiset(t);
        }
      }
    }
  }

  lemma {:induction false} SortedSorts(s: seq<string>)
    ensures InOrder(Sorted(s)) && multiset(Sorted(s)) == multiset(s)
  {
    if s != [] {
      SortedSorts(s[1..]);
      InsertSorts(s[0], Sorted(s[1..]));
      assert s == [s[0]] + s[1..];
    }
  }

  lemma {:induction false} SameFirst(s: seq<string>, t: seq<string>)
    requires InOrder(s) && InOrder(t) && multiset(s) == multiset(t) && s != [] && t != []
    ensures s[0] == t[0]
  {
    assert s[0] in multiset(t) && t[0] in multiset(s);
    FirstIsLeast(s, t[0]);
    FirstIsLeast(t, s[0]);
    LeTotal(s[0], t[0]);
  }

  // There is one way to put a bag of strings in order.
  lemma {:induction false} OrderIsUnique(s: seq<string>, t: seq<string>)
    requires InOrder(s) && InOrder(t) && multiset(s) == multiset(t)
    ensures s == t
  {
    assert |multiset(s)| == |s| && |multiset(t)| == |t|;
    if s != [] {
      SameFirst(s, t);
      BagWithout(s, 0);
      BagWithout(t, 0);
      BagCancel(s[0], multiset(s[1..]), multiset(t[1..]));
      OrderIsUnique(s[1..], t[1..]);
      assert s == [s[0]] + s[1..] && t == [t[0]] + t[1..];
    }
  }

  lemma {:induction false} FirstIsLeast(s: seq<string>, y: string)
    requires InOrder(s) && y in s
    ensures Le(s[0], y)
  {
    LeTotal(s[0], s[0]);
    assert s == [s[0]] + s[1..];
  }

  /** Sorting forgets the order in which the arguments were collected, and nothing else. */
  lemma {:induction false} SortedIff(s: seq<string>, t: seq<string>)
    ensures Sorted(s) == Sorted(t) <==> multiset(s) == multiset(t)
  {
    SortedSorts(s);
    SortedSorts(t);
    if multiset(s) == multiset(t) {
      OrderIsUnique(Sorted(s), Sorted(t));
    }
  }

  // ---------------------------------------------------------------- the tag of an image

  // Dependencies come first.
  ghost predicate Ordered(c: Configs, order: seq<Name>) {
    forall i | 0 <= i < |order| && order[i] in c :: forall d | d in c[order[i]].deps :: d.image in order[..i]
  }

  // The part of the graph that is sorted: the visited images that are configured.
  function Subgraph(c: Configs, visited: set<Name>): map<Name, set<Name>> {
    map n | n in visited && n in c :: DepNames(c[n])
  }

  // What a topological sorter promises: every node that the graph mentions, dependencies first.
  ghost predicate Topological(graph: map<Name, set<Name>>, order: seq<Name>) {
    && (forall n :: n in order <==> n in graph || exists m :: m in graph && n in graph[m])
    && (forall i, d | 0 <= i < |order| && order[i] in graph && d in graph[order[i]] :: d in order[..i])
  }

  /** The sorted subgraph is an order in which tags can be computed.  It holds exactly what the
      targets depend on; a target that is not configured and that nothing depends on is left out. */
  lemma {:induction false} SubgraphOrdered(c: Configs, targets: set<Name>, visited: set<Name>, order: seq<Name>)
    requires forall n :: n in visited <==> Reachable(c, targets, n)
    requires Topological(Subgraph(c, visited), order)
    ensures Ordered(c, order)
    ensures forall n :: n in order <==>
              Reachable(c, targets, n) && (n in c || exists m :: m in visited && m in c && n in DepNames(c[m]))
  {
    var graph := Subgraph(c, visited);
    forall n, m | m in graph && n in graph[m] ensures Reachable(c, targets, n) {
      ExtendReach(c, targets, m);
    }
    hide Reachable;
    forall i, d | 0 <= i < |order| && order[i] in c && d in c[order[i]].deps ensures d.image in order[..i] {
      assert order[i] in order;
      assert d.image in DepNames(c[order[i]]);
    }
    forall n | Reachable(c, targets, n) && exists m :: m in visited && m in c && n in DepNames(c[m])
      ensures n in order
    {
      var m :| m in visited && m in c && n in DepNames(c[m]);
      assert m in graph && n in graph[m];
    }
  }

  function Position(order: seq<Name>, n: Name): (i: nat)
    requires n in order
    ensures i < |order| && order[i] == n && n !in order[..i]
  {
    if order[0] == n then 0
    else
      var i := Position(order[1..], n);
      assert order[..i + 1] == [order[0]] + order[1..][..i];
      i + 1
  }

  lemma {:induction false} DependenciesEarlier(c: Configs, order: seq<Name>, n: Name, d: Dep)
    requires Ordered(c, order) && n in order && n in c && d in c[n].deps
    ensures d.image in order && Position(order, d.image) < Position(order, n)
  {
    var i := Position(order, n);
    assert d.image in order[..i];
    var j :| 0 <= j < i && order[j] == d.image;
    var k := Position(order, d.image);
    assert forall m | 0 <= m < k :: order[m] == order[..k][m];
  }

  /** The tag by plain recursion over the dependencies; none if an image is not configured or its
      Dockerfile is missing. */
  ghost function Tag(naming: Naming, c: Configs, order: seq<Name>, n: Name): Option<string>
    requires Ordered(c, order) && n in order
    decreases Position(order, n), 1, 0
  {
    if n !in c || c[n].dockerfile.None? then None
    else
      match Args(naming, c, order, n, c[n].deps)
      case None => None
      case Some(args) => Some(TagOf(naming, n, c[n], args))
  }

  function TagOf(naming: Naming, n: Name, image: Image, args: seq<string>): string
    requires image.dockerfile.Some?
  {
    naming.tag(n, naming.sha(Flat([image.dockerfile.value] + Sorted(args + image.extras))))
  }

  // What the hash is fed: the pieces one after the other, with nothing in between.
  function Flat(pieces: seq<string>): string {
    if pieces == [] then "" else pieces[0] + Flat(pieces[1..])
  }

  function Arg(d: Dep, tag: string): string {
    d.arg + "=" + tag
  }

  // One argument for each of the dependencies, with its tag.
  ghost function Args(naming: Naming, c: Configs, order: seq<Name>, n: Name, deps: seq<Dep>): Option<seq<string>>
    requires Ordered(c, order) && n in order && n in c && forall d | d in deps :: d in c[n].deps
    decreases Position(order, n), 0, |deps|
  {
    if deps == [] then Some([])
    else
      assert deps[0] in deps;
      DependenciesEarlier(c, order, n, deps[0]);
      match Tag(naming, c, order, deps[0].image)
      case None => None
      case Some(tag) =>
        match Args(naming, c, order, n, deps[1..])
        case None => None
        case Some(args) => Some([Arg(deps[0], tag)] + args)
  }

  /** A tag is the same in every order in which the images can be processed. */
  lemma {:induction false} TagIgnoresOrder(naming: Naming, c: Configs, o1: seq<Name>, o2: seq<Name>, n: Name)
    requires Ordered(c, o1) && Ordered(c, o2) && n in o1 && n in o2
    ensures Tag(naming, c, o1, n) == Tag(naming, c, o2, n)
    decreases Position(o1, n), 1, 0
  {
    if n in c {
      ArgsIgnoreOrder(naming, c, o1, o2, n, c[n].deps);
    }
  }

  lemma {:induction false} ArgsIgnoreOrder(
    naming: Naming, c: Configs, o1: seq<Name>, o2: seq<Name>, n: Name, deps: seq<Dep>)
    requires Ordered(c, o1) && Ordered(c, o2) && n in o1 && n in o2
    requires n in c && forall d | d in deps :: d in c[n].deps
    ensures Args(naming, c, o1, n, deps) == Args(naming, c, o2, n, deps)
    decreases Position(o1, n), 0, |deps|
  {
    if deps != [] {
      assert deps[0] in deps;
      DependenciesEarlier(c, o1, n, deps[0]);
      DependenciesEarlier(c, o2, n, deps[0]);
      TagIgnoresOrder(naming, c, o1, o2, deps[0].image);
      ArgsIgnoreOrder(naming, c, o1, o2, n, deps[1..]);
    }
  }

  // ---------------------------------------------------------------- when there is a tag

  ghost predicate Defined(c: Configs, n: Name) {
    n in c && c[n].dockerfile.Some?
  }

  ghost predicate Buildable(c: Configs, n: Name) {
    forall m | Reaches(c, n, m) :: Defined(c, m)
  }

  lemma {:induction false} ReachesFrom(c: Configs, n: Name, d: Name, m: Name)
    requires n in c && d in DepNames(c[n]) && Reaches(c, d, m)
    ensures Reaches(c, n, m)
  {
    var p :| Path(c, p) && p[0] == d && p[|p| - 1] == m;
    var q := [n] + p;
    assert Path(c, q) && q[0] == n && q[|q| - 1] == m;
  }

  lemma {:induction false} BuildableIff(c: Configs, n: Name)
    ensures Buildable(c, n) <==> Defined(c, n) && forall d | d in c[n].deps :: Buildable(c, d.image)
  {
    if Buildable(c, n) {
      ReachesItself(c, n);
      forall d, m | d in c[n].deps && Reaches(c, d.image, m) ensures Defined(c, m) {
        assert d.image in DepNames(c[n]);
        ReachesFrom(c, n, d.image, m);
      }
    }
    if Defined(c, n) && forall d | d in c[n].deps :: Buildable(c, d.image) {
      forall m | Reaches(c, n, m) ensures Defined(c, m) {
        var p :| Path(c, p) && p[0] == n && p[|p| - 1] == m;
        if |p| > 1 {
          assert p[0 + 1] in DepNames(c[p[0]]);
          assert forall i | 0 <= i < |p[1..]| :: p[1..][i] == p[i + 1];
          assert Path(c, p[1..]) && Reaches(c, p[1], m);
        }
      }
    }
  }

  /** An image has a tag exactly if it and everything it depends on is configured and has a
      Dockerfile. */
  lemma {:induction false} TagExistsIff(naming: Naming, c: Configs, order: seq<Name>, n: Name)
    requires Ordered(c, order) && n in order
    ensures Tag(naming, c, order, n).Some? <==> Buildable(c, n)
    decreases Position(order, n), 1, 0
  {
    BuildableIff(c, n);
    hide Buildable;
    if Defined(c, n) {
      ArgsExistIff(naming, c, order, n, c[n].deps);
    }
  }

  lemma {:induction false} ArgsExistIff(naming: Naming, c: Configs, order: seq<Name>, n: Name, deps: seq<Dep>)
    requires Ordered(c, order) && n in order && n in c && forall d | d in deps :: d in c[n].deps
    ensures Args(naming, c, order, n, deps).Some? <==> forall d | d in deps :: Buildable(c, d.image)
    decreases Position(order, n), 0, |deps|
  {
    hide Buildable;
    if deps != [] {
      assert deps[0] in deps && deps == [deps[0]] + deps[1..];
      DependenciesEarlier(c, order, n, deps[0]);
      TagExistsIff(naming, c, order, deps[0].image);
      ArgsExistIff(naming, c, order, n, deps[1..]);
    }
  }

  // ---------------------------------------------------------------- the order of listing

  // The configurations differ at most in the order in which they list things.
  ghost predicate SameUpToListing(c1: Configs, c2: Configs) {
    && c1.Keys == c2.Keys
    && forall n | n in c1 :: multiset(c1[n].deps) == multiset(c2[n].deps) && c1[n].dockerfile == c2[n].dockerfile &&
                             multiset(c1[n].extras) == multiset(c2[n].extras)
  }

  ghost function Mapped(f: Dep -> string, deps: seq<Dep>): seq<string> {
    if deps == [] then [] else [f(deps[0])] + Mapped(f, deps[1..])
  }

  lemma {:induction false} MappedWithout(f: Dep -> string, deps: seq<Dep>, i: nat)
    requires i < |deps|
    ensures multiset(Mapped(f, deps)) == multiset{f(deps[i])} + multiset(Mapped(f, deps[..i] + deps[i + 1..]))
  {
    var rest := deps[1..];
    MappedHead(f, deps);
    BagOfCons(f(deps[0]), Mapped(f, rest));
    if i == 0 {
      assert deps[..i] + deps[i + 1..] == rest;
    } else {
      var without := deps[..i] + deps[i + 1..];
      WithoutTail(deps, i);
      MappedHead(f, without);
      hide Mapped;
      MappedWithout(f, rest, i - 1);
      BagOfCons(f(deps[0]), Mapped(f, rest[..i - 1] + rest[i..]));
    }
  }

  lemma {:induction false} MappedHead(f: Dep -> string, deps: seq<Dep>)
    requires deps != []
    ensures Mapped(f, deps) == [f(deps[0])] + Mapped(f, deps[1..])
  {
  }

  lemma {:induction false} WithoutTail(deps: seq<Dep>, i: nat)
    requires 0 < i < |deps|
    ensures var without := deps[..i] + deps[i + 1..];
            without != [] && without[0] == deps[0] && without[1..] == deps[1..][..i - 1] + deps[1..][i..]
    ensures deps[1..][i - 1] == deps[i]
  {
  }

  lemma {:induction false} BagOfCons(x: string, s: seq<string>)
    ensures multiset([x] + s) == multiset{x} + multiset(s)
  {
  }

  lemma {:induction false} MappedBag(f: Dep -> string, a: seq<Dep>, b: seq<Dep>)
    requires multiset(a) == multiset(b)
    ensures multiset(Mapped(f, a)) == multiset(Mapped(f, b))
  {
    assert |multiset(a)| == |a| && |multiset(b)| == |b|;
    if a != [] {
      assert a[0] in multiset(b);
      var i :| 0 <= i < |b| && b[i] == a[0];
      var without := b[..i] + b[i + 1..];
      BagWithout(a, 0);
      BagWithout(b, i);
      BagCancel(a[0], multiset(a[1..]), multiset(without));
      MappedBag(f, a[1..], without);
      MappedWithout(f, b, i);
    }
  }

  lemma {:induction false} ArgsMapped(
    naming: Naming, c: Configs, order: seq<Name>, n: Name, deps: seq<Dep>, f: Dep -> string)
    requires Ordered(c, order) && n in order && n in c && forall d | d in deps :: d in c[n].deps
    requires forall d | d in deps :: d.image in order && Tag(naming, c, order, d.image).Some? &&
                                     f(d) == Arg(d, Tag(naming, c, order, d.image).value)
    ensures Args(naming, c, order, n, deps) == Some(Mapped(f, deps))
  {
    if deps != [] {
      assert deps[0] in deps;
      ArgsMapped(naming, c, order, n, deps[1..], f);
    }
  }

  lemma {:induction false} ArgsMissing(naming: Naming, c: Configs, order: seq<Name>, n: Name, deps: seq<Dep>, d: Dep)
    requires Ordered(c, order) && n in order && n in c && forall d' | d' in deps :: d' in c[n].deps
    requires d in deps && d.image in order && Tag(naming, c, order, d.image).None?
    ensures Args(naming, c, order, n, deps).None?
  {
    assert deps[0] in deps;
    if deps[0] != d {
      ArgsMissing(naming, c, order, n, deps[1..], d);
    }
  }

  lemma {:induction false} ListedIn(c1: Configs, c2: Configs, n: Name, d: Dep)
    requires SameUpToListing(c1, c2) && n in c1
    ensures n in c2 && (d in c1[n].deps <==> d in c2[n].deps)
  {
    assert d in c1[n].deps <==> d in multiset(c1[n].deps);
  }

  lemma {:induction false} OrderedToo(c1: Configs, c2: Configs, order: seq<Name>)
    requires SameUpToListing(c1, c2) && Ordered(c1, order)
    ensures Ordered(c2, order)
  {
    forall i, d | 0 <= i < |order| && order[i] in c2 && d in c2[order[i]].deps ensures d.image in order[..i] {
      ListedIn(c1, c2, order[i], d);
    }
  }

  /** A tag does not depend on the order in which a configuration lists its dependencies or in which
      the extra arguments are added. */
  lemma {:induction false} TagIgnoresListing(naming: Naming, c1: Configs, c2: Configs, order: seq<Name>, n: Name)
    requires SameUpToListing(c1, c2) && Ordered(c1, order) && n in order
    ensures Ordered(c2, order) && Tag(naming, c1, order, n) == Tag(naming, c2, order, n)
    decreases Position(order, n)
  {
    OrderedToo(c1, c2, order);
    if n in c1 {
      forall d | d in c1[n].deps
        ensures d.image in order && Tag(naming, c1, order, d.image) == Tag(naming, c2, order, d.image)
      {
        DependenciesEarlier(c1, order, n, d);
        TagIgnoresListing(naming, c1, c2, order, d.image);
      }
      ArgsIgnoreListing(naming, c1, c2, order, n);
      var a1, a2 := Args(naming, c1, order, n, c1[n].deps), Args(naming, c2, order, n, c2[n].deps);
      if a1.Some? {
        SortedIff(a1.value + c1[n].extras, a2.value + c2[n].extras);
      }
    }
  }

  lemma {:induction false} ArgsIgnoreListing(naming: Naming, c1: Configs, c2: Configs, order: seq<Name>, n: Name)
    requires SameUpToListing(c1, c2) && Ordered(c1, order) && Ordered(c2, order) && n in order && n in c1
    requires forall d | d in c1[n].deps ::
               d.image in order && Tag(naming, c1, order, d.image) == Tag(naming, c2, order, d.image)
    ensures var a1, a2 := Args(naming, c1, order, n, c1[n].deps), Args(naming, c2, order, n, c2[n].deps);
            (a1.Some? <==> a2.Some?) && (a1.Some? ==> multiset(a1.value) == multiset(a2.value))
  {
    var d1, d2 := c1[n].deps, c2[n].deps;
    assert forall d :: d in d1 <==> d in d2 by {
      forall d ensures d in d1 <==> d in d2 { ListedIn(c1, c2, n, d); }
    }
    if d :| d in d1 && Tag(naming, c1, order, d.image).None? {
      ArgsMissing(naming, c1, order, n, d1, d);
      ArgsMissing(naming, c2, order, n, d2, d);
    } else {
      var f := (d: Dep) => if d in d1 then Arg(d, Tag(naming, c1, order, d.image).value) else "";
      ArgsMapped(naming, c1, order, n, d1, f);
      ArgsMapped(naming, c2, order, n, d2, f);
      MappedBag(f, d1, d2);
    }
  }

  // ---------------------------------------------------------------- the builder

  // The tag of the image, by recursion.
  ghost predicate IsTag(naming: Naming, c: Configs, n: Name, tag: string) {
    exists order :: Ordered(c, order) && n in order && Tag(naming, c, order, n) == Some(tag)
  }

  // What was collected so far, and what is still to come.
  ghost function Behind(acc: seq<string>, rest: Option<seq<string>>): Option<seq<string>> {
    if rest.None? then None else Some(acc + rest.value)
  }

  lemma {:induction false} BehindNothing(rest: Option<seq<string>>)
    ensures Behind([], rest) == rest
  {
    if rest.Some? { assert [] + rest.value == rest.value; }
  }

  lemma {:induction false} BehindMore(acc: seq<string>, x: string, rest: seq<string>)
    ensures Behind(acc, Some([x] + rest)) == Behind(acc + [x], Some(rest))
  {
    assert acc + ([x] + rest) == acc + [x] + rest;
  }

  class DockerBuilder {
    const naming: Naming
    const configs: Configs
    var generatedTags: map<Name, string>

    constructor (naming: Naming, configs: Configs)
      ensures this.naming == naming && this.configs == configs && Valid() && generatedTags == map[]
    {
      this.naming, this.configs, generatedTags := naming, configs, map[];
    }

    // Every memoised tag is right, and so is memoised everything it was computed from.
    ghost predicate Valid()
      reads this
    {
      forall n | n in generatedTags ::
        && n in configs
        && IsTag(naming, configs, n, generatedTags[n])
        && forall d | d in configs[n].deps :: d.image in generatedTags
    }

    // The memo only grows.
    twostate predicate Extends()
      reads this
    {
      forall n | n in old(generatedTags) :: n in generatedTags && generatedTags[n] == old(generatedTags[n])
    }

    lemma {:induction false} MemoIsTag(order: seq<Name>, n: Name)
      requires Valid() && Ordered(configs, order) && n in order && n in generatedTags
      ensures Tag(naming, configs, order, n) == Some(generatedTags[n])
    {
      var o :| Ordered(configs, o) && n in o && Tag(naming, configs, o, n) == Some(generatedTags[n]);
      TagIgnoresOrder(naming, configs, o, order, n);
    }

    /** The memoised recursion computes the tag of plain recursion. */
    method CalculateTagForImage(ghost order: seq<Name>, n: Name) returns (tag: Option<string>)
      requires Valid() && Ordered(configs, order) && n in order
      modifies this
      ensures Valid() && Extends()
      ensures tag == Tag(naming, configs, order, n)
      ensures tag.Some? ==> n in generatedTags && generatedTags[n] == tag.value
      decreases Position(order, n), 1
    {
      if n in generatedTags {
        MemoIsTag(order, n);
        return Some(generatedTags[n]);
      }
      if n !in configs || configs[n].dockerfile.None? {
        return None;
      }
      var args := CalculateArgs(order, n);
      if args.None? {
        return None;
      }
      tag := Some(TagOf(naming, n, configs[n], args.value));
      Remember(order, n, tag.value);
    }

    // The tag is right and its dependencies are memoised.
    method Remember(ghost order: seq<Name>, n: Name, tag: string)
      requires Valid() && Ordered(configs, order) && n in order && n in configs
      requires Tag(naming, configs, order, n) == Some(tag)
      requires forall d | d in configs[n].deps :: d.image in generatedTags
      modifies this
      ensures Valid() && Extends() && n in generatedTags && generatedTags[n] == tag
    {
      if n in generatedTags {
        MemoIsTag(order, n);
      }
      generatedTags := generatedTags[n := tag];
    }

    // The arguments, one dependency after the other.
    method CalculateArgs(ghost order: seq<Name>, n: Name) returns (args: Option<seq<string>>)
      requires Valid() && Ordered(configs, order) && n in order && n in configs
      modifies this
      ensures Valid() && Extends()
      ensures args == Args(naming, configs, order, n, configs[n].deps)
      ensures args.Some? ==> forall d | d in configs[n].deps :: d.image in generatedTags
      decreases Position(order, n), 0
    {
      hide Ordered, Valid, Tag;
      var deps := configs[n].deps;
      var acc := [];
      assert deps[0..] == deps;
      BehindNothing(Args(naming, configs, order, n, deps));
      for i := 0 to |deps|
        invariant Valid() && Extends()
        invariant Args(naming, configs, order, n, deps) == Behind(acc, Args(naming, configs, order, n, deps[i..]))
        invariant forall k | 0 <= k < i :: deps[k].image in generatedTags
      {
        DependenciesEarlier(configs, order, n, deps[i]);
        var tag := CalculateTagForImage(order, deps[i].image);
        if tag.None? {
          return None;
        }
        assert deps[i..][1..] == deps[i + 1..];
        ghost var rest := Args(naming, configs, order, n, deps[i + 1..]);
        if rest.Some? {
          BehindMore(acc, Arg(deps[i], tag.value), rest.value);
        }
        acc := acc + [Arg(deps[i], tag.value)];
      }
      assert deps[|deps|..] == [] && acc + [] == acc;
      return Some(acc);
    }

    /** The tags of all images of an order, each that of plain recursion; none if one has none. */
    method CalculateTags(order: seq<Name>) returns (tags: Option<seq<string>>)
      requires Valid() && Ordered(configs, order)
      modifies this
      ensures Valid() && Extends()
      ensures tags.Some? <==> forall i | 0 <= i < |order| :: Buildable(configs, order[i])
      ensures tags.Some? ==> |tags.value| == |order|
      ensures tags.Some? ==> forall i | 0 <= i < |order| :: Tag(naming, configs, order, order[i]) == Some(tags.value[i])
    {
      hide Ordered, Valid, Tag, Buildable;
      var acc := [];
      for i := 0 to |order|
        invariant Valid() && Extends() && |acc| == i
        invariant forall k | 0 <= k < i ::
                    Tag(naming, configs, order, order[k]) == Some(acc[k]) && Buildable(configs, order[k])
      {
        TagExistsIff(naming, configs, order, order[i]);
        var tag := CalculateTagForImage(order, order[i]);
        if tag.None? {
          return None;
        }
        acc := acc + [tag.value];
      }
      return Some(acc);
    }

    /** Once an image has its tag, the tag of every dependency is there to be looked up. */
    method BuildArgs(n: Name) returns (args: seq<(string, string)>)
      requires Valid() && n in generatedTags
      ensures n in configs && |args| == |configs[n].deps|
      ensures forall i | 0 <= i < |args| ::
                args[i].0 == configs[n].deps[i].arg && IsTag(naming, configs, configs[n].deps[i].image, args[i].1)
    {
      hide IsTag;
      var deps := configs[n].deps;
      args := [];
      for i := 0 to |deps|
        invariant |args| == i
        invariant forall k | 0 <= k < i :: args[k].0 == deps[k].arg && IsTag(naming, configs, deps[k].image, args[k].1)
      {
        args := args + [(deps[i].arg, generatedTags[deps[i].image])];
      }
    }
  }
}
