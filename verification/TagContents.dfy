/**
What a tag says about the image: two configurations give an image the same tag exactly if they agree,
up to the order of listing, on everything it is built from.  This needs a hash and a tag layout without
collisions, and it needs that the pieces that are hashed have the same lengths, because they are hashed
one after the other with nothing in between.
*/
module TagContents {
  import opened Options
  import opened Tags

  // The build arguments that are not for a dependency.
  const EXTRA_NAMES: set<string> := {"EXTRA_PACKAGES", "EXTRA_KEYS", "EXTRA_REPOSITORIES"}

  const EQUALS: char := '='

  // Build arguments as the builder makes them: names without an equals sign, and dependencies and
  // extras under different names.
  ghost predicate Plain(image: Image) {
    && (forall d | d in image.deps :: EQUALS !in d.arg && d.arg !in EXTRA_NAMES)
    && (forall x | x in image.extras :: IsExtra(x))
  }

  ghost predicate IsExtra(x: string) {
    exists e :: e in EXTRA_NAMES && e + [EQUALS] <= x
  }

  ghost predicate Collisionless(naming: Naming) {
    && (forall a, b :: naming.sha(a) == naming.sha(b) ==> a == b)
    && (forall n, a, m, b :: naming.tag(n, a) == naming.tag(m, b) ==> n == m && a == b)
  }

  // ---------------------------------------------------------------- what is hashed

  // A configuration, in an order in which its images can be processed.
  datatype Setup = Setup(c: Configs, order: seq<Name>) {
    ghost predicate Holds(n: Name) {
      Ordered(c, order) && n in order && Buildable(c, n)
    }
  }

  ghost function TagIn(naming: Naming, u: Setup, n: Name): string
    requires u.Holds(n)
  {
    TagExistsIff(naming, u.c, u.order, n);
    Tag(naming, u.c, u.order, n).value
  }

  // The build argument of a dependency.
  ghost function Setting(naming: Naming, u: Setup, d: Dep): string {
    if u.Holds(d.image) then d.arg + "=" + TagIn(naming, u, d.image) else ""
  }

  // Everything that is hashed of an image, by what it is.
  ghost function Inputs(naming: Naming, u: Setup, n: Name): seq<string>
    requires u.Holds(n) && n in u.c
  {
    Mapped(d => Setting(naming, u, d), u.c[n].deps) + u.c[n].extras
  }

  ghost function Pieces(naming: Naming, u: Setup, n: Name): seq<string>
    requires u.Holds(n) && n in u.c && u.c[n].dockerfile.Some?
  {
    [u.c[n].dockerfile.value] + Sorted(Inputs(naming, u, n))
  }

  lemma {:induction false} HoldsBelow(u: Setup, n: Name)
    requires u.Holds(n)
    ensures n in u.c && u.c[n].dockerfile.Some? && forall d | d in u.c[n].deps :: u.Holds(d.image)
  {
    BuildableIff(u.c, n);
    hide Buildable;
    forall d | d in u.c[n].deps ensures u.Holds(d.image) {
      DependenciesEarlier(u.c, u.order, n, d);
    }
  }

  /** A tag is the image's name and the hash of its Dockerfile, followed by its build arguments in order:
      the name of each dependency's argument, an equals sign and the dependency's tag; and the extras. */
  lemma {:induction false} TagHashes(naming: Naming, u: Setup, n: Name)
    requires u.Holds(n)
    ensures n in u.c && u.c[n].dockerfile.Some?
    ensures TagIn(naming, u, n) == naming.tag(n, naming.sha(Flat(Pieces(naming, u, n))))
  {
    HoldsBelow(u, n);
    var deps := u.c[n].deps;
    var f := d => Setting(naming, u, d);
    forall d | d in deps
      ensures d.image in u.order && Tag(naming, u.c, u.order, d.image).Some? &&
              f(d) == Arg(d, Tag(naming, u.c, u.order, d.image).value)
    {
      assert u.Holds(d.image);
      TagExistsIff(naming, u.c, u.order, d.image);
    }
    ArgsMapped(naming, u.c, u.order, n, deps, f);
  }

  // ---------------------------------------------------------------- cutting what was hashed

  ghost predicate SameLengths(a: seq<string>, b: seq<string>) {
    |a| == |b| && forall k | 0 <= k < |a| :: |a[k]| == |b[k]|
  }

  lemma {:induction false} FlatIff(a: seq<string>, b: seq<string>)
    requires SameLengths(a, b)
    ensures Flat(a) == Flat(b) <==> a == b
  {
    if a != [] {
      FlatIff(a[1..], b[1..]);
      var n := |a[0]|;
      assert Flat(a)[..n] == a[0] && Flat(a)[n..] == Flat(a[1..]);
      assert Flat(b)[..n] == b[0] && Flat(b)[n..] == Flat(b[1..]);
      assert a == [a[0]] + a[1..] && b == [b[0]] + b[1..];
    }
  }

  /** The same tag means the same Dockerfile and the same build arguments, if the pieces have the same
      lengths; without that, only that the pieces run together are the same. */
  lemma {:induction false} SameTagIff(naming: Naming, u: Setup, v: Setup, n: Name)
    requires Collisionless(naming) && u.Holds(n) && v.Holds(n)
    ensures n in u.c && n in v.c && u.c[n].dockerfile.Some? && v.c[n].dockerfile.Some?
    ensures TagIn(naming, u, n) == TagIn(naming, v, n) <==> Flat(Pieces(naming, u, n)) == Flat(Pieces(naming, v, n))
    ensures SameLengths(Pieces(naming, u, n), Pieces(naming, v, n)) ==>
              (TagIn(naming, u, n) == TagIn(naming, v, n) <==>
                && u.c[n].dockerfile == v.c[n].dockerfile
                && multiset(Inputs(naming, u, n)) == multiset(Inputs(naming, v, n)))
  {
    TagHashes(naming, u, n);
    TagHashes(naming, v, n);
    var a, b := Pieces(naming, u, n), Pieces(naming, v, n);
    hide Flat, TagIn, Inputs, Sorted;
    SortedIff(Inputs(naming, u, n), Inputs(naming, v, n));
    if SameLengths(a, b) {
      FlatIff(a, b);
      assert a[0] == u.c[n].dockerfile.value && a[1..] == Sorted(Inputs(naming, u, n));
      assert b[0] == v.c[n].dockerfile.value && b[1..] == Sorted(Inputs(naming, v, n));
    }
  }

  /** The lengths do matter: whether text stands at the end of a Dockerfile or is a build argument makes
      no difference to the tag, under any hash. */
  lemma {:induction false} RunTogether(naming: Naming, n: Name, text: string, arg: string)
    ensures var u := Setup(map[n := Image([], Some(text + arg), [])], [n]);
            var v := Setup(map[n := Image([], Some(text), [arg])], [n]);
            u.Holds(n) && v.Holds(n) && TagIn(naming, u, n) == TagIn(naming, v, n)
  {
    var u := Setup(map[n := Image([], Some(text + arg), [])], [n]);
    var v := Setup(map[n := Image([], Some(text), [arg])], [n]);
    BuildableIff(u.c, n);
    BuildableIff(v.c, n);
    TagHashes(naming, u, n);
    TagHashes(naming, v, n);
    assert Inputs(naming, u, n) == [] && Inputs(naming, v, n) == [arg];
    SortedOne(arg);
    FlatOne(text + arg);
    FlatTwo(text, arg);
    hide Sorted, Flat, TagIn, Inputs;
    assert Pieces(naming, u, n) == [text + arg] && Pieces(naming, v, n) == [text, arg];
  }

  lemma {:induction false} SortedOne(x: string)
    ensures Sorted([x]) == [x] && Sorted([]) == []
  {
    assert [x][1..] == [];
  }

  lemma {:induction false} FlatOne(a: string)
    ensures Flat([a]) == a
  {
  }

  lemma {:induction false} FlatTwo(a: string, b: string)
    ensures Flat([a, b]) == a + b
  {
    assert [a, b][1..] == [b];
    FlatOne(b);
  }

  // ---------------------------------------------------------------- telling the build arguments apart

  lemma {:induction false} SplitAtEquals(a: string, b: string, c: string, d: string)
    requires EQUALS !in a && EQUALS !in c && a + "=" + b == c + "=" + d
    ensures a == c && b == d
  {
    var l, r := a + "=" + b, c + "=" + d;
    assert (forall i | 0 <= i < |a| :: l[i] == a[i]) && l[|a|] == EQUALS;
    assert (forall i | 0 <= i < |c| :: r[i] == c[i]) && r[|c|] == EQUALS;
    assert a == l[..|a|] && c == r[..|c|] && b == l[|a| + 1..] && d == r[|c| + 1..];
  }

  lemma {:induction false} SettingIsNoExtra(naming: Naming, u: Setup, d: Dep)
    requires u.Holds(d.image) && EQUALS !in d.arg && d.arg !in EXTRA_NAMES
    ensures !IsExtra(Setting(naming, u, d))
  {
    var x := Setting(naming, u, d);
    if e :| e in EXTRA_NAMES && e + [EQUALS] <= x {
      ExtraNames(e);
      assert x == e + "=" + x[|e| + 1..];
      SplitAtEquals(d.arg, TagIn(naming, u, d.image), e, x[|e| + 1..]);
    }
  }

  lemma {:induction false} ExtraNames(e: string)
    requires e in EXTRA_NAMES
    ensures EQUALS !in e
  {
  }

  // Settings of dependencies say what they are settings of.
  lemma {:induction false} SettingsIff(naming: Naming, u: Setup, v: Setup, a: Dep, b: Dep)
    requires Collisionless(naming) && u.Holds(a.image) && v.Holds(b.image)
    requires EQUALS !in a.arg && EQUALS !in b.arg
    ensures Setting(naming, u, a) == Setting(naming, v, b) <==>
              a == b && TagIn(naming, u, a.image) == TagIn(naming, v, b.image)
  {
    TagHashes(naming, u, a.image);
    TagHashes(naming, v, b.image);
    hide TagIn, Flat;
    if Setting(naming, u, a) == Setting(naming, v, b) {
      SplitAtEquals(a.arg, TagIn(naming, u, a.image), b.arg, TagIn(naming, v, b.image));
    }
  }

  lemma {:induction false} InMapped(f: Dep -> string, deps: seq<Dep>, x: string)
    ensures x in Mapped(f, deps) <==> exists i :: 0 <= i < |deps| && f(deps[i]) == x
  {
    if deps != [] {
      InMapped(f, deps[1..], x);
      if x in Mapped(f, deps[1..]) {
        var i :| 0 <= i < |deps[1..]| && f(deps[1..][i]) == x;
        assert f(deps[i + 1]) == x;
      }
      if i :| 0 <= i < |deps| && f(deps[i]) == x && i > 0 {
        assert f(deps[1..][i - 1]) == x;
      }
    }
  }

  // The function values agree across the two only on equal arguments.
  ghost predicate Matching(f: Dep -> string, a: seq<Dep>, g: Dep -> string, b: seq<Dep>) {
    forall i, j | 0 <= i < |a| && 0 <= j < |b| && f(a[i]) == g(b[j]) :: a[i] == b[j]
  }

  // The first of the one has its counterpart in the other, and without them the bags are still equal.
  lemma {:induction false} Counterpart(f: Dep -> string, a: seq<Dep>, g: Dep -> string, b: seq<Dep>) returns (j: nat)
    requires multiset(Mapped(f, a)) == multiset(Mapped(g, b)) && Matching(f, a, g, b) && a != []
    ensures j < |b| && b[j] == a[0] && g(b[j]) == f(a[0])
    ensures multiset(Mapped(f, a[1..])) == multiset(Mapped(g, b[..j] + b[j + 1..]))
  {
    MappedHead(f, a);
    var x := f(a[0]);
    assert x == ([x] + Mapped(f, a[1..]))[0];
    assert x in multiset(Mapped(g, b));
    InMapped(g, b, x);
    j :| j < |b| && g(b[j]) == x;
    MappedWithout(f, a, 0);
    MappedWithout(g, b, j);
    BagWithout(a, 0);
    hide Mapped;
    BagCancel(x, multiset(Mapped(f, a[1..])), multiset(Mapped(g, b[..j] + b[j + 1..])));
  }

  lemma {:induction false} NoneMapped(g: Dep -> string, b: seq<Dep>)
    requires multiset(Mapped(g, b)) == multiset([])
    ensures b == []
  {
    assert |multiset(Mapped(g, b))| == |Mapped(g, b)|;
  }

  lemma {:induction false} SameBag(f: Dep -> string, a: seq<Dep>, g: Dep -> string, b: seq<Dep>)
    requires multiset(Mapped(f, a)) == multiset(Mapped(g, b)) && Matching(f, a, g, b)
    ensures multiset(a) == multiset(b) && forall d | d in a :: f(d) == g(d)
    decreases |a|
  {
    if a == [] {
      assert Mapped(f, a) == [];
      NoneMapped(g, b);
    } else {
      var j := Counterpart(f, a, g, b);
      var without := b[..j] + b[j + 1..];
      BagWithout(a, 0);
      BagWithout(b, j);
      MatchingLess(f, a, g, b, j);
      hide Mapped, Matching;
      SameBag(f, a[1..], g, without);
      assert forall d | d in a :: d == a[0] || d in a[1..];
    }
  }

  lemma {:induction false} MatchingLess(f: Dep -> string, a: seq<Dep>, g: Dep -> string, b: seq<Dep>, j: nat)
    requires Matching(f, a, g, b) && a != [] && j < |b|
    ensures Matching(f, a[1..], g, b[..j] + b[j + 1..])
  {
    var without := b[..j] + b[j + 1..];
    forall i, k | 0 <= i < |a[1..]| && 0 <= k < |without| && f(a[1..][i]) == g(without[k])
      ensures a[1..][i] == without[k]
    {
      assert a[1..][i] == a[i + 1] && without[k] == b[if k < j then k else k + 1];
    }
  }

  // Two bags that are equal, each of two parts of which the first is apart from the other's second.
  lemma {:induction false} ApartBags(a: multiset<string>, x: multiset<string>, b: multiset<string>, y: multiset<string>)
    requires a + x == b + y
    requires (forall s | s in a :: s !in y) && (forall s | s in b :: s !in x)
    ensures a == b && x == y
  {
    forall s ensures a[s] == b[s] && x[s] == y[s] {
      assert (a + x)[s] == (b + y)[s];
      assert s in a ==> s !in y;
      assert s in b ==> s !in x;
    }
  }

  // ---------------------------------------------------------------- everything an image is built from

  ghost predicate SameImage(a: Image, b: Image) {
    multiset(a.deps) == multiset(b.deps) && a.dockerfile == b.dockerfile && multiset(a.extras) == multiset(b.extras)
  }

  // The configurations agree, up to the order of listing, on everything the image is built from.
  ghost predicate Agree(c: Configs, k: Configs, n: Name) {
    forall m | Reaches(c, n, m) :: m in c && m in k && SameImage(c[m], k[m])
  }

  // The two configurations are as the builder makes them, and what they hash of any image that is in
  // both has the same lengths.
  ghost predicate Comparable(naming: Naming, u: Setup, v: Setup) {
    && (forall n | n in u.c :: Plain(u.c[n])) && (forall n | n in v.c :: Plain(v.c[n]))
    && (forall n | u.Holds(n) && v.Holds(n) :: LengthsAgree(naming, u, v, n))
  }

  ghost predicate LengthsAgree(naming: Naming, u: Setup, v: Setup, n: Name) {
    && u.Holds(n) && v.Holds(n) && n in u.c && n in v.c && u.c[n].dockerfile.Some? && v.c[n].dockerfile.Some?
    && SameLengths(Pieces(naming, u, n), Pieces(naming, v, n))
  }

  lemma {:induction false} ReachesIff(c: Configs, n: Name, m: Name)
    ensures Reaches(c, n, m) <==> m == n || (n in c && exists d :: d in c[n].deps && Reaches(c, d.image, m))
  {
    ReachesItself(c, n);
    if Reaches(c, n, m) && m != n {
      var p :| Path(c, p) && p[0] == n && p[|p| - 1] == m;
      assert p[0 + 1] in DepNames(c[p[0]]);
      var d :| d in c[n].deps && d.image == p[1];
      assert forall i | 0 <= i < |p[1..]| :: p[1..][i] == p[i + 1];
      assert Path(c, p[1..]) && Reaches(c, d.image, m);
    }
    if n in c {
      forall d | d in c[n].deps && Reaches(c, d.image, m) ensures Reaches(c, n, m) {
        assert d.image in DepNames(c[n]);
        ReachesFrom(c, n, d.image, m);
      }
    }
  }

  lemma {:induction false} AgreeIff(c: Configs, k: Configs, n: Name)
    requires n in c
    ensures Agree(c, k, n) <==> n in k && SameImage(c[n], k[n]) && forall d | d in c[n].deps :: Agree(c, k, d.image)
  {
    hide Reaches, SameImage;
    if Agree(c, k, n) {
      ReachesIff(c, n, n);
      forall d, m | d in c[n].deps && Reaches(c, d.image, m) ensures m in c && m in k && SameImage(c[m], k[m]) {
        ReachesIff(c, n, m);
      }
    }
    if n in k && SameImage(c[n], k[n]) && forall d | d in c[n].deps :: Agree(c, k, d.image) {
      forall m | Reaches(c, n, m) ensures m in c && m in k && SameImage(c[m], k[m]) {
        ReachesIff(c, n, m);
      }
    }
  }

  // One level: the inputs are the same exactly if the images are, up to listing, and the tags of the
  // dependencies.
  lemma {:induction false} InputsTell(naming: Naming, u: Setup, v: Setup, n: Name)
    requires Collisionless(naming) && u.Holds(n) && v.Holds(n) && n in u.c && n in v.c
    requires Plain(u.c[n]) && Plain(v.c[n])
    requires multiset(Inputs(naming, u, n)) == multiset(Inputs(naming, v, n))
    ensures multiset(u.c[n].deps) == multiset(v.c[n].deps) && multiset(u.c[n].extras) == multiset(v.c[n].extras)
    ensures forall d | d in u.c[n].deps ::
              u.Holds(d.image) && v.Holds(d.image) && TagIn(naming, u, d.image) == TagIn(naming, v, d.image)
  {
    HoldsBelow(u, n);
    HoldsBelow(v, n);
    var a, b := u.c[n].deps, v.c[n].deps;
    var f, g := d => Setting(naming, u, d), d => Setting(naming, v, d);
    SettingsApart(naming, u, n, v.c[n].extras);
    SettingsApart(naming, v, n, u.c[n].extras);
    ApartBags(multiset(Mapped(f, a)), multiset(u.c[n].extras), multiset(Mapped(g, b)), multiset(v.c[n].extras));
    forall i, j | 0 <= i < |a| && 0 <= j < |b| && f(a[i]) == g(b[j]) ensures a[i] == b[j] {
      SettingsIff(naming, u, v, a[i], b[j]);
    }
    hide Setting, Mapped;
    SameBag(f, a, g, b);
    forall d | d in a
      ensures u.Holds(d.image) && v.Holds(d.image) && TagIn(naming, u, d.image) == TagIn(naming, v, d.image)
    {
      assert d in multiset(a) && d in multiset(b) && d in b;
      SettingsIff(naming, u, v, d, d);
    }
  }

  lemma {:induction false} SettingsApart(naming: Naming, u: Setup, n: Name, extras: seq<string>)
    requires u.Holds(n) && n in u.c && Plain(u.c[n]) && forall x | x in extras :: IsExtra(x)
    ensures forall s | s in multiset(Mapped(d => Setting(naming, u, d), u.c[n].deps)) :: s !in multiset(extras)
  {
    HoldsBelow(u, n);
    var f := d => Setting(naming, u, d);
    forall s | s in multiset(Mapped(f, u.c[n].deps)) ensures s !in multiset(extras) {
      InMapped(f, u.c[n].deps, s);
      var i :| 0 <= i < |u.c[n].deps| && f(u.c[n].deps[i]) == s;
      SettingIsNoExtra(naming, u, u.c[n].deps[i]);
    }
  }

  lemma {:induction false} InputsFollow(naming: Naming, u: Setup, v: Setup, n: Name)
    requires u.Holds(n) && v.Holds(n) && n in u.c && n in v.c && SameImage(u.c[n], v.c[n])
    requires forall d | d in u.c[n].deps ::
               u.Holds(d.image) && v.Holds(d.image) && TagIn(naming, u, d.image) == TagIn(naming, v, d.image)
    ensures multiset(Inputs(naming, u, n)) == multiset(Inputs(naming, v, n))
  {
    var f, g := d => Setting(naming, u, d), d => Setting(naming, v, d);
    var a, b := u.c[n].deps, v.c[n].deps;
    hide TagIn;
    forall d | d in b ensures f(d) == g(d) {
      assert d in multiset(b) && d in multiset(a) && d in a;
    }
    MappedBag(f, a, b);
    MappedSame(f, g, b);
  }

  lemma {:induction false} MappedSame(f: Dep -> string, g: Dep -> string, deps: seq<Dep>)
    requires forall d | d in deps :: f(d) == g(d)
    ensures Mapped(f, deps) == Mapped(g, deps)
  {
    if deps != [] {
      assert deps[0] in deps;
      MappedSame(f, g, deps[1..]);
    }
  }

  /** Content addressing: with a hash and a layout without collisions, two configurations that can be
      compared give an image the same tag if and only if they agree, up to the order of listing, on the
      Dockerfiles, dependencies and extra arguments of everything it is built from. */
  lemma {:induction false} ContentAddressed(naming: Naming, u: Setup, v: Setup, n: Name)
    requires Collisionless(naming) && Comparable(naming, u, v) && u.Holds(n) && v.Holds(n)
    ensures TagIn(naming, u, n) == TagIn(naming, v, n) <==> Agree(u.c, v.c, n)
    decreases Position(u.order, n)
  {
    HoldsBelow(u, n);
    HoldsBelow(v, n);
    AgreeIff(u.c, v.c, n);
    SameTagIff(naming, u, v, n);
    assert LengthsAgree(naming, u, v, n);
    forall d | d in u.c[n].deps && v.Holds(d.image)
      ensures TagIn(naming, u, d.image) == TagIn(naming, v, d.image) <==> Agree(u.c, v.c, d.image)
    {
      DependenciesEarlier(u.c, u.order, n, d);
      ContentAddressed(naming, u, v, d.image);
    }
    hide TagIn, Agree, Plain, Inputs, Pieces, Comparable;
    if TagIn(naming, u, n) == TagIn(naming, v, n) {
      assert Plain(u.c[n]) && Plain(v.c[n]);
      InputsTell(naming, u, v, n);
    }
    if Agree(u.c, v.c, n) {
      forall d | d in u.c[n].deps ensures v.Holds(d.image) {
        assert d in multiset(u.c[n].deps) && d in multiset(v.c[n].deps) && d in v.c[n].deps;
      }
      InputsFollow(naming, u, v, n);
    }
  }
}
