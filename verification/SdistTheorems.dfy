/**
 The canonical archive depends on what the members are, not on how they are listed, and
 canonicalising it again gives it back.
 */
module SdistTheorems {
  import opened Sdist

  // ---- Python's string order is a strict total order ---------------------------------------------

  lemma {:induction false} BeforeIsTransitive(a: string, b: string, c: string)
    requires Before(a, b) && Before(b, c)
    ensures Before(a, c)
  {
    if a != "" && a[0] == b[0] == c[0] { BeforeIsTransitive(a[1..], b[1..], c[1..]); }
  }

  lemma {:induction false} BeforeIsTotal(a: string, b: string)
    ensures Before(a, b) || a == b || Before(b, a)
    ensures !(Before(a, b) && Before(b, a))
    ensures !Before(a, a)
  {
    if a != "" { BeforeIsTotal(a[1..], a[1..]); }
    if a != "" && b != "" && a[0] == b[0] {
      BeforeIsTotal(a[1..], b[1..]);
      assert a == [a[0]] + a[1..] && b == [b[0]] + b[1..];
    }
  }

  // ---- sorting -------------------------------------------------------------------------------------

  predicate Sorted(es: seq<TarEntry>) {
    forall i, j | 0 <= i < j < |es| :: !Before(es[j].name, es[i].name)
  }

  lemma {:induction false} InsertAddsOne(e: TarEntry, es: seq<TarEntry>)
    ensures multiset(Insert(e, es)) == multiset(es) + multiset{e}
  {
    hide Before;
    if es != [] {
      assert es == [es[0]] + es[1..];
      InsertAddsOne(e, es[1..]);
    }
  }

  lemma PrependKeepsSorted(e: TarEntry, es: seq<TarEntry>)
    requires Sorted(es) && forall x | x in es :: !Before(x.name, e.name)
    ensures Sorted([e] + es)
  {
    hide Before;
  }

  lemma LeastComesFirst(e: TarEntry, es: seq<TarEntry>)
    requires Sorted(es) && es != [] && !Before(es[0].name, e.name)
    ensures forall x | x in es :: !Before(x.name, e.name)
  {
    hide Before;
    forall j | 0 <= j < |es| ensures !Before(es[j].name, e.name) {
      if Before(es[j].name, e.name) {
        BeforeIsTotal(es[0].name, es[j].name);
        if Before(es[0].name, es[j].name) { BeforeIsTransitive(es[0].name, es[j].name, e.name); }
      }
    }
  }

  lemma {:induction false} InsertKeepsSorted(e: TarEntry, es: seq<TarEntry>)
    requires Sorted(es)
    ensures Sorted(Insert(e, es))
    ensures multiset(Insert(e, es)) == multiset(es) + multiset{e}
  {
    hide Before, Sorted;
    InsertAddsOne(e, es);
    if es == [] || !Before(es[0].name, e.name) {
      if es != [] { LeastComesFirst(e, es); }
      PrependKeepsSorted(e, es);
    } else {
      var rest := es[1..];
      RestIsSorted(es);
      InsertKeepsSorted(e, rest);
      var r := Insert(e, rest);
      forall x | x in r ensures !Before(x.name, es[0].name) {
        assert x in multiset(r);
        if x == e { BeforeIsTotal(es[0].name, e.name); } else { assert x in multiset(rest); }
      }
      PrependKeepsSorted(es[0], r);
    }
  }

  lemma RestIsSorted(es: seq<TarEntry>)
    requires Sorted(es) && es != []
    ensures Sorted(es[1..]) && forall x | x in es[1..] :: !Before(x.name, es[0].name)
  {
    hide Before;
  }

  lemma {:induction false} SortSorts(es: seq<TarEntry>)
    ensures Sorted(Sort(es)) && multiset(Sort(es)) == multiset(es)
  {
    if es != [] {
      SortSorts(es[1..]);
      InsertKeepsSorted(es[0], Sort(es[1..]));
      assert es == [es[0]] + es[1..];
    }
  }

  lemma HeadsAgree(a: seq<TarEntry>, b: seq<TarEntry>)
    requires StrictlySorted(a) && StrictlySorted(b) && multiset(a) == multiset(b) && a != [] && b != []
    ensures a[0] == b[0]
  {
    assert a[0] in multiset(b) && b[0] in multiset(a);
    var i :| 0 <= i < |b| && b[i] == a[0];
    var j :| 0 <= j < |a| && a[j] == b[0];
    BeforeIsTotal(a[0].name, b[0].name);
  }

  /** A strictly sorted list is the only one with its elements. */
  lemma {:induction false} StrictlySortedIsUnique(a: seq<TarEntry>, b: seq<TarEntry>)
    requires StrictlySorted(a) && StrictlySorted(b) && multiset(a) == multiset(b)
    ensures a == b
  {
    assert |multiset(a)| == |a| && |multiset(b)| == |b|;
    if a != [] {
      HeadsAgree(a, b);
      assert a == [a[0]] + a[1..] && b == [b[0]] + b[1..];
      assert multiset(a[1..]) == multiset(a) - multiset{a[0]};
      assert multiset(b[1..]) == multiset(b) - multiset{b[0]};
      StrictlySortedIsUnique(a[1..], b[1..]);
    }
  }

  // ---- permutations --------------------------------------------------------------------------------

  ghost predicate Permutes<T>(xs: seq<T>, ys: seq<T>) {
    multiset(xs) == multiset(ys)
  }

  /** The element that `ys` has in the place of `xs`'s last one, and `ys` without it. */
  lemma Match<T>(xs: seq<T>, ys: seq<T>) returns (k: nat, rest: seq<T>)
    requires Permutes(xs, ys) && xs != []
    ensures k < |ys| && ys[k] == xs[|xs| - 1] && rest == ys[..k] + ys[k + 1..]
    ensures Permutes(xs[..|xs| - 1], rest)
  {
    var x := xs[|xs| - 1];
    assert x in multiset(ys);
    k :| 0 <= k < |ys| && ys[k] == x;
    rest := ys[..k] + ys[k + 1..];
    assert ys == ys[..k] + [x] + ys[k + 1..];
    assert xs == xs[..|xs| - 1] + [x];
    assert multiset(rest) == multiset(ys) - multiset{x};
    assert multiset(xs[..|xs| - 1]) == multiset(xs) - multiset{x};
  }

  lemma PermutesBasics<T>(xs: seq<T>, ys: seq<T>)
    requires Permutes(xs, ys)
    ensures |xs| == |ys|
    ensures forall x :: x in xs <==> x in ys
  {
    assert |multiset(xs)| == |xs| && |multiset(ys)| == |ys|;
    forall x ensures x in xs <==> x in ys {
      assert x in xs <==> x in multiset(xs);
      assert x in ys <==> x in multiset(ys);
    }
  }

  lemma {:induction false} ExpandedOfSplit(vs: seq<View>, k: nat)
    requires k < |vs|
    ensures Expanded(vs) == Expanded(vs[..k] + vs[k + 1..]) + vs[k].size
    decreases |vs|
  {
    var init := vs[..|vs| - 1];
    if k == |vs| - 1 {
      assert vs[..k] + vs[k + 1..] == init;
    } else {
      ExpandedOfSplit(init, k);
      var rest := vs[..k] + vs[k + 1..];
      assert rest[..|rest| - 1] == init[..k] + init[k + 1..];
    }
  }

  lemma {:induction false} PermutedExpanded(vs: seq<View>, us: seq<View>)
    requires Permutes(vs, us)
    ensures Expanded(vs) == Expanded(us)
    decreases |vs|
  {
    PermutesBasics(vs, us);
    if vs != [] {
      var k, rest := Match(vs, us);
      PermutedExpanded(vs[..|vs| - 1], rest);
      ExpandedOfSplit(us, k);
    }
  }

  function Map<T, U>(f: T -> U, xs: seq<T>): (ys: seq<U>)
    ensures |ys| == |xs| && forall i | 0 <= i < |xs| :: ys[i] == f(xs[i])
  {
    seq(|xs|, i requires 0 <= i < |xs| => f(xs[i]))
  }

  lemma {:induction false} PermutedMap<T, U>(f: T -> U, xs: seq<T>, ys: seq<T>)
    requires Permutes(xs, ys)
    ensures Permutes(Map(f, xs), Map(f, ys))
    decreases |xs|
  {
    PermutesBasics(xs, ys);
    if xs != [] {
      var k, rest := Match(xs, ys);
      var init, last := xs[..|xs| - 1], f(xs[|xs| - 1]);
      PermutedMap(f, init, rest);
      assert Map(f, xs) == Map(f, init) + [last];
      assert Map(f, ys) == Map(f, ys[..k]) + [last] + Map(f, ys[k + 1..]);
      assert Map(f, rest) == Map(f, ys[..k]) + Map(f, ys[k + 1..]);
    }
  }

  lemma {:induction false} PermutedDistinct(vs: seq<View>, us: seq<View>)
    requires Permutes(vs, us) && Distinct(vs)
    ensures Distinct(us)
    decreases |vs|
  {
    PermutesBasics(vs, us);
    if vs != [] {
      var k, rest := Match(vs, us);
      var init := vs[..|vs| - 1];
      PermutedDistinct(init, rest);
      PermutesBasics(init, rest);
      forall r | r in rest ensures r.name != us[k].name {
        assert r in init;
      }
      forall i, j | 0 <= i < j < |us| ensures us[i].name != us[j].name {
        DistinctAround(us, k, i, j);
      }
    }
  }

  lemma DistinctAround(us: seq<View>, k: nat, i: nat, j: nat)
    requires k < |us| && i < j < |us|
    requires var rest := us[..k] + us[k + 1..]; Distinct(rest) && forall r | r in rest :: r.name != us[k].name
    ensures us[i].name != us[j].name
  {
    var rest := us[..k] + us[k + 1..];
    var i' := if i < k then i else i - 1;
    var j' := if j < k then j else j - 1;
    if i == k {
      assert rest[j'] == us[j] && us[j] in rest;
    } else if j == k {
      assert rest[i'] == us[i] && us[i] in rest;
    } else {
      assert rest[i'] == us[i] && rest[j'] == us[j];
    }
  }

  lemma AcceptedIsOrderFree(vs: seq<View>, us: seq<View>)
    requires Permutes(vs, us) && Accepted(vs)
    ensures Accepted(us)
  {
    PermutesBasics(vs, us);
    PermutedExpanded(vs, us);
    PermutedDistinct(vs, us);
    var v :| v in vs && v.name == Root(v) && forall u | u in vs :: Root(u) == Root(v);
    assert v in us;
  }

  // ---- the output ------------------------------------------------------------------------------------

  lemma CanonicalNamesDiffer(v: View, u: View)
    requires Logical(v.name) == v.name && Logical(u.name) == u.name && v.name != u.name
    ensures CanonicalName(v) != CanonicalName(u)
  {
    LogicalNames(v.name);
    LogicalNames(u.name);
    var a, b := CanonicalName(v), CanonicalName(u);
    assert v.name + "" == v.name && u.name + "" == u.name;
    assert a[..|v.name|] == v.name && b[..|u.name|] == u.name;
    assert v.kind.Directory? ==> a[|a| - 1] == '/';
    assert u.kind.Directory? ==> b[|b| - 1] == '/';
  }

  lemma {:induction false} LogicalIsFixed(name: string)
    ensures Logical(Logical(name)) == Logical(name)
    decreases |name|
  {
    if name != "" && name[|name| - 1] == '/' { LogicalIsFixed(name[..|name| - 1]); }
  }

  /** The written archive: every normalised member exactly once, names strictly increasing. */
  lemma OutputIsStrictlySorted(ms: seq<Member>, epoch: int)
    requires Distinct(Views(ms))
    ensures StrictlySorted(Sort(Normals(Views(ms), epoch)))
    ensures multiset(Sort(Normals(Views(ms), epoch))) == multiset(Normals(Views(ms), epoch))
  {
    var vs := Views(ms);
    var es := Normals(vs, epoch);
    SortSorts(es);
    forall i, j | 0 <= i < j < |es| ensures es[i].name != es[j].name {
      LogicalIsFixed(ms[i].name);
      LogicalIsFixed(ms[j].name);
      CanonicalNamesDiffer(vs[i], vs[j]);
    }
    NamesStayDistinct(es, Sort(es));
    forall i, j | 0 <= i < j < |es| ensures |Sort(es)| == |es| && Before(Sort(es)[i].name, Sort(es)[j].name) {
      BeforeIsTotal(Sort(es)[i].name, Sort(es)[j].name);
    }
  }

  lemma {:induction false} NamesStayDistinct(es: seq<TarEntry>, fs: seq<TarEntry>)
    requires Permutes(es, fs) && forall i, j | 0 <= i < j < |es| :: es[i].name != es[j].name
    ensures |es| == |fs| && forall i, j | 0 <= i < j < |fs| :: fs[i].name != fs[j].name
    decreases |es|
  {
    PermutesBasics(es, fs);
    if es != [] {
      var k, rest := Match(es, fs);
      var init := es[..|es| - 1];
      NamesStayDistinct(init, rest);
      PermutesBasics(init, rest);
      forall r | r in rest ensures r.name != fs[k].name { assert r in init; }
      forall i, j | 0 <= i < j < |fs| ensures fs[i].name != fs[j].name {
        var i' := if i < k then i else i - 1;
        var j' := if j < k then j else j - 1;
        if i == k {
          assert rest[j'] == fs[j] && fs[j] in rest;
        } else if j == k {
          assert rest[i'] == fs[i] && fs[i] in rest;
        } else {
          assert rest[i'] == fs[i] && rest[j'] == fs[j];
        }
      }
    }
  }

  // ---- main results ------------------------------------------------------------------------------------

  /** What the program returns, as a function of what its contract says. */
  ghost predicate Returns(ms: seq<Member>, epoch: int, packedSize: seq<TarEntry> -> int, out: seq<TarEntry>) {
    && 0 <= epoch <= MAX_EPOCH && Accepted(Views(ms))
    && packedSize(Sort(Normals(Views(ms), epoch))) <= MAX_DISTRIBUTION_BYTES
    && out == Sort(Normals(Views(ms), epoch))
  }

  /** Order, owners, times, other mode bits and trailing slashes change neither verdict nor output. */
  lemma DependsOnlyOnViews(ms: seq<Member>, ns: seq<Member>, epoch: int, packedSize: seq<TarEntry> -> int,
                           out: seq<TarEntry>)
    requires Permutes(Views(ms), Views(ns)) && Returns(ms, epoch, packedSize, out)
    ensures Returns(ns, epoch, packedSize, out)
  {
    hide Sort;
    AcceptedIsOrderFree(Views(ms), Views(ns));
    OutputIsStrictlySorted(ms, epoch);
    OutputIsStrictlySorted(ns, epoch);
    var normal := v => Normal(v, epoch);
    PermutedMap(normal, Views(ms), Views(ns));
    assert Normals(Views(ms), epoch) == Map(normal, Views(ms)) && Normals(Views(ns), epoch) == Map(normal, Views(ns));
    StrictlySortedIsUnique(Sort(Normals(Views(ms), epoch)), Sort(Normals(Views(ns), epoch)));
  }

  /** An entry as `tarfile` reads it back: a directory's name loses its trailing slash. */
  function ReadBack(e: TarEntry): Member {
    Member(if e.directory then Logical(e.name) else e.name, if e.directory then Directory else Regular, e.mode,
           |e.content|, e.content, Owner(0, 0, "", ""), e.mtime)
  }

  function ReadAll(es: seq<TarEntry>): (ms: seq<Member>)
    ensures |ms| == |es| && forall i | 0 <= i < |es| :: ms[i] == ReadBack(es[i])
  {
    seq(|es|, i requires 0 <= i < |es| => ReadBack(es[i]))
  }

  lemma ReadBackHasTheSameView(v: View, epoch: int)
    requires Sound(v) && Logical(v.name) == v.name && (v.kind.Directory? ==> v.executable && v.size == 0 && v.data == [])
    ensures ViewOf(ReadBack(Normal(v, epoch))) == v
  {
    assert v.name + "" == v.name;
    assert (v.name + "/")[..|v.name|] == v.name;
    assert 0x1ED as bv16 & 0x49 != 0 && 0x1A4 as bv16 & 0x49 == 0;
  }

  /** Canonicalising the canonical archive, read back in any order, gives it back. */
  lemma CanonicalizingIsIdempotent(ms: seq<Member>, epoch: int, packedSize: seq<TarEntry> -> int, out: seq<TarEntry>,
                                   again: seq<Member>)
    requires Returns(ms, epoch, packedSize, out) && Permutes(again, ReadAll(out))
    ensures Returns(again, epoch, packedSize, out)
  {
    hide OneRoot, ReadAll;
    var vs := Views(ms);
    var es := Normals(vs, epoch);
    SortSorts(es);
    forall i | 0 <= i < |vs| ensures ViewOf(ReadBack(es[i])) == vs[i] {
      LogicalIsFixed(ms[i].name);
      assert vs[i] in vs;
      ReadBackHasTheSameView(vs[i], epoch);
    }
    assert Views(ReadAll(es)) == vs;
    PermutedMap(ReadBack, es, out);
    assert Map(ReadBack, es) == ReadAll(es) && Map(ReadBack, out) == ReadAll(out);
    PermutedMap(ViewOf, ReadAll(es), again);
    assert Map(ViewOf, ReadAll(es)) == vs && Map(ViewOf, again) == Views(again);
    DependsOnlyOnViews(ms, again, epoch, packedSize, out);
  }
}
