/** `_relevant_packages` of the environment doctor: the dependency closure of the project's roots. */
module DependencyClosure {
  import opened Wrappers

  /** Installed distributions by normalized name, each with the names its requirements parse to. */
  type Installed = map<string, seq<Option<string>>>

  ghost predicate Seeded(roots: seq<string>, installed: Installed, s: set<string>) {
    forall x | x in roots && x in installed :: x in s
  }

  /** With every package, all its installed requirements are in the set. */
  ghost predicate ClosedExcept(installed: Installed, s: set<string>, pending: set<string>) {
    forall x, q | x in s && x in installed && Some(q) in installed[x] && q in installed :: q in s || q in pending
  }

  ghost predicate Closed(installed: Installed, s: set<string>) {
    ClosedExcept(installed, s, {})
  }

  /** `q` is needed by something installed that is reachable in `n` steps or fewer. */
  ghost predicate Reachable(roots: seq<string>, installed: Installed, q: string, n: nat)
    decreases n
  {
    q in installed
    && (q in roots
        || (n > 0 && exists x | x in installed :: Some(q) in installed[x] && Reachable(roots, installed, x, n - 1)))
  }

  lemma {:induction false} ReachableIsInEveryClosure(roots: seq<string>, installed: Installed, q: string, n: nat, s: set<string>)
    requires Reachable(roots, installed, q, n) && Seeded(roots, installed, s) && Closed(installed, s)
    ensures q in s
    decreases n
  {
    if q !in roots {
      var x :| x in installed && Some(q) in installed[x] && Reachable(roots, installed, x, n - 1);
      ReachableIsInEveryClosure(roots, installed, x, n - 1, s);
    }
  }

  function Elements(queue: seq<string>): set<string> {
    set x | x in queue
  }

  /** The requirements of one package that still have to be looked at. */
  method NewRequirements(requirements: seq<Option<string>>, installed: Installed, relevant: set<string>)
      returns (found: seq<string>)
    ensures forall q :: q in found <==> Some(q) in requirements && q in installed && q !in relevant
  {
    found := [];
    for k := 0 to |requirements|
      invariant forall q :: q in found <==> Some(q) in requirements[..k] && q in installed && q !in relevant
    {
      assert requirements[..k + 1] == requirements[..k] + [requirements[k]];
      if requirements[k].Some? && requirements[k].value in installed && requirements[k].value !in relevant {
        found := found + [requirements[k].value];
      }
    }
    assert requirements[..|requirements|] == requirements;
  }

  ghost predicate NeededByRoots(roots: seq<string>, installed: Installed, s: set<string>) {
    forall q | q in s :: exists n: nat :: Reachable(roots, installed, q, n)
  }

  /** Everything seen so far is needed, and nothing that is needed has been dropped. */
  ghost predicate Progress(roots: seq<string>, installed: Installed, relevant: set<string>, pending: set<string>) {
    && relevant + pending <= installed.Keys
    && Seeded(roots, installed, relevant + pending)
    && ClosedExcept(installed, relevant, pending)
    && NeededByRoots(roots, installed, relevant + pending)
  }

  lemma StaysClosed(installed: Installed, relevant: set<string>, rest: set<string>, current: string, found: set<string>)
    requires ClosedExcept(installed, relevant, rest + {current}) && current in installed
    requires forall q :: q in found <==> Some(q) in installed[current] && q in installed && q !in relevant + {current}
    ensures ClosedExcept(installed, relevant + {current}, rest + found)
  {
  }

  lemma FoundIsNeeded(roots: seq<string>, installed: Installed, current: string, found: set<string>)
    requires current in installed && NeededByRoots(roots, installed, {current})
    requires forall q | q in found :: Some(q) in installed[current] && q in installed
    ensures NeededByRoots(roots, installed, found)
  {
    assert current in {current};
    var n: nat :| Reachable(roots, installed, current, n);
    assert forall q | q in found :: Reachable(roots, installed, q, n + 1);
  }

  /** One package is looked at, its new requirements wait. */
  lemma LookAt(roots: seq<string>, installed: Installed, relevant: set<string>, rest: set<string>, current: string,
               found: set<string>)
    requires Progress(roots, installed, relevant, rest + {current})
    requires forall q :: q in found <==> Some(q) in installed[current] && q in installed && q !in relevant + {current}
    ensures Progress(roots, installed, relevant + {current}, rest + found)
  {
    assert current in relevant + (rest + {current});
    FoundIsNeeded(roots, installed, current, found);
    StaysClosed(installed, relevant, rest, current, found);
  }

  lemma Skip(roots: seq<string>, installed: Installed, relevant: set<string>, rest: set<string>, current: string)
    requires Progress(roots, installed, relevant, rest + {current}) && current in relevant
    ensures Progress(roots, installed, relevant, rest)
  {
    assert relevant + (rest + {current}) == relevant + rest;
  }

  lemma Pop(queue: seq<string>)
    requires queue != []
    ensures Elements(queue) == Elements(queue[..|queue| - 1]) + {queue[|queue| - 1]}
  {
    assert queue == queue[..|queue| - 1] + [queue[|queue| - 1]];
  }

  lemma Push(queue: seq<string>, found: seq<string>)
    ensures Elements(queue + found) == Elements(queue) + Elements(found)
  {
  }

  lemma LeastClosedSet(roots: seq<string>, installed: Installed, relevant: set<string>)
    requires Progress(roots, installed, relevant, {})
    ensures Seeded(roots, installed, relevant) && Closed(installed, relevant) && NeededByRoots(roots, installed, relevant)
    ensures forall s | Seeded(roots, installed, s) && Closed(installed, s) :: relevant <= s
  {
    assert relevant + {} == relevant;
    forall s, q | Seeded(roots, installed, s) && Closed(installed, s) && q in relevant ensures q in s {
      var n: nat :| Reachable(roots, installed, q, n);
      ReachableIsInEveryClosure(roots, installed, q, n, s);
    }
  }

  /** The roots that are installed. */
  method InstalledRoots(roots: seq<string>, installed: Installed) returns (queue: seq<string>)
    ensures forall x :: x in queue <==> x in roots && x in installed
  {
    queue := [];
    for k := 0 to |roots|
      invariant forall x :: x in queue <==> x in roots[..k] && x in installed
    {
      assert roots[..k + 1] == roots[..k] + [roots[k]];
      if roots[k] in installed {
        queue := queue + [roots[k]];
      }
    }
    assert roots[..|roots|] == roots;
  }

  lemma Start(roots: seq<string>, installed: Installed, pending: set<string>)
    requires forall x :: x in pending <==> x in roots && x in installed
    ensures Progress(roots, installed, {}, pending)
  {
    assert forall q | q in pending :: Reachable(roots, installed, q, 0);
  }

  /**
   The work list ends with the least closed set: everything in it is reachable from a root, it is
   closed, and every closed set with the roots contains it.
   */
  method RelevantPackages(roots: seq<string>, installed: Installed) returns (relevant: set<string>)
    ensures relevant <= installed.Keys && Seeded(roots, installed, relevant) && Closed(installed, relevant)
    ensures NeededByRoots(roots, installed, relevant)
    ensures forall s | Seeded(roots, installed, s) && Closed(installed, s) :: relevant <= s
  {
    relevant := {};
    var queue := InstalledRoots(roots, installed);
    Start(roots, installed, Elements(queue));
    while queue != []
      invariant Progress(roots, installed, relevant, Elements(queue))
      decreases |installed.Keys - relevant|, |queue|
    {
      var current, rest := queue[|queue| - 1], queue[..|queue| - 1];
      Pop(queue);
      if current in relevant {
        Skip(roots, installed, relevant, Elements(rest), current);
        queue := rest;
      } else {
        assert current in Elements(queue);
        var found := NewRequirements(installed[current], installed, relevant + {current});
        Shrinks(installed.Keys, relevant, current);
        LookAt(roots, installed, relevant, Elements(rest), current, Elements(found));
        Push(rest, found);
        relevant := relevant + {current};
        queue := rest + found;
      }
    }
    assert Elements(queue) == {};
    LeastClosedSet(roots, installed, relevant);
  }

  lemma Shrinks(all: set<string>, s: set<string>, x: string)
    requires x in all && x !in s
    ensures |all - (s + {x})| < |all - s|
  {
    assert all - s == (all - (s + {x})) + {x};
  }
}
