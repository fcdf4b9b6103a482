/**
 * The two flood fills of the game: colour matching from a freshly attached
 * bubble (`find_matches`, `find_matching_neighbors`) and the colour-blind
 * fill from the ceiling row that decides which bubbles still hang on
 * (`mark_connected`).  The recursive marking of the source is an iterative
 * traversal with a visited set; per-bubble `marked` flags are not needed.
 */
module Connectivity {
  import opened HexGrid

  /**
   * One step of a traversal: both cells hold a bubble, b is among a's
   * neighbours and, unless colour is ignored, the two bubbles match.
   */
  predicate Linked(g: Grid, blind: bool, a: Cell, b: Cell)
    requires Shaped(g)
  {
    Occupied(g, a) && Occupied(g, b) && b in Neighbours(a.0, a.1) &&
    (blind || Matches(At(g, a).value, At(g, b).value))
  }

  /** The test the traversal applies to a neighbour n of the current cell c. */
  predicate Step(g: Grid, blind: bool, c: Cell, n: Cell)
    requires Shaped(g) && Occupied(g, c)
  {
    InBounds(n) && At(g, n).Some? && (blind || Matches(At(g, c).value, At(g, n).value))
  }

  ghost predicate IsPath(g: Grid, blind: bool, p: seq<Cell>)
    requires Shaped(g)
  {
    |p| > 0 && Occupied(g, p[0]) &&
    forall i :: 0 <= i < |p| - 1 ==> Linked(g, blind, p[i], p[i + 1])
  }

  /** c can be reached from one of the seeds by a chain of linked cells. */
  ghost predicate Reachable(g: Grid, blind: bool, seeds: seq<Cell>, c: Cell)
    requires Shaped(g)
  {
    exists p :: IsPath(g, blind, p) && p[0] in seeds && p[|p| - 1] == c
  }

  /** c belongs to the colour cluster grown from origin. */
  ghost predicate InCluster(g: Grid, origin: Cell, c: Cell)
    requires Shaped(g)
  {
    Reachable(g, false, [origin], c)
  }

  /** c hangs from the ceiling: a colour-blind chain leads to it from an occupied row-0 cell. */
  ghost predicate Anchored(g: Grid, c: Cell)
    requires Shaped(g)
  {
    exists p: seq<Cell> :: IsPath(g, true, p) && p[0].0 == 0 && p[|p| - 1] == c
  }

  lemma {:induction false} PathExtend(g: Grid, blind: bool, p: seq<Cell>, n: Cell)
    requires Shaped(g) && IsPath(g, blind, p) && Linked(g, blind, p[|p| - 1], n)
    ensures IsPath(g, blind, p + [n])
  {
    var q := p + [n];
    forall i | 0 <= i < |q| - 1
      ensures Linked(g, blind, q[i], q[i + 1])
    {
      if i < |p| - 1 {
        assert q[i] == p[i] && q[i + 1] == p[i + 1];
      }
    }
  }

  lemma {:induction false} PathPrefix(g: Grid, blind: bool, p: seq<Cell>, k: nat)
    requires Shaped(g) && IsPath(g, blind, p) && 0 < k <= |p|
    ensures IsPath(g, blind, p[..k])
  {
    var q := p[..k];
    forall i | 0 <= i < |q| - 1
      ensures Linked(g, blind, q[i], q[i + 1])
    {
      assert q[i] == p[i] && q[i + 1] == p[i + 1];
    }
  }

  /** A set that holds p's first cell and is closed under links holds all of p. */
  lemma {:induction false} ClosedHoldsPath(g: Grid, blind: bool, s: set<Cell>, p: seq<Cell>)
    requires Shaped(g) && IsPath(g, blind, p) && p[0] in s
    requires forall c, n {:trigger Linked(g, blind, c, n)} :: c in s && Linked(g, blind, c, n) ==> n in s
    ensures p[|p| - 1] in s
    decreases |p|
  {
    if |p| > 1 {
      var q := p[..|p| - 1];
      PathPrefix(g, blind, p, |p| - 1);
      ClosedHoldsPath(g, blind, s, q);
      assert q[|q| - 1] == p[|p| - 2];
      assert Linked(g, blind, p[|p| - 2], p[|p| - 1]);
    }
  }

  /** Every visited cell holds a bubble reachable from the seeds. */
  ghost predicate Sound(g: Grid, blind: bool, seeds: seq<Cell>, visited: set<Cell>)
    requires Shaped(g)
  {
    forall x :: x in visited ==> Occupied(g, x) && Reachable(g, blind, seeds, x)
  }

  /** Every link out of the first k cells of the order leads to a visited cell. */
  ghost predicate ClosedUpTo(g: Grid, blind: bool, order: seq<Cell>, k: int, visited: set<Cell>)
    requires Shaped(g)
  {
    forall j, n {:trigger Linked(g, blind, order[j], n)} ::
      0 <= j < k && j < |order| && Linked(g, blind, order[j], n) ==> n in visited
  }

  /**
   * The state of `Expand`, working on c = order0[k], after it has looked at
   * the first i neighbours ns[..i] of c.
   */
  ghost predicate Progress(g: Grid, blind: bool, seeds: seq<Cell>, order0: seq<Cell>, k: int,
                           ns: seq<Cell>, i: int, visited0: set<Cell>,
                           visited: set<Cell>, order: seq<Cell>, grew: bool)
  {
    Shaped(g) && |ns| == 6 && 0 <= i <= 6 && 0 <= k < |order0| <= |order| &&
    (forall j :: 0 <= j < |order0| ==> order[j] == order0[j]) &&
    Distinct(order) && (forall x :: x in order <==> x in visited) &&
    visited0 <= visited && (!grew ==> order == order0) &&
    (grew ==> exists x :: x in visited && x !in visited0) &&
    Sound(g, blind, seeds, visited) &&
    ClosedUpTo(g, blind, order, k, visited) &&
    Occupied(g, order0[k]) &&
    forall j :: 0 <= j < i ==> ns[j] in visited || !Step(g, blind, order0[k], ns[j])
  }

  lemma ProgressSkip(g: Grid, blind: bool, seeds: seq<Cell>, order0: seq<Cell>, k: int,
                     ns: seq<Cell>, i: int, visited0: set<Cell>,
                     visited: set<Cell>, order: seq<Cell>, grew: bool)
    requires Progress(g, blind, seeds, order0, k, ns, i, visited0, visited, order, grew) && i < 6
    requires ns[i] in visited || !Step(g, blind, order0[k], ns[i])
    ensures Progress(g, blind, seeds, order0, k, ns, i + 1, visited0, visited, order, grew)
  {
  }

  lemma ProgressVisit(g: Grid, blind: bool, seeds: seq<Cell>, order0: seq<Cell>, k: int,
                      ns: seq<Cell>, i: int, visited0: set<Cell>,
                      visited: set<Cell>, order: seq<Cell>, grew: bool)
    requires Progress(g, blind, seeds, order0, k, ns, i, visited0, visited, order, grew) && i < 6
    requires ns == Neighbours(order0[k].0, order0[k].1)
    requires ns[i] !in visited && Step(g, blind, order0[k], ns[i])
    ensures Progress(g, blind, seeds, order0, k, ns, i + 1, visited0,
                     visited + {ns[i]}, order + [ns[i]], true)
  {
    var c, n := order0[k], ns[i];
    assert order[k] == c && c in visited;
    assert Linked(g, blind, c, n);
    SoundExtend(g, blind, seeds, visited, c, n);
    assert n in visited + {n} && n !in visited0;
    var order' := order + [n];
    forall a, b | 0 <= a < b < |order'|
      ensures order'[a] != order'[b]
    {
      if b < |order| {
        assert order'[a] == order[a] && order'[b] == order[b];
      } else {
        assert order[a] in visited;
      }
    }
    forall j, m | 0 <= j < k && j < |order'| && Linked(g, blind, order'[j], m)
      ensures m in visited + {n}
    {
      assert order'[j] == order[j];
    }
  }

  /**
   * One step of the traversal from order0[k]: every neighbour that it links
   * to and that is not yet visited is visited and appended to the order.
   */
  method Expand(g: Grid, blind: bool, ghost seeds: seq<Cell>, order0: seq<Cell>, k: int,
                visited0: set<Cell>)
    returns (visited: set<Cell>, order: seq<Cell>, ghost grew: bool)
    requires Shaped(g) && 0 <= k < |order0|
    requires Distinct(order0) && forall x :: x in order0 <==> x in visited0
    requires Sound(g, blind, seeds, visited0)
    requires ClosedUpTo(g, blind, order0, k, visited0)
    ensures |order0| <= |order| && forall j :: 0 <= j < |order0| ==> order[j] == order0[j]
    ensures Distinct(order) && forall x :: x in order <==> x in visited
    ensures visited0 <= visited
    ensures !grew ==> order == order0
    ensures grew ==> exists x :: x in visited && x !in visited0
    ensures Sound(g, blind, seeds, visited)
    ensures ClosedUpTo(g, blind, order, k + 1, visited)
  {
    visited, order, grew := visited0, order0, false;
    var c := order0[k];
    assert c in visited0;
    var ns := Neighbours(c.0, c.1);
    var i := 0;
    while i < 6
      invariant Progress(g, blind, seeds, order0, k, ns, i, visited0, visited, order, grew)
      decreases 6 - i
    {
      var n := ns[i];
      if Step(g, blind, c, n) && n !in visited {
        ProgressVisit(g, blind, seeds, order0, k, ns, i, visited0, visited, order, grew);
        visited := visited + {n};
        order := order + [n];
        grew := true;
      } else {
        ProgressSkip(g, blind, seeds, order0, k, ns, i, visited0, visited, order, grew);
      }
      i := i + 1;
    }
    forall j, n | 0 <= j < k + 1 && j < |order| && Linked(g, blind, order[j], n)
      ensures n in visited
    {
      if j == k {
        assert order[j] == c;
        assert n in ns;
      }
    }
  }

  lemma SoundExtend(g: Grid, blind: bool, seeds: seq<Cell>, visited: set<Cell>, c: Cell, n: Cell)
    requires Shaped(g) && Sound(g, blind, seeds, visited) && c in visited && Linked(g, blind, c, n)
    ensures Sound(g, blind, seeds, visited + {n})
  {
    var p :| IsPath(g, blind, p) && p[0] in seeds && p[|p| - 1] == c;
    PathExtend(g, blind, p, n);
    var q := p + [n];
    assert q[0] in seeds && q[|q| - 1] == n;
    assert Reachable(g, blind, seeds, n);
  }

  lemma RemoveOne(s: set<Cell>, x: Cell)
    requires x in s
    ensures |s - {x}| == |s| - 1
  {
  }

  /** A finite set holding every in-range cell outside s. */
  lemma CellsOutside(s: set<Cell>) returns (u: set<Cell>)
    ensures forall x :: InBounds(x) && x !in s ==> x in u
  {
    u := AllCells() - s;
  }

  /**
   * Traversal from the seeds, following links: the result lists, once each,
   * exactly the cells reachable from the seeds.  With `blind` this is
   * `mark_connected` started from every seed with shared marks; without it,
   * `find_matching_neighbors` from a single seed.
   */
  method Flood(g: Grid, seeds: seq<Cell>, blind: bool) returns (order: seq<Cell>)
    requires Shaped(g)
    requires Distinct(seeds)
    requires forall i :: 0 <= i < |seeds| ==> Occupied(g, seeds[i])
    ensures Distinct(order)
    ensures forall c :: c in order <==> Reachable(g, blind, seeds, c)
  {
    order := seeds;
    var visited := set s | s in seeds;
    var k := 0;
    ghost var unseen := FloodStart(g, blind, seeds, visited);
    while k < |order|
      invariant FloodInv(g, blind, seeds, order, k, visited, unseen)
      decreases |unseen|, |order| - k
    {
      order, visited, unseen := FloodStep(g, blind, seeds, order, k, visited, unseen);
      k := k + 1;
    }
    TraversalComplete(g, blind, seeds, order, visited);
  }

  /** The state of `Flood` after the first k cells of the order have been expanded. */
  ghost predicate FloodInv(g: Grid, blind: bool, seeds: seq<Cell>, order: seq<Cell>, k: int,
                           visited: set<Cell>, unseen: set<Cell>)
  {
    Shaped(g) && 0 <= k <= |order| &&
    Distinct(order) && (forall c :: c in order <==> c in visited) &&
    Sound(g, blind, seeds, visited) &&
    (forall s :: s in seeds ==> s in visited) &&
    ClosedUpTo(g, blind, order, k, visited) &&
    forall x :: InBounds(x) && x !in visited ==> x in unseen
  }

  lemma FloodStart(g: Grid, blind: bool, seeds: seq<Cell>, visited: set<Cell>) returns (unseen: set<Cell>)
    requires Shaped(g) && Distinct(seeds)
    requires forall i :: 0 <= i < |seeds| ==> Occupied(g, seeds[i])
    requires visited == set s | s in seeds
    ensures FloodInv(g, blind, seeds, seeds, 0, visited, unseen)
  {
    forall s | s in seeds
      ensures Reachable(g, blind, seeds, s)
    {
      assert IsPath(g, blind, [s]);
    }
    unseen := CellsOutside(visited);
  }

  /** One round of `Flood`: expand order[k]; either a cell was seen for the first time or nothing was added. */
  method FloodStep(g: Grid, blind: bool, ghost seeds: seq<Cell>, order0: seq<Cell>, k: int,
                   visited0: set<Cell>, ghost unseen0: set<Cell>)
    returns (order: seq<Cell>, visited: set<Cell>, ghost unseen: set<Cell>)
    requires FloodInv(g, blind, seeds, order0, k, visited0, unseen0) && k < |order0|
    ensures FloodInv(g, blind, seeds, order, k + 1, visited, unseen)
    ensures |unseen| < |unseen0| || (unseen == unseen0 && order == order0)
  {
    ghost var grew;
    visited, order, grew := Expand(g, blind, seeds, order0, k, visited0);
    unseen := unseen0;
    if grew {
      ghost var x :| x in visited && x !in visited0;
      RemoveOne(unseen, x);
      unseen := unseen - {x};
    }
  }

  /** Once every cell of the order has been expanded, everything reachable has been visited. */
  lemma TraversalComplete(g: Grid, blind: bool, seeds: seq<Cell>, order: seq<Cell>, visited: set<Cell>)
    requires Shaped(g) && ClosedUpTo(g, blind, order, |order|, visited)
    requires forall c :: c in order <==> c in visited
    requires forall s :: s in seeds ==> s in visited
    ensures forall x :: Reachable(g, blind, seeds, x) ==> x in visited
  {
    forall c, n | c in visited && Linked(g, blind, c, n)
      ensures n in visited
    {
      assert c in order;
      var j :| 0 <= j < |order| && order[j] == c;
      assert Linked(g, blind, order[j], n);
    }
    forall x | Reachable(g, blind, seeds, x)
      ensures x in visited
    {
      var p :| IsPath(g, blind, p) && p[0] in seeds && p[|p| - 1] == x;
      ClosedHoldsPath(g, blind, visited, p);
    }
  }

  /** A rainbow cell's colour takes no part in any link: recolouring it changes no link. */
  lemma RecolouredRainbowKeepsLinks(g: Grid, o: Cell, k: Colour, a: Cell, b: Cell)
    requires Shaped(g) && Occupied(g, o) && At(g, o).value.rainbow
    ensures Linked(Put(g, o, Some(At(g, o).value.(colour := k))), false, a, b) <==> Linked(g, false, a, b)
  {
  }

  /** Hence it changes no cluster. */
  lemma RecolouredRainbowKeepsCluster(g: Grid, o: Cell, k: Colour, c: Cell)
    requires Shaped(g) && Occupied(g, o) && At(g, o).value.rainbow
    ensures InCluster(Put(g, o, Some(At(g, o).value.(colour := k))), o, c) <==> InCluster(g, o, c)
  {
    var h := Put(g, o, Some(At(g, o).value.(colour := k)));
    forall p | |p| > 0
      ensures IsPath(h, false, p) <==> IsPath(g, false, p)
    {
      forall i | 0 <= i < |p| - 1
        ensures Linked(h, false, p[i], p[i + 1]) <==> Linked(g, false, p[i], p[i + 1])
      {
        RecolouredRainbowKeepsLinks(g, o, k, p[i], p[i + 1]);
      }
    }
    if InCluster(h, o, c) {
      var p :| IsPath(h, false, p) && p[0] in [o] && p[|p| - 1] == c;
      assert IsPath(g, false, p);
    }
    if InCluster(g, o, c) {
      var p :| IsPath(g, false, p) && p[0] in [o] && p[|p| - 1] == c;
      assert IsPath(h, false, p);
    }
  }

  /** The last cell of a path holds a bubble. */
  lemma PathEndOccupied(g: Grid, blind: bool, p: seq<Cell>)
    requires Shaped(g) && IsPath(g, blind, p)
    ensures Occupied(g, p[|p| - 1])
  {
    if |p| > 1 {
      assert Linked(g, blind, p[|p| - 2], p[|p| - 1]);
    }
  }

  lemma ReachableOccupied(g: Grid, blind: bool, seeds: seq<Cell>, c: Cell)
    requires Shaped(g) && Reachable(g, blind, seeds, c)
    ensures Occupied(g, c)
  {
    var p :| IsPath(g, blind, p) && p[0] in seeds && p[|p| - 1] == c;
    PathEndOccupied(g, blind, p);
  }

  lemma PathStartLinked(g: Grid, blind: bool, p: seq<Cell>)
    requires Shaped(g) && IsPath(g, blind, p) && |p| > 1
    ensures Linked(g, blind, p[0], p[1])
  {
  }

  /** A bubble with no occupied neighbour forms a cluster of its own. */
  lemma {:induction false} LoneCluster(g: Grid, o: Cell, c: Cell)
    requires Shaped(g) && Occupied(g, o)
    requires forall n :: n in Neighbours(o.0, o.1) ==> !Occupied(g, n)
    ensures InCluster(g, o, c) <==> c == o
  {
    if c == o {
      assert IsPath(g, false, [o]);
    }
    if InCluster(g, o, c) {
      var p :| IsPath(g, false, p) && p[0] in [o] && p[|p| - 1] == c;
      if |p| > 1 {
        PathStartLinked(g, false, p);
        assert false;
      }
    }
  }

  /**
   * `find_matches`.  A plain origin gets its colour cluster.  A rainbow
   * origin is tried, in neighbour order, with the colour of each occupied
   * neighbour (duplicates included) and the first strictly larger trial
   * cluster is kept; with no occupied neighbour the result is the origin
   * alone.  Because the origin keeps its rainbow flag during the trials,
   * every trial yields the origin's cluster, so the result is that cluster
   * in every case.
   */
  method FindMatches(g: Grid, origin: Cell) returns (matches: seq<Cell>)
    requires Shaped(g) && Occupied(g, origin)
    ensures Distinct(matches)
    ensures origin in matches
    ensures forall c :: c in matches <==> InCluster(g, origin, c)
    ensures At(g, origin).value.rainbow && (forall n :: n in Neighbours(origin.0, origin.1) ==> !Occupied(g, n))
            ==> matches == [origin]
  {
    var b := At(g, origin).value;
    assert IsPath(g, false, [origin]);
    if b.rainbow {
      var ns := Neighbours(origin.0, origin.1);
      var best: seq<Cell> := [];
      var found := false;
      var i := 0;
      while i < 6
        invariant 0 <= i <= 6
        invariant found <==> exists j :: 0 <= j < i && Occupied(g, ns[j])
        invariant found ==> Distinct(best) && forall c :: c in best <==> InCluster(g, origin, c)
        invariant !found ==> best == []
      {
        var n := ns[i];
        if InBounds(n) && At(g, n).Some? {
          // the origin temporarily takes the neighbour's colour
          var trial := Put(g, origin, Some(b.(colour := At(g, n).value.colour)));
          var temp := Flood(trial, [origin], false);
          forall c
            ensures c in temp <==> InCluster(g, origin, c)
          {
            RecolouredRainbowKeepsCluster(g, origin, At(g, n).value.colour, c);
          }
          if |temp| > |best| {
            best := temp;
          }
          found := true;
        }
        i := i + 1;
      }
      if found {
        matches := best;
      } else {
        forall c
          ensures InCluster(g, origin, c) <==> c == origin
        {
          LoneCluster(g, origin, c);
        }
        matches := [origin];
      }
    } else {
      matches := Flood(g, [origin], false);
    }
  }

  /**
   * With no rainbow bubble in the grid, every member of a cluster has the
   * origin's colour.
   */
  lemma {:induction false} PlainClusterIsMonochrome(g: Grid, p: seq<Cell>)
    requires Shaped(g) && IsPath(g, false, p)
    requires forall c :: Occupied(g, c) ==> !At(g, c).value.rainbow
    ensures Occupied(g, p[|p| - 1]) && At(g, p[|p| - 1]).value.colour == At(g, p[0]).value.colour
    decreases |p|
  {
    if |p| > 1 {
      PathPrefix(g, false, p, |p| - 1);
      PlainClusterIsMonochrome(g, p[..|p| - 1]);
      assert Linked(g, false, p[|p| - 2], p[|p| - 1]);
    }
  }

  /**
   * Whereas a rainbow bubble already in the grid bridges colours: whatever
   * the colours of a and b, a rainbow bubble r next to both puts b in the
   * cluster grown from a.
   */
  lemma RainbowBridgesColours(g: Grid, a: Cell, r: Cell, b: Cell)
    requires Shaped(g) && Occupied(g, a) && Occupied(g, r) && Occupied(g, b)
    requires At(g, r).value.rainbow
    requires r in Neighbours(a.0, a.1) && b in Neighbours(r.0, r.1)
    ensures InCluster(g, a, b)
  {
    var p := [a, r, b];
    assert Linked(g, false, p[0], p[1]);
    assert Linked(g, false, p[1], p[2]);
    assert IsPath(g, false, p);
  }
}
