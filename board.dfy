/**
 * The board as the game keeps it twice: the 2-D grid and the flat list
 * `bubbles`.  Here are the agreement between the two, the list and grid
 * effects of removing bubbles, and the read-only scans the game makes over
 * the grid (ceiling row, bomb disc, lightning column, placement cell).
 */
module Board {
  import opened HexGrid
  import opened Connectivity

  /** The cell a bubble records as its own. */
  function Home(b: Bubble): Cell {
    (b.row, b.col)
  }

  /**
   * The grid and the list hold the same bubbles: every listed bubble sits in
   * its own cell at that cell's centre, every occupied cell holds a listed
   * bubble recording that cell, and no bubble is listed twice.
   */
  ghost predicate Consistent(g: Grid, bs: seq<Bubble>) {
    Shaped(g) && Distinct(bs) &&
    (forall b :: b in bs ==>
       InBounds(Home(b)) && At(g, Home(b)) == Some(b) &&
       b.x == CentreX(b.row, b.col) && b.y == CentreY(b.row)) &&
    (forall c :: InBounds(c) && At(g, c).Some? ==> At(g, c).value in bs && Home(At(g, c).value) == c)
  }

  /** Cell c of g holds bubble b. */
  predicate Holds(g: Grid, c: Cell, b: Bubble)
    requires Shaped(g)
  {
    InBounds(c) && At(g, c) == Some(b)
  }

  /** Two listed bubbles recording the same cell are the same bubble. */
  lemma HomesDistinct(g: Grid, bs: seq<Bubble>, a: Bubble, b: Bubble)
    requires Consistent(g, bs) && a in bs && b in bs && Home(a) == Home(b)
    ensures a == b
  {
    assert At(g, Home(a)) == Some(a) && At(g, Home(b)) == Some(b);
  }

  /** The list without the bubbles whose cell is in k, in list order. */
  function Drop(bs: seq<Bubble>, k: set<Cell>): (r: seq<Bubble>)
    ensures forall b :: b in r <==> b in bs && Home(b) !in k
    ensures Distinct(bs) ==> Distinct(r)
    ensures |r| <= |bs|
  {
    if bs == [] then []
    else
      var rest := Drop(bs[1..], k);
      assert Distinct(bs) ==> Distinct(bs[1..]) && bs[0] !in bs[1..];
      if Home(bs[0]) in k then rest else [bs[0]] + rest
  }

  /** `list.remove(x)`: the first occurrence of x goes, the rest keeps its order. */
  function Remove<T(==)>(bs: seq<T>, x: T): (r: seq<T>)
    ensures x !in bs ==> r == bs
    ensures x in bs ==> |r| == |bs| - 1
    ensures multiset(r) == multiset(bs) - multiset{x}
  {
    if bs == [] then []
    else
      assert bs == [bs[0]] + bs[1..];
      if bs[0] == x then bs[1..] else [bs[0]] + Remove(bs[1..], x)
  }

  /** On a list whose bubbles record distinct cells, removing x is dropping x's cell. */
  lemma {:induction false} RemoveIsDrop(bs: seq<Bubble>, k: set<Cell>, x: Bubble)
    requires forall a, b :: a in bs && b in bs && Home(a) == Home(b) ==> a == b
    requires Distinct(bs)
    requires x in Drop(bs, k)
    ensures Remove(Drop(bs, k), x) == Drop(bs, k + {Home(x)})
    decreases |bs|
  {
    var t := bs[1..];
    assert Distinct(t) && bs[0] !in t;
    if bs[0] == x {
      assert Drop(bs, k) == [x] + Drop(t, k);
      DropWithout(t, k, Home(x));
    } else if Home(bs[0]) in k {
      RemoveIsDrop(t, k, x);
    } else {
      assert Home(bs[0]) != Home(x);
      RemoveIsDrop(t, k, x);
    }
  }

  /** Dropping one more cell that no bubble of the list records changes nothing. */
  lemma {:induction false} DropWithout(bs: seq<Bubble>, k: set<Cell>, h: Cell)
    requires forall b :: b in bs ==> Home(b) != h
    ensures Drop(bs, k + {h}) == Drop(bs, k)
    decreases |bs|
  {
    if bs != [] {
      DropWithout(bs[1..], k, h);
    }
  }

  /** The grid with the cells of k emptied. */
  function Clear(g: Grid, k: set<Cell>): (h: Grid)
    requires Shaped(g)
    ensures Shaped(h)
    ensures forall c :: InBounds(c) ==> At(h, c) == if c in k then None else At(g, c)
  {
    seq(Rows, r requires 0 <= r < Rows =>
      seq(Cols, c requires 0 <= c < Cols => if (r, c) in k then None else g[r][c]))
  }

  /** Two shaped grids with the same content in every cell are equal. */
  lemma SameGrid(g: Grid, h: Grid)
    requires Shaped(g) && Shaped(h)
    requires forall c :: InBounds(c) ==> At(g, c) == At(h, c)
    ensures g == h
  {
    forall r | 0 <= r < Rows
      ensures g[r] == h[r]
    {
      forall k | 0 <= k < Cols
        ensures g[r][k] == h[r][k]
      {
        assert At(g, (r, k)) == At(h, (r, k));
      }
    }
  }

  /** The cells of the listed bubbles among t: what `remove_bubbles(t)` empties. */
  function Homes(t: seq<Bubble>, bs: seq<Bubble>): set<Cell> {
    set b | b in t && b in bs :: Home(b)
  }

  /** Listed bubbles recording the same cell are the same bubble, for all pairs. */
  lemma HomesUnique(g: Grid, bs: seq<Bubble>)
    requires Consistent(g, bs)
    ensures forall a, b :: a in bs && b in bs && Home(a) == Home(b) ==> a == b
  {
    forall a, b | a in bs && b in bs && Home(a) == Home(b)
      ensures a == b
    {
      HomesDistinct(g, bs, a, b);
    }
  }

  /** The prefix of length i + 1 is the prefix of length i and element i. */
  lemma PrefixSnoc<T>(xs: seq<T>, i: int)
    requires 0 <= i < |xs|
    ensures xs[..i + 1] == xs[..i] + [xs[i]]
  {
  }

  /**
   * One pass of the removal loop of `remove_bubbles` after the bubbles of
   * `done` have been handled: a listed x is taken off the list and its cell
   * emptied; an unlisted x changes nothing.
   */
  lemma RemoveStep(g0: Grid, bs0: seq<Bubble>, xs: seq<Bubble>, i: int)
    requires Consistent(g0, bs0) && 0 <= i < |xs|
    ensures var x, h, h' := xs[i], Homes(xs[..i], bs0), Homes(xs[..i + 1], bs0);
      (x in Drop(bs0, h) ==>
         InBounds(Home(x)) && Remove(Drop(bs0, h), x) == Drop(bs0, h') &&
         Put(Clear(g0, h), Home(x), None) == Clear(g0, h')) &&
      (x !in Drop(bs0, h) ==> h' == h)
  {
    var x := xs[i];
    PrefixSnoc(xs, i);
    var h, h' := Homes(xs[..i], bs0), Homes(xs[..i + 1], bs0);
    if x in Drop(bs0, h) {
      assert h' == h + {Home(x)};
      HomesUnique(g0, bs0);
      RemoveIsDrop(bs0, h, x);
      SameGrid(Put(Clear(g0, h), Home(x), None), Clear(g0, h'));
    } else {
      assert h' == h;
    }
  }

  /** Removing the bubbles recording the cells of k keeps the two records in agreement. */
  lemma DropConsistent(g: Grid, bs: seq<Bubble>, k: set<Cell>)
    requires Consistent(g, bs)
    ensures Consistent(Clear(g, k), Drop(bs, k))
  {
    var h, r := Clear(g, k), Drop(bs, k);
    forall c | InBounds(c) && At(h, c).Some?
      ensures At(h, c).value in r && Home(At(h, c).value) == c
    {
      assert c !in k && At(g, c) == At(h, c);
    }
  }

  /** Putting a new, snapped bubble into an empty cell and appending it keeps the agreement. */
  lemma PlaceConsistent(g: Grid, bs: seq<Bubble>, b: Bubble)
    requires Consistent(g, bs)
    requires InBounds(Home(b)) && At(g, Home(b)).None?
    requires b.x == CentreX(b.row, b.col) && b.y == CentreY(b.row)
    ensures Consistent(Put(g, Home(b), Some(b)), bs + [b])
  {
    var h, r := Put(g, Home(b), Some(b)), bs + [b];
    assert b !in bs;
    forall i, j | 0 <= i < j < |r|
      ensures r[i] != r[j]
    {
      if j < |bs| {
        assert r[i] == bs[i] && r[j] == bs[j];
      }
    }
    forall x | x in r
      ensures InBounds(Home(x)) && At(h, Home(x)) == Some(x)
    {
      if x != b {
        assert x in bs;
      }
    }
  }

  /** The cells of b's cluster in g, as a set. */
  ghost function ClusterCells(g: Grid, p: Cell): set<Cell>
    requires Shaped(g)
  {
    set c | c in AllCells() && InCluster(g, p, c)
  }

  /** The cells that hang from the ceiling in g. */
  ghost function AnchoredCells(g: Grid): set<Cell>
    requires Shaped(g)
  {
    set c | c in AllCells() && Anchored(g, c)
  }

  /** The bubbles of the list that do not hang from the ceiling, in list order. */
  ghost function Unanchored(g: Grid, bs: seq<Bubble>): (f: seq<Bubble>)
    requires Shaped(g)
    ensures forall b :: b in f <==> b in bs && Home(b) !in AnchoredCells(g)
  {
    Drop(bs, AnchoredCells(g))
  }

  /** A list of distinct cells has as many elements as its set. */
  lemma {:induction false} DistinctCard(s: seq<Cell>)
    requires Distinct(s)
    ensures |set x | x in s| == |s|
  {
    if s != [] {
      var t := s[1..];
      assert Distinct(t);
      DistinctCard(t);
      assert (set x | x in s) == (set x | x in t) + {s[0]};
      assert s[0] !in t;
    }
  }

  /**
   * A list of bubbles that are exactly the ones standing on the cells of S
   * makes `remove_bubbles` empty exactly the cells of S.
   */
  lemma HomesOfCells(g: Grid, bs: seq<Bubble>, t: seq<Bubble>, S: set<Cell>)
    requires Consistent(g, bs)
    requires forall c :: c in S ==> Occupied(g, c)
    requires forall b :: b in t <==> exists c :: c in S && Holds(g, c, b)
    ensures Homes(t, bs) == S
  {
    forall c | c in S
      ensures c in Homes(t, bs)
    {
      var b := At(g, c).value;
      assert b in t && b in bs && Home(b) == c;
    }
  }

  /** The content of cells, in order; each must hold a bubble. */
  function BubblesAt(g: Grid, cs: seq<Cell>): (t: seq<Bubble>)
    requires Shaped(g) && forall i :: 0 <= i < |cs| ==> Occupied(g, cs[i])
    ensures |t| == |cs|
    ensures forall i :: 0 <= i < |cs| ==> Holds(g, cs[i], t[i])
  {
    seq(|cs|, i requires 0 <= i < |cs| && Occupied(g, cs[i]) => At(g, cs[i]).value)
  }

  /** Clearing no cell changes neither grid nor list. */
  lemma NothingCleared(g: Grid, bs: seq<Bubble>)
    requires Shaped(g)
    ensures Clear(g, {}) == g && Drop(bs, {}) == bs
  {
    SameGrid(Clear(g, {}), g);
    DropNothing(bs, {});
  }

  lemma {:induction false} DropNothing(bs: seq<Bubble>, k: set<Cell>)
    requires k == {}
    ensures Drop(bs, k) == bs
    decreases |bs|
  {
    if bs != [] {
      DropNothing(bs[1..], k);
      assert bs == [bs[0]] + bs[1..];
    }
  }

  /**
   * The cells `find_matches` returns for the bubble at p are the colour
   * cluster of p: as many cells as the cluster, each holding a bubble, and
   * the bubbles standing on them make `remove_bubbles` empty the cluster.
   */
  lemma MatchedCells(g: Grid, bs: seq<Bubble>, p: Cell, matches: seq<Cell>)
    requires Consistent(g, bs) && Distinct(matches)
    requires forall c :: c in matches <==> InCluster(g, p, c)
    ensures forall i :: 0 <= i < |matches| ==> Occupied(g, matches[i])
    ensures |matches| == |ClusterCells(g, p)|
    ensures Homes(BubblesAt(g, matches), bs) == ClusterCells(g, p)
  {
    var S := ClusterCells(g, p);
    forall c | InCluster(g, p, c)
      ensures Occupied(g, c)
    {
      ReachableOccupied(g, false, [p], c);
    }
    assert (set c | c in matches) == S;
    DistinctCard(matches);
    var t := BubblesAt(g, matches);
    forall b
      ensures b in t <==> exists c :: c in S && Holds(g, c, b)
    {
      if b in t {
        var i :| 0 <= i < |t| && t[i] == b;
        assert matches[i] in S && Holds(g, matches[i], b);
      }
      if exists c :: c in S && Holds(g, c, b) {
        var c :| c in S && Holds(g, c, b);
        var i :| 0 <= i < |matches| && matches[i] == c;
        assert t[i] == b;
      }
    }
    HomesOfCells(g, bs, t, S);
  }

  /**
   * In a list of distinct bubbles taken from bs, the cell of the i-th is
   * not the cell of any earlier one.
   */
  lemma FreshHome(g: Grid, bs: seq<Bubble>, f: seq<Bubble>, i: int)
    requires Consistent(g, bs) && Distinct(f) && 0 <= i < |f|
    requires forall b :: b in f ==> b in bs
    ensures Home(f[i]) !in Homes(f[..i], bs)
  {
    HomesUnique(g, bs);
  }

  /** The occupied ceiling cells, left to right: where `check_floating_bubbles` starts marking. */
  method CeilingSeeds(g: Grid) returns (seeds: seq<Cell>)
    requires Shaped(g)
    ensures Distinct(seeds)
    ensures forall i :: 0 <= i < |seeds| ==> Occupied(g, seeds[i]) && seeds[i].0 == 0
    ensures forall c :: Occupied(g, c) && c.0 == 0 ==> c in seeds
  {
    seeds := [];
    var col := 0;
    while col < Cols
      invariant 0 <= col <= Cols
      invariant Distinct(seeds)
      invariant forall i :: 0 <= i < |seeds| ==> Occupied(g, seeds[i]) && seeds[i].0 == 0 && seeds[i].1 < col
      invariant forall c :: Occupied(g, c) && c.0 == 0 && c.1 < col ==> c in seeds
    {
      if g[0][col].Some? {
        assert Occupied(g, (0, col));
        seeds := seeds + [(0, col)];
      }
      col := col + 1;
    }
  }

  /** Hanging from the ceiling is being reachable, colour-blind, from an occupied ceiling cell. */
  lemma AnchoredIsReachable(g: Grid, seeds: seq<Cell>, c: Cell)
    requires Shaped(g)
    requires forall i :: 0 <= i < |seeds| ==> seeds[i].0 == 0
    requires forall d :: Occupied(g, d) && d.0 == 0 ==> d in seeds
    ensures Anchored(g, c) <==> Reachable(g, true, seeds, c)
  {
    if Anchored(g, c) {
      var p: seq<Cell> :| IsPath(g, true, p) && p[0].0 == 0 && p[|p| - 1] == c;
      assert p[0] in seeds;
    }
    if Reachable(g, true, seeds, c) {
      var p: seq<Cell> :| IsPath(g, true, p) && p[0] in seeds && p[|p| - 1] == c;
      assert p[0].0 == 0;
    }
  }

  /** The cells the marking reaches are exactly the anchored ones. */
  lemma MarkedAreAnchored(g: Grid, seeds: seq<Cell>, order: seq<Cell>)
    requires Shaped(g)
    requires forall i :: 0 <= i < |seeds| ==> seeds[i].0 == 0
    requires forall d :: Occupied(g, d) && d.0 == 0 ==> d in seeds
    requires forall c :: c in order <==> Reachable(g, true, seeds, c)
    ensures (set c | c in order) == AnchoredCells(g)
  {
    forall c | c in order
      ensures c in AnchoredCells(g)
    {
      AnchoredIsReachable(g, seeds, c);
      ReachableOccupied(g, true, seeds, c);
    }
    forall c | c in AnchoredCells(g)
      ensures c in order
    {
      AnchoredIsReachable(g, seeds, c);
    }
  }

  /** An occupied ceiling cell always hangs from the ceiling. */
  lemma CeilingAnchored(g: Grid, c: Cell)
    requires Shaped(g) && Occupied(g, c) && c.0 == 0
    ensures Anchored(g, c)
  {
    assert IsPath(g, true, [c]);
  }

  /** A cell hangs from the ceiling, so does every cell on a ceiling path to it. */
  lemma {:induction false} PathCellsAnchored(g: Grid, p: seq<Cell>, i: int)
    requires Shaped(g) && IsPath(g, true, p) && p[0].0 == 0 && 0 <= i < |p|
    ensures Anchored(g, p[i])
  {
    PathPrefix(g, true, p, i + 1);
    var q := p[..i + 1];
    assert q[0] == p[0] && q[|q| - 1] == p[i];
  }

  /**
   * Removing cells that do not hang from the ceiling leaves every cell that
   * did hang from it still hanging.
   */
  lemma PruneKeepsAnchored(g: Grid, k: set<Cell>, c: Cell)
    requires Shaped(g) && Anchored(g, c)
    requires forall d :: d in k ==> !Anchored(g, d)
    ensures Anchored(Clear(g, k), c)
  {
    var h := Clear(g, k);
    var p: seq<Cell> :| IsPath(g, true, p) && p[0].0 == 0 && p[|p| - 1] == c;
    forall i | 0 <= i < |p|
      ensures p[i] !in k && (InBounds(p[i]) ==> At(h, p[i]) == At(g, p[i]))
    {
      PathCellsAnchored(g, p, i);
    }
    forall i | 0 <= i < |p| - 1
      ensures Linked(h, true, p[i], p[i + 1])
    {
      assert Linked(g, true, p[i], p[i + 1]);
    }
    assert IsPath(h, true, p);
  }

  /** The cells within the bomb's blast: a disc of radius 3 cells around the centre cell. */
  predicate InBlast(centre: Cell, c: Cell) {
    var dr, dc := c.0 - centre.0, c.1 - centre.1;
    dr * dr + dc * dc <= 9
  }

  /** The disc lies within the square of half-width 3 around the centre. */
  lemma BlastBox(centre: Cell, c: Cell)
    requires InBlast(centre, c)
    ensures -3 <= c.0 - centre.0 <= 3 && -3 <= c.1 - centre.1 <= 3
  {
    var dr, dc := c.0 - centre.0, c.1 - centre.1;
    SquareGrows(dr);
    SquareGrows(dc);
  }

  lemma SquareGrows(d: int)
    ensures d * d >= 0
    ensures (d > 3 || d < -3) ==> d * d > 9
  {
    if d > 3 {
      assert d * d >= 4 * d;
    } else if d < -3 {
      assert d * d >= -4 * d;
    }
  }

  lemma BlastBoxAll(centre: Cell)
    ensures forall c :: InBlast(centre, c) ==> -3 <= c.0 - centre.0 <= 3 && -3 <= c.1 - centre.1 <= 3
  {
    forall c | InBlast(centre, c)
      ensures -3 <= c.0 - centre.0 <= 3 && -3 <= c.1 - centre.1 <= 3
    {
      BlastBox(centre, c);
    }
  }

  /** The occupied cells the bomb reaches. */
  ghost function BlastCells(g: Grid, centre: Cell): set<Cell>
    requires Shaped(g)
  {
    set c | c in AllCells() && Occupied(g, c) && InBlast(centre, c)
  }

  function Max(a: int, b: int): int { if a >= b then a else b }
  function Min(a: int, b: int): int { if a <= b then a else b }

  /**
   * The scan of `apply_bomb_powerup`: rows and then columns of the square
   * of half-width 3 around the centre, cut to the grid, keeping the bubbles
   * inside the disc.  Each occupied cell of the disc contributes its bubble
   * once.
   */
  method BlastTargets(g: Grid, centre: Cell) returns (ts: seq<Bubble>)
    requires Shaped(g)
    ensures forall b :: b in ts <==> exists c :: c in BlastCells(g, centre) && Holds(g, c, b)
    ensures |ts| == |BlastCells(g, centre)|
  {
    ts := [];
    ghost var seen: set<Cell> := {};
    var (row, col) := centre;
    var r := Max(0, row - 3);
    var rEnd := Min(Rows, row + 3 + 1);
    BlastBoxAll(centre);
    while r < rEnd
      invariant Max(0, row - 3) <= r && (r <= rEnd || rEnd <= Max(0, row - 3))
      invariant |ts| == |seen|
      invariant forall c :: c in seen <==> c in BlastCells(g, centre) && c.0 < r
      invariant forall b :: b in ts <==> exists c :: c in seen && Holds(g, c, b)
    {
      ts, seen := BlastRow(g, centre, r, ts, seen);
      r := r + 1;
    }
    assert seen == BlastCells(g, centre);
  }

  /** One row of the bomb scan: the inner loop over the columns of row r. */
  method BlastRow(g: Grid, centre: Cell, r: int, ts0: seq<Bubble>, ghost seen0: set<Cell>)
    returns (ts: seq<Bubble>, ghost seen: set<Cell>)
    requires Shaped(g) && 0 <= r < Rows
    requires |ts0| == |seen0|
    requires forall c :: c in seen0 <==> c in BlastCells(g, centre) && c.0 < r
    requires forall b :: b in ts0 <==> exists c :: c in seen0 && Holds(g, c, b)
    ensures |ts| == |seen|
    ensures forall c :: c in seen <==> c in BlastCells(g, centre) && c.0 < r + 1
    ensures forall b :: b in ts <==> exists c :: c in seen && Holds(g, c, b)
  {
    ts, seen := ts0, seen0;
    var col := centre.1;
    var k := Max(0, col - 3);
    var kEnd := Min(Cols, col + 3 + 1);
    BlastBoxAll(centre);
    while k < kEnd
      invariant Max(0, col - 3) <= k
      invariant |ts| == |seen|
      invariant forall c :: c in seen <==> c in BlastCells(g, centre) && (c.0 < r || (c.0 == r && c.1 < k))
      invariant forall b :: b in ts <==> exists c :: c in seen && Holds(g, c, b)
    {
      if g[r][k].Some? && InBlast(centre, (r, k)) {
        assert (r, k) !in seen;
        ts, seen := ts + [g[r][k].value], seen + {(r, k)};
      }
      k := k + 1;
    }
  }

  /** How many listed bubbles record column k. */
  function ColumnCount(bs: seq<Bubble>, k: int): nat {
    if bs == [] then 0 else (if bs[0].col == k then 1 else 0) + ColumnCount(bs[1..], k)
  }

  lemma {:induction false} ColumnCountSnoc(bs: seq<Bubble>, b: Bubble, k: int)
    ensures ColumnCount(bs + [b], k) == ColumnCount(bs, k) + (if b.col == k then 1 else 0)
    decreases |bs|
  {
    if bs != [] {
      assert (bs + [b])[1..] == bs[1..] + [b];
      ColumnCountSnoc(bs[1..], b, k);
    }
  }

  /** `column_counts` of `apply_lightning_powerup`: the number of listed bubbles in each column. */
  method ColumnCounts(bs: seq<Bubble>) returns (counts: seq<int>)
    requires forall b :: b in bs ==> 0 <= b.col < Cols
    ensures |counts| == Cols
    ensures forall k :: 0 <= k < Cols ==> counts[k] == ColumnCount(bs, k)
  {
    counts := seq(Cols, _ => 0);
    var i := 0;
    while i < |bs|
      invariant 0 <= i <= |bs| && |counts| == Cols
      invariant forall k :: 0 <= k < Cols ==> counts[k] == ColumnCount(bs[..i], k)
    {
      var b := bs[i];
      assert bs[..i + 1] == bs[..i] + [b];
      forall k | 0 <= k < Cols
        ensures ColumnCount(bs[..i + 1], k) == ColumnCount(bs[..i], k) + (if b.col == k then 1 else 0)
      {
        ColumnCountSnoc(bs[..i], b, k);
      }
      counts := counts[b.col := counts[b.col] + 1];
      i := i + 1;
    }
    assert bs[..i] == bs;
  }

  /** `list.index(max(list))`: the first position holding the largest value. */
  function FirstMaxIndex(s: seq<int>): (k: nat)
    requires |s| > 0
    ensures k < |s|
    ensures forall j :: 0 <= j < |s| ==> s[j] <= s[k]
    ensures forall j :: 0 <= j < k ==> s[j] < s[k]
  {
    if |s| == 1 then 0
    else
      var k := FirstMaxIndex(s[..|s| - 1]);
      if s[|s| - 1] > s[k] then |s| - 1 else k
  }

  /** The occupied cells of column k. */
  ghost function ColumnCells(g: Grid, k: int): set<Cell>
    requires Shaped(g)
  {
    set c | c in AllCells() && Occupied(g, c) && c.1 == k
  }

  /** The scan of `apply_lightning_powerup` down column k, top to bottom. */
  method ColumnTargets(g: Grid, k: int) returns (ts: seq<Bubble>)
    requires Shaped(g) && 0 <= k < Cols
    ensures forall b :: b in ts <==> exists c :: c in ColumnCells(g, k) && Holds(g, c, b)
    ensures |ts| == |ColumnCells(g, k)|
  {
    ts := [];
    ghost var seen: set<Cell> := {};
    var r := 0;
    while r < Rows
      invariant 0 <= r <= Rows
      invariant |ts| == |seen|
      invariant forall c :: c in seen <==> c in ColumnCells(g, k) && c.0 < r
      invariant forall b :: b in ts <==> exists c :: c in seen && Holds(g, c, b)
    {
      if g[r][k].Some? {
        assert (r, k) !in seen;
        ts, seen := ts + [g[r][k].value], seen + {(r, k)};
      }
      r := r + 1;
    }
    assert seen == ColumnCells(g, k);
  }

  /**
   * Where `attach_bubble` puts a bubble aimed at cell c: nowhere if c is off
   * the grid; c itself if it is free; otherwise the first neighbour, in
   * `get_neighbors` order, that is on the grid and free; nowhere if there is
   * none.
   */
  function AttachTarget(g: Grid, c: Cell): Option<Cell>
    requires Shaped(g)
  {
    if !InBounds(c) then None
    else if At(g, c).None? then Some(c)
    else FirstFree(g, Neighbours(c.0, c.1), 0)
  }

  predicate Free(g: Grid, c: Cell)
    requires Shaped(g)
  {
    InBounds(c) && At(g, c).None?
  }

  function FirstFree(g: Grid, ns: seq<Cell>, i: nat): Option<Cell>
    requires Shaped(g) && i <= |ns|
    decreases |ns| - i
  {
    if i == |ns| then None
    else if Free(g, ns[i]) then Some(ns[i])
    else FirstFree(g, ns, i + 1)
  }

  /** The placement rule: a free cell on the grid, and the first one in the order above. */
  lemma AttachTargetRule(g: Grid, c: Cell)
    requires Shaped(g)
    ensures var t := AttachTarget(g, c);
      (t.Some? ==> Free(g, t.value)) &&
      (!InBounds(c) ==> t == None) &&
      (Free(g, c) ==> t == Some(c)) &&
      (InBounds(c) && !Free(g, c) ==>
         (t == None <==> forall n :: n in Neighbours(c.0, c.1) ==> !Free(g, n)) &&
         (t.Some? ==> exists i :: 0 <= i < 6 && Neighbours(c.0, c.1)[i] == t.value &&
                        forall j :: 0 <= j < i ==> !Free(g, Neighbours(c.0, c.1)[j])))
  {
    if InBounds(c) && !Free(g, c) {
      FirstFreeRule(g, Neighbours(c.0, c.1), 0);
    }
  }

  lemma {:induction false} FirstFreeRule(g: Grid, ns: seq<Cell>, i: nat)
    requires Shaped(g) && i <= |ns|
    requires forall j :: 0 <= j < i ==> !Free(g, ns[j])
    ensures var t := FirstFree(g, ns, i);
      (t.Some? ==> Free(g, t.value)) &&
      (t == None <==> forall j :: 0 <= j < |ns| ==> !Free(g, ns[j])) &&
      (t.Some? ==> exists k :: 0 <= k < |ns| && ns[k] == t.value && forall j :: 0 <= j < k ==> !Free(g, ns[j]))
    decreases |ns| - i
  {
    if i < |ns| && !Free(g, ns[i]) {
      FirstFreeRule(g, ns, i + 1);
    }
  }

  /** The placement loop of `attach_bubble` on an occupied cell, with its `for ... else`. */
  method ResolveAttachCell(g: Grid, c: Cell) returns (t: Option<Cell>)
    requires Shaped(g)
    ensures t == AttachTarget(g, c)
  {
    if !InBounds(c) {
      return None;
    }
    if g[c.0][c.1].None? {
      return Some(c);
    }
    var ns := Neighbours(c.0, c.1);
    var i := 0;
    while i < 6
      invariant 0 <= i <= 6
      invariant FirstFree(g, ns, i) == FirstFree(g, ns, 0)
    {
      var (nr, nc) := ns[i];
      if 0 <= nr < Rows && 0 <= nc < Cols && g[nr][nc].None? {
        return Some((nr, nc));
      }
      i := i + 1;
    }
    return None;
  }

  /** The game-over scan of `attach_bubble`: some listed bubble sits in the last row. */
  method ReachesBottom(bs: seq<Bubble>) returns (hit: bool)
    ensures hit <==> exists b :: b in bs && b.row >= Rows - 1
  {
    var i := 0;
    while i < |bs|
      invariant 0 <= i <= |bs|
      invariant forall j :: 0 <= j < i ==> bs[j].row < Rows - 1
    {
      if bs[i].row >= Rows - 1 {
        return true;
      }
      i := i + 1;
    }
    return false;
  }
}
