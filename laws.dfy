/**
 * What the rules of a round guarantee: the grid and the bubble list stay
 * in step, the floating pass leaves exactly the bubbles that hang from the
 * ceiling, clearing empties what it says, the score never drops, power-up
 * effects end when their timer runs out, and multi-shot fires no more than
 * its three extra shots.
 */
module Laws {
  import opened HexGrid
  import opened Connectivity
  import opened Board
  import opened Motion
  import opened Rules

  /** Clearing cells keeps grid and list in step. */
  lemma ClearedGood(s: GameState, k: set<Cell>)
    requires Good(s)
    ensures Good(Cleared(s, k))
  {
    DropConsistent(s.grid, s.bubbles, k);
  }

  /**
   * The floating pass empties exactly the cells that do not hang from the
   * ceiling: every other cell keeps its content.
   */
  lemma FloatExact(s: GameState)
    requires Good(s)
    ensures forall c :: InBounds(c) ==>
      At(Float(s).grid, c) == if c in AnchoredCells(s.grid) then At(s.grid, c) else None
  {
    var g, bs := s.grid, s.bubbles;
    var f := Unanchored(g, bs);
    var k := Homes(f, bs);
    forall c | InBounds(c)
      ensures At(Clear(g, k), c) == if c in AnchoredCells(g) then At(g, c) else None
    {
      if c !in AnchoredCells(g) && At(g, c).Some? {
        var b := At(g, c).value;
        assert b in f && b in bs && Home(b) == c;
      }
    }
  }

  /** The floating pass keeps grid and list in step and leaves every remaining bubble anchored. */
  lemma FloatSettles(s: GameState)
    requires Good(s)
    ensures Good(Float(s))
    ensures forall b :: b in Float(s).bubbles ==> Home(b) in AnchoredCells(Float(s).grid)
    ensures Unanchored(Float(s).grid, Float(s).bubbles) == []
  {
    var g, bs := s.grid, s.bubbles;
    var f := Unanchored(g, bs);
    var k := Homes(f, bs);
    DropConsistent(g, bs, k);
    ClearedUnanchored(g, bs, f, k);
    var h, r := Clear(g, k), Drop(bs, k);
    forall b | b in r
      ensures Home(b) in AnchoredCells(h)
    {
      FloatKeepsAnchored(g, bs, f, k, b);
    }
    DropCovered(r, AnchoredCells(h));
  }

  lemma ClearedUnanchored(g: Grid, bs: seq<Bubble>, f: seq<Bubble>, k: set<Cell>)
    requires Consistent(g, bs) && f == Unanchored(g, bs) && k == Homes(f, bs)
    ensures forall d :: d in k ==> !Anchored(g, d)
  {
    forall d | d in k
      ensures !Anchored(g, d)
    {
      var b :| b in f && b in bs && Home(b) == d;
    }
  }

  lemma FloatKeepsAnchored(g: Grid, bs: seq<Bubble>, f: seq<Bubble>, k: set<Cell>, b: Bubble)
    requires Consistent(g, bs) && f == Unanchored(g, bs) && k == Homes(f, bs)
    requires forall d :: d in k ==> !Anchored(g, d)
    requires b in Drop(bs, k)
    ensures Home(b) in AnchoredCells(Clear(g, k))
  {
    assert b in bs && Home(b) !in k;
    assert Home(b) in AnchoredCells(g);
    PruneKeepsAnchored(g, k, Home(b));
  }

  /** Dropping every bubble whose cell is in K from a list that has no other leaves it empty. */
  lemma {:induction false} DropCovered(r: seq<Bubble>, K: set<Cell>)
    requires forall b :: b in r ==> Home(b) in K
    ensures Drop(r, K) == []
    decreases |r|
  {
    if r != [] {
      DropCovered(r[1..], K);
    }
  }

  /** A second floating pass right after the first changes nothing. */
  lemma FloatIdempotent(s: GameState)
    requires Good(s)
    ensures Float(Float(s)) == Float(s)
  {
    var r := Float(s);
    FloatSettles(s);
    var f := Unanchored(r.grid, r.bubbles);
    var k := Homes(f, r.bubbles);
    assert k == {};
    NothingCleared(r.grid, r.bubbles);
  }

  /** Bubbles in the top row never float away. */
  lemma FloatKeepsCeiling(s: GameState, c: Cell)
    requires Good(s) && InBounds(c) && c.0 == 0
    ensures At(Float(s).grid, c) == At(s.grid, c)
  {
    FloatExact(s);
    if Occupied(s.grid, c) {
      CeilingAnchored(s.grid, c);
    }
  }

  /** Placing the shot in a free cell keeps grid and list in step. */
  lemma PlacedGood(s: GameState, shot: Shot, p: Cell)
    requires Good(s) && Free(s.grid, p)
    ensures Good(Placed(s, shot, p))
  {
    PlaceConsistent(s.grid, s.bubbles, Snap(shot, p));
  }

  /** The match step as the fields it sets, given the matched count and the cleared board. */
  lemma MatchedFields(s: GameState, p: Cell, roll: real, pick: SpawnKind, n: nat, g: Grid, bs: seq<Bubble>)
    requires Shaped(s.grid) && n == |ClusterCells(s.grid, p)|
    requires g == Clear(s.grid, ClusterCells(s.grid, p)) && bs == Drop(s.bubbles, ClusterCells(s.grid, p))
    ensures Matched(s, p, roll, pick) ==
      if n >= 3 then
        s.(grid := g, bubbles := bs, combo := s.combo + 1, score := s.score + MatchScore(n, s.combo + 1),
           powerups := s.powerups + if Spawns(roll, n) then [Powerup(pick, CentreX(p.0, p.1), CentreY(p.0))] else [])
      else s.(combo := 0)
  {
  }

  /**
   * The match step keeps grid and list in step; a cluster of three or more
   * is emptied, the combo grows by one and the score by the cluster's
   * points; a smaller one leaves the board and the score alone and resets
   * the combo.
   */
  lemma MatchedLaw(s: GameState, p: Cell, roll: real, pick: SpawnKind)
    requires Good(s)
    ensures var r, k := Matched(s, p, roll, pick), ClusterCells(s.grid, p);
      Good(r) && r.score >= s.score && r.gameOver == s.gameOver &&
      (|k| >= 3 ==>
         (forall c :: c in k ==> !Occupied(r.grid, c)) &&
         r.combo == s.combo + 1 &&
         r.score == s.score + MatchScore(|k|, s.combo + 1)) &&
      (|k| < 3 ==> r.grid == s.grid && r.bubbles == s.bubbles && r.combo == 0 && r.score == s.score)
  {
    var k := ClusterCells(s.grid, p);
    ClearedGood(s, k);
    if |k| >= 3 {
      forall c | c in k
        ensures !Occupied(Matched(s, p, roll, pick).grid, c)
      {
        assert InBounds(c);
      }
    }
  }

  /**
   * The end of the shot keeps grid and list in step, leaves no bubble
   * unanchored, scores each bubble that fell, and ends the game exactly
   * when it had ended or a bubble now sits on the last row.
   */
  lemma SettledLaw(s: GameState)
    requires Good(s)
    ensures var r := Settled(s);
      Good(r) && Unanchored(r.grid, r.bubbles) == [] && r.shooting.None? && r.combo == s.combo &&
      r.score == s.score + |Unanchored(s.grid, s.bubbles)| * FloatPoints &&
      (r.gameOver <==> s.gameOver || exists b :: b in r.bubbles && b.row >= Rows - 1)
  {
    FloatSettles(s);
  }

  /** A shot that lands in p is placed there, matched, then settled. */
  lemma AttachSteps(s: GameState, shot: Shot, roll: real, pick: SpawnKind, p: Cell)
    requires Good(s) && InBounds(p) && AttachTarget(s.grid, FindGridPosition(shot.x, shot.y)) == Some(p)
    ensures AttachSpec(s, shot, roll, pick) == Settled(Matched(Placed(s, shot, p), p, roll, pick))
  {
  }

  /** A shot that lands leaves the board settled: in step, nothing floating, no shot in flight. */
  lemma AttachGood(s: GameState, shot: Shot, roll: real, pick: SpawnKind)
    requires Good(s)
    ensures Good(AttachSpec(s, shot, roll, pick))
    ensures var r := AttachSpec(s, shot, roll, pick);
      r.shooting.None? && r.score >= s.score && (s.gameOver ==> r.gameOver) &&
      (AttachTarget(s.grid, FindGridPosition(shot.x, shot.y)).Some? ==> Unanchored(r.grid, r.bubbles) == [])
  {
    var cell := FindGridPosition(shot.x, shot.y);
    AttachTargetRule(s.grid, cell);
    var t := AttachTarget(s.grid, cell);
    if t.Some? {
      var s1 := Placed(s, shot, t.value);
      PlacedGood(s, shot, t.value);
      MatchedLaw(s1, t.value, roll, pick);
      var s2 := Matched(s1, t.value, roll, pick);
      SettledLaw(s2);
      assert AttachSpec(s, shot, roll, pick) == Settled(s2);
    } else {
      assert AttachSpec(s, shot, roll, pick) == s.(shooting := None);
    }
  }

  /**
   * A shot whose cell is off the grid, or taken with no free neighbour, is
   * dropped: grid, list, score and combo stay as they were and only the
   * shot in flight is gone.  In every other case it finds a free cell.
   */
  lemma AttachDiscards(s: GameState, shot: Shot, roll: real, pick: SpawnKind)
    requires Shaped(s.grid)
    ensures var c := FindGridPosition(shot.x, shot.y);
      var stuck := !InBounds(c) || (!Free(s.grid, c) && forall n :: n in Neighbours(c.0, c.1) ==> !Free(s.grid, n));
      (stuck ==> AttachSpec(s, shot, roll, pick) == s.(shooting := None)) &&
      (!stuck ==> AttachTarget(s.grid, c).Some?)
  {
    AttachTargetRule(s.grid, FindGridPosition(shot.x, shot.y));
  }

  /**
   * A shot that lands in a cell whose colour cluster has three or more
   * bubbles leaves every cell of that cluster empty, raises the combo by
   * one and scores at least the cluster's points; otherwise the combo is
   * reset.
   */
  lemma AttachClearsCluster(s: GameState, shot: Shot, roll: real, pick: SpawnKind, p: Cell)
    requires Good(s) && InBounds(p) && AttachTarget(s.grid, FindGridPosition(shot.x, shot.y)) == Some(p)
    ensures var r, k := AttachSpec(s, shot, roll, pick), ClusterCells(Placed(s, shot, p).grid, p);
      (|k| >= 3 ==>
         (forall c :: c in k ==> !Occupied(r.grid, c)) && r.combo == s.combo + 1 &&
         r.score >= s.score + MatchScore(|k|, s.combo + 1)) &&
      (|k| < 3 ==> r.combo == 0)
  {
    AttachTargetRule(s.grid, FindGridPosition(shot.x, shot.y));
    PlacedGood(s, shot, p);
    ClusterOutcome(Placed(s, shot, p), p, roll, pick);
  }

  lemma ClusterOutcome(s: GameState, p: Cell, roll: real, pick: SpawnKind)
    requires Good(s)
    ensures var r, k := Settled(Matched(s, p, roll, pick)), ClusterCells(s.grid, p);
      (|k| >= 3 ==>
         (forall c :: c in k ==> !Occupied(r.grid, c)) && r.combo == s.combo + 1 &&
         r.score >= s.score + MatchScore(|k|, s.combo + 1)) &&
      (|k| < 3 ==> r.combo == 0)
  {
    MatchedLaw(s, p, roll, pick);
    var s2 := Matched(s, p, roll, pick);
    assert Settled(s2).score >= s2.score && Settled(s2).combo == s2.combo by { SettledLaw(s2); }
    var k := ClusterCells(s.grid, p);
    if |k| >= 3 {
      SettledKeepsEmpty(s2, k);
    }
  }

  /** Cells that are empty stay empty through the end of the shot. */
  lemma SettledKeepsEmpty(s: GameState, k: set<Cell>)
    requires Good(s) && forall c :: c in k ==> InBounds(c) && !Occupied(s.grid, c)
    ensures forall c :: c in k ==> !Occupied(Settled(s).grid, c)
  {
    FloatExact(s);
  }

  /**
   * The bomb empties every cell of its disc, keeps the top-row bubbles
   * outside it, scores 15 a bubble and leaves the board settled.
   */
  lemma BombLaw(s: GameState, x: real, y: real)
    requires Good(s)
    ensures var r, k := BombSpec(s, x, y), BlastCells(s.grid, FindGridPosition(x, y));
      Good(r) && Unanchored(r.grid, r.bubbles) == [] &&
      (forall c :: c in k ==> !Occupied(r.grid, c)) &&
      (forall c :: InBounds(c) && c.0 == 0 && c !in k ==> At(r.grid, c) == At(s.grid, c)) &&
      r.score == s.score + |k| * BombPoints
  {
    var k := BlastCells(s.grid, FindGridPosition(x, y));
    ClearedGood(s, k);
    var s1 := Cleared(s, k).(score := s.score + |k| * BombPoints);
    FloatSettles(s1);
    FloatExact(s1);
    forall c | InBounds(c) && c.0 == 0 && c !in k
      ensures At(Float(s1).grid, c) == At(s.grid, c)
    {
      FloatKeepsCeiling(s1, c);
    }
  }

  /** The struck column is the first one holding the most listed bubbles. */
  lemma StruckColumnIsFullest(bs: seq<Bubble>)
    ensures var col := StruckColumn(bs);
      col < Cols &&
      (forall k :: 0 <= k < Cols ==> ColumnCount(bs, k) <= ColumnCount(bs, col)) &&
      (forall k :: 0 <= k < col ==> ColumnCount(bs, k) < ColumnCount(bs, col))
  {
    var counts := Counts(bs);
    var col := FirstMaxIndex(counts);
    forall k | 0 <= k < Cols
      ensures ColumnCount(bs, k) <= ColumnCount(bs, col)
      ensures k < col ==> ColumnCount(bs, k) < ColumnCount(bs, col)
    {
      assert counts[k] == ColumnCount(bs, k);
    }
  }

  /**
   * Lightning empties the struck column, scores 20 a bubble and leaves
   * the board settled.
   */
  lemma LightningLaw(s: GameState)
    requires Good(s)
    ensures var r, col := LightningSpec(s), StruckColumn(s.bubbles);
      Good(r) && Unanchored(r.grid, r.bubbles) == [] &&
      (forall row :: 0 <= row < Rows ==> !Occupied(r.grid, (row, col))) &&
      r.score == s.score + |ColumnCells(s.grid, col)| * LightningPoints
  {
    var col := StruckColumn(s.bubbles);
    StruckColumnIsFullest(s.bubbles);
    var k := ColumnCells(s.grid, col);
    ClearedGood(s, k);
    var s1 := Cleared(s, k).(score := s.score + |k| * LightningPoints);
    FloatSettles(s1);
    FloatExact(s1);
    forall row | 0 <= row < Rows
      ensures !Occupied(Float(s1).grid, (row, col))
    {
      assert InBounds((row, col));
      if Occupied(s.grid, (row, col)) {
        assert (row, col) in k;
      }
    }
  }

  /** Bomb and lightning act at once; the other kinds last until their timer runs out. */
  predicate Instant(k: PowerupKind) {
    k == Bomb || k == Lightning
  }

  /**
   * Activation keeps the board in step, counts the effective power-up once
   * in the statistics and in the collection count, scores at least 50,
   * stores the picked-up one when it swaps, and leaves a timed effect
   * active for 300 frames or an instant one inactive.  It never fires a
   * shot, never ends the game and grants at most three extra shots.
   */
  lemma ActivateLaw(s: GameState, p: Powerup)
    requires Good(s)
    ensures var r, q := ActivateSpec(s, p), Effective(s, p);
      Good(r) &&
      r.collected == s.collected + 1 &&
      r.stats[q.kind] == s.stats[q.kind] + 1 &&
      (forall k :: k != q.kind ==> r.stats[k] == s.stats[k]) &&
      r.score >= s.score + PowerupPoints &&
      r.stored == (if Swaps(s, p) then Some(p) else s.stored) &&
      (Instant(q.kind) ==> r.active.None?) &&
      (!Instant(q.kind) ==> r.active == Some(q.kind) && r.timer == PowerupFrames) &&
      r.shotsFired == s.shotsFired && r.gameOver == s.gameOver &&
      r.shooting.Some? == s.shooting.Some? &&
      r.multiShot == (if q.kind == MultiShot then ExtraShots else s.multiShot) &&
      r.timeSlow == (if q.kind == TimeSlow then 0.5 else s.timeSlow) &&
      (q.kind == Rainbow && s.shooting.Some? ==>
         r.shooting.Some? && r.shooting.value.colour == Gold && r.shooting.value.rainbow)
  {
    var q := Effective(s, p);
    var s1 := Activated(s, p);
    assert Good(s1);
    EffectLaw(s1, q);
  }

  /**
   * An effect keeps the board in step and the score from dropping, leaves
   * the book-keeping alone, and ends the active effect exactly for the
   * instant kinds.
   */
  lemma EffectLaw(s: GameState, q: Powerup)
    requires Good(s)
    ensures var r := Effect(s, q);
      Good(r) && r.score >= s.score &&
      r.collected == s.collected && r.stats == s.stats && r.stored == s.stored &&
      r.active == (if Instant(q.kind) then None else s.active) && r.timer == s.timer &&
      r.shotsFired == s.shotsFired && r.gameOver == s.gameOver &&
      r.shooting.Some? == s.shooting.Some? &&
      r.multiShot == (if q.kind == MultiShot then ExtraShots else s.multiShot) &&
      r.timeSlow == (if q.kind == TimeSlow then 0.5 else s.timeSlow) &&
      (q.kind == Rainbow && s.shooting.Some? ==>
         r.shooting.Some? && r.shooting.value.colour == Gold && r.shooting.value.rainbow)
  {
    match q.kind
    case Bomb =>
      BombLaw(s, q.x, q.y);
      assert |BlastCells(s.grid, FindGridPosition(q.x, q.y))| * BombPoints >= 0;
    case Lightning =>
      LightningLaw(s);
      assert |ColumnCells(s.grid, StruckColumn(s.bubbles))| * LightningPoints >= 0;
    case _ =>
  }

  /** `frames` ends of frame of the power-up timer. */
  function Ticks(s: GameState, frames: nat): GameState
    decreases frames
  {
    if frames == 0 then s else Ticks(TickSpec(s), frames - 1)
  }

  /** An effect stays active, counting down, for fewer frames than its timer shows. */
  lemma {:induction false} EffectLasts(s: GameState, frames: nat)
    requires s.active.Some? && (frames == 0 || frames < s.timer)
    ensures Ticks(s, frames).active == s.active && Ticks(s, frames).timer == s.timer - frames
    ensures Ticks(s, frames).multiShot == s.multiShot && Ticks(s, frames).timeSlow == s.timeSlow
    decreases frames
  {
    if frames > 0 {
      EffectLasts(TickSpec(s), frames - 1);
    }
  }

  /**
   * An effect ends at the frame its timer reaches zero (at the first frame
   * when it shows no time left); multi-shot then loses its remaining
   * shots and time-slow gives back normal speed.
   */
  lemma EffectEnds(s: GameState)
    requires s.active.Some?
    ensures var frames := Max(1, s.timer); var r := Ticks(s, frames);
      r.active.None? &&
      (s.active == Some(MultiShot) ==> r.multiShot == 0) &&
      (s.active == Some(TimeSlow) ==> r.timeSlow == 1.0)
  {
    var frames := Max(1, s.timer);
    EffectLasts(s, frames - 1);
    var u := Ticks(s, frames - 1);
    TicksSplit(s, frames - 1);
  }

  lemma {:induction false} TicksSplit(s: GameState, frames: nat)
    ensures Ticks(s, frames + 1) == TickSpec(Ticks(s, frames))
    decreases frames
  {
    if frames > 0 {
      TicksSplit(TickSpec(s), frames - 1);
    }
  }

  /**
   * The power-up loop keeps the board in step, never lowers the score,
   * never fires a shot, never ends the game, and keeps the extra-shot count
   * within three; with no shot in flight it only drops power-ups.
   */
  lemma {:induction false} CatchLaw(s: GameState, list: seq<Powerup>, fates: seq<Fate>, i: nat)
    requires Good(s) && i <= |list| && s.multiShot <= ExtraShots
    ensures var r := CatchSpec(s, list, fates, i);
      Good(r) && r.score >= s.score && r.shotsFired == s.shotsFired && r.gameOver == s.gameOver &&
      r.multiShot <= ExtraShots && r.shooting.Some? == s.shooting.Some? &&
      (s.stored.None? ==> r.stored.None?) &&
      (s.shooting.None? ==> r == s.(powerups := r.powerups) && multiset(r.powerups) <= multiset(s.powerups))
    decreases |list| - i
  {
    if s.shooting.None? {
      CatchOnlyRemoves(s, list, fates, i);
    } else if i < |list| {
      var p := list[i];
      if FateAt(fates, i) == Caught && FateAt(fates, i) != Leaves {
        ActivateLaw(s, p);
        var a := ActivateSpec(s, p);
        CatchLaw(a.(powerups := Remove(a.powerups, p)), list, fates, i + 1);
      } else if FateAt(fates, i) == Leaves {
        CatchLaw(s.(powerups := Remove(s.powerups, p)), list, fates, i + 1);
      } else {
        CatchLaw(s, list, fates, i + 1);
      }
    }
  }

  /** With no shot in flight the power-up loop touches only the power-up list, and only takes entries out of it. */
  lemma {:induction false} CatchOnlyRemoves(s: GameState, list: seq<Powerup>, fates: seq<Fate>, i: nat)
    requires Shaped(s.grid) && i <= |list| && s.shooting.None?
    ensures var r := CatchSpec(s, list, fates, i);
      r == s.(powerups := r.powerups) && multiset(r.powerups) <= multiset(s.powerups)
    decreases |list| - i
  {
    if i < |list| {
      var p := list[i];
      if FateAt(fates, i) == Leaves {
        CatchOnlyRemoves(s.(powerups := Remove(s.powerups, p)), list, fates, i + 1);
      } else {
        CatchOnlyRemoves(s, list, fates, i + 1);
      }
    }
  }

  /**
   * A landing keeps the board in step, leaves nothing floating, never
   * lowers the score, keeps the extra-shot count within three, and a shot
   * it fires is not the player's.
   */
  lemma LandLaw(s: GameState, m: Shot, roll: real, pick: SpawnKind, vx: real, vy: real, nextColour: Colour)
    requires Good(s) && s.multiShot <= ExtraShots
    ensures var r := LandSpec(s, m, roll, pick, vx, vy, nextColour);
      Good(r) && r.score >= s.score && r.shotsFired == s.shotsFired &&
      (s.gameOver ==> r.gameOver) && r.multiShot <= ExtraShots && r.stored == s.stored
  {
    AttachGood(s, m, roll, pick);
  }

  /**
   * A frame without a landing keeps the board in step, never lowers the
   * score and keeps the extra-shot count within three.
   */
  lemma FlyLaw(s: GameState, fates: seq<Fate>)
    requires Good(s) && s.multiShot <= ExtraShots
    ensures var r := FlySpec(s, fates);
      Good(r) && r.score >= s.score && r.shotsFired == s.shotsFired &&
      r.gameOver == s.gameOver && r.multiShot <= ExtraShots &&
      (s.stored.None? ==> r.stored.None?)
  {
    CatchLaw(s, s.powerups, fates, 0);
  }

  /**
   * One frame keeps the board in step, never lowers the score, never
   * revives a finished game, keeps the extra-shot count within three and
   * never adds to the player's shot count, which only clicks raise.
   */
  lemma UpdateLaw(s: GameState, fates: seq<Fate>, roll: real, pick: SpawnKind, vx: real, vy: real, nextColour: Colour)
    requires Good(s) && s.multiShot <= ExtraShots
    ensures var r := UpdateSpec(s, fates, roll, pick, vx, vy, nextColour);
      Good(r) && r.score >= s.score && r.shotsFired == s.shotsFired &&
      (s.gameOver ==> r.gameOver) && r.multiShot <= ExtraShots &&
      (s.stored.None? ==> r.stored.None?)
  {
    if s.shooting.Some? {
      var m := Advance(s.shooting.value, Factor(s));
      var s1 := s.(shooting := Some(m));
      if Lands(m, s1.bubbles) {
        LandLaw(s1, m, roll, pick, vx, vy, nextColour);
      } else {
        FlyLaw(s1, fates);
      }
    } else {
      FlyLaw(s, fates);
    }
  }

  /**
   * A landing leaves a shot in flight exactly when multi-shot is active
   * with extra shots left and the game goes on; that shot has the
   * previewed colour, is uncounted, and uses up one extra shot. Without
   * multi-shot the landing is the attachment and nothing more.
   */
  lemma MultiShotRefires(s: GameState, m: Shot, roll: real, pick: SpawnKind, vx: real, vy: real, nextColour: Colour)
    requires Good(s)
    ensures var r, a := LandSpec(s, m, roll, pick, vx, vy, nextColour), AttachSpec(s, m, roll, pick);
      var refire := a.active == Some(MultiShot) && a.multiShot > 0;
      (r.shooting.Some? <==> refire && !a.gameOver) &&
      (refire && !a.gameOver ==>
         r.shooting.value.colour == a.next && r.next == nextColour &&
         r.multiShot == a.multiShot - 1 && r.shotsFired == a.shotsFired) &&
      (!refire ==> r == a)
  {
    AttachGood(s, m, roll, pick);
  }

  /**
   * The scan of the first n cells places exactly the bubbles the fill
   * chose for them, each at its cell's centre, keeps grid and list in step
   * and leaves every later cell empty.
   */
  lemma {:induction false} SeededLaw(fill: Cell -> Option<Colour>, n: nat)
    requires n <= FilledRows * Cols
    ensures Consistent(Seeded(fill, n).0, Seeded(fill, n).1)
    ensures forall c :: InBounds(c) ==> At(Seeded(fill, n).0, c) == if c.0 * Cols + c.1 < n then Seed(fill, c) else None
    decreases n
  {
    if n > 0 {
      SeededLaw(fill, n - 1);
      SeededPlace(fill, n);
      SeededStep(fill, n);
    }
  }

  /** Position i of the row-by-row scan is the cell (i / 16, i % 16), and no other cell has that position. */
  lemma ScanCell(i: nat)
    requires i < FilledRows * Cols
    ensures var c := (i / Cols, i % Cols);
      InBounds(c) && c.0 * Cols + c.1 == i &&
      forall d :: InBounds(d) && d.0 * Cols + d.1 == i ==> d == c
  {
    forall d | InBounds(d) && d.0 * Cols + d.1 == i
      ensures d == (i / Cols, i % Cols)
    {
      assert d.0 == i / Cols;
    }
  }

  /** Placing the bubble of scan position n - 1, whose cell is still empty, keeps grid and list in step. */
  lemma SeededPlace(fill: Cell -> Option<Colour>, n: nat)
    requires 0 < n <= FilledRows * Cols
    requires Consistent(Seeded(fill, n - 1).0, Seeded(fill, n - 1).1)
    requires forall c :: InBounds(c) ==> At(Seeded(fill, n - 1).0, c) == if c.0 * Cols + c.1 < n - 1 then Seed(fill, c) else None
    ensures Consistent(Seeded(fill, n).0, Seeded(fill, n).1)
  {
    ScanCell(n - 1);
    var c := ((n - 1) / Cols, (n - 1) % Cols);
    var (g, bs) := Seeded(fill, n - 1);
    assert At(g, c).None?;
    if Seed(fill, c).Some? {
      PlaceConsistent(g, bs, Seed(fill, c).value);
    }
  }

  /** Scan position n - 1 fills its own cell, as the fill says, and no other. */
  lemma SeededStep(fill: Cell -> Option<Colour>, n: nat)
    requires 0 < n <= FilledRows * Cols
    requires forall c :: InBounds(c) ==> At(Seeded(fill, n - 1).0, c) == if c.0 * Cols + c.1 < n - 1 then Seed(fill, c) else None
    ensures forall c :: InBounds(c) ==> At(Seeded(fill, n).0, c) == if c.0 * Cols + c.1 < n then Seed(fill, c) else None
  {
    ScanCell(n - 1);
  }

  /**
   * A new game holds exactly the chosen bubbles of the top five rows, in
   * step with its list, with nothing collected, scored or stored.
   */
  lemma InitialLaw(fill: Cell -> Option<Colour>, next: Colour)
    ensures var r := Initial(fill, next);
      Good(r) && (forall c :: InBounds(c) ==> At(r.grid, c) == Seed(fill, c)) &&
      r.score == 0 && r.shooting.None? && r.stored.None? && r.multiShot == 0 &&
      forall k :: k in r.stats && r.stats[k] == 0
  {
    SeededLaw(fill, FilledRows * Cols);
    var r := Initial(fill, next);
    forall k: PowerupKind
      ensures k in r.stats && r.stats[k] == 0
    {
      match k
      case Bomb => case Rainbow => case Lightning => case Freeze =>
      case Magnet => case TimeSlow => case MultiShot =>
    }
  }

  /**
   * The store-and-swap branch of `activate_powerup` needs a stored
   * power-up, and only that branch fills the slot: from an empty slot,
   * activation activates what was picked up and leaves the slot empty.
   */
  lemma StoreNeverFilled(s: GameState, p: Powerup)
    requires Good(s) && s.stored.None?
    ensures Effective(s, p) == p && ActivateSpec(s, p).stored.None?
  {
    ActivateLaw(s, p);
  }
}
