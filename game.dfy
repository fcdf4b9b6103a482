/**
 * The `Game` class: the field, the bubble lists, the power-up state and
 * the counters, changed in place by the methods of the source.  Each
 * method is proved to make exactly the transition of `Rules` on the
 * snapshot `View()`, and to keep the invariant `Valid()`.
 */
module Bobble {
  import opened HexGrid
  import opened Connectivity
  import opened Board
  import opened Motion
  import opened Rules
  import opened Laws

  /** What is on the field: the grid, the list of its bubbles, the falling bubbles and the drifting power-ups. */
  datatype Field = Field(grid: Grid, bubbles: seq<Bubble>, falling: seq<Bubble>, powerups: seq<Powerup>)

  /** The shooter: the shot in flight, the preview colour and the count of shots fired. */
  datatype Launcher = Launcher(shooting: Option<Shot>, next: Colour, shotsFired: nat)

  /** Score, combo counter and the game-over flag. */
  datatype Tally = Tally(score: int, combo: nat, gameOver: bool)

  /** The power-up state: the active effect and its timer, the multi-shot count, the time factor, the collection counters and the stored slot. */
  datatype PowerState = PowerState(active: Option<PowerupKind>, timer: int, multiShot: nat, timeSlow: real,
                                   collected: nat, stats: map<PowerupKind, nat>, stored: Option<Powerup>)

  /**
   * The `Game` object.  Its attributes are kept in four records, each
   * replaced as a whole when one of its attributes changes.
   */
  class Game {
    var field: Field
    var launcher: Launcher
    var tally: Tally
    var power: PowerState

    /** The attributes as a value. */
    function View(): GameState
      reads this
    {
      GameState(field.grid, field.bubbles, field.falling, field.powerups, launcher.shooting, launcher.next,
                tally.score, tally.combo, tally.gameOver, power.active, power.timer, power.multiShot, power.timeSlow,
                power.collected, power.stats, power.stored, launcher.shotsFired)
    }

    ghost predicate Valid()
      reads this
    {
      Good(View()) && power.multiShot <= ExtraShots
    }

    /**
     * `reset_game` and `initialize_grid`: an empty field whose top five
     * rows are filled, row by row, where `fill` chose a colour.
     */
    constructor (fill: Cell -> Option<Colour>, nextColour: Colour)
      ensures View() == Initial(fill, nextColour)
      ensures Valid()
    {
      var g, bs := SeedGrid(fill);
      field := Field(g, bs, [], []);
      launcher := Launcher(None, nextColour, 0);
      tally := Tally(0, 0, false);
      power := PowerState(None, 0, 0, 1.0, 0,
        map[Bomb := 0, Rainbow := 0, Lightning := 0, Freeze := 0, Magnet := 0, TimeSlow := 0, MultiShot := 0], None);
      InitialLaw(fill, nextColour);
    }

    /**
     * `remove_bubbles`: each target still in the list leaves the list and
     * its cell.  The cells emptied are those of the targets that were
     * listed.
     */
    method RemoveBubbles(targets: seq<Bubble>)
      requires Valid()
      modifies this
      ensures View() == Cleared(old(View()), Homes(targets, old(field.bubbles)))
      ensures Valid()
    {
      ClearedGood(View(), Homes(targets, field.bubbles));
      var g, bs := RemoveAll(field.grid, field.bubbles, targets);
      field := field.(grid := g, bubbles := bs);
    }

    /**
     * `check_floating_bubbles` with `mark_connected`: a colour-blind flood
     * from the occupied ceiling cells marks what hangs on; the unmarked
     * bubbles, in list order, are returned and moved from grid and list to
     * the falling bubbles.
     */
    method CheckFloatingBubbles() returns (floating: seq<Bubble>)
      requires Valid()
      modifies this
      ensures floating == Unanchored(old(field.grid), old(field.bubbles))
      ensures View() == Float(old(View()))
      ensures Valid()
    {
      FloatSettles(View());
      var g, bs, fl;
      floating, g, bs, fl := FloatOutcome(View());
      field := field.(grid := g, bubbles := bs, falling := fl);
    }

    /**
     * `attach_bubble`: the shot comes to rest in the cell under its centre
     * or the first free neighbour, or is lost; the colour cluster of three
     * or more is scored and removed and may leave a power-up; the floating
     * bubbles drop and score; a bubble in the last row ends the game.
     */
    method AttachBubble(shot: Shot, roll: real, pick: SpawnKind)
      requires Valid()
      modifies this
      ensures View() == AttachSpec(old(View()), shot, roll, pick)
      ensures Valid()
    {
      var g, bs, fl, ps, score, combo, over, shooting := AttachOutcome(View(), shot, roll, pick);
      field := Field(g, bs, fl, ps);
      tally := Tally(score, combo, over);
      launcher := launcher.(shooting := shooting);
    }

    /**
     * `apply_bomb_powerup`: the bubbles of the disc around the cell under
     * (x, y) are removed and score 15 each; then the floating pass.
     */
    method ApplyBomb(x: real, y: real)
      requires Valid()
      modifies this
      ensures View() == BombSpec(old(View()), x, y)
      ensures Valid()
    {
      BombLaw(View(), x, y);
      var g, bs, fl, score := BombOutcome(View(), x, y);
      field := field.(grid := g, bubbles := bs, falling := fl);
      tally := tally.(score := score);
    }

    /**
     * `apply_lightning_powerup`: the bubbles of the first fullest column are
     * removed and score 20 each; then the floating pass.
     */
    method ApplyLightning()
      requires Valid()
      modifies this
      ensures View() == LightningSpec(old(View()))
      ensures Valid()
    {
      LightningLaw(View());
      var g, bs, fl, score := LightningOutcome(View());
      field := field.(grid := g, bubbles := bs, falling := fl);
      tally := tally.(score := score);
    }

    /**
     * `activate_powerup`: the swap with a stored power-up, the book-keeping
     * of the effective one, then its effect.
     */
    method ActivatePowerup(pu: Powerup)
      requires Valid()
      modifies this
      ensures View() == ActivateSpec(old(View()), pu)
      ensures Valid()
    {
      var q := Collect(pu);
      ApplyEffect(q);
    }

    /**
     * The book-keeping of `activate_powerup`: a pick-up other than bomb or
     * lightning swaps with the stored power-up; the effective one becomes
     * active with a full timer, scores and is counted.
     */
    method Collect(pu: Powerup) returns (q: Powerup)
      requires Valid()
      modifies this
      ensures q == Effective(old(View()), pu)
      ensures View() == Activated(old(View()), pu)
      ensures Valid()
    {
      q := pu;
      if power.stored.Some? && pu.kind != Bomb && pu.kind != Lightning {
        q := power.stored.value;
        power := power.(stored := Some(pu));
      }
      power := power.(active := Some(q.kind), timer := PowerupFrames, collected := power.collected + 1,
                      stats := PlusOne(power.stats, q.kind));
      tally := tally.(score := tally.score + PowerupPoints);
    }

    /** The effect of the power-up q, the second half of `activate_powerup`. */
    method ApplyEffect(q: Powerup)
      requires Valid()
      modifies this
      ensures View() == Effect(old(View()), q)
      ensures Valid()
    {
      EffectLaw(View(), q);
      match q.kind
      case Bomb =>
        ApplyBomb(q.x, q.y);
        power := power.(active := None);
      case Rainbow =>
        if launcher.shooting.Some? {
          launcher := launcher.(shooting := Some(launcher.shooting.value.(colour := Gold, rainbow := true)));
        }
      case Lightning =>
        ApplyLightning();
        power := power.(active := None);
      case Freeze =>
      case Magnet =>
      case TimeSlow =>
        power := power.(timeSlow := 0.5);
      case MultiShot =>
        power := power.(multiShot := ExtraShots);
    }

    /** The space key of the main loop: the stored power-up, if any and the game is on, is activated and the slot emptied. */
    method UseStored()
      requires Valid()
      modifies this
      ensures View() == UseStoredSpec(old(View()))
      ensures Valid()
    {
      if power.stored.Some? && !tally.gameOver {
        ActivatePowerup(power.stored.value);
        power := power.(stored := None);
      }
    }

    /**
     * `shoot_bubble`: with no shot in flight and the game on, a shot of the
     * previewed colour leaves the shooter with velocity (vx, vy), which the
     * source computes from the aim angle; the preview takes the new colour.
     */
    method Shoot(auto: bool, vx: real, vy: real, nextColour: Colour)
      requires Valid()
      modifies this
      ensures View() == ShootSpec(old(View()), auto, vx, vy, nextColour)
      ensures Valid()
    {
      if launcher.shooting.None? && !tally.gameOver {
        var fired := if auto then launcher.shotsFired else launcher.shotsFired + 1;
        launcher := Launcher(Some(Shot(ShooterX as real, ShooterY as real, vx, vy, launcher.next, false)), nextColour, fired);
      }
    }

    /**
     * One frame of `update`: the shot moves under the time factor; when it
     * reaches the ceiling or touches a bubble it is attached and a
     * multi-shot extra fires; otherwise each power-up of a copy of the list
     * leaves or is caught as `fates` says, and the power-up timer ticks.
     */
    method Update(fates: seq<Fate>, roll: real, pick: SpawnKind, vx: real, vy: real, nextColour: Colour)
      requires Valid()
      modifies this
      ensures View() == UpdateSpec(old(View()), fates, roll, pick, vx, vy, nextColour)
      ensures Valid()
    {
      if launcher.shooting.Some? {
        Move(fates, roll, pick, vx, vy, nextColour);
      } else {
        Fly(fates);
      }
    }

    /** A frame of `update` with a shot in flight: it moves under the time factor, then lands or flies on. */
    method Move(fates: seq<Fate>, roll: real, pick: SpawnKind, vx: real, vy: real, nextColour: Colour)
      requires Valid() && launcher.shooting.Some?
      modifies this
      ensures View() == UpdateSpec(old(View()), fates, roll, pick, vx, vy, nextColour)
      ensures Valid()
    {
      ghost var s0 := View();
      var factor := if power.active == Some(TimeSlow) then power.timeSlow else 1.0;
      var m := Advance(launcher.shooting.value, factor);
      launcher := launcher.(shooting := Some(m));
      ghost var s1 := View();
      assert s1 == s0.(shooting := Some(m)) && m == Advance(s0.shooting.value, Factor(s0));
      var touching := FindCollision(m, field.bubbles);
      if m.y - Radius as real <= 0.0 || touching {
        assert Lands(m, s1.bubbles);
        Land(m, roll, pick, vx, vy, nextColour);
      } else {
        assert !Lands(m, s1.bubbles);
        Fly(fates);
      }
    }

    /** The landing branch of `update`: the shot is attached and a multi-shot extra fires. */
    method Land(m: Shot, roll: real, pick: SpawnKind, vx: real, vy: real, nextColour: Colour)
      requires Valid()
      modifies this
      ensures View() == LandSpec(old(View()), m, roll, pick, vx, vy, nextColour)
      ensures Valid()
    {
      ghost var s0 := View();
      AttachBubble(m, roll, pick);
      ghost var a := View();
      assert a == AttachSpec(s0, m, roll, pick);
      if power.active == Some(MultiShot) && power.multiShot > 0 {
        power := power.(multiShot := power.multiShot - 1);
        assert View() == a.(multiShot := a.multiShot - 1);
        Shoot(true, vx, vy, nextColour);
      }
    }

    /** The rest of a frame of `update` without a landing: the power-up loop, then the timer. */
    method Fly(fates: seq<Fate>)
      requires Valid()
      modifies this
      ensures View() == FlySpec(old(View()), fates)
      ensures Valid()
    {
      CatchPowerups(fates);
      Tick();
    }

    /** The power-up loop of `update` over a copy of the list. */
    method CatchPowerups(fates: seq<Fate>)
      requires Valid()
      modifies this
      ensures View() == CatchSpec(old(View()), old(field.powerups), fates, 0)
      ensures Valid()
    {
      var list := field.powerups;
      ghost var target := CatchSpec(View(), list, fates, 0);
      var i := 0;
      while i < |list|
        invariant 0 <= i <= |list|
        invariant Valid()
        invariant CatchSpec(View(), list, fates, i) == target
      {
        var pu := list[i];
        var fate := if i < |fates| then fates[i] else Drifts;
        if fate == Leaves {
          field := field.(powerups := Remove(field.powerups, pu));
        } else if fate == Caught && launcher.shooting.Some? {
          ActivatePowerup(pu);
          field := field.(powerups := Remove(field.powerups, pu));
        }
        i := i + 1;
      }
    }

    /** The power-up timer at the end of `update`. */
    method Tick()
      requires Valid()
      modifies this
      ensures View() == TickSpec(old(View()))
      ensures Valid()
    {
      if power.active.Some? {
        var t := power.timer - 1;
        if t <= 0 {
          power := power.(timer := t, active := None,
                          multiShot := if power.active == Some(MultiShot) then 0 else power.multiShot,
                          timeSlow := if power.active == Some(TimeSlow) then 1.0 else power.timeSlow);
        } else {
          power := power.(timer := t);
        }
      }
    }
  }

  /** The collision scan of `update`: does the shot overlap some listed bubble? */
  method FindCollision(m: Shot, bs: seq<Bubble>) returns (hit: bool)
    ensures hit <==> Touching(m, bs)
  {
    var i := 0;
    while i < |bs|
      invariant 0 <= i <= |bs|
      invariant forall j :: 0 <= j < i ==> !Close(m, bs[j])
    {
      var dx, dy := m.x - bs[i].x, m.y - bs[i].y;
      if dx * dx + dy * dy < (2 * Radius * 2 * Radius) as real {
        return true;
      }
      i := i + 1;
    }
    return false;
  }

  /**
   * `attach_bubble` on the state s: the cell the shot comes to rest in,
   * the placed bubble, the match step and the floating pass.
   */
  method AttachOutcome(s: GameState, shot: Shot, roll: real, pick: SpawnKind)
    returns (grid: Grid, bubbles: seq<Bubble>, falling: seq<Bubble>, powerups: seq<Powerup>,
             score: int, combo: nat, gameOver: bool, shooting: Option<Shot>)
    requires Good(s)
    ensures AttachSpec(s, shot, roll, pick) ==
      s.(grid := grid, bubbles := bubbles, falling := falling, powerups := powerups,
         score := score, combo := combo, gameOver := gameOver, shooting := shooting)
    ensures Good(AttachSpec(s, shot, roll, pick))
  {
    AttachGood(s, shot, roll, pick);
    var cell := FindGridPosition(shot.x, shot.y);
    var t := ResolveAttachCell(s.grid, cell);
    if t.None? {
      return s.grid, s.bubbles, s.falling, s.powerups, s.score, s.combo, s.gameOver, None;
    }
    AttachTargetRule(s.grid, cell);
    var p := t.value;
    var b := Snap(shot, p);
    var s1 := s.(grid := Put(s.grid, p, Some(b)), bubbles := s.bubbles + [b]);
    assert s1 == Placed(s, shot, p);
    PlacedGood(s, shot, p);
    grid, bubbles, combo, score, powerups := MatchOutcome(s1, p, roll, pick);
    var s2 := s1.(grid := grid, bubbles := bubbles, combo := combo, score := score, powerups := powerups);
    MatchedLaw(s1, p, roll, pick);
    grid, bubbles, falling, score, gameOver := SettleOutcome(s2);
    shooting := None;
    AttachSteps(s, shot, roll, pick, p);
  }

  /** `check_floating_bubbles` on the state s: the floating bubbles and the board and lists it leaves. */
  method FloatOutcome(s: GameState) returns (floating: seq<Bubble>, grid: Grid, bubbles: seq<Bubble>, falling: seq<Bubble>)
    requires Good(s)
    ensures floating == Unanchored(s.grid, s.bubbles)
    ensures Float(s) == s.(grid := grid, bubbles := bubbles, falling := falling)
  {
    floating := Unmarked(s.grid, s.bubbles);
    grid, bubbles, falling := MoveToFalling(s.grid, s.bubbles, s.falling, floating);
  }

  /**
   * `apply_bomb_powerup` on the state s: the bubbles of the disc around
   * the cell under (x, y) are removed and score 15 each; then the
   * floating pass.
   */
  method BombOutcome(s: GameState, x: real, y: real) returns (grid: Grid, bubbles: seq<Bubble>, falling: seq<Bubble>, score: int)
    requires Good(s)
    ensures BombSpec(s, x, y) == s.(grid := grid, bubbles := bubbles, falling := falling, score := score)
  {
    var centre := FindGridPosition(x, y);
    var targets := BlastTargets(s.grid, centre);
    HomesOfCells(s.grid, s.bubbles, targets, BlastCells(s.grid, centre));
    var g, bs := RemoveAll(s.grid, s.bubbles, targets);
    var s1 := s.(grid := g, bubbles := bs, score := s.score + |targets| * BombPoints);
    ClearedGood(s, BlastCells(s.grid, centre));
    var floating;
    floating, grid, bubbles, falling := FloatOutcome(s1);
    score := s1.score;
  }

  /**
   * `apply_lightning_powerup` on the state s: the bubbles of the first
   * fullest column are removed and score 20 each; then the floating pass.
   */
  method LightningOutcome(s: GameState) returns (grid: Grid, bubbles: seq<Bubble>, falling: seq<Bubble>, score: int)
    requires Good(s)
    ensures LightningSpec(s) == s.(grid := grid, bubbles := bubbles, falling := falling, score := score)
  {
    var counts := ColumnCounts(s.bubbles);
    assert counts == Counts(s.bubbles);
    var col := FirstMaxIndex(counts);
    var targets := ColumnTargets(s.grid, col);
    HomesOfCells(s.grid, s.bubbles, targets, ColumnCells(s.grid, col));
    var g, bs := RemoveAll(s.grid, s.bubbles, targets);
    var s1 := s.(grid := g, bubbles := bs, score := s.score + |targets| * LightningPoints);
    ClearedGood(s, ColumnCells(s.grid, col));
    var floating;
    floating, grid, bubbles, falling := FloatOutcome(s1);
    score := s1.score;
  }

  /**
   * The end of `attach_bubble`: `check_floating_bubbles`, five points a
   * floating bubble, and the game-over test on the last row.
   */
  method SettleOutcome(s: GameState) returns (grid: Grid, bubbles: seq<Bubble>, falling: seq<Bubble>, score: int, gameOver: bool)
    requires Good(s)
    ensures Settled(s) == s.(grid := grid, bubbles := bubbles, falling := falling, score := score, gameOver := gameOver, shooting := None)
  {
    var floating;
    floating, grid, bubbles, falling := FloatOutcome(s);
    score, gameOver := s.score, s.gameOver;
    if |floating| > 0 {
      score := score + |floating| * FloatPoints;
    }
    var hit := ReachesBottom(bubbles);
    if hit {
      gameOver := true;
    }
  }

  /**
   * `find_matches` for the bubble at p, and the grid and list that
   * `remove_bubbles` makes of the matched bubbles.
   */
  method MatchOutcome(s: GameState, p: Cell, roll: real, pick: SpawnKind)
    returns (grid: Grid, bubbles: seq<Bubble>, combo: nat, score: int, powerups: seq<Powerup>)
    requires Good(s) && Occupied(s.grid, p)
    ensures Matched(s, p, roll, pick) == s.(grid := grid, bubbles := bubbles, combo := combo, score := score, powerups := powerups)
  {
    var matches, g, bs := MatchAndClear(s.grid, s.bubbles, p);
    MatchedFields(s, p, roll, pick, |matches|, g, bs);
    grid, bubbles, combo, score, powerups := s.grid, s.bubbles, s.combo, s.score, s.powerups;
    if |matches| >= 3 {
      combo := combo + 1;
      score := score + MatchScore(|matches|, combo);
      grid, bubbles := g, bs;
      if Spawns(roll, |matches|) {
        powerups := powerups + [Powerup(pick, CentreX(p.0, p.1), CentreY(p.0))];
      }
    } else {
      combo := 0;
    }
  }

  method MatchAndClear(g0: Grid, bs0: seq<Bubble>, p: Cell) returns (matches: seq<Cell>, g: Grid, bs: seq<Bubble>)
    requires Consistent(g0, bs0) && Occupied(g0, p)
    ensures |matches| == |ClusterCells(g0, p)|
    ensures g == Clear(g0, ClusterCells(g0, p)) && bs == Drop(bs0, ClusterCells(g0, p))
  {
    matches := FindMatches(g0, p);
    MatchedCells(g0, bs0, p, matches);
    var targets := BubblesAt(g0, matches);
    g, bs := RemoveAll(g0, bs0, targets);
  }

  /** The loop of `remove_bubbles` over grid and list. */
  method RemoveAll(g0: Grid, bs0: seq<Bubble>, targets: seq<Bubble>) returns (g: Grid, bs: seq<Bubble>)
    requires Consistent(g0, bs0)
    ensures g == Clear(g0, Homes(targets, bs0)) && bs == Drop(bs0, Homes(targets, bs0))
  {
    g, bs := g0, bs0;
    NothingCleared(g0, bs0);
    var i := 0;
    assert Homes(targets[..i], bs0) == {};
    while i < |targets|
      invariant 0 <= i <= |targets|
      invariant g == Clear(g0, Homes(targets[..i], bs0))
      invariant bs == Drop(bs0, Homes(targets[..i], bs0))
    {
      var b := targets[i];
      RemoveStep(g0, bs0, targets, i);
      if b in bs {
        bs := Remove(bs, b);
        g := Put(g, Home(b), None);
      }
      i := i + 1;
    }
    assert targets[..i] == targets;
  }

  /** The marking pass: the listed bubbles whose cells the flood from the ceiling does not reach. */
  method Unmarked(g: Grid, bs: seq<Bubble>) returns (floating: seq<Bubble>)
    requires Consistent(g, bs)
    ensures floating == Unanchored(g, bs)
  {
    var seeds := CeilingSeeds(g);
    var order := Flood(g, seeds, true);
    MarkedAreAnchored(g, seeds, order);
    var marked := set c | c in order;
    floating := Drop(bs, marked);
  }

  /** The loop of `check_floating_bubbles` that moves the floating bubbles, one at a time. */
  method MoveToFalling(g0: Grid, bs0: seq<Bubble>, fl0: seq<Bubble>, floating: seq<Bubble>)
    returns (g: Grid, bs: seq<Bubble>, fl: seq<Bubble>)
    requires Consistent(g0, bs0) && Distinct(floating) && forall b :: b in floating ==> b in bs0
    ensures g == Clear(g0, Homes(floating, bs0)) && bs == Drop(bs0, Homes(floating, bs0))
    ensures fl == fl0 + floating
  {
    g, bs, fl := g0, bs0, fl0;
    NothingCleared(g0, bs0);
    var i := 0;
    assert Homes(floating[..i], bs0) == {};
    while i < |floating|
      invariant 0 <= i <= |floating|
      invariant g == Clear(g0, Homes(floating[..i], bs0))
      invariant bs == Drop(bs0, Homes(floating[..i], bs0))
      invariant fl == fl0 + floating[..i]
    {
      var b := floating[i];
      RemoveStep(g0, bs0, floating, i);
      FreshHome(g0, bs0, floating, i);
      PrefixSnoc(floating, i);
      fl := fl + [b];
      bs := Remove(bs, b);
      g := Put(g, Home(b), None);
      i := i + 1;
    }
    assert floating[..i] == floating;
  }

  /**
   * The loops of `initialize_grid`: row by row, the top five rows of an
   * empty grid receive a bubble wherever `fill` chose a colour.
   */
  method SeedGrid(fill: Cell -> Option<Colour>) returns (g: Grid, bs: seq<Bubble>)
    ensures (g, bs) == Seeded(fill, FilledRows * Cols)
  {
    g, bs := EmptyGrid(), [];
    var row := 0;
    while row < FilledRows
      invariant 0 <= row <= FilledRows
      invariant (g, bs) == Seeded(fill, row * Cols)
    {
      g, bs := SeedRow(fill, row, g, bs);
      row := row + 1;
    }
  }

  /** The inner loop of `initialize_grid`: the cells of one row, left to right. */
  method SeedRow(fill: Cell -> Option<Colour>, row: int, g0: Grid, bs0: seq<Bubble>) returns (g: Grid, bs: seq<Bubble>)
    requires 0 <= row < FilledRows && (g0, bs0) == Seeded(fill, row * Cols)
    ensures (g, bs) == Seeded(fill, (row + 1) * Cols)
  {
    g, bs := g0, bs0;
    ghost var n := row * Cols;
    var col := 0;
    while col < Cols
      invariant 0 <= col <= Cols && n == row * Cols + col
      invariant (g, bs) == Seeded(fill, n)
    {
      ScanStep(fill, row, col, n);
      var c := (row, col);
      if fill(c).Some? {
        var b := Bubble(fill(c).value, false, CentreX(row, col), CentreY(row), row, col);
        bs := bs + [b];
        g := Put(g, c, Some(b));
      }
      n := n + 1;
      col := col + 1;
    }
    assert n == (row + 1) * Cols;
  }

  /** Position row * 16 + col of the row-by-row scan places the bubble of cell (row, col), if the fill chose one. */
  lemma ScanStep(fill: Cell -> Option<Colour>, row: int, col: int, n: int)
    requires 0 <= row < FilledRows && 0 <= col < Cols && n == row * Cols + col
    ensures var (g, bs) := Seeded(fill, n);
      Seeded(fill, n + 1) ==
        if fill((row, col)).Some? then
          var b := Bubble(fill((row, col)).value, false, CentreX(row, col), CentreY(row), row, col);
          (Put(g, (row, col), Some(b)), bs + [b])
        else (g, bs)
  {
    assert n / Cols == row && n % Cols == col;
  }
}
