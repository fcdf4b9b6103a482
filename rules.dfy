/**
 * The rules of a Puzzle Bobble round as transitions on a snapshot of the
 * game's fields: attaching the shot, scoring and clearing a cluster,
 * dropping what no longer hangs from the ceiling, the seven power-ups and
 * their timer, firing and one frame of the update loop.  The `Game` class
 * is proved to perform exactly these transitions; the lemmas here state
 * what the transitions guarantee.
 */
module Rules {
  import opened HexGrid
  import opened Connectivity
  import opened Board
  import opened Motion

  datatype PowerupKind = Bomb | Rainbow | Lightning | Freeze | Magnet | TimeSlow | MultiShot

  /** A power-up pick-up: its type and its position in pixels. */
  datatype Powerup = Powerup(kind: PowerupKind, x: real, y: real)

  /**
   * What happens to a power-up during a frame, as its own float motion and
   * the collision test decide: it stays, it leaves the screen, or the shot
   * touches it.
   */
  datatype Fate = Drifts | Leaves | Caught

  const MatchPoints := 10
  const MaxMultiplier := 5
  const FloatPoints := 5
  const BombPoints := 15
  const LightningPoints := 20
  const PowerupPoints := 50
  const PowerupFrames := 300     // five seconds at 60 frames per second
  const ExtraShots := 3

  /** The fields of `Game` that the rules read and write. */
  datatype GameState = GameState(
    grid: Grid, bubbles: seq<Bubble>, falling: seq<Bubble>, powerups: seq<Powerup>,
    shooting: Option<Shot>, next: Colour,
    score: int, combo: nat, gameOver: bool,
    active: Option<PowerupKind>, timer: int, multiShot: nat, timeSlow: real,
    collected: nat, stats: map<PowerupKind, nat>, stored: Option<Powerup>, shotsFired: nat)

  const FilledRows := 5   // min(5, GRID_ROWS) rows are filled at the start

  /** The bubble `initialize_grid` puts in cell c, if the random fill chose one. */
  function Seed(fill: Cell -> Option<Colour>, c: Cell): Option<Bubble> {
    if 0 <= c.0 < FilledRows && fill(c).Some? then
      Some(Bubble(fill(c).value, false, CentreX(c.0, c.1), CentreY(c.0), c.0, c.1))
    else None
  }

  /**
   * The first n cells of `initialize_grid`'s row-by-row scan: grid and
   * list after placing the bubbles of those cells.  The random draws are
   * the parameter `fill`: None where a cell is skipped, the colour chosen
   * otherwise.
   */
  function Seeded(fill: Cell -> Option<Colour>, n: nat): (r: (Grid, seq<Bubble>))
    requires n <= FilledRows * Cols
    ensures Shaped(r.0)
    decreases n
  {
    if n == 0 then (EmptyGrid(), [])
    else
      var (g, bs) := Seeded(fill, n - 1);
      var c := ((n - 1) / Cols, (n - 1) % Cols);
      match Seed(fill, c)
      case None => (g, bs)
      case Some(b) => (Put(g, c, Some(b)), bs + [b])
  }

  /** `reset_game` followed by `initialize_grid`; `next` is the colour of the first preview bubble. */
  function Initial(fill: Cell -> Option<Colour>, next: Colour): (r: GameState)
    ensures Shaped(r.grid)
  {
    var (g, bs) := Seeded(fill, FilledRows * Cols);
    GameState(g, bs, [], [], None, next, 0, 0, false, None, 0, 0, 1.0, 0,
              map[Bomb := 0, Rainbow := 0, Lightning := 0, Freeze := 0, Magnet := 0, TimeSlow := 0, MultiShot := 0],
              None, 0)
  }

  /** The game's invariant: grid and list agree, and every power-up type has a statistics entry. */
  ghost predicate Good(s: GameState) {
    Consistent(s.grid, s.bubbles) && forall k: PowerupKind :: k in s.stats
  }

  /** The shot turned into a grid bubble at the centre of cell p. */
  function Snap(s: Shot, p: Cell): Bubble {
    Bubble(s.colour, s.rainbow, CentreX(p.0, p.1), CentreY(p.0), p.0, p.1)
  }

  /** The power-up spawn test: `random.random() < 0.1 + min(0.4, n * 0.05)`. */
  predicate Spawns(roll: real, n: int) {
    var bonus := n as real * 0.05;
    roll < 0.1 + (if bonus <= 0.4 then bonus else 0.4)
  }

  /** The kinds a cleared cluster can spawn. */
  predicate Spawnable(k: PowerupKind) {
    k == Bomb || k == Rainbow || k == Lightning || k == Freeze
  }

  /** The draw `random.choice(["bomb", "rainbow", "lightning", "freeze"])` of a spawned power-up. */
  type SpawnKind = k: PowerupKind | Spawnable(k) witness Bomb

  /** Some listed bubble sits in the last row. */
  predicate Bottomed(bs: seq<Bubble>) {
    exists b :: b in bs && b.row >= Rows - 1
  }

  /** The shot overlaps a bubble: centre distance below two radii, compared squared. */
  predicate Close(m: Shot, b: Bubble) {
    var dx, dy := m.x - b.x, m.y - b.y;
    dx * dx + dy * dy < (2 * Radius * 2 * Radius) as real
  }

  predicate Touching(m: Shot, bs: seq<Bubble>) {
    exists i :: 0 <= i < |bs| && Close(m, bs[i])
  }

  /** The shot's landing test of `update`: it reaches the ceiling or touches a bubble. */
  predicate Lands(m: Shot, bs: seq<Bubble>) {
    m.y - Radius as real <= 0.0 || Touching(m, bs)
  }

  /** The power-up and shot book-keeping of two states agree. */
  predicate SameBooks(a: GameState, b: GameState) {
    a.active == b.active && a.timer == b.timer && a.multiShot == b.multiShot && a.timeSlow == b.timeSlow &&
    a.collected == b.collected && a.stats == b.stats && a.stored == b.stored &&
    a.shotsFired == b.shotsFired && a.next == b.next
  }

  /** `remove_bubbles` in terms of the cells it empties. */
  function Cleared(s: GameState, k: set<Cell>): (r: GameState)
    requires Shaped(s.grid)
    ensures Shaped(r.grid)
    ensures SameBooks(r, s)
  {
    s.(grid := Clear(s.grid, k), bubbles := Drop(s.bubbles, k))
  }

  /**
   * `check_floating_bubbles`: the listed bubbles that do not hang from the
   * ceiling, in list order, leave grid and list and join the falling ones.
   */
  ghost function Float(s: GameState): (r: GameState)
    requires Shaped(s.grid)
    ensures Shaped(r.grid)
    ensures SameBooks(r, s)
  {
    var f := Unanchored(s.grid, s.bubbles);
    var k := Homes(f, s.bubbles);
    s.(grid := Clear(s.grid, k), bubbles := Drop(s.bubbles, k), falling := s.falling + f)
  }

  function PlusOne(m: map<PowerupKind, nat>, k: PowerupKind): map<PowerupKind, nat> {
    m[k := (if k in m then m[k] else 0) + 1]
  }

  /** The shot snapped into the free cell p and appended to the list. */
  function Placed(s: GameState, shot: Shot, p: Cell): (r: GameState)
    requires Shaped(s.grid) && InBounds(p)
    ensures Shaped(r.grid)
    ensures SameBooks(r, s)
  {
    var b := Snap(shot, p);
    s.(grid := Put(s.grid, p, Some(b)), bubbles := s.bubbles + [b])
  }

  /** Ten points a matched bubble, times the combo counter capped at five. */
  function MatchScore(n: nat, combo: nat): nat
  {
    var m := Min(MaxMultiplier, combo);
    assert m >= 0;
    n * MatchPoints * m
  }

  /**
   * The match step of `attach_bubble` for the bubble just placed at p: a
   * colour cluster of at least three is cleared and scores ten points a
   * bubble times the combo multiplier, capped at five, and may spawn a
   * power-up where the bubble sat; a smaller one resets the combo.
   */
  ghost function Matched(s: GameState, p: Cell, roll: real, pick: SpawnKind): (r: GameState)
    requires Shaped(s.grid)
    ensures Shaped(r.grid)
    ensures SameBooks(r, s)
  {
    var k := ClusterCells(s.grid, p);
    if |k| >= 3 then
      var c := s.combo + 1;
      Cleared(s, k).(combo := c, score := s.score + MatchScore(|k|, c),
                     powerups := s.powerups + if Spawns(roll, |k|) then [Powerup(pick, CentreX(p.0, p.1), CentreY(p.0))] else [])
    else s.(combo := 0)
  }

  /**
   * The end of `attach_bubble`: the floating pass, five points a floating
   * bubble, the game-over test on the last row, and no shot in flight.
   */
  ghost function Settled(s: GameState): (r: GameState)
    requires Shaped(s.grid)
    ensures Shaped(r.grid)
    ensures SameBooks(r, s)
  {
    var f := Unanchored(s.grid, s.bubbles);
    var s1 := Float(s);
    s1.(score := s1.score + |f| * FloatPoints, gameOver := s1.gameOver || Bottomed(s1.bubbles), shooting := None)
  }

  /** `attach_bubble`: where the shot lands, then the match step and the end of the shot. */
  ghost function AttachSpec(s: GameState, shot: Shot, roll: real, pick: SpawnKind): (r: GameState)
    requires Shaped(s.grid)
    ensures Shaped(r.grid)
    ensures SameBooks(r, s)
  {
    var t := AttachTarget(s.grid, FindGridPosition(shot.x, shot.y));
    if t.None? then s.(shooting := None)
    else
      AttachTargetRule(s.grid, FindGridPosition(shot.x, shot.y));
      Settled(Matched(Placed(s, shot, t.value), t.value, roll, pick))
  }

  /**
   * `apply_bomb_powerup`: every bubble within the disc of radius three
   * cells around the cell under (x, y) goes, 15 points each, then the
   * floating pass runs without scoring.
   */
  ghost function BombSpec(s: GameState, x: real, y: real): (r: GameState)
    requires Shaped(s.grid)
    ensures Shaped(r.grid)
    ensures SameBooks(r, s)
  {
    var k := BlastCells(s.grid, FindGridPosition(x, y));
    Float(Cleared(s, k).(score := s.score + |k| * BombPoints))
  }

  /** The per-column bubble counts of the list. */
  function Counts(bs: seq<Bubble>): (counts: seq<int>)
    ensures |counts| == Cols
  {
    seq(Cols, k => ColumnCount(bs, k))
  }

  /** The column `apply_lightning_powerup` strikes: the first one with the most listed bubbles. */
  function StruckColumn(bs: seq<Bubble>): nat {
    FirstMaxIndex(Counts(bs))
  }

  /**
   * `apply_lightning_powerup`: the bubbles of the struck column go, 20
   * points each, then the floating pass runs without scoring.
   */
  ghost function LightningSpec(s: GameState): (r: GameState)
    requires Shaped(s.grid)
    ensures Shaped(r.grid)
    ensures SameBooks(r, s)
  {
    var k := ColumnCells(s.grid, StruckColumn(s.bubbles));
    Float(Cleared(s, k).(score := s.score + |k| * LightningPoints))
  }

  /** The pick-up of a non-instant power-up swaps with a stored one, which is activated instead. */
  predicate Swaps(s: GameState, p: Powerup) {
    s.stored.Some? && p.kind != Bomb && p.kind != Lightning
  }

  /** The power-up that a pick-up of p actually activates: the stored one when they swap. */
  function Effective(s: GameState, p: Powerup): Powerup {
    if Swaps(s, p) then s.stored.value else p
  }

  /**
   * The book-keeping of `activate_powerup`: the swap with the stored
   * power-up, then the effective one becomes active for 300 frames, scores
   * 50 and is counted.
   */
  function Activated(s: GameState, p: Powerup): (r: GameState)
    requires Shaped(s.grid)
    ensures Shaped(r.grid)
  {
    var q := Effective(s, p);
    s.(stored := if Swaps(s, p) then Some(p) else s.stored,
       active := Some(q.kind), timer := PowerupFrames, score := s.score + PowerupPoints,
       collected := s.collected + 1, stats := PlusOne(s.stats, q.kind))
  }

  /**
   * The effect of power-up q.  Bomb and lightning act at once and end the
   * active effect; rainbow turns the shot in flight into a gold rainbow
   * bubble; time-slow halves the shot's speed; multi-shot grants three
   * extra shots; freeze and magnet act only through the timer (the magnet's
   * pull on the shot is not part of this model).
   */
  ghost function Effect(s: GameState, q: Powerup): (r: GameState)
    requires Shaped(s.grid)
    ensures Shaped(r.grid)
  {
    match q.kind
    case Bomb => BombSpec(s, q.x, q.y).(active := None)
    case Rainbow =>
      if s.shooting.Some? then s.(shooting := Some(s.shooting.value.(colour := Gold, rainbow := true))) else s
    case Lightning => LightningSpec(s).(active := None)
    case Freeze => s
    case Magnet => s
    case TimeSlow => s.(timeSlow := 0.5)
    case MultiShot => s.(multiShot := ExtraShots)
  }

  /** `activate_powerup`. */
  ghost function ActivateSpec(s: GameState, p: Powerup): (r: GameState)
    requires Shaped(s.grid)
    ensures Shaped(r.grid)
  {
    Effect(Activated(s, p), Effective(s, p))
  }

  /** The space key: the stored power-up, if any and the game is on, is activated and the slot emptied. */
  ghost function UseStoredSpec(s: GameState): (r: GameState)
    requires Shaped(s.grid)
    ensures Shaped(r.grid)
  {
    if s.stored.Some? && !s.gameOver then ActivateSpec(s, s.stored.value).(stored := None) else s
  }

  /**
   * The power-up timer at the end of a frame: while an effect is active,
   * one frame is taken off; when none is left the effect ends, and the
   * multi-shot count or the time factor is reset.
   */
  function TickSpec(s: GameState): GameState {
    if s.active.None? then s
    else
      var t := s.timer - 1;
      if t > 0 then s.(timer := t)
      else s.(timer := t, active := None,
              multiShot := if s.active == Some(MultiShot) then 0 else s.multiShot,
              timeSlow := if s.active == Some(TimeSlow) then 1.0 else s.timeSlow)
  }

  /**
   * `shoot_bubble`: only with no shot in flight and the game on, a shot of
   * the next colour leaves the shooter with the given velocity; the next
   * colour is drawn anew; a shot fired by the player, not by multi-shot,
   * is counted.
   */
  function ShootSpec(s: GameState, auto: bool, vx: real, vy: real, nextColour: Colour): (r: GameState)
    ensures s.shooting.Some? || s.gameOver ==> r == s
    ensures s.shooting.None? && !s.gameOver ==>
      r.shooting.Some? && r.shooting.value.colour == s.next && !r.shooting.value.rainbow &&
      r.shooting.value.x == ShooterX as real && r.shooting.value.y == ShooterY as real &&
      r.next == nextColour &&
      r.shotsFired == (if auto then s.shotsFired else s.shotsFired + 1)
    ensures r.grid == s.grid && r.bubbles == s.bubbles && r.score == s.score
  {
    if s.shooting.None? && !s.gameOver then
      s.(shooting := Some(Shot(ShooterX as real, ShooterY as real, vx, vy, s.next, false)),
         next := nextColour,
         shotsFired := if auto then s.shotsFired else s.shotsFired + 1)
    else s
  }

  function FateAt(fates: seq<Fate>, i: int): Fate {
    if 0 <= i < |fates| then fates[i] else Drifts
  }

  /**
   * The power-up loop of `update`, from position i of the frame's copy of
   * the list: a power-up that leaves is removed; one the shot touches, with
   * a shot in flight, is activated and then removed.
   */
  ghost function CatchSpec(s: GameState, list: seq<Powerup>, fates: seq<Fate>, i: nat): (r: GameState)
    requires Shaped(s.grid) && i <= |list|
    ensures Shaped(r.grid)
    decreases |list| - i
  {
    if i == |list| then s
    else
      var p := list[i];
      var s' :=
        if FateAt(fates, i) == Leaves then s.(powerups := Remove(s.powerups, p))
        else if FateAt(fates, i) == Caught && s.shooting.Some? then
          var a := ActivateSpec(s, p);
          a.(powerups := Remove(a.powerups, p))
        else s;
      CatchSpec(s', list, fates, i + 1)
  }

  /** The time factor of the frame. */
  function Factor(s: GameState): real {
    if s.active == Some(TimeSlow) then s.timeSlow else 1.0
  }

  /**
   * The landing branch of `update`: the shot is attached and, while
   * multi-shot is active with extra shots left, one is used up and fired
   * at once.
   */
  ghost function LandSpec(s: GameState, m: Shot, roll: real, pick: SpawnKind,
                          vx: real, vy: real, nextColour: Colour): (r: GameState)
    requires Shaped(s.grid)
    ensures Shaped(r.grid)
  {
    var a := AttachSpec(s, m, roll, pick);
    if a.active == Some(MultiShot) && a.multiShot > 0 then
      ShootSpec(a.(multiShot := a.multiShot - 1), true, vx, vy, nextColour)
    else a
  }

  /** The rest of a frame without a landing: the power-up loop over a copy of the list, then the timer. */
  ghost function FlySpec(s: GameState, fates: seq<Fate>): (r: GameState)
    requires Shaped(s.grid)
    ensures Shaped(r.grid)
  {
    TickSpec(CatchSpec(s, s.powerups, fates, 0))
  }

  /**
   * One frame of `update`: the shot moves; if it reaches the ceiling or
   * touches a bubble it lands and the frame ends there; otherwise the
   * power-ups are handled and the timer ticks.
   */
  ghost function UpdateSpec(s: GameState, fates: seq<Fate>, roll: real, pick: SpawnKind,
                            vx: real, vy: real, nextColour: Colour): (r: GameState)
    requires Shaped(s.grid)
    ensures Shaped(r.grid)
  {
    if s.shooting.Some? then
      var m := Advance(s.shooting.value, Factor(s));
      var s1 := s.(shooting := Some(m));
      if Lands(m, s1.bubbles) then LandSpec(s1, m, roll, pick, vx, vy, nextColour)
      else FlySpec(s1, fates)
    else FlySpec(s, fates)
  }
}
