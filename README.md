# Puzzle Bobble game rules in Dafny

This project models the core of `puzzle_bobble.py`, a Puzzle Bobble clone
written with pygame. The player fires coloured bubbles into a hexagonal field
of 12 rows by 16 columns. A bubble that lands snaps into a free cell. A
cluster of three or more bubbles of one colour (a rainbow bubble matches every
colour) is cleared and scores points times a combo multiplier. Any bubble that
no longer hangs from the ceiling row then falls. Power-ups that drop from
cleared clusters can be caught with the shot:

- bomb and lightning clear an area or a column at once;
- rainbow turns the shot into a wildcard;
- time-slow halves the shot's speed;
- multi-shot fires three extra shots automatically;
- freeze and magnet last on a 300-frame timer.

When the game ends, the leaderboard keeps the ten best entries.

The model is organised as follows:

- `hexgrid.dfy` (`HexGrid`) covers cell addressing:
  - the even-row pixel shift;
  - `find_grid_position`, with Python's truncating `int()`;
  - the six-cell neighbourhood of `get_neighbors`.
- `connectivity.dfy` (`Connectivity`) covers the two flood fills:
  - the colour-matching fill of `find_matches` and `find_matching_neighbors`;
  - the colour-blind fill from the ceiling of `mark_connected`.

  Both are one iterative traversal (`Flood`), proved to return each reachable cell exactly once.
- `board.dfy` (`Board`) covers the grid together with the bubble list:
  - the invariant that the two agree (`Consistent`);
  - removal of bubbles by cell;
  - the cells a bomb or a lightning strike reaches;
  - where `attach_bubble` puts the shot.
- `motion.dfy` (`Motion`) covers one frame of the shot's flight (`Bubble.update`) and the time-factor wrapper of `Game.update`.
- `rules.dfy` (`Rules`) covers a value `GameState` holding the attributes of `Game` that the rules touch. Each operation of the source is a function on it (`AttachSpec`, `BombSpec`, `ActivateSpec`, `UpdateSpec`, …).
- `laws.dfy` (`Laws`) holds the lemmas about those functions, for example:
  - the invariant `Good` is preserved;
  - clusters are cleared and scored;
  - falling is exact and idempotent;
  - power-up bookkeeping and timer expiry behave as described above;
  - multi-shot re-fires.
- `game.dfy` (`Bobble`) holds the `Game` class. Its attributes are fields that its methods update in place. Each method is proved to perform exactly the transition of `Rules` on the snapshot `View()`, and to keep `Valid()`.

  The loops of the source are `while` loops with invariants:
  - the grid fill;
  - the removal loops;
  - the column count;
  - the blast scan;
  - the power-up loop.

  The methods delegate to value-level methods (`AttachOutcome`, `FloatOutcome`, …) that compute the new attribute values.
- `leaderboard.dfy` (`Ranking`) holds `Leaderboard.add_score`: a stable sort by descending score, cut to ten entries.

Random draws and the player's input are parameters:

- `fill` gives the colours of `initialize_grid`;
- `roll` and `pick` give the power-up spawn; `pick` has the type `SpawnKind`, which holds only the four kinds the game draws from (bomb, rainbow, lightning, freeze);
- `nextColour` gives the next preview bubble;
- `vx` and `vy` give the velocity computed from the aim angle;
- `fates` gives the per-frame outcome of each power-up's own motion and collision test.

## Model

| member | source | states |
|---|---|---|
| HexGrid.EmptyGrid | puzzle_bobble.py:578 | the fresh grid has 12 rows of 16 cells, all empty |
| HexGrid.Trunc | puzzle_bobble.py:1057 | Python's `int()` on a float: the integer between 0 and the value, less than one away from it |
| HexGrid.FindGridPosition | puzzle_bobble.py:1055-1065 | for a point below the ceiling, the returned row's 40 px band holds y; to the right of the row's shifted edge, the cell's 40 px box holds x; points less than 40 px from the ceiling, above or below it, get row 0 |
| HexGrid.SnapRoundTrip | puzzle_bobble.py:979-983 | the centre that `attach_bubble` gives a cell is mapped back to that same cell by `find_grid_position` |
| HexGrid.Neighbours | puzzle_bobble.py:1067-1087 | exactly six neighbour addresses |
| HexGrid.NeighboursShape | puzzle_bobble.py:1067-1087 | the six are distinct from each other and from the cell, two in the row above, two in the same row, two below, each at most one column away |
| HexGrid.NeighbourSymmetric | puzzle_bobble.py:1067-1087 | b is a neighbour of a exactly when a is a neighbour of b, for every pair of cells |
| Connectivity.Flood | puzzle_bobble.py:1141-1169 | the traversal visits each cell reachable from the seeds through occupied, linked neighbours exactly once and nothing else |
| Connectivity.FindMatches | puzzle_bobble.py:1089-1140 | the matches are distinct, contain the attached bubble and are exactly its colour cluster; a rainbow bubble with no occupied neighbour matches only itself |
| Connectivity.RecolouredRainbowKeepsCluster | puzzle_bobble.py:1104-1128 | giving the rainbow bubble a neighbour's colour for a trial leaves its cluster unchanged, so every trial of the rainbow loop finds the same matches |
| Connectivity.LoneCluster | puzzle_bobble.py:1132-1134 | a bubble without occupied neighbours is its own whole cluster |
| Connectivity.PlainClusterIsMonochrome | puzzle_bobble.py:1155-1169 | without rainbow bubbles, every bubble reached by a matching path has the colour of its start |
| Connectivity.RainbowBridgesColours | puzzle_bobble.py:1159-1163 | for any cells a, r and b of any colours, a rainbow bubble at r next to both a and b puts b in the cluster grown from a |
| Board.DropConsistent | puzzle_bobble.py:1171-1179 | removing the bubbles of any set of cells from grid and list keeps the two in agreement |
| Board.PlaceConsistent | puzzle_bobble.py:979-987 | a bubble snapped to the centre of a free cell and put in both grid and list keeps them in agreement |
| Board.Unanchored | puzzle_bobble.py:1192-1193 | the floating bubbles are exactly the listed bubbles whose cell does not hang from the ceiling, in list order |
| Board.CeilingSeeds | puzzle_bobble.py:1187-1189 | the traversal starts from exactly the occupied cells of row 0, each once |
| Board.AnchoredIsReachable | puzzle_bobble.py:1203-1217 | a cell hangs from the ceiling exactly when the ceiling traversal reaches it |
| Board.MarkedAreAnchored | puzzle_bobble.py:1181-1217 | the cells `mark_connected` marks are exactly the cells that hang from the ceiling |
| Board.PruneKeepsAnchored | puzzle_bobble.py:1195-1199 | taking away bubbles that do not hang leaves every hanging bubble hanging |
| Board.BlastBoxAll | puzzle_bobble.py:869-876 | the square of rows and columns the bomb scans covers the whole disc of radius three |
| Board.BlastTargets | puzzle_bobble.py:861-877 | the bomb's target list holds each bubble of the blast disc, cut to the grid, exactly once |
| Board.ColumnCounts | puzzle_bobble.py:908-910 | the per-column counts of the bubble list |
| Board.FirstMaxIndex | puzzle_bobble.py:913 | `index(max(...))`: the first position of the largest count |
| Board.ColumnTargets | puzzle_bobble.py:915-919 | the lightning's target list holds each bubble of the column exactly once |
| Board.AttachTargetRule | puzzle_bobble.py:959-976 | the landing cell is free; out-of-range cells give none; a free cell is taken itself; an occupied cell gives the first free neighbour in `get_neighbors` order, or none exactly when no neighbour is free |
| Board.ResolveAttachCell | puzzle_bobble.py:959-976 | the loop over the neighbours finds the landing cell of `AttachTargetRule` |
| Board.ReachesBottom | puzzle_bobble.py:1044-1050 | game over exactly when some listed bubble sits in the last row |
| Motion.Move | puzzle_bobble.py:549-561 | the centre moves by the velocity; at a wall vx is reversed and the centre is put at one radius from the wall it touched (the left stop when x + vx - 20 <= 0, otherwise the right stop); it always ends between the two stops |
| Motion.AdvanceAsWritten | puzzle_bobble.py:660-674 | the centre moves by the velocity times the time factor and is put at the stop of a wall it touches; colour and rainbow flag are kept; the saved velocity is written back, so vx is unchanged even after touching a wall |
| Motion.BounceLost | puzzle_bobble.py:665-674 | as written, a shot at the left wall that heads left stays at the wall, still heading left, frame after frame |
| Motion.Advance | puzzle_bobble.py:660-674 | the frame moves by the velocity times the time factor, and a wall touch reverses the stored vx |
| Motion.AdvanceBounces | puzzle_bobble.py:549-561 | with the corrected frame, a shot that touches a wall leaves it heading away from the wall |
| Rules.ShootSpec | puzzle_bobble.py:637-652 | with a shot in flight or the game over nothing changes; otherwise the shot leaves the shooter in the preview colour, the preview is drawn anew and only a player's shot is counted; the board and the score never change |
| Laws.ClearedGood | puzzle_bobble.py:1171-1179 | `remove_bubbles` keeps grid and list in agreement |
| Laws.FloatExact | puzzle_bobble.py:1181-1201 | after the floating pass a cell keeps its bubble exactly when it hangs from the ceiling; all other cells are empty |
| Laws.FloatSettles | puzzle_bobble.py:1181-1201 | after the floating pass, grid and list agree and every remaining bubble hangs from the ceiling |
| Laws.FloatIdempotent | puzzle_bobble.py:1181-1201 | a second floating pass changes nothing |
| Laws.FloatKeepsCeiling | puzzle_bobble.py:1185-1189 | the floating pass never touches row 0 |
| Laws.PlacedGood | puzzle_bobble.py:979-987 | placing the shot in a free cell keeps the invariant |
| Laws.MatchedLaw | puzzle_bobble.py:990-1027 | a cluster of three or more is emptied from the grid, the combo rises by one and the score by ten a bubble times min(5, combo); a smaller one changes nothing but resets the combo; the invariant holds and the score never drops |
| Laws.SettledLaw | puzzle_bobble.py:1029-1053 | after the floating pass, the scoring of the falling bubbles and the game-over test, no bubble floats, no shot is in flight, the score has grown by exactly 5 per bubble that was unanchored, and the game is over exactly when it was already or a remaining bubble sits on the last row |
| Laws.AttachGood | puzzle_bobble.py:957-1053 | `attach_bubble` keeps the invariant, ends the shot, never lowers the score or clears game over, and leaves no floating bubble when the shot found a cell |
| Laws.AttachDiscards | puzzle_bobble.py:959-976 | a shot whose cell is off the grid, or occupied with no free neighbour, is dropped with grid, list, score and combo unchanged; in every other case it finds a free cell |
| Laws.AttachClearsCluster | puzzle_bobble.py:990-1027 | when the placed bubble's cluster has three or more, those cells are empty afterwards, the combo rose by one and the score by at least the match score; otherwise the combo is 0 |
| Laws.BombLaw | puzzle_bobble.py:861-904 | the bomb keeps the invariant, empties every cell of the disc, scores 15 a bubble, leaves no floating bubble and keeps the other ceiling cells as they were |
| Laws.StruckColumnIsFullest | puzzle_bobble.py:906-913 | the struck column holds at least as many listed bubbles as any other, and more than every column to its left |
| Laws.LightningLaw | puzzle_bobble.py:906-955 | lightning keeps the invariant, empties the whole struck column, scores 20 a bubble and leaves no floating bubble |
| Laws.ActivateLaw | puzzle_bobble.py:781-859 | activation keeps the invariant, counts the effective power-up once, scores at least 50, stores the picked one when they swap, leaves bomb and lightning inactive and any other active for 300 frames, sets three extra shots for multi-shot, halves the speed factor for time slow and leaves it alone otherwise, turns a shot in flight into a gold rainbow shot for rainbow, and never fires, ends the game or loses the shot |
| Laws.EffectLaw | puzzle_bobble.py:817-859 | each effect keeps the invariant, never lowers the score, leaves the counters, the stored power-up and the timer alone, clears the active effect exactly for bomb and lightning, sets three extra shots exactly for multi-shot, sets the speed factor to 0.5 exactly for time slow, and turns a shot in flight into a gold rainbow shot for rainbow |
| Laws.EffectLasts | puzzle_bobble.py:769-779 | while fewer frames than the timer have passed, the effect stays, the timer has dropped by the frame count and the multi-shot count and time factor are untouched |
| Laws.EffectEnds | puzzle_bobble.py:769-779 | after as many frames as the timer (at least one) the effect is gone, with the multi-shot count reset to 0 or the time factor to 1.0 for those two effects |
| Laws.CatchLaw | puzzle_bobble.py:759-767 | the power-up loop keeps the invariant, never lowers the score, cannot end the game or fire, and without a shot in flight changes nothing but the power-up list, which only loses entries |
| Laws.CatchOnlyRemoves | puzzle_bobble.py:762-767 | without a shot in flight the loop only removes power-ups that leave: the rest of the state is untouched and the new list's entries are among the old ones |
| Laws.LandLaw | puzzle_bobble.py:676-697 | a landing keeps the invariant and the stored slot, never lowers the score, and keeps the multi-shot count at most three |
| Laws.MultiShotRefires | puzzle_bobble.py:678-682 | a landing leaves a shot in flight exactly when multi-shot is active with extra shots left and the game goes on; that shot has the preview colour, uses up one extra shot and is not counted as fired; without multi-shot the landing is the attachment alone |
| Laws.FlyLaw | puzzle_bobble.py:759-779 | a frame without landing keeps the invariant, never lowers the score and leaves game over as it was |
| Laws.UpdateLaw | puzzle_bobble.py:658-779 | a frame of `update`, with the corrected wall bounce, keeps the invariant, never lowers the score, leaves the shot count as it was, never clears game over, and never fills an empty stored slot |
| Laws.SeededLaw | puzzle_bobble.py:613-632 | after the first n cells of the scan, grid and list agree and exactly the chosen cells among them hold their bubble |
| Laws.InitialLaw | puzzle_bobble.py:577-632 | a new game satisfies the invariant, holds the chosen bubbles of the top five rows only, has score 0, no shot, nothing stored, no extra shots and all statistics 0 |
| Laws.StoreNeverFilled | puzzle_bobble.py:781-793 | with an empty stored slot the picked power-up itself is activated and the slot stays empty |
| Bobble.Game.constructor | puzzle_bobble.py:574-632 | `Game()`: the state of `reset_game` with the grid filled by `initialize_grid` |
| Bobble.Game.RemoveBubbles | puzzle_bobble.py:1171-1179 | the listed bubbles among the targets leave list and grid; nothing else changes |
| Bobble.Game.CheckFloatingBubbles | puzzle_bobble.py:1181-1217 | returns the bubbles that do not hang, in list order, and moves them from grid and list to the falling list |
| Bobble.Game.AttachBubble | puzzle_bobble.py:957-1053 | performs `AttachSpec`: landing cell, placement, match and scoring, spawn, floating pass, game over, end of the shot |
| Bobble.Game.ApplyBomb | puzzle_bobble.py:861-904 | performs `BombSpec` |
| Bobble.Game.ApplyLightning | puzzle_bobble.py:906-955 | performs `LightningSpec` |
| Bobble.Game.ActivatePowerup | puzzle_bobble.py:781-859 | performs `ActivateSpec`: the swap with the stored power-up, the bookkeeping, then the effect |
| Bobble.Game.Collect | puzzle_bobble.py:781-811 | returns the effective power-up and makes the swap, the 300-frame timer, the 50 points and the statistics |
| Bobble.Game.ApplyEffect | puzzle_bobble.py:817-859 | performs the effect of one power-up type |
| Bobble.Game.UseStored | puzzle_bobble.py:1788-1790 | the space key: activates the stored power-up, if any, while the game is on, then empties the slot |
| Bobble.Game.Shoot | puzzle_bobble.py:637-652 | performs `ShootSpec` |
| Bobble.Game.Update | puzzle_bobble.py:658-779 | performs one frame, `UpdateSpec`, with the corrected wall bounce of `Motion.Advance` |
| Bobble.Game.Move | puzzle_bobble.py:660-697 | with a shot in flight: the time-factored move of `Motion.Advance` (bounce kept), then a landing or the rest of the frame |
| Bobble.Game.Land | puzzle_bobble.py:676-697 | performs `LandSpec`: attach, then the multi-shot re-fire |
| Bobble.Game.Fly | puzzle_bobble.py:759-779 | performs `FlySpec`: the power-up loop, then the timer |
| Bobble.Game.CatchPowerups | puzzle_bobble.py:759-767 | the loop over a copy of the power-up list performs `CatchSpec` |
| Bobble.Game.Tick | puzzle_bobble.py:769-779 | performs `TickSpec` |
| Bobble.FindCollision | puzzle_bobble.py:685-691 | the loop over the bubbles finds a hit exactly when the shot overlaps some listed bubble |
| Bobble.AttachOutcome | puzzle_bobble.py:957-1053 | computes the attributes that `attach_bubble` changes, as `AttachSpec` gives them, and the invariant holds afterwards |
| Bobble.FloatOutcome | puzzle_bobble.py:1181-1201 | computes the floating bubbles and the grid, list and falling list after the floating pass |
| Bobble.BombOutcome | puzzle_bobble.py:861-904 | computes grid, list, falling list and score after the bomb |
| Bobble.LightningOutcome | puzzle_bobble.py:906-955 | computes grid, list, falling list and score after the lightning |
| Bobble.SettleOutcome | puzzle_bobble.py:1029-1053 | computes the end of `attach_bubble`: the floating pass, its score, the game-over scan, and no shot |
| Bobble.MatchOutcome | puzzle_bobble.py:990-1027 | computes the match step: cleared cluster, combo, score and spawned power-up |
| Bobble.MatchAndClear | puzzle_bobble.py:990-1012 | finds the cluster and removes exactly its cells from grid and list |
| Bobble.RemoveAll | puzzle_bobble.py:1171-1179 | the removal loop empties exactly the cells of the listed targets from grid and list |
| Bobble.Unmarked | puzzle_bobble.py:1183-1193 | the list comprehension of unmarked bubbles after marking from the ceiling row |
| Bobble.MoveToFalling | puzzle_bobble.py:1195-1199 | the loop moves each floating bubble from grid and list to the end of the falling list |
| Bobble.SeedGrid | puzzle_bobble.py:613-632 | the nested loop of `initialize_grid` builds the grid and list of the row-by-row scan |
| Bobble.SeedRow | puzzle_bobble.py:616-632 | one row of that scan |
| Ranking.Efficiency | puzzle_bobble.py:1882 | the score over the shots, with at least one shot |
| Ranking.InsertLaw | puzzle_bobble.py:1896-1897 | inserting into a sorted list keeps it sorted, adds just the new entry and puts it after the entries of equal score |
| Ranking.SortLaw | puzzle_bobble.py:1896-1897 | the sort is descending by score, a permutation, and stable |
| Ranking.SortedFixed | puzzle_bobble.py:1896-1897 | an already sorted list is left as it is |
| Ranking.AddScoreLaw | puzzle_bobble.py:1880-1901 | the board after `add_score` is sorted, holds min(10, n+1) entries and no dropped entry beats a kept one; on a sorted board the new entry is inserted after those it does not beat |
| Ranking.Leaderboard.constructor | puzzle_bobble.py:1859-1862 | a new board is empty |
| Ranking.Leaderboard.AddScore | puzzle_bobble.py:1880-1901 | the board becomes the first ten of the stable descending sort of the old entries plus the new one |

## Left out

- Rendering is not modelled. This covers particles, explosions, score pop-ups and sounds, which change no game rule.
- The magnet's pull on the shot (puzzle_bobble.py:700-740) is not modelled. It needs square roots and trigonometry, so the magnet acts only through its timer.
- The aim angle and its sine and cosine are not modelled. `shoot_bubble` receives the velocity as the parameters `vx` and `vy`.
- Each power-up's own drift and collision test (`Powerup.update`, `check_collision`, puzzle_bobble.py:164-237) is not modelled. Each frame's outcome is the parameter `fates`.
- A model power-up never moves from where it spawned, the centre of the cell of the bubble that completed the cluster. So a caught bomb always goes off around that cell. In the game, `Powerup.update` pulls the power-up towards the shot, and `apply_bomb_powerup` is called with its position at the moment of the catch (puzzle_bobble.py:819-820).
- The shot's position and velocity and the time factor are exact real numbers, not floats. Float rounding of a centre that lies on a 40 px cell boundary is not modelled, so such a shot could snap into a neighbouring cell in the game.
- Rules.UpdateSpec, Bobble.Game.Update, Bobble.Game.Move, Laws.UpdateLaw: the frame they perform or state is the corrected frame `Motion.Advance`, in which a wall touch reverses vx. The code as written (`Motion.AdvanceAsWritten`) keeps the old vx, so there a shot slides up the wall (see Findings). A shot that touches a wall therefore can land in a different cell in this model than in the game.
- The motion of falling bubbles (`update_fall`) is not modelled, and neither is their removal off screen. The falling list only grows.
- `level`, `game_time`, `magnet_bubbles`, the `marked` and `falling` flags and the shine animation are not modelled. Marking is a traversal with a visited set.
- Bubble identity is left out. Bubbles are values, and the invariant `Consistent` makes each listed bubble the only one recording its cell, so `in` and `remove` by value agree.
- Power-up identity is left out. A caught or lost power-up is removed by value (`Board.Remove` drops the first equal element), whereas the game removes that very object. Model power-ups never move, so two equal ones can coexist; the list then keeps the same multiset but possibly a different order.
- The main loop is modelled only for its space-key branch (puzzle_bobble.py:1788-1790). The rest is event handling and drawing.
- `Leaderboard.load`, `save` and the date stamp of an entry are not modelled, because they are file I/O and the clock. A new board is empty.
- Ranking.Efficiency: it is an exact rational number, not a rounded float.
- Bobble.Game: the attributes of `Game` are grouped into four records (`field`, `launcher`, `tally`, `power`). Each is replaced as a whole when one of its attributes changes. In-place mutation of a single attribute is not distinguished from that.
- Connectivity.FindMatches: it returns the cluster in traversal order, not in the depth-first order of the recursion. Only the set of matches and its size are used by the game.
- Laws.ActivateLaw: the score is stated as at least 50 more, not exactly. Bomb and lightning add their own points, which BombLaw and LightningLaw state exactly.

## Findings

| source | as written | input that shows it | evidently intended | confidence | as-written member | corrected member |
|---|---|---|---|---|---|---|
| puzzle_bobble.py:665-674 with 549-561 | `update` saves the shot's velocity, moves the bubble with the scaled velocity and writes the saved velocity back. This also undoes the reversal of vx made by the wall bounce, in every frame and not only under time-slow. | a shot at x = 20 (the left stop) with vx = -3, vy = -10, factor 1.0: after each frame x is 20 and vx is still -3 | the time factor scales one frame's movement, and a bounce off a side wall reverses vx | not executed | Motion.AdvanceAsWritten, Motion.BounceLost | Motion.Advance, Motion.AdvanceBounces |

Other behaviour of the source is modelled as written:

- `get_neighbors` gives even rows the upper-left pair of diagonals, although even rows are the ones drawn shifted right.
- The colour trials of a rainbow bubble in `find_matches` all find the same cluster (Connectivity.RecolouredRainbowKeepsCluster).
- The stored power-up slot is only ever set when it already holds a power-up, so from a new game it stays empty (Laws.StoreNeverFilled).
