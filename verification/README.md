# Tower-defense simulation core in Dafny

This project models the simulation core of an Allegro tower-defense game:

- the per-tick interaction engine `OperationCenter::update`, which runs
  eight passes over the monsters, towers, tower bullets and the hero's
  rockets;
- the game-mode state machine `Game::game_update`, together with the event
  dispatch of `Game::execute` and the START-button click test in
  `Game::game_draw`;
- the role-based hero (`hero/Hero.cpp`): role profiles, asset paths,
  hitbox, movement, and the rocket it launches;
- the rocket (`hero/Rocket.cpp`): its construction and its flight;
- the older four-facing hero (`Hero.cpp`).

Everything is a pure function over immutable records. The vectors become
sequences. Each erase-in-loop pass of the engine is given twice:

- a functional definition of what the pass computes;
- a method that walks the sequence with the source's own index arithmetic
  (erase, step the index back, advance, `break`).

Each method is proved to compute exactly what its functional definition
computes. The lemmas then state the pass's properties against the
functional definition.

Code that is not part of this model reaches it as parameters:

- the shape overlap test;
- `Monster::update`, `Tower::update` and `Bullet::update`;
- `Player::update`, `Level::update`, `load_level` and `remain_monsters`;
- the image store's answer for a path, and bitmap sizes;
- whether the start sound is still playing.

These are the function- and value-typed fields of `Entities.Env` and
`Game.GameEnv`, and the flag carried by `Game.Timer`.

Files:

- `seqs.dfy`: order-preserving filter, map, erase and sums, with their lemmas.
- `geometry.dfy`: points, rectangles and circles, and the centre mutators.
- `decimal.dfy`: the `%d` rendering of integers and its inverse.
- `data_center.dfy`: the data store's constants and the input buffers.
- `entities.dfy`: monsters, towers, bullets, the player, the world, and the environment.
- `rocket.dfy`: the rocket.
- `hero.dfy`: the role-based hero.
- `legacy_hero.dfy`: the four-facing hero.
- `operation_center.dfy`: the interaction engine.
- `game.dfy`: the game-mode state machine and the event loop.

## Model

| member | source | states |
|---|---|---|
| Decimal.ParseIntToString | SourceCode/hero/Hero.cpp:45-49 | the decimal text `%d` prints for a role id reads back as that id |
| Decimal.Int32StringLength | SourceCode/hero/Hero.cpp:43-49 | any 32-bit int prints in at most 11 characters |
| Rockets.New | SourceCode/hero/Rocket.cpp:11-22 | the constructor keeps range and damage, centres the circle on the start point, and sets velocity (0, -200) whatever the direction and speed |
| Rockets.Update | SourceCode/hero/Rocket.cpp:24-37 | range 0 makes update a no-op; otherwise the centre moves by v/FPS, range becomes 0 iff the new y is <= 0, and is otherwise unchanged |
| Rockets.UpdateLaunched | SourceCode/hero/Rocket.cpp:24-31 | a launched rocket keeps its x and, while range is non-zero, rises by exactly 200/60 per update |
| Rockets.NewIsLaunched | SourceCode/hero/Rocket.cpp:19-21 | every constructed rocket has the launch velocity |
| Rockets.FlightIgnoresDirection | SourceCode/hero/Rocket.cpp:11-22 | two rockets built with different direction and speed arguments fly identically for any number of updates |
| Rockets.RangeLatches | SourceCode/hero/Rocket.cpp:24-36 | once range is 0 it stays 0 through every later update |
| Rockets.StaysAtZero | SourceCode/hero/Rocket.cpp:25 | a rocket with range 0 is unchanged by any number of updates |
| Rockets.IterateKeepsX | SourceCode/hero/Rocket.cpp:20-30 | a launched rocket's x-coordinate never changes |
| Rockets.IterateRises | SourceCode/hero/Rocket.cpp:27-36 | while range is non-zero after n updates, y has dropped by exactly n*200/60 and range is still the launch range |
| Rockets.ReachesTop | SourceCode/hero/Rocket.cpp:24-36 | a launched rocket at most n ticks below the top has range 0 after n+1 updates, so every flight ends |
| Heroes.Default | SourceCode/hero/Hero.h:28-32 | a hero as constructed faces LEFT with speed 5, HP 100, attack 10, role 1 and no image paths |
| Heroes.Init | SourceCode/hero/Hero.cpp:21-74 | the role id is always stored; roles 1, 2, 3 get speed/HP 5/100, 7/80, 3/150 and any other id keeps them; one path per facing; the hitbox is set only when the left image exists |
| Heroes.HitboxValue | SourceCode/hero/Hero.cpp:58-72 | the hitbox is (452,452)-(572,572): a fifth of the 600 field, centred on the 1024 window |
| Heroes.GifPathsOfRoles | SourceCode/hero/Hero.cpp:41-51 | the six asset paths of roles 1-3 |
| Heroes.GifPathFitsBuffer | SourceCode/hero/Hero.cpp:43-49 | for every 32-bit role id the printed path and its NUL fit the 50-byte buffer |
| Heroes.GifPathInjective | SourceCode/hero/Hero.cpp:45-50 | different role ids give different asset paths |
| Heroes.Move | SourceCode/hero/Hero.cpp:79-94 | movement keeps speed, HP, role, paths and the hitbox's size |
| Heroes.MovePriority | SourceCode/hero/Hero.cpp:79-94 | W beats A, S and D; A beats S and D; S beats D; exactly one axis moves by speed; facing LEFT after W/A and RIGHT after S/D |
| Heroes.NoKeyNoMove | SourceCode/hero/Hero.cpp:79-94 | with no movement key the hero, including its facing, is unchanged |
| Heroes.UpThenDown | SourceCode/hero/Hero.cpp:79-89 | a tick of W followed by a tick of S restores the hitbox exactly |
| Heroes.LaunchRocket | SourceCode/hero/Hero.cpp:120-126 | exactly one rocket is appended, at the hero's centre, with damage 8, range 5 and the launch velocity; existing rockets are untouched |
| Heroes.Update | SourceCode/hero/Hero.cpp:76-100 | the hero moves by the held keys, and a rocket is appended iff space has a rising edge; earlier rockets are kept; the new rocket starts at the centre the hero has after moving, with damage 8 and range 5, and is `launch_rocket`'s rocket |
| Heroes.HoldSpaceLaunchesOnce | SourceCode/hero/Hero.cpp:96-99 | holding space launches on the first tick only |
| LegacyHero.Default | SourceCode/Hero.h:28-30 | the defaults are facing FRONT, speed 5 and HP 100 |
| LegacyHero.Init | SourceCode/Hero.cpp:16-39 | one path per facing; hitbox min corner at half the window, halved with C++ truncation; height from the FRONT animation |
| LegacyHero.GifPaths | SourceCode/Hero.cpp:18-27 | the four dragonite asset paths |
| LegacyHero.HitboxWidth | SourceCode/Hero.cpp:33-38 | the hitbox width is off by height/2 - width/2 of the window, because max-x is measured from the height; it is exact only for a square window |
| LegacyHero.HitboxWithDefaultWindow | SourceCode/Hero.cpp:33-38 | with the 1024x1024 window the hitbox is (512,512)-(512+w,512+h) |
| LegacyHero.Update | SourceCode/Hero.cpp:41-60 | movement keeps speed, HP, paths and the hitbox's size |
| LegacyHero.UpdateMovesOneAxis | SourceCode/Hero.cpp:44-59 | W/A/S/D in priority order face BACK/LEFT/FRONT/RIGHT and move one axis by speed; with no key nothing changes |
| LegacyHero.LeftThenRight | SourceCode/Hero.cpp:48-59 | a tick of A then a tick of D restores the hitbox |
| OperationCenter.EraseUnless | SourceCode/data/OperationCenter.cpp:46-51 | the erase-and-step-back loop leaves exactly the order-preserving filter of the kept elements |
| OperationCenter.UpdateTowers | SourceCode/data/OperationCenter.cpp:35-39 | every tower is updated and the count is kept |
| OperationCenter.UpdateTowersAppend | SourceCode/data/OperationCenter.cpp:35-39 | towers are visited in order: the towers and the bullets they spawn split over any split of the tower sequence, earlier towers' bullets first |
| OperationCenter.UpdateTowersSingle | SourceCode/data/OperationCenter.cpp:35-39 | one tower contributes its own update and exactly the bullets it spawns |
| OperationCenter.UpdateTowerBullets | SourceCode/data/OperationCenter.cpp:41-52 | the bullets left are the updated bullets with positive fly distance, in order |
| OperationCenter.UpdateRockets | SourceCode/data/OperationCenter.cpp:131-141 | the rockets left are the updated rockets with positive range, in order |
| OperationCenter.BulletExpiry | SourceCode/data/OperationCenter.cpp:46-51 | a bullet survives iff its fly distance is > 0; the filter keeps relative order, and survivors and expired bullets together are the original multiset |
| OperationCenter.RocketExpiry | SourceCode/data/OperationCenter.cpp:133-140 | a rocket survives iff its range after update is > 0; a rocket latched to 0 is always removed |
| OperationCenter.BulletPass | SourceCode/data/OperationCenter.cpp:54-69 | the pass keeps the number of monsters and never adds bullets |
| OperationCenter.BulletPassKeepsMonsters | SourceCode/data/OperationCenter.cpp:58-68 | the pass changes nothing about the monsters but their HP |
| OperationCenter.AbsorbBullets | SourceCode/data/OperationCenter.cpp:59-67 | the inner loop takes the damage of every overlapping bullet off the monster and erases exactly those bullets |
| OperationCenter.MonsterBulletPass | SourceCode/data/OperationCenter.cpp:54-69 | the nested index loops compute the functional bullet pass |
| OperationCenter.BulletSurvivors | SourceCode/data/OperationCenter.cpp:58-68 | the bullets left are exactly those overlapping no monster, in order |
| OperationCenter.FirstHitUnique | SourceCode/data/OperationCenter.cpp:58-68 | a bullet is charged to at most one monster |
| OperationCenter.BulletDamageLands | SourceCode/data/OperationCenter.cpp:58-68 | each monster loses exactly the damage of the bullets whose first overlapping monster it is, possibly several |
| OperationCenter.BulletDamageConserved | SourceCode/data/OperationCenter.cpp:61-64 | the HP the monsters lose equals the damage of the bullets removed |
| OperationCenter.MonsterPlayerPass | SourceCode/data/OperationCenter.cpp:89-110 | the loop with erase, step-back and `break` computes the functional sweep's monsters, HP cost and coins |
| OperationCenter.SweepCharacterized | SourceCode/data/OperationCenter.cpp:93-109 | with k the first monster with HP <= 0: empty-path monsters before k are removed at 1 HP each; k is removed and pays its money; monsters after k are untouched |
| OperationCenter.SweepKept | SourceCode/data/OperationCenter.cpp:93-108 | the sweep keeps, in order, the monsters before the first kill that still have a path, then every monster after the kill |
| OperationCenter.SweepLost | SourceCode/data/OperationCenter.cpp:93-107 | the HP lost is the number of empty-path monsters before the first kill |
| OperationCenter.SweepBounty | SourceCode/data/OperationCenter.cpp:93-101 | the bounty is the first killed monster's money, or nothing when no monster is killed |
| OperationCenter.SweepRemovesAtMostOneKill | SourceCode/data/OperationCenter.cpp:95-102 | monsters removed = HP lost + (1 if a monster was killed), so at most one kill per sweep |
| OperationCenter.SweepStopsAtFirstKill | SourceCode/data/OperationCenter.cpp:95-108 | a second killed monster, and an exhausted-path monster behind a kill, wait for the next sweep |
| OperationCenter.SweepBreakVersusContinue | SourceCode/data/OperationCenter.cpp:95-101 | on two killed monsters ahead of a live one at its path's end, the sweep as written removes one and charges nothing, while the sweep with `continue` removes all three, pays both bounties and charges 1 HP |
| OperationCenter.MonsterPlayerPassContinue | SourceCode/data/OperationCenter.cpp:93-109 | the same loop with `continue` in place of `break` keeps exactly the live monsters with a path, charges 1 HP per live monster at its path's end and pays every killed monster's money |
| OperationCenter.SweepContinueCharacterized | SourceCode/data/OperationCenter.cpp:93-109 | the corrected sweep's kept monsters, HP cost and bounty in closed form, as filters and sums over the input |
| OperationCenter.SweepContinueCounts | SourceCode/data/OperationCenter.cpp:93-109 | every monster is kept, charged 1 HP, or killed, by the corrected sweep |
| OperationCenter.KillBeatsPathEnd | SourceCode/data/OperationCenter.cpp:95-108 | the HP <= 0 branch comes before the empty-path branch: a killed monster with an empty path pays and costs no HP |
| OperationCenter.HeroMonsterPass | SourceCode/data/OperationCenter.cpp:71-87 | the while loop removes exactly the monsters touching the hero, keeps the rest in order, costs 1 HP per removal and leaves coins alone |
| OperationCenter.HeroContactRemovesTouching | SourceCode/data/OperationCenter.cpp:74-86 | a monster is kept iff it does not touch the hero, whatever its HP; HP drops by the number removed; coins are unchanged |
| OperationCenter.RocketPass | SourceCode/data/OperationCenter.cpp:112-129 | the pass keeps the number of monsters and never adds rockets |
| OperationCenter.RocketPassKeepsMonsters | SourceCode/data/OperationCenter.cpp:116-128 | the pass changes nothing about the monsters but their HP, so it removes no monster |
| OperationCenter.HitByRocket | SourceCode/data/OperationCenter.cpp:117-127 | the inner loop with `break` charges the first overlapping rocket only and erases it |
| OperationCenter.MonsterRocketPass | SourceCode/data/OperationCenter.cpp:112-129 | the nested index loops compute the functional rocket pass |
| OperationCenter.RocketAtMostOnce | SourceCode/data/OperationCenter.cpp:117-126 | each monster's HP is unchanged or lower by the damage of one rocket |
| OperationCenter.RocketPassAccounting | SourceCode/data/OperationCenter.cpp:119-123 | rockets are only removed, at most one per monster, and the HP lost equals the damage of the rockets removed |
| OperationCenter.RocketPassMisses | SourceCode/data/OperationCenter.cpp:116-128 | with no overlaps the pass changes nothing |
| OperationCenter.Update | SourceCode/data/OperationCenter.cpp:11-27 | running the eight pass loops in the source's order (rocket update and expiry after the sweep and hero contact, before rockets hit monsters) gives the functional step |
| OperationCenter.ShootPasses | SourceCode/data/OperationCenter.cpp:12-19 | the monster, tower, bullet and bullet-against-monster loops give the functional first half of a step |
| OperationCenter.ResolvePasses | SourceCode/data/OperationCenter.cpp:20-26 | the sweep, hero-contact, rocket-update and rocket-hit loops, in that order, give the functional second half of a step |
| OperationCenter.ResolveAccounting | SourceCode/data/OperationCenter.cpp:20-26 | sweep, contact and rockets never add monsters; each removed monster costs 1 HP, except at most one killed monster, which pays its money instead |
| OperationCenter.StepAccounting | SourceCode/data/OperationCenter.cpp:11-27 | the same accounting for a whole call of update |
| OperationCenter.ResolveContinueAccounting | SourceCode/data/OperationCenter.cpp:20-26 | with the corrected sweep, removed monsters = HP lost + killed monsters, the coins grow by every killed monster's money, and no killed monster survives the sweep |
| OperationCenter.StepContinueAccounting | SourceCode/data/OperationCenter.cpp:11-27 | the same accounting for a whole call with the corrected sweep |
| OperationCenter.StepBounty | SourceCode/data/OperationCenter.cpp:11-27 | coins change by nothing or by the money of one of the monsters |
| OperationCenter.RocketKillsWaitForNextSweep | SourceCode/data/OperationCenter.cpp:20-26 | rockets run after the sweep, so the monsters at the end of update are, but for HP, the ones that survived hero contact |
| OperationCenter.EmptyWorldIdles | SourceCode/data/OperationCenter.cpp:11-27 | an empty field leaves the world and the player unchanged |
| OperationCenter.RocketKillScenario | SourceCode/data/OperationCenter.cpp:11-27 | 10 HP hit by a 6-damage bullet and a 6-damage rocket: both projectiles go, the monster stays at -2 HP, and it is removed with its bounty on the next call |
| Game.Initial | SourceCode/Game.cpp:166-177 | the game starts in ROLE_SELECT with no role, the freshly constructed hero initialised with role -1 and so keeping its defaults (LEFT, speed 5, HP 100, attack 10), and all input released |
| Game.RoleAt | SourceCode/Game.cpp:216-223 | role 1, 2 or 3 iff the mouse is inside that inclusive button box; 0 (no change) when outside all three |
| Game.ButtonsDisjoint | SourceCode/Game.cpp:217-222 | no point lies on two role buttons |
| Game.Transition | SourceCode/Game.cpp:195-268 | ROLE_SELECT goes to START iff there is a rising click and a role is set; START goes to LEVEL iff the sound has stopped; LEVEL ends iff (no monsters remain anywhere) or HP == 0, else pauses iff P has a rising edge; PAUSE resumes iff P has a rising edge; inputs, world and player are untouched |
| Game.Advance | SourceCode/Game.cpp:269-279 | the updates never change the mode, the selected role or the input buffers |
| Game.GameUpdate | SourceCode/Game.cpp:188-284 | false iff the state is END, and then nothing changes; otherwise previous keys and button become the current ones and the mode is the transition's |
| Game.UpdateGates | SourceCode/Game.cpp:269-279 | a tick ending in PAUSE updates nothing; one ending in START updates the player and hero but not the level or the monsters, towers and bullets; any other updates the player, the hero and its rocket, the level, and then runs the interaction engine on the level's monsters with the moved hero |
| Game.EndIsFinal | SourceCode/Game.cpp:265-266 | in END the tick returns false and leaves every buffer as it was |
| Game.StaleRoleStillStarts | SourceCode/Game.cpp:225-230 | a click outside every button still starts the game with any earlier role, and the hero carries that role |
| Game.ClickSelectsRole | SourceCode/Game.cpp:214-233 | a rising click on a button starts the game with that role's profile; without a rising click the game stays in ROLE_SELECT with the selected role unchanged |
| Game.StartLoadsOnce | SourceCode/Game.cpp:196-203 | level 1 is loaded on the first START tick and never again |
| Game.StartWaitsForSound | SourceCode/Game.cpp:196-209 | while the sound plays the game stays in START after loading once; the next tick with the sound stopped enters LEVEL without reloading |
| Game.NegativeHpNeverEnds | SourceCode/Game.cpp:249-256 | with monsters present, an HP below 0 never triggers END, because the test is HP == 0 |
| Game.PauseNeedsFreshPress | SourceCode/Game.cpp:244-282 | a rising P pauses; holding P on the next tick keeps the pause, because the previous-key buffer has caught up |
| Game.PauseResumes | SourceCode/Game.cpp:258-264 | a rising P in PAUSE returns to LEVEL |
| Game.DrawClick | SourceCode/Game.cpp:381-394 | only a rising click in START can change the mode, only to ROLE_SELECT, and nothing else changes |
| Game.DrawClickOnButton | SourceCode/Game.cpp:382-393 | a rising click at the window centre hits the start button |
| Game.Dispatch | SourceCode/Game.cpp:44-73 | closing the window stops the loop and changes nothing; input events keep it running, change no mode and set or clear the key |
| Game.KeyDownUpRoundTrip | SourceCode/Game.cpp:55-60 | pressing then releasing a released key restores the state |
| Game.DrawClickIsDead | SourceCode/Game.cpp:48-51 | the draw-time click test can never fire, because game_update has just copied the button buffer, so a timer event is exactly game_update |
| Game.Execute | SourceCode/Game.cpp:39-74 | the loop consumes at most the events it is given |
| Game.ExecuteStopsAtClose | SourceCode/Game.cpp:43-54 | the loop stops no later than the first window-close event |
| Game.ExecuteStopsInEnd | SourceCode/Game.cpp:43-51 | in END the first timer event stops the loop and leaves the state unchanged |
| Game.InitialInv | SourceCode/Game.cpp:170-177 | the start state satisfies the game invariant |
| Game.TransitionInv | SourceCode/Game.cpp:214-233 | transitions keep the invariant: the hero's role is the selected role; outside ROLE_SELECT the role is 1-3 with its profile; MAIN_MENU and ABOUT are never entered |
| Game.AdvanceInv | SourceCode/Game.cpp:270-279 | the updates keep the invariant |
| Game.GameUpdateInv | SourceCode/Game.cpp:188-284 | a tick keeps the invariant |
| Game.DispatchInv | SourceCode/Game.cpp:44-73 | every event keeps the invariant |
| Game.ExecuteInv | SourceCode/Game.cpp:39-74 | every state the loop reaches satisfies the invariant |

## Left out

- Allegro set-up and teardown of the display, timer and event queue, the icon, and the asset lookups in `game_init`: these are foreign library calls. The state `game_init` leaves is `Game.Initial`.
- All drawing in `game_draw`, `Hero::draw`, `Rocket::draw` and the engine's draw passes, because they produce pixels only. The START-button click test in `game_draw` is kept (`Game.DrawClick`).
- Audio:
  - the sound centre's `play`, `toggle_playing` and `update`;
  - the function-static `BGM_played` flag, which only governs music.
  - Whether the start sound is still playing is an input of the timer event.
- `UI::update`, whose code is not part of this model.
- The classes whose code is not part of this model: Monster, Tower, Bullet, Player, Level, and the shape classes. Their behaviour enters as the parameters listed above.
  - The shape centre mutators are modelled as size-keeping translations.
  - The rocket's bitmap size and the start button's size are inputs.
- Heap ownership, including the `delete`s and the leaked erased bullets and killed monsters: the collections are value sequences.
- Floating-point rounding: positions are reals.
- `size_t` wrap-around: the index that steps back from 0 wraps to the maximum value, and the next `++` brings it back to 0. The model uses an integer index that goes to -1 and back to 0, which has the same effect.
- Debug logging and `std::cout` output, which do not affect state.
- Keyboard and mouse slots other than W, A, S, D, P, space and button 1: no modelled code reads them.
- The initial value of `selected_role`: its declaration is not part of this model. It is taken to be -1, which the `!= -1` test presupposes.
- LEVEL is modelled as a mode although `Game.h` does not declare it.
- MAIN_MENU and ABOUT are declared, but `game_update` has no case for them and no transition enters them.
- `SourceCode/Hero.h` declares `init(int)`, but `SourceCode/Hero.cpp` defines `init()`. The model follows the definition.
- Game.Execute: the event queue is finite and given, whereas the source blocks waiting for more events.
- OperationCenter.Shoot, OperationCenter.Resolve and OperationCenter.Step are compositions with only shape facts in their own contracts. The properties are stated by `OperationCenter.Update` and the `Step…`/`Resolve…` lemmas.

## Comments versus code

Where the source's own comments describe more than its code does, the model follows the code:

- `OperationCenter.cpp:18` says the bullet pass deletes a monster if necessary, but the pass at lines 54-69 only lowers HP. Killed monsters leave in the sweep of lines 89-110, at most one per call. Rockets damage monsters at lines 112-129, after that sweep, so a monster a rocket kills leaves one call later (`OperationCenter.RocketKillsWaitForNextSweep`).
- `Rocket.h:25` calls `range` the rocket's maximum flight distance, but `Rocket.cpp:24-37` never decreases it. It stays as launched until the rocket reaches the top edge, and then becomes 0.
- `OperationCenter.cpp:100` says the sweep goes on to the next monster after a kill, but line 101 is a `break`. This one is listed under Findings.

## Findings

| source | as written | input that shows it | evidently intended | confidence | as-written member | corrected member |
|---|---|---|---|---|---|---|
| SourceCode/data/OperationCenter.cpp:95-101 | after removing a killed monster the sweep `break`s, ending the whole pass | monsters [killed, killed, live with an empty path]: one is removed, the second kill and the path's end wait for the next call | `continue`, as the comment at line 100 says: every killed monster is removed and pays, and every live monster at its path's end costs 1 HP | medium, not executed | OperationCenter.SweepStopsAtFirstKill, OperationCenter.SweepBreakVersusContinue | OperationCenter.MonsterPlayerPassContinue, OperationCenter.SweepContinueCharacterized, OperationCenter.ResolveContinueAccounting |

The corrected sweep is `OperationCenter.SweepContinue`, and the call of `update` built on it is `OperationCenter.StepContinue`. `OperationCenter.Step`, `OperationCenter.Update` and the game state machine keep the sweep as written, because they model what the program does.
