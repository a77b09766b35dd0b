/** The game-mode state machine (SourceCode/Game.cpp): the timer tick's
    `game_update` with its edge-triggered transitions, the gates on which
    parts of the world advance, the click test inside `game_draw`, and the
    event loop of `execute` that feeds the input buffers. Sound, images and
    the level's own code are inputs. */
module Game {
  import opened Geometry
  import opened Entities
  import DataCenter
  import Heroes
  import OperationCenter

  /** Game::STATE, with LEVEL, which the code uses but the enum omits. */
  datatype Mode = MainMenu | RoleSelect | About | Start | Level | Pause | End

  /** The level's internal state; its code is not part of this model. */
  datatype LevelState = LevelState(data: seq<int>)

  /** What the tick reads from collaborators whose code is not modelled:
      - `oc`: the entity behaviour the interaction engine needs;
      - `playerUpdate`: Player::update;
      - `levelUpdate`: Level::update, which may add monsters;
      - `loadLevel`: Level::load_level;
      - `remainMonsters`: Level::remain_monsters;
      - `imageExists`: whether the image store returns a bitmap for a path;
      - the rocket bitmap's and the start button bitmap's sizes. */
  datatype GameEnv = GameEnv(
    oc: Env,
    playerUpdate: Player -> Player,
    levelUpdate: (LevelState, seq<Monster>) -> (LevelState, seq<Monster>),
    loadLevel: (LevelState, int) -> LevelState,
    remainMonsters: LevelState -> int,
    imageExists: string -> bool,
    rocketWidth: int,
    rocketHeight: int,
    buttonWidth: int,
    buttonHeight: int)

  /** The game object together with the parts of the data store it reads
      and writes. `startPlayed` is the function-static `is_played` flag of
      the START case. */
  datatype Game = Game(
    mode: Mode,
    selectedRole: int,
    startPlayed: bool,
    keys: DataCenter.Keys,
    prevKeys: DataCenter.Keys,
    button1: bool,
    prevButton1: bool,
    mouseX: int,
    mouseY: int,
    hero: Heroes.Hero,
    player: Player,
    level: LevelState,
    world: World)

  /** The keys the core reads, and every other key code. */
  datatype Key = KeyW | KeyA | KeyS | KeyD | KeyP | KeySpace | OtherKey(code: int)

  /** The Allegro events `execute` distinguishes. A timer event carries
      whether the start sound is still playing when the START case asks. */
  datatype Event =
    | Timer(startSoundPlaying: bool)
    | DisplayClose
    | KeyDown(key: Key)
    | KeyUp(key: Key)
    | MouseAxes(x: int, y: int)
    | ButtonDown(button: int)
    | ButtonUp(button: int)
    | OtherEvent

  // ---------------------------------------------------------------------
  // Start-up
  // ---------------------------------------------------------------------

  /** The state `game_init` leaves: input buffers all released, the mouse
      at the origin, no role selected, the data center's freshly built hero
      initialised with that non-role, and the game in ROLE_SELECT. Role -1
      has no profile, so the hero keeps the header's defaults. */
  function Initial(heroShape: Shape, player: Player, level: LevelState, world: World,
                   env: GameEnv): (g: Game)
    ensures g.mode == RoleSelect && g.selectedRole == -1 && g.hero.roleId == -1
    ensures g.keys == g.prevKeys == DataCenter.NoKeys && !g.button1 && !g.prevButton1
    ensures g.hero.facing == Heroes.Left && g.hero.speed == 5.0 && g.hero.hp == 100.0
    ensures g.hero.attack == 10.0
  {
    Game(RoleSelect, -1, false, DataCenter.NoKeys, DataCenter.NoKeys, false, false, 0, 0,
         Heroes.Init(Heroes.Default(heroShape), -1, env.imageExists), player, level, world)
  }

  // ---------------------------------------------------------------------
  // Role selection
  // ---------------------------------------------------------------------

  /** The inclusive 100 x 100 button whose left edge is at `left`, on the
      row y in [300, 400]. */
  predicate InButton(x: int, y: int, left: int)
  {
    left <= x <= left + 100 && 300 <= y <= 400
  }

  /** The role whose button holds the mouse, tried in the source's order;
      0 when it is on none of them. */
  function RoleAt(x: int, y: int): (r: int)
    ensures r == 1 <==> InButton(x, y, 100)
    ensures r == 2 <==> InButton(x, y, 300)
    ensures r == 3 <==> InButton(x, y, 500)
    ensures r == 0 <==> !InButton(x, y, 100) && !InButton(x, y, 300) && !InButton(x, y, 500)
  {
    if InButton(x, y, 100) then 1
    else if InButton(x, y, 300) then 2
    else if InButton(x, y, 500) then 3
    else 0
  }

  /** The buttons are disjoint: no point lies on two of them. */
  lemma ButtonsDisjoint(x: int, y: int)
    ensures !(InButton(x, y, 100) && InButton(x, y, 300))
    ensures !(InButton(x, y, 300) && InButton(x, y, 500))
    ensures !(InButton(x, y, 100) && InButton(x, y, 500))
  {
  }

  // ---------------------------------------------------------------------
  // game_update
  // ---------------------------------------------------------------------

  /** The `switch (state)` of `game_update` for every mode but END: the
      transitions and the START case's one-time level load. */
  function Transition(g: Game, soundPlaying: bool, env: GameEnv): (t: Game)
    requires g.mode != End
    ensures t.keys == g.keys && t.prevKeys == g.prevKeys
    ensures t.button1 == g.button1 && t.prevButton1 == g.prevButton1
    ensures t.world == g.world && t.player == g.player
    ensures g.mode == RoleSelect ==>
              (t.mode == Start <==> DataCenter.RisingEdge(g.button1, g.prevButton1)
                                    && t.selectedRole != -1)
    ensures g.mode == Start ==> (t.mode == Level <==> !soundPlaying) && t.startPlayed
    ensures g.mode == Start ==> (t.mode == Level || t.mode == Start)
    ensures g.mode == Level ==>
              (t.mode == End <==> (env.remainMonsters(g.level) == 0 && |g.world.monsters| == 0)
                                  || g.player.hp == 0)
    ensures g.mode == Level && t.mode != End ==>
              (t.mode == Pause <==> DataCenter.RisingEdge(g.keys.p, g.prevKeys.p))
    ensures g.mode == Level ==> t.mode in {Level, Pause, End}
    ensures g.mode == Pause ==>
              (t.mode == Level <==> DataCenter.RisingEdge(g.keys.p, g.prevKeys.p))
    ensures g.mode == Pause ==> t.mode in {Level, Pause}
    ensures g.mode == MainMenu || g.mode == About ==> t == g
  {
    match g.mode
    case RoleSelect =>
      if DataCenter.RisingEdge(g.button1, g.prevButton1) then
        var hit := RoleAt(g.mouseX, g.mouseY);
        var role := if hit != 0 then hit else g.selectedRole;
        if role != -1 then
          g.(selectedRole := role, hero := Heroes.Init(g.hero, role, env.imageExists), mode := Start)
        else g.(selectedRole := role)
      else g
    case Start =>
      var loaded := if !g.startPlayed then g.(level := env.loadLevel(g.level, 1), startPlayed := true) else g;
      if !soundPlaying then loaded.(mode := Level) else loaded
    case Level =>
      var paused := if DataCenter.RisingEdge(g.keys.p, g.prevKeys.p) then g.(mode := Pause) else g;
      var emptied := if env.remainMonsters(g.level) == 0 && |g.world.monsters| == 0
                     then paused.(mode := End) else paused;
      if g.player.hp == 0 then emptied.(mode := End) else emptied
    case Pause =>
      if DataCenter.RisingEdge(g.keys.p, g.prevKeys.p) then g.(mode := Level) else g
    case MainMenu => g
    case About => g
  }

  /** The part of `game_update` after the switch, for a state that is not
      PAUSE: player, hero (and its rocket), and outside START the level and
      the interaction engine, in that order. */
  function Advance(t: Game, env: GameEnv): (u: Game)
    ensures u.mode == t.mode && u.selectedRole == t.selectedRole
    ensures u.keys == t.keys && u.prevKeys == t.prevKeys
    ensures u.button1 == t.button1 && u.prevButton1 == t.prevButton1
  {
    var player := env.playerUpdate(t.player);
    var (hero, rockets) := Heroes.Update(t.hero, t.keys, t.prevKeys, t.world.rockets,
                                          env.rocketWidth, env.rocketHeight);
    var moved := t.(player := player, hero := hero, world := t.world.(rockets := rockets));
    if moved.mode == Start then moved
    else
      var (level, monsters) := env.levelUpdate(moved.level, moved.world.monsters);
      var (world, p) := OperationCenter.Step(moved.world.(monsters := monsters), moved.player,
                                             moved.hero.shape, env.oc);
      moved.(level := level, world := world, player := p)
  }

  /** Game::game_update: the new state and whether the game keeps running. */
  function GameUpdate(g: Game, soundPlaying: bool, env: GameEnv): (r: (Game, bool))
    ensures g.mode == End <==> !r.1
    ensures !r.1 ==> r.0 == g
    ensures r.1 ==> r.0.keys == g.keys && r.0.prevKeys == g.keys
    ensures r.1 ==> r.0.button1 == g.button1 && r.0.prevButton1 == g.button1
    ensures r.1 ==> r.0.mode == Transition(g, soundPlaying, env).mode
  {
    if g.mode == End then (g, false)
    else
      var t := Transition(g, soundPlaying, env);
      var u := if t.mode != Pause then Advance(t, env) else t;
      (u.(prevKeys := u.keys, prevButton1 := u.button1), true)
  }

  /** The world, player, hero and level are untouched on a tick that ends in
      PAUSE; on one that ends in START the level and the entities other than
      the rockets are untouched, while the player and hero still update. On
      any other tick the player, then the hero (which may launch a rocket),
      then the level, then the interaction engine update, in that order, the
      engine seeing the hero where it just moved to. */
  lemma UpdateGates(g: Game, soundPlaying: bool, env: GameEnv)
    requires g.mode != End
    ensures var t := Transition(g, soundPlaying, env);
      var u := GameUpdate(g, soundPlaying, env).0;
      && (t.mode == Pause ==> u == t.(prevKeys := t.keys, prevButton1 := t.button1))
      && (t.mode == Start ==>
            && u.level == t.level
            && u.world.monsters == t.world.monsters && u.world.towers == t.world.towers
            && u.world.bullets == t.world.bullets
            && u.player == env.playerUpdate(t.player)
            && u.hero == Heroes.Move(t.hero, t.keys))
      && (t.mode != Pause && t.mode != Start ==>
            var (h, rs) := Heroes.Update(t.hero, t.keys, t.prevKeys, t.world.rockets,
                                         env.rocketWidth, env.rocketHeight);
            var ms := env.levelUpdate(t.level, t.world.monsters).1;
            && u.level == env.levelUpdate(t.level, t.world.monsters).0
            && u.hero == h
            && (u.world, u.player)
               == OperationCenter.Step(t.world.(rockets := rs, monsters := ms), env.playerUpdate(t.player),
                                       h.shape, env.oc))
  {
  }

  /** END is final: the tick returns false and changes nothing, not even the
      previous-input buffers. */
  lemma EndIsFinal(g: Game, soundPlaying: bool, env: GameEnv)
    requires g.mode == End
    ensures GameUpdate(g, soundPlaying, env) == (g, false)
  {
  }

  /** A click outside every button still moves on to START when a role was
      chosen before, and the hero is re-initialised with that older role. */
  lemma StaleRoleStillStarts(g: Game, soundPlaying: bool, env: GameEnv)
    requires g.mode == RoleSelect && g.button1 && !g.prevButton1
    requires RoleAt(g.mouseX, g.mouseY) == 0 && g.selectedRole != -1
    ensures var u := GameUpdate(g, soundPlaying, env).0;
      u.mode == Start && u.selectedRole == g.selectedRole && u.hero.roleId == g.selectedRole
  {
  }

  /** A click on a role's button selects that role and starts the game with
      the role's profile; holding the button on the next tick does nothing
      more, and no click leaves the selection as it was. */
  lemma ClickSelectsRole(g: Game, soundPlaying: bool, env: GameEnv)
    requires g.mode == RoleSelect
    ensures var u := GameUpdate(g, soundPlaying, env).0;
      && (DataCenter.RisingEdge(g.button1, g.prevButton1) && RoleAt(g.mouseX, g.mouseY) != 0 ==>
            && u.mode == Start && u.selectedRole == RoleAt(g.mouseX, g.mouseY)
            && u.hero.speed == Heroes.ProfileSpeed(u.selectedRole)
            && u.hero.hp == Heroes.ProfileHp(u.selectedRole))
      && (!DataCenter.RisingEdge(g.button1, g.prevButton1) ==>
            u.mode == RoleSelect && u.selectedRole == g.selectedRole)
  {
  }

  /** The level is loaded on the first START tick only, with level number 1. */
  lemma StartLoadsOnce(g: Game, soundPlaying: bool, env: GameEnv)
    requires g.mode == Start
    ensures var t := Transition(g, soundPlaying, env);
      && (!g.startPlayed ==> t.level == env.loadLevel(g.level, 1))
      && (g.startPlayed ==> t.level == g.level)
  {
  }

  /** A START tick whose sound is still playing stays in START, and the
      next START tick does not load the level again. */
  lemma StartWaitsForSound(g: Game, env: GameEnv)
    requires g.mode == Start && !g.startPlayed
    ensures var (u, _) := GameUpdate(g, true, env);
      && u.mode == Start && u.startPlayed && u.level == env.loadLevel(g.level, 1)
      && Transition(u, false, env).level == u.level
      && Transition(u, false, env).mode == Level
  {
  }

  /** The END test uses exact equality: a LEVEL tick whose player HP has
      dropped below 0 while monsters remain neither ends the game nor ever
      will while the HP stays negative. */
  lemma NegativeHpNeverEnds(g: Game, soundPlaying: bool, env: GameEnv)
    requires g.mode == Level && g.player.hp < 0 && |g.world.monsters| > 0
    ensures Transition(g, soundPlaying, env).mode != End
  {
  }

  /** Pressing P in LEVEL pauses, and the pause holds while P stays down:
      the previous-key buffer has caught up, so the next tick sees no edge. */
  lemma PauseNeedsFreshPress(g: Game, s1: bool, s2: bool, env: GameEnv)
    requires g.mode == Level && g.keys.p && !g.prevKeys.p
    requires g.player.hp != 0 && (env.remainMonsters(g.level) != 0 || |g.world.monsters| != 0)
    ensures var (u, _) := GameUpdate(g, s1, env);
      && u.mode == Pause
      && GameUpdate(u, s2, env).0.mode == Pause
  {
  }

  /** A fresh P in PAUSE goes back to LEVEL. */
  lemma PauseResumes(g: Game, soundPlaying: bool, env: GameEnv)
    requires g.mode == Pause && g.keys.p && !g.prevKeys.p
    ensures GameUpdate(g, soundPlaying, env).0.mode == Level
  {
  }

  // ---------------------------------------------------------------------
  // game_draw's click test
  // ---------------------------------------------------------------------

  /** The START case of `game_draw`: a fresh click on the centred start
      button switches to ROLE_SELECT. */
  function DrawClick(g: Game, env: GameEnv): (r: Game)
    ensures r.mode != g.mode ==>
              g.mode == Start && r.mode == RoleSelect && DataCenter.RisingEdge(g.button1, g.prevButton1)
    ensures r == g.(mode := r.mode)
  {
    if g.mode == Start && DataCenter.RisingEdge(g.button1, g.prevButton1) then
      var left := DataCenter.WindowWidth / 2 - DataCenter.Half(env.buttonWidth);
      var right := DataCenter.WindowWidth / 2 + DataCenter.Half(env.buttonWidth);
      var top := DataCenter.WindowHeight / 2 - DataCenter.Half(env.buttonHeight);
      var bottom := DataCenter.WindowHeight / 2 + DataCenter.Half(env.buttonHeight);
      if left <= g.mouseX <= right && top <= g.mouseY <= bottom then g.(mode := RoleSelect) else g
    else g
  }

  /** The START button at the window's centre: a fresh click there does
      switch, when the state is seen before any update has copied the
      button buffer. */
  lemma DrawClickOnButton(g: Game, env: GameEnv)
    requires g.mode == Start && g.button1 && !g.prevButton1
    requires g.mouseX == DataCenter.WindowWidth / 2 && g.mouseY == DataCenter.WindowHeight / 2
    requires env.buttonWidth >= 0 && env.buttonHeight >= 0
    ensures DrawClick(g, env).mode == RoleSelect
  {
  }

  // ---------------------------------------------------------------------
  // The event loop
  // ---------------------------------------------------------------------

  function SetKey(k: DataCenter.Keys, key: Key, down: bool): (r: DataCenter.Keys)
    ensures key.OtherKey? ==> r == k
  {
    match key
    case KeyW => k.(w := down)
    case KeyA => k.(a := down)
    case KeyS => k.(s := down)
    case KeyD => k.(d := down)
    case KeyP => k.(p := down)
    case KeySpace => k.(space := down)
    case OtherKey(_) => k
  }

  function Held(k: DataCenter.Keys, key: Key): bool
  {
    match key
    case KeyW => k.w
    case KeyA => k.a
    case KeyS => k.s
    case KeyD => k.d
    case KeyP => k.p
    case KeySpace => k.space
    case OtherKey(_) => false
  }

  /** One turn of `execute`'s loop: the new state and whether `run` is
      still true. A timer event runs `game_update`, then `game_draw`. */
  function Dispatch(g: Game, ev: Event, env: GameEnv): (r: (Game, bool))
    ensures ev.DisplayClose? ==> r == (g, false)
    ensures !ev.Timer? && !ev.DisplayClose? ==> r.1 && r.0.mode == g.mode && r.0.prevKeys == g.prevKeys
    ensures ev.KeyDown? && !ev.key.OtherKey? ==> Held(r.0.keys, ev.key)
    ensures ev.KeyUp? ==> !Held(r.0.keys, ev.key)
  {
    match ev
    case Timer(playing) =>
      var (u, running) := GameUpdate(g, playing, env);
      (DrawClick(u, env), running)
    case DisplayClose => (g, false)
    case KeyDown(key) => (g.(keys := SetKey(g.keys, key, true)), true)
    case KeyUp(key) => (g.(keys := SetKey(g.keys, key, false)), true)
    case MouseAxes(x, y) => (g.(mouseX := x, mouseY := y), true)
    case ButtonDown(b) => (if b == 1 then g.(button1 := true) else g, true)
    case ButtonUp(b) => (if b == 1 then g.(button1 := false) else g, true)
    case OtherEvent => (g, true)
  }

  /** Pressing and releasing a key that was up leaves the state as it was. */
  lemma KeyDownUpRoundTrip(g: Game, key: Key, env: GameEnv)
    requires !Held(g.keys, key)
    ensures Dispatch(Dispatch(g, KeyDown(key), env).0, KeyUp(key), env).0 == g
  {
  }

  /** The click test in `game_draw` can never fire: `game_update` has just
      copied the button into its previous-state buffer, and on a tick that
      ends the game the state is END. A timer event does exactly what
      `game_update` does. */
  lemma DrawClickIsDead(g: Game, soundPlaying: bool, env: GameEnv)
    ensures Dispatch(g, Timer(soundPlaying), env) == GameUpdate(g, soundPlaying, env)
  {
  }

  /** Game::execute over a finite event queue: events are handled in order
      until one leaves `run` false. The result is the final state and how
      many events were taken from the queue. */
  function Execute(g: Game, events: seq<Event>, env: GameEnv): (r: (Game, nat))
    ensures r.1 <= |events|
    decreases |events|
  {
    if events == [] then (g, 0)
    else
      var (g1, running) := Dispatch(g, events[0], env);
      if !running then (g1, 1)
      else
        var rest := Execute(g1, events[1..], env);
        (rest.0, rest.1 + 1)
  }

  /** The loop stops on the first event that clears `run`: closing the
      window ends it at once. */
  lemma {:induction false} ExecuteStopsAtClose(g: Game, events: seq<Event>, i: nat, env: GameEnv)
    requires i < |events| && events[i].DisplayClose?
    ensures Execute(g, events, env).1 <= i + 1
    decreases i
  {
    if i > 0 {
      var (g1, running) := Dispatch(g, events[0], env);
      if running {
        assert events[1..][i - 1] == events[i];
        ExecuteStopsAtClose(g1, events[1..], i - 1, env);
      }
    }
  }

  /** A timer tick in END clears `run` too: the loop takes that one event and
      stops with the state unchanged. */
  lemma ExecuteStopsInEnd(g: Game, events: seq<Event>, env: GameEnv)
    requires g.mode == End && events != [] && events[0].Timer?
    ensures Execute(g, events, env) == (g, 1)
  {
    assert Dispatch(g, events[0], env) == GameUpdate(g, events[0].startSoundPlaying, env);
  }

  // ---------------------------------------------------------------------
  // What every reachable state satisfies
  // ---------------------------------------------------------------------

  /** MAIN_MENU and ABOUT are never entered; the selected role is -1 or a
      real role, and once ROLE_SELECT is left it is a real role; the hero
      always carries the selected role's id, and outside ROLE_SELECT its
      speed and HP are that role's profile. */
  predicate Inv(g: Game)
  {
    && g.mode != MainMenu && g.mode != About
    && g.selectedRole in {-1, 1, 2, 3}
    && g.hero.roleId == g.selectedRole
    && (g.mode != RoleSelect ==>
          && Heroes.HasProfile(g.selectedRole)
          && g.hero.speed == Heroes.ProfileSpeed(g.selectedRole)
          && g.hero.hp == Heroes.ProfileHp(g.selectedRole))
  }

  lemma InitialInv(heroShape: Shape, player: Player, level: LevelState, world: World, env: GameEnv)
    ensures Inv(Initial(heroShape, player, level, world, env))
  {
  }

  lemma TransitionInv(g: Game, soundPlaying: bool, env: GameEnv)
    requires Inv(g) && g.mode != End
    ensures Inv(Transition(g, soundPlaying, env))
  {
    if g.mode == RoleSelect && DataCenter.RisingEdge(g.button1, g.prevButton1) {
      var hit := RoleAt(g.mouseX, g.mouseY);
      var role := if hit != 0 then hit else g.selectedRole;
      assert role in {-1, 1, 2, 3};
    }
  }

  lemma AdvanceInv(t: Game, env: GameEnv)
    requires Inv(t)
    ensures Inv(Advance(t, env))
  {
    var (hero, _) := Heroes.Update(t.hero, t.keys, t.prevKeys, t.world.rockets,
                                   env.rocketWidth, env.rocketHeight);
    assert hero.speed == t.hero.speed && hero.hp == t.hero.hp && hero.roleId == t.hero.roleId;
    assert Advance(t, env).hero == hero;
  }

  lemma GameUpdateInv(g: Game, soundPlaying: bool, env: GameEnv)
    requires Inv(g)
    ensures Inv(GameUpdate(g, soundPlaying, env).0)
  {
    if g.mode != End {
      var t := Transition(g, soundPlaying, env);
      TransitionInv(g, soundPlaying, env);
      if t.mode != Pause {
        AdvanceInv(t, env);
      }
    }
  }

  lemma DispatchInv(g: Game, ev: Event, env: GameEnv)
    requires Inv(g)
    ensures Inv(Dispatch(g, ev, env).0)
  {
    if ev.Timer? {
      GameUpdateInv(g, ev.startSoundPlaying, env);
    }
  }

  lemma {:induction false} ExecuteInv(g: Game, events: seq<Event>, env: GameEnv)
    requires Inv(g)
    ensures Inv(Execute(g, events, env).0)
    decreases |events|
  {
    if events != [] {
      DispatchInv(g, events[0], env);
      var (g1, running) := Dispatch(g, events[0], env);
      if running {
        ExecuteInv(g1, events[1..], env);
      }
    }
  }
}
