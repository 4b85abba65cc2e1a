/** The practice-game page's level state and per-level scene look (src/pages/CourseGame.tsx). */
module CourseGame {

  const FirstLevel: int := 1
  const LastLevel: int := 10

  /** The values of `currentLevel` and `gameStarted`. */
  datatype Session = Session(level: int, started: bool)

  /** The three handlers that change the session. */
  datatype Event = StartGame | NextLevel | RestartGame

  /** The bounded-counter invariant of the page. */
  predicate LevelInRange(s: Session)
  {
    FirstLevel <= s.level <= LastLevel
  }

  /** The state the page mounts with. */
  function InitialSession(): Session
  {
    Session(FirstLevel, false)
  }

  /** One handler's effect: `handleStartGame`, `handleNextLevel` (which only
      raises a message at the last level) and the Restart button's `setCurrentLevel(1)`. */
  function Step(s: Session, e: Event): (r: Session)
    ensures LevelInRange(s) ==> LevelInRange(r)
    ensures r.started == (s.started || e == StartGame)
  {
    match e
    case StartGame => s.(started := true)
    case NextLevel => if s.level < LastLevel then s.(level := s.level + 1) else s
    case RestartGame => s.(level := FirstLevel)
  }

  /** A run of handlers, first to last. */
  function Run(s: Session, es: seq<Event>): Session
    decreases |es|
  {
    if |es| == 0 then s else Run(Step(s, es[0]), es[1..])
  }

  /** Which handler the page offers: the Start button only before the game has
      started; the canvas click and the Restart button only after. */
  predicate Offered(s: Session, e: Event)
  {
    if e == StartGame then !s.started else s.started
  }

  /** A run in which every handler was on screen when it fired. */
  predicate OfferedRun(s: Session, es: seq<Event>)
    decreases |es|
  {
    |es| == 0 || (Offered(s, es[0]) && OfferedRun(Step(s, es[0]), es[1..]))
  }

  /** What each handler does to the two fields, and that none leaves the level range. */
  lemma StepSpec(s: Session, e: Event)
    requires LevelInRange(s)
    ensures LevelInRange(Step(s, e))
    ensures e == StartGame ==> Step(s, e).started && Step(s, e).level == s.level
    ensures e == NextLevel && s.level < LastLevel ==> Step(s, e) == Session(s.level + 1, s.started)
    ensures e == NextLevel && s.level == LastLevel ==> Step(s, e) == s
    ensures e == RestartGame ==> Step(s, e) == Session(FirstLevel, s.started)
  {
  }

  /** Every sequence of start, next and restart keeps 1 <= level <= 10. */
  lemma {:induction false} RunKeepsLevelInRange(s: Session, es: seq<Event>)
    requires LevelInRange(s)
    ensures LevelInRange(Run(s, es))
    decreases |es|
  {
    if |es| > 0 {
      StepSpec(s, es[0]);
      RunKeepsLevelInRange(Step(s, es[0]), es[1..]);
    }
  }

  /** Along the handlers the page offers, starting from the mounted state, the
      level stays 1 until the game is started and, once started, the game stays started. */
  lemma {:induction false} OfferedRunInvariant(s: Session, es: seq<Event>)
    requires LevelInRange(s) && (!s.started ==> s.level == FirstLevel)
    requires OfferedRun(s, es)
    ensures LevelInRange(Run(s, es))
    ensures !Run(s, es).started ==> Run(s, es).level == FirstLevel
    ensures s.started ==> Run(s, es).started
    decreases |es|
  {
    if |es| > 0 {
      StepSpec(s, es[0]);
      OfferedRunInvariant(Step(s, es[0]), es[1..]);
    }
  }

  /** `n` clicks on the canvas in a row. */
  function Clicks(n: nat): (es: seq<Event>)
    ensures |es| == n && forall i :: 0 <= i < n ==> es[i] == NextLevel
  {
    if n == 0 then [] else [NextLevel] + Clicks(n - 1)
  }

  /** `n` clicks raise the level by `n`, saturating at the last level. */
  lemma {:induction false} ClicksSaturate(s: Session, n: nat)
    requires LevelInRange(s)
    ensures Run(s, Clicks(n)) ==
              Session(if s.level + n <= LastLevel then s.level + n else LastLevel, s.started)
    decreases n
  {
    if n > 0 {
      assert Clicks(n)[1..] == Clicks(n - 1);
      ClicksSaturate(Step(s, NextLevel), n - 1);
    }
  }

  /** From the start screen, starting and clicking nine times reaches the last level,
      and further clicks change nothing. */
  lemma NineClicksFinish(extra: nat)
    ensures Run(InitialSession(), [StartGame] + Clicks(9)) == Session(LastLevel, true)
    ensures Run(InitialSession(), [StartGame] + Clicks(9 + extra)) == Session(LastLevel, true)
  {
    assert ([StartGame] + Clicks(9))[1..] == Clicks(9);
    assert ([StartGame] + Clicks(9 + extra))[1..] == Clicks(9 + extra);
    ClicksSaturate(Session(FirstLevel, true), 9);
    ClicksSaturate(Session(FirstLevel, true), 9 + extra);
  }

  /** The page's mutable state: the two React state fields. */
  class GameSession {
    var currentLevel: int
    var gameStarted: bool

    ghost predicate Valid()
      reads this
    {
      LevelInRange(State())
    }

    function State(): Session
      reads this
    {
      Session(currentLevel, gameStarted)
    }

    constructor ()
      ensures Valid()
      ensures State() == InitialSession()
    {
      currentLevel := FirstLevel;
      gameStarted := false;
    }

    /** `handleStartGame`. */
    method HandleStartGame()
      requires Valid()
      modifies this
      ensures Valid()
      ensures State() == Step(old(State()), StartGame)
      ensures gameStarted && currentLevel == old(currentLevel)
    {
      gameStarted := true;
    }

    /** `handleNextLevel`: one more level while below the last; at the last
      level only the congratulation message, which is not modelled. */
    method HandleNextLevel()
      requires Valid()
      modifies this
      ensures Valid()
      ensures State() == Step(old(State()), NextLevel)
      ensures old(currentLevel) < LastLevel ==> currentLevel == old(currentLevel) + 1
      ensures old(currentLevel) == LastLevel ==> currentLevel == LastLevel
      ensures gameStarted == old(gameStarted)
    {
      if currentLevel < LastLevel {
        currentLevel := currentLevel + 1;
      }
    }

    /** The Restart button. */
    method HandleRestart()
      requires Valid()
      modifies this
      ensures Valid()
      ensures State() == Step(old(State()), RestartGame)
      ensures currentLevel == FirstLevel && gameStarted == old(gameStarted)
    {
      currentLevel := FirstLevel;
    }
  }

  datatype Shape = Box | Torus | Dodecahedron

  /** The mesh added for a level: its geometry, material colour and wireframe flag. */
  datatype Appearance = Appearance(shape: Shape, color: int, wireframe: bool)

  /** The shape choice of `addLevelObjects`. The box and torus materials leave
      `wireframe` at its default, false. */
  function LevelAppearance(level: int): (a: Appearance)
    ensures a.shape == Box <==> level <= 3
    ensures a.shape == Torus <==> 4 <= level <= 6
    ensures a.shape == Dodecahedron <==> level >= 7
    ensures a.wireframe <==> level == 10
    ensures 0 <= a.color <= 0xffffff
  {
    if level <= 3 then
      Appearance(Box, if level == 1 then 0x00ff00 else if level == 2 then 0x0000ff else 0xff0000, false)
    else if level <= 6 then
      Appearance(Torus, if level == 4 then 0xff00ff else if level == 5 then 0xffff00 else 0x00ffff, false)
    else
      Appearance(Dodecahedron,
        if level == 7 then 0x990000 else if level == 8 then 0x009900 else 0x000099,
        level == 10)
  }

  /** The colour of each of the ten levels, as a table. */
  const Palette: seq<int> := [
    0x00ff00, 0x0000ff, 0xff0000,
    0xff00ff, 0xffff00, 0x00ffff,
    0x990000, 0x009900, 0x000099, 0x000099
  ]

  /** Each level in range gets the colour the table gives it. */
  lemma LevelColours(level: int)
    requires FirstLevel <= level <= LastLevel
    ensures LevelAppearance(level).color == Palette[level - 1]
  {
  }

  /** The ten levels look pairwise different: levels 9 and 10 share shape and
      colour and differ only in the wireframe flag. */
  lemma LevelsDistinguishable(l1: int, l2: int)
    requires FirstLevel <= l1 < l2 <= LastLevel
    ensures LevelAppearance(l1) != LevelAppearance(l2)
    ensures l1 == 9 && l2 == 10 ==>
              LevelAppearance(l1).shape == LevelAppearance(l2).shape &&
              LevelAppearance(l1).color == LevelAppearance(l2).color
  {
  }

  /** The shape tiers never go back as the level rises. */
  function Tier(s: Shape): nat
  {
    match s
    case Box => 0
    case Torus => 1
    case Dodecahedron => 2
  }

  lemma ShapeMonotone(l1: int, l2: int)
    requires l1 <= l2
    ensures Tier(LevelAppearance(l1).shape) <= Tier(LevelAppearance(l2).shape)
  {
  }
}
