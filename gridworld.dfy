/**
  The grid-world environment of `src/envs/gridworld.rs`: the episode record
  `GridWorld` with its two constructors, and the action alphabet
  `GridWorldAction` with its decoder from raw indices.
*/
module GridWorldEnv {
  import opened Wrappers

  /** Rust's `usize` on a 64-bit target. */
  const UsizeBound: int := 0x1_0000_0000_0000_0000
  type Usize = x: int | 0 <= x < UsizeBound

  /** A `(usize, usize)` pair: a grid size (width, height) or a cell (x, y). */
  type Coord = (Usize, Usize)

  // ---------------------------------------------------------------------
  // The episode record
  // ---------------------------------------------------------------------

  datatype GridWorld = GridWorld(
    gridSize: Coord,
    agentPos: Coord,
    goalPos: Coord,
    steps: Usize,
    maxSteps: Usize,
    terminated: bool)

  /** `GridWorld::new`: stores its four arguments untouched (no bounds or
      size check) and starts an episode with no step taken, not terminated. */
  function New(gridSize: Coord, agentPos: Coord, goalPos: Coord, maxSteps: Usize): (w: GridWorld)
    ensures w.gridSize == gridSize && w.agentPos == agentPos && w.goalPos == goalPos
    ensures w.maxSteps == maxSteps
    ensures w.steps == 0 && !w.terminated
  {
    GridWorld(gridSize, agentPos, goalPos, 0, maxSteps, false)
  }

  /** A state no step has been taken in yet. */
  predicate IsFresh(w: GridWorld) {
    w.steps == 0 && !w.terminated
  }

  /** The states `new` can produce are exactly the fresh ones: every
      configuration is accepted, and only the two counters are fixed. */
  lemma NewRange(w: GridWorld)
    ensures (exists g: Coord, p: Coord, goal: Coord, m: Usize :: New(g, p, goal, m) == w) <==> IsFresh(w)
  {
    if IsFresh(w) {
      assert New(w.gridSize, w.agentPos, w.goalPos, w.maxSteps) == w;
    }
  }

  /** `new` loses nothing: distinct arguments give distinct states. */
  lemma NewInjective(g: Coord, p: Coord, goal: Coord, m: Usize, g': Coord, p': Coord, goal': Coord, m': Usize)
    requires New(g, p, goal, m) == New(g', p', goal', m')
    ensures g == g' && p == p' && goal == goal' && m == m'
  {
  }

  /** `GridWorld::default`: the 5x5 grid with the agent at (0, 0), the goal
      at (4, 4) and a budget of 100 steps, which is what `new` builds from
      those arguments. */
  function Default(): (w: GridWorld)
    ensures w == New((5, 5), (0, 0), (4, 4), 100)
  {
    GridWorld(
      gridSize := (5, 5),
      agentPos := (0, 0),
      goalPos := (4, 4),
      steps := 0,
      maxSteps := 100,
      terminated := false)
  }

  /** The default configuration is the one and only instance of `new` it
      amounts to. */
  lemma DefaultIsOnlyThisNew(g: Coord, p: Coord, goal: Coord, m: Usize)
    ensures New(g, p, goal, m) == Default() <==> g == (5, 5) && p == (0, 0) && goal == (4, 4) && m == 100
  {
  }

  // ---------------------------------------------------------------------
  // The action alphabet
  // ---------------------------------------------------------------------

  datatype Action = Up | Down | Left | Right

  /** The declared discriminant of a variant, `a as usize`. */
  function Index(a: Action): (v: Usize)
    ensures v < 4
  {
    match a
    case Up => 0
    case Down => 1
    case Left => 2
    case Right => 3
  }

  /** The declared discriminants, variant by variant. */
  lemma IndexTable()
    ensures Index(Up) == 0 && Index(Down) == 1
    ensures Index(Left) == 2 && Index(Right) == 3
  {
  }

  /** `TryFrom<usize>::try_from`: accepts exactly the four discriminants,
      each mapped to the variant that declares it, and answers `Err(())`
      for every other index. */
  function TryFrom(v: Usize): (r: Result<Action, ()>)
    ensures r.Ok? <==> v <= 3
    ensures r.Ok? ==> Index(r.value) == v
  {
    match v
    case 0 => Ok(Up)
    case 1 => Ok(Down)
    case 2 => Ok(Left)
    case 3 => Ok(Right)
    case _ => Err(())
  }

  /** The decoding table, index by index. */
  lemma TryFromTable()
    ensures TryFrom(0) == Ok(Up) && TryFrom(1) == Ok(Down)
    ensures TryFrom(2) == Ok(Left) && TryFrom(3) == Ok(Right)
  {
  }

  /** Every index from 4 up is rejected with the unit error. */
  lemma TryFromRejects(v: Usize)
    requires v >= 4
    ensures TryFrom(v) == Err(())
  {
  }

  /** Round trip: decoding a variant's discriminant gives the variant back. */
  lemma TryFromIndex(a: Action)
    ensures TryFrom(Index(a)) == Ok(a)
  {
  }

  /** Reverse round trip: an accepted index is the discriminant of what it
      decodes to. */
  lemma IndexTryFrom(v: Usize, a: Action)
    requires TryFrom(v) == Ok(a)
    ensures Index(a) == v
  {
  }

  /** Distinct accepted indices decode to distinct variants. */
  lemma TryFromInjective(v: Usize, w: Usize)
    requires TryFrom(v).Ok? && TryFrom(v) == TryFrom(w)
    ensures v == w
  {
  }

  /** Distinct variants have distinct discriminants. */
  lemma IndexInjective(a: Action, b: Action)
    requires Index(a) == Index(b)
    ensures a == b
  {
  }

  /** Every variant is produced by some index, so the decoder is a bijection
      between 0..=3 and the four actions. */
  lemma TryFromSurjective(a: Action)
    ensures exists v: Usize :: TryFrom(v) == Ok(a)
  {
    TryFromIndex(a);
  }
}
