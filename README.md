# GridWorld environment: construction and action decoding

A Dafny model of the grid-world environment in `src/envs/gridworld.rs`. It covers two things:

- the `GridWorld` episode record and its two constructors, `GridWorld::new` and `GridWorld::default`;
- the `GridWorldAction` alphabet and its decoder `TryFrom<usize>::try_from`.

The source file is pure. It is two struct literals and one `match`. So the model is a record datatype, an enum-like datatype, functions and lemmas. It has no classes and no loops.

Modelling choices:

- `usize` is `Usize`, the integers in `[0, 2^64)`. This assumes a 64-bit target.
- A `(usize, usize)` pair is `Coord`.
- `Result<GridWorldAction, ()>` is `Wrappers.Result<Action, ()>`, with Dafny's unit type as the error.
- `a as usize` is `Index(a)`, which returns the declared discriminant.

The struct in `src/envs/gridworld.rs:4-11` has six fields. It has no start position and no truncation flag. The file defines no `step` or `reset`, no clamping, no reward and no observation. `new` checks nothing. So the model has none of these, and `New` has no precondition.

## Model

| member | source | states |
|---|---|---|
| GridWorldEnv.New | src/envs/gridworld.rs:27-41 | stores grid size, agent position, goal position and step budget exactly as given; starts with zero steps and not terminated; accepts every argument |
| GridWorldEnv.NewRange | src/envs/gridworld.rs:27-41 | a state can come from `new` if and only if it has zero steps and is not terminated; every other field is free |
| GridWorldEnv.NewInjective | src/envs/gridworld.rs:33-40 | equal results of `new` come only from equal arguments, so no argument is dropped |
| GridWorldEnv.Default | src/envs/gridworld.rs:13-24 | the default environment equals `new((5,5), (0,0), (4,4), 100)` |
| GridWorldEnv.DefaultIsOnlyThisNew | src/envs/gridworld.rs:15-22 | `new(g, p, goal, m)` equals the default exactly when `g = (5,5)`, `p = (0,0)`, `goal = (4,4)` and `m = 100` |
| GridWorldEnv.Index | src/envs/gridworld.rs:44-49 | a variant's discriminant is below 4 |
| GridWorldEnv.IndexTable | src/envs/gridworld.rs:44-49 | the declared discriminants: Up is 0, Down is 1, Left is 2, Right is 3 |
| GridWorldEnv.TryFrom | src/envs/gridworld.rs:54-62 | total on `usize`; the result is `Ok` exactly when the index is at most 3, and then it is the variant whose discriminant is that index |
| GridWorldEnv.TryFromTable | src/envs/gridworld.rs:55-59 | 0 decodes to Up, 1 to Down, 2 to Left, 3 to Right |
| GridWorldEnv.TryFromRejects | src/envs/gridworld.rs:60 | every index from 4 up gives `Err(())` |
| GridWorldEnv.TryFromIndex | src/envs/gridworld.rs:44-59 | round trip: decoding a variant's discriminant gives back `Ok` of that variant |
| GridWorldEnv.IndexTryFrom | src/envs/gridworld.rs:44-59 | reverse round trip: if an index decodes to `Ok(a)`, then the index is `a`'s discriminant |
| GridWorldEnv.TryFromInjective | src/envs/gridworld.rs:55-59 | distinct accepted indices decode to distinct variants |
| GridWorldEnv.IndexInjective | src/envs/gridworld.rs:44-49 | distinct variants have distinct discriminants |
| GridWorldEnv.TryFromSurjective | src/envs/gridworld.rs:55-59 | every variant is produced by some index |

## Left out

- The `Environment` trait in `src/core/environment.rs:10-17` is left out. It only declares signatures (`reset`, `step`, `is_terminal`, the two space accessors, `name`) and has no bodies, and `GridWorld` does not implement it in the files modelled.
- `StepResult` in `src/core/environment.rs:3-8` is left out, because its observation and reward are `f32`.
- The `Send` bound on the trait is left out. It only marks a type as safe to move between threads.
- `Space` is left out. It comes from `crate::core::spaces`, which is not among the files modelled (`src/envs/gridworld.rs:1`, `src/core/environment.rs:1`).
- Stepping, resetting, clamping, rewards, truncation and the observation encoding are left out. They do not appear in the source modelled here.
- `Usize` has a fixed width of 64 bits. A target whose `usize` is 32 bits would bound the same fields at `2^32`. This changes nothing that is proved here.
