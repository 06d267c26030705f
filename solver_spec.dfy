/**
 * What the breadth-first solver computes: runs of swipes from a start
 * state, the length of a shortest winning run, and the invariant of the
 * search (queue ordered by distance, visited set, expanded set) together
 * with the steps that preserve it. The search facts hold for any step and
 * goal function; `GameStep` and `IsWin` are the game's.
 */
module Search {
  import opened Geometry
  import opened MoveResolver
  import opened WinEvaluator
  import opened GameStates

  /** The fixed part of a level the solver moves pieces on. */
  datatype Board = Board(width: int, height: int, blockers: set<Pos>)

  /** A transition function: the state after one swipe. */
  type StepFn = (GameState, Dir) -> GameState

  /** The state after one swipe on board `b`. */
  function Step(b: Board, s: GameState, d: Dir): GameState {
    GameState(Resolve(s.piecePositions, d.Delta(), b.width, b.height, b.blockers))
  }

  /** `Step` on board `b`, as a value. */
  function GameStep(b: Board): StepFn {
    (s, d) => Step(b, s, d)
  }

  /** The state after the swipes of `path`, in order. */
  function Run(step: StepFn, s: GameState, path: seq<Dir>): GameState
    decreases |path|
  {
    if path == [] then s else step(Run(step, s, path[..|path| - 1]), path[|path| - 1])
  }

  /** The solver's goal test on a type-ordered state. */
  predicate IsWin(s: GameState) {
    CheckWinConditionInState(s.piecePositions)
  }

  /** Some run of `n` swipes wins and no shorter run does. */
  ghost predicate ShortestIs(step: StepFn, win: GameState -> bool, init: GameState, n: int) {
    && n >= 0
    && (exists p: seq<Dir> :: |p| == n && win(Run(step, init, p)))
    && (forall p: seq<Dir> :: |p| < n ==> !win(Run(step, init, p)))
  }

  /** Some run of swipes wins. */
  ghost predicate Solvable(step: StepFn, win: GameState -> bool, init: GameState) {
    exists p: seq<Dir> :: win(Run(step, init, p))
  }

  lemma RunSnoc(step: StepFn, s: GameState, p: seq<Dir>, d: Dir)
    ensures Run(step, s, p + [d]) == step(Run(step, s, p), d)
  {
    assert (p + [d])[..|p|] == p;
  }

  /** A shortest solution length, when there is one, is unique and exists exactly for solvable states. */
  lemma ShortestUnique(step: StepFn, win: GameState -> bool, init: GameState, n: int, m: int)
    requires ShortestIs(step, win, init, n) && ShortestIs(step, win, init, m)
    ensures n == m && Solvable(step, win, init)
  {
    var p :| |p| == n && win(Run(step, init, p));
    var q :| |q| == m && win(Run(step, init, q));
  }

  /** A state that already wins needs zero swipes. */
  lemma WinningStartIsZero(step: StepFn, win: GameState -> bool, init: GameState)
    ensures win(init) <==> ShortestIs(step, win, init, 0)
  {
    if win(init) {
      assert Run(step, init, []) == init;
    }
    if ShortestIs(step, win, init, 0) {
      var p: seq<Dir> :| |p| == 0 && win(Run(step, init, p));
      assert p == [];
    }
  }

  /** Every run from a state of a step-closed set stays in the set. */
  lemma {:induction false} RunStaysIn(step: StepFn, init: GameState, E: set<GameState>, p: seq<Dir>)
    requires init in E
    requires forall t, d :: t in E ==> step(t, d) in E
    ensures Run(step, init, p) in E
    decreases |p|
  {
    if p != [] {
      RunStaysIn(step, init, E, p[..|p| - 1]);
    }
  }

  /** The states named in a queue. */
  function QStates(Q: seq<(GameState, int)>): set<GameState> {
    set k | 0 <= k < |Q| :: Q[k].0
  }

  lemma QStatesTail(Q: seq<(GameState, int)>)
    requires |Q| > 0
    ensures QStates(Q) == {Q[0].0} + QStates(Q[1..])
  {
    forall t | t in QStates(Q) ensures t in {Q[0].0} + QStates(Q[1..]) {
      var k :| 0 <= k < |Q| && Q[k].0 == t;
      if k > 0 {
        assert Q[1..][k - 1] == Q[k];
      }
    }
    forall t | t in QStates(Q[1..]) ensures t in QStates(Q) {
      var k :| 0 <= k < |Q[1..]| && Q[1..][k].0 == t;
      assert Q[k + 1] == Q[1..][k];
    }
  }

  lemma QStatesSnoc(Q: seq<(GameState, int)>, e: (GameState, int))
    ensures QStates(Q + [e]) == QStates(Q) + {e.0}
  {
    var Q' := Q + [e];
    assert Q'[|Q|] == e;
    forall u | u in QStates(Q') ensures u in QStates(Q) + {e.0} {
      var k :| 0 <= k < |Q'| && Q'[k].0 == u;
      if k < |Q| {
        assert Q'[k] == Q[k];
      }
    }
    forall u | u in QStates(Q) ensures u in QStates(Q') {
      var k :| 0 <= k < |Q| && Q[k].0 == u;
      assert Q'[k] == Q[k];
    }
  }

  /**
   * What expanding a state did to the queue and the visited set: the old
   * queue `q0` is kept as a prefix, each state queued after it is at
   * `depth` and was not visited in `visited0`, and the visited set grew by
   * exactly the newly queued states, one new state per queue entry.
   */
  predicate QueuedAfter(q0: seq<(GameState, int)>, visited0: set<GameState>,
                        Q: seq<(GameState, int)>, visited: set<GameState>, depth: int)
  {
    |q0| <= |Q| && Q[..|q0|] == q0
    && (forall k :: |q0| <= k < |Q| ==> Q[k].1 == depth && Q[k].0 !in visited0)
    && visited == visited0 + QStates(Q[|q0|..])
    && |visited| - |Q| == |visited0| - |q0|
  }

  /** Queuing one more unvisited state at `depth` and marking it visited keeps `QueuedAfter`. */
  lemma QueuedAfterSnoc(q0: seq<(GameState, int)>, visited0: set<GameState>,
                        Q: seq<(GameState, int)>, visited: set<GameState>, depth: int, t: GameState)
    requires QueuedAfter(q0, visited0, Q, visited, depth) && t !in visited
    ensures QueuedAfter(q0, visited0, Q + [(t, depth)], visited + {t}, depth)
  {
    var Q' := Q + [(t, depth)];
    assert Q'[..|q0|] == Q[..|q0|];
    assert Q'[|q0|..] == Q[|q0|..] + [(t, depth)];
    QStatesSnoc(Q[|q0|..], (t, depth));
    forall k | |q0| <= k < |Q'| ensures Q'[k].1 == depth && Q'[k].0 !in visited0 {
      if k < |Q| {
        assert Q'[k] == Q[k];
      }
    }
  }

  /** Queue distances are L or L + 1 and never decrease along the queue. */
  ghost predicate Banded(Q: seq<(GameState, int)>, L: nat) {
    && (forall k :: 0 <= k < |Q| ==> L <= Q[k].1 <= L + 1)
    && (forall x, y :: 0 <= x < y < |Q| ==> Q[x].1 <= Q[y].1)
  }

  /** Every queued state carries a run of exactly its distance that reaches it. */
  ghost predicate Witnessed(step: StepFn, init: GameState, Q: seq<(GameState, int)>, paths: map<GameState, seq<Dir>>) {
    forall k :: 0 <= k < |Q| ==>
      Q[k].0 in paths && |paths[Q[k].0]| == Q[k].1 && Run(step, init, paths[Q[k].0]) == Q[k].0
  }

  /** No run shorter than a queued state's distance reaches it. */
  ghost predicate Unreached(step: StepFn, init: GameState, Q: seq<(GameState, int)>) {
    forall k, p: seq<Dir> :: 0 <= k < |Q| && |p| < Q[k].1 ==> Run(step, init, p) != Q[k].0
  }

  /** Runs shorter than L end in expanded states, runs of length L in visited ones. */
  ghost predicate Covered(step: StepFn, init: GameState, E: set<GameState>, visited: set<GameState>, L: nat) {
    && (forall p: seq<Dir> :: |p| < L ==> Run(step, init, p) in E)
    && (forall p: seq<Dir> :: |p| == L ==> Run(step, init, p) in visited)
  }

  /** Successors of expanded states are visited; of `s`, only those of its first `di` directions so far. */
  ghost predicate Closed(step: StepFn, E: set<GameState>, visited: set<GameState>, s: GameState, di: nat) {
    forall t, d :: t in E && (t != s || DirIndex(d) < di) ==> step(t, d) in visited
  }

  /**
   * The search invariant at level `L`, while state `s` has its first `di`
   * successors generated (`di == 4` when no expansion is under way):
   * visited = expanded + queued, and the parts above; expanded states do
   * not win.
   */
  ghost predicate Inv(step: StepFn, win: GameState -> bool, init: GameState, Q: seq<(GameState, int)>,
                      visited: set<GameState>, E: set<GameState>, L: nat, paths: map<GameState, seq<Dir>>,
                      s: GameState, di: nat)
  {
    && Banded(Q, L)
    && visited == E + QStates(Q)
    && Witnessed(step, init, Q, paths)
    && Unreached(step, init, Q)
    && Covered(step, init, E, visited, L)
    && Closed(step, E, visited, s, di)
    && (forall t :: t in E ==> !win(t))
  }

  /** The search starts with the initial state queued at distance 0. */
  lemma InvInit(step: StepFn, win: GameState -> bool, init: GameState)
    ensures Inv(step, win, init, [(init, 0)], {init}, {}, 0, map[init := []], init, 4)
  {
    var Q := [(init, 0)];
    assert QStates(Q) == {init} by {
      assert Q[0].0 == init;
    }
    forall p: seq<Dir> | |p| == 0 ensures Run(step, init, p) in {init} {
      assert p == [];
    }
  }

  /** With the queue front at distance L + 1, the runs of length L all end in expanded states. */
  lemma LevelExpanded(step: StepFn, init: GameState, Q: seq<(GameState, int)>, visited: set<GameState>,
                      E: set<GameState>, L: nat)
    requires Banded(Q, L) && visited == E + QStates(Q)
    requires Unreached(step, init, Q) && Covered(step, init, E, visited, L)
    requires |Q| > 0 && Q[0].1 == L + 1
    ensures forall p: seq<Dir> :: |p| <= L ==> Run(step, init, p) in E
  {
    forall k | 0 <= k < |Q| ensures Q[k].1 == L + 1 {
      if k > 0 {
        assert Q[0].1 <= Q[k].1;
      }
    }
    forall p: seq<Dir> | |p| == L ensures Run(step, init, p) in E {
      var t := Run(step, init, p);
      assert t !in QStates(Q);
    }
  }

  /** A queue whose front is at distance L + 1 has every entry at distance L + 1. */
  lemma BandedAdvance(Q: seq<(GameState, int)>, L: nat)
    requires Banded(Q, L) && |Q| > 0 && Q[0].1 == L + 1
    ensures Banded(Q, L + 1)
  {
    forall k | 0 <= k < |Q| ensures L + 1 <= Q[k].1 {
      assert k == 0 || Q[0].1 <= Q[k].1;
    }
  }

  /** When runs of at most L swipes end in expanded states, runs of L + 1 swipes end in visited ones. */
  lemma CoveredAdvance(step: StepFn, init: GameState, E: set<GameState>, visited: set<GameState>, L: nat, s: GameState)
    requires forall p: seq<Dir> :: |p| <= L ==> Run(step, init, p) in E
    requires Closed(step, E, visited, s, 4)
    ensures Covered(step, init, E, visited, L + 1)
  {
    forall p: seq<Dir> | |p| == L + 1 ensures Run(step, init, p) in visited {
      var p' := p[..L];
      assert p == p' + [p[L]];
      RunSnoc(step, init, p', p[L]);
      assert Run(step, init, p') in E;
      assert DirIndex(p[L]) < 4;
    }
  }

  /** When the queue front is at distance L + 1, the invariant holds at level L + 1. */
  lemma InvAdvance(step: StepFn, win: GameState -> bool, init: GameState, Q: seq<(GameState, int)>,
                   visited: set<GameState>, E: set<GameState>, L: nat, paths: map<GameState, seq<Dir>>, s: GameState)
    requires Inv(step, win, init, Q, visited, E, L, paths, s, 4)
    requires |Q| > 0 && Q[0].1 == L + 1
    ensures Inv(step, win, init, Q, visited, E, L + 1, paths, s, 4)
  {
    LevelExpanded(step, init, Q, visited, E, L);
    BandedAdvance(Q, L);
    CoveredAdvance(step, init, E, visited, L, s);
  }

  /** The queue without its front keeps the queue parts of the invariant. */
  lemma TailKeeps(step: StepFn, init: GameState, Q: seq<(GameState, int)>, L: nat, paths: map<GameState, seq<Dir>>)
    requires |Q| > 0 && Banded(Q, L) && Witnessed(step, init, Q, paths) && Unreached(step, init, Q)
    ensures Banded(Q[1..], L) && Witnessed(step, init, Q[1..], paths) && Unreached(step, init, Q[1..])
  {
    assert forall k :: 0 <= k < |Q| - 1 ==> Q[1..][k] == Q[k + 1];
  }

  /** Dequeuing a non-winning front state at distance L marks it expanded, with no successor generated yet. */
  lemma InvDequeue(step: StepFn, win: GameState -> bool, init: GameState, Q: seq<(GameState, int)>,
                   visited: set<GameState>, E: set<GameState>, L: nat, paths: map<GameState, seq<Dir>>, s: GameState)
    requires Inv(step, win, init, Q, visited, E, L, paths, s, 4)
    requires |Q| > 0 && Q[0].1 == L && !win(Q[0].0)
    ensures Inv(step, win, init, Q[1..], visited, E + {Q[0].0}, L, paths, Q[0].0, 0)
  {
    QStatesTail(Q);
    TailKeeps(step, init, Q, L, paths);
    assert Closed(step, E + {Q[0].0}, visited, Q[0].0, 0);
  }

  /** Generating successor `di` of the expanded state `s` when it was visited already. */
  lemma InvSeen(step: StepFn, win: GameState -> bool, init: GameState, Q: seq<(GameState, int)>,
                visited: set<GameState>, E: set<GameState>, L: nat, paths: map<GameState, seq<Dir>>,
                s: GameState, di: nat)
    requires Inv(step, win, init, Q, visited, E, L, paths, s, di)
    requires di < 4 && step(s, SwipeDirections[di]) in visited
    ensures Inv(step, win, init, Q, visited, E, L, paths, s, di + 1)
  {
  }

  /**
   * One turn of the inner loop: the successor of `s` in direction `di` is
   * queued at L + 1 and marked visited when it is new, and skipped when it
   * was seen; either way the invariant moves on to the next direction and
   * the queue grows only by new states at L + 1.
   */
  lemma InvExpandDirection(step: StepFn, win: GameState -> bool, init: GameState,
                           q0: seq<(GameState, int)>, visited0: set<GameState>, Q: seq<(GameState, int)>,
                           visited: set<GameState>, E: set<GameState>, L: nat, paths: map<GameState, seq<Dir>>,
                           s: GameState, di: nat, sp: seq<Dir>)
    requires Inv(step, win, init, Q, visited, E, L, paths, s, di) && QueuedAfter(q0, visited0, Q, visited, L + 1)
    requires di < 4 && s in E && |sp| == L && Run(step, init, sp) == s
    ensures step(s, SwipeDirections[di]) !in visited ==>
      && Inv(step, win, init, Q + [(step(s, SwipeDirections[di]), L + 1)], visited + {step(s, SwipeDirections[di])},
             E, L, paths[step(s, SwipeDirections[di]) := sp + [SwipeDirections[di]]], s, di + 1)
      && QueuedAfter(q0, visited0, Q + [(step(s, SwipeDirections[di]), L + 1)], visited + {step(s, SwipeDirections[di])}, L + 1)
    ensures step(s, SwipeDirections[di]) in visited ==> Inv(step, win, init, Q, visited, E, L, paths, s, di + 1)
  {
    var t := step(s, SwipeDirections[di]);
    if t !in visited {
      InvEnqueue(step, win, init, Q, visited, E, L, paths, s, di, sp);
      QueuedAfterSnoc(q0, visited0, Q, visited, L + 1, t);
    } else {
      InvSeen(step, win, init, Q, visited, E, L, paths, s, di);
    }
  }

  /** Queuing a state no run of length L or less reaches keeps the queue parts of the invariant. */
  lemma SnocKeeps(step: StepFn, init: GameState, Q: seq<(GameState, int)>, visited: set<GameState>,
                  E: set<GameState>, L: nat, paths: map<GameState, seq<Dir>>, t: GameState, tp: seq<Dir>)
    requires Banded(Q, L) && Witnessed(step, init, Q, paths) && Unreached(step, init, Q)
    requires visited == E + QStates(Q) && Covered(step, init, E, visited, L)
    requires t !in visited && |tp| == L + 1 && Run(step, init, tp) == t
    ensures var Q' := Q + [(t, L + 1)];
      Banded(Q', L) && Witnessed(step, init, Q', paths[t := tp]) && Unreached(step, init, Q')
  {
    SnocBanded(Q, L, t);
    SnocWitnessed(step, init, Q, visited, E, paths, t, tp);
    SnocUnreached(step, init, Q, visited, E, L, t);
  }

  /** A state queued at distance L + 1 keeps the queue banded. */
  lemma SnocBanded(Q: seq<(GameState, int)>, L: nat, t: GameState)
    requires Banded(Q, L)
    ensures Banded(Q + [(t, L + 1)], L)
  {
    var Q' := Q + [(t, L + 1)];
    assert forall k :: 0 <= k < |Q| ==> Q'[k] == Q[k];
  }

  /** A new state queued with a run that reaches it keeps every queued state witnessed. */
  lemma SnocWitnessed(step: StepFn, init: GameState, Q: seq<(GameState, int)>, visited: set<GameState>,
                      E: set<GameState>, paths: map<GameState, seq<Dir>>, t: GameState, tp: seq<Dir>)
    requires Witnessed(step, init, Q, paths) && visited == E + QStates(Q)
    requires t !in visited && Run(step, init, tp) == t
    ensures Witnessed(step, init, Q + [(t, |tp|)], paths[t := tp])
  {
    var Q' := Q + [(t, |tp|)];
    forall k | 0 <= k < |Q'|
      ensures Q'[k].0 in paths[t := tp] && |paths[t := tp][Q'[k].0]| == Q'[k].1
      ensures Run(step, init, paths[t := tp][Q'[k].0]) == Q'[k].0
    {
      if k < |Q| {
        assert Q'[k] == Q[k] && Q[k].0 in QStates(Q);
      }
    }
  }

  /** A new state no run of length L or less reaches, queued at L + 1, keeps the queue unreached. */
  lemma SnocUnreached(step: StepFn, init: GameState, Q: seq<(GameState, int)>, visited: set<GameState>,
                      E: set<GameState>, L: nat, t: GameState)
    requires Unreached(step, init, Q) && visited == E + QStates(Q) && Covered(step, init, E, visited, L)
    requires t !in visited
    ensures Unreached(step, init, Q + [(t, L + 1)])
  {
    var Q' := Q + [(t, L + 1)];
    assert forall k :: 0 <= k < |Q| ==> Q'[k] == Q[k];
    forall p: seq<Dir> | |p| < L + 1 ensures Run(step, init, p) != t {
      assert Run(step, init, p) in visited;
    }
  }

  /** Generating a new successor of `s`, reached by `sp` in L swipes, queues it at distance L + 1. */
  lemma InvEnqueue(step: StepFn, win: GameState -> bool, init: GameState, Q: seq<(GameState, int)>,
                   visited: set<GameState>, E: set<GameState>, L: nat, paths: map<GameState, seq<Dir>>,
                   s: GameState, di: nat, sp: seq<Dir>)
    requires Inv(step, win, init, Q, visited, E, L, paths, s, di)
    requires di < 4 && s in E && |sp| == L && Run(step, init, sp) == s
    requires step(s, SwipeDirections[di]) !in visited
    ensures var t := step(s, SwipeDirections[di]);
      Inv(step, win, init, Q + [(t, L + 1)], visited + {t}, E, L, paths[t := sp + [SwipeDirections[di]]], s, di + 1)
  {
    var d := SwipeDirections[di];
    var t := step(s, d);
    RunSnoc(step, init, sp, d);
    SnocKeeps(step, init, Q, visited, E, L, paths, t, sp + [d]);
    QStatesSnoc(Q, (t, L + 1));
    assert Closed(step, E, visited + {t}, s, di + 1);
  }

  /** A winning front state at distance L is a shortest solution. */
  lemma InvWin(step: StepFn, win: GameState -> bool, init: GameState, Q: seq<(GameState, int)>,
               visited: set<GameState>, E: set<GameState>, L: nat, paths: map<GameState, seq<Dir>>,
               s: GameState, di: nat)
    requires Inv(step, win, init, Q, visited, E, L, paths, s, di)
    requires |Q| > 0 && Q[0].1 == L && win(Q[0].0)
    ensures ShortestIs(step, win, init, L)
  {
    var p := paths[Q[0].0];
    assert |p| == L && win(Run(step, init, p));
  }

  /** An empty queue means the whole reachable set was expanded without a win. */
  lemma InvExhausted(step: StepFn, win: GameState -> bool, init: GameState, visited: set<GameState>,
                     E: set<GameState>, L: nat, paths: map<GameState, seq<Dir>>, s: GameState)
    requires Inv(step, win, init, [], visited, E, L, paths, s, 4)
    ensures !Solvable(step, win, init)
  {
    assert QStates([]) == {};
    var empty: seq<Dir> := [];
    assert Run(step, init, empty) == init;
    assert init in E;
    forall p: seq<Dir> ensures !win(Run(step, init, p)) {
      RunStaysIn(step, init, E, p);
    }
  }

  /** Some run of swipes from `init` ends in `s`. */
  ghost predicate Reachable(step: StepFn, init: GameState, s: GameState) {
    exists p: seq<Dir> :: Run(step, init, p) == s
  }

  /** Every state of `E` is reachable from `init` and does not win. */
  ghost predicate ReachedNonWinning(step: StepFn, win: GameState -> bool, init: GameState, E: set<GameState>) {
    forall s :: s in E ==> !win(s) && Reachable(step, init, s)
  }

  /** A queue names at most as many states as it has entries. */
  lemma {:induction false} QStatesCard(Q: seq<(GameState, int)>)
    ensures |QStates(Q)| <= |Q|
    decreases |Q|
  {
    if |Q| == 0 {
      assert QStates(Q) == {};
    } else {
      QStatesTail(Q);
      QStatesCard(Q[1..]);
    }
  }

  /**
   * When the visited states number exactly the expanded ones plus the queue
   * entries, the queue front has not been expanded yet.
   */
  lemma FrontNotExpanded(E: set<GameState>, Q: seq<(GameState, int)>)
    requires |Q| > 0 && |E + QStates(Q)| == |E| + |Q|
    ensures Q[0].0 !in E
  {
    QStatesTail(Q);
    QStatesCard(Q[1..]);
    assert E + QStates(Q) == (E + {Q[0].0}) + QStates(Q[1..]);
  }

  /**
   * Dequeuing a non-winning front state that a run reaches keeps the
   * count (visited = expanded + queued, without overlap), adds one to the
   * expanded states and keeps them reachable and non-winning.
   */
  lemma ExploreFront(step: StepFn, win: GameState -> bool, init: GameState, Q: seq<(GameState, int)>,
                     visited: set<GameState>, E: set<GameState>, sp: seq<Dir>)
    requires visited == E + QStates(Q) && |visited| == |E| + |Q|
    requires |Q| > 0 && !win(Q[0].0) && Run(step, init, sp) == Q[0].0
    requires ReachedNonWinning(step, win, init, E)
    ensures |E + {Q[0].0}| == |E| + 1 && |visited| == |E + {Q[0].0}| + |Q[1..]|
    ensures ReachedNonWinning(step, win, init, E + {Q[0].0})
  {
    FrontNotExpanded(E, Q);
  }

  /** The explored states are no more than the reachable ones, counted by any set that holds them all. */
  lemma ExploredWithinReachable(step: StepFn, win: GameState -> bool, init: GameState, E: set<GameState>, R: set<GameState>)
    requires ReachedNonWinning(step, win, init, E)
    requires forall s :: Reachable(step, init, s) ==> s in R
    ensures |E| <= |R|
  {
    assert E <= R;
    assert R == E + (R - E);
  }
}
