/** The transition table of the game (create_gamegraph) and what it promises:
    closure, classification by bank safety, tag availability, crossing
    arithmetic with its named exceptions, and an 11-move shortest solution. */
module GameGraph {
  import opened Puzzle

  /** A table entry: the moves out of a state, or a terminal marker. */
  datatype Entry = Transitions(moves: map<Tag, State>) | Failure | Success

  type Graph = map<State, Entry>

  /** The table exactly as the game writes it out. */
  function AsWritten(): Graph {
    map[
      State(3, 3, 1) := Transitions(map[M := State(2, 3, 0), C := State(3, 2, 0), TwoM := State(1, 3, 0),
                                        TwoC := State(3, 1, 0), MC := State(2, 2, 0)]),
      State(3, 2, 0) := Transitions(map[C := State(3, 3, 1)]),
      State(3, 1, 0) := Transitions(map[C := State(3, 2, 1), TwoC := State(3, 3, 1)]),
      State(2, 2, 0) := Transitions(map[M := State(3, 2, 1), C := State(2, 3, 1), MC := State(3, 3, 1)]),
      State(3, 2, 1) := Transitions(map[M := State(2, 2, 0), C := State(3, 1, 0),
                                        TwoM := State(1, 2, 0), TwoC := State(3, 0, 0), MC := State(2, 1, 0)]),
      State(3, 0, 0) := Transitions(map[C := State(3, 1, 1), TwoC := State(3, 2, 1)]),
      State(3, 1, 1) := Transitions(map[M := State(2, 1, 0), C := State(3, 0, 0),
                                        TwoM := State(1, 1, 0), MC := State(2, 0, 0)]),
      State(2, 2, 1) := Transitions(map[M := State(1, 2, 0), C := State(2, 2, 0),
                                        TwoM := State(0, 2, 0), TwoC := State(2, 0, 0), MC := State(1, 1, 0)]),
      State(1, 1, 0) := Transitions(map[M := State(2, 1, 1), C := State(1, 2, 1),
                                        TwoM := State(3, 1, 0), TwoC := State(1, 3, 0), MC := State(2, 2, 1)]),
      State(1, 1, 1) := Transitions(map[M := State(0, 1, 0), C := State(1, 0, 0), MC := State(0, 0, 0)]),
      State(0, 3, 1) := Transitions(map[C := State(0, 2, 0), TwoC := State(0, 1, 0)]),
      State(0, 2, 0) := Transitions(map[M := State(1, 2, 1), C := State(0, 3, 1),
                                        TwoM := State(2, 2, 1), MC := State(1, 3, 1)]),
      State(0, 1, 0) := Transitions(map[M := State(1, 1, 1), C := State(0, 2, 1),
                                        TwoM := State(2, 1, 1), TwoC := State(0, 3, 1), MC := State(1, 2, 1)]),
      State(0, 2, 1) := Transitions(map[C := State(0, 1, 0), TwoC := State(0, 0, 0)]),
      State(2, 3, 0) := Failure,
      State(2, 3, 1) := Failure,
      State(1, 3, 0) := Failure,
      State(1, 3, 1) := Failure,
      State(1, 2, 0) := Failure,
      State(1, 2, 1) := Failure,
      State(2, 1, 0) := Failure,
      State(2, 1, 1) := Failure,
      State(1, 0, 0) := Failure,
      State(2, 0, 0) := Failure,
      State(2, 0, 1) := Failure,
      State(0, 0, 0) := Success
    ]
  }

  /** The three entries of the written table that do not follow the crossing
      arithmetic: "c" from (2,2,1), and "2m" and "2c" from (1,1,0). */
  predicate Anomalous(s: State, t: Tag) {
    (s == State(2, 2, 1) && t == C) || (s == State(1, 1, 0) && (t == TwoM || t == TwoC))
  }

  /** The table with those three entries replaced by what the arithmetic gives. */
  function Fixed(): Graph {
    AsWritten()[
      State(2, 2, 1) := Transitions(map[M := State(1, 2, 0), C := State(2, 1, 0),
                                        TwoM := State(0, 2, 0), TwoC := State(2, 0, 0), MC := State(1, 1, 0)])][
      State(1, 1, 0) := Transitions(map[M := State(2, 1, 1), C := State(1, 2, 1),
                                        TwoM := State(3, 1, 1), TwoC := State(1, 3, 1), MC := State(2, 2, 1)])]
  }

  /** The table can be consulted at `s` with composition `t`. */
  predicate Offers(g: Graph, s: State, t: Tag) {
    s in g && g[s].Transitions? && t in g[s].moves
  }

  /** Every state the table moves to is itself a key, so looking it up never misses. */
  ghost predicate Closed(g: Graph) {
    forall s, t :: Offers(g, s, t) ==> g[s].moves[t] in g
  }

  /** Terminal markers agree with the bank-safety rule; only the goal is a success. */
  ghost predicate Classified(g: Graph) {
    forall s :: s in g ==>
      InRange(s) &&
      (g[s] == Failure <==> !Safe(s)) &&
      (g[s] == Success <==> s == Goal)
  }

  /** A composition is offered exactly when it can board at the boat's bank. */
  ghost predicate TagsAvailable(g: Graph) {
    forall s, t :: s in g && g[s].Transitions? ==> (t in g[s].moves <==> Available(s, t))
  }

  /** Follow a sequence of compositions from `s`; None once a move is not offered. */
  function Run(g: Graph, s: State, path: seq<Tag>): Option<State>
    decreases |path|
  {
    if path == [] then Some(s)
    else if Offers(g, s, path[0]) then Run(g, g[s].moves[path[0]], path[1..])
    else None
  }

  /** Lower bound on the crossings still needed to reach the goal: for the states
      listed, the distance to the goal in the written table. Every other state gets 12: those that
      cannot reach the goal, and (3,2,0), whose distance happens to be 12. */
  function Remaining(s: State): nat {
    match s
    case State(0, 0, 0) => 0
    case State(1, 1, 1) => 1
    case State(0, 2, 1) => 1
    case State(0, 1, 0) => 2
    case State(0, 3, 1) => 3
    case State(0, 2, 0) => 4
    case State(2, 2, 1) => 5
    case State(1, 1, 0) => 6
    case State(3, 1, 1) => 7
    case State(3, 0, 0) => 8
    case State(3, 2, 1) => 9
    case State(3, 1, 0) => 10
    case State(2, 2, 0) => 10
    case State(3, 3, 1) => 11
    case _ => 12
  }

  /** No single move gets more than one step closer to the goal. */
  ghost predicate Descends(g: Graph) {
    forall s, t :: Offers(g, s, t) ==> Remaining(s) <= Remaining(g[s].moves[t]) + 1
  }

  /** What the game loop relies on of any table it is given (a non-terminal
      start, closure and classification), and the descent bound used to prove
      the 11-move minimum. */
  ghost predicate IsPuzzleGraph(g: Graph) {
    Start in g && g[Start].Transitions? && Closed(g) && Classified(g) && Descends(g)
  }

  /** The known 11-move solution. */
  const Solution: seq<Tag> := [TwoC, C, TwoC, C, TwoM, MC, TwoM, C, TwoC, C, TwoC]

  // ---------------------------------------------------------------------------
  // The written table

  lemma AsWrittenClosed()
    ensures Closed(AsWritten())
  {
    var g := AsWritten();
    forall s, t | Offers(g, s, t) ensures g[s].moves[t] in g {
    }
  }

  lemma AsWrittenClassified()
    ensures Classified(AsWritten())
  {
    var g := AsWritten();
    forall s | s in g
      ensures InRange(s) && (g[s] == Failure <==> !Safe(s)) && (g[s] == Success <==> s == Goal)
    {
      AsWrittenKeysInRange(s);
      AsWrittenFailures(s);
      AsWrittenSuccess(s);
    }
  }

  lemma AsWrittenKeysInRange(s: State)
    requires s in AsWritten()
    ensures InRange(s)
  {
  }

  lemma AsWrittenFailures(s: State)
    requires s in AsWritten()
    ensures AsWritten()[s] == Failure <==> !Safe(s)
  {
  }

  lemma AsWrittenSuccess(s: State)
    requires s in AsWritten()
    ensures AsWritten()[s] == Success <==> s == Goal
  {
  }

  lemma AsWrittenTagsAvailable()
    ensures TagsAvailable(AsWritten())
  {
    var g := AsWritten();
    forall s, t | s in g && g[s].Transitions? ensures t in g[s].moves <==> Available(s, t) {
      AsWrittenTagsAt(s, t);
    }
  }

  lemma AsWrittenTagsAt(s: State, t: Tag)
    requires s in AsWritten() && AsWritten()[s].Transitions?
    ensures t in AsWritten()[s].moves <==> Available(s, t)
  {
    match t
    case M => AsWrittenTagsAtM(s);
    case C => AsWrittenTagsAtC(s);
    case TwoM => AsWrittenTagsAtTwoM(s);
    case TwoC => AsWrittenTagsAtTwoC(s);
    case MC => AsWrittenTagsAtMC(s);
  }

  lemma AsWrittenTagsAtM(s: State)
    requires s in AsWritten() && AsWritten()[s].Transitions?
    ensures M in AsWritten()[s].moves <==> Available(s, M)
  {
  }

  lemma AsWrittenTagsAtC(s: State)
    requires s in AsWritten() && AsWritten()[s].Transitions?
    ensures C in AsWritten()[s].moves <==> Available(s, C)
  {
  }

  lemma AsWrittenTagsAtTwoM(s: State)
    requires s in AsWritten() && AsWritten()[s].Transitions?
    ensures TwoM in AsWritten()[s].moves <==> Available(s, TwoM)
  {
  }

  lemma AsWrittenTagsAtTwoC(s: State)
    requires s in AsWritten() && AsWritten()[s].Transitions?
    ensures TwoC in AsWritten()[s].moves <==> Available(s, TwoC)
  {
  }

  lemma AsWrittenTagsAtMC(s: State)
    requires s in AsWritten() && AsWritten()[s].Transitions?
    ensures MC in AsWritten()[s].moves <==> Available(s, MC)
  {
  }

  /** Each move follows the crossing arithmetic, apart from the three anomalies. */
  lemma AsWrittenArithmetic(s: State, t: Tag)
    requires Offers(AsWritten(), s, t)
    ensures !Anomalous(s, t) ==> AsWritten()[s].moves[t] == Next(s, t)
  {
    if !Anomalous(s, t) {
      match t
      case M => AsWrittenArithmeticM(s);
      case C => AsWrittenArithmeticC(s);
      case TwoM => AsWrittenArithmeticTwoM(s);
      case TwoC => AsWrittenArithmeticTwoC(s);
      case MC => AsWrittenArithmeticMC(s);
    }
  }

  lemma AsWrittenArithmeticM(s: State)
    requires Offers(AsWritten(), s, M) && !Anomalous(s, M)
    ensures AsWritten()[s].moves[M] == Next(s, M)
  {
  }

  lemma AsWrittenArithmeticC(s: State)
    requires Offers(AsWritten(), s, C) && !Anomalous(s, C)
    ensures AsWritten()[s].moves[C] == Next(s, C)
  {
  }

  lemma AsWrittenArithmeticTwoM(s: State)
    requires Offers(AsWritten(), s, TwoM) && !Anomalous(s, TwoM)
    ensures AsWritten()[s].moves[TwoM] == Next(s, TwoM)
  {
  }

  lemma AsWrittenArithmeticTwoC(s: State)
    requires Offers(AsWritten(), s, TwoC) && !Anomalous(s, TwoC)
    ensures AsWritten()[s].moves[TwoC] == Next(s, TwoC)
  {
  }

  lemma AsWrittenArithmeticMC(s: State)
    requires Offers(AsWritten(), s, MC) && !Anomalous(s, MC)
    ensures AsWritten()[s].moves[MC] == Next(s, MC)
  {
  }


  /** The anomalies are real: each differs from the arithmetic, two of them do
      not move the boat, and "c" from (2,2,1) hides a lost state. */
  lemma AsWrittenAnomalies()
    ensures AsWritten()[State(2, 2, 1)].moves[C] == State(2, 2, 0)
    ensures AsWritten()[State(1, 1, 0)].moves[TwoM] == State(3, 1, 0)
    ensures AsWritten()[State(1, 1, 0)].moves[TwoC] == State(1, 3, 0)
    ensures AsWritten()[State(2, 2, 1)].moves[C] != Next(State(2, 2, 1), C)
    ensures AsWritten()[State(1, 1, 0)].moves[TwoM] != Next(State(1, 1, 0), TwoM)
    ensures AsWritten()[State(1, 1, 0)].moves[TwoC] != Next(State(1, 1, 0), TwoC)
    ensures !Safe(Next(State(2, 2, 1), C)) && Safe(AsWritten()[State(2, 2, 1)].moves[C])
    ensures AsWritten()[State(1, 1, 0)].moves[TwoM].b == State(1, 1, 0).b
    ensures AsWritten()[State(1, 1, 0)].moves[TwoC].b == State(1, 1, 0).b
  {
  }

  /** Crossing back does not always undo a crossing in the written table:
      "2m" takes (3,1,1) to (1,1,0), the fifth move of the solution, but "2m"
      from (1,1,0) leads to (3,1,0), not back to (3,1,1). */
  lemma AsWrittenNoRoundTrip()
    ensures Offers(AsWritten(), State(3, 1, 1), TwoM)
    ensures AsWritten()[State(3, 1, 1)].moves[TwoM] == State(1, 1, 0)
    ensures Offers(AsWritten(), State(1, 1, 0), TwoM)
    ensures AsWritten()[State(1, 1, 0)].moves[TwoM] != State(3, 1, 1)
  {
  }

  lemma AsWrittenDescends()
    ensures Descends(AsWritten())
  {
    var g := AsWritten();
    forall s, t | Offers(g, s, t) ensures Remaining(s) <= Remaining(g[s].moves[t]) + 1 {
      match t
      case M => AsWrittenDescendsM(s);
      case C => AsWrittenDescendsC(s);
      case TwoM => AsWrittenDescendsTwoM(s);
      case TwoC => AsWrittenDescendsTwoC(s);
      case MC => AsWrittenDescendsMC(s);
    }
  }

  lemma AsWrittenDescendsM(s: State)
    requires Offers(AsWritten(), s, M)
    ensures Remaining(s) <= Remaining(AsWritten()[s].moves[M]) + 1
  {
  }

  lemma AsWrittenDescendsC(s: State)
    requires Offers(AsWritten(), s, C)
    ensures Remaining(s) <= Remaining(AsWritten()[s].moves[C]) + 1
  {
  }

  lemma AsWrittenDescendsTwoM(s: State)
    requires Offers(AsWritten(), s, TwoM)
    ensures Remaining(s) <= Remaining(AsWritten()[s].moves[TwoM]) + 1
  {
  }

  lemma AsWrittenDescendsTwoC(s: State)
    requires Offers(AsWritten(), s, TwoC)
    ensures Remaining(s) <= Remaining(AsWritten()[s].moves[TwoC]) + 1
  {
  }

  lemma AsWrittenDescendsMC(s: State)
    requires Offers(AsWritten(), s, MC)
    ensures Remaining(s) <= Remaining(AsWritten()[s].moves[MC]) + 1
  {
  }

  lemma AsWrittenIsPuzzleGraph()
    ensures IsPuzzleGraph(AsWritten())
  {
    AsWrittenClosed();
    AsWrittenClassified();
    AsWrittenDescends();
  }

  /** The state (2,0,1) is marked failure, yet no move leads to it. */
  lemma AsWrittenDeadEntry(s: State, t: Tag)
    requires Offers(AsWritten(), s, t)
    ensures AsWritten()[s].moves[t] != State(2, 0, 1)
  {
  }

  /** The first moves of the solution and its last move. */
  lemma AsWrittenEdges()
    ensures AsWritten()[Start].moves[TwoC] == State(3, 1, 0)
    ensures AsWritten()[State(3, 1, 0)].moves[C] == State(3, 2, 1)
    ensures AsWritten()[State(1, 1, 1)].moves[MC] == Goal
  {
  }

  // ---------------------------------------------------------------------------
  // The corrected table

  /** The corrected table has the same keys and markers, and differs from the
      written one only in the three anomalous moves. */
  lemma FixedAgrees(s: State, t: Tag)
    ensures s in Fixed() <==> s in AsWritten()
    ensures s in Fixed() ==> (Fixed()[s].Transitions? <==> AsWritten()[s].Transitions?)
    ensures s in Fixed() && !Fixed()[s].Transitions? ==> Fixed()[s] == AsWritten()[s]
    ensures Offers(Fixed(), s, t) <==> Offers(AsWritten(), s, t)
    ensures Offers(Fixed(), s, t) && !Anomalous(s, t) ==> Fixed()[s].moves[t] == AsWritten()[s].moves[t]
  {
  }

  /** The three repaired moves of the corrected table. */
  lemma FixedRepairs()
    ensures Offers(Fixed(), State(2, 2, 1), C) && Fixed()[State(2, 2, 1)].moves[C] == State(2, 1, 0)
    ensures Offers(Fixed(), State(1, 1, 0), TwoM) && Fixed()[State(1, 1, 0)].moves[TwoM] == State(3, 1, 1)
    ensures Offers(Fixed(), State(1, 1, 0), TwoC) && Fixed()[State(1, 1, 0)].moves[TwoC] == State(1, 3, 1)
  {
  }

  lemma FixedClosed()
    ensures Closed(Fixed())
  {
    var g := Fixed();
    AsWrittenClosed();
    FixedRepairs();
    forall s, t | Offers(g, s, t) ensures g[s].moves[t] in g {
      FixedAgrees(s, t);
      FixedAgrees(g[s].moves[t], t);
    }
  }

  lemma FixedClassified()
    ensures Classified(Fixed())
  {
    var g := Fixed();
    AsWrittenClassified();
    forall s | s in g
      ensures InRange(s) && (g[s] == Failure <==> !Safe(s)) && (g[s] == Success <==> s == Goal)
    {
      FixedAgrees(s, M);
    }
  }

  lemma FixedTagsAvailable()
    ensures TagsAvailable(Fixed())
  {
    var g := Fixed();
    forall s, t | s in g && g[s].Transitions? ensures t in g[s].moves <==> Available(s, t) {
      FixedAgrees(s, t);
      AsWrittenTagsAt(s, t);
    }
  }

  /** Every move of the corrected table is exactly one crossing. */
  lemma FixedArithmetic(s: State, t: Tag)
    requires Offers(Fixed(), s, t)
    ensures Fixed()[s].moves[t] == Next(s, t)
  {
    FixedAgrees(s, t);
    if Anomalous(s, t) {
      match t
      case C =>
      case TwoM =>
      case TwoC =>
    } else {
      AsWrittenArithmetic(s, t);
    }
  }

  /** In the corrected table crossing back with the same composition from a
      non-terminal state returns to where the crossing started. */
  lemma FixedRoundTrip(s: State, t: Tag)
    requires Offers(Fixed(), s, t)
    requires Fixed()[s].moves[t] in Fixed() && Fixed()[Fixed()[s].moves[t]].Transitions?
    ensures Offers(Fixed(), Fixed()[s].moves[t], t)
    ensures Fixed()[Fixed()[s].moves[t]].moves[t] == s
  {
    var g := Fixed();
    var s' := g[s].moves[t];
    FixedArithmetic(s, t);
    FixedClassified();
    FixedTagsAvailable();
    assert InRange(s) && Available(s, t);
    NextRoundTrip(s, t);
    assert t in g[s'].moves;
    FixedArithmetic(s', t);
  }

  lemma FixedDescends()
    ensures Descends(Fixed())
  {
    var g := Fixed();
    forall s, t | Offers(g, s, t) ensures Remaining(s) <= Remaining(g[s].moves[t]) + 1 {
      FixedDescendsAt(s, t);
    }
  }

  lemma FixedDescendsAt(s: State, t: Tag)
    requires Offers(Fixed(), s, t)
    ensures Remaining(s) <= Remaining(Fixed()[s].moves[t]) + 1
  {
    FixedAgrees(s, t);
    if Anomalous(s, t) {
      FixedRepairs();
      if s == State(2, 2, 1) {
        assert t == C;
      } else {
        assert s == State(1, 1, 0) && (t == TwoM || t == TwoC);
      }
    } else {
      AsWrittenDescends();
      assert Offers(AsWritten(), s, t);
    }
  }

  lemma FixedIsPuzzleGraph()
    ensures IsPuzzleGraph(Fixed())
  {
    FixedClosed();
    FixedClassified();
    FixedDescends();
  }

  // ---------------------------------------------------------------------------
  // Paths

  /** Every state reached from a key of a closed table is a key. */
  lemma {:induction false} RunStaysInGraph(g: Graph, s: State, path: seq<Tag>)
    requires Closed(g) && s in g
    requires Run(g, s, path).Some?
    ensures Run(g, s, path).value in g
    decreases |path|
  {
    if path != [] {
      RunStaysInGraph(g, g[s].moves[path[0]], path[1..]);
    }
  }

  /** Once terminal, a path goes no further. */
  lemma RunStopsAtTerminal(g: Graph, s: State, path: seq<Tag>)
    requires s in g && !g[s].Transitions? && path != []
    ensures Run(g, s, path) == None
  {
  }

  /** No path reaches the goal in fewer crossings than Remaining says. */
  lemma {:induction false} NoShortcut(g: Graph, s: State, path: seq<Tag>)
    requires Descends(g)
    requires Run(g, s, path) == Some(Goal)
    ensures |path| >= Remaining(s)
    decreases |path|
  {
    if path != [] {
      NoShortcut(g, g[s].moves[path[0]], path[1..]);
    }
  }

  /** Extending a path by one offered move. */
  lemma {:induction false} RunSnoc(g: Graph, s: State, path: seq<Tag>, t: Tag)
    requires Run(g, s, path).Some? && Offers(g, Run(g, s, path).value, t)
    ensures Run(g, s, path + [t]) == Some(g[Run(g, s, path).value].moves[t])
    decreases |path|
  {
    if path != [] {
      assert (path + [t])[1..] == path[1..] + [t];
      RunSnoc(g, g[s].moves[path[0]], path[1..], t);
    }
  }

  /** Walks the solution backwards from the goal through a table that agrees
      with the written one on the eleven moves it uses. */
  lemma SolutionWalk(g: Graph)
    requires Offers(g, Start, TwoC) && g[Start].moves[TwoC] == State(3, 1, 0)
    requires Offers(g, State(3, 1, 0), C) && g[State(3, 1, 0)].moves[C] == State(3, 2, 1)
    requires Offers(g, State(3, 2, 1), TwoC) && g[State(3, 2, 1)].moves[TwoC] == State(3, 0, 0)
    requires Offers(g, State(3, 0, 0), C) && g[State(3, 0, 0)].moves[C] == State(3, 1, 1)
    requires Offers(g, State(3, 1, 1), TwoM) && g[State(3, 1, 1)].moves[TwoM] == State(1, 1, 0)
    requires Offers(g, State(1, 1, 0), MC) && g[State(1, 1, 0)].moves[MC] == State(2, 2, 1)
    requires Offers(g, State(2, 2, 1), TwoM) && g[State(2, 2, 1)].moves[TwoM] == State(0, 2, 0)
    requires Offers(g, State(0, 2, 0), C) && g[State(0, 2, 0)].moves[C] == State(0, 3, 1)
    requires Offers(g, State(0, 3, 1), TwoC) && g[State(0, 3, 1)].moves[TwoC] == State(0, 1, 0)
    requires Offers(g, State(0, 1, 0), C) && g[State(0, 1, 0)].moves[C] == State(0, 2, 1)
    requires Offers(g, State(0, 2, 1), TwoC) && g[State(0, 2, 1)].moves[TwoC] == Goal
    ensures Run(g, Start, Solution) == Some(Goal)
  {
    assert Run(g, State(0, 2, 1), Solution[10..]) == Some(Goal);
    assert Run(g, State(0, 1, 0), Solution[9..]) == Some(Goal);
    assert Run(g, State(0, 3, 1), Solution[8..]) == Some(Goal);
    assert Run(g, State(0, 2, 0), Solution[7..]) == Some(Goal);
    assert Run(g, State(2, 2, 1), Solution[6..]) == Some(Goal);
    assert Run(g, State(1, 1, 0), Solution[5..]) == Some(Goal);
    assert Run(g, State(3, 1, 1), Solution[4..]) == Some(Goal);
    assert Run(g, State(3, 0, 0), Solution[3..]) == Some(Goal);
    assert Run(g, State(3, 2, 1), Solution[2..]) == Some(Goal);
    assert Run(g, State(3, 1, 0), Solution[1..]) == Some(Goal);
    assert Run(g, Start, Solution[0..]) == Some(Goal);
    assert Solution[0..] == Solution;
  }

  /** The solution takes the written table from the start to the goal, and no
      shorter path does. */
  lemma AsWrittenSolutionEdges()
    ensures Offers(AsWritten(), Start, TwoC) && AsWritten()[Start].moves[TwoC] == State(3, 1, 0)
    ensures Offers(AsWritten(), State(3, 1, 0), C) && AsWritten()[State(3, 1, 0)].moves[C] == State(3, 2, 1)
    ensures Offers(AsWritten(), State(3, 2, 1), TwoC) && AsWritten()[State(3, 2, 1)].moves[TwoC] == State(3, 0, 0)
    ensures Offers(AsWritten(), State(3, 0, 0), C) && AsWritten()[State(3, 0, 0)].moves[C] == State(3, 1, 1)
    ensures Offers(AsWritten(), State(3, 1, 1), TwoM) && AsWritten()[State(3, 1, 1)].moves[TwoM] == State(1, 1, 0)
    ensures Offers(AsWritten(), State(1, 1, 0), MC) && AsWritten()[State(1, 1, 0)].moves[MC] == State(2, 2, 1)
  {
  }
  lemma AsWrittenSolutionEdges2()
    ensures Offers(AsWritten(), State(2, 2, 1), TwoM) && AsWritten()[State(2, 2, 1)].moves[TwoM] == State(0, 2, 0)
    ensures Offers(AsWritten(), State(0, 2, 0), C) && AsWritten()[State(0, 2, 0)].moves[C] == State(0, 3, 1)
    ensures Offers(AsWritten(), State(0, 3, 1), TwoC) && AsWritten()[State(0, 3, 1)].moves[TwoC] == State(0, 1, 0)
    ensures Offers(AsWritten(), State(0, 1, 0), C) && AsWritten()[State(0, 1, 0)].moves[C] == State(0, 2, 1)
    ensures Offers(AsWritten(), State(0, 2, 1), TwoC) && AsWritten()[State(0, 2, 1)].moves[TwoC] == Goal
  {
  }

  lemma AsWrittenSolution(path: seq<Tag>)
    ensures Run(AsWritten(), Start, Solution) == Some(Goal)
    ensures Run(AsWritten(), Start, path) == Some(Goal) ==> |path| >= 11
  {
    AsWrittenSolutionEdges();
    AsWrittenSolutionEdges2();
    SolutionWalk(AsWritten());
    AsWrittenDescends();
    if Run(AsWritten(), Start, path) == Some(Goal) {
      NoShortcut(AsWritten(), Start, path);
    }
  }

  /** The corrected table keeps every move the solution uses. */
  lemma FixedSolutionWalk()
    ensures Run(Fixed(), Start, Solution) == Some(Goal)
  {
    AsWrittenSolutionEdges();
    AsWrittenSolutionEdges2();
    FixedAgrees(Start, TwoC);
    FixedAgrees(State(3, 1, 0), C);
    FixedAgrees(State(3, 2, 1), TwoC);
    FixedAgrees(State(3, 0, 0), C);
    FixedAgrees(State(3, 1, 1), TwoM);
    FixedAgrees(State(1, 1, 0), MC);
    FixedAgrees(State(2, 2, 1), TwoM);
    FixedAgrees(State(0, 2, 0), C);
    FixedAgrees(State(0, 3, 1), TwoC);
    FixedAgrees(State(0, 1, 0), C);
    FixedAgrees(State(0, 2, 1), TwoC);
    SolutionWalk(Fixed());
  }

  /** No path through the corrected table is shorter than the solution. */
  lemma FixedSolution(path: seq<Tag>)
    ensures Run(Fixed(), Start, path) == Some(Goal) ==> |path| >= 11
  {
    FixedDescends();
    if Run(Fixed(), Start, path) == Some(Goal) {
      NoShortcut(Fixed(), Start, path);
    }
  }
}
