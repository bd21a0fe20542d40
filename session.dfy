/** One game session: the rule-arbitration part of the game loop. The loop
    listens for a clicked boarding group, looks its tag up in the table, moves
    to the next state and starts the ferry; when the ferry lands it reads the
    table's marker and either listens again or ends the game. */
module Session {
  import opened Puzzle
  import opened Passengers
  import G = GameGraph

  /** The loop's `action`: "listen", "ferry", "failure" and "success". */
  datatype Action = Listen | Ferry | Failure | Success

  /** The action the loop takes when the ferry lands on a state with entry `e`. */
  function Landing(e: G.Entry): (a: Action)
    ensures a == Failure <==> e == G.Failure
    ensures a == Success <==> e == G.Success
    ensures a == Listen <==> e.Transitions?
  {
    if e == G.Failure then Failure
    else if e == G.Success then Success
    else Listen
  }

  /** What the mouse handler guarantees of the outcome it hands the loop.
      Nobody boards once the boat is full, so at most two are aboard. Seating
      or unseating somebody drops the boat from the selection, so a selection
      holding the boat comes from a click on the boat: that click reports
      whether anybody is aboard, and every person it keeps selected is aboard. */
  predicate Coherent(clicked: set<Actor>, onBoat: Option<bool>, aboard: nat) {
    aboard <= BOAT_MAX_CAPACITY &&
    (Boat in clicked ==>
      (onBoat.Some? ==> onBoat.value == (aboard > 0)) && |clicked - {Boat}| <= aboard)
  }

  class Session {
    /** The transition table the loop consults. */
    const graph: G.Graph
    /** The current `(m, c, b)` state. */
    var gamestate: State
    var action: Action
    /** The crossings shown on screen. */
    var movementCount: nat
    /** The tags of every move the table has made, in order. */
    ghost var trail: seq<Tag>

    /** The state is where the recorded moves lead in the table (so every
        lookup finds its key), and a terminal action matches the table. */
    ghost predicate Valid()
      reads this
    {
      G.IsPuzzleGraph(graph) &&
      G.Run(graph, Start, trail) == Some(gamestate) &&
      gamestate in graph &&
      movementCount <= |trail| &&
      (action == Failure ==> graph[gamestate] == G.Failure) &&
      (action == Success ==> graph[gamestate] == G.Success)
    }

    /** The session ended: the loop shows the outcome and exits. */
    predicate Ended()
      reads this
    {
      action == Failure || action == Success
    }

    constructor (g: G.Graph)
      requires G.IsPuzzleGraph(g)
      ensures Valid() && graph == g
      ensures gamestate == Start && action == Listen && movementCount == 0 && trail == []
    {
      graph := g;
      gamestate := Start;
      action := Listen;
      movementCount := 0;
      trail := [];
    }

    /** The state after the loop found the clicked group and its tag `t`,
        starting from state `s0`, moves `t0` and count `c0`: the table's move
        for `t` is taken when the state offers it, and the ferry departs when
        the boat was clicked with people aboard. */
    ghost predicate Arbitrated(s0: State, t0: seq<Tag>, c0: nat, t: Tag, leaves: bool)
      reads this
    {
      if G.Offers(graph, s0, t) then
        gamestate == graph[s0].moves[t] && trail == t0 + [t] &&
        action == (if leaves then Ferry else Listen) &&
        movementCount == (if leaves then c0 + 1 else c0)
      else
        gamestate == s0 && trail == t0 && action == Listen && movementCount == c0
    }

    /** One listening step, given what the mouse handler reports: the clicked
        actors, whether somebody is on the boat (None when nothing was clicked)
        and how many people were aboard before the click. */
    method Select(clicked: set<Actor>, onBoat: Option<bool>, aboard: nat)
      requires Valid() && action == Listen
      modifies this
      ensures Valid()
      ensures
        var tag := Selected(clicked);
        var moved := clicked != {} && onBoat.Some? && tag.Some? &&
                     G.Offers(graph, old(gamestate), tag.value);
        var departs := moved && onBoat.value && Boat in clicked && aboard > 0;
        && gamestate == (if moved then graph[old(gamestate)].moves[tag.value] else old(gamestate))
        && trail == old(trail) + (if moved then [tag.value] else [])
        && action == (if departs then Ferry else Listen)
        && movementCount == old(movementCount) + (if departs then 1 else 0)
      ensures Coherent(clicked, onBoat, aboard) ==>
        movementCount - old(movementCount) == |trail| - |old(trail)|
    {
      if clicked != {} && onBoat.Some? {
        ghost var s0, t0, c0 := gamestate, trail, movementCount;
        var leaves := onBoat.value && Boat in clicked && aboard > 0;
        ghost var matched, at := false, 0;
        var i := 0;
        while i < |CatalogOrder|
          invariant 0 <= i <= |CatalogOrder|
          invariant matched ==> at < i && GroupAt(at) == clicked && Arbitrated(s0, t0, c0, TagAt(at), leaves)
          invariant !matched ==> UnlistedBefore(clicked, i)
          invariant !matched ==> gamestate == s0 && trail == t0 && action == Listen && movementCount == c0
        {
          var key := CatalogOrder[i];
          if GroupAt(i) == clicked {
            if matched {
              GroupAtInjective(at, i);
              assert false;
            }
            TakeTag(key, i, leaves);
            matched, at := true, i;
          }
          i := i + 1;
        }
        if matched {
          SelectedAt(clicked, at);
          var tag := TagAt(at);
          if G.Offers(graph, s0, tag) {
            G.RunSnoc(graph, Start, t0, tag);
            G.RunStaysInGraph(graph, Start, t0 + [tag]);
          }
        } else {
          UnlistedUntagged(clicked);
        }
      }
    }

    /** The inner scan of the listening step: the tag dictionary is searched
        for the key found at position `i` of the catalog order, and the move
        it names is taken when the current state offers it. */
    method TakeTag(key: string, i: nat, leaves: bool)
      requires i < |CatalogOrder| && key == CatalogOrder[i]
      requires action == Listen
      modifies this
      ensures Arbitrated(old(gamestate), old(trail), old(movementCount), TagAt(i), leaves)
    {
      ghost var s0, t0, c0 := gamestate, trail, movementCount;
      var k := 0;
      while k < |CatalogOrder|
        invariant 0 <= k <= |CatalogOrder|
        invariant if i < k then Arbitrated(s0, t0, c0, TagAt(i), leaves)
          else gamestate == s0 && trail == t0 && action == Listen && movementCount == c0
      {
        var key2 := CatalogOrder[k];
        if key == key2 {
          OrderInjective(i, k);
          var tag := TagAt(k);
          if G.Offers(graph, gamestate, tag) {
            gamestate := graph[gamestate].moves[tag];
            trail := trail + [tag];
            if leaves {
              action := Ferry;
              movementCount := movementCount + 1;
            }
          }
        }
        k := k + 1;
      }
    }

    /** The ferry has landed: the loop reads the table's marker for the state. */
    method FerryDone()
      requires Valid() && action == Ferry
      modifies this`action
      ensures Valid()
      ensures action == Landing(graph[gamestate])
      ensures Ended() <==> !graph[gamestate].Transitions?
      ensures action == Failure ==> !Safe(gamestate)
      ensures action == Success ==> gamestate == Goal && |trail| >= 11
    {
      if graph[gamestate] == G.Failure {
        action := Failure;
      } else if graph[gamestate] == G.Success {
        action := Success;
        G.NoShortcut(graph, Start, trail);
      } else {
        action := Listen;
      }
    }
  }
}
