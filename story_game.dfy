/**
  The story player's navigation state: the node on screen, the set of nodes
  seen so far, the stack of nodes on the path from the root, and whether a
  transition is in progress. Each handler's pair of updates (the one made at
  once and the one made when the 300 ms timer fires) is one atomic step here.
 */
module StoryGame {
  import opened Wrappers

  /** A node id as the page holds it: JavaScript `null`/`undefined`, or a number. */
  datatype JsId = Null | Num(n: int)

  /** JavaScript truthiness of an id: `null`, `undefined` and `0` are falsy. */
  predicate Falsy(id: JsId)
    ensures id == Null ==> Falsy(id)
    ensures id.Num? ==> (Falsy(id) <==> id.n == 0)
    // database ids start at 1, so every stored node id is truthy
    ensures id.Num? && id.n >= 1 ==> !Falsy(id)
  {
    id == Null || id == Num(0)
  }

  /** The four pieces of component state. */
  datatype GameState = GameState(currentNodeId: JsId, visitedNodes: set<JsId>, storyHistory: seq<JsId>, isAnimating: bool)

  /** The state on first render: nothing shown, nothing visited, no history, no transition. */
  function Initial(): GameState {
    GameState(Null, {}, [], false)
  }

  /**
    The invariant the handlers keep: the node on screen is the top of the
    history stack (and there is none before the stack has an entry), and every
    node on the stack has been visited.
   */
  predicate Consistent(s: GameState) {
    (|s.storyHistory| == 0 ==> s.currentNodeId == Null) &&
    (|s.storyHistory| > 0 ==> s.currentNodeId == s.storyHistory[|s.storyHistory| - 1]) &&
    (forall i :: 0 <= i < |s.storyHistory| ==> s.storyHistory[i] in s.visitedNodes)
  }

  /**
    The effect run when the story data arrives: with a root node, the root is
    shown, is the only node visited, and is the whole history. Without story
    data or a root node nothing changes.
   */
  function InitStep(s: GameState, root: Option<JsId>): (r: GameState)
    ensures root.None? ==> r == s
    ensures root.Some? ==> r.currentNodeId == root.value && r.visitedNodes == {root.value} &&
                           r.storyHistory == [root.value]
    ensures r.isAnimating == s.isAnimating
    ensures root.Some? ==> Consistent(r)
  {
    match root
    case None => s
    case Some(id) => s.(currentNodeId := id, visitedNodes := {id}, storyHistory := [id])
  }

  /**
    Choosing the option that leads to `id`: ignored for a falsy id or during a
    transition; otherwise `id` is shown, pushed on the history and visited.
   */
  function ChooseStep(s: GameState, id: JsId): (r: GameState)
    ensures Falsy(id) || s.isAnimating ==> r == s
    ensures !Falsy(id) && !s.isAnimating ==>
      r.currentNodeId == id && r.storyHistory == s.storyHistory + [id] &&
      r.visitedNodes == s.visitedNodes + {id} && !r.isAnimating
    ensures Consistent(s) ==> Consistent(r)
    ensures s.visitedNodes <= r.visitedNodes
  {
    if Falsy(id) || s.isAnimating then s
    else s.(currentNodeId := id, visitedNodes := s.visitedNodes + {id},
             storyHistory := s.storyHistory + [id], isAnimating := false)
  }

  /**
    Going back: only with more than one history entry and no transition in
    progress; drops the top entry and shows the one below. Visited nodes stay.
   */
  function BackStep(s: GameState): (r: GameState)
    ensures |s.storyHistory| <= 1 || s.isAnimating ==> r == s
    ensures |s.storyHistory| > 1 && !s.isAnimating ==>
      r.storyHistory == s.storyHistory[..|s.storyHistory| - 1] &&
      r.currentNodeId == s.storyHistory[|s.storyHistory| - 2] && !r.isAnimating
    ensures r.visitedNodes == s.visitedNodes
    ensures Consistent(s) ==> Consistent(r)
  {
    if |s.storyHistory| > 1 && !s.isAnimating then
      var newHistory := s.storyHistory[..|s.storyHistory| - 1];
      s.(storyHistory := newHistory, currentNodeId := newHistory[|newHistory| - 1], isAnimating := false)
    else s
  }

  /** Going back right after a choice returns to where the choice was made; only the visit is remembered. */
  lemma GoBackUndoesChoice(s: GameState, id: JsId)
    requires Consistent(s) && |s.storyHistory| >= 1 && !s.isAnimating && !Falsy(id)
    ensures BackStep(ChooseStep(s, id)) == s.(visitedNodes := s.visitedNodes + {id})
  {
  }

  // ---------------------------------------------------------------------------
  // Runs of user actions
  // ---------------------------------------------------------------------------

  /** A click on an option button (with that option's `node_id`) or on the back button. */
  datatype Action = Choose(id: JsId) | Back

  /** The state after the actions, in order, each completing before the next. */
  function Run(s: GameState, acts: seq<Action>): GameState
    decreases |acts|
  {
    if |acts| == 0 then s
    else
      var a := acts[|acts| - 1];
      var prev := Run(s, acts[..|acts| - 1]);
      match a
      case Choose(id) => ChooseStep(prev, id)
      case Back => BackStep(prev)
  }

  /** The truthy ids the actions choose. */
  function Chosen(acts: seq<Action>): set<JsId>
    decreases |acts|
  {
    if |acts| == 0 then {}
    else
      var a := acts[|acts| - 1];
      Chosen(acts[..|acts| - 1]) + (if a.Choose? && !Falsy(a.id) then {a.id} else {})
  }

  /**
    Once the story is shown, any sequence of clicks keeps the invariant, keeps
    at least one history entry, never loses a visited node and leaves no
    transition in progress.
   */
  lemma {:induction false} RunPreserves(s: GameState, acts: seq<Action>)
    requires Consistent(s) && |s.storyHistory| >= 1
    ensures var r := Run(s, acts);
      Consistent(r) && |r.storyHistory| >= 1 && s.visitedNodes <= r.visitedNodes &&
      (!s.isAnimating ==> !r.isAnimating)
    decreases |acts|
  {
    if |acts| > 0 {
      RunPreserves(s, acts[..|acts| - 1]);
    }
  }

  /**
    Starting with no transition in progress, the visited nodes are exactly
    those visited before plus every truthy id chosen: going back visits nothing.
   */
  lemma {:induction false} RunVisited(s: GameState, acts: seq<Action>)
    requires !s.isAnimating
    ensures Run(s, acts).visitedNodes == s.visitedNodes + Chosen(acts)
    ensures !Run(s, acts).isAnimating
    decreases |acts|
  {
    if |acts| > 0 {
      RunVisited(s, acts[..|acts| - 1]);
    }
  }

  /** After the story data arrives, visited is the root plus what was chosen, and the root stays at the bottom of the stack. */
  lemma {:induction false} RunFromRoot(root: JsId, acts: seq<Action>)
    ensures var r := Run(InitStep(Initial(), Some(root)), acts);
      r.visitedNodes == {root} + Chosen(acts) && |r.storyHistory| >= 1 && r.storyHistory[0] == root
    decreases |acts|
  {
    RunVisited(InitStep(Initial(), Some(root)), acts);
    if |acts| > 0 {
      RunFromRoot(root, acts[..|acts| - 1]);
      RunPreserves(InitStep(Initial(), Some(root)), acts[..|acts| - 1]);
    }
  }

  // ---------------------------------------------------------------------------
  // What the page offers
  // ---------------------------------------------------------------------------

  /** An option as the page receives it: its text and the id of the node it leads to. */
  datatype OptionView = OptionView(text: string, nodeId: JsId)

  /** A node as the page receives it; `options` may be absent. */
  datatype NodeView = NodeView(content: string, isEnding: bool, isWinningEnd: bool, options: Option<seq<OptionView>>)

  /** The node on screen: looked up by id when the id is truthy; absent means the page shows "Loading". */
  function CurrentView(s: GameState, allNodes: map<int, NodeView>): (r: Option<NodeView>)
    ensures r.Some? <==> !Falsy(s.currentNodeId) && s.currentNodeId.n in allNodes
    ensures r.Some? ==> r.value == allNodes[s.currentNodeId.n]
  {
    match s.currentNodeId
    case Null => None
    case Num(n) => if n != 0 && n in allNodes then Some(allNodes[n]) else None
  }

  /** The back button is rendered: a node is shown, the history has more than one entry, and the node is not an ending. */
  predicate BackButtonShown(s: GameState, allNodes: map<int, NodeView>)
    ensures BackButtonShown(s, allNodes) ==>
      !Falsy(s.currentNodeId) && s.currentNodeId.n in allNodes && !allNodes[s.currentNodeId.n].isEnding
    // on a non-ending node with no transition running, the button is shown
    // exactly when clicking it would change something
    ensures CurrentView(s, allNodes).Some? && !CurrentView(s, allNodes).value.isEnding && !s.isAnimating ==>
      (BackButtonShown(s, allNodes) <==> BackStep(s) != s)
  {
    CurrentView(s, allNodes).Some? && |s.storyHistory| > 1 && !CurrentView(s, allNodes).value.isEnding
  }

  /** The option buttons are rendered: a node is shown, it is not an ending, and its options are present and non-empty. */
  predicate OptionsListed(s: GameState, allNodes: map<int, NodeView>)
    ensures OptionsListed(s, allNodes) ==>
      !Falsy(s.currentNodeId) && s.currentNodeId.n in allNodes && !allNodes[s.currentNodeId.n].isEnding &&
      allNodes[s.currentNodeId.n].options.Some? && |allNodes[s.currentNodeId.n].options.value| > 0
    ensures CurrentView(s, allNodes).Some? && CurrentView(s, allNodes).value.isEnding ==> !OptionsListed(s, allNodes)
  {
    CurrentView(s, allNodes).Some? && !CurrentView(s, allNodes).value.isEnding &&
    CurrentView(s, allNodes).value.options.Some? && |CurrentView(s, allNodes).value.options.value| > 0
  }

  /** On an ending, the page offers neither the back button nor any option: only a new adventure. */
  lemma EndingOffersNoMoves(s: GameState, allNodes: map<int, NodeView>)
    requires CurrentView(s, allNodes).Some? && CurrentView(s, allNodes).value.isEnding
    ensures !BackButtonShown(s, allNodes) && !OptionsListed(s, allNodes)
  {
  }

  /**
    A rendered back button is never a dead click: when it is enabled (no
    transition in progress) clicking it pops the history and shows the entry below.
   */
  lemma BackButtonActs(s: GameState, allNodes: map<int, NodeView>)
    requires Consistent(s) && BackButtonShown(s, allNodes) && !s.isAnimating
    ensures |BackStep(s).storyHistory| == |s.storyHistory| - 1
    ensures BackStep(s).currentNodeId == s.storyHistory[|s.storyHistory| - 2]
  {
  }

  /** A shown node is the top of a non-empty history. */
  lemma ShownNodeIsTop(s: GameState, allNodes: map<int, NodeView>)
    requires Consistent(s) && CurrentView(s, allNodes).Some?
    ensures |s.storyHistory| >= 1 && s.currentNodeId == s.storyHistory[|s.storyHistory| - 1]
  {
  }

  /** A listed option with a truthy id, clicked while no transition runs, shows that option's node next. */
  lemma ListedOptionActs(s: GameState, allNodes: map<int, NodeView>, i: nat)
    requires OptionsListed(s, allNodes) && !s.isAnimating
    requires i < |CurrentView(s, allNodes).value.options.value|
    requires !Falsy(CurrentView(s, allNodes).value.options.value[i].nodeId)
    ensures var id := CurrentView(s, allNodes).value.options.value[i].nodeId;
      ChooseStep(s, id).currentNodeId == id && id in ChooseStep(s, id).visitedNodes
  {
  }

  // ---------------------------------------------------------------------------
  // The component
  // ---------------------------------------------------------------------------

  /** The component's state hooks and its three state-changing handlers. */
  class Game {
    var currentNodeId: JsId
    var visitedNodes: set<JsId>
    var storyHistory: seq<JsId>
    var isAnimating: bool

    function State(): GameState
      reads this
    {
      GameState(currentNodeId, visitedNodes, storyHistory, isAnimating)
    }

    ghost predicate Valid()
      reads this
    {
      Consistent(State())
    }

    /** The `useState` initial values. */
    constructor ()
      ensures State() == Initial() && Valid()
    {
      currentNodeId := Null;
      visitedNodes := {};
      storyHistory := [];
      isAnimating := false;
    }

    /** The effect on `storyData`; `root` is the root node's id, absent without story data or root node. */
    method Initialize(root: Option<JsId>)
      modifies this
      ensures State() == InitStep(old(State()), root)
      ensures root.Some? ==> Valid()
    {
      if root.Some? {
        currentNodeId := root.value;
        visitedNodes := {root.value};
        storyHistory := [root.value];
      }
    }

    /** `handleOptionClick`, with the timer's updates applied when it fires. */
    method HandleOptionClick(optionNodeId: JsId)
      requires Valid()
      modifies this
      ensures Valid()
      ensures State() == ChooseStep(old(State()), optionNodeId)
    {
      if Falsy(optionNodeId) || isAnimating {
        return;
      }
      isAnimating := true;
      currentNodeId := optionNodeId;
      visitedNodes := visitedNodes + {optionNodeId};
      storyHistory := storyHistory + [optionNodeId];
      isAnimating := false;
    }

    /** `handleGoBack`, with the timer's updates applied when it fires. */
    method HandleGoBack()
      requires Valid()
      modifies this
      ensures Valid()
      ensures State() == BackStep(old(State()))
    {
      if |storyHistory| > 1 && !isAnimating {
        isAnimating := true;
        var newHistory := storyHistory[..|storyHistory| - 1];
        storyHistory := newHistory;
        currentNodeId := newHistory[|newHistory| - 1];
        isAnimating := false;
      }
    }
  }
}
