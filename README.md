# Choose-your-own-adventure story materialisation and navigation, in Dafny

The system asks a language model for a branching story. It receives a tree of
story nodes and stores the tree as flat rows: one `Story` row, then one
`StoryNode` row per node. Each row records its options as a dict
`{"0": {text, node_id}, "1": …}` that points to the children's rows. A web page
then lets a reader walk the stored graph.

This project models both ends of that pipeline.

- **The materialiser** (`backend/core/story_generator.py`).
  - `StoryTree.FlattenNode` / `FlattenChoices` specify which rows the
    depth-first walk creates. The walk starts at a given first free id, and
    the option loop is modelled as a prefix recursion over a node's options.
  - `StoryTree.Prune` is what survives of a tree: an ending's options are
    never walked.
  - `StoryTree.Rebuild` reads a tree back by following `options[str(k)].node_id`.
  - `StoryGenerator.Session` is the database session. It holds a row map per
    table with an id counter each, plus the committed snapshot. Add+flush is
    one step that hands out the next id.
  - `StoryGenerator.ProcessStoryNode` is the recursive method, with the source's
    `for` loop. It is proved to add exactly the rows of `FlattenNode`.
    `StoryGenerator.GenerateStory` creates the story row, runs the walk from the
    root and commits.
- **The navigation state machine** (`frontend/src/components/StoryGame.jsx`).
  - `StoryGame.InitStep`, `ChooseStep` and `BackStep` are the three
    transitions as pure functions.
  - `StoryGame.Game` is the component with its four state fields. Its
    handlers are proved to perform those transitions.
  - Each handler's immediate update and its timer update together form one
    atomic step.
  - `BackButtonShown` and `OptionsListed` are the two render guards.

Three behaviours of the code are easy to miss. The model follows the code:

- `generate_story` returns the `Story` row (its id here), not the root node's
  id.
- A node that is not an ending but has an empty option list gets a row whose
  `options` column is never assigned. Nothing rejects it.
- An ending that carries options keeps no trace of them. Its options, and the
  subtrees below them, are silently dropped, not rejected.

Because of the last two, the round trip is stated for every tree. What comes
back is `Prune(t)`, and `PruneFixpoint` shows that this is the input tree
exactly when no ending carries options.

## Model

| member | source | states |
|---|---|---|
| OptionKeys.IndexKey | backend/core/story_generator.py:78 | `str(idx)` for an option index is a non-empty string of decimal digits, of length 1 exactly for indices below 10 |
| OptionKeys.IndexKeyInjective | backend/core/story_generator.py:70-81 | distinct option indices give distinct dict keys, so no entry of `options_dict` overwrites another |
| OptionKeys.IndexKeyIn | backend/core/story_generator.py:70-81 | `str(i)` is among the keys of an n-option dict exactly when `i < n` |
| OptionKeys.IndexKeysCount | backend/core/story_generator.py:69-83 | a node with n options gets exactly n keys |
| StoryTree.FlattenNode | backend/core/story_generator.py:57-86 | processing a node uses at least one id, and every row it creates has an id between the first free id and the counter's new value |
| StoryTree.FlattenChoices | backend/core/story_generator.py:69-81 | the first k turns of the option loop only create rows with ids from the loop's first free id up to its final counter value |
| StoryTree.Branches | backend/core/story_generator.py:68 | a node's options are walked exactly when it is not an ending and has at least one option; an ending never branches, whatever options it carries |
| StoryTree.FreshRow | backend/core/story_generator.py:58-64 | the row built for a node copies its content and both flags, carries the given story id and root flag, and has no options yet |
| StoryTree.Prune | backend/core/story_generator.py:68 | what is kept of a node: content and flags unchanged; all its options when it branches, none when it is an ending or has no options |
| StoryTree.PruneChoices | backend/core/story_generator.py:70-81 | the i-th kept option has the i-th option's text and its pruned child |
| StoryTree.FlattenStoryId | backend/core/story_generator.py:58-59 | every row created by the walk carries the story id it was given |
| StoryTree.FlattenSingleRoot | backend/core/story_generator.py:50 | a row is flagged `is_root` exactly when the walk was started as root and the row is the first one created |
| StoryTree.FlattenChoicesNoRoot | backend/core/story_generator.py:76 | no row created under a node's options is flagged `is_root` |
| StoryTree.FlattenChoicesKeys | backend/core/story_generator.py:69-81 | after k turns of the option loop the dict has exactly the keys "0" .. str(k-1) |
| StoryTree.FlattenChoicesEntry | backend/core/story_generator.py:76-81 | key `str(i)` holds the i-th option's text and the id of the first row of the i-th child's subtree, whose rows are all kept |
| StoryTree.FlattenChoicesMonotone | backend/core/story_generator.py:65-66 | a later option's child gets a larger id than an earlier option's child |
| StoryTree.FlattenNodeParts | backend/core/story_generator.py:58-86 | a node's row has the first free id and is created before its children; a branching node's row ends up with the loop's dict, and an ending or option-less node has only its own row (one unfolding of `FlattenNode`, the step that links `ProcessStoryNode` to it) |
| StoryTree.FlattenCovers | backend/core/story_generator.py:65-66 | under the per-table counter of this model, the ids created are contiguous: every id from the first to just below the new counter value names a row (a shared database sequence could leave gaps; nothing else here depends on this) |
| StoryTree.FlattenRootRow | backend/core/story_generator.py:58-83 | the subtree's first row copies content and flags and carries the story id and root flag; its `options` is assigned iff the node branches, and then has keys "0".."n-1", each with the option's text and a child id larger than the parent's |
| StoryTree.FlattenForward | backend/core/story_generator.py:65-80 | every option's `node_id` is larger than the id of the row holding it: a child's row exists before its parent's dict is written |
| StoryTree.FlattenResolves | backend/core/story_generator.py:76-80 | every option's `node_id` names a row created by the same walk |
| StoryTree.FlattenUniqueParent | backend/core/story_generator.py:76-80 | no two options anywhere reference the same row: a `node_id` determines the parent row and the key |
| StoryTree.FlattenHasParent | backend/core/story_generator.py:70-80 | every row but the first is referenced by some option: the rows form one tree |
| StoryTree.FlattenParentOf | backend/core/story_generator.py:70-80 | for any row but the first, the parent row and key whose option points to it |
| StoryTree.FlattenCount | backend/core/story_generator.py:68-76 | the walk creates exactly one row per node of the pruned tree |
| StoryTree.FlattenRebuild | backend/core/story_generator.py:57-86 | following `options[str(k)].node_id` from the first row, in key order, over any row map that contains the walk's rows, rebuilds the tree with endings' options dropped |
| StoryTree.FlattenChoicesRebuild | backend/core/story_generator.py:69-81 | the options rebuilt from the dict after k loop turns are the first k options, each with its child pruned |
| StoryTree.PruneFixpoint | backend/core/story_generator.py:68 | dropping endings' options leaves a tree unchanged exactly when no ending in it carries options, so the round trip is exact for those trees and only for them |
| StoryGenerator.Session.constructor | backend/core/story_generator.py:26 | the empty row store, with no rows, counters at 1 and nothing committed; it is only a starting state, since `GenerateStory` accepts any valid session |
| StoryGenerator.Session.AddStory | backend/core/story_generator.py:41-43 | `add` + `flush` of a Story row: it gets the next unused story id; node rows and committed state are untouched |
| StoryGenerator.Session.AddNode | backend/core/story_generator.py:58-66 | `add` + `flush` of a StoryNode row for an existing story: it gets the next unused node id; nothing else changes |
| StoryGenerator.Session.SetOptions | backend/core/story_generator.py:83-85 | assigning a node's `options` column changes that column of that row only |
| StoryGenerator.Session.Commit | backend/core/story_generator.py:52 | after commit the visible rows are the session's rows |
| StoryGenerator.FlattenChoicesStep | backend/core/story_generator.py:70-81 | one more loop turn appends the child's rows and adds entry `str(idx)` with the option's text and the child's id (one unfolding of `FlattenChoices`, the step that links the method's loop to it) |
| StoryGenerator.AssembleLeaf | backend/core/story_generator.py:68 | a node that is an ending or has no options adds only its own row, with `options` unassigned (the step that links `ProcessStoryNode`'s else branch to `FlattenNode`) |
| StoryGenerator.AssembleBranch | backend/core/story_generator.py:65-85 | the node's row, then the loop's rows, then the dict assigned to the node's row, make up the node's materialisation (the step that links `ProcessStoryNode`'s branch to `FlattenNode`) |
| StoryGenerator.ProcessStoryNode | backend/core/story_generator.py:57-86 | returns the next free node id; adds exactly the rows of `FlattenNode` and moves the counter past them; leaves the story table and the committed state unchanged; keeps every node row tied to an existing story |
| StoryGenerator.GenerateStory | backend/core/story_generator.py:41-53 | creates the Story row under a fresh id and then the tree's rows; of the rows with that story id exactly one is the root, the first one created; commits last; the committed rows rebuild the pruned tree from the root row |
| StoryGame.Falsy | frontend/src/components/StoryGame.jsx:21 | the truthiness test `!optionNodeId`: `null`/`undefined` and 0 are falsy, every other number is truthy, so every stored node id (they start at 1) passes |
| StoryGame.CurrentView | frontend/src/components/StoryGame.jsx:18 | a node is on screen exactly when the current id is truthy and present in `all_nodes`, and then it is that entry |
| StoryGame.BackButtonShown | frontend/src/components/StoryGame.jsx:63 | the back button is shown only on a non-ending node that is on screen; there, with no transition running, it is shown exactly when clicking it would change the state |
| StoryGame.OptionsListed | frontend/src/components/StoryGame.jsx:88 | option buttons are listed only for a non-ending node on screen whose options are present and non-empty, and never on an ending |
| StoryGame.InitStep | frontend/src/components/StoryGame.jsx:10-16 | with a root node: current = root, visited = {root}, history = [root], which is consistent; without story data or root node: no change |
| StoryGame.ChooseStep | frontend/src/components/StoryGame.jsx:20-30 | a falsy id or a running transition changes nothing; otherwise current = id, history gets id appended, visited gets id added and no transition is left running; keeps consistency; visited never shrinks |
| StoryGame.BackStep | frontend/src/components/StoryGame.jsx:32-42 | only with more than one history entry and no transition running: drops exactly the last entry and shows the new last one; visited unchanged; keeps consistency |
| StoryGame.GoBackUndoesChoice | frontend/src/components/StoryGame.jsx:20-42 | going back right after a choice restores current and history; only the visit is remembered |
| StoryGame.RunPreserves | frontend/src/components/StoryGame.jsx:20-42 | from a shown story, any sequence of clicks keeps current = last history entry, history within visited, a non-empty history, a growing visited set, and no transition left running |
| StoryGame.RunVisited | frontend/src/components/StoryGame.jsx:26 | the visited set after a sequence of clicks is the one before plus every truthy id chosen; going back visits nothing |
| StoryGame.RunFromRoot | frontend/src/components/StoryGame.jsx:10-42 | after the story arrives, visited is the root plus the chosen ids, and the root stays at the bottom of the history |
| StoryGame.EndingOffersNoMoves | frontend/src/components/StoryGame.jsx:63-88 | on an ending neither the back button nor any option is rendered |
| StoryGame.BackButtonActs | frontend/src/components/StoryGame.jsx:63-70 | an enabled back button that is shown always acts: it pops one history entry and shows the one below |
| StoryGame.ShownNodeIsTop | frontend/src/components/StoryGame.jsx:18 | a node on screen is the top of a non-empty history |
| StoryGame.ListedOptionActs | frontend/src/components/StoryGame.jsx:88-99 | clicking a listed option with a truthy id, while no transition runs, shows that option's node and marks it visited |
| StoryGame.Game.constructor | frontend/src/components/StoryGame.jsx:5-8 | the initial hook values: no current node, nothing visited, empty history, not animating |
| StoryGame.Game.Initialize | frontend/src/components/StoryGame.jsx:10-16 | the effect performs `InitStep` on the component's fields |
| StoryGame.Game.HandleOptionClick | frontend/src/components/StoryGame.jsx:20-30 | the handler and its timer perform `ChooseStep` and keep the component consistent |
| StoryGame.Game.HandleGoBack | frontend/src/components/StoryGame.jsx:32-42 | the handler and its timer perform `BackStep` and keep the component consistent |

## Left out

- The language model call, prompt assembly and response parsing are left out (`backend/core/story_generator.py:17-38`). They are network and library code. The parsed tree is the model's input (`StoryResponse`).
- The `model_validate` coercion of untyped children is left out (`backend/core/story_generator.py:47-48, 73-74`). Nodes are an already-typed datatype.
- A child whose `nextNode` is absent is not modelled. The datatype always has a child, whereas the source would fail inside the recursion.
- An absent `options` attribute and an empty list are the same here (`seq` of length 0). The source treats both as falsy.
- Failure paths are not modelled: an exception part-way through the walk, and the rollback a caller might perform. The source has no retry loop, sanitizer or rollback. The model states only that commit is the last step, and that the walk itself commits nothing.
- Add and flush are one step (`AddStory`, `AddNode`), because the source always pairs them. SQLAlchemy's identity map, autoflush and id generation are reduced to a counter per table that starts at 1.
- The `options` column default is an empty list (`backend/models/story.py:39`). It is kept as the marker `Unassigned`, with no list value.
- StoryGame.Game.HandleOptionClick: the two timed updates are applied at once. Interleavings during the 300 ms delay are not modelled, such as a second click, or the story data changing while a timer is pending. Neither is the stale `storyHistory` captured by the back handler's timer.
- StoryGame.Game.HandleGoBack: atomic in the same way as HandleOptionClick.
- Ids on the page are `null`/`undefined` or integers (`JsId`). Other JavaScript values are not modelled. Object-key lookup is modelled as a lookup by integer id.
- Rendering is left out: markup, CSS classes, the visited check mark, the chapter counter and the floating-point progress bar (`StoryGame.jsx:51-130`).
- The restart button (`onRestart`) is left out. It belongs to the parent component.
- The page reads `is_winning_end` while the row column is `is_winning_ending`. The API layer that maps rows to page data is not part of this model, so the two halves are not linked through it.
- `App.jsx`, `services/api.js`, the other presentational components, `backend/core/prompts.py` and the ORM schema files are not part of this model, apart from the row shape of `backend/models/story.py:33-39`.
