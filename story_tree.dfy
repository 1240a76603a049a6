/**
  The parsed story tree the language model returns, the rows it becomes, and
  the specification of the materialisation: which rows a depth-first,
  pre-order walk with a fresh-id counter creates, and how the tree is read
  back from those rows.
 */
module StoryTree {
  import opened Wrappers
  import opened OptionKeys

  // ---------------------------------------------------------------------------
  // The parsed response (StoryLLMResponse / StoryNodeLLM)
  // ---------------------------------------------------------------------------

  /** One beat of the story. Absent and empty `options` are the same here: both are falsy. */
  datatype Node = Node(content: string, isEnding: bool, isWinningEnding: bool, options: seq<Choice>)

  /** A labelled choice leading to the next node. */
  datatype Choice = Choice(text: string, nextNode: Node)

  /** The whole response: a title and the root of the tree. */
  datatype StoryResponse = StoryResponse(title: string, rootNode: Node)

  // ---------------------------------------------------------------------------
  // The persisted rows (the `stories` and `story_nodes` tables)
  // ---------------------------------------------------------------------------

  datatype StoryRow = StoryRow(title: string, sessionId: string)

  /** One entry `{text, node_id}` of a node's `options` column. */
  datatype OptionRef = OptionRef(text: string, nodeId: int)

  /** The `options` column: never assigned (the column default, an empty list), or a dict. */
  datatype OptionsColumn = Unassigned | Assigned(entries: map<string, OptionRef>)

  datatype NodeRow = NodeRow(
    storyId: int,
    content: string,
    isRoot: bool,
    isEnding: bool,
    isWinningEnding: bool,
    options: OptionsColumn)

  /**
    The test that decides whether a node's options are walked and its column
    assigned: an ending never branches, whatever options it carries, and
    neither does a node without options.
   */
  predicate Branches(t: Node)
    ensures t.isEnding ==> !Branches(t)
    ensures |t.options| == 0 ==> !Branches(t)
    ensures !t.isEnding && |t.options| > 0 ==> Branches(t)
  {
    !t.isEnding && |t.options| > 0
  }

  /**
    The row inserted for `t` before any of its children: the node's content
    and flags, the story id and root flag it was given, and no options yet.
   */
  function FreshRow(t: Node, storyId: int, isRoot: bool): (r: NodeRow)
    ensures r.storyId == storyId && r.isRoot == isRoot
    ensures r.content == t.content && r.isEnding == t.isEnding && r.isWinningEnding == t.isWinningEnding
    ensures r.options.Unassigned?
  {
    NodeRow(storyId, t.content, isRoot, t.isEnding, t.isWinningEnding, Unassigned)
  }

  /** Every row is a sub-map entry of `big`. */
  ghost predicate SubMap(small: map<int, NodeRow>, big: map<int, NodeRow>) {
    forall id :: id in small ==> id in big && big[id] == small[id]
  }

  /** Every entry of `small` is an entry of `big`. */
  ghost predicate EntriesIn(small: map<string, OptionRef>, big: map<string, OptionRef>) {
    forall key :: key in small ==> key in big && big[key] == small[key]
  }

  // ---------------------------------------------------------------------------
  // Materialisation, as a function of the tree and the first free id
  // ---------------------------------------------------------------------------

  /** The rows created for a subtree, and the counter value after them. */
  datatype Flat = Flat(rows: map<int, NodeRow>, next: int)

  /** The rows created for the first k options of a node, the dict built so far, and the counter. */
  datatype FlatChoices = FlatChoices(rows: map<int, NodeRow>, refs: map<string, OptionRef>, next: int)

  /**
    The rows that processing `t` creates when the next free node id is `start`:
    the node's own row gets `start`; its children follow in order.
   */
  function FlattenNode(t: Node, storyId: int, isRoot: bool, start: int): (r: Flat)
    ensures r.next > start
    ensures forall id :: id in r.rows ==> start <= id < r.next
    decreases t, 1
  {
    var row := FreshRow(t, storyId, isRoot);
    if Branches(t) then
      var c := FlattenChoices(t, |t.options|, storyId, start + 1);
      Flat(c.rows[start := row.(options := Assigned(c.refs))], c.next)
    else
      Flat(map[start := row], start + 1)
  }

  /** The first `k` iterations of the loop over `t`'s options, starting at id `start`. */
  function FlattenChoices(t: Node, k: nat, storyId: int, start: int): (r: FlatChoices)
    requires k <= |t.options|
    ensures r.next >= start
    ensures forall id :: id in r.rows ==> start <= id < r.next
    decreases t, 0, k
  {
    if k == 0 then
      FlatChoices(map[], map[], start)
    else
      var prev := FlattenChoices(t, k - 1, storyId, start);
      var opt := t.options[k - 1];
      var child := FlattenNode(opt.nextNode, storyId, false, prev.next);
      FlatChoices(
        prev.rows + child.rows,
        prev.refs[IndexKey(k - 1) := OptionRef(opt.text, prev.next)],
        child.next)
  }

  /** The id the walk gives to the child of `t`'s option `i`. */
  function ChildId(t: Node, i: nat, storyId: int, start: int): int
    requires i < |t.options|
  {
    FlattenChoices(t, i, storyId, start + 1).next
  }

  // ---------------------------------------------------------------------------
  // What survives the round trip
  // ---------------------------------------------------------------------------

  /** The tree with every ending's options (and whatever hangs below them) dropped. */
  function Prune(t: Node): (r: Node)
    ensures r.content == t.content && r.isEnding == t.isEnding && r.isWinningEnding == t.isWinningEnding
    ensures |r.options| == if Branches(t) then |t.options| else 0
    decreases t, 1
  {
    if Branches(t) then t.(options := PruneChoices(t, |t.options|)) else t.(options := [])
  }

  /** The first `k` options of `t`, each with its child pruned. */
  function PruneChoices(t: Node, k: nat): (r: seq<Choice>)
    requires k <= |t.options|
    ensures |r| == k
    ensures forall i :: 0 <= i < k ==> r[i] == Choice(t.options[i].text, Prune(t.options[i].nextNode))
    decreases t, 0, k
  {
    if k == 0 then [] else PruneChoices(t, k - 1) + [Choice(t.options[k - 1].text, Prune(t.options[k - 1].nextNode))]
  }

  /** No ending anywhere in the tree carries options. */
  predicate EndingsBare(t: Node)
    decreases t
  {
    (t.isEnding ==> |t.options| == 0) &&
    forall i :: 0 <= i < |t.options| ==> EndingsBare(t.options[i].nextNode)
  }

  /** Number of nodes in a tree. */
  function Size(t: Node): (n: nat)
    ensures n >= 1
    decreases t, 1
  {
    1 + SizeChoices(t, |t.options|)
  }

  function SizeChoices(t: Node, k: nat): nat
    requires k <= |t.options|
    decreases t, 0, k
  {
    if k == 0 then 0 else SizeChoices(t, k - 1) + Size(t.options[k - 1].nextNode)
  }

  // ---------------------------------------------------------------------------
  // Reading the tree back from the rows
  // ---------------------------------------------------------------------------

  /**
    The tree rooted at row `id`, following `options[str(k)].node_id` for k = 0, 1, ...
    Only references to a strictly larger id below `limit` are followed, so the walk ends.
   */
  function Rebuild(rows: map<int, NodeRow>, id: int, limit: int): Option<Node>
    decreases limit - id, 1
  {
    if id !in rows then None
    else
      var row := rows[id];
      match row.options
      case Unassigned => Some(Node(row.content, row.isEnding, row.isWinningEnding, []))
      case Assigned(entries) =>
        var cs := RebuildChoices(rows, id, entries, |entries|, limit);
        if cs.None? then None else Some(Node(row.content, row.isEnding, row.isWinningEnding, cs.value))
  }

  /** The options under keys "0" .. str(k - 1) of row `parent`, each with its rebuilt child. */
  function RebuildChoices(rows: map<int, NodeRow>, parent: int, entries: map<string, OptionRef>, k: nat, limit: int)
    : Option<seq<Choice>>
    decreases limit - parent, 0, k
  {
    if k == 0 then Some([])
    else
      var prev := RebuildChoices(rows, parent, entries, k - 1, limit);
      var key := IndexKey(k - 1);
      if prev.None? || key !in entries then None
      else
        var ref := entries[key];
        if !(parent < ref.nodeId < limit) then None
        else
          var child := Rebuild(rows, ref.nodeId, limit);
          if child.None? then None else Some(prev.value + [Choice(ref.text, child.value)])
  }

  /** The node id that option `key` of row `parent` points to, if any. */
  function Target(rows: map<int, NodeRow>, parent: int, key: string): Option<int> {
    if parent in rows && rows[parent].options.Assigned? && key in rows[parent].options.entries
    then Some(rows[parent].options.entries[key].nodeId)
    else None
  }

  // ---------------------------------------------------------------------------
  // Properties of the materialisation
  // ---------------------------------------------------------------------------

  /** Every row carries the story's id. */
  lemma {:induction false} FlattenStoryId(t: Node, storyId: int, isRoot: bool, start: int)
    ensures forall id :: id in FlattenNode(t, storyId, isRoot, start).rows ==>
      FlattenNode(t, storyId, isRoot, start).rows[id].storyId == storyId
    decreases t, 1
  {
    if Branches(t) {
      FlattenChoicesStoryId(t, |t.options|, storyId, start + 1);
    }
  }

  lemma {:induction false} FlattenChoicesStoryId(t: Node, k: nat, storyId: int, start: int)
    requires k <= |t.options|
    ensures forall id :: id in FlattenChoices(t, k, storyId, start).rows ==>
      FlattenChoices(t, k, storyId, start).rows[id].storyId == storyId
    decreases t, 0, k
  {
    if k > 0 {
      var prev := FlattenChoices(t, k - 1, storyId, start);
      FlattenChoicesStoryId(t, k - 1, storyId, start);
      FlattenStoryId(t.options[k - 1].nextNode, storyId, false, prev.next);
    }
  }

  /** Only the first row of the walk can be a root, and it is one exactly when `isRoot`. */
  lemma {:induction false} FlattenSingleRoot(t: Node, storyId: int, isRoot: bool, start: int)
    ensures forall id :: id in FlattenNode(t, storyId, isRoot, start).rows ==>
      (FlattenNode(t, storyId, isRoot, start).rows[id].isRoot <==> isRoot && id == start)
    decreases t, 1
  {
    if Branches(t) {
      FlattenChoicesNoRoot(t, |t.options|, storyId, start + 1);
    }
  }

  lemma {:induction false} FlattenChoicesNoRoot(t: Node, k: nat, storyId: int, start: int)
    requires k <= |t.options|
    ensures forall id :: id in FlattenChoices(t, k, storyId, start).rows ==>
      !FlattenChoices(t, k, storyId, start).rows[id].isRoot
    decreases t, 0, k
  {
    if k > 0 {
      var prev := FlattenChoices(t, k - 1, storyId, start);
      FlattenChoicesNoRoot(t, k - 1, storyId, start);
      FlattenSingleRoot(t.options[k - 1].nextNode, storyId, false, prev.next);
    }
  }

  /** `SubMap` is transitive. */
  lemma SubMapTrans(a: map<int, NodeRow>, b: map<int, NodeRow>, c: map<int, NodeRow>)
    requires SubMap(a, b) && SubMap(b, c)
    ensures SubMap(a, c)
  {
  }

  /** The rows of the first `k - 1` iterations, and those of iteration `k`, are both in the rows after `k`. */
  lemma FlattenChoicesParts(t: Node, k: nat, storyId: int, start: int)
    requires 0 < k <= |t.options|
    ensures var prev := FlattenChoices(t, k - 1, storyId, start);
      var c := FlattenChoices(t, k, storyId, start);
      SubMap(prev.rows, c.rows) &&
      SubMap(FlattenNode(t.options[k - 1].nextNode, storyId, false, prev.next).rows, c.rows)
  {
    var prev := FlattenChoices(t, k - 1, storyId, start);
    var child := FlattenNode(t.options[k - 1].nextNode, storyId, false, prev.next);
    forall id | id in prev.rows
      ensures id in prev.rows + child.rows && (prev.rows + child.rows)[id] == prev.rows[id]
    {
      assert id !in child.rows;
    }
  }

  /** Iteration `k` keeps the dict's earlier entries and adds str(k - 1) for its own child. */
  lemma FlattenChoicesRefsGrow(t: Node, k: nat, storyId: int, start: int)
    requires 0 < k <= |t.options|
    ensures var prev := FlattenChoices(t, k - 1, storyId, start);
      var c := FlattenChoices(t, k, storyId, start);
      EntriesIn(prev.refs, c.refs) &&
      IndexKey(k - 1) in c.refs && c.refs[IndexKey(k - 1)] == OptionRef(t.options[k - 1].text, prev.next)
  {
    FlattenChoicesKeys(t, k - 1, storyId, start);
    IndexKeyIn(k - 1, k - 1);
  }

  /** `EntriesIn` is transitive. */
  lemma EntriesInTrans(a: map<string, OptionRef>, b: map<string, OptionRef>, c: map<string, OptionRef>)
    requires EntriesIn(a, b) && EntriesIn(b, c)
    ensures EntriesIn(a, c)
  {
  }

  /** Target lookups in the rows after `k` iterations come from the part that holds the parent row. */
  lemma FlattenChoicesTarget(t: Node, k: nat, storyId: int, start: int, p: int, key: string)
    requires 0 < k <= |t.options|
    ensures var prev := FlattenChoices(t, k - 1, storyId, start);
      var child := FlattenNode(t.options[k - 1].nextNode, storyId, false, prev.next);
      Target(FlattenChoices(t, k, storyId, start).rows, p, key) ==
        if p in child.rows then Target(child.rows, p, key) else Target(prev.rows, p, key)
  {
  }

  /** After `k` iterations the dict holds exactly the keys "0" .. str(k - 1). */
  lemma {:induction false} FlattenChoicesKeys(t: Node, k: nat, storyId: int, start: int)
    requires k <= |t.options|
    ensures FlattenChoices(t, k, storyId, start).refs.Keys == IndexKeys(k)
    decreases k
  {
    if k > 0 {
      FlattenChoicesKeys(t, k - 1, storyId, start);
      assert IndexKeys(k) == IndexKeys(k - 1) + {IndexKey(k - 1)};
    }
  }

  /**
    After `k` iterations, the dict maps str(i) to option i's text and the id its
    child's row got, and that child's rows are all present.
   */
  lemma {:induction false} FlattenChoicesEntry(t: Node, k: nat, i: nat, storyId: int, start: int)
    requires i < k <= |t.options|
    ensures var c := FlattenChoices(t, k, storyId, start);
      var cid := FlattenChoices(t, i, storyId, start).next;
      IndexKey(i) in c.refs &&
      c.refs[IndexKey(i)] == OptionRef(t.options[i].text, cid) &&
      SubMap(FlattenNode(t.options[i].nextNode, storyId, false, cid).rows, c.rows)
    decreases k
  {
    FlattenChoicesParts(t, k, storyId, start);
    if i < k - 1 {
      FlattenChoicesEntry(t, k - 1, i, storyId, start);
      if IndexKey(i) == IndexKey(k - 1) {
        IndexKeyInjective(i, k - 1);
      }
      var cid := FlattenChoices(t, i, storyId, start).next;
      SubMapTrans(FlattenNode(t.options[i].nextNode, storyId, false, cid).rows,
        FlattenChoices(t, k - 1, storyId, start).rows, FlattenChoices(t, k, storyId, start).rows);
    }
  }

  /** The option index and the entry behind a key of the loop's dict. */
  lemma FlattenChoicesEntryOf(t: Node, k: nat, storyId: int, start: int, key: string) returns (i: nat)
    requires k <= |t.options|
    requires key in FlattenChoices(t, k, storyId, start).refs
    ensures i < k && key == IndexKey(i)
    ensures FlattenChoices(t, k, storyId, start).refs[key] ==
      OptionRef(t.options[i].text, FlattenChoices(t, i, storyId, start).next)
  {
    FlattenChoicesKeys(t, k, storyId, start);
    i := IndexKeyOf(k, key);
    FlattenChoicesEntry(t, k, i, storyId, start);
  }

  /** The loop's counter strictly grows from one iteration to the next. */
  lemma {:induction false} FlattenChoicesMonotone(t: Node, i: nat, k: nat, storyId: int, start: int)
    requires i < k <= |t.options|
    ensures FlattenChoices(t, i, storyId, start).next < FlattenChoices(t, k, storyId, start).next
    decreases k
  {
    if i < k - 1 {
      FlattenChoicesMonotone(t, i, k - 1, storyId, start);
    }
  }

  /** The walk of a node: its own row first, then (when it branches) the rows of the loop over its options. */
  lemma FlattenNodeParts(t: Node, storyId: int, isRoot: bool, start: int)
    ensures var f := FlattenNode(t, storyId, isRoot, start);
      var c := FlattenChoices(t, |t.options|, storyId, start + 1);
      start in f.rows &&
      (Branches(t) ==>
        f.rows[start] == FreshRow(t, storyId, isRoot).(options := Assigned(c.refs)) &&
        f.next == c.next && start !in c.rows && SubMap(c.rows, f.rows) &&
        forall id :: id in f.rows && id != start ==> id in c.rows) &&
      (!Branches(t) ==> f.rows == map[start := FreshRow(t, storyId, isRoot)] && f.next == start + 1)
  {
  }

  /** Target lookups in a node's rows: its own row holds the loop's dict, the others come from the loop. */
  lemma FlattenNodeTarget(t: Node, storyId: int, isRoot: bool, start: int, p: int, key: string)
    ensures var f := FlattenNode(t, storyId, isRoot, start);
      var c := FlattenChoices(t, |t.options|, storyId, start + 1);
      Target(f.rows, p, key) ==
        if !Branches(t) then None
        else if p == start then (if key in c.refs then Some(c.refs[key].nodeId) else None)
        else Target(c.rows, p, key)
  {
    FlattenNodeParts(t, storyId, isRoot, start);
  }

  /** Every id from the subtree's first to the counter's new value names one of its rows: the ids are contiguous. */
  lemma {:induction false} FlattenCovers(t: Node, storyId: int, isRoot: bool, start: int, id: int)
    requires start <= id < FlattenNode(t, storyId, isRoot, start).next
    ensures id in FlattenNode(t, storyId, isRoot, start).rows
    decreases t, 1
  {
    FlattenNodeParts(t, storyId, isRoot, start);
    if id != start {
      FlattenChoicesCovers(t, |t.options|, storyId, start + 1, id);
    }
  }

  lemma {:induction false} FlattenChoicesCovers(t: Node, k: nat, storyId: int, start: int, id: int)
    requires k <= |t.options|
    requires start <= id < FlattenChoices(t, k, storyId, start).next
    ensures id in FlattenChoices(t, k, storyId, start).rows
    decreases t, 0, k
  {
    var prev := FlattenChoices(t, k - 1, storyId, start);
    FlattenChoicesParts(t, k, storyId, start);
    if id < prev.next {
      FlattenChoicesCovers(t, k - 1, storyId, start, id);
    } else {
      FlattenCovers(t.options[k - 1].nextNode, storyId, false, prev.next, id);
    }
  }

  /**
    The row of a subtree's root copies the node's fields; its `options` column is
    assigned exactly when the node is not an ending and has options, and then it
    maps "0" .. str(n - 1), and nothing else, to the option's text and the id of
    the row created for that option's child, which is larger than the parent's.
   */
  lemma FlattenRootRow(t: Node, storyId: int, isRoot: bool, start: int)
    ensures var rows := FlattenNode(t, storyId, isRoot, start).rows;
      start in rows &&
      rows[start].content == t.content && rows[start].isEnding == t.isEnding &&
      rows[start].isWinningEnding == t.isWinningEnding &&
      rows[start].storyId == storyId && rows[start].isRoot == isRoot &&
      (rows[start].options.Assigned? <==> Branches(t)) &&
      (Branches(t) ==>
        rows[start].options.entries.Keys == IndexKeys(|t.options|) &&
        forall i :: 0 <= i < |t.options| ==>
          var cid := ChildId(t, i, storyId, start);
          start < cid &&
          rows[start].options.entries[IndexKey(i)] == OptionRef(t.options[i].text, cid) &&
          SubMap(FlattenNode(t.options[i].nextNode, storyId, false, cid).rows, rows))
  {
    if Branches(t) {
      var n := |t.options|;
      var c := FlattenChoices(t, n, storyId, start + 1);
      var rows := FlattenNode(t, storyId, isRoot, start).rows;
      FlattenChoicesKeys(t, n, storyId, start + 1);
      forall i | 0 <= i < n
        ensures var cid := ChildId(t, i, storyId, start);
          start < cid &&
          rows[start].options.entries[IndexKey(i)] == OptionRef(t.options[i].text, cid) &&
          SubMap(FlattenNode(t.options[i].nextNode, storyId, false, cid).rows, rows)
      {
        FlattenChoicesEntry(t, n, i, storyId, start + 1);
        var sub := FlattenNode(t.options[i].nextNode, storyId, false, ChildId(t, i, storyId, start)).rows;
        forall id | id in sub ensures id in rows && rows[id] == sub[id] {
          assert id in c.rows;
        }
      }
    }
  }

  /**
    Every option points to a row with a larger id, created by the same walk:
    a child's row is added before the parent's dict refers to it.
   */
  lemma {:induction false} FlattenForward(t: Node, storyId: int, isRoot: bool, start: int, p: int, key: string)
    requires Target(FlattenNode(t, storyId, isRoot, start).rows, p, key).Some?
    ensures var f := FlattenNode(t, storyId, isRoot, start);
      var child := Target(f.rows, p, key).value;
      p < child && start < child < f.next
    decreases t, 1
  {
    var n := |t.options|;
    FlattenNodeTarget(t, storyId, isRoot, start, p, key);
    FlattenNodeParts(t, storyId, isRoot, start);
    if p == start {
      var i := FlattenChoicesEntryOf(t, n, storyId, start + 1, key);
      FlattenChoicesMonotone(t, i, n, storyId, start + 1);
    } else {
      FlattenChoicesForward(t, n, storyId, start + 1, p, key);
    }
  }

  /** Every option's `node_id` names a row of the same walk: the reference always resolves. */
  lemma FlattenResolves(t: Node, storyId: int, isRoot: bool, start: int, p: int, key: string)
    requires Target(FlattenNode(t, storyId, isRoot, start).rows, p, key).Some?
    ensures Target(FlattenNode(t, storyId, isRoot, start).rows, p, key).value in FlattenNode(t, storyId, isRoot, start).rows
  {
    FlattenForward(t, storyId, isRoot, start, p, key);
    FlattenCovers(t, storyId, isRoot, start, Target(FlattenNode(t, storyId, isRoot, start).rows, p, key).value);
  }

  lemma {:induction false} FlattenChoicesForward(t: Node, k: nat, storyId: int, start: int, p: int, key: string)
    requires k <= |t.options|
    requires Target(FlattenChoices(t, k, storyId, start).rows, p, key).Some?
    ensures var c := FlattenChoices(t, k, storyId, start);
      var child := Target(c.rows, p, key).value;
      p < child && start < child < c.next
    decreases t, 0, k
  {
    var prev := FlattenChoices(t, k - 1, storyId, start);
    var child := FlattenNode(t.options[k - 1].nextNode, storyId, false, prev.next);
    FlattenChoicesTarget(t, k, storyId, start, p, key);
    if p in child.rows {
      FlattenForward(t.options[k - 1].nextNode, storyId, false, prev.next, p, key);
    } else {
      FlattenChoicesForward(t, k - 1, storyId, start, p, key);
    }
  }

  /** No option inside the loop's rows points at a row that is the child of a dict entry. */
  lemma {:induction false} FlattenChoicesTargetNotEntry(t: Node, k: nat, i: nat, storyId: int, start: int, p: int, key: string)
    requires i < k <= |t.options|
    requires Target(FlattenChoices(t, k, storyId, start).rows, p, key).Some?
    ensures Target(FlattenChoices(t, k, storyId, start).rows, p, key).value != FlattenChoices(t, i, storyId, start).next
    decreases k, 1
  {
    var prev := FlattenChoices(t, k - 1, storyId, start);
    var child := FlattenNode(t.options[k - 1].nextNode, storyId, false, prev.next);
    FlattenChoicesTarget(t, k, storyId, start, p, key);
    if p in child.rows {
      FlattenChoicesTargetInLast(t, k, i, storyId, start, p, key);
    } else {
      FlattenChoicesTargetInPrev(t, k, i, storyId, start, p, key);
    }
  }

  lemma FlattenChoicesTargetInLast(t: Node, k: nat, i: nat, storyId: int, start: int, p: int, key: string)
    requires i < k <= |t.options|
    requires var prev := FlattenChoices(t, k - 1, storyId, start);
      Target(FlattenNode(t.options[k - 1].nextNode, storyId, false, prev.next).rows, p, key).Some?
    ensures var prev := FlattenChoices(t, k - 1, storyId, start);
      Target(FlattenNode(t.options[k - 1].nextNode, storyId, false, prev.next).rows, p, key).value
        != FlattenChoices(t, i, storyId, start).next
  {
    var prev := FlattenChoices(t, k - 1, storyId, start);
    FlattenForward(t.options[k - 1].nextNode, storyId, false, prev.next, p, key);
    if i < k - 1 {
      FlattenChoicesMonotone(t, i, k - 1, storyId, start);
    }
  }

  lemma {:induction false} FlattenChoicesTargetInPrev(t: Node, k: nat, i: nat, storyId: int, start: int, p: int, key: string)
    requires i < k <= |t.options|
    requires Target(FlattenChoices(t, k - 1, storyId, start).rows, p, key).Some?
    ensures Target(FlattenChoices(t, k - 1, storyId, start).rows, p, key).value != FlattenChoices(t, i, storyId, start).next
    decreases k, 0
  {
    FlattenChoicesForward(t, k - 1, storyId, start, p, key);
    if i < k - 1 {
      FlattenChoicesTargetNotEntry(t, k - 1, i, storyId, start, p, key);
    }
  }

  /**
    No shared children: two option entries that point to the same row are the
    same entry of the same parent, so every row has at most one parent.
   */
  lemma {:induction false} FlattenUniqueParent(t: Node, storyId: int, isRoot: bool, start: int,
                                               p1: int, key1: string, p2: int, key2: string)
    requires var rows := FlattenNode(t, storyId, isRoot, start).rows;
      Target(rows, p1, key1).Some? && Target(rows, p1, key1) == Target(rows, p2, key2)
    ensures p1 == p2 && key1 == key2
    decreases t, 1
  {
    var n := |t.options|;
    FlattenNodeTarget(t, storyId, isRoot, start, p1, key1);
    FlattenNodeTarget(t, storyId, isRoot, start, p2, key2);
    if p1 == start && p2 == start {
      FlattenEntriesDistinct(t, n, storyId, start + 1, key1, key2);
    } else if p1 == start {
      FlattenEntryNotTarget(t, n, storyId, start + 1, key1, p2, key2);
    } else if p2 == start {
      FlattenEntryNotTarget(t, n, storyId, start + 1, key2, p1, key1);
    } else {
      FlattenChoicesUniqueParent(t, n, storyId, start + 1, p1, key1, p2, key2);
    }
  }

  /** Two entries of the loop's dict never point to the same row. */
  lemma FlattenEntriesDistinct(t: Node, k: nat, storyId: int, start: int, key1: string, key2: string)
    requires k <= |t.options|
    requires var refs := FlattenChoices(t, k, storyId, start).refs;
      key1 in refs && key2 in refs && refs[key1].nodeId == refs[key2].nodeId
    ensures key1 == key2
  {
    var i := FlattenChoicesEntryOf(t, k, storyId, start, key1);
    var j := FlattenChoicesEntryOf(t, k, storyId, start, key2);
    if i < j {
      FlattenChoicesMonotone(t, i, j, storyId, start);
    } else if j < i {
      FlattenChoicesMonotone(t, j, i, storyId, start);
    }
  }

  /** An entry of the loop's dict and an option inside the loop's rows never point to the same row. */
  lemma FlattenEntryNotTarget(t: Node, k: nat, storyId: int, start: int, key: string, p: int, key': string)
    requires k <= |t.options|
    requires var c := FlattenChoices(t, k, storyId, start);
      key in c.refs && Target(c.rows, p, key').Some?
    ensures var c := FlattenChoices(t, k, storyId, start);
      c.refs[key].nodeId != Target(c.rows, p, key').value
  {
    var i := FlattenChoicesEntryOf(t, k, storyId, start, key);
    FlattenChoicesTargetNotEntry(t, k, i, storyId, start, p, key');
  }

  lemma {:induction false} FlattenChoicesUniqueParent(t: Node, k: nat, storyId: int, start: int,
                                                      p1: int, key1: string, p2: int, key2: string)
    requires k <= |t.options|
    requires var rows := FlattenChoices(t, k, storyId, start).rows;
      Target(rows, p1, key1).Some? && Target(rows, p1, key1) == Target(rows, p2, key2)
    ensures p1 == p2 && key1 == key2
    decreases t, 0, k
  {
    var prev := FlattenChoices(t, k - 1, storyId, start);
    var childNode := t.options[k - 1].nextNode;
    var child := FlattenNode(childNode, storyId, false, prev.next);
    FlattenChoicesTarget(t, k, storyId, start, p1, key1);
    FlattenChoicesTarget(t, k, storyId, start, p2, key2);
    if p1 in child.rows && p2 in child.rows {
      FlattenUniqueParent(childNode, storyId, false, prev.next, p1, key1, p2, key2);
    } else if p1 in child.rows {
      FlattenChoicesTargetsApart(t, k, storyId, start, p1, key1, p2, key2);
    } else if p2 in child.rows {
      FlattenChoicesTargetsApart(t, k, storyId, start, p2, key2, p1, key1);
    } else {
      FlattenChoicesUniqueParent(t, k - 1, storyId, start, p1, key1, p2, key2);
    }
  }

  /** An option inside the last child's rows and one inside the earlier rows point to different rows. */
  lemma FlattenChoicesTargetsApart(t: Node, k: nat, storyId: int, start: int,
                                   p1: int, key1: string, p2: int, key2: string)
    requires 0 < k <= |t.options|
    requires var prev := FlattenChoices(t, k - 1, storyId, start);
      Target(FlattenNode(t.options[k - 1].nextNode, storyId, false, prev.next).rows, p1, key1).Some? &&
      Target(prev.rows, p2, key2).Some?
    ensures var prev := FlattenChoices(t, k - 1, storyId, start);
      Target(FlattenNode(t.options[k - 1].nextNode, storyId, false, prev.next).rows, p1, key1) !=
      Target(prev.rows, p2, key2)
  {
    var prev := FlattenChoices(t, k - 1, storyId, start);
    FlattenForward(t.options[k - 1].nextNode, storyId, false, prev.next, p1, key1);
    FlattenChoicesForward(t, k - 1, storyId, start, p2, key2);
  }

  /** Every row other than the subtree's first is the target of some option: it has a parent. */
  lemma FlattenHasParent(t: Node, storyId: int, isRoot: bool, start: int, id: int)
    requires id in FlattenNode(t, storyId, isRoot, start).rows && id != start
    ensures exists p, key :: Target(FlattenNode(t, storyId, isRoot, start).rows, p, key) == Some(id)
  {
    var p, key := FlattenParentOf(t, storyId, isRoot, start, id);
  }

  /** The parent row and the option key that point to row `id`. */
  lemma {:induction false} FlattenParentOf(t: Node, storyId: int, isRoot: bool, start: int, id: int)
    returns (p: int, key: string)
    requires id in FlattenNode(t, storyId, isRoot, start).rows && id != start
    ensures Target(FlattenNode(t, storyId, isRoot, start).rows, p, key) == Some(id)
    decreases t, 1
  {
    var n := |t.options|;
    var c := FlattenChoices(t, n, storyId, start + 1);
    FlattenNodeParts(t, storyId, isRoot, start);
    var isEntry, i;
    isEntry, i, p, key := FlattenChoicesParentOf(t, n, storyId, start + 1, id);
    if isEntry {
      FlattenChoicesEntry(t, n, i, storyId, start + 1);
      p, key := start, IndexKey(i);
    } else {
      assert p in c.rows;
    }
    FlattenNodeTarget(t, storyId, isRoot, start, p, key);
  }

  /**
    Row `id` of the loop's rows is either the child row of entry `i` of the dict
    being built, or the target of an option inside the loop's rows.
   */
  lemma {:induction false} FlattenChoicesParentOf(t: Node, k: nat, storyId: int, start: int, id: int)
    returns (isEntry: bool, i: nat, p: int, key: string)
    requires k <= |t.options|
    requires id in FlattenChoices(t, k, storyId, start).rows
    ensures isEntry ==> i < k && FlattenChoices(t, i, storyId, start).next == id
    ensures !isEntry ==> Target(FlattenChoices(t, k, storyId, start).rows, p, key) == Some(id)
    decreases t, 0, k
  {
    var prev := FlattenChoices(t, k - 1, storyId, start);
    var childNode := t.options[k - 1].nextNode;
    var child := FlattenNode(childNode, storyId, false, prev.next);
    isEntry, i, p, key := false, 0, 0, "";
    if id == prev.next {
      isEntry, i := true, k - 1;
    } else if id in child.rows {
      isEntry := false;
      p, key := FlattenParentOf(childNode, storyId, false, prev.next, id);
      FlattenChoicesTarget(t, k, storyId, start, p, key);
    } else {
      FlattenChoicesParts(t, k, storyId, start);
      assert id in prev.rows;
      isEntry, i, p, key := FlattenChoicesParentOf(t, k - 1, storyId, start, id);
      if !isEntry {
        assert p in prev.rows;
        FlattenChoicesTarget(t, k, storyId, start, p, key);
      }
    }
  }

  /** The walk creates one row per node of the pruned tree: the root and every node reached through a non-ending node. */
  lemma {:induction false} FlattenCount(t: Node, storyId: int, isRoot: bool, start: int)
    ensures FlattenNode(t, storyId, isRoot, start).next - start == Size(Prune(t))
    decreases t, 1
  {
    if Branches(t) {
      FlattenChoicesCount(t, |t.options|, storyId, start + 1);
    }
  }

  lemma {:induction false} FlattenChoicesCount(t: Node, k: nat, storyId: int, start: int)
    requires Branches(t) && k <= |t.options|
    ensures FlattenChoices(t, k, storyId, start).next - start == SizeChoices(Prune(t), k)
    decreases t, 0, k
  {
    if k > 0 {
      var prev := FlattenChoices(t, k - 1, storyId, start);
      FlattenChoicesCount(t, k - 1, storyId, start);
      FlattenCount(t.options[k - 1].nextNode, storyId, false, prev.next);
      assert Prune(t).options[k - 1].nextNode == Prune(t.options[k - 1].nextNode);
    }
  }

  /**
    Round trip: starting at the subtree's first row and following
    `options[str(k)].node_id` in key order gives back the tree, with the options
    of endings dropped. Any larger row map that contains these rows gives the same.
   */
  lemma {:induction false} FlattenRebuild(t: Node, storyId: int, isRoot: bool, start: int,
                                          rows: map<int, NodeRow>, limit: int)
    requires SubMap(FlattenNode(t, storyId, isRoot, start).rows, rows)
    requires FlattenNode(t, storyId, isRoot, start).next <= limit
    ensures Rebuild(rows, start, limit) == Some(Prune(t))
    decreases t, 2
  {
    if Branches(t) {
      FlattenRebuildBranch(t, storyId, isRoot, start, rows, limit);
    } else {
      FlattenNodeParts(t, storyId, isRoot, start);
      assert rows[start] == FreshRow(t, storyId, isRoot);
    }
  }

  lemma {:induction false} FlattenRebuildBranch(t: Node, storyId: int, isRoot: bool, start: int,
                                                rows: map<int, NodeRow>, limit: int)
    requires Branches(t)
    requires SubMap(FlattenNode(t, storyId, isRoot, start).rows, rows)
    requires FlattenNode(t, storyId, isRoot, start).next <= limit
    ensures Rebuild(rows, start, limit) == Some(Prune(t))
    decreases t, 1
  {
    FlattenBranchReady(t, storyId, isRoot, start, rows, limit);
    FlattenChoicesRebuild(t, |t.options|, storyId, start + 1, rows, start, FlattenChoices(t, |t.options|, storyId, start + 1).refs, limit);
    FlattenBranchRow(t, storyId, isRoot, start, rows);
    RebuildAssigned(rows, start, limit, FlattenChoices(t, |t.options|, storyId, start + 1).refs, PruneChoices(t, |t.options|));
  }

  lemma FlattenBranchReady(t: Node, storyId: int, isRoot: bool, start: int, rows: map<int, NodeRow>, limit: int)
    requires Branches(t)
    requires SubMap(FlattenNode(t, storyId, isRoot, start).rows, rows)
    requires FlattenNode(t, storyId, isRoot, start).next <= limit
    // Repeats FlattenChoicesRebuild's precondition at k = |t.options| word for
    // word, the always-true conjuncts included, so that the call in
    // FlattenRebuildBranch matches it directly instead of re-deriving each part.
    ensures var c := FlattenChoices(t, |t.options|, storyId, start + 1);
      SubMap(c.rows, rows) && EntriesIn(c.refs, c.refs) && c.next <= limit && start < start + 1
  {
    FlattenBranchRow(t, storyId, isRoot, start, rows);
  }

  /** What reading back a branching node needs from its rows: its own row, the loop's rows, and n option entries. */
  lemma FlattenBranchRow(t: Node, storyId: int, isRoot: bool, start: int, rows: map<int, NodeRow>)
    requires Branches(t)
    requires SubMap(FlattenNode(t, storyId, isRoot, start).rows, rows)
    ensures var c := FlattenChoices(t, |t.options|, storyId, start + 1);
      start in rows && rows[start] == FreshRow(t, storyId, isRoot).(options := Assigned(c.refs)) &&
      |c.refs| == |t.options| && SubMap(c.rows, rows) &&
      c.next == FlattenNode(t, storyId, isRoot, start).next
  {
    var n := |t.options|;
    var c := FlattenChoices(t, n, storyId, start + 1);
    var f := FlattenNode(t, storyId, isRoot, start);
    FlattenNodeParts(t, storyId, isRoot, start);
    SubMapTrans(c.rows, f.rows, rows);
    FlattenChoicesKeys(t, n, storyId, start + 1);
    IndexKeysCount(n);
  }

  /** Reading back a row whose `options` column is assigned, once its options are read back. */
  lemma RebuildAssigned(rows: map<int, NodeRow>, id: int, limit: int, entries: map<string, OptionRef>, cs: seq<Choice>)
    requires id in rows && rows[id].options == Assigned(entries)
    requires RebuildChoices(rows, id, entries, |entries|, limit) == Some(cs)
    ensures Rebuild(rows, id, limit) == Some(Node(rows[id].content, rows[id].isEnding, rows[id].isWinningEnding, cs))
  {
  }

  lemma {:induction false} FlattenChoicesRebuild(t: Node, k: nat, storyId: int, start: int,
                                                 rows: map<int, NodeRow>, parent: int,
                                                 entries: map<string, OptionRef>, limit: int)
    requires k <= |t.options|
    requires var c := FlattenChoices(t, k, storyId, start);
      SubMap(c.rows, rows) && EntriesIn(c.refs, entries) && c.next <= limit && parent < start
    ensures RebuildChoices(rows, parent, entries, k, limit) == Some(PruneChoices(t, k))
    decreases t, 0, k
  {
    if k > 0 {
      var c := FlattenChoices(t, k, storyId, start);
      var prev := FlattenChoices(t, k - 1, storyId, start);
      var childNode := t.options[k - 1].nextNode;
      var child := FlattenNode(childNode, storyId, false, prev.next);
      FlattenChoicesParts(t, k, storyId, start);
      SubMapTrans(prev.rows, c.rows, rows);
      SubMapTrans(child.rows, c.rows, rows);
      FlattenChoicesRefsGrow(t, k, storyId, start);
      EntriesInTrans(prev.refs, c.refs, entries);
      FlattenChoicesRebuild(t, k - 1, storyId, start, rows, parent, entries, limit);
      FlattenRebuild(childNode, storyId, false, prev.next, rows, limit);
    }
  }


  /** Pruning changes nothing exactly when no ending in the tree carries options. */
  lemma {:induction false} PruneFixpoint(t: Node)
    ensures Prune(t) == t <==> EndingsBare(t)
    decreases t
  {
    forall i | 0 <= i < |t.options| ensures Prune(t.options[i].nextNode) == t.options[i].nextNode <==> EndingsBare(t.options[i].nextNode) {
      PruneFixpoint(t.options[i].nextNode);
    }
    if Branches(t) {
      var ps := PruneChoices(t, |t.options|);
      if EndingsBare(t) {
        assert ps == t.options;
      } else if Prune(t) == t {
        forall i | 0 <= i < |t.options| ensures EndingsBare(t.options[i].nextNode) {
          assert ps[i] == t.options[i];
        }
      }
    }
  }
}
