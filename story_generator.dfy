/**
  The story generator's database work: one Story row, then one StoryNode row
  per node of the parsed tree, written depth-first through a session that hands
  out fresh ids on flush and makes everything visible on commit.
 */
module StoryGenerator {
  import opened Wrappers
  import opened OptionKeys
  import opened StoryTree

  /** Union of two row maps: the rows of `a` replaced or extended by those of `b`. */
  lemma UnionAssoc(a: map<int, NodeRow>, b: map<int, NodeRow>, c: map<int, NodeRow>)
    ensures (a + b) + c == a + (b + c)
  {
  }

  /** A node without a loop adds its own row and nothing else. */
  lemma AssembleLeaf(rows: map<int, NodeRow>, t: Node, storyId: int, isRoot: bool, id: int)
    requires !Branches(t)
    ensures rows[id := FreshRow(t, storyId, isRoot)] == rows + FlattenNode(t, storyId, isRoot, id).rows
    ensures FlattenNode(t, storyId, isRoot, id).next == id + 1
  {
  }

  /** Replacing a row that only the left operand holds, after the union. */
  lemma ReplaceLeftRow(rows: map<int, NodeRow>, loop: map<int, NodeRow>, id: int, row: NodeRow, row': NodeRow)
    requires id !in loop
    ensures (rows[id := row] + loop)[id] == row
    ensures (rows[id := row] + loop)[id := row'] == rows + loop[id := row']
  {
  }

  /**
    A branching node: its row inserted first, then the loop's rows, then its
    `options` column assigned, is the node's whole materialisation.
   */
  lemma AssembleBranch(rows: map<int, NodeRow>, t: Node, storyId: int, isRoot: bool, id: int)
    requires Branches(t)
    ensures id in rows[id := FreshRow(t, storyId, isRoot)] + FlattenChoices(t, |t.options|, storyId, id + 1).rows
    ensures (rows[id := FreshRow(t, storyId, isRoot)] + FlattenChoices(t, |t.options|, storyId, id + 1).rows)[id] == FreshRow(t, storyId, isRoot)
    ensures (rows[id := FreshRow(t, storyId, isRoot)] + FlattenChoices(t, |t.options|, storyId, id + 1).rows)
              [id := FreshRow(t, storyId, isRoot).(options := Assigned(FlattenChoices(t, |t.options|, storyId, id + 1).refs))]
            == rows + FlattenNode(t, storyId, isRoot, id).rows
    ensures FlattenNode(t, storyId, isRoot, id).next == FlattenChoices(t, |t.options|, storyId, id + 1).next
  {
    ReplaceLeftRow(rows, FlattenChoices(t, |t.options|, storyId, id + 1).rows, id, FreshRow(t, storyId, isRoot),
      FreshRow(t, storyId, isRoot).(options := Assigned(FlattenChoices(t, |t.options|, storyId, id + 1).refs)));
  }

  /** One more turn of the option loop: the child's rows join the loop's rows and its id joins the dict. */
  lemma FlattenChoicesStep(t: Node, k: nat, storyId: int, start: int)
    requires k < |t.options|
    ensures FlattenChoices(t, k + 1, storyId, start) ==
      FlatChoices(FlattenChoices(t, k, storyId, start).rows +
                    FlattenNode(t.options[k].nextNode, storyId, false, FlattenChoices(t, k, storyId, start).next).rows,
                  FlattenChoices(t, k, storyId, start).refs[IndexKey(k) := OptionRef(t.options[k].text, FlattenChoices(t, k, storyId, start).next)],
                  FlattenNode(t.options[k].nextNode, storyId, false, FlattenChoices(t, k, storyId, start).next).next)
  {
  }

  /**
    The database session: the rows written in the current transaction (the
    flushed state), the id counters of the two tables, and the rows that a
    commit has made visible to everybody else.
   */
  class Session {
    var stories: map<int, StoryRow>
    var nodes: map<int, NodeRow>
    var nextStoryId: int
    var nextNodeId: int
    var committedStories: map<int, StoryRow>
    var committedNodes: map<int, NodeRow>

    /** Ids are below their counter, and every node row belongs to an existing story. */
    ghost predicate Valid()
      reads this
    {
      (forall id :: id in stories ==> id < nextStoryId) &&
      (forall id :: id in nodes ==> id < nextNodeId && nodes[id].storyId in stories)
    }

    /** A session on an empty database. */
    constructor ()
      ensures Valid()
      ensures stories == map[] && nodes == map[] && nextStoryId == 1 && nextNodeId == 1
      ensures committedStories == map[] && committedNodes == map[]
    {
      stories, nodes := map[], map[];
      nextStoryId, nextNodeId := 1, 1;
      committedStories, committedNodes := map[], map[];
    }

    /** `db.add(story); db.flush()`: the story row gets the next story id. */
    method AddStory(row: StoryRow) returns (id: int)
      requires Valid()
      modifies this
      ensures Valid()
      ensures id == old(nextStoryId) && id !in old(stories)
      ensures stories == old(stories)[id := row] && nextStoryId == id + 1
      ensures nodes == old(nodes) && nextNodeId == old(nextNodeId)
      ensures committedStories == old(committedStories) && committedNodes == old(committedNodes)
    {
      id := nextStoryId;
      stories := stories[id := row];
      nextStoryId := nextStoryId + 1;
    }

    /** `db.add(node); db.flush()`: the node row gets the next node id. */
    method AddNode(row: NodeRow) returns (id: int)
      requires Valid() && row.storyId in stories
      modifies this
      ensures Valid()
      ensures id == old(nextNodeId) && id !in old(nodes)
      ensures nodes == old(nodes)[id := row] && nextNodeId == id + 1
      ensures stories == old(stories) && nextStoryId == old(nextStoryId)
      ensures committedStories == old(committedStories) && committedNodes == old(committedNodes)
    {
      id := nextNodeId;
      nodes := nodes[id := row];
      nextNodeId := nextNodeId + 1;
    }

    /** `node.options = options_dict; db.flush()`: assigns the column of an existing row. */
    method SetOptions(id: int, entries: map<string, OptionRef>)
      requires Valid() && id in nodes
      modifies this
      ensures Valid()
      ensures nodes == old(nodes)[id := old(nodes)[id].(options := Assigned(entries))]
      ensures nextNodeId == old(nextNodeId)
      ensures stories == old(stories) && nextStoryId == old(nextStoryId)
      ensures committedStories == old(committedStories) && committedNodes == old(committedNodes)
    {
      nodes := nodes[id := nodes[id].(options := Assigned(entries))];
    }

    /** `db.commit()`: the transaction's rows become the visible ones. */
    method Commit()
      requires Valid()
      modifies this
      ensures Valid()
      ensures committedStories == stories && committedNodes == nodes
      ensures stories == old(stories) && nodes == old(nodes)
      ensures nextStoryId == old(nextStoryId) && nextNodeId == old(nextNodeId)
    {
      committedStories, committedNodes := stories, nodes;
    }
  }

  /**
    `_process_story_node`: inserts the node's row, walks its options in order,
    and assigns the dict of `{text, node_id}` entries to the node's row.
    The rows added are exactly those of `FlattenNode`, starting at the next free
    id, which is the id returned; nothing is committed.
   */
  method ProcessStoryNode(db: Session, storyId: int, t: Node, isRoot: bool) returns (id: int)
    requires db.Valid() && storyId in db.stories
    modifies db
    ensures db.Valid()
    ensures id == old(db.nextNodeId)
    ensures db.nodes == old(db.nodes) + FlattenNode(t, storyId, isRoot, id).rows
    ensures db.nextNodeId == FlattenNode(t, storyId, isRoot, id).next
    ensures db.stories == old(db.stories) && db.nextStoryId == old(db.nextStoryId)
    ensures db.committedStories == old(db.committedStories) && db.committedNodes == old(db.committedNodes)
    decreases t
  {
    var row := FreshRow(t, storyId, isRoot);
    id := db.AddNode(row);
    if !t.isEnding && |t.options| > 0 {
      var optionsDict: map<string, OptionRef> := map[];
      for idx := 0 to |t.options|
        invariant db.Valid()
        invariant db.stories == old(db.stories) && db.nextStoryId == old(db.nextStoryId)
        invariant db.committedStories == old(db.committedStories) && db.committedNodes == old(db.committedNodes)
        invariant db.nodes == old(db.nodes)[id := row] + FlattenChoices(t, idx, storyId, id + 1).rows
        invariant optionsDict == FlattenChoices(t, idx, storyId, id + 1).refs
        invariant db.nextNodeId == FlattenChoices(t, idx, storyId, id + 1).next
      {
        var childId := ProcessStoryNode(db, storyId, t.options[idx].nextNode, false);
        FlattenChoicesStep(t, idx, storyId, id + 1);
        UnionAssoc(old(db.nodes)[id := row], FlattenChoices(t, idx, storyId, id + 1).rows,
          FlattenNode(t.options[idx].nextNode, storyId, false, childId).rows);
        optionsDict := optionsDict[IndexKey(idx) := OptionRef(t.options[idx].text, childId)];
      }
      AssembleBranch(old(db.nodes), t, storyId, isRoot, id);
      db.SetOptions(id, optionsDict);
    } else {
      AssembleLeaf(old(db.nodes), t, storyId, isRoot, id);
    }
  }

  /**
    `generate_story` from the Story row on: creates the Story row, materialises
    the tree from its root with `is_root` set, then commits. Returns the story's id.
   */
  method GenerateStory(db: Session, sessionId: string, response: StoryResponse) returns (storyId: int)
    requires db.Valid()
    modifies db
    ensures db.Valid()
    ensures storyId == old(db.nextStoryId) && storyId !in old(db.stories)
    ensures db.stories == old(db.stories)[storyId := StoryRow(response.title, sessionId)]
    ensures db.nodes == old(db.nodes) + FlattenNode(response.rootNode, storyId, true, old(db.nextNodeId)).rows
    ensures db.nextNodeId == FlattenNode(response.rootNode, storyId, true, old(db.nextNodeId)).next
    ensures db.committedStories == db.stories && db.committedNodes == db.nodes
    // exactly one row of the new story is its root, and it is the first row written
    ensures old(db.nextNodeId) in db.nodes && db.nodes[old(db.nextNodeId)].storyId == storyId
    ensures forall id :: id in db.nodes && db.nodes[id].storyId == storyId ==>
      (db.nodes[id].isRoot <==> id == old(db.nextNodeId))
    // the committed rows give the tree back
    ensures Rebuild(db.committedNodes, old(db.nextNodeId), db.nextNodeId) == Some(Prune(response.rootNode))
  {
    storyId := db.AddStory(StoryRow(response.title, sessionId));
    var rootId := ProcessStoryNode(db, storyId, response.rootNode, true);
    db.Commit();
    var f := FlattenNode(response.rootNode, storyId, true, rootId);
    FlattenNodeParts(response.rootNode, storyId, true, rootId);
    FlattenStoryId(response.rootNode, storyId, true, rootId);
    FlattenSingleRoot(response.rootNode, storyId, true, rootId);
    FlattenRebuild(response.rootNode, storyId, true, rootId, db.nodes, db.nextNodeId);
  }
}
