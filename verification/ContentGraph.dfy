/** Validation of workflow graphs and the worklist that finds the reachable nodes
    (apps/runtime-mcp/src/content/validate-content-lib.ts). */
module ContentGraph {
  import opened Option
  import opened Sequences

  datatype Node = Node(id: string, terminal: bool, edges: seq<string>)

  datatype Entry = Entry(path: string, node: string)

  /** Entry points and nodes in the order of the document; the ids are the keys of an object. */
  datatype Graph = Graph(entries: seq<Entry>, nodes: seq<Node>)

  ghost predicate DistinctIds(g: Graph) {
    forall i, j :: 0 <= i < j < |g.nodes| ==> g.nodes[i].id != g.nodes[j].id
  }

  function Find(nodes: seq<Node>, id: string): (r: Option<Node>)
    ensures r.Some? ==> r.value in nodes && r.value.id == id
    ensures r.None? ==> forall n :: n in nodes ==> n.id != id
  {
    if nodes == [] then None else if nodes[0].id == id then Some(nodes[0]) else Find(nodes[1..], id)
  }

  predicate Defined(g: Graph, id: string) {
    Find(g.nodes, id).Some?
  }

  /** The edge targets of an id; a dangling id has none. */
  function Targets(g: Graph, id: string): seq<string> {
    var node := Find(g.nodes, id);
    if node.Some? then node.value.edges else []
  }

  predicate IsEntry(g: Graph, id: string) {
    exists e :: e in g.entries && e.node == id
  }

  /** A walk starts at an entry point and follows edges; it may end at a dangling id. */
  predicate IsWalk(g: Graph, walk: seq<string>) {
    && walk != []
    && IsEntry(g, walk[0])
    && forall i :: 0 < i < |walk| ==> walk[i] in Targets(g, walk[i - 1])
  }

  ghost predicate Reachable(g: Graph, id: string) {
    exists walk :: IsWalk(g, walk) && Last(walk) == id
  }

  lemma EntryIsReachable(g: Graph, e: Entry)
    requires e in g.entries
    ensures Reachable(g, e.node)
  {
    assert IsWalk(g, [e.node]) && Last([e.node]) == e.node;
  }

  lemma WalkExtends(g: Graph, walk: seq<string>, to: string)
    requires IsWalk(g, walk) && to in Targets(g, Last(walk))
    ensures IsWalk(g, walk + [to]) && Last(walk + [to]) == to
  {
    var longer := walk + [to];
    assert longer[0] == walk[0];
    assert forall i :: 0 <= i < |walk| ==> longer[i] == walk[i];
  }

  lemma TargetIsReachable(g: Graph, id: string, to: string)
    requires Reachable(g, id) && to in Targets(g, id)
    ensures Reachable(g, to)
  {
    var walk :| IsWalk(g, walk) && Last(walk) == id;
    WalkExtends(g, walk, to);
  }

  // ----- The worklist -----

  /** Every id that can be queued. */
  function Mentioned(nodes: seq<Node>): set<string> {
    set i, j | 0 <= i < |nodes| && 0 <= j < |nodes[i].edges| :: nodes[i].edges[j]
  }

  function EntryIds(entries: seq<Entry>): (r: seq<string>)
    ensures |r| == |entries| && forall i :: 0 <= i < |r| ==> r[i] == entries[i].node
  {
    seq(|entries|, i requires 0 <= i < |entries| => entries[i].node)
  }

  function Universe(g: Graph): set<string> {
    Mentioned(g.nodes) + set id | id in EntryIds(g.entries)
  }

  lemma TargetsAreMentioned(g: Graph, id: string)
    ensures forall to :: to in Targets(g, id) ==> to in Universe(g)
  {
    var node := Find(g.nodes, id);
    if node.Some? {
      var i :| 0 <= i < |g.nodes| && g.nodes[i] == node.value;
      assert forall j :: 0 <= j < |g.nodes[i].edges| ==> g.nodes[i].edges[j] in Mentioned(g.nodes);
    }
  }

  /** Nothing reached so far escapes the reached ids and the queue. */
  ghost predicate Closed(g: Graph, reached: set<string>, queue: seq<string>) {
    && (forall e :: e in g.entries ==> e.node in reached || e.node in queue)
    && (forall id, to :: id in reached && to in Targets(g, id) ==> to in reached || to in queue)
  }

  /** A closed set with an empty queue holds every reachable id. */
  lemma {:induction false} ClosedHoldsWalks(g: Graph, reached: set<string>, walk: seq<string>)
    requires Closed(g, reached, []) && IsWalk(g, walk)
    ensures Last(walk) in reached
    decreases |walk|
  {
    if |walk| > 1 {
      var front := walk[..|walk| - 1];
      assert IsWalk(g, front);
      ClosedHoldsWalks(g, reached, front);
      assert walk[|walk| - 1] in Targets(g, Last(front));
    }
  }

  lemma ShrinksUniverse(universe: set<string>, reached: set<string>, id: string)
    requires id in universe && id !in reached
    ensures |universe - (reached + {id})| < |universe - reached|
  {
    assert universe - (reached + {id}) == (universe - reached) - {id};
  }

  /** Pushing the edge targets that are not reached yet. */
  method PushTargets(edges: seq<string>, reached: set<string>, before: seq<string>) returns (queue: seq<string>)
    ensures |queue| >= |before| && queue[..|before|] == before
    ensures forall id :: id in queue <==> id in before || (id in edges && id !in reached)
  {
    queue := before;
    for i := 0 to |edges|
      invariant |queue| >= |before| && queue[..|before|] == before
      invariant forall id :: id in queue <==> id in before || (id in edges[..i] && id !in reached)
    {
      assert edges[..i + 1] == edges[..i] + [edges[i]];
      if edges[i] !in reached {
        queue := queue + [edges[i]];
      }
    }
    assert edges[..|edges|] == edges;
  }

  /** Between two turns of the loop. */
  ghost predicate Explored(g: Graph, reached: set<string>, queue: seq<string>) {
    && Closed(g, reached, queue)
    && (forall id :: id in queue ==> Reachable(g, id) && id in Universe(g))
    && (forall id :: id in reached ==> Reachable(g, id))
  }

  lemma StartsExplored(g: Graph)
    ensures Explored(g, {}, EntryIds(g.entries))
  {
    var queue := EntryIds(g.entries);
    forall id | id in queue
      ensures Reachable(g, id)
    {
      var i :| 0 <= i < |queue| && queue[i] == id;
      EntryIsReachable(g, g.entries[i]);
    }
    forall e | e in g.entries
      ensures e.node in queue
    {
      var i :| 0 <= i < |g.entries| && g.entries[i] == e;
      assert queue[i] == e.node;
    }
  }

  lemma SkipKeepsExplored(g: Graph, reached: set<string>, queue: seq<string>)
    requires queue != [] && Explored(g, reached, queue) && queue[0] in reached
    ensures Explored(g, reached, queue[1..])
  {
    assert forall id :: id in queue <==> id == queue[0] || id in queue[1..];
  }

  lemma VisitKeepsExplored(g: Graph, reached: set<string>, queue: seq<string>, next: seq<string>)
    requires queue != [] && Explored(g, reached, queue)
    requires forall id :: id in next <==>
               id in queue[1..] || (id in Targets(g, queue[0]) && id !in reached + {queue[0]})
    ensures Explored(g, reached + {queue[0]}, next)
  {
    assert forall id :: id in queue <==> id == queue[0] || id in queue[1..];
    TargetsAreMentioned(g, queue[0]);
    forall to | to in Targets(g, queue[0])
      ensures Reachable(g, to)
    {
      TargetIsReachable(g, queue[0], to);
    }
  }

  /** reachableFromEntries: exactly the ids at the end of some walk from an entry point, dangling ones included. */
  method ReachableFromEntries(g: Graph) returns (reached: set<string>)
    ensures forall id :: id in reached <==> Reachable(g, id)
  {
    reached := {};
    var queue := EntryIds(g.entries);
    StartsExplored(g);
    while queue != []
      invariant Explored(g, reached, queue)
      decreases |Universe(g) - reached|, |queue|
    {
      var current := queue[0];
      if current in reached {
        SkipKeepsExplored(g, reached, queue);
        queue := queue[1..];
        continue;
      }
      ShrinksUniverse(Universe(g), reached, current);
      ghost var before, waiting := reached, queue;
      queue := queue[1..];
      reached := reached + {current};
      var node := Find(g.nodes, current);
      if node.Some? {
        queue := PushTargets(node.value.edges, reached, queue);
      }
      VisitKeepsExplored(g, before, waiting, queue);
    }
    forall id | Reachable(g, id)
      ensures id in reached
    {
      var walk :| IsWalk(g, walk) && Last(walk) == id;
      ClosedHoldsWalks(g, reached, walk);
    }
  }

  // ----- The validator -----

  datatype Error =
    | UnknownEntry(path: string, entry: string)
    | TerminalHasEdges(id: string)
    | NoEdges(id: string)
    | UnknownTarget(id: string, to: string)
    | Orphan(id: string)

  ghost predicate NodeBreaks(g: Graph, n: Node, e: Error) {
    || (n.terminal && n.edges != [] && e == TerminalHasEdges(n.id))
    || (!n.terminal && n.edges == [] && e == NoEdges(n.id))
    || (!n.terminal && exists to :: to in n.edges && !Defined(g, to) && e == UnknownTarget(n.id, to))
  }

  /** The rules, one kind of error each. */
  ghost predicate Breaks(g: Graph, e: Error) {
    || (exists entry :: entry in g.entries && !Defined(g, entry.node) && e == UnknownEntry(entry.path, entry.node))
    || (exists n :: n in g.nodes && NodeBreaks(g, n, e))
    || (exists n :: n in g.nodes && !Reachable(g, n.id) && e == Orphan(n.id))
  }

  method CheckEntries(g: Graph) returns (errors: seq<Error>)
    ensures forall e :: e in errors <==>
              exists entry :: entry in g.entries && !Defined(g, entry.node) && e == UnknownEntry(entry.path, entry.node)
  {
    errors := [];
    for i := 0 to |g.entries|
      invariant forall e :: e in errors <==>
                  exists j :: 0 <= j < i && !Defined(g, g.entries[j].node)
                              && e == UnknownEntry(g.entries[j].path, g.entries[j].node)
    {
      if !Defined(g, g.entries[i].node) {
        errors := errors + [UnknownEntry(g.entries[i].path, g.entries[i].node)];
      }
    }
  }

  method CheckNode(g: Graph, n: Node) returns (errors: seq<Error>)
    ensures forall e :: e in errors <==> NodeBreaks(g, n, e)
  {
    errors := [];
    if n.terminal {
      if |n.edges| > 0 {
        errors := errors + [TerminalHasEdges(n.id)];
      }
      return;
    }
    if |n.edges| < 1 {
      errors := errors + [NoEdges(n.id)];
    }
    ghost var first := errors;
    for i := 0 to |n.edges|
      invariant forall e :: e in errors <==>
                  e in first || exists j :: 0 <= j < i && !Defined(g, n.edges[j]) && e == UnknownTarget(n.id, n.edges[j])
    {
      if !Defined(g, n.edges[i]) {
        errors := errors + [UnknownTarget(n.id, n.edges[i])];
      }
    }
  }

  method CheckNodes(g: Graph) returns (errors: seq<Error>)
    ensures forall e :: e in errors <==> exists n :: n in g.nodes && NodeBreaks(g, n, e)
  {
    errors := [];
    for i := 0 to |g.nodes|
      invariant forall e :: e in errors <==> exists j :: 0 <= j < i && NodeBreaks(g, g.nodes[j], e)
    {
      var more := CheckNode(g, g.nodes[i]);
      errors := errors + more;
    }
  }

  method CheckOrphans(g: Graph, reached: set<string>) returns (errors: seq<Error>)
    requires forall id :: id in reached <==> Reachable(g, id)
    ensures forall e :: e in errors <==> exists n :: n in g.nodes && !Reachable(g, n.id) && e == Orphan(n.id)
  {
    errors := [];
    for i := 0 to |g.nodes|
      invariant forall e :: e in errors <==>
                  exists j :: 0 <= j < i && !Reachable(g, g.nodes[j].id) && e == Orphan(g.nodes[j].id)
    {
      if g.nodes[i].id !in reached {
        errors := errors + [Orphan(g.nodes[i].id)];
      }
    }
  }

  /** validateGraphStructure reports exactly the broken rules. */
  method ValidateGraphStructure(g: Graph) returns (errors: seq<Error>)
    ensures forall e :: e in errors <==> Breaks(g, e)
  {
    errors := CheckEntries(g);
    var nodeErrors := CheckNodes(g);
    var reached := ReachableFromEntries(g);
    var orphans := CheckOrphans(g, reached);
    errors := errors + nodeErrors + orphans;
  }

  // ----- What an accepted graph guarantees -----

  /** The end of a walk is a defined node where the workflow can stop, or from which it can go on. */
  ghost predicate EndsWell(g: Graph, id: string) {
    var node := Find(g.nodes, id);
    node.Some? && (node.value.terminal <==> node.value.edges == [])
  }

  ghost predicate Accepted(g: Graph) {
    forall e :: !Breaks(g, e)
  }

  ghost predicate Runs(g: Graph) {
    && (forall n :: n in g.nodes ==> Reachable(g, n.id))
    && (forall walk :: IsWalk(g, walk) ==> EndsWell(g, Last(walk)))
  }

  lemma AcceptedNode(g: Graph, n: Node)
    requires Accepted(g) && n in g.nodes
    ensures n.terminal <==> n.edges == []
    ensures !n.terminal ==> forall to :: to in n.edges ==> Defined(g, to)
    ensures Reachable(g, n.id)
  {
    assert !Breaks(g, TerminalHasEdges(n.id));
    assert !NodeBreaks(g, n, TerminalHasEdges(n.id));
    assert !Breaks(g, NoEdges(n.id));
    assert !NodeBreaks(g, n, NoEdges(n.id));
    forall to | to in n.edges && !n.terminal
      ensures Defined(g, to)
    {
      assert !Breaks(g, UnknownTarget(n.id, to));
      assert !NodeBreaks(g, n, UnknownTarget(n.id, to));
    }
    assert !Breaks(g, Orphan(n.id));
  }

  lemma {:induction false} AcceptedWalk(g: Graph, walk: seq<string>)
    requires Accepted(g) && IsWalk(g, walk)
    ensures EndsWell(g, Last(walk))
    decreases |walk|
  {
    var id := Last(walk);
    if |walk| == 1 {
      var e :| e in g.entries && e.node == id;
      assert !Breaks(g, UnknownEntry(e.path, e.node));
      assert Defined(g, id);
    } else {
      var front := walk[..|walk| - 1];
      assert IsWalk(g, front);
      AcceptedWalk(g, front);
      var from := Find(g.nodes, Last(front)).value;
      AcceptedNode(g, from);
      assert id in from.edges;
    }
    AcceptedNode(g, Find(g.nodes, id).value);
  }

  /** From the end of a walk in an accepted graph the workflow is done or can step to a defined node. */
  lemma NeverStuck(g: Graph, walk: seq<string>)
    requires Accepted(g) && IsWalk(g, walk)
    ensures var node := Find(g.nodes, Last(walk));
            && node.Some?
            && (node.value.terminal
                || exists to :: to in node.value.edges && Defined(g, to) && IsWalk(g, walk + [to]))
  {
    AcceptedWalk(g, walk);
    var node := Find(g.nodes, Last(walk)).value;
    AcceptedNode(g, node);
    if !node.terminal {
      WalkExtends(g, walk, node.edges[0]);
      assert node.edges[0] in node.edges;
    }
  }

  lemma {:induction false} FindIsUnique(nodes: seq<Node>, n: Node)
    requires forall i, j :: 0 <= i < j < |nodes| ==> nodes[i].id != nodes[j].id
    requires n in nodes
    ensures Find(nodes, n.id) == Some(n)
  {
    if nodes[0] != n {
      var rest := nodes[1..];
      assert forall i :: 0 <= i < |rest| ==> rest[i] == nodes[i + 1];
      assert n in rest;
      FindIsUnique(rest, n);
    }
  }

  lemma RunsNode(g: Graph, n: Node)
    requires DistinctIds(g) && Runs(g) && n in g.nodes
    ensures n.terminal <==> n.edges == []
    ensures forall to :: to in n.edges ==> Defined(g, to)
  {
    FindIsUnique(g.nodes, n);
    var walk :| IsWalk(g, walk) && Last(walk) == n.id;
    assert EndsWell(g, n.id);
    forall to | to in n.edges
      ensures Defined(g, to)
    {
      WalkExtends(g, walk, to);
      assert EndsWell(g, Last(walk + [to]));
    }
  }

  /** The validator accepts exactly the graphs in which every node is reachable and every walk from an entry
      point ends at a node where the workflow can stop or go on. */
  lemma AcceptedIffRuns(g: Graph)
    requires DistinctIds(g)
    ensures Accepted(g) <==> Runs(g)
  {
    if Accepted(g) {
      forall n | n in g.nodes
        ensures Reachable(g, n.id)
      {
        AcceptedNode(g, n);
      }
      forall walk | IsWalk(g, walk)
        ensures EndsWell(g, Last(walk))
      {
        AcceptedWalk(g, walk);
      }
    }
    if Runs(g) {
      forall e
        ensures !Breaks(g, e)
      {
        forall n | n in g.nodes
          ensures !NodeBreaks(g, n, e)
        {
          RunsNode(g, n);
        }
        forall entry | entry in g.entries
          ensures Defined(g, entry.node)
        {
          EntryIsReachable(g, entry);
          var walk :| IsWalk(g, walk) && Last(walk) == entry.node;
          assert EndsWell(g, Last(walk));
        }
      }
    }
  }
}
