/**
 Source-graph validation: the explicit-stack depth-first search for relationship cycles,
 exact against a path-based definition of cycles, and the bounded redirect and provenance
 walks.

 Node identifiers are validated ordered strings; only their identity and order matter, so
 they are modelled as naturals.
 */
module SourceGraphs {
  import opened Wrappers

  type NodeId = nat

  datatype NodeKind = Media | Collection | Live | Redirect | MetadataRecord | UnsupportedOrProtected

  datatype EdgeKind =
    | Contains | Embeds | TransparentlyOverlays | Alternate
    | Complementary | Additional | Continuation | DerivedOutput

  /** The identities of a node are listed in the order item, representations, tracks, assets, derived outputs. */
  datatype Node = Node(
    id: NodeId,
    kind: NodeKind,
    identities: seq<nat>,
    extractorKey: string,
    sourceIdentity: string,
    canonicalUrl: string,
    parent: Option<NodeId>,
    title: Option<string>,
    description: Option<string>,
    extensionsValid: bool)

  datatype Edge = Edge(id: nat, from: NodeId, to: NodeId, kind: EdgeKind)

  datatype Continuation = Continuation(id: nat, owner: NodeId, token: string, extensionsValid: bool)

  datatype Graph = Graph(
    schema: SchemaVersion,
    roots: seq<NodeId>,
    nodes: seq<Node>,
    edges: seq<Edge>,
    continuations: seq<Continuation>)

  datatype Limits = Limits(
    major: nat,
    minimumMinor: nat,
    maximumMinor: nat,
    maximumRoots: nat,
    maximumNodes: nat,
    maximumEdges: nat,
    maximumContinuations: nat,
    maximumIdentities: nat,
    maximumStringBytes: nat,
    maximumRedirects: nat,
    maximumProvenance: nat)

  predicate CycleIsForbidden(kind: EdgeKind) {
    kind.Contains? || kind.Embeds? || kind.TransparentlyOverlays? || kind.Continuation?
  }

  // ---------------------------------------------------------------------------
  // Paths and cycles

  /** Some containment, embedding, overlay or continuation edge of the graph leads from `a` to `b`. */
  ghost predicate Linked(g: Graph, a: NodeId, b: NodeId) {
    exists i :: 0 <= i < |g.edges| && g.edges[i].from == a && g.edges[i].to == b
                && g.edges[i].kind in {Contains, Embeds, TransparentlyOverlays, EdgeKind.Continuation}
  }

  ghost predicate GraphPath(g: Graph, p: seq<NodeId>) {
    forall i :: 0 <= i < |p| - 1 ==> Linked(g, p[i], p[i + 1])
  }

  /** `n` can be reached from itself over at least one traversable edge. */
  ghost predicate LiesOnCycle(g: Graph, n: NodeId) {
    exists p :: |p| >= 2 && p[0] == n && p[|p| - 1] == n && GraphPath(g, p)
  }

  type Adjacency = map<NodeId, set<NodeId>>

  function Targets(adj: Adjacency, n: NodeId): set<NodeId> {
    if n in adj then adj[n] else {}
  }

  ghost predicate Path(adj: Adjacency, p: seq<NodeId>) {
    forall i :: 0 <= i < |p| - 1 ==> p[i + 1] in Targets(adj, p[i])
  }

  ghost predicate Cycle(adj: Adjacency, p: seq<NodeId>, n: NodeId) {
    |p| >= 2 && p[0] == n && p[|p| - 1] == n && Path(adj, p)
  }

  ghost predicate OnCycle(adj: Adjacency, n: NodeId) {
    exists p :: Cycle(adj, p, n)
  }

  ghost predicate Represents(adj: Adjacency, g: Graph) {
    forall a, b :: b in Targets(adj, a) <==> Linked(g, a, b)
  }

  lemma CyclesAgree(adj: Adjacency, g: Graph, n: NodeId)
    requires Represents(adj, g)
    ensures OnCycle(adj, n) <==> LiesOnCycle(g, n)
  {
    if OnCycle(adj, n) {
      var p :| Cycle(adj, p, n);
      assert GraphPath(g, p);
    }
    if LiesOnCycle(g, n) {
      var p :| |p| >= 2 && p[0] == n && p[|p| - 1] == n && GraphPath(g, p);
      assert Cycle(adj, p, n);
    }
  }

  // ---------------------------------------------------------------------------
  // What the search keeps

  type Stack = seq<(NodeId, bool)>

  /** Finish order: every target of a finished node finished before it. */
  ghost predicate Settled(adj: Adjacency, order: seq<NodeId>) {
    forall i, s :: 0 <= i < |order| && s in Targets(adj, order[i]) ==> s in order[..i]
  }

  /** The exit marks sit at `marks`, bottom up, and carry the nodes of `trail`. */
  ghost predicate Marked(stack: Stack, trail: seq<NodeId>, marks: seq<nat>) {
    && |marks| == |trail|
    && (forall m :: 0 <= m < |marks| ==> marks[m] < |stack| && stack[marks[m]] == (trail[m], true))
    && (forall m, m' :: 0 <= m < m' < |marks| ==> marks[m] < marks[m'])
    && (forall j :: 0 <= j < |stack| && stack[j].1 ==> j in marks)
  }

  /** The nodes being visited form one path, without repetition. */
  ghost predicate Trail(adj: Adjacency, trail: seq<NodeId>) {
    && Path(adj, trail)
    && (forall m, m' :: 0 <= m < m' < |trail| ==> trail[m] != trail[m'])
  }

  /** An entry waiting above a mark is not the marked node, and is a target of the nearest mark below it. */
  ghost predicate EntryOk(adj: Adjacency, stack: Stack, trail: seq<NodeId>, marks: seq<nat>, j: nat, m: nat)
    requires |marks| == |trail| && j < |stack| && m < |marks|
  {
    !stack[j].1 && marks[m] < j ==>
      && stack[j].0 != trail[m]
      && (m + 1 == |marks| || j < marks[m + 1] ==> stack[j].0 in Targets(adj, trail[m]))
  }

  ghost predicate Pending(adj: Adjacency, stack: Stack, trail: seq<NodeId>, marks: seq<nat>)
    requires |marks| == |trail|
  {
    forall j, m :: 0 <= j < |stack| && 0 <= m < |marks| ==> EntryOk(adj, stack, trail, marks, j, m)
  }

  /** A target of a node being visited is finished, being visited further up, or still waiting above it. */
  ghost predicate Covered(adj: Adjacency, stack: Stack, trail: seq<NodeId>, marks: seq<nat>, order: seq<NodeId>)
    requires |marks| == |trail|
  {
    forall m, s :: 0 <= m < |trail| && s in Targets(adj, trail[m]) ==>
      s in order || s in trail[m + 1..] || WaitsAbove(stack, s, marks[m])
  }

  ghost predicate WaitsAbove(stack: Stack, s: NodeId, mark: nat) {
    exists j :: mark < j < |stack| && stack[j] == (s, false)
  }

  ghost predicate Searching(adj: Adjacency, stack: Stack, trail: seq<NodeId>, marks: seq<nat>, order: seq<NodeId>) {
    && Settled(adj, order)
    && Marked(stack, trail, marks)
    && Trail(adj, trail)
    && Pending(adj, stack, trail, marks)
    && Covered(adj, stack, trail, marks, order)
  }

  lemma SettledAppend(adj: Adjacency, order: seq<NodeId>, n: NodeId)
    requires Settled(adj, order) && forall s :: s in Targets(adj, n) ==> s in order
    ensures Settled(adj, order + [n])
  {
    forall i, s | 0 <= i < |order| + 1 && s in Targets(adj, (order + [n])[i]) ensures s in (order + [n])[..i] {
      assert (order + [n])[..i] == order[..i];
      if i == |order| { assert order[..i] == order; }
    }
  }

  /** Popping an exit mark finishes its node: by then all its targets are finished. */
  lemma PopExit(adj: Adjacency, stack: Stack, trail: seq<NodeId>, marks: seq<nat>, order: seq<NodeId>)
    requires Searching(adj, stack, trail, marks, order)
    requires |stack| > 0 && stack[|stack| - 1].1
    ensures trail != [] && |marks| == |trail| && trail[|trail| - 1] == stack[|stack| - 1].0
    ensures Searching(adj, stack[..|stack| - 1], trail[..|trail| - 1], marks[..|marks| - 1],
                      order + [stack[|stack| - 1].0])
  {
    var top := |stack| - 1;
    assert top in marks;
    var last := |marks| - 1;
    assert marks[last] == top;
    var n := stack[top].0;
    forall s | s in Targets(adj, n) ensures s in order {
      assert trail[last] == n;
      assert trail[last + 1..] == [];
    }
    SettledAppend(adj, order, n);
    PopMarkPending(adj, stack, trail, marks);
    PopExitMarked(stack, trail, marks);
    PopExitCovered(adj, stack, trail, marks, order);
    hide Pending, Covered, Marked, Settled;
  }

  lemma PopExitMarked(stack: Stack, trail: seq<NodeId>, marks: seq<nat>)
    requires Marked(stack, trail, marks) && |marks| > 0 && marks[|marks| - 1] == |stack| - 1
    ensures Marked(stack[..|stack| - 1], trail[..|trail| - 1], marks[..|marks| - 1])
  {
    var (stack', marks') := (stack[..|stack| - 1], marks[..|marks| - 1]);
    forall j | 0 <= j < |stack'| && stack'[j].1 ensures j in marks' {
      assert j in marks;
      var m :| 0 <= m < |marks| && marks[m] == j;
      assert marks'[m] == j;
    }
  }

  lemma PopExitCovered(adj: Adjacency, stack: Stack, trail: seq<NodeId>, marks: seq<nat>, order: seq<NodeId>)
    requires Marked(stack, trail, marks) && Covered(adj, stack, trail, marks, order)
    requires |marks| > 0 && marks[|marks| - 1] == |stack| - 1
    ensures Covered(adj, stack[..|stack| - 1], trail[..|trail| - 1], marks[..|marks| - 1],
                    order + [trail[|trail| - 1]])
  {
    var last := |marks| - 1;
    var (stack', trail', marks') := (stack[..|stack| - 1], trail[..last], marks[..last]);
    forall m, s | 0 <= m < |trail'| && s in Targets(adj, trail'[m])
      ensures s in order + [trail[last]] || s in trail'[m + 1..] || WaitsAbove(stack', s, marks'[m])
    {
      assert s in Targets(adj, trail[m]);
      if s in trail[m + 1..] {
        assert trail[m + 1..] == trail'[m + 1..] + [trail[last]];
      } else if s !in order {
        var j :| marks[m] < j < |stack| && stack[j] == (s, false);
        assert stack'[j] == (s, false);
      }
    }
  }

  lemma PopPending(adj: Adjacency, stack: Stack, trail: seq<NodeId>, marks: seq<nat>)
    requires |stack| > 0 && |marks| == |trail| && Pending(adj, stack, trail, marks)
    ensures Pending(adj, stack[..|stack| - 1], trail, marks)
  {
    var stack' := stack[..|stack| - 1];
    forall j, m | 0 <= j < |stack'| && 0 <= m < |marks| ensures EntryOk(adj, stack', trail, marks, j, m) {
      assert EntryOk(adj, stack, trail, marks, j, m);
    }
  }

  lemma PopMarkPending(adj: Adjacency, stack: Stack, trail: seq<NodeId>, marks: seq<nat>)
    requires Marked(stack, trail, marks) && Pending(adj, stack, trail, marks)
    requires |marks| > 0 && marks[|marks| - 1] == |stack| - 1
    ensures Pending(adj, stack[..|stack| - 1], trail[..|trail| - 1], marks[..|marks| - 1])
  {
    var (stack', trail', marks') := (stack[..|stack| - 1], trail[..|trail| - 1], marks[..|marks| - 1]);
    forall j, m | 0 <= j < |stack'| && 0 <= m < |marks'| ensures EntryOk(adj, stack', trail', marks', j, m) {
      assert EntryOk(adj, stack, trail, marks, j, m);
    }
  }

  /** Popping a finished node changes nothing. */
  lemma PopFinished(adj: Adjacency, stack: Stack, trail: seq<NodeId>, marks: seq<nat>, order: seq<NodeId>)
    requires Searching(adj, stack, trail, marks, order)
    requires |stack| > 0 && !stack[|stack| - 1].1 && stack[|stack| - 1].0 in order
    ensures Searching(adj, stack[..|stack| - 1], trail, marks, order)
  {
    var top := |stack| - 1;
    var stack' := stack[..top];
    PopPending(adj, stack, trail, marks);
    forall m, s | 0 <= m < |trail| && s in Targets(adj, trail[m])
      ensures s in order || s in trail[m + 1..] || WaitsAbove(stack', s, marks[m])
    {
      if s !in order && s !in trail[m + 1..] {
        var j :| marks[m] < j < |stack| && stack[j] == (s, false);
        assert stack'[j] == (s, false);
      }
    }
  }

  function Waiting(targets: seq<NodeId>): Stack {
    seq(|targets|, i requires 0 <= i < |targets| => (targets[i], false))
  }

  /** Entering a node extends the path and leaves its unfinished targets waiting above its mark. */
  lemma Enter(adj: Adjacency, stack: Stack, trail: seq<NodeId>, marks: seq<nat>, order: seq<NodeId>,
              pushed: seq<NodeId>)
    requires Searching(adj, stack, trail, marks, order)
    requires |stack| > 0 && !stack[|stack| - 1].1
    requires var n := stack[|stack| - 1].0;
             && (forall t :: t in pushed ==> t in Targets(adj, n) && t !in trail && t != n)
             && (forall t :: t in Targets(adj, n) ==> t in order || t in pushed)
    ensures var top := |stack| - 1; var n := stack[top].0;
            && n !in trail
            && Searching(adj, stack[..top] + [(n, true)] + Waiting(pushed), trail + [n], marks + [top], order)
  {
    var top := |stack| - 1;
    var n := stack[top].0;
    forall m | 0 <= m < |marks| ensures marks[m] < top && trail[m] != n {
      assert EntryOk(adj, stack, trail, marks, top, m);
    }
    var (stack', trail', marks') := (stack[..top] + [(n, true)] + Waiting(pushed), trail + [n], marks + [top]);
    EnterMarked(stack, trail, marks, pushed);
    assert Trail(adj, trail') by {
      if trail != [] {
        assert EntryOk(adj, stack, trail, marks, top, |marks| - 1);
      }
    }
    EnterPending(adj, stack, trail, marks, pushed);
    EnterCovered(adj, stack, trail, marks, order, pushed);
  }

  lemma EnterMarked(stack: Stack, trail: seq<NodeId>, marks: seq<nat>, pushed: seq<NodeId>)
    requires Marked(stack, trail, marks) && |stack| > 0 && !stack[|stack| - 1].1
    ensures var top := |stack| - 1; var n := stack[top].0;
            Marked(stack[..top] + [(n, true)] + Waiting(pushed), trail + [n], marks + [top])
  {
    var top := |stack| - 1;
    var n := stack[top].0;
    var (stack', trail', marks') := (stack[..top] + [(n, true)] + Waiting(pushed), trail + [n], marks + [top]);
    forall m | 0 <= m < |marks| ensures marks[m] < top && stack'[marks[m]] == stack[marks[m]] {}
    forall j | 0 <= j < |stack'| && stack'[j].1 ensures j in marks' {
      if j < top {
        assert stack[j].1;
        assert j in marks;
      } else if j == top {
        assert marks'[|marks|] == j;
      }
    }
  }

  lemma EnterPending(adj: Adjacency, stack: Stack, trail: seq<NodeId>, marks: seq<nat>, pushed: seq<NodeId>)
    requires Marked(stack, trail, marks) && Pending(adj, stack, trail, marks)
    requires |stack| > 0 && !stack[|stack| - 1].1
    requires forall t :: t in pushed ==>
               t in Targets(adj, stack[|stack| - 1].0) && t !in trail && t != stack[|stack| - 1].0
    ensures var top := |stack| - 1; var n := stack[top].0;
            Pending(adj, stack[..top] + [(n, true)] + Waiting(pushed), trail + [n], marks + [top])
  {
    var top := |stack| - 1;
    var n := stack[top].0;
    var (stack', trail', marks') := (stack[..top] + [(n, true)] + Waiting(pushed), trail + [n], marks + [top]);
    forall j, m | 0 <= j < |stack'| && 0 <= m < |marks'| ensures EntryOk(adj, stack', trail', marks', j, m) {
      if j < top {
        assert stack'[j] == stack[j];
        if m < |marks| { assert EntryOk(adj, stack, trail, marks, j, m); }
      } else if j > top {
        assert stack'[j].0 == pushed[j - top - 1];
        assert pushed[j - top - 1] in pushed;
        if m < |marks| { assert trail[m] in trail; }
      }
    }
  }

  lemma EnterCovered(adj: Adjacency, stack: Stack, trail: seq<NodeId>, marks: seq<nat>, order: seq<NodeId>,
                     pushed: seq<NodeId>)
    requires Marked(stack, trail, marks) && Covered(adj, stack, trail, marks, order)
    requires |stack| > 0 && !stack[|stack| - 1].1
    requires forall t :: t in Targets(adj, stack[|stack| - 1].0) ==> t in order || t in pushed
    ensures var top := |stack| - 1; var n := stack[top].0;
            Covered(adj, stack[..top] + [(n, true)] + Waiting(pushed), trail + [n], marks + [top], order)
  {
    var top := |stack| - 1;
    var n := stack[top].0;
    var (stack', trail', marks') := (stack[..top] + [(n, true)] + Waiting(pushed), trail + [n], marks + [top]);
    forall m, s | 0 <= m < |trail'| && s in Targets(adj, trail'[m])
      ensures s in order || s in trail'[m + 1..] || WaitsAbove(stack', s, marks'[m])
    {
      if s !in order {
        if m == |trail| {
          var k :| 0 <= k < |pushed| && pushed[k] == s;
          assert stack'[top + 1 + k] == (s, false);
        } else if s in trail[m + 1..] {
          assert trail'[m + 1..] == trail[m + 1..] + [n];
        } else {
          assert s in Targets(adj, trail[m]);
          var j :| marks[m] < j < |stack| && stack[j] == (s, false);
          if j == top {
            assert trail'[m + 1..] == trail[m + 1..] + [n];
          } else {
            assert stack'[j] == (s, false);
          }
        }
      }
    }
  }

  // ---------------------------------------------------------------------------
  // Why the search is exact

  /** Meeting a node of the current path closes a cycle through it. */
  lemma TrailClosesCycle(adj: Adjacency, trail: seq<NodeId>, t: NodeId)
    requires Path(adj, trail) && trail != [] && t in trail && t in Targets(adj, trail[|trail| - 1])
    ensures OnCycle(adj, t)
  {
    var m :| 0 <= m < |trail| && trail[m] == t;
    var p := trail[m..] + [t];
    forall i | 0 <= i < |p| - 1 ensures p[i + 1] in Targets(adj, p[i]) {
      assert p[i] == trail[m + i];
      if i + 1 < |p| - 1 { assert p[i + 1] == trail[m + i + 1]; }
    }
    assert Cycle(adj, p, t);
  }

  /** A cycle may be entered one step later. */
  lemma Rotate(adj: Adjacency, p: seq<NodeId>, n: NodeId)
    requires Cycle(adj, p, n)
    ensures OnCycle(adj, p[1])
  {
    var q := p[1..] + [p[1]];
    forall i | 0 <= i < |q| - 1 ensures q[i + 1] in Targets(adj, q[i]) {
      assert q[i] == p[i + 1];
      if i + 1 < |q| - 1 {
        assert q[i + 1] == p[i + 2];
      } else {
        assert q[i] == p[|p| - 1] == p[0];
      }
    }
    assert Cycle(adj, q, p[1]);
  }

  /** No finished node lies on a cycle. */
  lemma {:induction false} FinishedIsAcyclic(adj: Adjacency, order: seq<NodeId>, i: nat)
    requires Settled(adj, order) && i < |order|
    ensures !OnCycle(adj, order[i])
  {
    if OnCycle(adj, order[i]) {
      var p :| Cycle(adj, p, order[i]);
      assert p[1] in Targets(adj, p[0]);
      assert p[1] in order[..i];
      var k :| 0 <= k < i && order[k] == p[1];
      Rotate(adj, p, order[i]);
      FinishedIsAcyclic(adj, order, k);
    }
  }

  // ---------------------------------------------------------------------------
  // The search itself

  datatype GraphError =
    | InvalidSchema(received: SchemaVersion)
    | RootLimit(actual: nat, maximum: nat)
    | NodeLimit(actual: nat, maximum: nat)
    | EdgeLimit(actual: nat, maximum: nat)
    | ContinuationLimit(actual: nat, maximum: nat)
    | IdentityLimit(actual: nat, maximum: nat)
    | TokenLimit(actual: nat, maximum: nat)
    | InvalidString(node: NodeId)
    | StringTooLong(node: NodeId, actual: nat, maximum: nat)
    | DuplicateEntity(identity: nat)
    | AmbiguousCanonicalSource(canonicalUrl: string, sourceIdentity: string)
    | InvalidExtensions(id: nat)
    | DuplicateContinuation(id: nat)
    | DanglingContinuation(id: nat, node: NodeId)
    | DuplicateRoot(node: NodeId)
    | DanglingRoot(node: NodeId)
    | DuplicateNode(node: NodeId)
    | RelationshipCycle(node: NodeId)
    | RedirectCycle(node: NodeId)
    | InvalidRedirectSource(edge: nat, node: NodeId)
    | RedirectBudgetExceeded(node: NodeId, maximum: nat)
    | AmbiguousRedirect(node: NodeId, targets: nat)
    | DanglingEdge(edge: nat, node: NodeId)
    | DuplicateEdge(edge: nat)
    | DanglingProvenanceParent(node: NodeId, parent: NodeId)
    | ProvenanceCycle(node: NodeId)
    | ProvenanceBudgetExceeded(node: NodeId, maximum: nat)

  /** The identifiers of a set in increasing order. */
  method Ascending(ids: set<NodeId>) returns (sorted: seq<NodeId>)
    ensures forall n :: n in sorted <==> n in ids
    ensures forall i, j :: 0 <= i < j < |sorted| ==> sorted[i] < sorted[j]
  {
    sorted := [];
    var rest := ids;
    while rest != {}
      invariant rest <= ids
      invariant forall n :: n in sorted <==> n in ids && n !in rest
      invariant forall i, j :: 0 <= i < j < |sorted| ==> sorted[i] < sorted[j]
      invariant forall a, b :: a in sorted && b in rest ==> a < b
    {
      var least := Least(rest);
      assert forall i :: 0 <= i < |sorted| ==> sorted[i] in sorted;
      sorted := sorted + [least];
      rest := rest - {least};
    }
  }

  method Least(ids: set<NodeId>) returns (least: NodeId)
    requires ids != {}
    ensures least in ids && forall n :: n in ids ==> least <= n
  {
    least :| least in ids;
    var rest := ids - {least};
    while rest != {}
      invariant rest <= ids && least in ids
      invariant forall n :: n in ids && n !in rest ==> least <= n
    {
      var n :| n in rest;
      if n < least {
        least := n;
      }
      rest := rest - {n};
    }
  }

  method BuildAdjacency(g: Graph) returns (adj: Adjacency)
    ensures Represents(adj, g)
    ensures forall i :: 0 <= i < |g.nodes| ==> g.nodes[i].id in adj
  {
    adj := map[];
    for i := 0 to |g.nodes|
      invariant forall n :: n in adj ==> adj[n] == {}
      invariant forall k :: 0 <= k < i ==> g.nodes[k].id in adj
    {
      adj := adj[g.nodes[i].id := {}];
    }
    for i := 0 to |g.edges|
      invariant Represents(adj, EdgesUpTo(g, i))
      invariant forall k :: 0 <= k < |g.nodes| ==> g.nodes[k].id in adj
    {
      var edge := g.edges[i];
      ghost var before := adj;
      if CycleIsForbidden(edge.kind) {
        adj := adj[edge.from := Targets(adj, edge.from) + {edge.to}];
      }
      forall a, b ensures b in Targets(adj, a) <==> Linked(EdgesUpTo(g, i + 1), a, b) {
        LinkedStep(g, i, a, b);
        assert b in Targets(before, a) <==> Linked(EdgesUpTo(g, i), a, b);
      }
    }
    assert EdgesUpTo(g, |g.edges|) == g;
  }

  function EdgesUpTo(g: Graph, i: nat): Graph
    requires i <= |g.edges|
  {
    g.(edges := g.edges[..i])
  }

  lemma LinkedStep(g: Graph, i: nat, a: NodeId, b: NodeId)
    requires i < |g.edges|
    ensures Linked(EdgesUpTo(g, i + 1), a, b) <==>
              Linked(EdgesUpTo(g, i), a, b)
              || (CycleIsForbidden(g.edges[i].kind) && a == g.edges[i].from && b == g.edges[i].to)
  {
    var (g0, g1) := (EdgesUpTo(g, i), EdgesUpTo(g, i + 1));
    if Linked(g0, a, b) {
      var k :| 0 <= k < |g0.edges| && g0.edges[k].from == a && g0.edges[k].to == b
          && g0.edges[k].kind in {Contains, Embeds, TransparentlyOverlays, EdgeKind.Continuation};
      assert g1.edges[k] == g0.edges[k];
    }
    if CycleIsForbidden(g.edges[i].kind) && a == g.edges[i].from && b == g.edges[i].to {
      assert g1.edges[i] == g.edges[i];
    }
    if Linked(g1, a, b) {
      var k :| 0 <= k < |g1.edges| && g1.edges[k].from == a && g1.edges[k].to == b
          && g1.edges[k].kind in {Contains, Embeds, TransparentlyOverlays, EdgeKind.Continuation};
      if k < i { assert g0.edges[k] == g1.edges[k]; }
    }
  }

  /** Scans a node's targets from the greatest down: either one of them is being visited, or the unfinished wait. */
  method ScanTargets(targets: set<NodeId>, visiting: set<NodeId>, visited: set<NodeId>)
    returns (r: Result<seq<NodeId>, NodeId>)
    ensures r.Err? ==> r.error in targets && r.error in visiting
    ensures r.Ok? ==> targets !! visiting
    ensures r.Ok? ==> forall t :: t in r.value <==> t in targets && t !in visited
  {
    var sorted := Ascending(targets);
    var pushed: seq<NodeId> := [];
    for i := |sorted| downto 0
      invariant forall k :: i <= k < |sorted| ==> sorted[k] !in visiting
      invariant forall t :: t in pushed <==> t !in visited && t in sorted[i..]
    {
      var target := sorted[i];
      if target in visiting {
        return Err(target);
      }
      if target !in visited {
        pushed := pushed + [target];
      }
      assert sorted[i..] == [target] + sorted[i + 1..];
    }
    assert sorted[0..] == sorted;
    r := Ok(pushed);
  }

  ghost predicate Elements(s: set<NodeId>, q: seq<NodeId>) {
    forall n :: n in s <==> n in q
  }

  /** Everything the search can ever reach. */
  ghost function Universe(adj: Adjacency): set<NodeId> {
    adj.Keys + (set a, b | a in adj && b in adj[a] :: b)
  }

  ghost predicate Within(stack: Stack, universe: set<NodeId>) {
    forall j :: 0 <= j < |stack| ==> stack[j].0 in universe
  }

  lemma ElementsAppend(s: set<NodeId>, q: seq<NodeId>, n: NodeId)
    requires Elements(s, q)
    ensures Elements(s + {n}, q + [n])
  {
  }

  lemma ElementsDrop(s: set<NodeId>, q: seq<NodeId>)
    requires Elements(s, q) && q != [] && forall i, j :: 0 <= i < j < |q| ==> q[i] != q[j]
    ensures Elements(s - {q[|q| - 1]}, q[..|q| - 1])
  {
    assert q == q[..|q| - 1] + [q[|q| - 1]];
  }

  lemma PushedWithin(adj: Adjacency, stack: Stack, n: NodeId, pushed: seq<NodeId>)
    requires |stack| > 0 && Within(stack, Universe(adj)) && n in Universe(adj)
    requires forall t :: t in pushed ==> t in Targets(adj, n)
    ensures Within(stack[..|stack| - 1] + [(n, true)] + Waiting(pushed), Universe(adj))
  {
    forall i | 0 <= i < |pushed| ensures pushed[i] in Universe(adj) {
      assert pushed[i] in Targets(adj, n);
    }
  }

  /** A waiting node on top of the stack is not being visited, and a visited target of it closes a cycle. */
  lemma TopIsNew(adj: Adjacency, stack: Stack, trail: seq<NodeId>, marks: seq<nat>, order: seq<NodeId>)
    requires Searching(adj, stack, trail, marks, order)
    requires |stack| > 0 && !stack[|stack| - 1].1
    ensures stack[|stack| - 1].0 !in trail
    ensures forall t :: t in Targets(adj, stack[|stack| - 1].0) && t in trail + [stack[|stack| - 1].0] ==>
              OnCycle(adj, t)
  {
    var top := |stack| - 1;
    var n := stack[top].0;
    forall m | 0 <= m < |marks| ensures trail[m] != n {
      assert EntryOk(adj, stack, trail, marks, top, m);
    }
    if trail != [] {
      assert EntryOk(adj, stack, trail, marks, top, |marks| - 1);
    }
    forall t | t in Targets(adj, n) && t in trail + [n] ensures OnCycle(adj, t) {
      TrailClosesCycle(adj, trail + [n], t);
    }
  }

  /**
   The search from one root. It either finishes the root and everything below it, or names
   a node on a real cycle. The check on entering a node (that it is not already being
   visited) never fires.
   */
  method Explore(adj: Adjacency, root: NodeId, visited0: set<NodeId>, ghost order0: seq<NodeId>)
    returns (r: Result<set<NodeId>, GraphError>, ghost order: seq<NodeId>)
    requires root in Universe(adj) && root !in visited0
    requires Settled(adj, order0) && Elements(visited0, order0) && visited0 <= Universe(adj)
    ensures r.Err? ==> r.error.RelationshipCycle? && OnCycle(adj, r.error.node)
    ensures r.Ok? ==> Settled(adj, order) && Elements(r.value, order) && r.value <= Universe(adj)
    ensures r.Ok? ==> visited0 <= r.value && root in r.value
  {
    var visited, visiting := visited0, {};
    order := order0;
    var stack: Stack := [(root, false)];
    ghost var trail: seq<NodeId> := [];
    ghost var marks: seq<nat> := [];
    ghost var universe := Universe(adj);
    hide Settled, Marked, Pending, Covered, Path, OnCycle, Targets, Universe;
    assert Searching(adj, stack, trail, marks, order) by { StartSearch(adj, root, order); }
    while stack != []
      invariant Searching(adj, stack, trail, marks, order)
      invariant Elements(visited, order) && Elements(visiting, trail)
      invariant visited0 <= visited <= universe && visiting <= universe && Within(stack, universe)
      invariant root in visited || root in visiting || stack == [(root, false)]
      invariant stack == [] ==> visiting == {}
      decreases universe - visiting - visited, |stack|
    {
      var top := |stack| - 1;
      var (node, exiting) := stack[top];
      ghost var unentered := universe - visiting - visited;
      assert node in universe;
      if exiting {
        PopExit(adj, stack, trail, marks, order);
        ElementsDrop(visiting, trail);
        ElementsAppend(visited, order, node);
        trail, marks, order := trail[..|trail| - 1], marks[..|marks| - 1], order + [node];
        stack, visiting, visited := stack[..top], visiting - {node}, visited + {node};
        assert universe - visiting - visited == unentered;
        MarksNeedStack(adj, stack, trail, marks, order);
      } else if node in visited {
        PopFinished(adj, stack, trail, marks, order);
        stack := stack[..top];
        MarksNeedStack(adj, stack, trail, marks, order);
      } else {
        TopIsNew(adj, stack, trail, marks, order);
        if node in visiting {
          assert false;
          return Err(RelationshipCycle(node)), order;
        }
        visiting := visiting + {node};
        assert node in unentered && universe - visiting - visited == unentered - {node};
        ElementsAppend(visiting - {node}, trail, node);
        var targets := Targets(adj, node);
        var pushed := ScanTargets(targets, visiting, visited);
        if pushed.Err? {
          return Err(RelationshipCycle(pushed.error)), order;
        }
        Enter(adj, stack, trail, marks, order, pushed.value);
        PushedWithin(adj, stack, node, pushed.value);
        trail, marks := trail + [node], marks + [top];
        stack := stack[..top] + [(node, true)] + Waiting(pushed.value);
      }
    }
    r := Ok(visited);
  }

  lemma StartSearch(adj: Adjacency, root: NodeId, order: seq<NodeId>)
    requires Settled(adj, order)
    ensures Searching(adj, [(root, false)], [], [], order)
  {
  }

  lemma MarksNeedStack(adj: Adjacency, stack: Stack, trail: seq<NodeId>, marks: seq<nat>, order: seq<NodeId>)
    requires Searching(adj, stack, trail, marks, order)
    ensures trail != [] ==> stack != []
  {
    if trail != [] { assert marks[0] < |stack|; }
  }

  ghost predicate Acyclic(g: Graph) {
    forall n :: !LiesOnCycle(g, n)
  }

  /**
   The relationship check is exact for every graph, dangling edges included: it accepts if
   and only if the traversable edges contain no cycle, and the node it names on rejection
   lies on one.
   */
  method ValidateRelationshipCycles(g: Graph) returns (r: Result<(), GraphError>)
    ensures r.Ok? <==> Acyclic(g)
    ensures r.Err? ==> r.error.RelationshipCycle? && LiesOnCycle(g, r.error.node)
  {
    var adj := BuildAdjacency(g);
    var roots := Ascending(adj.Keys);
    var visited: set<NodeId> := {};
    ghost var order: seq<NodeId> := [];
    for i := 0 to |roots|
      invariant Settled(adj, order) && Elements(visited, order) && visited <= Universe(adj)
      invariant forall k :: 0 <= k < i ==> roots[k] in visited
    {
      if roots[i] !in visited {
        assert roots[i] in roots;
        var explored;
        explored, order := Explore(adj, roots[i], visited, order);
        if explored.Err? {
          CyclesAgree(adj, g, explored.error.node);
          return Err(explored.error);
        }
        visited := explored.value;
      }
    }
    forall n ensures !LiesOnCycle(g, n) {
      CyclesAgree(adj, g, n);
      if n in order {
        var k :| 0 <= k < |order| && order[k] == n;
        FinishedIsAcyclic(adj, order, k);
      } else {
        assert n !in roots;
        NoTargetsNoCycle(adj, n);
      }
    }
    r := Ok(());
  }

  lemma NoTargetsNoCycle(adj: Adjacency, n: NodeId)
    requires n !in adj
    ensures !OnCycle(adj, n)
  {
    forall p ensures !Cycle(adj, p, n) {
      assert |p| >= 2 && Path(adj, p) ==> p[1] in Targets(adj, p[0]);
    }
  }

  // ---------------------------------------------------------------------------
  // Bounded walks along a functional relation

  /** Where `k` hops from `n` lead, if there are that many. */
  function Hop(next: map<NodeId, NodeId>, n: NodeId, k: nat): Option<NodeId> {
    if k == 0 then Some(n)
    else
      var before := Hop(next, n, k - 1);
      if before.Some? && before.value in next then Some(next[before.value]) else None
  }

  lemma {:induction false} HopEarlier(next: map<NodeId, NodeId>, n: NodeId, i: nat, k: nat)
    requires i <= k && Hop(next, n, k).Some?
    ensures Hop(next, n, i).Some?
  {
    if i < k { HopEarlier(next, n, i, k - 1); }
  }

  /** A revisited place repeats forever, so the walk never ends. */
  lemma {:induction false} RevisitNeverEnds(next: map<NodeId, NodeId>, n: NodeId, i: nat, j: nat, k: nat)
    requires i < j && Hop(next, n, i) == Hop(next, n, j) && Hop(next, n, j).Some?
    ensures Hop(next, n, k).Some?
    ensures k >= j ==> Hop(next, n, k) == Hop(next, n, k - (j - i))
  {
    if k < j {
      HopEarlier(next, n, k, j);
    } else if k > j {
      RevisitNeverEnds(next, n, i, j, k - 1);
      RevisitNeverEnds(next, n, i, j, k - (j - i));
    }
  }

  datatype WalkOutcome = Ended | Revisited(node: NodeId) | TooLong

  /** The walk stops within `maximum` hops, or some place repeats by then, or neither. */
  ghost predicate Describes(outcome: WalkOutcome, next: map<NodeId, NodeId>, n: NodeId, maximum: nat) {
    match outcome
    case Ended => Hop(next, n, maximum + 1).None?
    case Revisited(c) => exists i, j :: 0 <= i < j <= maximum && Hop(next, n, i) == Hop(next, n, j) == Some(c)
    case TooLong =>
      && Hop(next, n, maximum + 1).Some?
      && forall i, j :: 0 <= i < j <= maximum ==> Hop(next, n, i) != Hop(next, n, j)
  }

  /** The places a walk has passed so far, in order. */
  ghost predicate Passed(next: map<NodeId, NodeId>, start: NodeId, walked: seq<NodeId>) {
    forall i :: 0 <= i < |walked| ==> Hop(next, start, i) == Some(walked[i])
  }

  lemma PassOne(next: map<NodeId, NodeId>, start: NodeId, walked: seq<NodeId>, current: NodeId)
    requires Passed(next, start, walked) && Hop(next, start, |walked|) == Some(current)
    ensures Passed(next, start, walked + [current])
    ensures Hop(next, start, |walked| + 1) == if current in next then Some(next[current]) else None
  {
  }

  lemma WalkRevisits(next: map<NodeId, NodeId>, start: NodeId, walked: seq<NodeId>, current: NodeId, maximum: nat)
    requires Passed(next, start, walked) && Hop(next, start, |walked|) == Some(current)
    requires current in walked && |walked| <= maximum
    ensures Describes(Revisited(current), next, start, maximum) && Hop(next, start, maximum + 1).Some?
  {
    var i :| 0 <= i < |walked| && walked[i] == current;
    assert Hop(next, start, i) == Hop(next, start, |walked|) == Some(current);
    RevisitNeverEnds(next, start, i, |walked|, maximum + 1);
  }

  lemma WalkTooLong(next: map<NodeId, NodeId>, start: NodeId, walked: seq<NodeId>, maximum: nat)
    requires Passed(next, start, walked) && |walked| == maximum + 1 && Hop(next, start, maximum + 1).Some?
    requires forall i, j :: 0 <= i < j < |walked| ==> walked[i] != walked[j]
    ensures Describes(TooLong, next, start, maximum)
  {
  }

  lemma {:induction false} WalkEnds(next: map<NodeId, NodeId>, start: NodeId, k: nat, maximum: nat)
    requires Hop(next, start, k).None? && k <= maximum + 1
    ensures Hop(next, start, maximum + 1).None?
  {
    if Hop(next, start, maximum + 1).Some? { HopEarlier(next, start, k, maximum + 1); }
  }

  /** The loop both chain checks run: follow `next` for at most `maximum` hops, remembering what was seen. */
  method Walk(next: map<NodeId, NodeId>, start: NodeId, maximum: nat) returns (outcome: WalkOutcome)
    ensures Describes(outcome, next, start, maximum)
    ensures outcome.Ended? <==> Hop(next, start, maximum + 1).None?
  {
    var seen: set<NodeId> := {};
    var current := start;
    ghost var walked: seq<NodeId> := [];
    assert Hop(next, start, 0) == Some(start);
    hide Hop, Passed;
    assert Passed(next, start, walked) by { NothingPassed(next, start); }
    for depth := 0 to maximum + 1
      invariant depth <= maximum && |walked| == depth
      invariant Passed(next, start, walked) && Hop(next, start, depth) == Some(current)
      invariant forall i, j :: 0 <= i < j < depth ==> walked[i] != walked[j]
      invariant Elements(seen, walked)
    {
      if current in seen {
        WalkRevisits(next, start, walked, current, maximum);
        return Revisited(current);
      }
      seen := seen + {current};
      PassOne(next, start, walked, current);
      walked := walked + [current];
      if current !in next {
        WalkEnds(next, start, depth + 1, maximum);
        return Ended;
      }
      if depth == maximum {
        WalkTooLong(next, start, walked, maximum);
        return TooLong;
      }
      current := next[current];
    }
  }

  lemma NothingPassed(next: map<NodeId, NodeId>, start: NodeId)
    ensures Passed(next, start, [])
  {
  }

  // ---------------------------------------------------------------------------
  // Redirect and provenance chains

  type Relation = (NodeId, NodeId) -> bool

  ghost predicate RelationPath(rel: Relation, p: seq<NodeId>) {
    forall i :: 0 <= i < |p| - 1 ==> rel(p[i], p[i + 1])
  }

  ghost predicate PathOfLength(rel: Relation, p: seq<NodeId>, n: NodeId, hops: nat) {
    |p| == hops + 1 && p[0] == n && RelationPath(rel, p)
  }

  /** Some path of exactly `hops` steps starts at `n`. */
  ghost predicate HasChain(rel: Relation, n: NodeId, hops: nat) {
    exists p :: PathOfLength(rel, p, n, hops)
  }

  ghost predicate Follows(next: map<NodeId, NodeId>, rel: Relation) {
    forall a, b :: rel(a, b) <==> a in next && next[a] == b
  }

  lemma {:induction false} PathFollowsHops(next: map<NodeId, NodeId>, rel: Relation, p: seq<NodeId>, n: NodeId, k: nat)
    requires Follows(next, rel) && PathOfLength(rel, p, n, k)
    ensures Hop(next, n, k) == Some(p[k])
  {
    if k > 0 {
      PathFollowsHops(next, rel, p[..k], n, k - 1);
      assert rel(p[k - 1], p[k]);
    }
  }

  lemma {:induction false} HopsFollowPath(next: map<NodeId, NodeId>, rel: Relation, n: NodeId, k: nat)
      returns (p: seq<NodeId>)
    requires Follows(next, rel) && Hop(next, n, k).Some?
    ensures PathOfLength(rel, p, n, k) && p[k] == Hop(next, n, k).value
  {
    if k == 0 {
      p := [n];
    } else {
      var q := HopsFollowPath(next, rel, n, k - 1);
      p := q + [Hop(next, n, k).value];
      forall i | 0 <= i < |p| - 1 ensures rel(p[i], p[i + 1]) {
        if i < k - 1 { assert rel(q[i], q[i + 1]); }
      }
    }
  }

  lemma HopIffChain(next: map<NodeId, NodeId>, rel: Relation, n: NodeId, k: nat)
    requires Follows(next, rel)
    ensures Hop(next, n, k).Some? <==> HasChain(rel, n, k)
  {
    if Hop(next, n, k).Some? {
      var p := HopsFollowPath(next, rel, n, k);
    }
    if HasChain(rel, n, k) {
      var p :| PathOfLength(rel, p, n, k);
      PathFollowsHops(next, rel, p, n, k);
    }
  }

  /** A revisited place lies on a cycle of the relation. */
  lemma RevisitIsCycle(next: map<NodeId, NodeId>, rel: Relation, n: NodeId, i: nat, j: nat) returns (p: seq<NodeId>)
    requires Follows(next, rel) && i < j && Hop(next, n, i) == Hop(next, n, j) && Hop(next, n, j).Some?
    ensures |p| >= 2 && p[0] == p[|p| - 1] == Hop(next, n, i).value && RelationPath(rel, p)
  {
    var q := HopsFollowPath(next, rel, n, j);
    assert PathOfLength(rel, q[..i + 1], n, i);
    PathFollowsHops(next, rel, q[..i + 1], n, i);
    p := q[i..];
  }

  ghost predicate OnRelationCycle(rel: Relation, n: NodeId) {
    exists p :: |p| >= 2 && p[0] == n && p[|p| - 1] == n && RelationPath(rel, p)
  }

  /** Targets of the overlay edges leaving `a`, in edge order. */
  function OverlayTargets(edges: seq<Edge>, a: NodeId): seq<NodeId> {
    if edges == [] then []
    else
      var last := edges[|edges| - 1];
      OverlayTargets(edges[..|edges| - 1], a)
      + if last.kind.TransparentlyOverlays? && last.from == a then [last.to] else []
  }

  ghost function RedirectsTo(g: Graph): Relation {
    (a: NodeId, b: NodeId) => b in OverlayTargets(g.edges, a)
  }

  ghost predicate OverlaysLeaveRedirects(g: Graph, nodes: map<NodeId, Node>) {
    forall i :: 0 <= i < |g.edges| && g.edges[i].kind.TransparentlyOverlays? ==>
      g.edges[i].from in nodes && nodes[g.edges[i].from].kind.Redirect?
  }

  ghost predicate RedirectsBounded(g: Graph, nodes: map<NodeId, Node>, maximum: nat) {
    forall n :: n in nodes && nodes[n].kind.Redirect? ==> !HasChain(RedirectsTo(g), n, maximum + 1)
  }

  ghost predicate Unambiguous(g: Graph) {
    forall a :: |OverlayTargets(g.edges, a)| <= 1
  }

  ghost predicate GroupsTargets(targets: map<NodeId, seq<NodeId>>, edges: seq<Edge>) {
    && (forall a :: a in targets ==> targets[a] == OverlayTargets(edges, a) && targets[a] != [])
    && (forall a :: a !in targets ==> OverlayTargets(edges, a) == [])
  }

  function Grouped(targets: map<NodeId, seq<NodeId>>, edge: Edge): map<NodeId, seq<NodeId>> {
    if edge.kind.TransparentlyOverlays? then
      targets[edge.from := (if edge.from in targets then targets[edge.from] else []) + [edge.to]]
    else targets
  }

  lemma GroupStep(targets: map<NodeId, seq<NodeId>>, edges: seq<Edge>, edge: Edge)
    requires GroupsTargets(targets, edges)
    ensures GroupsTargets(Grouped(targets, edge), edges + [edge])
  {
    forall a
      ensures OverlayTargets(edges + [edge], a) ==
              OverlayTargets(edges, a) + if edge.kind.TransparentlyOverlays? && edge.from == a then [edge.to] else []
    {
      assert (edges + [edge])[..|edges|] == edges;
    }
  }

  method GroupRedirects(g: Graph, nodes: map<NodeId, Node>)
    returns (r: Result<map<NodeId, seq<NodeId>>, GraphError>)
    ensures r.Ok? <==> OverlaysLeaveRedirects(g, nodes)
    ensures r.Ok? ==> GroupsTargets(r.value, g.edges)
    ensures r.Err? ==> r.error.DanglingEdge? || r.error.InvalidRedirectSource?
  {
    var targets: map<NodeId, seq<NodeId>> := map[];
    assert g.edges[..0] == [];
    hide OverlayTargets;
    for i := 0 to |g.edges|
      invariant GroupsTargets(targets, g.edges[..i])
      invariant forall k :: 0 <= k < i && g.edges[k].kind.TransparentlyOverlays? ==>
                  g.edges[k].from in nodes && nodes[g.edges[k].from].kind.Redirect?
    {
      var edge := g.edges[i];
      assert g.edges[..i + 1] == g.edges[..i] + [edge];
      GroupStep(targets, g.edges[..i], edge);
      if edge.kind.TransparentlyOverlays? {
        if edge.from !in nodes {
          return Err(DanglingEdge(edge.id, edge.from));
        }
        if !nodes[edge.from].kind.Redirect? {
          return Err(InvalidRedirectSource(edge.id, edge.from));
        }
        var before := if edge.from in targets then targets[edge.from] else [];
        targets := targets[edge.from := before + [edge.to]];
      }
    }
    assert g.edges[..|g.edges|] == g.edges;
    r := Ok(targets);
  }

  lemma GroupedFollows(targets: map<NodeId, seq<NodeId>>, g: Graph, next: map<NodeId, NodeId>)
    requires GroupsTargets(targets, g.edges) && Unambiguous(g)
    requires next.Keys == targets.Keys && forall a :: a in targets ==> next[a] == targets[a][0]
    ensures Follows(next, RedirectsTo(g))
  {
    forall a, b ensures RedirectsTo(g)(a, b) <==> a in next && next[a] == b {
      assert |OverlayTargets(g.edges, a)| <= 1;
    }
  }

  /**
   Redirect validation accepts exactly the graphs whose overlay edges leave redirect nodes,
   at most one per node, and in which no redirect node starts a chain longer than the
   budget. A cycle it reports is a real one; a budget it reports is really exceeded.
   */
  method ValidateRedirects(g: Graph, nodes: map<NodeId, Node>, maximum: nat) returns (r: Result<(), GraphError>)
    ensures r.Ok? <==> OverlaysLeaveRedirects(g, nodes) && Unambiguous(g) && RedirectsBounded(g, nodes, maximum)
    ensures r.Err? && r.error.RedirectCycle? ==> OnRelationCycle(RedirectsTo(g), r.error.node)
    ensures r.Err? && r.error.RedirectBudgetExceeded? ==> HasChain(RedirectsTo(g), r.error.node, maximum + 1)
    ensures r.Err? && r.error.AmbiguousRedirect? ==>
              r.error.targets == |OverlayTargets(g.edges, r.error.node)| > 1
  {
    var grouped := GroupRedirects(g, nodes);
    if grouped.Err? {
      return Err(grouped.error);
    }
    r := CheckUnambiguous(g, grouped.value);
    if r.Err? {
      return;
    }
    var next := map a | a in grouped.value :: grouped.value[a][0];
    GroupedFollows(grouped.value, g, next);
    hide GroupsTargets, OverlayTargets;
    r := WalkRedirects(g, nodes, next, maximum);
  }

  method CheckUnambiguous(g: Graph, targets: map<NodeId, seq<NodeId>>) returns (r: Result<(), GraphError>)
    requires GroupsTargets(targets, g.edges)
    ensures r.Ok? <==> Unambiguous(g)
    ensures r.Err? ==> r.error.AmbiguousRedirect? && r.error.targets == |OverlayTargets(g.edges, r.error.node)| > 1
  {
    var sources := Ascending(targets.Keys);
    for i := 0 to |sources|
      invariant forall k :: 0 <= k < i ==> |targets[sources[k]]| <= 1
    {
      assert sources[i] in sources;
      if |targets[sources[i]]| > 1 {
        return Err(AmbiguousRedirect(sources[i], |targets[sources[i]]|));
      }
    }
    forall a ensures |OverlayTargets(g.edges, a)| <= 1 {
      if a in targets { assert a in sources; }
    }
    r := Ok(());
  }

  method WalkRedirects(g: Graph, nodes: map<NodeId, Node>, next: map<NodeId, NodeId>, maximum: nat)
    returns (r: Result<(), GraphError>)
    requires Follows(next, RedirectsTo(g))
    ensures r.Ok? <==> RedirectsBounded(g, nodes, maximum)
    ensures r.Err? ==> r.error.RedirectCycle? || r.error.RedirectBudgetExceeded?
    ensures r.Err? && r.error.RedirectCycle? ==> OnRelationCycle(RedirectsTo(g), r.error.node)
    ensures r.Err? && r.error.RedirectBudgetExceeded? ==> HasChain(RedirectsTo(g), r.error.node, maximum + 1)
  {
    var ids := Ascending(nodes.Keys);
    hide Hop, HasChain, RelationPath, OverlayTargets;
    for i := 0 to |ids|
      invariant forall k :: 0 <= k < i && nodes[ids[k]].kind.Redirect? ==>
                  !HasChain(RedirectsTo(g), ids[k], maximum + 1)
    {
      var n := ids[i];
      assert n in ids;
      if nodes[n].kind.Redirect? {
        var outcome := Walk(next, n, maximum);
        HopIffChain(next, RedirectsTo(g), n, maximum + 1);
        match outcome
        case Revisited(c) =>
          RevisitOnCycle(next, RedirectsTo(g), n, maximum, c);
          return Err(RedirectCycle(c));
        case TooLong => return Err(RedirectBudgetExceeded(n, maximum));
        case Ended =>
      }
    }
    r := Ok(());
  }

  lemma RevisitOnCycle(next: map<NodeId, NodeId>, rel: Relation, n: NodeId, maximum: nat, c: NodeId)
    requires Follows(next, rel) && Describes(Revisited(c), next, n, maximum)
    ensures OnRelationCycle(rel, c)
  {
    var i, j :| 0 <= i < j <= maximum && Hop(next, n, i) == Hop(next, n, j) == Some(c);
    var p := RevisitIsCycle(next, rel, n, i, j);
  }

  ghost function ParentOf(nodes: map<NodeId, Node>): Relation {
    (a: NodeId, b: NodeId) => a in nodes && nodes[a].parent == Some(b)
  }

  ghost predicate ParentsKnown(nodes: map<NodeId, Node>) {
    forall n :: n in nodes && nodes[n].parent.Some? ==> nodes[n].parent.value in nodes
  }

  ghost predicate ProvenanceBounded(nodes: map<NodeId, Node>, maximum: nat) {
    forall n :: n in nodes ==> !HasChain(ParentOf(nodes), n, maximum + 1)
  }

  /**
   Provenance validation accepts exactly when no chain of parents is longer than the budget;
   it can therefore never accept a cyclic ancestry. Parents have been looked up before.
   */
  method ValidateProvenance(nodes: map<NodeId, Node>, maximum: nat) returns (r: Result<(), GraphError>)
    requires ParentsKnown(nodes)
    ensures r.Ok? <==> ProvenanceBounded(nodes, maximum)
    ensures r.Err? ==> r.error.ProvenanceCycle? || r.error.ProvenanceBudgetExceeded?
    ensures r.Err? && r.error.ProvenanceCycle? ==> OnRelationCycle(ParentOf(nodes), r.error.node)
    ensures r.Err? && r.error.ProvenanceBudgetExceeded? ==> HasChain(ParentOf(nodes), r.error.node, maximum + 1)
  {
    var ids := Ascending(nodes.Keys);
    var next := map n | n in nodes && nodes[n].parent.Some? :: nodes[n].parent.value;
    assert Follows(next, ParentOf(nodes));
    hide Hop, HasChain, RelationPath;
    for i := 0 to |ids|
      invariant forall k :: 0 <= k < i ==> !HasChain(ParentOf(nodes), ids[k], maximum + 1)
    {
      assert ids[i] in ids;
      var outcome := Walk(next, ids[i], maximum);
      HopIffChain(next, ParentOf(nodes), ids[i], maximum + 1);
      match outcome
      case Revisited(c) =>
        RevisitOnCycle(next, ParentOf(nodes), ids[i], maximum, c);
        return Err(ProvenanceCycle(c));
      case TooLong => return Err(ProvenanceBudgetExceeded(ids[i], maximum));
      case Ended =>
    }
    r := Ok(());
  }

  // ---------------------------------------------------------------------------
  // The structural part of graph validation

  function NodesById(nodes: seq<Node>): map<NodeId, Node> {
    if nodes == [] then map[]
    else NodesById(nodes[..|nodes| - 1])[nodes[|nodes| - 1].id := nodes[|nodes| - 1]]
  }

  ghost predicate DistinctNodes(g: Graph) {
    forall i, j :: 0 <= i < j < |g.nodes| ==> g.nodes[i].id != g.nodes[j].id
  }

  ghost predicate DistinctEdges(g: Graph) {
    forall i, j :: 0 <= i < j < |g.edges| ==> g.edges[i].id != g.edges[j].id
  }

  ghost predicate EdgesAttached(g: Graph, nodes: map<NodeId, Node>) {
    forall i :: 0 <= i < |g.edges| ==> g.edges[i].from in nodes && g.edges[i].to in nodes
  }

  // Node fields

  /** Not empty, free of control characters, and short enough. */
  predicate TextOk(text: string, maximum: nat) {
    && text != "" && |text| <= maximum
    && forall i :: 0 <= i < |text| ==> !IsControl(text[i])
  }

  predicate IsControl(c: char) {
    c < ' ' || c == 127 as char
  }

  predicate OptionalTextOk(text: Option<string>, maximum: nat) {
    text.Some? ==> |text.value| <= maximum
  }

  predicate FieldsOk(node: Node, limits: Limits) {
    && TextOk(node.extractorKey, limits.maximumStringBytes)
    && TextOk(node.sourceIdentity, limits.maximumStringBytes)
    && TextOk(node.canonicalUrl, limits.maximumStringBytes)
    && |node.identities| <= limits.maximumIdentities
    && OptionalTextOk(node.title, limits.maximumStringBytes)
    && OptionalTextOk(node.description, limits.maximumStringBytes)
    && node.extensionsValid
  }

  method CheckText(node: NodeId, text: string, maximum: nat) returns (r: Result<(), GraphError>)
    ensures r.Ok? <==> TextOk(text, maximum)
  {
    if text == "" {
      return Err(InvalidString(node));
    }
    for i := 0 to |text|
      invariant forall k :: 0 <= k < i ==> !IsControl(text[k])
    {
      if IsControl(text[i]) {
        return Err(InvalidString(node));
      }
    }
    if |text| > maximum {
      return Err(StringTooLong(node, |text|, maximum));
    }
    r := Ok(());
  }

  // No identity is used twice in the whole graph

  ghost predicate NoRepeats(s: seq<nat>) {
    forall i, j :: 0 <= i < j < |s| ==> s[i] != s[j]
  }

  lemma NoRepeatsPrefix(s: seq<nat>, t: seq<nat>)
    requires NoRepeats(s + t)
    ensures NoRepeats(s)
  {
    forall i, j | 0 <= i < j < |s| ensures s[i] != s[j] {
      assert (s + t)[i] == s[i] && (s + t)[j] == s[j];
    }
  }

  lemma NoRepeatsAppend(s: seq<nat>, x: nat)
    ensures NoRepeats(s + [x]) <==> NoRepeats(s) && x !in s
  {
    if NoRepeats(s + [x]) {
      NoRepeatsPrefix(s, [x]);
      forall i | 0 <= i < |s| ensures s[i] != x {
        assert (s + [x])[i] != (s + [x])[|s|];
      }
    }
  }

  function Identities(nodes: seq<Node>): seq<nat> {
    if nodes == [] then [] else Identities(nodes[..|nodes| - 1]) + nodes[|nodes| - 1].identities
  }

  /** Enters the identities of one node among those seen before. */
  method CheckIdentities(node: Node, seen0: set<nat>, ghost before: seq<nat>) returns (r: Result<set<nat>, GraphError>)
    requires NoRepeats(before) && Elements(seen0, before)
    ensures r.Ok? <==> NoRepeats(before + node.identities)
    ensures r.Ok? ==> Elements(r.value, before + node.identities)
  {
    var seen := seen0;
    assert before + node.identities[..0] == before;
    for i := 0 to |node.identities|
      invariant NoRepeats(before + node.identities[..i]) && Elements(seen, before + node.identities[..i])
    {
      var sofar := before + node.identities[..i];
      var next := node.identities[i];
      assert before + node.identities[..i + 1] == sofar + [next];
      NoRepeatsAppend(sofar, next);
      if next in seen {
        if NoRepeats(before + node.identities) {
          assert before + node.identities == (sofar + [next]) + node.identities[i + 1..];
          NoRepeatsPrefix(sofar + [next], node.identities[i + 1..]);
        }
        return Err(DuplicateEntity(next));
      }
      ElementsAppend(seen, sofar, next);
      seen := seen + {next};
    }
    assert before + node.identities[..|node.identities|] == before + node.identities;
    r := Ok(seen);
  }

  method ValidateNode(node: Node, limits: Limits, seen: set<nat>, ghost before: seq<nat>)
    returns (r: Result<set<nat>, GraphError>)
    requires NoRepeats(before) && Elements(seen, before)
    ensures r.Ok? <==> FieldsOk(node, limits) && NoRepeats(before + node.identities)
    ensures r.Ok? ==> Elements(r.value, before + node.identities)
  {
    hide TextOk, NoRepeats, Elements;
    var maximum := limits.maximumStringBytes;
    var text := CheckText(node.id, node.extractorKey, maximum);
    if text.Err? { return Err(text.error); }
    text := CheckText(node.id, node.sourceIdentity, maximum);
    if text.Err? { return Err(text.error); }
    text := CheckText(node.id, node.canonicalUrl, maximum);
    if text.Err? { return Err(text.error); }
    if |node.identities| > limits.maximumIdentities {
      return Err(IdentityLimit(|node.identities|, limits.maximumIdentities));
    }
    r := CheckIdentities(node, seen, before);
    if r.Err? { return; }
    if node.title.Some? && |node.title.value| > maximum {
      return Err(StringTooLong(node.id, |node.title.value|, maximum));
    }
    if node.description.Some? && |node.description.value| > maximum {
      return Err(StringTooLong(node.id, |node.description.value|, maximum));
    }
    if !node.extensionsValid {
      return Err(InvalidExtensions(node.id));
    }
  }

  // Collections

  function Canonical(node: Node): (string, string) {
    (node.canonicalUrl, node.sourceIdentity)
  }

  ghost predicate CanonicalUnique(g: Graph) {
    forall i, j :: 0 <= i < j < |g.nodes| ==> Canonical(g.nodes[i]) != Canonical(g.nodes[j])
  }

  ghost predicate AllFieldsOk(g: Graph, limits: Limits) {
    forall i :: 0 <= i < |g.nodes| ==> FieldsOk(g.nodes[i], limits)
  }

  function Canonicals(nodes: seq<Node>): set<(string, string)> {
    if nodes == [] then {} else Canonicals(nodes[..|nodes| - 1]) + {Canonical(nodes[|nodes| - 1])}
  }

  /** Every node can be added to those before it. */
  ghost predicate Collectable(nodes: seq<Node>, limits: Limits) {
    nodes == [] ||
    var (front, last) := (nodes[..|nodes| - 1], nodes[|nodes| - 1]);
    && Collectable(front, limits)
    && last.id !in NodesById(front)
    && FieldsOk(last, limits)
    && NoRepeats(Identities(front) + last.identities)
    && Canonical(last) !in Canonicals(front)
  }

  lemma {:induction false} CollectablePrefix(nodes: seq<Node>, n: nat, limits: Limits)
    requires n <= |nodes| && Collectable(nodes, limits)
    ensures Collectable(nodes[..n], limits)
    decreases |nodes|
  {
    if n == |nodes| {
      assert nodes[..n] == nodes;
    } else {
      assert nodes[..|nodes| - 1][..n] == nodes[..n];
      CollectablePrefix(nodes[..|nodes| - 1], n, limits);
    }
  }

  lemma {:induction false} KeysOf(nodes: seq<Node>)
    ensures forall n :: n in NodesById(nodes) <==> exists k :: 0 <= k < |nodes| && nodes[k].id == n
    ensures forall key :: key in Canonicals(nodes) <==> exists k :: 0 <= k < |nodes| && Canonical(nodes[k]) == key
  {
    if nodes != [] {
      hide Canonical;
      KeysOf(nodes[..|nodes| - 1]);
    }
  }

  ghost predicate IdsDistinct(nodes: seq<Node>, n: nat)
    requires n <= |nodes|
  {
    forall i, j :: 0 <= i < j < n ==> nodes[i].id != nodes[j].id
  }

  ghost predicate CanonicalsDistinct(nodes: seq<Node>, n: nat)
    requires n <= |nodes|
  {
    forall i, j :: 0 <= i < j < n ==> Canonical(nodes[i]) != Canonical(nodes[j])
  }

  lemma IdsDistinctStep(nodes: seq<Node>, n: nat)
    requires 0 < n <= |nodes|
    ensures IdsDistinct(nodes, n) <==> IdsDistinct(nodes, n - 1) && nodes[n - 1].id !in NodesById(nodes[..n - 1])
  {
    KeysOf(nodes[..n - 1]);
    hide NodesById;
  }

  lemma CanonicalsDistinctStep(nodes: seq<Node>, n: nat)
    requires 0 < n <= |nodes|
    ensures CanonicalsDistinct(nodes, n) <==>
              CanonicalsDistinct(nodes, n - 1) && Canonical(nodes[n - 1]) !in Canonicals(nodes[..n - 1])
  {
    KeysOf(nodes[..n - 1]);
    hide Canonicals, Canonical;
  }

  lemma {:induction false} CollectableMeans(nodes: seq<Node>, n: nat, limits: Limits)
    requires n <= |nodes|
    ensures Collectable(nodes[..n], limits) <==>
              && IdsDistinct(nodes, n) && CanonicalsDistinct(nodes, n)
              && (forall i :: 0 <= i < n ==> FieldsOk(nodes[i], limits))
              && NoRepeats(Identities(nodes[..n]))
  {
    if n == 0 {
      assert nodes[..0] == [];
    } else {
      var (front, last) := (nodes[..n - 1], nodes[n - 1]);
      assert nodes[..n][..n - 1] == front;
      CollectableMeans(nodes, n - 1, limits);
      IdsDistinctStep(nodes, n);
      CanonicalsDistinctStep(nodes, n);
      hide FieldsOk, Canonical, NodesById, Canonicals, NoRepeats, IdsDistinct, CanonicalsDistinct;
      if NoRepeats(Identities(nodes[..n])) { NoRepeatsPrefix(Identities(front), last.identities); }
    }
  }

  /** Accepts exactly when node ids, identities and canonical sources are unique and all fields in order. */
  method CollectNodes(g: Graph, limits: Limits) returns (r: Result<map<NodeId, Node>, GraphError>)
    ensures r.Ok? <==>
              DistinctNodes(g) && AllFieldsOk(g, limits) && NoRepeats(Identities(g.nodes)) && CanonicalUnique(g)
    ensures r.Ok? ==> r.value == NodesById(g.nodes)
  {
    var nodes: map<NodeId, Node> := map[];
    var entities: set<nat> := {};
    var canonical: set<(string, string)> := {};
    assert g.nodes[..|g.nodes|] == g.nodes;
    CollectableMeans(g.nodes, |g.nodes|, limits);
    hide FieldsOk, Canonical;
    for i := 0 to |g.nodes|
      invariant Collectable(g.nodes[..i], limits)
      invariant nodes == NodesById(g.nodes[..i])
      invariant Elements(entities, Identities(g.nodes[..i])) && NoRepeats(Identities(g.nodes[..i]))
      invariant canonical == Canonicals(g.nodes[..i])
    {
      hide NoRepeats, Elements;
      var node := g.nodes[i];
      assert g.nodes[..i + 1][..i] == g.nodes[..i];
      if Collectable(g.nodes, limits) { CollectablePrefix(g.nodes, i + 1, limits); }
      if node.id in nodes {
        return Err(DuplicateNode(node.id));
      }
      nodes := nodes[node.id := node];
      var checked := ValidateNode(node, limits, entities, Identities(g.nodes[..i]));
      if checked.Err? {
        return Err(checked.error);
      }
      entities := checked.value;
      if Canonical(node) in canonical {
        return Err(AmbiguousCanonicalSource(node.canonicalUrl, node.sourceIdentity));
      }
      canonical := canonical + {Canonical(node)};
    }
    r := Ok(nodes);
  }

  predicate SizesOk(g: Graph, limits: Limits) {
    && g.schema.major == limits.major && limits.minimumMinor <= g.schema.minor <= limits.maximumMinor
    && |g.roots| <= limits.maximumRoots && |g.nodes| <= limits.maximumNodes
    && |g.edges| <= limits.maximumEdges && |g.continuations| <= limits.maximumContinuations
  }

  /** Schema and collection sizes; an empty range of minor versions accepts no schema. */
  method ValidateSizes(g: Graph, limits: Limits) returns (r: Result<(), GraphError>)
    ensures r.Ok? <==> SizesOk(g, limits)
  {
    if limits.minimumMinor > limits.maximumMinor || g.schema.major != limits.major
       || g.schema.minor < limits.minimumMinor || g.schema.minor > limits.maximumMinor {
      return Err(InvalidSchema(g.schema));
    }
    if |g.roots| > limits.maximumRoots {
      return Err(RootLimit(|g.roots|, limits.maximumRoots));
    }
    if |g.nodes| > limits.maximumNodes {
      return Err(NodeLimit(|g.nodes|, limits.maximumNodes));
    }
    if |g.edges| > limits.maximumEdges {
      return Err(EdgeLimit(|g.edges|, limits.maximumEdges));
    }
    if |g.continuations| > limits.maximumContinuations {
      return Err(ContinuationLimit(|g.continuations|, limits.maximumContinuations));
    }
    r := Ok(());
  }

  ghost predicate ContinuationsOk(g: Graph, nodes: map<NodeId, Node>, limits: Limits) {
    && (forall i, j :: 0 <= i < j < |g.continuations| ==> g.continuations[i].id != g.continuations[j].id)
    && (forall i :: 0 <= i < |g.continuations| ==> ContinuationOk(g.continuations[i], nodes, limits))
  }

  predicate ContinuationOk(c: Continuation, nodes: map<NodeId, Node>, limits: Limits) {
    c.owner in nodes && |c.token| <= limits.maximumStringBytes && c.extensionsValid
  }

  method ValidateContinuations(g: Graph, nodes: map<NodeId, Node>, limits: Limits) returns (r: Result<(), GraphError>)
    ensures r.Ok? <==> ContinuationsOk(g, nodes, limits)
  {
    var ids: set<nat> := {};
    for i := 0 to |g.continuations|
      invariant forall id :: id in ids <==> exists k :: 0 <= k < i && g.continuations[k].id == id
      invariant forall k, j :: 0 <= k < j < i ==> g.continuations[k].id != g.continuations[j].id
      invariant forall k :: 0 <= k < i ==> ContinuationOk(g.continuations[k], nodes, limits)
    {
      var c := g.continuations[i];
      if c.id in ids {
        return Err(DuplicateContinuation(c.id));
      }
      ids := ids + {c.id};
      if c.owner !in nodes {
        return Err(DanglingContinuation(c.id, c.owner));
      }
      if |c.token| > limits.maximumStringBytes {
        return Err(TokenLimit(|c.token|, limits.maximumStringBytes));
      }
      if !c.extensionsValid {
        return Err(InvalidExtensions(c.id));
      }
    }
    r := Ok(());
  }

  lemma {:induction false} NodesByIdHolds(nodes: seq<Node>)
    requires forall i, j :: 0 <= i < j < |nodes| ==> nodes[i].id != nodes[j].id
    ensures forall i :: 0 <= i < |nodes| ==>
              nodes[i].id in NodesById(nodes) && NodesById(nodes)[nodes[i].id] == nodes[i]
    ensures forall n :: n in NodesById(nodes) ==> exists i :: 0 <= i < |nodes| && nodes[i].id == n
  {
    if nodes != [] {
      var front := nodes[..|nodes| - 1];
      NodesByIdHolds(front);
      forall n | n in NodesById(nodes) ensures exists i :: 0 <= i < |nodes| && nodes[i].id == n {
        if n in NodesById(front) {
          var i :| 0 <= i < |front| && front[i].id == n;
          assert nodes[i].id == n;
        } else {
          assert nodes[|nodes| - 1].id == n;
        }
      }
    }
  }

  ghost predicate RootsKnown(g: Graph, nodes: map<NodeId, Node>) {
    && (forall i, j :: 0 <= i < j < |g.roots| ==> g.roots[i] != g.roots[j])
    && (forall i :: 0 <= i < |g.roots| ==> g.roots[i] in nodes)
  }

  /** Roots and parents must be known nodes, roots named once, and provenance within its budget. */
  method ValidateRootsAndParents(g: Graph, nodes: map<NodeId, Node>, maximum: nat) returns (r: Result<(), GraphError>)
    requires DistinctNodes(g) && nodes == NodesById(g.nodes)
    ensures r.Ok? <==> RootsKnown(g, nodes) && ParentsKnown(nodes) && ProvenanceBounded(nodes, maximum)
    ensures r.Err? && r.error.DanglingProvenanceParent? ==>
              r.error.node in nodes && nodes[r.error.node].parent == Some(r.error.parent) && r.error.parent !in nodes
  {
    NodesByIdHolds(g.nodes);
    var roots: set<NodeId> := {};
    for i := 0 to |g.roots|
      invariant forall n :: n in roots <==> exists k :: 0 <= k < i && g.roots[k] == n
      invariant forall k, j :: 0 <= k < j < i ==> g.roots[k] != g.roots[j]
      invariant forall k :: 0 <= k < i ==> g.roots[k] in nodes
    {
      if g.roots[i] in roots {
        return Err(DuplicateRoot(g.roots[i]));
      }
      roots := roots + {g.roots[i]};
      if g.roots[i] !in nodes {
        return Err(DanglingRoot(g.roots[i]));
      }
    }
    for i := 0 to |g.nodes|
      invariant forall k :: 0 <= k < i && g.nodes[k].parent.Some? ==> g.nodes[k].parent.value in nodes
    {
      var node := g.nodes[i];
      if node.parent.Some? && node.parent.value !in nodes {
        return Err(DanglingProvenanceParent(node.id, node.parent.value));
      }
    }
    forall n | n in nodes && nodes[n].parent.Some? ensures nodes[n].parent.value in nodes {
      var i :| 0 <= i < |g.nodes| && g.nodes[i].id == n;
      assert nodes[n] == g.nodes[i];
    }
    r := ValidateProvenance(nodes, maximum);
  }

  method ValidateEdges(g: Graph, nodes: map<NodeId, Node>) returns (r: Result<(), GraphError>)
    ensures r.Ok? <==> DistinctEdges(g) && EdgesAttached(g, nodes)
  {
    var edgeIds: set<nat> := {};
    for i := 0 to |g.edges|
      invariant forall id :: id in edgeIds <==> exists k :: 0 <= k < i && g.edges[k].id == id
      invariant forall k, j :: 0 <= k < j < i ==> g.edges[k].id != g.edges[j].id
      invariant forall k :: 0 <= k < i ==> g.edges[k].from in nodes && g.edges[k].to in nodes
    {
      var edge := g.edges[i];
      if edge.id in edgeIds {
        return Err(DuplicateEdge(edge.id));
      }
      edgeIds := edgeIds + {edge.id};
      if edge.from !in nodes {
        return Err(DanglingEdge(edge.id, edge.from));
      }
      if edge.to !in nodes {
        return Err(DanglingEdge(edge.id, edge.to));
      }
    }
    r := Ok(());
  }

  /** What an accepted graph guarantees to the recursive resolution that follows. */
  ghost predicate WellStructured(g: Graph, limits: Limits) {
    var nodes := NodesById(g.nodes);
    && SizesOk(g, limits)
    && DistinctNodes(g) && AllFieldsOk(g, limits) && NoRepeats(Identities(g.nodes)) && CanonicalUnique(g)
    && RootsKnown(g, nodes) && ParentsKnown(nodes) && ProvenanceBounded(nodes, limits.maximumProvenance)
    && DistinctEdges(g) && EdgesAttached(g, nodes)
    && ContinuationsOk(g, nodes, limits)
    && OverlaysLeaveRedirects(g, nodes) && Unambiguous(g) && RedirectsBounded(g, nodes, limits.maximumRedirects)
    && Acyclic(g)
  }

  method Validate(g: Graph, limits: Limits) returns (r: Result<(), GraphError>)
    ensures r.Ok? <==> WellStructured(g, limits)
  {
    hide Acyclic, DistinctNodes, DistinctEdges, EdgesAttached, RootsKnown, ParentsKnown, ProvenanceBounded;
    hide OverlaysLeaveRedirects, Unambiguous, RedirectsBounded, NodesById;
    hide SizesOk, AllFieldsOk, NoRepeats, CanonicalUnique, ContinuationsOk, Identities;
    r := ValidateSizes(g, limits);
    if r.Err? { return; }
    var nodes := CollectNodes(g, limits);
    if nodes.Err? { return Err(nodes.error); }
    r := ValidateRootsAndParents(g, nodes.value, limits.maximumProvenance);
    if r.Err? { return; }
    r := ValidateEdges(g, nodes.value);
    if r.Err? { return; }
    r := ValidateContinuations(g, nodes.value, limits);
    if r.Err? { return; }
    r := ValidateRedirects(g, nodes.value, limits.maximumRedirects);
    if r.Err? { return; }
    r := ValidateRelationshipCycles(g);
  }
}
