/** The simulated agent mesh of one run: the scenario's agents laid out as
    nodes, and a fixed three-message exchange whose sender and receiver names
    are hard-coded. Every message is recorded twice, once as a message and
    once as an edge sharing the message's policy object, so a change to a
    message's guard is a change to its edge's guard as well. */
module AgentMesh {
  import opened Options
  import opened Governance

  datatype Kind = Notify | Propose | Commit

  /** A message; `guard` is the `policy.guard` field, `None` for a message
      sent without a policy. */
  datatype Message = Message(from: string, to: string, kind: Kind, note: string, guard: Option<Level>)

  datatype Edge = Edge(from: string, to: string, guard: Option<Level>)

  /** A drawn agent. The horizontal position is a floating-point layout value
      and is not modelled; the vertical lane alternates with the index. */
  datatype Node = Node(id: string, y: int)

  datatype Mesh = Mesh(nodes: seq<Node>, edges: seq<Edge>, messages: seq<Message>)

  const EmptyMesh: Mesh := Mesh([], [], [])

  function EdgeOf(m: Message): Edge {
    Edge(m.from, m.to, m.guard)
  }

  /** Edges mirror messages one for one, in order. */
  predicate Mirrored(mesh: Mesh) {
    |mesh.edges| == |mesh.messages|
    && forall i :: 0 <= i < |mesh.messages| ==> mesh.edges[i] == EdgeOf(mesh.messages[i])
  }

  /** Nodes of a scenario's agents: one per agent, in order, on alternating
      lanes. */
  function Layout(agents: seq<string>): (r: seq<Node>)
    ensures |r| == |agents|
    ensures forall i :: 0 <= i < |agents| ==> r[i].id == agents[i]
    ensures forall i :: 0 <= i < |agents| ==> r[i].y == if i % 2 == 0 then 90 else 210
  {
    seq(|agents|, i requires 0 <= i < |agents| => Node(agents[i], 90 + (i % 2) * 120))
  }

  /** The `msg` helper: records the message and its edge. */
  function Send(mesh: Mesh, m: Message): (r: Mesh)
    ensures Mirrored(mesh) ==> Mirrored(r)
    ensures r.nodes == mesh.nodes
    ensures |r.messages| == |mesh.messages| + 1
    ensures r.messages[..|mesh.messages|] == mesh.messages && r.messages[|mesh.messages|] == m
  {
    mesh.(messages := mesh.messages + [m], edges := mesh.edges + [EdgeOf(m)])
  }

  const NotifyMessage: Message :=
    Message("DemandPlanner", "SupplyPlanner", Notify, "Promo uplift/Deviation notice", None)

  function ProposeMessage(threshold: nat): Message {
    Message("SupplyPlanner", "MEIO", Propose, "Recompute inventory targets", Some(ProposeGuard(threshold)))
  }

  function CommitMessage(gxp: bool, threshold: nat): Message {
    if Blocked(gxp, threshold) then Message("MEIO", "ATP", Commit, "Commit request", Some(Block))
    else Message("MEIO", "ATP", Commit, "Autonomous commit", Some(Ok))
  }

  /** The mesh of a run: the agents' nodes and the three messages. */
  function Build(agents: seq<string>, gxp: bool, threshold: nat): (r: Mesh)
    ensures Mirrored(r)
    ensures r.nodes == Layout(agents)
    ensures r.messages == [NotifyMessage, ProposeMessage(threshold), CommitMessage(gxp, threshold)]
  {
    var m0 := Mesh(Layout(agents), [], []);
    var m1 := Send(m0, NotifyMessage);
    var m2 := Send(m1, ProposeMessage(threshold));
    Send(m2, CommitMessage(gxp, threshold))
  }

  /** The exchange forms a chain: each message is sent by the receiver of the
      previous one. */
  predicate Chained(ms: seq<Message>) {
    forall i :: 0 < i < |ms| ==> ms[i].from == ms[i - 1].to
  }

  /** Only a commit message ever carries the `block` guard. */
  predicate BlocksOnlyCommit(ms: seq<Message>) {
    forall i :: 0 <= i < |ms| && ms[i].guard == Some(Block) ==> ms[i].kind == Commit
  }

  /** Count of messages carrying the `block` guard. */
  function BlockCount(ms: seq<Message>): (r: nat)
    ensures r <= |ms|
    ensures r == 0 <==> forall i :: 0 <= i < |ms| ==> ms[i].guard != Some(Block)
  {
    if |ms| == 0 then 0
    else (if ms[0].guard == Some(Block) then 1 else 0) + BlockCount(ms[1..])
  }

  /** What a run's mesh looks like, whatever the scenario: three chained
      messages notify, propose, commit; the propose guard warns exactly above
      the threshold; the commit guard blocks exactly when the run is blocked
      and is otherwise `ok`; the notify message has no policy; and a blocked
      run has exactly one blocked message. */
  lemma BuildShape(agents: seq<string>, gxp: bool, threshold: nat)
    ensures var ms := Build(agents, gxp, threshold).messages;
      && |ms| == 3
      && Chained(ms)
      && ms[0].kind == Notify && ms[1].kind == Propose && ms[2].kind == Commit
      && ms[0].guard.None?
      && (ms[1].guard == Some(Warn) <==> threshold > 70)
      && (ms[1].guard == Some(Ok) <==> threshold <= 70)
      && (ms[2].guard == Some(Block) <==> gxp || threshold > 70)
      && (ms[2].guard == Some(Ok) <==> !gxp && threshold <= 70)
      && BlockCount(ms) == (if gxp || threshold > 70 then 1 else 0)
      && BlocksOnlyCommit(ms)
  {
    var ms := Build(agents, gxp, threshold).messages;
    assert ms[1..][1..] == [ms[2]];
    assert ms[2..][1..] == [];
  }

  /** `policy.guard` after approval: `block` becomes `ok`, nothing else moves. */
  function ClearGuard(g: Option<Level>): (r: Option<Level>)
    ensures r != Some(Block)
    ensures g != Some(Block) ==> r == g
  {
    if g == Some(Block) then Some(Ok) else g
  }

  /** Every message with its `block` guard turned into `ok`. */
  function ClearBlocks(ms: seq<Message>): (r: seq<Message>)
    ensures |r| == |ms|
    ensures BlockCount(r) == 0
    ensures forall i :: 0 <= i < |ms| ==>
      r[i].from == ms[i].from && r[i].to == ms[i].to && r[i].kind == ms[i].kind && r[i].note == ms[i].note
    ensures forall i :: 0 <= i < |ms| ==> r[i].guard == ClearGuard(ms[i].guard)
  {
    if |ms| == 0 then []
    else [ms[0].(guard := ClearGuard(ms[0].guard))] + ClearBlocks(ms[1..])
  }

  function ClearEdgeBlocks(es: seq<Edge>): (r: seq<Edge>)
    ensures |r| == |es|
    ensures forall i :: 0 <= i < |es| ==> r[i] == es[i].(guard := ClearGuard(es[i].guard))
  {
    seq(|es|, i requires 0 <= i < |es| => es[i].(guard := ClearGuard(es[i].guard)))
  }

  /** The approve action's effect on the mesh: no guard blocks any more, both
      in the messages and in the edges that share their policy objects. */
  function Unblock(mesh: Mesh): (r: Mesh)
    ensures BlockCount(r.messages) == 0
    ensures Mirrored(mesh) ==> Mirrored(r)
    ensures r.nodes == mesh.nodes
    ensures |r.messages| == |mesh.messages|
    ensures forall i :: 0 <= i < |mesh.messages| ==>
      r.messages[i] == mesh.messages[i].(guard := ClearGuard(mesh.messages[i].guard))
  {
    Mesh(mesh.nodes, ClearEdgeBlocks(mesh.edges), ClearBlocks(mesh.messages))
  }

  /** After approval the commit message of a run's mesh is `ok`, whether or
      not the run was blocked. */
  lemma ApprovedCommitIsOk(agents: seq<string>, gxp: bool, threshold: nat)
    ensures var ms := Unblock(Build(agents, gxp, threshold)).messages;
      |ms| == 3 && ms[2].kind == Commit && ms[2].guard == Some(Ok)
  {
  }

  /** Unblocking twice is unblocking once. */
  lemma UnblockIdempotent(mesh: Mesh)
    ensures Unblock(Unblock(mesh)) == Unblock(mesh)
  {
    var once := Unblock(mesh);
    assert ClearBlocks(once.messages) == once.messages;
    assert ClearEdgeBlocks(once.edges) == once.edges;
  }

  /** Unblocking a mesh with no block changes nothing. */
  lemma UnblockWithoutBlockIsIdentity(mesh: Mesh)
    requires BlockCount(mesh.messages) == 0
    requires Mirrored(mesh)
    ensures Unblock(mesh) == mesh
  {
    var r := Unblock(mesh);
    assert r.messages == mesh.messages;
    assert forall i :: 0 <= i < |mesh.edges| ==> mesh.edges[i].guard == mesh.messages[i].guard;
    assert r.edges == mesh.edges;
  }

  predicate HasNode(nodes: seq<Node>, id: string) {
    exists i :: 0 <= i < |nodes| && nodes[i].id == id
  }

  /** Messages drawn by the mesh view: only those whose sender and receiver
      are both nodes, in message order. */
  function Drawn(nodes: seq<Node>, ms: seq<Message>): (r: seq<Message>)
    ensures |r| <= |ms|
    ensures forall m :: m in r <==> m in ms && HasNode(nodes, m.from) && HasNode(nodes, m.to)
  {
    if |ms| == 0 then []
    else
      var rest := Drawn(nodes, ms[1..]);
      assert forall m :: m in ms <==> m == ms[0] || m in ms[1..];
      if HasNode(nodes, ms[0].from) && HasNode(nodes, ms[0].to) then [ms[0]] + rest else rest
  }

  /** Drawing keeps message order: the messages drawn from two consecutive
      runs of messages are those drawn from the first, then those drawn from
      the second. */
  lemma {:induction false} DrawnAppend(nodes: seq<Node>, a: seq<Message>, b: seq<Message>)
    ensures Drawn(nodes, a + b) == Drawn(nodes, a) + Drawn(nodes, b)
    decreases |a|
  {
    if |a| == 0 {
      assert a + b == b;
    } else {
      assert (a + b)[1..] == a[1..] + b;
      DrawnAppend(nodes, a[1..], b);
    }
  }

  /** When every message joins two nodes, every message is drawn. */
  lemma {:induction false} DrawnAll(nodes: seq<Node>, ms: seq<Message>)
    requires forall i :: 0 <= i < |ms| ==> HasNode(nodes, ms[i].from) && HasNode(nodes, ms[i].to)
    ensures Drawn(nodes, ms) == ms
    decreases |ms|
  {
    if |ms| > 0 {
      DrawnAll(nodes, ms[1..]);
      assert [ms[0]] + ms[1..] == ms;
    }
  }

  /** When no message joins two nodes, nothing is drawn. */
  lemma {:induction false} DrawnNone(nodes: seq<Node>, ms: seq<Message>)
    requires forall i :: 0 <= i < |ms| ==> !(HasNode(nodes, ms[i].from) && HasNode(nodes, ms[i].to))
    ensures Drawn(nodes, ms) == []
    decreases |ms|
  {
    if |ms| > 0 {
      DrawnNone(nodes, ms[1..]);
    }
  }
}
