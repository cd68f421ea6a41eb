/**
 * The knowledge graph served for visualisation (backend/app/main.py): one
 * link per lineage row that names both an article and a source, up to a
 * limit, and one node per id those links mention, kept in the order the ids
 * first appear.
 */
module KnowledgeGraph {
  import opened Wrappers
  import opened Text
  import opened LearningState

  /** A graph node: its id, display label (`caption`), group and metadata. */
  datatype Node = Node(id: string, caption: string, group: string, metadata: map<string, string>)

  /** A graph link from an article to one of its sources. */
  datatype Link = Link(source: string, target: string, relationship: string)

  /** The nodes in the order they were first added, and the links in row order. */
  datatype Graph = Graph(nodes: seq<Node>, links: seq<Link>)

  /** The link a lineage row gives, or none when its article id or source id is empty. */
  function LinkOf(row: Row): Option<Link> {
    var kbId := Field(row, "KB_Article_ID");
    var sourceId := Field(row, "Source_ID");
    if kbId == "" || sourceId == "" then None
    else Some(Link(kbId, sourceId, FieldOr(row, "Relationship", "RELATED")))
  }

  /** Every link the lineage rows give, in row order, with no limit: the reference the walk is checked against. */
  function RowLinks(rows: seq<Row>): (r: seq<Link>)
    ensures |r| <= |rows|
  {
    if rows == [] then []
    else
      match LinkOf(rows[0])
      case Some(l) => [l] + RowLinks(rows[1..])
      case None => RowLinks(rows[1..])
  }

  /** The ids of the nodes. */
  function NodeIds(nodes: seq<Node>): set<string> {
    set n | n in nodes :: n.id
  }

  /** No two nodes share an id, as in a dict keyed by id. */
  predicate UniqueIds(nodes: seq<Node>) {
    forall i, j | 0 <= i < j < |nodes| :: nodes[i].id != nodes[j].id
  }

  /** The ids the links mention, at either end. */
  function Endpoints(links: seq<Link>): set<string> {
    (set l | l in links :: l.source) + (set l | l in links :: l.target)
  }

  /** `if id not in nodes_map: nodes_map[id] = node`: the node is added only under a new id, at the end. */
  function AddNode(nodes: seq<Node>, n: Node): (r: seq<Node>)
    ensures NodeIds(r) == NodeIds(nodes) + {n.id}
    ensures UniqueIds(nodes) ==> UniqueIds(r)
    ensures forall m :: m in r <==> m in nodes || (m == n && n.id !in NodeIds(nodes))
  {
    if n.id in NodeIds(nodes) then nodes
    else
      var r := nodes + [n];
      assert forall m :: m in r <==> m in nodes || m == n;
      assert NodeIds(r) == NodeIds(nodes) + {n.id} by {
        forall id | id in NodeIds(nodes) + {n.id} ensures id in NodeIds(r) {
          if id != n.id { var m :| m in nodes && m.id == id; assert m in r; }
        }
      }
      r
  }

  /** The node group of a source type: Conversation and Script have their own, anything else is a ticket. */
  function SourceGroup(sourceType: string): (g: string)
    ensures g == "conversation" <==> sourceType == "Conversation"
    ensures g == "script" <==> sourceType == "Script"
    ensures g in {"ticket", "conversation", "script"}
  {
    if sourceType == "Conversation" then "conversation"
    else if sourceType == "Script" then "script"
    else "ticket"
  }

  /** The first conversation row whose `Conversation_ID` is `id`. */
  function FirstConversation(rows: seq<Row>, id: string): (r: Option<nat>)
    ensures r.Some? ==> r.value < |rows| && "Conversation_ID" in rows[r.value] && rows[r.value]["Conversation_ID"] == id
    ensures r.Some? ==> forall j :: 0 <= j < r.value ==> !("Conversation_ID" in rows[j] && rows[j]["Conversation_ID"] == id)
    ensures r.None? ==> forall j :: 0 <= j < |rows| ==> !("Conversation_ID" in rows[j] && rows[j]["Conversation_ID"] == id)
  {
    if rows == [] then None
    else if "Conversation_ID" in rows[0] && rows[0]["Conversation_ID"] == id then Some(0)
    else
      var r := FirstConversation(rows[1..], id);
      if r.Some? then Some(r.value + 1) else None
  }

  /**
   * The conversation record a conversation node is labelled from: the lookup's
   * record when it is found, else the first conversation row with that id,
   * else the empty record.
   */
  function ConversationFor(st: State, id: string): (conv: Row)
    ensures Found(Get(st.conversations, id)) ==> conv == st.conversations[id]
    ensures !Found(Get(st.conversations, id)) ==>
      match FirstConversation(st.conversationRows, id)
      case Some(j) => conv == st.conversationRows[j]
      case None => conv == map[]
  {
    var conv := OrEmpty(Get(st.conversations, id));
    if conv != map[] then conv
    else
      match FirstConversation(st.conversationRows, id)
      case Some(j) => st.conversationRows[j]
      case None => conv
  }

  /** The node of an article: labelled with its title (its id when the article is unknown), with its module and category. */
  function KbNode(st: State, id: string): (n: Node) {
    var kb := OrEmpty(Get(st.kbArticles, id));
    Node(id, FieldOr(kb, "Title", id), "kb_article",
         map["module" := Field(kb, "Module"), "category" := Field(kb, "Category")])
  }

  /**
   * The node of a source in `group`: a ticket is labelled with its subject and
   * carries its status and priority, a script with its title and a
   * conversation with its issue summary, each falling back to the id.
   */
  function SourceNode(st: State, id: string, group: string): (n: Node) {
    if group == "ticket" then
      var tk := OrEmpty(Get(st.tickets, id));
      Node(id, FieldOr(tk, "Subject", id), group, map["status" := Field(tk, "Status"), "priority" := Field(tk, "Priority")])
    else if group == "script" then
      Node(id, FieldOr(OrEmpty(Get(st.scripts, id)), "Script_Title", id), group, map[])
    else
      Node(id, FieldOr(ConversationFor(st, id), "Issue_Summary", id), group, map[])
  }

  /** A node as the graph builds it: the article node or a source node of its id. */
  predicate NodeFromState(st: State, n: Node) {
    n == KbNode(st, n.id) || n == SourceNode(st, n.id, "ticket")
    || n == SourceNode(st, n.id, "conversation") || n == SourceNode(st, n.id, "script")
  }

  /** What the graph keeps throughout: unique node ids, exactly the link endpoints, each node built from the state. */
  predicate GraphShaped(st: State, g: Graph) {
    && UniqueIds(g.nodes)
    && NodeIds(g.nodes) == Endpoints(g.links)
    && forall n :: n in g.nodes ==> NodeFromState(st, n)
  }

  /** One row of the loop: a row with an empty id is skipped; otherwise the two nodes are added if new and the link appended. */
  function Step(st: State, g: Graph, row: Row): (r: Graph)
    ensures LinkOf(row).None? ==> r == g
    ensures LinkOf(row).Some? ==> r.links == g.links + [LinkOf(row).value]
  {
    match LinkOf(row)
    case None => g
    case Some(l) =>
      var withKb := AddNode(g.nodes, KbNode(st, l.source));
      Graph(AddNode(withKb, SourceNode(st, l.target, SourceGroup(Field(row, "Source_Type")))), g.links + [l])
  }

  /** The loop over the lineage rows; the link count is the number of links so far, and the loop stops once it reaches `limit`. */
  function Walk(st: State, rows: seq<Row>, limit: nat, g: Graph): Graph
    decreases |rows|
  {
    if rows == [] || |g.links| >= limit then g
    else Walk(st, rows[1..], limit, Step(st, g, rows[0]))
  }

  lemma EndpointsAppend(links: seq<Link>, l: Link)
    ensures Endpoints(links + [l]) == Endpoints(links) + {l.source, l.target}
  {
    var r := links + [l];
    assert forall x :: x in r <==> x in links || x == l;
  }

  /** A step keeps the graph shaped. */
  lemma StepShaped(st: State, g: Graph, row: Row)
    requires GraphShaped(st, g)
    ensures GraphShaped(st, Step(st, g, row))
  {
    if LinkOf(row).Some? {
      var l := LinkOf(row).value;
      EndpointsAppend(g.links, l);
      StepNodesFromState(st, g, row);
    }
  }

  /** The nodes a step adds are an article node and a source node. */
  lemma StepNodesFromState(st: State, g: Graph, row: Row)
    requires forall n :: n in g.nodes ==> NodeFromState(st, n)
    ensures forall n :: n in Step(st, g, row).nodes ==> NodeFromState(st, n)
  {
    if LinkOf(row).Some? {
      var l := LinkOf(row).value;
      assert NodeFromState(st, KbNode(st, l.source));
      assert NodeFromState(st, SourceNode(st, l.target, SourceGroup(Field(row, "Source_Type"))));
    }
  }

  /** The walk keeps the graph shaped. */
  lemma {:induction false} WalkShaped(st: State, rows: seq<Row>, limit: nat, g: Graph)
    requires GraphShaped(st, g)
    ensures GraphShaped(st, Walk(st, rows, limit, g))
    decreases |rows|
  {
    if rows != [] && |g.links| < limit {
      StepShaped(st, g, rows[0]);
      WalkShaped(st, rows[1..], limit, Step(st, g, rows[0]));
    }
  }

  /** The walk appends the first links the rows give, as many as the limit leaves room for. */
  lemma {:induction false} WalkLinks(st: State, rows: seq<Row>, limit: nat, g: Graph)
    requires |g.links| <= limit
    ensures Walk(st, rows, limit, g).links == g.links + Take(RowLinks(rows), limit - |g.links|)
    decreases |rows|
  {
    if rows == [] || |g.links| >= limit {
      assert g.links + [] == g.links;
    } else {
      WalkLinks(st, rows[1..], limit, Step(st, g, rows[0]));
      StepLinks(st, g, rows, limit);
    }
  }

  /** One step of `WalkLinks`: the links of the step, then the rest's, are the first ones of all the rows. */
  lemma StepLinks(st: State, g: Graph, rows: seq<Row>, limit: nat)
    requires rows != [] && |g.links| < limit
    ensures var next := Step(st, g, rows[0]);
      && |next.links| <= limit
      && next.links + Take(RowLinks(rows[1..]), limit - |next.links|) == g.links + Take(RowLinks(rows), limit - |g.links|)
  {
    var rest := RowLinks(rows[1..]);
    if LinkOf(rows[0]).Some? {
      var l := LinkOf(rows[0]).value;
      var n := limit - |g.links|;
      TakeCons(l, rest, n);
      assert (g.links + [l]) + Take(rest, n - 1) == g.links + ([l] + Take(rest, n - 1));
    }
  }

  lemma TakeCons<T>(x: T, s: seq<T>, n: nat)
    requires n >= 1
    ensures Take([x] + s, n) == [x] + Take(s, n - 1)
  {
  }

  /**
   * The node of `id` as the first row that mentions it builds it: a row whose
   * article id is `id` gives the article node; otherwise a row whose source id
   * is `id` gives a source node in the group of that row's `Source_Type`. Rows
   * with an empty id give nothing.
   */
  function FirstNode(st: State, rows: seq<Row>, id: string): Option<Node> {
    if rows == [] then None
    else
      match LinkOf(rows[0])
      case None => FirstNode(st, rows[1..], id)
      case Some(l) =>
        if l.source == id then Some(KbNode(st, id))
        else if l.target == id then Some(SourceNode(st, id, SourceGroup(Field(rows[0], "Source_Type"))))
        else FirstNode(st, rows[1..], id)
  }

  /** The first mention in `a + b` is the first in `a`, when `a` has one. */
  lemma {:induction false} FirstNodeAppend(st: State, a: seq<Row>, b: seq<Row>, id: string)
    ensures FirstNode(st, a + b, id) == if FirstNode(st, a, id).Some? then FirstNode(st, a, id) else FirstNode(st, b, id)
  {
    if a == [] {
      assert a + b == b;
    } else {
      assert (a + b)[0] == a[0] && (a + b)[1..] == a[1..] + b;
      FirstNodeAppend(st, a[1..], b, id);
    }
  }

  /** The graph holds, for each id the rows `done` mention, the node its first mention builds, and no other. */
  ghost predicate FirstMentions(st: State, done: seq<Row>, g: Graph) {
    && (forall n :: n in g.nodes ==> FirstNode(st, done, n.id) == Some(n))
    && (forall id :: FirstNode(st, done, id).Some? ==> id in NodeIds(g.nodes))
  }

  /** The first mention within one row. */
  lemma FirstNodeOfRow(st: State, row: Row, id: string)
    ensures FirstNode(st, [row], id) ==
      match LinkOf(row)
      case None => None
      case Some(l) =>
        if l.source == id then Some(KbNode(st, id))
        else if l.target == id then Some(SourceNode(st, id, SourceGroup(Field(row, "Source_Type"))))
        else None
  {
    assert [row][0] == row && [row][1..] == [];
  }

  /** A step keeps every node the first mention of its id, counting the step's row. */
  lemma StepNodesFirst(st: State, done: seq<Row>, g: Graph, row: Row)
    requires FirstMentions(st, done, g)
    ensures forall n :: n in Step(st, g, row).nodes ==> FirstNode(st, done + [row], n.id) == Some(n)
  {
    var next := Step(st, g, row);
    forall n | n in next.nodes ensures FirstNode(st, done + [row], n.id) == Some(n) {
      FirstNodeAppend(st, done, [row], n.id);
      FirstNodeOfRow(st, row, n.id);
      if n !in g.nodes {
        var l := LinkOf(row).value;
        var withKb := AddNode(g.nodes, KbNode(st, l.source));
        if n in withKb {
          assert n == KbNode(st, l.source) && l.source !in NodeIds(g.nodes);
        } else {
          assert l.target !in NodeIds(withKb);
          assert l.target != l.source && l.target !in NodeIds(g.nodes);
        }
      }
    }
  }

  /** After a step, every id the rows so far mention has a node. */
  lemma StepIdsKnown(st: State, done: seq<Row>, g: Graph, row: Row)
    requires FirstMentions(st, done, g)
    ensures forall id :: FirstNode(st, done + [row], id).Some? ==> id in NodeIds(Step(st, g, row).nodes)
  {
    var next := Step(st, g, row);
    forall id | FirstNode(st, done + [row], id).Some? ensures id in NodeIds(next.nodes) {
      FirstNodeAppend(st, done, [row], id);
      FirstNodeOfRow(st, row, id);
    }
  }

  /** A step extends `FirstMentions` by its row: a node is added only under an id not seen before. */
  lemma StepFirstMentions(st: State, done: seq<Row>, g: Graph, row: Row)
    requires FirstMentions(st, done, g)
    ensures FirstMentions(st, done + [row], Step(st, g, row))
  {
    StepNodesFirst(st, done, g, row);
    StepIdsKnown(st, done, g, row);
  }

  /** The walk ends with the node each id's first mention builds. */
  lemma {:induction false} WalkFirstMentions(st: State, done: seq<Row>, rows: seq<Row>, limit: nat, g: Graph)
    requires FirstMentions(st, done, g)
    ensures forall n :: n in Walk(st, rows, limit, g).nodes ==> FirstNode(st, done + rows, n.id) == Some(n)
    decreases |rows|
  {
    if rows == [] || |g.links| >= limit {
      forall n | n in g.nodes ensures FirstNode(st, done + rows, n.id) == Some(n) {
        FirstNodeAppend(st, done, rows, n.id);
      }
    } else {
      StepFirstMentions(st, done, g, rows[0]);
      WalkFirstMentions(st, done + [rows[0]], rows[1..], limit, Step(st, g, rows[0]));
      assert (done + [rows[0]]) + rows[1..] == done + rows;
    }
  }

  /** The node ids in node order. */
  function NodeIdSeq(nodes: seq<Node>): (ids: seq<string>)
    ensures |ids| == |nodes| && forall i :: 0 <= i < |nodes| ==> ids[i] == nodes[i].id
  {
    seq(|nodes|, i requires 0 <= i < |nodes| => nodes[i].id)
  }

  /** `id` appended unless already listed. */
  function AddId(ids: seq<string>, id: string): seq<string> {
    if id in ids then ids else ids + [id]
  }

  /**
   * The ids the links mention, each once, in the order they first appear:
   * a link's article id before its source id. This is the reference the
   * node order is checked against.
   */
  function MentionOrder(links: seq<Link>): seq<string>
    decreases |links|
  {
    if links == [] then []
    else
      var l := links[|links| - 1];
      AddId(AddId(MentionOrder(links[..|links| - 1]), l.source), l.target)
  }

  /** Adding a node adds its id to the id sequence exactly as `AddId` does. */
  lemma AddNodeIds(nodes: seq<Node>, n: Node)
    ensures NodeIdSeq(AddNode(nodes, n)) == AddId(NodeIdSeq(nodes), n.id)
  {
    var ids := NodeIdSeq(nodes);
    if n.id in NodeIds(nodes) {
      var m :| m in nodes && m.id == n.id;
      var k :| 0 <= k < |nodes| && nodes[k] == m;
      assert ids[k] == n.id;
    } else {
      assert NodeIdSeq(nodes + [n]) == ids + [n.id];
    }
  }

  /** A step keeps the node ids in mention order. */
  lemma StepOrder(st: State, g: Graph, row: Row)
    requires NodeIdSeq(g.nodes) == MentionOrder(g.links)
    ensures var next := Step(st, g, row); NodeIdSeq(next.nodes) == MentionOrder(next.links)
  {
    if LinkOf(row).Some? {
      var l := LinkOf(row).value;
      var withKb := AddNode(g.nodes, KbNode(st, l.source));
      AddNodeIds(g.nodes, KbNode(st, l.source));
      AddNodeIds(withKb, SourceNode(st, l.target, SourceGroup(Field(row, "Source_Type"))));
      var links := g.links + [l];
      assert links[..|links| - 1] == g.links && links[|links| - 1] == l;
    }
  }

  /** The walk keeps the node ids in the order the links first mention them. */
  lemma {:induction false} WalkOrder(st: State, rows: seq<Row>, limit: nat, g: Graph)
    requires NodeIdSeq(g.nodes) == MentionOrder(g.links)
    ensures var r := Walk(st, rows, limit, g); NodeIdSeq(r.nodes) == MentionOrder(r.links)
    decreases |rows|
  {
    if rows != [] && |g.links| < limit {
      StepOrder(st, g, rows[0]);
      WalkOrder(st, rows[1..], limit, Step(st, g, rows[0]));
    }
  }

  /**
   * `get_knowledge_graph`: a limit outside 10..500 is refused (422); otherwise
   * the graph of the lineage rows, built as `Walk` does.
   */
  function GetKnowledgeGraph(st: State, limit: int): (r: Result<Graph, ApiError>)
    ensures r.Err? <==> limit < 10 || limit > 500
    ensures r.Err? ==> r.error.Unprocessable422?
    ensures r.Ok? ==> |r.value.links| <= limit
  {
    if limit < 10 || limit > 500 then Err(Unprocessable422("query parameter out of range"))
    else
      var g := Walk(st, st.lineage, limit, Graph([], []));
      WalkLinks(st, st.lineage, limit, Graph([], []));
      Ok(g)
  }

  /**
   * The graph's links are the first `limit` links the lineage rows give, in
   * row order; its nodes have distinct ids, are exactly the ids at the ends of
   * those links, and each is the node the first lineage row mentioning its id
   * builds: a later row naming the same id with another source type does not
   * change its group. The nodes come in the order their ids are first mentioned.
   */
  lemma GraphContents(st: State, limit: int)
    requires 10 <= limit <= 500
    ensures var r := GetKnowledgeGraph(st, limit);
      && r.Ok?
      && r.value.links == Take(RowLinks(st.lineage), limit)
      && GraphShaped(st, r.value)
      && (forall n :: n in r.value.nodes ==> FirstNode(st, st.lineage, n.id) == Some(n))
      && NodeIdSeq(r.value.nodes) == MentionOrder(Take(RowLinks(st.lineage), limit))
  {
    var empty := Graph([], []);
    WalkOrder(st, st.lineage, limit, empty);
    assert FirstMentions(st, [], empty);
    WalkFirstMentions(st, [], st.lineage, limit, empty);
    assert [] + st.lineage == st.lineage;
    assert Endpoints(empty.links) == {};
    WalkLinks(st, st.lineage, limit, empty);
    WalkShaped(st, st.lineage, limit, empty);
    assert [] + Take(RowLinks(st.lineage), limit) == Take(RowLinks(st.lineage), limit);
  }
}
