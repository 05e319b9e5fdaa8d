/** The leadership network view: four nodes joined by lines, a clicked node
    whose details are shown, and a hovered node. */
module Network {
  import opened Wrappers

  datatype Node = Node(id: string, title: string, color: string, impact: nat)

  const Nodes: seq<Node> := [
    Node("ieee", "IEEE Leadership", "blue", 500),
    Node("rotaract", "Community Service", "red", 1000),
    Node("innovation", "Technical Innovation", "green", 300),
    Node("mentorship", "Leadership Development", "purple", 250)
  ]

  datatype Connection = Connection(from: string, to: string)

  const ConnectionLines: seq<Connection> := [
    Connection("ieee", "innovation"), Connection("ieee", "mentorship"),
    Connection("rotaract", "mentorship"), Connection("innovation", "mentorship")
  ]

  predicate HasId(nodes: seq<Node>, id: string) {
    exists k :: 0 <= k < |nodes| && nodes[k].id == id
  }

  predicate UniqueIds(nodes: seq<Node>) {
    forall a, b :: 0 <= a < b < |nodes| ==> nodes[a].id != nodes[b].id
  }

  lemma NodesUnique()
    ensures UniqueIds(Nodes)
  {
  }

  /** `nodes.find(n => n.id === id)`: the first node with that id. */
  function Find(nodes: seq<Node>, id: string): (r: Option<Node>)
    ensures r.None? <==> !HasId(nodes, id)
    ensures r.Some? ==> r.value.id == id && r.value in nodes
  {
    if |nodes| == 0 then None
    else if nodes[0].id == id then Some(nodes[0])
    else
      var r := Find(nodes[1..], id);
      assert HasId(nodes[1..], id) ==> HasId(nodes, id) by {
        if HasId(nodes[1..], id) {
          var k :| 0 <= k < |nodes| - 1 && nodes[1..][k].id == id;
          assert nodes[k + 1].id == id;
        }
      }
      assert HasId(nodes, id) ==> HasId(nodes[1..], id) by {
        if HasId(nodes, id) {
          var k :| 0 <= k < |nodes| && nodes[k].id == id;
          assert nodes[1..][k - 1].id == id;
        }
      }
      r
  }

  /** With unique ids, finding a node's id gives that node back. */
  lemma {:induction false} FindUnique(nodes: seq<Node>, k: nat)
    requires UniqueIds(nodes) && k < |nodes|
    ensures Find(nodes, nodes[k].id) == Some(nodes[k])
  {
    if k > 0 {
      assert nodes[0].id != nodes[k].id;
      FindUnique(nodes[1..], k - 1);
    }
  }

  datatype State = State(selectedNode: Option<string>, hoveredNode: Option<string>)

  const Initial: State := State(None, None)

  /** Clicking a node: deselects it if it was selected, else selects it. */
  function Click(st: State, id: string): (t: State)
    ensures st.selectedNode == Some(id) ==> t.selectedNode == None
    ensures st.selectedNode != Some(id) ==> t.selectedNode == Some(id)
    ensures t.hoveredNode == st.hoveredNode
  {
    st.(selectedNode := if st.selectedNode == Some(id) then None else Some(id))
  }

  function HoverStart(st: State, id: string): (t: State)
    ensures t.hoveredNode == Some(id) && t.selectedNode == st.selectedNode
  {
    st.(hoveredNode := Some(id))
  }

  function HoverEnd(st: State): (t: State)
    ensures t.hoveredNode == None && t.selectedNode == st.selectedNode
  {
    st.(hoveredNode := None)
  }

  /** `selectedNodeData`: nothing when no node (or the empty id) is selected. */
  function SelectedNodeData(st: State): (r: Option<Node>)
    ensures r.None? <==> st.selectedNode.None? || st.selectedNode.value == "" || !HasId(Nodes, st.selectedNode.value)
    ensures r.Some? ==> st.selectedNode == Some(r.value.id) && r.value in Nodes
  {
    if st.selectedNode.Some? && st.selectedNode.value != "" then Find(Nodes, st.selectedNode.value)
    else None
  }

  /** The selection only ever holds ids of nodes. */
  predicate Reachable(st: State) {
    st.selectedNode.Some? ==> HasId(Nodes, st.selectedNode.value)
  }

  /** Clicking a node keeps the selection among the nodes. */
  lemma ClickReachable(st: State, k: nat)
    requires Reachable(st) && k < |Nodes|
    ensures Reachable(Click(st, Nodes[k].id))
  {
  }

  /** The detail panel shows exactly the selected node, and nothing when
      there is no selection. */
  lemma SelectedDataIsNode(st: State)
    requires Reachable(st)
    ensures SelectedNodeData(st).None? <==> st.selectedNode.None?
    ensures st.selectedNode.Some? ==>
              exists k :: 0 <= k < |Nodes| && Nodes[k].id == st.selectedNode.value
                          && SelectedNodeData(st) == Some(Nodes[k])
  {
    if st.selectedNode.Some? {
      var k :| 0 <= k < |Nodes| && Nodes[k].id == st.selectedNode.value;
      NodesUnique();
      FindUnique(Nodes, k);
    }
  }

  datatype ColorClasses = ColorClasses(bg: string, border: string, text: string)

  /** The table of `getColorClasses`. */
  const Palette: map<string, ColorClasses> := map[
    "blue" := ColorClasses("bg-blue-500/20", "border-blue-500/30", "text-blue-400"),
    "red" := ColorClasses("bg-red-500/20", "border-red-500/30", "text-red-400"),
    "green" := ColorClasses("bg-green-500/20", "border-green-500/30", "text-green-400"),
    "purple" := ColorClasses("bg-purple-500/20", "border-purple-500/30", "text-purple-400")]

  /** `getColorClasses`: the table entry, or the blue entry. */
  function GetColorClasses(color: string): (r: ColorClasses)
    ensures r in Palette.Values
    ensures color in Palette ==> r == Palette[color]
  {
    if color in Palette then Palette[color] else Palette["blue"]
  }

  /** The four colours get four different triples, and every other string
      gets the blue one. */
  lemma ColorFallback(color: string)
    ensures GetColorClasses(color) == GetColorClasses("blue") <==> color !in {"red", "green", "purple"}
  {
    assert Palette["red"].text[5] == 'r' && Palette["green"].text[5] == 'g';
    assert Palette["purple"].text[5] == 'p' && Palette["blue"].text[5] == 'b';
  }

  /** Every node's colour is in the table. */
  lemma NodeColorsKnown(k: nat)
    requires k < |Nodes|
    ensures Nodes[k].color in Palette
  {
  }

  /** A line's two end nodes, or nothing when either is missing. */
  function Line(c: Connection): (r: Option<(Node, Node)>)
    ensures r.Some? <==> HasId(Nodes, c.from) && HasId(Nodes, c.to)
    ensures r.Some? ==> r.value.0.id == c.from && r.value.1.id == c.to
  {
    var a := Find(Nodes, c.from);
    var b := Find(Nodes, c.to);
    if a.None? || b.None? then None else Some((a.value, b.value))
  }

  /** Every defined line joins two existing nodes, so every line is drawn. */
  lemma AllLinesDrawn(i: nat)
    requires i < |ConnectionLines|
    ensures Line(ConnectionLines[i]).Some?
  {
    var c := ConnectionLines[i];
    assert Nodes[0].id == "ieee" && Nodes[1].id == "rotaract";
    assert Nodes[2].id == "innovation" && Nodes[3].id == "mentorship";
    assert HasId(Nodes, c.from) && HasId(Nodes, c.to);
  }
}
