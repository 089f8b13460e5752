/** The editor's graph store (src/WorkflowApp.jsx): the immutable node list,
    the keyed shallow merge `updateNodeData`, `onAddNode`, the projection of
    the graph into an execution request, and the reconciliation of
    `all_outputs` back onto the live nodes. */
module Workflow {
  import opened Common
  import opened JsValue
  import opened NodeKinds
  import opened Wire

  /** A canvas node. Its position (random floats) and the `updateNodeData`
      closure stored in its data are not part of the model. */
  datatype Node = Node(id: string, kind: string, data: Data)

  /** One call `updateNodeData(id, partial)`. */
  datatype Update = Update(id: string, partial: Data)

  /** `merged` is `{...base, ...partial}`: the keys of `partial` take its values
      (an explicit `undefined` included) and every other key of `base` keeps
      its value. */
  ghost predicate MergedOver(merged: Data, base: Data, partial: Data) {
    && merged.Keys == base.Keys + partial.Keys
    && (forall k :: k in partial ==> merged[k] == partial[k])
    && (forall k :: k in base && k !in partial ==> merged[k] == base[k])
  }

  /** Nodes `r` are `nodes` with the same ids and kinds in the same order. */
  ghost predicate SameShape(r: seq<Node>, nodes: seq<Node>) {
    && |r| == |nodes|
    && forall i :: 0 <= i < |nodes| ==> r[i].id == nodes[i].id && r[i].kind == nodes[i].kind
  }

  function UpdateNodeData(nodes: seq<Node>, id: string, partial: Data): (r: seq<Node>)
    ensures SameShape(r, nodes)
    ensures forall i :: 0 <= i < |nodes| && nodes[i].id != id ==> r[i] == nodes[i]
    ensures forall i :: 0 <= i < |nodes| && nodes[i].id == id ==> MergedOver(r[i].data, nodes[i].data, partial)
  {
    seq(|nodes|, i requires 0 <= i < |nodes| =>
      if nodes[i].id == id then nodes[i].(data := nodes[i].data + partial) else nodes[i])
  }

  function Apply(nodes: seq<Node>, u: Update): seq<Node> {
    UpdateNodeData(nodes, u.id, u.partial)
  }

  /** An id that matches no node leaves the list as it was. */
  lemma UpdateUnmatchedIsIdentity(nodes: seq<Node>, id: string, partial: Data)
    requires forall i :: 0 <= i < |nodes| ==> nodes[i].id != id
    ensures UpdateNodeData(nodes, id, partial) == nodes
  {
  }

  /** Repeating an update changes nothing more. */
  lemma UpdateIdempotent(nodes: seq<Node>, id: string, partial: Data)
    ensures UpdateNodeData(UpdateNodeData(nodes, id, partial), id, partial) == UpdateNodeData(nodes, id, partial)
  {
    var once := UpdateNodeData(nodes, id, partial);
    var twice := UpdateNodeData(once, id, partial);
    forall i | 0 <= i < |nodes|
      ensures twice[i] == once[i]
    {
      if nodes[i].id == id {
        assert twice[i].data == once[i].data;
      }
    }
  }

  /** Updates addressed to two different ids commute. */
  lemma UpdatesOnDistinctIdsCommute(nodes: seq<Node>, a: string, pa: Data, b: string, pb: Data)
    requires a != b
    ensures UpdateNodeData(UpdateNodeData(nodes, a, pa), b, pb)
         == UpdateNodeData(UpdateNodeData(nodes, b, pb), a, pa)
  {
  }

  /** `getNodeLabel`: the display label seeded into a new node. */
  function NodeLabel(kind: string): (name: string)
    ensures name == "Node" <==> !IsKnownKind(kind)
    ensures kind == ImageInput ==> name == "Image Input"
    ensures kind == TextInput ==> name == "Text Input"
    ensures kind == PromptBox ==> name == "Prompt Box"
    ensures kind == GenImageBlock ==> name == "Generate Image"
  {
    if kind == ImageInput then "Image Input"
    else if kind == TextInput then "Text Input"
    else if kind == PromptBox then "Prompt Box"
    else if kind == GenImageBlock then "Generate Image"
    else "Node"
  }

  /** Known kinds are told apart by their labels. */
  lemma NodeLabelsDistinct(k1: string, k2: string)
    requires IsKnownKind(k1) && IsKnownKind(k2) && k1 != k2
    ensures NodeLabel(k1) != NodeLabel(k2)
  {
  }

  /** The data of a freshly added node. */
  function DefaultData(kind: string): Data {
    map[
      "label" := Str(NodeLabel(kind)),
      "prompt" := Str(""),
      "text" := Str(""),
      "imageData" := Null,
      "imagePath" := Str(""),
      "result" := Str(""),
      "resultImage" := Null
    ]
  }

  /** `onAddNode(kind)` with the id it generates passed in. */
  function AddNode(nodes: seq<Node>, id: string, kind: string): (r: seq<Node>)
    ensures |r| == |nodes| + 1 && r[..|nodes|] == nodes
    ensures r[|nodes|].id == id && r[|nodes|].kind == kind
    ensures r[|nodes|].data.Keys == {"label", "prompt", "text", "imageData", "imagePath", "result", "resultImage"}
    ensures r[|nodes|].data["label"] == Str(NodeLabel(kind))
    ensures forall k :: k in {"prompt", "text", "imagePath", "result"} ==> r[|nodes|].data[k] == Str("")
    ensures r[|nodes|].data["imageData"] == Null && r[|nodes|].data["resultImage"] == Null
  {
    nodes + [Node(id, kind, DefaultData(kind))]
  }

  /** The members of a node's data the execution request keeps. */
  const RequestKeys: set<string> := {"prompt", "text", "imagePath", "imageData"}

  /** Member `k` of the request data is `data.k || fallback`. */
  ghost predicate ProjectedMember(rd: Data, d: Data, k: string, fallback: JsVal) {
    k in rd && (Truthy(Get(d, k)) ==> rd[k] == d[k]) && (!Truthy(Get(d, k)) ==> rd[k] == fallback)
  }

  function ProjectData(d: Data): Data {
    map[
      "prompt" := Or(Get(d, "prompt"), Str("")),
      "text" := Or(Get(d, "text"), Str("")),
      "imagePath" := Or(Get(d, "imagePath"), Str("")),
      "imageData" := Or(Get(d, "imageData"), Null)
    ]
  }

  /** The request document built at the start of `executeWorkflow`. */
  function Project(nodes: seq<Node>, edges: seq<Edge>): (r: Request)
    ensures |r.nodes| == |nodes| && r.edges == edges
    ensures forall i :: 0 <= i < |nodes| ==>
      r.nodes[i].id == nodes[i].id && r.nodes[i].kind == nodes[i].kind && r.nodes[i].data.Keys == RequestKeys
    ensures forall i :: 0 <= i < |nodes| ==>
      && ProjectedMember(r.nodes[i].data, nodes[i].data, "prompt", Str(""))
      && ProjectedMember(r.nodes[i].data, nodes[i].data, "text", Str(""))
      && ProjectedMember(r.nodes[i].data, nodes[i].data, "imagePath", Str(""))
      && ProjectedMember(r.nodes[i].data, nodes[i].data, "imageData", Null)
  {
    Request(seq(|nodes|, i requires 0 <= i < |nodes| => ReqNode(nodes[i].id, nodes[i].kind, ProjectData(nodes[i].data))), edges)
  }

  /** No computed or display-only member ever reaches the backend, and the
      members that do have the shapes the backend expects. */
  lemma ProjectionIsWhitelisted(nodes: seq<Node>, edges: seq<Edge>, i: int)
    requires 0 <= i < |nodes|
    ensures var rd := Project(nodes, edges).nodes[i].data;
      && "result" !in rd && "resultImage" !in rd && "label" !in rd
      && rd["prompt"].Str? && rd["text"].Str? && rd["imagePath"].Str?
      && (rd["imageData"] == Null || Truthy(rd["imageData"]))
  {
  }

  /** `{...data, result, resultImage}` for one `all_outputs` entry: a member the
      entry leaves `undefined` keeps the old value, `null` overwrites it. */
  function ResultPartial(d: Data, o: Output): Data {
    map[
      "result" := if o.text != Undefined then o.text else Get(d, "result"),
      "resultImage" := if o.image != Undefined then o.image else Get(d, "resultImage")
    ]
  }

  /** `nd` is `d` with the entry `o` reconciled in. */
  ghost predicate Reconciled(nd: Data, d: Data, o: Output) {
    && nd.Keys == d.Keys + {"result", "resultImage"}
    && (o.text == Undefined ==> Get(nd, "result") == Get(d, "result"))
    && (o.text != Undefined ==> nd["result"] == o.text)
    && (o.image == Undefined ==> Get(nd, "resultImage") == Get(d, "resultImage"))
    && (o.image != Undefined ==> nd["resultImage"] == o.image)
    && (forall k :: k in d && k != "result" && k != "resultImage" ==> nd[k] == d[k])
  }

  /** The success branch of `executeWorkflow`: every live node with an entry in
      `all_outputs` takes its text and image; nodes without one, and every
      node when `all_outputs` is missing, keep their data. */
  function Reconcile(nodes: seq<Node>, allOutputs: Option<map<string, Output>>): (r: seq<Node>)
    ensures SameShape(r, nodes)
    ensures forall i :: 0 <= i < |nodes| && (allOutputs.None? || nodes[i].id !in allOutputs.value) ==> r[i] == nodes[i]
    ensures forall i :: 0 <= i < |nodes| && allOutputs.Some? && nodes[i].id in allOutputs.value ==>
      Reconciled(r[i].data, nodes[i].data, allOutputs.value[nodes[i].id])
  {
    seq(|nodes|, i requires 0 <= i < |nodes| =>
      if allOutputs.Some? && nodes[i].id in allOutputs.value
      then nodes[i].(data := nodes[i].data + ResultPartial(nodes[i].data, allOutputs.value[nodes[i].id]))
      else nodes[i])
  }

  /** Reconciling the same outputs twice is the same as once. */
  lemma ReconcileIdempotent(nodes: seq<Node>, allOutputs: Option<map<string, Output>>)
    ensures Reconcile(Reconcile(nodes, allOutputs), allOutputs) == Reconcile(nodes, allOutputs)
  {
    var once := Reconcile(nodes, allOutputs);
    var twice := Reconcile(once, allOutputs);
    forall i | 0 <= i < |nodes|
      ensures twice[i] == once[i]
    {
      if allOutputs.Some? && nodes[i].id in allOutputs.value {
        assert twice[i].data == once[i].data;
      }
    }
  }

  /** Reconciling one entry is the store's merge of the partial
      `{result, resultImage}` into the node with that id. */
  lemma ReconcileIsMerge(nodes: seq<Node>, id: string, o: Output)
    requires forall i, j :: 0 <= i < |nodes| && 0 <= j < |nodes| && nodes[i].id == id && nodes[j].id == id ==> nodes[i] == nodes[j]
    ensures forall i :: 0 <= i < |nodes| && nodes[i].id == id ==>
      Reconcile(nodes, Some(map[id := o]))[i] == UpdateNodeData(nodes, id, ResultPartial(nodes[i].data, o))[i]
  {
  }

  /** A worked reconciliation: nodes A and B, `all_outputs = {A: {text: "hi"}}`. */
  lemma ReconcileExample(a: Node, b: Node)
    requires a.id == "A" && b.id == "B"
    ensures var r := Reconcile([a, b], Some(map["A" := Output(Undefined, Str("hi"))]));
      && r[0].data["result"] == Str("hi")
      && Get(r[0].data, "resultImage") == Get(a.data, "resultImage")
      && r[1] == b
  {
  }
}
