/** The editor's execution coordination and selection (src/WorkflowApp.jsx,
    with the selection state that src/App.jsx owns): the two-state
    `isExecuting` flag, the trigger buttons' guard, the request sent on
    start, the handling of the response, and the selection callbacks. */
module Editor {
  import opened Common
  import opened JsValue
  import opened Wire
  import opened Workflow
  import Decimal

  datatype Editor = Editor(nodes: seq<Node>, edges: seq<Edge>, executing: bool, selected: Option<string>)

  /** An empty canvas, not executing, nothing selected (src/App.jsx:24, src/WorkflowApp.jsx:32-33, 50). */
  function Initial(): (e: Editor)
    ensures e.nodes == [] && e.edges == [] && !e.executing && e.selected.None?
  {
    Editor([], [], false, None)
  }

  /** Both execute buttons are rendered with
      `disabled={isExecuting || nodes.length === 0}`. */
  predicate ExecuteEnabled(e: Editor) {
    !e.executing && |e.nodes| > 0
  }

  datatype Started = Started(editor: Editor, request: Option<Request>)

  /** A click on an execute button: nothing happens while the button is
      disabled; otherwise the flag goes up, the selection is cleared and the
      projected request is sent. */
  function PressExecute(e: Editor): (r: Started)
    ensures r.request.Some? <==> ExecuteEnabled(e)
    ensures r.request.None? ==> r.editor == e
    ensures r.request.Some? ==>
      && r.editor == e.(executing := true, selected := None)
      && r.request.value == Project(e.nodes, e.edges)
      && |r.request.value.nodes| == |e.nodes| && |e.nodes| > 0
      && r.request.value.edges == e.edges
      && forall i :: 0 <= i < |e.nodes| ==> r.request.value.nodes[i].id == e.nodes[i].id
  {
    if ExecuteEnabled(e) then Started(e.(executing := true, selected := None), Some(Project(e.nodes, e.edges)))
    else Started(e, None)
  }

  /** Single flight: a second press while the first request is in flight sends nothing. */
  lemma SecondPressIsIgnored(e: Editor)
    ensures PressExecute(PressExecute(e).editor).request.None?
    ensures PressExecute(PressExecute(e).editor).editor == PressExecute(e).editor
  {
  }

  /** The body of a successful response: `results.all_outputs` may be missing. */
  datatype ExecBody = ExecBody(allOutputs: Option<map<string, Output>>)

  /** How the request ended. `Thrown` covers a rejected `fetch` and a body
      that is not JSON; its message is the runtime's. */
  datatype Response =
    | Thrown(message: string)
    | NotOk(status: int, errorBody: string)
    | Ok(body: ExecBody)

  datatype Completion = Completion(editor: Editor, alert: Option<string>)

  /** The message `executeWorkflow` passes to `alert` for a failed attempt. */
  function FailureAlert(r: Response): string
    requires !r.Ok?
  {
    match r
    case Thrown(m) => "Error executing workflow: " + m
    case NotOk(status, errorBody) =>
      "Error executing workflow: Server responded with " + Decimal.IntToString(status) + ": " + errorBody
  }

  /** The rest of `executeWorkflow` once the response is in, applied to the
      live editor state: a success reconciles `all_outputs` into the nodes, a
      failure alerts and changes no node, and the flag comes down on both paths. */
  function Complete(e: Editor, resp: Response): (r: Completion)
    ensures !r.editor.executing
    ensures r.editor.edges == e.edges && r.editor.selected == e.selected
    ensures r.alert.None? <==> resp.Ok?
    ensures !resp.Ok? ==> r.editor.nodes == e.nodes
    ensures resp.Ok? ==> r.editor.nodes == Reconcile(e.nodes, resp.body.allOutputs)
    ensures resp.NotOk? ==> HasPrefix(r.alert.value, "Error executing workflow: Server responded with ")
    ensures resp.Thrown? ==> r.alert == Some("Error executing workflow: " + resp.message)
  {
    match resp
    case Ok(body) => Completion(e.(nodes := Reconcile(e.nodes, body.allOutputs), executing := false), None)
    case _ => Completion(e.(executing := false), Some(FailureAlert(resp)))
  }

  /** A full attempt from an idle editor returns to idle and never touches
      the edges; a failed one leaves every node as it was. */
  lemma ExecutionRoundTrip(e: Editor, resp: Response)
    requires ExecuteEnabled(e)
    ensures var c := Complete(PressExecute(e).editor, resp);
      && !c.editor.executing && c.editor.selected.None? && c.editor.edges == e.edges
      && (!resp.Ok? ==> c.editor.nodes == e.nodes)
      && ExecuteEnabled(c.editor)
  {
    var s := PressExecute(e).editor;
    var c := Complete(s, resp);
    if resp.Ok? {
      assert |c.editor.nodes| == |e.nodes|;
    }
  }

  /** True iff some node of `deleted` has id `id`. */
  function AnyHasId(deleted: seq<Node>, id: string): (b: bool)
    ensures b <==> exists i :: 0 <= i < |deleted| && deleted[i].id == id
  {
    if deleted == [] then false
    else deleted[0].id == id || AnyHasId(deleted[1..], id)
  }

  /** `onNodesDelete`: selection is cleared exactly when one of the deleted
      nodes is the selected one. Removing the nodes themselves is the canvas
      library's business. */
  function OnNodesDelete(e: Editor, deleted: seq<Node>): (r: Editor)
    ensures r.nodes == e.nodes && r.edges == e.edges && r.executing == e.executing
    ensures r.selected.None? <==> (e.selected.None? || exists i :: 0 <= i < |deleted| && Some(deleted[i].id) == e.selected)
    ensures r.selected.Some? ==> r.selected == e.selected
  {
    if e.selected.Some? && AnyHasId(deleted, e.selected.value) then e.(selected := None) else e
  }

  /** `onNodeClick`: the clicked node becomes the selected one. */
  function OnNodeClick(e: Editor, id: string): (r: Editor)
    ensures r.selected == Some(id)
    ensures r.nodes == e.nodes && r.edges == e.edges && r.executing == e.executing
  {
    e.(selected := Some(id))
  }

  /** `onPaneClick`: a click on the empty canvas clears the selection. */
  function OnPaneClick(e: Editor): (r: Editor)
    ensures r.selected.None?
    ensures r.nodes == e.nodes && r.edges == e.edges && r.executing == e.executing
  {
    e.(selected := None)
  }

  /** After a click on a node, deleting that node clears the selection, and
      deleting only other nodes keeps it. */
  lemma DeleteAfterClick(e: Editor, id: string, deleted: seq<Node>)
    ensures OnNodesDelete(OnNodeClick(e, id), deleted).selected.None?
        <==> exists i :: 0 <= i < |deleted| && deleted[i].id == id
  {
  }

  /** `onAddNode` on the editor: the node list grows by the new node; the
      flag and the selection are untouched. */
  function OnAddNode(e: Editor, id: string, kind: string): (r: Editor)
    ensures r.nodes == AddNode(e.nodes, id, kind)
    ensures r.edges == e.edges && r.executing == e.executing && r.selected == e.selected
    ensures |r.nodes| > 0
  {
    e.(nodes := AddNode(e.nodes, id, kind))
  }

  /** `onConnect`: the canvas library appends the new edge. */
  function OnConnect(e: Editor, edge: Edge): (r: Editor)
    ensures r.edges == e.edges + [edge] && r.nodes == e.nodes
    ensures r.executing == e.executing && r.selected == e.selected
  {
    e.(edges := e.edges + [edge])
  }

  /** A node edit routed through `updateNodeData`. */
  function OnUpdate(e: Editor, u: Update): (r: Editor)
    ensures r.nodes == Apply(e.nodes, u)
    ensures r.edges == e.edges && r.executing == e.executing && r.selected == e.selected
  {
    e.(nodes := Apply(e.nodes, u))
  }

  /** An added node enables the execute button of an idle editor. */
  lemma AddEnablesExecute(e: Editor, id: string, kind: string)
    requires !e.executing
    ensures ExecuteEnabled(OnAddNode(e, id, kind))
  {
  }
}
