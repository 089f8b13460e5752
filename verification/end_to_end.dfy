/** How the pieces meet: a component's edit through the store, an upload
    seen by the component that made it, an execution from button press to
    reconciled nodes, and the scenario of an image input feeding a generator. */
module EndToEnd {
  import opened Common
  import opened JsValue
  import opened NodeKinds
  import opened Wire
  import opened Workflow
  import opened Editor
  import opened Interpreter
  import opened Scheduling
  import NodeKit
  import GenImageNode
  import ImageInputNode

  /** A component edit changes one member of the node it comes from and
      nothing else: other members, other nodes, ids and kinds stay. */
  lemma ComponentEditTouchesOneMember(e: Editor, id: string, key: string, v: string)
    ensures var r := OnUpdate(e, NodeKit.Edit(id, true, key, v).value);
      && SameShape(r.nodes, e.nodes)
      && (forall i :: 0 <= i < |e.nodes| && e.nodes[i].id != id ==> r.nodes[i] == e.nodes[i])
      && (forall i :: 0 <= i < |e.nodes| && e.nodes[i].id == id ==> r.nodes[i].data == e.nodes[i].data[key := Str(v)])
  {
    var u := NodeKit.Edit(id, true, key, v).value;
    var r := OnUpdate(e, u);
    forall i | 0 <= i < |e.nodes| && e.nodes[i].id == id
      ensures r.nodes[i].data == e.nodes[i].data[key := Str(v)]
    {
      assert u.partial == map[key := Str(v)];
    }
  }

  /** After a complete upload, the node that asked for it shows the image,
      offers "Change Image" and names the stored file. */
  lemma UploadShowsImage(e: Editor, i: int, body: ImageInputNode.UploadBody)
    requires 0 <= i < |e.nodes|
    requires Truthy(body.imageData) && Truthy(body.filename)
    ensures var id := e.nodes[i].id;
      var up := ImageInputNode.HandleFileChange(id, true, true, ImageInputNode.UploadOk(body));
      && up.update.Some? && up.alert.None?
      && var view := ImageInputNode.Render(id, OnUpdate(e, up.update.value).nodes[i].data, e.selected);
      && view.showsImage && view.buttonLabel == "Change Image" && view.pathText == body.filename.s
  {
  }

  /** Every node of an enabled editor has one of the four types. */
  predicate KnownKinds(e: Editor) {
    forall i :: 0 <= i < |e.nodes| ==> IsKnownKind(e.nodes[i].kind)
  }

  /** The request sent from an editor of known node types is one the
      interpreter runs to the end without raising: the projection turns
      every prompt into a string. */
  lemma ProjectedRequestNeverFails(e: Editor, gem: Gemini)
    requires ExecuteEnabled(e) && KnownKinds(e)
    ensures var req := PressExecute(e).request.value;
      AllKnown(req.nodes) && ExecuteWorkflow(req, gem).Success?
  {
    var req := PressExecute(e).request.value;
    assert req == Project(e.nodes, e.edges);
    forall n | n in req.nodes
      ensures IsKnownKind(n.kind) && (n.kind == PromptBox ==> PyGet(n.data, "prompt", Str("")).Str?)
    {
      var i :| 0 <= i < |req.nodes| && req.nodes[i] == n;
      ProjectionIsWhitelisted(e.nodes, e.edges, i);
    }
    ExecuteWorkflowNeverFails(req, gem);
  }

  /** The round trip through the backend: after an ok response carrying the
      interpreter's `all_outputs`, every node reachable from an input node
      holds its output as `result` and `resultImage`, every other node is as
      it was, and the editor is idle again. */
  lemma ExecutionFillsReachableNodes(e: Editor, gem: Gemini)
    requires ExecuteEnabled(e) && KnownKinds(e)
    ensures var req := PressExecute(e).request.value;
      AllKnown(req.nodes) && ExecuteWorkflow(req, gem).Success?
      && var all := ExecuteWorkflow(req, gem).value.allOutputs;
      var c := Complete(PressExecute(e).editor, Ok(ExecBody(Some(all))));
      && c.alert.None? && ExecuteEnabled(c.editor)
      && forall i :: 0 <= i < |e.nodes| ==>
        if Reachable(req.nodes, req.edges, e.nodes[i].id) then
          && e.nodes[i].id in all
          && c.editor.nodes[i].data["result"] == all[e.nodes[i].id].text
          && c.editor.nodes[i].data["resultImage"] == all[e.nodes[i].id].image
        else
          c.editor.nodes[i] == e.nodes[i]
  {
    var req := PressExecute(e).request.value;
    ProjectedRequestNeverFails(e, gem);
    OutputsAreExactlyReachable(req, gem);
    DrainOutputsDefined(req.nodes, req.edges, gem, InitialWorklist(req.nodes));
    var all := ExecuteWorkflow(req, gem).value.allOutputs;
    var c := Complete(PressExecute(e).editor, Ok(ExecBody(Some(all))));
    assert |c.editor.nodes| == |e.nodes|;
    forall i | 0 <= i < |e.nodes|
      ensures req.nodes[i].id == e.nodes[i].id
    {
    }
  }

  /** The editor of the scenario: an image input `iid` and a generator `gid`
      joined by edge `eid`, the generator's prompt set to "a cat". */
  function CatEditor(iid: string, gid: string, eid: string): (e: Editor)
    requires iid != gid
    ensures |e.nodes| == 2 && e.nodes[0].id == iid && e.nodes[1].id == gid
    ensures e.nodes[0].kind == ImageInput && e.nodes[1].kind == GenImageBlock
    ensures e.edges == [Edge(eid, iid, "output_image", gid, "input")]
    ensures "prompt" in e.nodes[1].data && e.nodes[1].data["prompt"] == Str("a cat")
    ensures ExecuteEnabled(e)
  {
    var e1 := OnAddNode(Initial(), iid, ImageInput);
    var e2 := OnAddNode(e1, gid, GenImageBlock);
    var e3 := OnConnect(e2, Edge(eid, iid, "output_image", gid, "input"));
    OnUpdate(e3, GenImageNode.HandlePromptChange(gid, true, "a cat").value)
  }

  /** The image-to-generator scenario, end to end with a simulated response: the
      request carries the prompt, and once `{gid: {image: img}}` comes back
      the generator's `resultImage` is exactly `img`, its prompt is
      untouched, the image input is unchanged, and the component shows the
      image as base64 PNG data. */
  lemma CatScenario(iid: string, gid: string, eid: string, img: string)
    requires iid != gid
    requires img != "" && !HasPrefix(img, GenImageNode.DataImagePrefix)
    ensures var e := CatEditor(iid, gid, eid);
      var s := PressExecute(e);
      && s.request.Some?
      && s.request.value.nodes[1].data["prompt"] == Str("a cat")
      && var c := Complete(s.editor, Ok(ExecBody(Some(map[gid := Output(Str(img), Undefined)]))));
      && c.editor.nodes[1].data["resultImage"] == Str(img)
      && c.editor.nodes[1].data["prompt"] == Str("a cat")
      && c.editor.nodes[0] == e.nodes[0]
      && GenImageNode.Render(gid, c.editor.nodes[1].data, c.editor.selected).imageSrc
         == Some(GenImageNode.PngPrefix + img)
  {
    var e := CatEditor(iid, gid, eid);
    var s := PressExecute(e);
    var c := Complete(s.editor, Ok(ExecBody(Some(map[gid := Output(Str(img), Undefined)]))));
    assert c.editor.nodes == Reconcile(e.nodes, Some(map[gid := Output(Str(img), Undefined)]));
  }

  /** The scenario's editor once the image input's upload of a file named
      `f` has come back with image data `d`. */
  function UploadedCatEditor(iid: string, gid: string, eid: string, d: string, f: string): (e: Editor)
    requires iid != gid && d != "" && f != ""
    ensures |e.nodes| == 2 && e.nodes[0].id == iid && e.nodes[1].id == gid
    ensures e.nodes[0].kind == ImageInput && e.nodes[1].kind == GenImageBlock
    ensures e.edges == [Edge(eid, iid, "output_image", gid, "input")]
    ensures "imageData" in e.nodes[0].data && e.nodes[0].data["imageData"] == Str(d)
    ensures "prompt" in e.nodes[1].data && e.nodes[1].data["prompt"] == Str("a cat")
    ensures ExecuteEnabled(e)
  {
    var body := ImageInputNode.UploadBody(Str(d), Str(f));
    var up := ImageInputNode.HandleFileChange(iid, true, true, ImageInputNode.UploadOk(body));
    OnUpdate(CatEditor(iid, gid, eid), up.update.value)
  }

  /** The shape of the backend scenario's request: the image input `iid`
      carrying the uploaded image `d`, then the generator `gid` carrying
      the prompt "a cat", joined by edge `eid`. */
  predicate CatShaped(req: Request, iid: string, gid: string, eid: string, d: string) {
    && |req.nodes| == 2 && req.nodes[0].id == iid && req.nodes[1].id == gid
    && req.nodes[0].kind == ImageInput && req.nodes[1].kind == GenImageBlock
    && req.edges == [Edge(eid, iid, "output_image", gid, "input")]
    && "imageData" in req.nodes[0].data && req.nodes[0].data["imageData"] == Str(d)
    && "prompt" in req.nodes[1].data && req.nodes[1].data["prompt"] == Str("a cat")
  }

  /** The request of the backend scenario: what the execute button of the
      uploaded editor sends. */
  function CatRequest(iid: string, gid: string, eid: string, d: string, f: string): (req: Request)
    requires iid != gid && d != "" && f != ""
    ensures CatShaped(req, iid, gid, eid, d)
  {
    PressExecute(UploadedCatEditor(iid, gid, eid, d, f)).request.value
  }

  /** The first turn of the backend scenario: the image input runs and
      queues the generator. */
  lemma CatStep1(req: Request, iid: string, gid: string, eid: string, d: string, gem: Gemini)
    requires iid != gid && CatShaped(req, iid, gid, eid, d)
    ensures Step(req.nodes, req.edges, gem, Worklist([req.nodes[0]], {}, map[]))
      == Success(Worklist([req.nodes[1]], {iid}, map[iid := Output(Str(d), Null)]))
  {
    var nodes, edges := req.nodes, req.edges;
    var oi := Output(Str(d), Null);
    var w0 := Worklist([nodes[0]], {}, map[]);
    assert Incoming(edges, iid, map[]) == Inputs([], 0) by {
      assert edges[1..] == [];
    }
    assert Evaluate(nodes[0], [], gem) == Success(Some(oi));
    StepProcessing(nodes, edges, gem, w0, Inputs([], 0), oi);
    assert w0.processed + {iid} == {iid};
    assert Successors(nodes, edges, iid, {iid}) == [nodes[1]] by {
      assert edges[1..] == [] && nodes[1..][1..] == [];
      assert Targets(nodes[1..], gid, {iid}) == [nodes[1]];
    }
    assert w0.queue[1..] + [nodes[1]] == [nodes[1]];
  }

  /** The second turn: the generator runs on the prompt and the image. */
  lemma CatStep2(req: Request, iid: string, gid: string, eid: string, d: string, gem: Gemini)
    requires iid != gid && d != "" && CatShaped(req, iid, gid, eid, d)
    ensures var oi := Output(Str(d), Null);
      var og := Output(FromPy(gem.image(Str("a cat"), [d])), Str(""));
      Step(req.nodes, req.edges, gem, Worklist([req.nodes[1]], {iid}, map[iid := oi]))
      == Success(Worklist([], {iid, gid}, map[iid := oi, gid := og]))
  {
    var nodes, edges := req.nodes, req.edges;
    var oi := Output(Str(d), Null);
    var og := Output(FromPy(gem.image(Str("a cat"), [d])), Str(""));
    var w1 := Worklist([nodes[1]], {iid}, map[iid := oi]);
    assert Incoming(edges, gid, w1.outputs) == Inputs([oi], 0) by {
      assert edges[1..] == [];
    }
    assert Evaluate(nodes[1], [oi], gem) == Success(Some(og)) by {
      assert InputImages([oi]) == [d];
      assert InputText([oi]) == "";
      assert PyGet(nodes[1].data, "prompt", Str("")) == Str("a cat");
    }
    StepProcessing(nodes, edges, gem, w1, Inputs([oi], 0), og);
    assert w1.processed + {gid} == {iid, gid};
    assert Successors(nodes, edges, gid, {iid, gid}) == [] by {
      assert edges[1..] == [];
    }
    assert Repeat(nodes[1], 0) == [];
    assert w1.queue[1..] + Repeat(nodes[1], 0) + [] == [];
  }

  lemma CatDrain(req: Request, iid: string, gid: string, eid: string, d: string, gem: Gemini)
    requires iid != gid && d != "" && CatShaped(req, iid, gid, eid, d)
    ensures Drain(req.nodes, req.edges, gem, InitialWorklist(req.nodes))
      == Success(Worklist([], {iid, gid}, map[iid := Output(Str(d), Null),
                                              gid := Output(FromPy(gem.image(Str("a cat"), [d])), Str(""))]))
  {
    var nodes, edges := req.nodes, req.edges;
    var oi := Output(Str(d), Null);
    var og := Output(FromPy(gem.image(Str("a cat"), [d])), Str(""));
    var w0 := Worklist([nodes[0]], {}, map[]);
    var w1 := Worklist([nodes[1]], {iid}, map[iid := oi]);
    var w2 := Worklist([], {iid, gid}, map[iid := oi, gid := og]);
    assert InitialWorklist(nodes) == w0 by {
      assert nodes[1..][1..] == [];
      assert Seeds(nodes[1..]) == [];
    }
    assert Drain(nodes, edges, gem, w1) == Success(w2) by {
      CatStep2(req, iid, gid, eid, d, gem);
    }
    assert Drain(nodes, edges, gem, w0) == Success(w2) by {
      CatStep1(req, iid, gid, eid, d, gem);
    }
  }

  /** Only the generator is the source of no edge. */
  lemma CatEndpoints(req: Request, iid: string, gid: string, eid: string, d: string, all: map<string, Output>)
    requires iid != gid && CatShaped(req, iid, gid, eid, d) && all.Keys == {iid, gid}
    ensures FinalOutputs(all, req.edges).Keys == {gid}
  {
    var edges := req.edges;
    assert edges[0] in edges && edges[0].source == iid;
    assert forall e :: e in edges ==> e.source != gid;
  }

  /** The backend's side of the scenario, for the request the editor sends
      after the upload (`CatRequest`) or any other of its shape: the image
      input is processed first, the generator then receives exactly the
      prompt "a cat" and the image `d`, every node has an output, and only
      the generator, which no edge leaves, is a final output. */
  lemma CatBackend(req: Request, iid: string, gid: string, eid: string, d: string, gem: Gemini)
    requires iid != gid && d != "" && CatShaped(req, iid, gid, eid, d)
    ensures var r := ExecuteWorkflow(req, gem);
      && r.Success?
      && r.value.allOutputs == map[iid := Output(Str(d), Null),
                                   gid := Output(FromPy(gem.image(Str("a cat"), [d])), Str(""))]
      && r.value.finalOutputs.Keys == {gid}
  {
    var all := map[iid := Output(Str(d), Null), gid := Output(FromPy(gem.image(Str("a cat"), [d])), Str(""))];
    CatDrain(req, iid, gid, eid, d, gem);
    CatEndpoints(req, iid, gid, eid, d, all);
  }
}
