/** The backend's `execute_workflow` (backend/app.py:28-173): a worklist
    scheduler that seeds its queue with the input nodes, derives an output
    per node type, assembles the prompts, and collects the outputs of the
    nodes with no outgoing edge. The two model calls are abstract. */
module Interpreter {
  import opened Common
  import opened JsValue
  import opened NodeKinds
  import opened Wire

  /** `call_gemini_text(prompt, images)` and `call_gemini_image(prompt, images)`:
      foreign calls, taken as arbitrary total functions. Each returns a string
      or `None`; `call_gemini_text` turns its own errors into an "Error: ..."
      string and `call_gemini_image` into `None`, so neither raises. */
  datatype Gemini = Gemini(text: (string, seq<string>) -> Option<string>, image: (JsVal, seq<string>) -> Option<string>)

  /** A Python `str | None` as it reaches the editor in JSON. */
  function FromPy(v: Option<string>): (j: JsVal)
    ensures j != Undefined
    ensures v.Some? ==> j == Str(v.value)
    ensures v.None? ==> j == Null
  {
    if v.Some? then Str(v.value) else Null
  }

  /** Both members of an output are present in the JSON the editor receives. */
  predicate Defined(o: Output) {
    o.image != Undefined && o.text != Undefined
  }

  /** The instruction prepended to every prompt-box prompt. */
  const Preamble := "Do not introduce or conclude your response(Strict). You are a image generation and prompt modification agent. below is the user query. analyze it and return response accordingly.\n\n"

  /** The Python `TypeError` raised by `Preamble + None`. */
  const ConcatTypeError := "TypeError: can only concatenate str (not \"NoneType\") to str"

  /** `data.get(k, default)` on the decoded request: `JSON.stringify` drops
      `undefined` members, so they read as absent. */
  function PyGet(d: Data, k: string, default: JsVal): (v: JsVal)
    ensures default != Undefined ==> v != Undefined
    ensures k in d && d[k] != Undefined ==> v == d[k]
    ensures (k !in d || d[k] == Undefined) ==> v == default
  {
    if k in d && d[k] != Undefined then d[k] else default
  }

  /** The interpreter's state: the queue, `processed_nodes` and `node_outputs`. */
  datatype Worklist = Worklist(queue: seq<ReqNode>, processed: set<string>, outputs: map<string, Output>)

  /** The initial queue: the input nodes, in node order (backend/app.py:38-41). */
  function Seeds(nodes: seq<ReqNode>): (s: seq<ReqNode>)
    ensures forall n :: n in s <==> n in nodes && IsSeedKind(n.kind)
    ensures |s| <= |nodes|
  {
    if nodes == [] then []
    else (if IsSeedKind(nodes[0].kind) then [nodes[0]] else []) + Seeds(nodes[1..])
  }

  /** The queue keeps node order: seeding a concatenation seeds each part in
      turn, and a single node is queued iff it is an input node. */
  lemma SeedsAppend(a: seq<ReqNode>, b: seq<ReqNode>)
    ensures Seeds(a + b) == Seeds(a) + Seeds(b)
    ensures |a| == 1 ==> Seeds(a) == (if IsSeedKind(a[0].kind) then a else [])
  {
    SeedsConcat(a, b);
    if |a| == 1 {
      assert a[1..] == [];
    }
  }

  lemma {:induction false} SeedsConcat(a: seq<ReqNode>, b: seq<ReqNode>)
    ensures Seeds(a + b) == Seeds(a) + Seeds(b)
  {
    if a == [] {
      assert a + b == b;
    } else {
      assert (a + b)[0] == a[0] && (a + b)[1..] == a[1..] + b;
      SeedsConcat(a[1..], b);
    }
  }

  /** The outputs of the predecessors that have one, in edge order, and the
      number of incoming edges whose source has none yet. */
  datatype Inputs = Inputs(available: seq<Output>, missing: nat)

  function Incoming(edges: seq<Edge>, id: string, outputs: map<string, Output>): (ins: Inputs)
    ensures ins.missing == 0 <==> forall e :: e in edges && e.target == id ==> e.source in outputs
    ensures forall o :: o in ins.available ==>
      exists e :: e in edges && e.target == id && e.source in outputs && outputs[e.source] == o
    ensures forall e :: e in edges && e.target == id && e.source in outputs ==> outputs[e.source] in ins.available
  {
    if edges == [] then Inputs([], 0)
    else
      var rest := Incoming(edges[1..], id, outputs);
      var e := edges[0];
      if e.target != id then rest
      else if e.source in outputs then Inputs([outputs[e.source]] + rest.available, rest.missing)
      else Inputs(rest.available, rest.missing + 1)
  }

  /** The inputs follow edge order with every edge counted: the inputs of a
      concatenation are those of each part in turn, and one edge contributes
      its source's output, a missing input, or nothing. */
  lemma IncomingAppend(a: seq<Edge>, b: seq<Edge>, id: string, outputs: map<string, Output>)
    ensures Incoming(a + b, id, outputs).available == Incoming(a, id, outputs).available + Incoming(b, id, outputs).available
    ensures Incoming(a + b, id, outputs).missing == Incoming(a, id, outputs).missing + Incoming(b, id, outputs).missing
    ensures |a| == 1 && a[0].target != id ==> Incoming(a, id, outputs) == Inputs([], 0)
    ensures |a| == 1 && a[0].target == id && a[0].source in outputs ==> Incoming(a, id, outputs) == Inputs([outputs[a[0].source]], 0)
    ensures |a| == 1 && a[0].target == id && a[0].source !in outputs ==> Incoming(a, id, outputs) == Inputs([], 1)
  {
    IncomingConcat(a, b, id, outputs);
    MissingConcat(a, b, id, outputs);
    if |a| == 1 {
      assert a[1..] == [];
    }
  }

  lemma {:induction false} IncomingConcat(a: seq<Edge>, b: seq<Edge>, id: string, outputs: map<string, Output>)
    ensures Incoming(a + b, id, outputs).available == Incoming(a, id, outputs).available + Incoming(b, id, outputs).available
  {
    if a == [] {
      assert a + b == b;
    } else {
      assert (a + b)[1..] == a[1..] + b;
      IncomingConcat(a[1..], b, id, outputs);
    }
  }

  lemma {:induction false} MissingConcat(a: seq<Edge>, b: seq<Edge>, id: string, outputs: map<string, Output>)
    ensures Incoming(a + b, id, outputs).missing == Incoming(a, id, outputs).missing + Incoming(b, id, outputs).missing
  {
    if a == [] {
      assert a + b == b;
    } else {
      assert (a + b)[1..] == a[1..] + b;
      MissingConcat(a[1..], b, id, outputs);
    }
  }

  /** The truthy images of the inputs, in order. */
  function InputImages(ins: seq<Output>): (images: seq<string>)
    ensures forall s :: s in images ==> s != ""
    ensures forall o :: o in ins && Truthy(o.image) ==> o.image.s in images
    ensures forall s :: s in images ==> exists o :: o in ins && o.image == Str(s)
  {
    if ins == [] then []
    else (if Truthy(ins[0].image) then [ins[0].image.s] else []) + InputImages(ins[1..])
  }

  /** The images keep input order: those of a concatenation are each part's
      in turn, and one input contributes its image iff it is truthy. */
  lemma InputImagesAppend(a: seq<Output>, b: seq<Output>)
    ensures InputImages(a + b) == InputImages(a) + InputImages(b)
    ensures |a| == 1 ==> InputImages(a) == (if Truthy(a[0].image) then [a[0].image.s] else [])
  {
    InputImagesConcat(a, b);
    if |a| == 1 {
      assert a[1..] == [];
    }
  }

  lemma {:induction false} InputImagesConcat(a: seq<Output>, b: seq<Output>)
    ensures InputImages(a + b) == InputImages(a) + InputImages(b)
  {
    if a == [] {
      assert a + b == b;
    } else {
      assert (a + b)[1..] == a[1..] + b;
      InputImagesConcat(a[1..], b);
    }
  }

  /** Every truthy input text followed by a newline, concatenated in order. */
  function InputText(ins: seq<Output>): (t: string)
    ensures t == "" <==> forall o :: o in ins ==> !Truthy(o.text)
  {
    if ins == [] then ""
    else (if Truthy(ins[0].text) then ins[0].text.s + "\n" else "") + InputText(ins[1..])
  }

  /** The input text keeps input order: that of a concatenation is each
      part's in turn, and one input contributes its text and a newline iff
      the text is truthy. */
  lemma InputTextAppend(a: seq<Output>, b: seq<Output>)
    ensures InputText(a + b) == InputText(a) + InputText(b)
    ensures |a| == 1 ==> InputText(a) == (if Truthy(a[0].text) then a[0].text.s + "\n" else "")
  {
    InputTextConcat(a, b);
    if |a| == 1 {
      assert a[1..] == [];
    }
  }

  lemma {:induction false} InputTextConcat(a: seq<Output>, b: seq<Output>)
    ensures InputText(a + b) == InputText(a) + InputText(b)
  {
    if a == [] {
      assert a + b == b;
    } else {
      assert (a + b)[1..] == a[1..] + b;
      InputTextConcat(a[1..], b);
    }
  }

  /** `f"{input_text}\n{prompt}" if input_text else prompt`; the f-string
      renders `None` as the text "None". */
  function FullPrompt(inputText: string, prompt: JsVal): (fp: JsVal)
    requires prompt != Undefined
    ensures inputText == "" ==> fp == prompt
    ensures inputText != "" ==> fp.Str? && HasPrefix(fp.s, inputText + "\n")
    ensures inputText != "" && prompt.Str? ==> fp == Str(inputText + "\n" + prompt.s)
    ensures inputText != "" && prompt == Null ==> fp == Str(inputText + "\nNone")
  {
    if inputText != "" then Str(inputText + "\n" + (if prompt.Str? then prompt.s else "None"))
    else prompt
  }

  /** The output one node produces from its inputs, by type; `None` for a
      type the interpreter does not know, `Failure` for the `TypeError` a
      prompt box with a `null` prompt and no input text raises. */
  function Evaluate(node: ReqNode, ins: seq<Output>, gem: Gemini): (r: Result<Option<Output>>)
    ensures r.Success? && r.value.None? <==> !IsKnownKind(node.kind)
    ensures r.Success? && r.value.Some? ==> Defined(r.value.value)
    ensures r.Failure? <==> node.kind == PromptBox && InputText(ins) == "" && PyGet(node.data, "prompt", Str("")) == Null
    ensures node.kind == ImageInput ==> r == Success(Some(Output(PyGet(node.data, "imageData", Null), Null)))
    ensures node.kind == TextInput ==> r == Success(Some(Output(Null, PyGet(node.data, "text", Str("")))))
    ensures node.kind == PromptBox && r.Success? ==>
      r.value.value.image == (if InputImages(ins) == [] then Null else Str(InputImages(ins)[0]))
    ensures node.kind == PromptBox && r.Success? ==>
      var fp := FullPrompt(InputText(ins), PyGet(node.data, "prompt", Str("")));
      fp.Str? && r.value.value.text == FromPy(gem.text(Preamble + fp.s, InputImages(ins)))
    ensures node.kind == GenImageBlock ==> r.Success? && r.value.value.text == Str(InputText(ins))
    ensures node.kind == GenImageBlock ==>
      r.value.value.image == FromPy(gem.image(FullPrompt(InputText(ins), PyGet(node.data, "prompt", Str(""))), InputImages(ins)))
  {
    var images := InputImages(ins);
    var inputText := InputText(ins);
    if node.kind == ImageInput then
      Success(Some(Output(PyGet(node.data, "imageData", Null), Null)))
    else if node.kind == TextInput then
      Success(Some(Output(Null, PyGet(node.data, "text", Str("")))))
    else if node.kind == PromptBox then
      var fp := FullPrompt(inputText, PyGet(node.data, "prompt", Str("")));
      if fp.Str? then
        Success(Some(Output(if images == [] then Null else Str(images[0]), FromPy(gem.text(Preamble + fp.s, images)))))
      else
        Failure(ConcatTypeError)
    else if node.kind == GenImageBlock then
      var fp := FullPrompt(inputText, PyGet(node.data, "prompt", Str("")));
      Success(Some(Output(FromPy(gem.image(fp, images)), Str(inputText))))
    else
      Success(None)
  }

  /** The nodes with id `target`, unless it is processed (backend/app.py:153-155). */
  function Targets(nodes: seq<ReqNode>, target: string, processed: set<string>): (s: seq<ReqNode>)
    ensures forall n :: n in s <==> n in nodes && n.id == target && target !in processed
  {
    if nodes == [] then []
    else (if nodes[0].id == target && target !in processed then [nodes[0]] else []) + Targets(nodes[1..], target, processed)
  }

  /** Targets keep node order: a node with the target id is queued in its
      place, once per occurrence. */
  lemma TargetsAppend(a: seq<ReqNode>, b: seq<ReqNode>, target: string, processed: set<string>)
    ensures Targets(a + b, target, processed) == Targets(a, target, processed) + Targets(b, target, processed)
    ensures |a| == 1 ==> Targets(a, target, processed) == (if a[0].id == target && target !in processed then a else [])
  {
    TargetsConcat(a, b, target, processed);
    if |a| == 1 {
      assert a[1..] == [];
    }
  }

  lemma {:induction false} TargetsConcat(a: seq<ReqNode>, b: seq<ReqNode>, target: string, processed: set<string>)
    ensures Targets(a + b, target, processed) == Targets(a, target, processed) + Targets(b, target, processed)
  {
    if a == [] {
      assert a + b == b;
    } else {
      assert (a + b)[1..] == a[1..] + b;
      TargetsConcat(a[1..], b, target, processed);
    }
  }

  /** The downstream nodes queued after `id`, edge by edge (backend/app.py:150-155). */
  function Successors(nodes: seq<ReqNode>, edges: seq<Edge>, id: string, processed: set<string>): (s: seq<ReqNode>)
    ensures forall n :: n in s <==>
      n in nodes && n.id !in processed && exists e :: e in edges && e.source == id && e.target == n.id
  {
    if edges == [] then []
    else
      var rest := Successors(nodes, edges[1..], id, processed);
      var here := if edges[0].source == id then Targets(nodes, edges[0].target, processed) else [];
      assert forall n :: n in rest ==> exists e :: e in edges && e.source == id && e.target == n.id by {
        forall n | n in rest ensures exists e :: e in edges && e.source == id && e.target == n.id {
          var e :| e in edges[1..] && e.source == id && e.target == n.id;
          assert e in edges;
        }
      }
      here + rest
  }

  /** Successors are queued edge by edge: those of a concatenation of edge
      lists are each part's in turn, and one edge leaving `id` queues its
      target's nodes while any other edge queues nothing. */
  lemma SuccessorsAppend(nodes: seq<ReqNode>, a: seq<Edge>, b: seq<Edge>, id: string, processed: set<string>)
    ensures Successors(nodes, a + b, id, processed) == Successors(nodes, a, id, processed) + Successors(nodes, b, id, processed)
    ensures |a| == 1 ==> Successors(nodes, a, id, processed) == (if a[0].source == id then Targets(nodes, a[0].target, processed) else [])
  {
    SuccessorsConcat(nodes, a, b, id, processed);
    if |a| == 1 {
      assert a[1..] == [];
      assert Successors(nodes, a[1..], id, processed) == [];
    }
  }

  lemma {:induction false} SuccessorsConcat(nodes: seq<ReqNode>, a: seq<Edge>, b: seq<Edge>, id: string, processed: set<string>)
    ensures Successors(nodes, a + b, id, processed) == Successors(nodes, a, id, processed) + Successors(nodes, b, id, processed)
  {
    if a == [] {
      assert a + b == b;
    } else {
      assert (a + b)[0] == a[0] && (a + b)[1..] == a[1..] + b;
      SuccessorsConcat(nodes, a[1..], b, id, processed);
    }
  }

  function Repeat(node: ReqNode, count: nat): (s: seq<ReqNode>)
    ensures |s| == count && forall n :: n in s ==> n == node
  {
    if count == 0 then [] else [node] + Repeat(node, count - 1)
  }

  /** One turn of the `while nodes_to_process` loop (backend/app.py:45-155). A
      popped id already processed is dropped. A prompt box or generator reads
      whatever predecessor outputs exist: the `continue` at line 80 and 120
      skips one edge only, so the node is re-queued once per missing input and
      still processed now. Every processing branch records the id; the
      successors are queued after it, unless processed, whatever the type. */
  function Step(nodes: seq<ReqNode>, edges: seq<Edge>, gem: Gemini, w: Worklist): (r: Result<Worklist>)
    requires w.queue != []
    ensures r.Success? ==> forall n :: n in r.value.queue ==>
      n in w.queue || (n in nodes && exists e :: e in edges && e.source == w.queue[0].id && e.target == n.id)
    ensures w.queue[0].id in w.processed ==> r == Success(w.(queue := w.queue[1..]))
    ensures w.queue[0].id !in w.processed && !IsKnownKind(w.queue[0].kind) ==>
      r == Success(Worklist(w.queue[1..] + Successors(nodes, edges, w.queue[0].id, w.processed), w.processed, w.outputs))
    ensures w.queue[0].id !in w.processed && IsKnownKind(w.queue[0].kind) && r.Success? ==>
      var ins := Incoming(edges, w.queue[0].id, w.outputs);
      var again := if IsCombinerKind(w.queue[0].kind) then Repeat(w.queue[0], ins.missing) else [];
      && r.value.processed == w.processed + {w.queue[0].id}
      && w.queue[0].id in r.value.outputs
      && r.value.outputs == w.outputs[w.queue[0].id := r.value.outputs[w.queue[0].id]]
      && Evaluate(w.queue[0], ins.available, gem) == Success(Some(r.value.outputs[w.queue[0].id]))
      && r.value.queue == w.queue[1..] + again + Successors(nodes, edges, w.queue[0].id, r.value.processed)
    ensures r.Failure? ==> w.queue[0].id !in w.processed && w.queue[0].kind == PromptBox
  {
    var node := w.queue[0];
    var rest := w.queue[1..];
    if node.id in w.processed then Success(w.(queue := rest))
    else
      var ins := Incoming(edges, node.id, w.outputs);
      match Evaluate(node, ins.available, gem)
      case Failure(m) => Failure(m)
      case Success(out) =>
        var kept := if IsCombinerKind(node.kind) then rest + Repeat(node, ins.missing) else rest;
        var processed := if out.Some? then w.processed + {node.id} else w.processed;
        var outputs := if out.Some? then w.outputs[node.id := out.value] else w.outputs;
        Success(Worklist(kept + Successors(nodes, edges, node.id, processed), processed, outputs))
  }

  ghost function Ids(nodes: seq<ReqNode>): set<string> {
    set n | n in nodes :: n.id
  }

  predicate AllKnown(nodes: seq<ReqNode>) {
    forall n :: n in nodes ==> IsKnownKind(n.kind)
  }

  ghost predicate QueuedFrom(queue: seq<ReqNode>, nodes: seq<ReqNode>) {
    forall n :: n in queue ==> n in nodes
  }

  /** Processing a new id shrinks the set of unprocessed ids. */
  lemma UnprocessedShrinks(nodes: seq<ReqNode>, processed: set<string>, n: ReqNode)
    ensures n in nodes && n.id !in processed ==>
      |Ids(nodes) - (processed + {n.id})| < |Ids(nodes) - processed|
  {
    if n in nodes && n.id !in processed {
      assert n.id in Ids(nodes) - processed;
      assert Ids(nodes) - (processed + {n.id}) == (Ids(nodes) - processed) - {n.id};
    }
  }

  /** The loop run to the end. It terminates when every node type is one of
      the four tags: each turn either processes a new id, of which there are
      finitely many, or shortens the queue. */
  function Drain(nodes: seq<ReqNode>, edges: seq<Edge>, gem: Gemini, w: Worklist): (r: Result<Worklist>)
    requires AllKnown(nodes) && QueuedFrom(w.queue, nodes)
    ensures r.Success? ==> r.value.queue == [] && w.processed <= r.value.processed
    decreases |Ids(nodes) - w.processed|, |w.queue|
  {
    if w.queue == [] then Success(w)
    else
      match Step(nodes, edges, gem, w)
      case Failure(m) => Failure(m)
      case Success(next) =>
        UnprocessedShrinks(nodes, w.processed, w.queue[0]);
        Drain(nodes, edges, gem, next)
  }

  /** True iff no edge leaves `id`: the scan with `break` at backend/app.py:161-165. */
  function IsEndpoint(edges: seq<Edge>, id: string): (b: bool)
    ensures b <==> forall e :: e in edges ==> e.source != id
  {
    if edges == [] then true
    else if edges[0].source == id then false
    else IsEndpoint(edges[1..], id)
  }

  /** `final_outputs`: exactly the outputs of the nodes that are the source of no edge, unchanged. */
  function FinalOutputs(all: map<string, Output>, edges: seq<Edge>): (r: map<string, Output>)
    ensures forall k :: k in r <==> k in all && forall e :: e in edges ==> e.source != k
    ensures forall k :: k in r ==> r[k] == all[k]
  {
    map k | k in all && IsEndpoint(edges, k) :: all[k]
  }

  function InitialWorklist(nodes: seq<ReqNode>): Worklist {
    Worklist(Seeds(nodes), {}, map[])
  }

  /** `execute_workflow` on a request whose node types are all known. */
  function ExecuteWorkflow(req: Request, gem: Gemini): (r: Result<ExecResult>)
    requires AllKnown(req.nodes)
    ensures r.Success? ==> r.value.finalOutputs.Keys <= r.value.allOutputs.Keys
    ensures r.Success? ==> r.value.finalOutputs == FinalOutputs(r.value.allOutputs, req.edges)
  {
    match Drain(req.nodes, req.edges, gem, InitialWorklist(req.nodes))
    case Failure(m) => Failure(m)
    case Success(w) => Success(ExecResult(w.outputs, FinalOutputs(w.outputs, req.edges)))
  }

  /** The same interpreter written as the loop of the source, with its
      lexicographic measure: unprocessed ids first, queue length second. */
  method RunWorkflow(req: Request, gem: Gemini) returns (r: Result<ExecResult>)
    requires AllKnown(req.nodes)
    ensures r == ExecuteWorkflow(req, gem)
  {
    var w := InitialWorklist(req.nodes);
    while w.queue != []
      invariant QueuedFrom(w.queue, req.nodes)
      invariant Drain(req.nodes, req.edges, gem, w) == Drain(req.nodes, req.edges, gem, InitialWorklist(req.nodes))
      decreases |Ids(req.nodes) - w.processed|, |w.queue|
    {
      var next := Step(req.nodes, req.edges, gem, w);
      if next.Failure? {
        return Failure(next.message);
      }
      UnprocessedShrinks(req.nodes, w.processed, w.queue[0]);
      w := next.value;
    }
    r := Success(ExecResult(w.outputs, FinalOutputs(w.outputs, req.edges)));
  }
}
