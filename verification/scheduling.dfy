/** What the worklist of `execute_workflow` guarantees (backend/app.py:38-155):
    outputs are written once, exactly the nodes reachable from an input node
    get one, and a request whose prompt-box prompts are strings never makes
    the interpreter raise. */
module Scheduling {
  import opened Common
  import opened JsValue
  import opened NodeKinds
  import opened Wire
  import opened Interpreter

  /** `node_outputs` holds an entry for exactly the ids in `processed_nodes`. */
  ghost predicate Consistent(w: Worklist) {
    w.outputs.Keys == w.processed
  }

  /** No id is processed twice: every output already written survives the
      rest of the run unchanged, and the outputs stay keyed by the processed ids. */
  lemma {:induction false} DrainWritesOnce(nodes: seq<ReqNode>, edges: seq<Edge>, gem: Gemini, w: Worklist)
    requires AllKnown(nodes) && QueuedFrom(w.queue, nodes) && Consistent(w)
    ensures var r := Drain(nodes, edges, gem, w);
      r.Success? ==>
        && Consistent(r.value)
        && forall k :: k in w.outputs ==> k in r.value.outputs && r.value.outputs[k] == w.outputs[k]
    decreases |Ids(nodes) - w.processed|, |w.queue|
  {
    if w.queue != [] {
      var s := Step(nodes, edges, gem, w);
      if s.Success? {
        StepWritesOnce(nodes, edges, gem, w);
        UnprocessedShrinks(nodes, w.processed, w.queue[0]);
        DrainWritesOnce(nodes, edges, gem, s.value);
      }
    }
  }

  /** One turn keeps the outputs keyed by the processed ids and changes none
      already written. */
  lemma StepWritesOnce(nodes: seq<ReqNode>, edges: seq<Edge>, gem: Gemini, w: Worklist)
    requires w.queue != [] && Consistent(w)
    ensures var s := Step(nodes, edges, gem, w);
      s.Success? ==>
        && Consistent(s.value)
        && forall k :: k in w.outputs ==> k in s.value.outputs && s.value.outputs[k] == w.outputs[k]
  {
  }

  /** Every output carries both members, so the editor never reads `undefined` from one. */
  lemma {:induction false} DrainOutputsDefined(nodes: seq<ReqNode>, edges: seq<Edge>, gem: Gemini, w: Worklist)
    requires AllKnown(nodes) && QueuedFrom(w.queue, nodes)
    requires forall k :: k in w.outputs ==> Defined(w.outputs[k])
    ensures var r := Drain(nodes, edges, gem, w);
      r.Success? ==> forall k :: k in r.value.outputs ==> Defined(r.value.outputs[k])
    decreases |Ids(nodes) - w.processed|, |w.queue|
  {
    if w.queue != [] {
      var s := Step(nodes, edges, gem, w);
      if s.Success? {
        UnprocessedShrinks(nodes, w.processed, w.queue[0]);
        DrainOutputsDefined(nodes, edges, gem, s.value);
      }
    }
  }

  /** A node is accounted for: its id is processed, or it waits in the queue. */
  ghost predicate Covered(w: Worklist, n: ReqNode) {
    n.id in w.processed || n in w.queue
  }

  /** `ids` is closed under the edges: a node that an edge from an id of
      `ids` points at has its id in `ids` as well. */
  ghost predicate EdgeClosed(nodes: seq<ReqNode>, edges: seq<Edge>, ids: set<string>) {
    forall e, n :: e in edges && n in nodes && e.source in ids && e.target == n.id ==> n.id in ids
  }

  /** Every node an edge leads to from a processed id is accounted for. */
  ghost predicate PendingClosed(nodes: seq<ReqNode>, edges: seq<Edge>, w: Worklist) {
    forall e, n :: e in edges && n in nodes && e.source in w.processed && e.target == n.id ==> Covered(w, n)
  }

  /** The queue and the processed ids stay inside `ids`. */
  ghost predicate Within(w: Worklist, ids: set<string>) {
    (forall n :: n in w.queue ==> n.id in ids) && w.processed <= ids
  }

  lemma StepKeepsCovered(nodes: seq<ReqNode>, edges: seq<Edge>, gem: Gemini, w: Worklist, n: ReqNode)
    requires AllKnown(nodes) && QueuedFrom(w.queue, nodes) && w.queue != []
    requires Step(nodes, edges, gem, w).Success? && Covered(w, n)
    ensures Covered(Step(nodes, edges, gem, w).value, n)
  {
    var s := Step(nodes, edges, gem, w).value;
    if n.id !in w.processed && n != w.queue[0] {
      var i :| 0 <= i < |w.queue| && w.queue[i] == n;
      assert w.queue[1..][i - 1] == n;
    }
  }

  lemma StepKeepsPendingClosed(nodes: seq<ReqNode>, edges: seq<Edge>, gem: Gemini, w: Worklist)
    requires AllKnown(nodes) && QueuedFrom(w.queue, nodes) && w.queue != []
    requires Step(nodes, edges, gem, w).Success? && PendingClosed(nodes, edges, w)
    ensures PendingClosed(nodes, edges, Step(nodes, edges, gem, w).value)
  {
    var s := Step(nodes, edges, gem, w).value;
    forall e, n | e in edges && n in nodes && e.source in s.processed && e.target == n.id
      ensures Covered(s, n)
    {
      if e.source in w.processed {
        StepKeepsCovered(nodes, edges, gem, w, n);
      } else if n.id !in s.processed {
        assert n in Successors(nodes, edges, w.queue[0].id, s.processed);
      }
    }
  }

  lemma StepKeepsWithin(nodes: seq<ReqNode>, edges: seq<Edge>, gem: Gemini, w: Worklist, ids: set<string>)
    requires AllKnown(nodes) && QueuedFrom(w.queue, nodes) && w.queue != []
    requires Step(nodes, edges, gem, w).Success?
    requires EdgeClosed(nodes, edges, ids) && Within(w, ids)
    ensures Within(Step(nodes, edges, gem, w).value, ids)
  {
  }

  /** A covered node ends up processed. */
  lemma {:induction false} DrainProcessesCovered(nodes: seq<ReqNode>, edges: seq<Edge>, gem: Gemini, w: Worklist, n: ReqNode)
    requires AllKnown(nodes) && QueuedFrom(w.queue, nodes) && Covered(w, n)
    ensures var r := Drain(nodes, edges, gem, w);
      r.Success? ==> n.id in r.value.processed
    decreases |Ids(nodes) - w.processed|, |w.queue|
  {
    if w.queue != [] {
      var s := Step(nodes, edges, gem, w);
      if s.Success? {
        StepKeepsCovered(nodes, edges, gem, w, n);
        UnprocessedShrinks(nodes, w.processed, w.queue[0]);
        DrainProcessesCovered(nodes, edges, gem, s.value, n);
      }
    }
  }

  /** The processed ids at the end are closed under the edges. */
  lemma {:induction false} DrainEndsClosed(nodes: seq<ReqNode>, edges: seq<Edge>, gem: Gemini, w: Worklist)
    requires AllKnown(nodes) && QueuedFrom(w.queue, nodes) && PendingClosed(nodes, edges, w)
    ensures var r := Drain(nodes, edges, gem, w);
      r.Success? ==> EdgeClosed(nodes, edges, r.value.processed)
    decreases |Ids(nodes) - w.processed|, |w.queue|
  {
    if w.queue != [] {
      var s := Step(nodes, edges, gem, w);
      if s.Success? {
        StepKeepsPendingClosed(nodes, edges, gem, w);
        UnprocessedShrinks(nodes, w.processed, w.queue[0]);
        DrainEndsClosed(nodes, edges, gem, s.value);
      }
    }
  }

  /** Nothing outside an edge-closed set of ids that holds the queue gets processed. */
  lemma {:induction false} DrainStaysWithin(nodes: seq<ReqNode>, edges: seq<Edge>, gem: Gemini, w: Worklist, ids: set<string>)
    requires AllKnown(nodes) && QueuedFrom(w.queue, nodes)
    requires EdgeClosed(nodes, edges, ids) && Within(w, ids)
    ensures var r := Drain(nodes, edges, gem, w);
      r.Success? ==> r.value.processed <= ids
    decreases |Ids(nodes) - w.processed|, |w.queue|
  {
    if w.queue != [] {
      var s := Step(nodes, edges, gem, w);
      if s.Success? {
        StepKeepsWithin(nodes, edges, gem, w, ids);
        UnprocessedShrinks(nodes, w.processed, w.queue[0]);
        DrainStaysWithin(nodes, edges, gem, s.value, ids);
      }
    }
  }

  /** The ids of the input nodes, which seed the queue. */
  ghost function SeedIds(nodes: seq<ReqNode>): set<string> {
    set n | n in nodes && IsSeedKind(n.kind) :: n.id
  }

  /** `id` is reachable along edges from an input node: it lies in every
      edge-closed set of ids that contains the seed ids. */
  ghost predicate Reachable(nodes: seq<ReqNode>, edges: seq<Edge>, id: string) {
    forall ids: set<string> :: SeedIds(nodes) <= ids && EdgeClosed(nodes, edges, ids) ==> id in ids
  }

  /** A run that does not raise produces an output for exactly the nodes
      reachable from an input node: unreachable nodes get no entry, and
      every reachable one is processed once, with whatever inputs it had. */
  lemma OutputsAreExactlyReachable(req: Request, gem: Gemini)
    requires AllKnown(req.nodes)
    ensures var r := ExecuteWorkflow(req, gem);
      r.Success? ==> forall id :: id in r.value.allOutputs <==> Reachable(req.nodes, req.edges, id)
  {
    var nodes, edges := req.nodes, req.edges;
    var w0 := InitialWorklist(nodes);
    var d := Drain(nodes, edges, gem, w0);
    if d.Success? {
      var w := d.value;
      DrainWritesOnce(nodes, edges, gem, w0);
      forall id | id in w.outputs
        ensures Reachable(nodes, edges, id)
      {
        forall ids: set<string> | SeedIds(nodes) <= ids && EdgeClosed(nodes, edges, ids)
          ensures id in ids
        {
          DrainStaysWithin(nodes, edges, gem, w0, ids);
        }
      }
      forall n | n in nodes && IsSeedKind(n.kind)
        ensures n.id in w.processed
      {
        DrainProcessesCovered(nodes, edges, gem, w0, n);
      }
      DrainEndsClosed(nodes, edges, gem, w0);
      forall id | Reachable(nodes, edges, id)
        ensures id in w.outputs
      {
        assert SeedIds(nodes) <= w.processed;
      }
    }
  }

  /** Every prompt box carries a string prompt (or none, which reads as ""). */
  predicate PromptsAreText(nodes: seq<ReqNode>) {
    forall n :: n in nodes && n.kind == PromptBox ==> PyGet(n.data, "prompt", Str("")).Str?
  }

  /** With string prompts the interpreter never raises. */
  lemma {:induction false} DrainNeverFails(nodes: seq<ReqNode>, edges: seq<Edge>, gem: Gemini, w: Worklist)
    requires AllKnown(nodes) && QueuedFrom(w.queue, nodes) && PromptsAreText(nodes)
    ensures Drain(nodes, edges, gem, w).Success?
    decreases |Ids(nodes) - w.processed|, |w.queue|
  {
    if w.queue != [] {
      var s := Step(nodes, edges, gem, w);
      assert w.queue[0] in nodes;
      assert s.Success?;
      UnprocessedShrinks(nodes, w.processed, w.queue[0]);
      DrainNeverFails(nodes, edges, gem, s.value);
    }
  }

  lemma ExecuteWorkflowNeverFails(req: Request, gem: Gemini)
    requires AllKnown(req.nodes) && PromptsAreText(req.nodes)
    ensures ExecuteWorkflow(req, gem).Success?
  {
    DrainNeverFails(req.nodes, req.edges, gem, InitialWorklist(req.nodes));
  }

  /** The three nodes and edges of the example below: T->P, T->G, G->P. */
  function QuirkNodes(tid: string, gid: string, pid: string): seq<ReqNode> {
    [ReqNode(tid, TextInput, map["text" := Str("t")]),
     ReqNode(gid, GenImageBlock, map["prompt" := Str("g")]),
     ReqNode(pid, PromptBox, map["prompt" := Str("p")])]
  }

  function QuirkEdges(tid: string, gid: string, pid: string): seq<Edge> {
    [Edge("e1", tid, "output", pid, "input"), Edge("e2", tid, "output", gid, "input"),
     Edge("e3", gid, "output", pid, "input")]
  }

  lemma QuirkTargets(tid: string, gid: string, pid: string, processed: set<string>)
    requires tid != gid && tid != pid && gid != pid
    ensures var nodes := QuirkNodes(tid, gid, pid);
      && Targets(nodes, pid, processed) == (if pid in processed then [] else [nodes[2]])
      && Targets(nodes, gid, processed) == (if gid in processed then [] else [nodes[1]])
  {
    var nodes := QuirkNodes(tid, gid, pid);
    var n2 := nodes[2..];
    assert n2 == [nodes[2]] && n2[1..] == [];
    assert Targets(n2, pid, processed) == (if pid in processed then [] else [nodes[2]]);
    assert Targets(n2, gid, processed) == [];
    var n1 := nodes[1..];
    assert n1[1..] == n2;
    assert Targets(n1, pid, processed) == Targets(n2, pid, processed);
    assert Targets(n1, gid, processed) == (if gid in processed then [] else [nodes[1]]);
  }

  /** T's successors in the example, edge by edge: P, then G. */
  lemma QuirkSuccessorsT(tid: string, gid: string, pid: string, processed: set<string>)
    requires tid != gid && tid != pid && gid != pid
    ensures var nodes := QuirkNodes(tid, gid, pid);
      Successors(nodes, QuirkEdges(tid, gid, pid), tid, processed)
      == (if pid in processed then [] else [nodes[2]]) + (if gid in processed then [] else [nodes[1]])
  {
    var nodes := QuirkNodes(tid, gid, pid);
    var edges := QuirkEdges(tid, gid, pid);
    QuirkTargets(tid, gid, pid, processed);
    var e2 := edges[2..];
    assert e2 == [edges[2]] && e2[1..] == [];
    var e1 := edges[1..];
    assert e1[1..] == e2;
    assert Successors(nodes, e2, tid, processed) == [];
    assert Successors(nodes, e1, tid, processed) == Targets(nodes, gid, processed);
  }

  /** G's successor in the example: P. */
  lemma QuirkSuccessorsG(tid: string, gid: string, pid: string, processed: set<string>)
    requires tid != gid && tid != pid && gid != pid
    ensures var nodes := QuirkNodes(tid, gid, pid);
      Successors(nodes, QuirkEdges(tid, gid, pid), gid, processed) == (if pid in processed then [] else [nodes[2]])
  {
    var nodes := QuirkNodes(tid, gid, pid);
    var edges := QuirkEdges(tid, gid, pid);
    QuirkTargets(tid, gid, pid, processed);
    var e2 := edges[2..];
    assert e2 == [edges[2]] && e2[1..] == [];
    var e1 := edges[1..];
    assert e1[1..] == e2;
    assert Successors(nodes, e2, gid, processed) == Targets(nodes, pid, processed);
    assert Successors(nodes, e1, gid, processed) == Targets(nodes, pid, processed);
  }

  /** P has no successor in the example. */
  lemma QuirkSuccessorsP(tid: string, gid: string, pid: string, processed: set<string>)
    requires tid != gid && tid != pid && gid != pid
    ensures Successors(QuirkNodes(tid, gid, pid), QuirkEdges(tid, gid, pid), pid, processed) == []
  {
    var nodes := QuirkNodes(tid, gid, pid);
    var edges := QuirkEdges(tid, gid, pid);
    var e2 := edges[2..];
    assert e2 == [edges[2]] && e2[1..] == [];
    var e1 := edges[1..];
    assert e1[1..] == e2;
    assert Successors(nodes, e2, pid, processed) == [];
    assert Successors(nodes, e1, pid, processed) == [];
  }

  /** T has no incoming edge. */
  lemma QuirkIncomingT(tid: string, gid: string, pid: string)
    requires tid != gid && tid != pid && gid != pid
    ensures Incoming(QuirkEdges(tid, gid, pid), tid, map[]) == Inputs([], 0)
  {
    var edges := QuirkEdges(tid, gid, pid);
    var e2 := edges[2..];
    assert e2 == [edges[2]] && e2[1..] == [];
    var e1 := edges[1..];
    assert e1[1..] == e2;
    assert Incoming(e2, tid, map[]) == Inputs([], 0);
    assert Incoming(e1, tid, map[]) == Inputs([], 0);
  }

  /** P, popped after T only, finds T's output and misses G's. */
  lemma QuirkIncomingP(tid: string, gid: string, pid: string, ot: Output)
    requires tid != gid && tid != pid && gid != pid
    ensures Incoming(QuirkEdges(tid, gid, pid), pid, map[tid := ot]) == Inputs([ot], 1)
  {
    var edges := QuirkEdges(tid, gid, pid);
    var e2 := edges[2..];
    assert e2 == [edges[2]] && e2[1..] == [];
    var e1 := edges[1..];
    assert e1[1..] == e2;
    assert Incoming(e2, pid, map[tid := ot]) == Inputs([], 1);
    assert Incoming(e1, pid, map[tid := ot]) == Inputs([], 1);
  }

  /** G finds T's output. */
  lemma QuirkIncomingG(tid: string, gid: string, pid: string, ot: Output, op: Output)
    requires tid != gid && tid != pid && gid != pid
    ensures Incoming(QuirkEdges(tid, gid, pid), gid, map[tid := ot, pid := op]) == Inputs([ot], 0)
  {
    var edges := QuirkEdges(tid, gid, pid);
    var e2 := edges[2..];
    assert e2 == [edges[2]] && e2[1..] == [];
    var e1 := edges[1..];
    assert e1[1..] == e2;
    assert Incoming(e2, gid, map[tid := ot, pid := op]) == Inputs([], 0);
    assert Incoming(e1, gid, map[tid := ot, pid := op]) == Inputs([ot], 0);
  }

  /** One turn that processes a fresh id, with the inputs it finds and the
      output it produces named. */
  lemma StepProcessing(nodes: seq<ReqNode>, edges: seq<Edge>, gem: Gemini, w: Worklist, ins: Inputs, out: Output)
    requires w.queue != [] && w.queue[0].id !in w.processed
    requires Incoming(edges, w.queue[0].id, w.outputs) == ins
    requires Evaluate(w.queue[0], ins.available, gem) == Success(Some(out))
    ensures var n := w.queue[0];
      var kept := if IsCombinerKind(n.kind) then w.queue[1..] + Repeat(n, ins.missing) else w.queue[1..];
      Step(nodes, edges, gem, w)
      == Success(Worklist(kept + Successors(nodes, edges, n.id, w.processed + {n.id}), w.processed + {n.id}, w.outputs[n.id := out]))
  {
  }

  /** What T produces: its text, and no image. */
  lemma QuirkEvaluateT(tid: string, gid: string, pid: string, gem: Gemini)
    ensures Evaluate(QuirkNodes(tid, gid, pid)[0], [], gem) == Success(Some(Output(Null, Str("t"))))
  {
    assert PyGet(QuirkNodes(tid, gid, pid)[0].data, "text", Str("")) == Str("t");
  }

  /** What P produces from T's output alone. */
  lemma QuirkEvaluateP(tid: string, gid: string, pid: string, gem: Gemini)
    ensures Evaluate(QuirkNodes(tid, gid, pid)[2], [Output(Null, Str("t"))], gem)
      == Success(Some(Output(Null, FromPy(gem.text(Preamble + "t\n\np", [])))))
  {
    var nodes := QuirkNodes(tid, gid, pid);
    var ot := Output(Null, Str("t"));
    assert InputText([ot]) == "t\n";
    assert InputImages([ot]) == [];
    assert PyGet(nodes[2].data, "prompt", Str("")) == Str("p");
    assert FullPrompt("t\n", Str("p")) == Str("t\n\np");
  }

  /** What G produces from T's output alone. */
  lemma QuirkEvaluateG(tid: string, gid: string, pid: string, gem: Gemini)
    ensures Evaluate(QuirkNodes(tid, gid, pid)[1], [Output(Null, Str("t"))], gem)
      == Success(Some(Output(FromPy(gem.image(Str("t\n\ng"), [])), Str("t\n"))))
  {
    var nodes := QuirkNodes(tid, gid, pid);
    var ot := Output(Null, Str("t"));
    assert InputText([ot]) == "t\n";
    assert InputImages([ot]) == [];
    assert PyGet(nodes[1].data, "prompt", Str("")) == Str("g");
    assert FullPrompt("t\n", Str("g")) == Str("t\n\ng");
  }

  /** The first turn: T runs and queues P, then G, in edge order. */
  lemma QuirkStep1(tid: string, gid: string, pid: string, gem: Gemini)
    requires tid != gid && tid != pid && gid != pid
    ensures var nodes := QuirkNodes(tid, gid, pid);
      Step(nodes, QuirkEdges(tid, gid, pid), gem, Worklist([nodes[0]], {}, map[]))
      == Success(Worklist([nodes[2], nodes[1]], {tid}, map[tid := Output(Null, Str("t"))]))
  {
    var nodes := QuirkNodes(tid, gid, pid);
    var edges := QuirkEdges(tid, gid, pid);
    var ot := Output(Null, Str("t"));
    var w := Worklist([nodes[0]], {}, map[]);
    var next := Worklist([nodes[2], nodes[1]], {tid}, map[tid := ot]);
    assert Step(nodes, edges, gem, w) == Success(next) by {
      assert w.processed + {tid} == {tid};
      assert Incoming(edges, tid, w.outputs) == Inputs([], 0) by {
        QuirkIncomingT(tid, gid, pid);
      }
      assert Evaluate(nodes[0], [], gem) == Success(Some(ot)) by {
        QuirkEvaluateT(tid, gid, pid, gem);
      }
      assert Successors(nodes, edges, tid, {tid}) == [nodes[2], nodes[1]] by {
        QuirkSuccessorsT(tid, gid, pid, {tid});
      }
      assert w.queue[1..] == [];
      var r := Step(nodes, edges, gem, w);
      assert r.Success?;
      assert r.value.outputs == map[tid := ot];
      assert r.value.queue == [nodes[2], nodes[1]];
    }
  }

  /** The second turn: P runs with T's text alone and is queued again for G. */
  lemma QuirkStep2(tid: string, gid: string, pid: string, gem: Gemini)
    requires tid != gid && tid != pid && gid != pid
    ensures var nodes := QuirkNodes(tid, gid, pid);
      var ot := Output(Null, Str("t"));
      var op := Output(Null, FromPy(gem.text(Preamble + "t\n\np", [])));
      Step(nodes, QuirkEdges(tid, gid, pid), gem, Worklist([nodes[2], nodes[1]], {tid}, map[tid := ot]))
      == Success(Worklist([nodes[1], nodes[2]], {tid, pid}, map[tid := ot, pid := op]))
  {
    var nodes := QuirkNodes(tid, gid, pid);
    var edges := QuirkEdges(tid, gid, pid);
    var ot := Output(Null, Str("t"));
    var op := Output(Null, FromPy(gem.text(Preamble + "t\n\np", [])));
    var w := Worklist([nodes[2], nodes[1]], {tid}, map[tid := ot]);
    var next := Worklist([nodes[1], nodes[2]], {tid, pid}, map[tid := ot, pid := op]);
    assert Step(nodes, edges, gem, w) == Success(next) by {
      assert w.processed + {pid} == {tid, pid};
      assert Incoming(edges, pid, w.outputs) == Inputs([ot], 1) by {
        QuirkIncomingP(tid, gid, pid, ot);
      }
      assert Evaluate(nodes[2], [ot], gem) == Success(Some(op)) by {
        QuirkEvaluateP(tid, gid, pid, gem);
      }
      assert Successors(nodes, edges, pid, {tid, pid}) == [] by {
        QuirkSuccessorsP(tid, gid, pid, {tid, pid});
      }
      assert Repeat(nodes[2], 1) == [nodes[2]];
      assert w.queue[1..] + Repeat(nodes[2], 1) + [] == [nodes[1], nodes[2]];
      var r := Step(nodes, edges, gem, w);
      assert r.Success?;
      assert r.value.outputs[pid] == op;
      assert r.value.outputs == w.outputs[pid := op];
      assert r.value.queue == [nodes[1], nodes[2]];
      assert r.value.processed == next.processed;
      assert w.outputs[pid := op] == next.outputs;
    }
  }

  /** The third turn: G runs; P is already processed and is not queued again. */
  lemma QuirkStep3(tid: string, gid: string, pid: string, gem: Gemini)
    requires tid != gid && tid != pid && gid != pid
    ensures var nodes := QuirkNodes(tid, gid, pid);
      var ot := Output(Null, Str("t"));
      var op := Output(Null, FromPy(gem.text(Preamble + "t\n\np", [])));
      var og := Output(FromPy(gem.image(Str("t\n\ng"), [])), Str("t\n"));
      Step(nodes, QuirkEdges(tid, gid, pid), gem, Worklist([nodes[1], nodes[2]], {tid, pid}, map[tid := ot, pid := op]))
      == Success(Worklist([nodes[2]], {tid, pid, gid}, map[tid := ot, pid := op, gid := og]))
  {
    var nodes := QuirkNodes(tid, gid, pid);
    var edges := QuirkEdges(tid, gid, pid);
    var ot := Output(Null, Str("t"));
    var op := Output(Null, FromPy(gem.text(Preamble + "t\n\np", [])));
    var og := Output(FromPy(gem.image(Str("t\n\ng"), [])), Str("t\n"));
    var w := Worklist([nodes[1], nodes[2]], {tid, pid}, map[tid := ot, pid := op]);
    var next := Worklist([nodes[2]], {tid, pid, gid}, map[tid := ot, pid := op, gid := og]);
    assert Step(nodes, edges, gem, w) == Success(next) by {
      assert w.processed + {gid} == {tid, pid, gid};
      assert Incoming(edges, gid, w.outputs) == Inputs([ot], 0) by {
        QuirkIncomingG(tid, gid, pid, ot, op);
      }
      assert Evaluate(nodes[1], [ot], gem) == Success(Some(og)) by {
        QuirkEvaluateG(tid, gid, pid, gem);
      }
      assert Successors(nodes, edges, gid, {tid, pid, gid}) == [] by {
        QuirkSuccessorsG(tid, gid, pid, {tid, pid, gid});
      }
      assert Repeat(nodes[1], 0) == [];
      assert w.queue[1..] + Repeat(nodes[1], 0) + [] == [nodes[2]];
      var r := Step(nodes, edges, gem, w);
      assert r.Success?;
      assert r.value.outputs[gid] == og;
      assert r.value.outputs == w.outputs[gid := og];
      assert r.value.queue == [nodes[2]];
      assert r.value.processed == next.processed;
      assert w.outputs[gid := og] == next.outputs;
    }
  }

  lemma QuirkSeeds(tid: string, gid: string, pid: string)
    ensures var nodes := QuirkNodes(tid, gid, pid);
      Seeds(nodes) == [nodes[0]]
  {
    var nodes := QuirkNodes(tid, gid, pid);
    var n2 := nodes[2..];
    assert n2 == [nodes[2]] && n2[1..] == [];
    assert Seeds(n2) == [];
    var n1 := nodes[1..];
    assert n1[1..] == n2;
    assert Seeds(n1) == [];
  }

  /** The example's run: the three processing turns, then the skipped copy of P. */
  lemma QuirkDrain(tid: string, gid: string, pid: string, gem: Gemini)
    requires tid != gid && tid != pid && gid != pid
    ensures var nodes := QuirkNodes(tid, gid, pid);
      var ot := Output(Null, Str("t"));
      var op := Output(Null, FromPy(gem.text(Preamble + "t\n\np", [])));
      var og := Output(FromPy(gem.image(Str("t\n\ng"), [])), Str("t\n"));
      Drain(nodes, QuirkEdges(tid, gid, pid), gem, InitialWorklist(nodes))
      == Success(Worklist([], {tid, pid, gid}, map[tid := ot, pid := op, gid := og]))
  {
    var nodes := QuirkNodes(tid, gid, pid);
    var edges := QuirkEdges(tid, gid, pid);
    var ot := Output(Null, Str("t"));
    var op := Output(Null, FromPy(gem.text(Preamble + "t\n\np", [])));
    var og := Output(FromPy(gem.image(Str("t\n\ng"), [])), Str("t\n"));
    var w0 := Worklist([nodes[0]], {}, map[]);
    var w1 := Worklist([nodes[2], nodes[1]], {tid}, map[tid := ot]);
    var w2 := Worklist([nodes[1], nodes[2]], {tid, pid}, map[tid := ot, pid := op]);
    var w3 := Worklist([nodes[2]], {tid, pid, gid}, map[tid := ot, pid := op, gid := og]);
    var w4 := w3.(queue := []);
    QuirkSeeds(tid, gid, pid);
    assert InitialWorklist(nodes) == w0;
    assert Drain(nodes, edges, gem, w3) == Success(w4) by {
      assert w3.queue[0].id == pid && pid in w3.processed && w3.queue[1..] == [];
      assert Step(nodes, edges, gem, w3) == Success(w4);
    }
    assert Drain(nodes, edges, gem, w2) == Success(w4) by {
      QuirkStep3(tid, gid, pid, gem);
    }
    assert Drain(nodes, edges, gem, w1) == Success(w4) by {
      QuirkStep2(tid, gid, pid, gem);
    }
    assert Drain(nodes, edges, gem, w0) == Success(w4) by {
      QuirkStep1(tid, gid, pid, gem);
    }
  }

  /** The example's endpoints: only P is the source of no edge. */
  lemma QuirkEndpoints(tid: string, gid: string, pid: string, all: map<string, Output>)
    requires tid != gid && tid != pid && gid != pid
    requires all.Keys == {tid, pid, gid}
    ensures FinalOutputs(all, QuirkEdges(tid, gid, pid)).Keys == {pid}
  {
    var edges := QuirkEdges(tid, gid, pid);
    assert edges[0] in edges && edges[0].source == tid;
    assert edges[2] in edges && edges[2].source == gid;
    assert forall e :: e in edges ==> e.source != pid;
  }

  /** The `continue` at backend/app.py:80: with edges T->P, T->G, G->P the
      prompt box P is popped before G has run, is processed at once with T's
      text alone, and the copy re-queued for the missing input is skipped, so
      G's output never reaches P. */
  lemma PartialInputsExample(tid: string, gid: string, pid: string, gem: Gemini)
    requires tid != gid && tid != pid && gid != pid
    ensures var r := ExecuteWorkflow(Request(QuirkNodes(tid, gid, pid), QuirkEdges(tid, gid, pid)), gem);
      && r.Success?
      && r.value.allOutputs.Keys == {tid, gid, pid}
      && r.value.allOutputs[pid] == Output(Null, FromPy(gem.text(Preamble + "t\n\np", [])))
      && r.value.allOutputs[gid].text == Str("t\n")
      && r.value.finalOutputs.Keys == {pid}
  {
    QuirkDrain(tid, gid, pid, gem);
    var ot := Output(Null, Str("t"));
    var op := Output(Null, FromPy(gem.text(Preamble + "t\n\np", [])));
    var og := Output(FromPy(gem.image(Str("t\n\ng"), [])), Str("t\n"));
    QuirkEndpoints(tid, gid, pid, map[tid := ot, pid := op, gid := og]);
  }
}
