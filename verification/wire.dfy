/** The node-type tags and the JSON documents that the editor and the backend
    exchange over `POST /api/execute-workflow`. */
module NodeKinds {

  /** The four tags the editor registers and can add (src/WorkflowApp.jsx:24-29). */
  const ImageInput := "imageInput"
  const TextInput := "textInput"
  const PromptBox := "promptBox"
  const GenImageBlock := "genImageBlock"

  predicate IsKnownKind(kind: string) {
    kind == ImageInput || kind == TextInput || kind == PromptBox || kind == GenImageBlock
  }

  /** Kinds that take no input: the backend seeds its worklist with them. */
  predicate IsSeedKind(kind: string) {
    kind == ImageInput || kind == TextInput
  }

  /** Kinds that combine the outputs of their predecessors with a prompt. */
  predicate IsCombinerKind(kind: string) {
    kind == PromptBox || kind == GenImageBlock
  }
}

module Wire {
  import opened JsValue

  /** A link between two node handles. Only `source` and `target` mean
      anything to the backend; the editor passes edges through unchanged. */
  datatype Edge = Edge(id: string, source: string, sourceHandle: string, target: string, targetHandle: string)

  /** One node of the execution request: id, type tag and the whitelisted data. */
  datatype ReqNode = ReqNode(id: string, kind: string, data: Data)

  datatype Request = Request(nodes: seq<ReqNode>, edges: seq<Edge>)

  /** One entry of `all_outputs`: `{image, text}`. A member missing from the
      JSON object reads as `Undefined` on the editor side. */
  datatype Output = Output(image: JsVal, text: JsVal)

  /** The backend's answer: every produced output, and those of nodes with no
      outgoing edge. */
  datatype ExecResult = ExecResult(allOutputs: map<string, Output>, finalOutputs: map<string, Output>)
}
