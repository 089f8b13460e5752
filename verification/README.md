# Pixro workflow editor and interpreter, modelled in Dafny

Pixro is a visual workflow editor for image and text generation. The user
places four kinds of node on a canvas: an image input, a text input, a prompt
box and an image generator. The user then wires the nodes together and presses
"Execute". The browser sends a whitelisted projection of the graph to a Flask
backend. There `execute_workflow` runs a worklist over the nodes, calls the
Gemini text and image models, and returns `all_outputs`. The editor then merges
that result back into the live nodes by id. A small login screen guards the
editor with a five-day session kept in `localStorage`.

This project models that core as pure functions over immutable data and proves
what it guarantees:

- `JsValue`: the values node data holds. They are `undefined`, `null` and
  strings, with JavaScript truthiness, `||`, property access and `substring`.
- `Workflow`: the graph store of `src/WorkflowApp.jsx`. It covers the keyed
  shallow merge `updateNodeData`, `onAddNode` with its default data,
  `getNodeLabel`, the projection into the request, and the reconciliation of
  `all_outputs`.
- `Editor`: the execution coordinator and the selection. It covers the
  `isExecuting` flag and the disabled buttons, the start of an execution, the
  response handling with its alert text, `onNodesDelete`, `onNodeClick` and
  `onPaneClick`.
- `Interpreter`: `execute_workflow` of `backend/app.py`.
  - `Step` is one turn of the `while` loop and `Drain` runs the loop to the end.
  - `Drain` terminates on the measure (unprocessed ids, queue length).
  - `RunWorkflow` is the same loop as a method and is proved equal to `Drain`.
  - The `continue` on a missing input skips one edge only, so the node is still
    processed with the inputs it has and is queued again once per missing
    input. The model keeps this behaviour.
  - A prompt box whose prompt is `null` and that has no input text makes Python
    raise a `TypeError`; the model returns that as a `Failure`.
- `Scheduling`: what the worklist guarantees.
  - Every output is written once.
  - Exactly the nodes reachable from an input node get an output.
  - Every output carries both members.
  - A request whose prompts are strings never makes the interpreter raise.
  - A concrete run shows the `continue` behaviour.
- `Decimal`: `Number.prototype.toString` for integers and `parseInt(s, 10)` as
  section 19.2.5 of ECMA-262 defines it. Parsing the written form gives the
  number back.
- `BrowserStorage`, `App`, `LoginPage`, `SessionLifecycle`: the session.
  - Restoring a stored login, `clearAuthState`, login and logout.
  - The proof that a login at time `t` is restored at `t2` iff
    `t2 < t + 432000000`.
- `NodeKit`, `GenImageNode`, `ImageInputNode`, `PromptBoxNode`,
  `TextInputNode`, `NodeRegistry`: the four node components.
  - Their single-key edits and the upload decision.
  - `getImageSrc`, the compact summaries and the expanded/compact switch.
  - The handles each component declares.
- `EndToEnd`: the pieces together.
  - A component edit goes through the store.
  - An upload shows up in the component that made it.
  - A full execution from button press to reconciled nodes.
  - The image-to-generator scenario with prompt "a cat", on the editor side
    and on the backend side.

The Gemini calls are parameters (`Interpreter.Gemini`): two arbitrary total
functions from the prompt and the image list to an optional string, where
`None` is Python's `None`. `call_gemini_text` returns `None` only when the
response has no text; an exception there becomes the string "Error: ...",
which is just another string result. `call_gemini_image` returns `None` when
the response has no candidates or no parts, when no image was found, and after
any exception. The current time, generated ids and every HTTP response are
parameters too.

## Model

| member | source | states |
|---|---|---|
| Workflow.UpdateNodeData | src/WorkflowApp.jsx:60-73 | Ids, kinds and order are kept; nodes with another id are unchanged; the matching node's data is `{...data, ...partial}`: partial's keys take the new values and every other key keeps its value |
| Workflow.UpdateUnmatchedIsIdentity | src/WorkflowApp.jsx:60-73 | An id that matches no node leaves the node list as it was |
| Workflow.UpdateIdempotent | src/WorkflowApp.jsx:60-73 | Applying the same partial update twice is the same as applying it once |
| Workflow.UpdatesOnDistinctIdsCommute | src/WorkflowApp.jsx:60-73 | Updates to two different ids commute, so no update leaks into another node |
| Workflow.NodeLabel | src/WorkflowApp.jsx:36-44 | The four tags map to "Image Input", "Text Input", "Prompt Box" and "Generate Image"; the label is "Node" exactly for any other tag |
| Workflow.NodeLabelsDistinct | src/WorkflowApp.jsx:36-44 | Different known tags get different labels |
| Workflow.AddNode | src/WorkflowApp.jsx:87-104 | Exactly one node is appended and existing nodes are unchanged; the new data has exactly the seven default keys, the label, `''` for prompt/text/imagePath/result and `null` for imageData/resultImage |
| Workflow.Project | src/WorkflowApp.jsx:111-123 | Node count, order, ids and types are kept and edges pass through; each request node has exactly prompt, text, imagePath (falsy becomes `''`) and imageData (falsy becomes `null`) |
| Workflow.ProjectionIsWhitelisted | src/WorkflowApp.jsx:115-120 | No projected node carries result, resultImage or label; prompt, text and imagePath are strings; imageData is `null` or a non-empty string |
| Workflow.Reconcile | src/WorkflowApp.jsx:141-160 | A node with an entry takes `text` as result and `image` as resultImage unless the member is `undefined` (`null` overwrites), and keeps its other keys; nodes without an entry, and all nodes when `all_outputs` is missing, are unchanged |
| Workflow.ReconcileIdempotent | src/WorkflowApp.jsx:141-160 | Merging the same `all_outputs` twice is the same as merging it once |
| Workflow.ReconcileIsMerge | src/WorkflowApp.jsx:141-160 | Reconciling one entry is the store's keyed merge of `{result, resultImage}` into that node |
| Workflow.ReconcileExample | src/WorkflowApp.jsx:143-158 | With nodes A and B and `{A: {text: "hi"}}`, A's result is "hi", A's resultImage is unchanged and B is unchanged |
| Editor.Initial | src/WorkflowApp.jsx:32-50 | The editor starts with no nodes, no edges, not executing and with nothing selected |
| Editor.PressExecute | src/WorkflowApp.jsx:106-123 | A request is sent iff the button is enabled (not executing, at least one node); then the flag is raised, the selection cleared and the request is exactly `Workflow.Project` of the editor's nodes and edges; otherwise nothing changes |
| Editor.SecondPressIsIgnored | src/WorkflowApp.jsx:212-218 | A press while a request is in flight sends nothing and changes nothing |
| Editor.Complete | src/WorkflowApp.jsx:133-166 | The flag is down after every outcome; an ok response reconciles `all_outputs` and raises no alert; a thrown error or non-ok status alerts and leaves every node unchanged; a thrown error alerts "Error executing workflow: " followed by its message, and a non-ok alert starts with "Error executing workflow: Server responded with " |
| Editor.ExecutionRoundTrip | src/WorkflowApp.jsx:106-166 | From an idle editor, press and completion return to an enabled idle editor with no selection, with the same edges, and with the same nodes after a failure |
| Editor.AnyHasId | src/WorkflowApp.jsx:171 | `deletedNodes.some(node => node.id === id)` holds iff some deleted node has that id |
| Editor.OnNodesDelete | src/WorkflowApp.jsx:169-176 | The selection is cleared iff a deleted node is the selected one, and is otherwise kept; nothing else changes |
| Editor.OnNodeClick | src/WorkflowApp.jsx:178-180 | The clicked node becomes the selection |
| Editor.OnPaneClick | src/WorkflowApp.jsx:182-184 | A click on the pane clears the selection |
| Editor.DeleteAfterClick | src/WorkflowApp.jsx:169-184 | After clicking a node, deleting clears the selection iff the clicked node is among the deleted ones |
| Editor.OnAddNode | src/WorkflowApp.jsx:87-104 | Adding a node appends it and leaves the flag, edges and selection alone |
| Editor.OnConnect | src/WorkflowApp.jsx:55-58 | Connecting appends the new edge and leaves the nodes, the flag and the selection alone |
| Editor.OnUpdate | src/WorkflowApp.jsx:60-73 | A node edit is the store's merge and leaves edges, flag and selection alone |
| Editor.AddEnablesExecute | src/WorkflowApp.jsx:212-218 | Adding a node to an idle editor enables the execute button |
| Interpreter.FromPy | backend/app.py:100-105 | A Python string `s` becomes the JSON string `s` and `None` becomes `null`; never `undefined` |
| Interpreter.PyGet | backend/app.py:83 | `data.get(k, default)` gives the value when the key is present (JSON never carries `undefined`) and the default otherwise |
| Interpreter.Seeds | backend/app.py:38-41 | A node is in the initial queue iff it is an image or text input node |
| Interpreter.SeedsAppend | backend/app.py:38-41 | The initial queue keeps request order: seeds of a concatenation are the concatenated seeds, and one node is queued iff it is an image or text input |
| Interpreter.Incoming | backend/app.py:71-80 | The available inputs are exactly the outputs of the node's predecessors that already have one; the missing count is zero iff every predecessor has one |
| Interpreter.IncomingAppend | backend/app.py:71-80 | Inputs follow edge order with one entry per edge: an edge into the node whose source has an output adds that output, one whose source has none adds one to the missing count, any other edge adds nothing |
| Interpreter.InputImages | backend/app.py:86-91 | Every truthy input image is passed on, and nothing else: each passed image is a non-empty image of some input |
| Interpreter.InputImagesAppend | backend/app.py:86-91 | Images keep input order: each input contributes its image iff that image is truthy, and nothing otherwise |
| Interpreter.InputText | backend/app.py:86-93 | The input text is empty iff no predecessor text is truthy |
| Interpreter.InputTextAppend | backend/app.py:86-93 | The input text is the inputs' texts in order: an input adds its text and a newline iff its text is truthy, and nothing otherwise |
| Interpreter.FullPrompt | backend/app.py:96 | With no input text the prompt is used as is; otherwise it is input text, newline and the prompt, and a `null` prompt is written "None" |
| Interpreter.Evaluate | backend/app.py:52-147 | Image input gives `{image: imageData, text: null}`; text input gives `{image: null, text}`; a prompt box passes on its first input image and its text is the Gemini text answer to the preamble plus the full prompt, with the input images; a generator passes on its input text and its image is the Gemini image answer to the full prompt with the input images; every output has both members; it raises iff the node is a prompt box with `null` prompt and no input text |
| Interpreter.Targets | backend/app.py:153-155 | The nodes with the edge's target id are queued unless that id is processed |
| Interpreter.TargetsAppend | backend/app.py:153-155 | The matching unprocessed nodes are queued in request order; one node is queued iff it has the target id and that id is unprocessed |
| Interpreter.Successors | backend/app.py:149-155 | A node is queued after `id` iff it is unprocessed and some edge leads to it from `id` |
| Interpreter.SuccessorsAppend | backend/app.py:149-155 | Successors follow edge order: each edge leaving `id` queues its unprocessed targets once more, so two edges to one node queue it twice; other edges queue nothing |
| Interpreter.Repeat | backend/app.py:77-80 | The node is queued again once per missing input |
| Interpreter.Step | backend/app.py:45-155 | A processed id is dropped; an unknown type only queues its unprocessed successors; a known type is processed once: its id is added, only its own output is written and that output is exactly `Evaluate` on the inputs available now; the new queue is the rest of the queue, then a combiner once more per missing input, then the unprocessed successors; only a prompt box can raise |
| Interpreter.UnprocessedShrinks | backend/app.py:45-59 | Processing a new id shrinks the set of unprocessed ids, which is the loop's first measure |
| Interpreter.Drain | backend/app.py:45-155 | With the four known types the loop terminates with an empty queue and never forgets a processed id |
| Interpreter.IsEndpoint | backend/app.py:160-165 | A node is an endpoint iff no edge leaves it |
| Interpreter.FinalOutputs | backend/app.py:157-168 | `final_outputs` is exactly the outputs of endpoints, with the same values |
| Interpreter.ExecuteWorkflow | backend/app.py:28-173 | `final_outputs` is exactly the endpoint part of `all_outputs` (`Interpreter.FinalOutputs`), hence a subset of it |
| Interpreter.RunWorkflow | backend/app.py:28-173 | The `while` loop with its lexicographic measure computes the same result as `Drain` |
| Scheduling.DrainWritesOnce | backend/app.py:45-50 | Outputs are keyed exactly by the processed ids, and an output once written is never changed |
| Scheduling.DrainOutputsDefined | backend/app.py:52-147 | Every output of a run has both `image` and `text` |
| Scheduling.DrainProcessesCovered | backend/app.py:45-155 | A node that is queued or processed ends up processed |
| Scheduling.DrainEndsClosed | backend/app.py:149-155 | At the end, every node an edge leads to from a processed id is processed |
| Scheduling.DrainStaysWithin | backend/app.py:149-155 | Nothing outside an edge-closed set of ids holding the queue is processed |
| Scheduling.OutputsAreExactlyReachable | backend/app.py:38-155 | A run that does not raise produces an output for exactly the nodes reachable along edges from an input node |
| Scheduling.DrainNeverFails | backend/app.py:83-107 | If every prompt box's prompt is a string, no turn raises |
| Scheduling.ExecuteWorkflowNeverFails | backend/app.py:28-173 | If every prompt box's prompt is a string, `execute_workflow` returns normally |
| Scheduling.PartialInputsExample | backend/app.py:72-80 | With edges T->P, T->G, G->P, P runs before G on T's text alone and its re-queued copy is skipped, so G's output never reaches P; only P is final |
| Decimal.NatToString | src/components/LoginPage.jsx:32 | A natural number is written as a non-empty run of digits with no leading zero |
| Decimal.IntToString | src/components/LoginPage.jsx:32 | The text starts with '-' exactly for negative numbers, otherwise with a digit |
| Decimal.ParseInt | src/App.jsx:50 | The result is NaN exactly when no digit follows the leading white space and sign |
| Decimal.ParseIntOfNumeral | src/App.jsx:50 | White space, an optional sign, a run of digits and text not starting with a digit parse to the signed value of the digits |
| Decimal.ParseIntOfIntToString | src/App.jsx:50 | Parsing the decimal text of an integer gives that integer back |
| Decimal.ParseIntIgnoresTrailingText | src/App.jsx:50 | Text after the numeral that does not start with a digit is ignored |
| App.InitialAuth | src/App.jsx:20-26 | The app starts unauthenticated, without a user and loading |
| App.ClearAuthState | src/App.jsx:29-39 | Both keys are removed unless storage throws, every other key keeps its value, nothing is added, and the user is logged out either way |
| App.RestoreSession | src/App.jsx:43-78 | Loading ends on every path; the user is logged in iff storage reads, both keys are non-empty, the expiration parses and now is before it; then as the stored user; every other path is `clearAuthState` |
| App.ExpiredAtBoundary | src/App.jsx:53 | At `now == expiration` the session is not restored |
| App.HandleLoginSuccess | src/App.jsx:81-86 | Login success authenticates the given user |
| App.HandleLogout | src/App.jsx:89-94 | Logout is exactly `clearAuthState` |
| App.LogoutEndsSession | src/App.jsx:89-94 | After a logout no restore at any time logs anyone in |
| LoginPage.HandleLogin | src/components/LoginPage.jsx:14-48 | Login succeeds iff the fixed e-mail and password match and storage works; then the user and `now + 5 days` are stored and the callback gets the e-mail; bad credentials set the invalid-credentials error and a throwing storage the storage error, both without writes or callback |
| LoginPage.DurationIsFiveDays | src/components/LoginPage.jsx:5 | The session lasts 432000000 ms |
| SessionLifecycle.LoginThenRestore | src/components/LoginPage.jsx:21-36 | A login at `t` is restored at `t2` iff `t2 < t + 432000000`, as the user who logged in |
| SessionLifecycle.FailedLoginRestoresNothing | src/components/LoginPage.jsx:45-47 | A failed attempt creates no session that a restore could find |
| NodeKit.Edit | src/components/nodes/TextInputNode.jsx:9-16 | An edit is issued iff the callback exists, to the node's own id, with exactly the one key and the new string |
| NodeKit.Summary | src/components/nodes/TextInputNode.jsx:32 | A falsy value gives the placeholder; otherwise the line is the lead, the first 30 characters and "..." |
| NodeKit.SummaryOfShortText | src/components/nodes/TextInputNode.jsx:32 | A value of at most 30 characters appears whole, still followed by "..." |
| NodeKit.SummaryTellsSetFromUnset | src/components/nodes/PromptBoxNode.jsx:38 | The line equals the placeholder iff the value is unset |
| NodeKit.FieldText | src/components/nodes/TextInputNode.jsx:42 | The text field shows the value, or `''` when it is falsy |
| GenImageNode.GetImageSrc | src/components/nodes/GenImageNode.jsx:19-25 | Falsy gives `null`; a `data:image` value is kept; anything else gets the PNG base64 prefix; every result starts with `data:image` |
| GenImageNode.GetImageSrcIdempotent | src/components/nodes/GenImageNode.jsx:19-25 | Normalising a normalised source changes nothing |
| GenImageNode.HandlePromptChange | src/components/nodes/GenImageNode.jsx:9-16 | A prompt edit is `{prompt}` for this node, and nothing without the callback |
| GenImageNode.Render | src/components/nodes/GenImageNode.jsx:44-91 | The node is expanded iff selected; the summary is the prompt line; the prompt field shows the prompt or `''`; the image source is `getImageSrc(resultImage)`, shown iff resultImage is truthy, and otherwise the notice for the current view |
| ImageInputNode.HandleFileChange | src/components/nodes/ImageInputNode.jsx:10-44 | A request goes out iff there is a file and a callback; the node is updated with exactly imageData and imagePath iff the response is ok and both members are truthy; every other outcome alerts and updates nothing |
| ImageInputNode.Render | src/components/nodes/ImageInputNode.jsx:60-107 | The button reads "Change Image" iff imagePath is truthy; the path shows it or "N/A"; the image shows iff imageData is truthy, and otherwise the notice for the current view |
| PromptBoxNode.HandlePromptChange | src/components/nodes/PromptBoxNode.jsx:9-16 | A prompt edit is `{prompt}` for this node, and nothing without the callback |
| PromptBoxNode.Render | src/components/nodes/PromptBoxNode.jsx:33-63 | The node is expanded iff selected; the prompt field shows the prompt or `''`; "Has result" iff result is truthy; the result text or the placeholder |
| TextInputNode.HandleTextChange | src/components/nodes/TextInputNode.jsx:9-16 | A text edit is `{text}` for this node, and nothing without the callback |
| TextInputNode.Render | src/components/nodes/TextInputNode.jsx:27-47 | The node is expanded iff selected; the summary is the text line; the text field shows the text or `''` |
| NodeRegistry.HandlesOf | src/WorkflowApp.jsx:24-29 | Every registered component ends with a source handle, named `output_image` on the image input and `output` otherwise; the input nodes have only that handle, and the prompt box and generator first have a target handle named `input` |
| NodeRegistry.InputHandleIffNotSeed | src/WorkflowApp.jsx:24-29 | A node type has an input handle iff the backend does not seed its queue with it |
| EndToEnd.ComponentEditTouchesOneMember | src/WorkflowApp.jsx:60-73 | A component edit through the store changes one member of one node only |
| EndToEnd.UploadShowsImage | src/components/nodes/ImageInputNode.jsx:27-32 | After a complete upload the node shows the image, offers "Change Image" and names the file |
| EndToEnd.ProjectedRequestNeverFails | src/WorkflowApp.jsx:111-123 | The request an editor of known types sends runs to the end without raising |
| EndToEnd.ExecutionFillsReachableNodes | src/WorkflowApp.jsx:138-160 | After the backend's answer, exactly the nodes reachable from an input node hold its outputs, the others are unchanged, and the editor is idle |
| EndToEnd.CatEditor | src/WorkflowApp.jsx:87-104 | Adding an image input and a generator, connecting them and typing "a cat" gives the expected two-node graph |
| EndToEnd.CatScenario | src/WorkflowApp.jsx:106-160 | The request carries "a cat"; after `{gid: {image}}` the generator's resultImage is that image, its prompt is unchanged and it shows the image as PNG data |
| EndToEnd.CatRequest | src/WorkflowApp.jsx:106-123 | The request the editor sends after the image input's upload has the scenario's shape: the uploaded image on the input node, "a cat" on the generator, one edge |
| EndToEnd.CatBackend | backend/app.py:109-147 | On the backend, for that request, the generator receives exactly "a cat" and the uploaded image and is the only final output |

## Left out

- The Gemini calls (`call_gemini_text`, `call_gemini_image`, backend/app.py:175-299) are function parameters. The SDK, image decoding and the network are outside the model.
- The Flask routes, CORS, the upload endpoint's file saving, uuid and base64 (backend/app.py:302-342) are I/O. The upload's answer is a parameter of `ImageInputNode.HandleFileChange`. The execute endpoint does not catch a `TypeError` raised by the interpreter (backend/app.py:327-335), so the request fails. The server runs in debug mode (backend/app.py:345), and its error page carries no CORS headers, so the browser rejects the cross-origin `fetch` (src/WorkflowApp.jsx:125) and the editor sees `Editor.Response.Thrown`. A server without the debugger would answer 500, which is `Editor.Response.NotOk`. `EndToEnd.ProjectedRequestNeverFails` shows that an editor of known node types never sends a request that raises.
- `fetch`, `alert`, `console` and `localStorage` are modelled only by their outcomes: a response or a thrown message, the alert text, the stored strings, and a flag saying that every storage access throws.
- Storage that throws on one access but not another, such as a full quota on the second `setItem`, is left out.
- ReactFlow internals are left out: `addEdge` beyond an append, the removal of deleted nodes and edges by `onNodesChange`/`onEdgesChange`, dragging, positions and rendering.
- On deletion the editor clears only the selection, and the canvas library removes the nodes. The model follows that code and does not claim that edges are removed with their nodes.
- `Date.now()` ids and random positions (src/WorkflowApp.jsx:89-91) are left out. The id is a parameter, and ids are not assumed unique.
- The `updateNodeData` closure stored in every node's data, and its re-injection by `useEffect` (src/WorkflowApp.jsx:75-85), are React plumbing. `updateNodeData` is a store operation, and a component's "callback present" is a boolean.
- `setWorkflowResults` stores the response for no reader, so it is left out.
- A response body that is JSON `null` is left out. Reading `all_outputs` of it throws inside the node updater, after the `try` block has finished, so no alert is shown; the model has no such outcome.
- Async interleaving while a request is in flight is left out. The response is merged in one step against the live editor state handed to `Editor.Complete`.
- An `all_outputs` entry that is not an object, or any node data value other than `undefined`, `null` or a string, cannot occur between this editor and this backend, so it is not modelled.
- A request missing `id`, `type`, `data`, `source` or `target` cannot come from this editor, so it is not modelled.
- Interpreter.ExecuteWorkflow: requires every node type to be one of the four tags. With another tag the source loop need not terminate. `Interpreter.Step` still models such a node: it gets no output but its successors are queued.
- Decimal.ParseInt: returns an unbounded integer. It does not model the rounding to a double above 2^53.
- Decimal.IntToString: gives the plain decimal form. It does not model the exponent form JavaScript uses from 1e21 upward.
- NodeKit.Summary: counts characters. JavaScript's `substring` counts UTF-16 code units, so the two differ for text outside the Basic Multilingual Plane.
- The sidebar, the top bar, CSS, icons, the node header texts and the markup are left out.
