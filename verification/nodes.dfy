/** What the four node components share: handles, the expanded/compact
    switch, the single-key edit they emit, and the compact one-line summary. */
module NodeKit {
  import opened Common
  import opened JsValue
  import opened Workflow

  datatype HandleType = Source | Target

  /** A `<Handle type=... id=...>` a component declares. */
  datatype Handle = Handle(handleType: HandleType, id: string)

  predicate HasTarget(hs: seq<Handle>) {
    exists i :: 0 <= i < |hs| && hs[i].handleType == Target
  }

  /** Every component reads the selection and expands iff it is itself selected. */
  predicate IsExpanded(id: string, selected: Option<string>) {
    selected == Some(id)
  }

  /** An edit handler: `data.updateNodeData(id, {key: value})` when the
      callback is present, otherwise only a console error. */
  function Edit(id: string, hasCallback: bool, key: string, value: string): (r: Option<Update>)
    ensures r.Some? <==> hasCallback
    ensures r.Some? ==> r.value.id == id && r.value.partial.Keys == {key} && r.value.partial[key] == Str(value)
  {
    if hasCallback then Some(Update(id, map[key := Str(value)])) else None
  }

  /** The compact line: `v ? `${lead}${v.substring(0, 30)}...` : placeholder`. */
  function Summary(lead: string, v: JsVal, placeholder: string): (r: string)
    ensures !Truthy(v) ==> r == placeholder
    ensures Truthy(v) ==> HasPrefix(r, lead) && |r| == |lead| + Min(|v.s|, 30) + 3
    ensures Truthy(v) ==> r[|lead|..|r| - 3] == v.s[..Min(|v.s|, 30)] && r[|r| - 3..] == "..."
  {
    if Truthy(v) then lead + Prefix(v.s, 30) + "..." else placeholder
  }

  /** A short text appears whole in the summary, followed by "..." all the same. */
  lemma SummaryOfShortText(lead: string, v: JsVal, placeholder: string)
    requires Truthy(v) && |v.s| <= 30
    ensures Summary(lead, v, placeholder) == lead + v.s + "..."
  {
  }

  /** When the placeholder does not start like a summary, the line tells a
      set value from an unset one. */
  lemma SummaryTellsSetFromUnset(lead: string, v: JsVal, placeholder: string)
    requires !HasPrefix(placeholder, lead)
    ensures Summary(lead, v, placeholder) == placeholder <==> !Truthy(v)
  {
  }

  /** The string a controlled input shows: `v || ''`. */
  function FieldText(v: JsVal): (s: string)
    ensures Truthy(v) ==> s == v.s
    ensures !Truthy(v) ==> s == ""
  {
    if Truthy(v) then v.s else ""
  }
}

/** src/components/nodes/GenImageNode.jsx */
module GenImageNode {
  import opened Common
  import opened JsValue
  import opened Workflow
  import opened NodeKit

  const Handles: seq<Handle> := [Handle(Target, "input"), Handle(Source, "output")]

  const DataImagePrefix := "data:image"
  const PngPrefix := "data:image/png;base64,"

  /** `getImageSrc`: falsy gives `null`; a value already carrying a
      `data:image` prefix is kept; anything else is taken for bare base64
      PNG data and prefixed. */
  function GetImageSrc(img: JsVal): (r: Option<string>)
    ensures r.None? <==> !Truthy(img)
    ensures r.Some? ==> HasPrefix(r.value, DataImagePrefix)
    ensures r.Some? && HasPrefix(img.s, DataImagePrefix) ==> r.value == img.s
    ensures r.Some? && !HasPrefix(img.s, DataImagePrefix) ==> r.value == PngPrefix + img.s
  {
    if !Truthy(img) then None
    else if HasPrefix(img.s, DataImagePrefix) then Some(img.s)
    else Some(PngPrefix + img.s)
  }

  /** Normalising a normalised source changes nothing. */
  lemma GetImageSrcIdempotent(img: JsVal)
    requires Truthy(img)
    ensures GetImageSrc(Str(GetImageSrc(img).value)) == GetImageSrc(img)
  {
  }

  /** `handlePromptChange`. */
  function HandlePromptChange(id: string, hasCallback: bool, newPrompt: string): (r: Option<Update>)
    ensures r.Some? <==> hasCallback
    ensures r.Some? ==> r.value == Update(id, map["prompt" := Str(newPrompt)])
  {
    Edit(id, hasCallback, "prompt", newPrompt)
  }

  /** What the component renders, minus markup: the compact line, the
      normalised result image, and the notice shown without one. */
  datatype View = View(expanded: bool, summary: string, promptField: string, imageSrc: Option<string>, noImageNotice: Option<string>)

  function Render(id: string, data: Data, selected: Option<string>): (v: View)
    ensures v.expanded <==> IsExpanded(id, selected)
    ensures v.summary == Summary("Prompt: ", Get(data, "prompt"), "No prompt set")
    ensures v.promptField == FieldText(Get(data, "prompt"))
    ensures v.imageSrc == GetImageSrc(Get(data, "resultImage"))
    ensures v.imageSrc.None? <==> !Truthy(Get(data, "resultImage"))
    ensures v.noImageNotice.Some? <==> v.imageSrc.None?
    ensures v.noImageNotice.Some? ==>
      v.noImageNotice.value == (if v.expanded then "No image generated yet or generation failed." else "No image generated")
  {
    var expanded := IsExpanded(id, selected);
    var src := GetImageSrc(Get(data, "resultImage"));
    var notice := if src.Some? then None
      else if expanded then Some("No image generated yet or generation failed.")
      else Some("No image generated");
    View(expanded, Summary("Prompt: ", Get(data, "prompt"), "No prompt set"), FieldText(Get(data, "prompt")), src, notice)
  }
}

/** src/components/nodes/ImageInputNode.jsx */
module ImageInputNode {
  import opened Common
  import opened JsValue
  import opened Workflow
  import opened NodeKit

  const Handles: seq<Handle> := [Handle(Source, "output_image")]

  /** The JSON body of `POST /api/upload-image`; a missing member is `Undefined`. */
  datatype UploadBody = UploadBody(imageData: JsVal, filename: JsVal)

  /** How the upload request ended. `UploadThrown` covers a rejected `fetch`
      and a body that is not a JSON object; its message is the runtime's. */
  datatype UploadResponse =
    | UploadThrown(message: string)
    | UploadNotOk(statusText: string)
    | UploadOk(body: UploadBody)

  /** Whether a request went out, the edit it led to, and the alert shown. */
  datatype Upload = Upload(requestSent: bool, update: Option<Update>, alert: Option<string>)

  const IncompleteAlert := "Failed to get complete image details from server."

  /** `handleFileChange`: with a file and the callback, upload; on an ok
      response carrying both a truthy `imageData` and a truthy `filename`,
      merge exactly those two into the node (the filename as `imagePath`).
      Every other outcome alerts and merges nothing. */
  function HandleFileChange(id: string, fileChosen: bool, hasCallback: bool, resp: UploadResponse): (r: Upload)
    ensures r.requestSent <==> fileChosen && hasCallback
    ensures r.update.Some? <==>
      r.requestSent && resp.UploadOk? && Truthy(resp.body.imageData) && Truthy(resp.body.filename)
    ensures r.update.Some? ==>
      r.update.value == Update(id, map["imageData" := resp.body.imageData, "imagePath" := resp.body.filename])
    ensures r.alert.Some? <==> r.requestSent && r.update.None?
    ensures r.requestSent && resp.UploadNotOk? ==>
      r.alert == Some("Failed to upload image: Error uploading image: " + resp.statusText)
  {
    if !(fileChosen && hasCallback) then Upload(false, None, None)
    else
      match resp
      case UploadThrown(m) => Upload(true, None, Some("Failed to upload image: " + m))
      case UploadNotOk(statusText) =>
        Upload(true, None, Some("Failed to upload image: Error uploading image: " + statusText))
      case UploadOk(body) =>
        if Truthy(body.imageData) && Truthy(body.filename) then
          Upload(true, Some(Update(id, map["imageData" := body.imageData, "imagePath" := body.filename])), None)
        else
          Upload(true, None, Some(IncompleteAlert))
  }

  datatype View = View(expanded: bool, buttonLabel: string, pathText: string, showsImage: bool, noImageNotice: Option<string>)

  function Render(id: string, data: Data, selected: Option<string>): (v: View)
    ensures v.expanded <==> IsExpanded(id, selected)
    ensures v.noImageNotice.Some? <==> !v.showsImage
    ensures v.noImageNotice.Some? ==>
      v.noImageNotice.value == (if v.expanded then "No image uploaded yet." else "No image uploaded")
    ensures v.buttonLabel == "Change Image" <==> Truthy(Get(data, "imagePath"))
    ensures v.buttonLabel == "Upload Image" <==> !Truthy(Get(data, "imagePath"))
    ensures Truthy(Get(data, "imagePath")) ==> v.pathText == Get(data, "imagePath").s
    ensures !Truthy(Get(data, "imagePath")) ==> v.pathText == "N/A"
    ensures v.showsImage <==> Truthy(Get(data, "imageData"))
  {
    var path := Get(data, "imagePath");
    View(
      IsExpanded(id, selected),
      if Truthy(path) then "Change Image" else "Upload Image",
      if Truthy(path) then path.s else "N/A",
      Truthy(Get(data, "imageData")),
      if Truthy(Get(data, "imageData")) then None
      else if IsExpanded(id, selected) then Some("No image uploaded yet.")
      else Some("No image uploaded"))
  }
}

/** src/components/nodes/PromptBoxNode.jsx */
module PromptBoxNode {
  import opened Common
  import opened JsValue
  import opened Workflow
  import opened NodeKit

  const Handles: seq<Handle> := [Handle(Target, "input"), Handle(Source, "output")]

  function HandlePromptChange(id: string, hasCallback: bool, newPrompt: string): (r: Option<Update>)
    ensures r.Some? <==> hasCallback
    ensures r.Some? ==> r.value == Update(id, map["prompt" := Str(newPrompt)])
  {
    Edit(id, hasCallback, "prompt", newPrompt)
  }

  const NoResult := "No result yet. Execute workflow."

  datatype View = View(expanded: bool, summary: string, promptField: string, hasResult: bool, resultText: string)

  function Render(id: string, data: Data, selected: Option<string>): (v: View)
    ensures v.expanded <==> IsExpanded(id, selected)
    ensures v.summary == Summary("Prompt: ", Get(data, "prompt"), "No prompt set")
    ensures v.promptField == FieldText(Get(data, "prompt"))
    ensures v.hasResult <==> Truthy(Get(data, "result"))
    ensures v.hasResult ==> v.resultText == Get(data, "result").s
    ensures !v.hasResult ==> v.resultText == NoResult
  {
    var result := Get(data, "result");
    View(
      IsExpanded(id, selected),
      Summary("Prompt: ", Get(data, "prompt"), "No prompt set"),
      FieldText(Get(data, "prompt")),
      Truthy(result),
      if Truthy(result) then result.s else NoResult)
  }
}

/** src/components/nodes/TextInputNode.jsx */
module TextInputNode {
  import opened Common
  import opened JsValue
  import opened Workflow
  import opened NodeKit

  const Handles: seq<Handle> := [Handle(Source, "output")]

  function HandleTextChange(id: string, hasCallback: bool, newText: string): (r: Option<Update>)
    ensures r.Some? <==> hasCallback
    ensures r.Some? ==> r.value == Update(id, map["text" := Str(newText)])
  {
    Edit(id, hasCallback, "text", newText)
  }

  datatype View = View(expanded: bool, summary: string, textField: string)

  function Render(id: string, data: Data, selected: Option<string>): (v: View)
    ensures v.expanded <==> IsExpanded(id, selected)
    ensures v.summary == Summary("Text: ", Get(data, "text"), "No text set")
    ensures v.textField == FieldText(Get(data, "text"))
  {
    View(IsExpanded(id, selected), Summary("Text: ", Get(data, "text"), "No text set"), FieldText(Get(data, "text")))
  }
}

/** The `nodeTypes` registration of src/WorkflowApp.jsx: which component, and
    so which handles, each tag gets. */
module NodeRegistry {
  import opened NodeKinds
  import opened NodeKit
  import GenImageNode
  import ImageInputNode
  import PromptBoxNode
  import TextInputNode

  function HandlesOf(kind: string): (hs: seq<Handle>)
    requires IsKnownKind(kind)
    ensures |hs| > 0 && hs[|hs| - 1].handleType == Source
    ensures IsSeedKind(kind) ==> |hs| == 1
    ensures !IsSeedKind(kind) ==> |hs| == 2 && hs[0] == Handle(Target, "input")
    ensures hs[|hs| - 1].id == (if kind == ImageInput then "output_image" else "output")
  {
    if kind == ImageInput then ImageInputNode.Handles
    else if kind == TextInput then TextInputNode.Handles
    else if kind == PromptBox then PromptBoxNode.Handles
    else GenImageNode.Handles
  }

  /** Exactly the kinds the backend does not seed from have an input handle:
      a node can only receive edges if the interpreter waits for inputs. */
  lemma InputHandleIffNotSeed(kind: string)
    requires IsKnownKind(kind)
    ensures HasTarget(HandlesOf(kind)) <==> !IsSeedKind(kind)
  {
    var hs := HandlesOf(kind);
    if !IsSeedKind(kind) {
      assert hs[0].handleType == Target;
    }
  }
}
