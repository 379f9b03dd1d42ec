/** The request body both export routes accept and the choice of the text
    they render. */
module ExportRequest {
  import opened Wrappers

  /** The two keys the export routes read from the JSON body. A body that
      fails to parse is read as `{}`, so both keys are `Absent`. */
  datatype ExportPayload = ExportPayload(story: JsonField, title: JsonField)

  /** The parsed body as the routes see it. A body that is the JSON literal
      `null` has no keys to read, so looking one up throws; every other body
      (an object, a number, a string, an array, or text that fails to parse)
      yields the two keys as an `ExportPayload`. */
  datatype RequestBody = NullBody | KeyedBody(payload: ExportPayload)

  /** The request's story is used only when it is a non-empty string. */
  function StoryOverride(payload: ExportPayload): (r: Option<string>)
    ensures r.Some? <==> payload.story.Str? && payload.story.text != ""
    ensures r.Some? ==> r.value == payload.story.text
  {
    match payload.story
    case Str(s) => if |s| > 0 then Some(s) else None
    case _ => None
  }

  /** The text to render: the request's story when it is a non-empty string,
      else the stored draft whenever one is stored (even an empty one), else
      the fallback composed from the record. */
  function SelectContent(payload: ExportPayload, storyDraft: Option<string>, fallback: string): (content: string)
    ensures StoryOverride(payload).Some? ==> content == payload.story.text
    ensures StoryOverride(payload).None? && storyDraft.Some? ==> content == storyDraft.value
    ensures StoryOverride(payload).None? && storyDraft.None? ==> content == fallback
  {
    StoryOverride(payload).GetOr(storyDraft.GetOr(fallback))
  }
}
