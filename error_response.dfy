/** The result shape every tool returns, and `createErrorResponse`, the one way
    a tool reports a failure. Logging is left out. */
module ErrorResponse {
  import opened Wrappers
  import opened Errors

  /** A content item; its `type` is always "text". */
  datatype ContentItem = TextItem(text: string)

  /** `isError` is `None` when the member is absent. */
  datatype ToolResponse = ToolResponse(content: seq<ContentItem>, isError: Option<bool>)

  /** A success envelope: one text item and no `isError` member. */
  function Success(text: string): (r: ToolResponse)
    ensures |r.content| == 1 && r.content[0].text == text && r.isError.None?
  {
    ToolResponse([TextItem(text)], None)
  }

  /** `message || (error instanceof Error ? error.message : String(error))`. */
  function ChosenMessage(error: Thrown, message: Option<string>): (m: string)
    ensures message.Some? && message.value != "" ==> m == message.value
    ensures (message.None? || message.value == "") ==> m == Describe(error)
  {
    if message.Some? && message.value != "" then message.value else Describe(error)
  }

  /** `createErrorResponse(error, message)`. */
  function CreateErrorResponse(error: Thrown, message: Option<string>): (r: ToolResponse)
    ensures |r.content| == 1
    ensures r.isError == Some(true)
    ensures r.content[0].text == "Error: " + ChosenMessage(error, message)
  {
    ToolResponse([TextItem("Error: " + ChosenMessage(error, message))], Some(true))
  }

  /** An error envelope and a success envelope are never the same. */
  lemma ErrorIsNotSuccess(error: Thrown, message: Option<string>, text: string)
    ensures CreateErrorResponse(error, message) != Success(text)
  {
  }

  /** The tools pass a message that ends with the error's own description, so
      that description is what the envelope ends with, whatever was thrown. */
  lemma {:induction false} ToolErrorText(error: Thrown, context: string)
    ensures CreateErrorResponse(error, Some(context + ": " + Describe(error))).content[0].text
      == "Error: " + context + ": " + Describe(error)
  {
    var m := context + ": " + Describe(error);
    assert |m| >= 2 && m != "";
    assert "Error: " + m == "Error: " + context + ": " + Describe(error);
  }
}
