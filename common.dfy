/** Failure-carrying results and the error kinds the modelled Python code raises. */
module Common {

  datatype Option<+T> = None | Some(value: T) {
    function GetOr(default: T): T
    {
      if Some? then value else default
    }
  }

  /** The exceptions the source raises (or lets propagate), by cause. */
  datatype Error =
    | LlmStatus(status: int, body: string)        // llm_complete: non-200 reply
    | Transport(reason: string)                   // an HTTP request raised (connection, timeout)
    | NoChoices                                   // `choices` present but empty (IndexError)
    | ServiceFailure(reason: string)              // an exception from the chat-completion client
    | EmbeddingFailure(status: int, body: string) // embed_text_ollama gave up
    | StoreFailure(reason: string)                // ChromaDB connection or query failed
    | PdfFailure(reason: string)                  // PyMuPDF could not open the bytes
    | ZeroStep                                    // range() with a zero step (ValueError)
    | UnpackFailure(parts: nat)                   // tuple unpacking of the wrong length (ValueError)
    | UnknownRoute(name: string)                  // a conditional edge returned an unmapped label
    | MissingKey(key: string)                     // a JSON reply without the expected member (KeyError)

  datatype Result<+T> = Ok(value: T) | Err(error: Error)

  /** How a step that returns nothing ends: normally, or by raising. */
  datatype Outcome = Pass | Fail(error: Error)
}
