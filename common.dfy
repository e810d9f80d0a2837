/** Option and Result types shared by the model, and the error kinds the pipeline can end with. */
module Common {

  datatype Option<+T> = None | Some(value: T)

  /** The kinds of failure that end a run of the sync script (it throws on the first one). */
  datatype Error =
    | NetworkError          // a page or file fetch that did not answer with a success status
    | NotFoundError         // no calendar link on the institution's page
    | ParseError            // malformed JSON: the schema file, the model's reply or the cached calendar
    | ExternalApiError      // the generative-model key is missing, or the model call was rejected
    | FileMissing(name: string)  // a local file read failed because the file does not exist

  datatype Result<+T> = Ok(value: T) | Err(error: Error)
}
