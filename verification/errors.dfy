/** Option and Result datatypes, and the error responses of the puzzle service. */
module Errors {

  datatype Option<+T> = None | Some(value: T) {
    function GetOr(default: T): T {
      match this
      case Some(v) => v
      case None => default
    }
  }

  /** The 4xx/5xx answers the `/memories` and `/puzzles` handlers can give. */
  datatype Error =
    | TypeInvalid            // 400 "type must be text|image"
    | ImageDataNotUrl        // 400 "image data must be a URL"
    | MemoryNotFound         // 404 "memory not found"
    | ModeInvalid            // 400 "mode invalid"
    | TextBlanksNeedsText    // 400 "text_blanks requires text memory"
    | ImageScrambleNeedsImage // 400 "image_scramble requires image memory"
    | BoardGenerationFailed  // 500 "board generation failed"
    | InvalidBlankIdx        // 400 "invalid blankIdx"
    | InvalidIndices         // 400 "invalid indices"

  datatype Result<+T> = Ok(value: T) | Err(error: Error)
}
