/** The answer of the detection endpoints `/upload` and `/webcam`, as the
    client receives it. The server classifies only the first face it finds. */
module Detection {
  import opened JsValues

  /** The parsed JSON body; every field may be missing. */
  datatype Response = Response(emotion: Option<string>, confidence: Option<real>, error: Option<string>)

  /** What the server found: the first detected face's label and score, or no face. */
  datatype Finding = FirstFace(name: string, score: real) | NoFace

  /** The text the client shows when the response names no emotion; it is also
      the server's error text. */
  const NoFaceText: string := "No face detected"

  /** The body the server sends: `{emotion, confidence}` for the first face,
      otherwise `{error: 'No face detected'}`. */
  function Serve(f: Finding): (r: Response)
    ensures f.FirstFace? ==> r.emotion == Some(f.name) && r.confidence == Some(f.score) && r.error.None?
    ensures f.NoFace? ==> r.emotion.None? && r.confidence.None? && r.error == Some(NoFaceText)
  {
    match f
    case FirstFace(name, score) => Response(Some(name), Some(score), None)
    case NoFace => Response(None, None, Some(NoFaceText))
  }
}
