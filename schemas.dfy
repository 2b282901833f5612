/** The response records of the analysis endpoint (backend/app/models/schemas.py).
    They carry no behaviour of their own. */
module Schemas {
  /** The two résumé formats: the `Literal["latex", "markdown"]` of the source. */
  datatype CvFormat = Latex | Markdown

  /** The tag under which a format travels in prompts, step calls and the JSON response. */
  function FormatName(f: CvFormat): (name: string)
    ensures name == "latex" || name == "markdown"
  {
    match f
    case Latex => "latex"
    case Markdown => "markdown"
  }

  datatype CvSuggestion = CvSuggestion(section: string, suggestion: string)

  datatype CoverLetterResult = CoverLetterResult(markdown: string, filename: string)

  datatype RevisedCvResult = RevisedCvResult(content: string, format: CvFormat, filename: string)

  datatype AnalyzeResponse = AnalyzeResponse(
    coverLetter: CoverLetterResult,
    cvSuggestions: seq<CvSuggestion>,
    revisedCv: RevisedCvResult)
}
