/** Résumé intake (backend/app/services/parser.py): the format is sniffed from
    the file name alone, the text from the bytes alone. */
module CvParser {
  import opened Common
  import opened Schemas

  const LatexSuffix := ".tex"

  /** `detect_cv_format`: a case-sensitive suffix test on the file name. */
  function DetectCvFormat(filename: string): (f: CvFormat)
    ensures f == Latex <==> EndsWith(filename, LatexSuffix)
    ensures FormatName(f) == (if EndsWith(filename, LatexSuffix) then "latex" else "markdown")
  {
    if EndsWith(filename, LatexSuffix) then Latex else Markdown
  }

  /** Only the exact lower-case suffix counts: an upper-case extension, a
      ".tex" that is not last, and a name without extension are Markdown. */
  lemma DetectCvFormatCaseSensitive()
    ensures DetectCvFormat("cv.tex") == Latex
    ensures DetectCvFormat("cv.TEX") == Markdown
    ensures DetectCvFormat("cv.tex.md") == Markdown
    ensures DetectCvFormat("cv") == Markdown
    ensures DetectCvFormat("") == Markdown
  {
    assert "cv.TEX"[2..] != LatexSuffix by { assert "cv.TEX"[3] != LatexSuffix[1]; }
    assert "cv.tex.md"[5..] != LatexSuffix by { assert "cv.tex.md"[5] != LatexSuffix[0]; }
  }

  /** `parse_cv`: the decoded text paired with the detected format. UTF-8
      decoding with `errors="replace"` is the total function `decode`. */
  function ParseCv(content: Bytes, filename: string, decode: Bytes -> string): (r: (string, CvFormat))
    ensures r.0 == decode(content)
    ensures r.1 == Latex <==> EndsWith(filename, LatexSuffix)
  {
    (decode(content), DetectCvFormat(filename))
  }

  /** The format does not depend on the content, and the text does not depend
      on the file name. */
  lemma ParseCvIndependence(c1: Bytes, c2: Bytes, n1: string, n2: string, decode: Bytes -> string)
    ensures ParseCv(c1, n1, decode).1 == ParseCv(c2, n1, decode).1 == DetectCvFormat(n1)
    ensures ParseCv(c1, n1, decode).0 == ParseCv(c1, n2, decode).0
  {
  }
}
