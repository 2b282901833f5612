/** The analysis and download endpoints (backend/app/routers/analyze.py):
    request validation, the choice of job-listing source, the artifact file
    names, and the in-memory cache that `download` serves from. */
module AnalyzeRouter {
  import opened Common
  import opened Schemas
  import opened CvParser

  datatype HttpError = HttpError(status: int, detail: string)

  const ApiKeyRequired := HttpError(422, "Gemini API key is required")
  const JobSourceRequired := HttpError(422, "job_listing or job_url is required")
  const NotFound := HttpError(404, "File not found or expired")

  const FetchFailedPrefix := "Could not fetch job URL: "

  /** A failed fetch is a 422 whose detail is the fixed prefix followed by
      the fetcher's error text, which can be read back from it. */
  function FetchFailed(reason: string): (e: HttpError)
    ensures e.status == 422
    ensures StartsWith(e.detail, FetchFailedPrefix) && e.detail[|FetchFailedPrefix|..] == reason
  {
    HttpError(422, FetchFailedPrefix + reason)
  }

  /** Every cached artifact is served as plain text. */
  const MediaType := "text/plain"

  /** Name assumed for an upload that arrives without one. */
  const DefaultCvName := "cv.md"

  datatype Upload = Upload(content: Bytes, filename: Option<string>)

  /** The multipart form of POST /api/analyze; absent optional fields are "". */
  datatype AnalyzeForm = AnalyzeForm(
    cvFile: Upload,
    profileContext: string,
    jobListing: string,
    jobUrl: string,
    extraContext: string,
    geminiApiKey: string)

  /** What the endpoint calls but does not define: UTF-8 decoding with
      replacement, the job-page fetcher (Failure carries the exception text)
      and the four generation steps, each taking the API key last. */
  datatype Services = Services(
    decode: Bytes -> string,
    fetchJobListing: string -> Result<string, string>,
    analyzeFit: (string, string, string, string, string) -> string,
    generateCoverLetter: (string, string, string, string, string) -> string,
    generateCvSuggestions: (string, string, string, string) -> seq<CvSuggestion>,
    generateRevisedCv: (string, string, string, seq<CvSuggestion>, string) -> string)

  /** The body and headers `download` answers with. */
  datatype FileResponse = FileResponse(content: string, mediaType: string, contentDisposition: string)

  /** `cv_file.filename or "cv.md"`: a missing or empty name falls back. */
  function UploadName(u: Upload): (name: string)
    ensures name != ""
    ensures u.filename.Some? && u.filename.value != "" ==> name == u.filename.value
    ensures u.filename.None? || u.filename.value == "" ==> name == DefaultCvName && DetectCvFormat(name) == Markdown
  {
    assert DefaultCvName[1..] != LatexSuffix by { assert DefaultCvName[1] != LatexSuffix[0]; }
    match u.filename
    case None => DefaultCvName
    case Some(n) => if n == "" then DefaultCvName else n
  }

  /** The first check: a key that is empty after stripping is refused; the
      stripped key is what every later step receives. */
  function ValidateApiKey(apiKey: string): (r: Result<string, HttpError>)
    ensures r.Failure? <==> forall i :: 0 <= i < |apiKey| ==> IsSpace(apiKey[i])
    ensures r.Failure? ==> r.error == ApiKeyRequired
    ensures r.Success? ==> r.value == Strip(apiKey) && r.value != ""
  {
    var key := Strip(apiKey);
    if key == "" then Failure(ApiKeyRequired) else Success(key)
  }

  /** The job text: pasted text wins; otherwise the URL is fetched, and a
      fetch failure becomes a 422. */
  function ResolveJobListing(jobListing: string, jobUrl: string,
                             fetch: string -> Result<string, string>): (r: Result<string, HttpError>)
    ensures jobListing != "" ==> r == Success(jobListing)
    ensures jobListing == "" && jobUrl == "" ==> r == Failure(JobSourceRequired)
    ensures jobListing == "" && jobUrl != "" ==>
      r == (match fetch(jobUrl)
            case Success(text) => Success(text)
            case Failure(e) => Failure(FetchFailed(e)))
    ensures r.Failure? ==> r.error.status == 422
  {
    if jobListing == "" && jobUrl == "" then Failure(JobSourceRequired)
    else if jobListing == "" then
      match fetch(jobUrl)
      case Success(text) => Success(text)
      case Failure(e) => Failure(FetchFailed(e))
    else Success(jobListing)
  }

  // ------------------------------------------------------------ file names

  /** The revised résumé keeps the extension of its format: with the dot it
      is exactly the suffix by which uploads are recognised as LaTeX. */
  function CvExtension(f: CvFormat): (ext: string)
    ensures "." + ext == LatexSuffix <==> f == Latex
    ensures f == Markdown ==> ext == "md"
  {
    if f == Latex then "tex" else "md"
  }

  const CoverLetterPrefix := "cover_letter_"
  const RevisedCvPrefix := "cv_revised_"

  /** `cover_letter_{ts}.md`: the timestamp can be read back from the name. */
  function CoverLetterFilename(ts: string): (name: string)
    ensures StartsWith(name, CoverLetterPrefix) && EndsWith(name, ".md")
    ensures |name| == |CoverLetterPrefix| + |ts| + 3 && name[|CoverLetterPrefix|..|name| - 3] == ts
  {
    CoverLetterPrefix + ts + ".md"
  }

  /** `cv_revised_{ts}.{ext}`: the name ends in the format's extension and
      the timestamp can be read back from it. */
  function RevisedCvFilename(ts: string, f: CvFormat): (name: string)
    ensures StartsWith(name, RevisedCvPrefix) && EndsWith(name, "." + CvExtension(f))
    ensures |name| == |RevisedCvPrefix| + |ts| + 1 + |CvExtension(f)|
    ensures name[|RevisedCvPrefix|..|name| - |CvExtension(f)| - 1] == ts
  {
    RevisedCvPrefix + ts + "." + CvExtension(f)
  }

  /** The two names written by one request never collide, so the second
      cache write cannot replace the first. */
  lemma FilenamesDistinct(ts: string, f: CvFormat)
    ensures CoverLetterFilename(ts) != RevisedCvFilename(ts, f)
  {
    assert CoverLetterFilename(ts)[1] == 'o';
    assert RevisedCvFilename(ts, f)[1] == 'v';
  }

  /** A cover-letter name determines its timestamp, and a revised-résumé name
      determines both its timestamp and its format. */
  lemma FilenamesInjective(ts1: string, ts2: string, f1: CvFormat, f2: CvFormat)
    ensures CoverLetterFilename(ts1) == CoverLetterFilename(ts2) <==> ts1 == ts2
    ensures RevisedCvFilename(ts1, f1) == RevisedCvFilename(ts2, f2) <==> ts1 == ts2 && f1 == f2
  {
    CancelAround("cover_letter_", ts1, ts2, ".md");
    var n1, n2 := RevisedCvFilename(ts1, f1), RevisedCvFilename(ts2, f2);
    if n1 == n2 {
      assert n1[|n1| - 1] == (if f1 == Latex then 'x' else 'd');
      assert n2[|n2| - 1] == (if f2 == Latex then 'x' else 'd');
    }
    var tail := "." + CvExtension(f1);
    AppendAssoc("cv_revised_" + ts1, ".", CvExtension(f1));
    AppendAssoc("cv_revised_" + ts2, ".", CvExtension(f1));
    CancelAround("cv_revised_", ts1, ts2, tail);
  }

  /** The revised résumé keeps the format of the upload: its name ends in
      ".tex" exactly for LaTeX, and uploading it again is detected as the
      same format. */
  lemma RevisedCvKeepsFormat(ts: string, f: CvFormat)
    ensures EndsWith(RevisedCvFilename(ts, f), ".tex") <==> f == Latex
    ensures EndsWith(CoverLetterFilename(ts), ".md")
    ensures DetectCvFormat(RevisedCvFilename(ts, f)) == f
  {
    var n := RevisedCvFilename(ts, f);
    if f == Markdown {
      assert n[|n| - 1] == 'd';
    } else {
      assert n[|n| - 4..] == ".tex";
    }
    var c := CoverLetterFilename(ts);
    assert c[|c| - 3..] == ".md";
  }

  // ------------------------------------------------------------ the endpoint

  /** The four generation steps, all given the same key, and the response
      naming both artifacts with the same timestamp. */
  function Generate(cvText: string, cvFormat: CvFormat, jobListing: string, profileContext: string,
                    extraContext: string, key: string, ts: string, svc: Services): (r: AnalyzeResponse)
    ensures r.coverLetter.filename == CoverLetterFilename(ts)
    ensures r.revisedCv.filename == RevisedCvFilename(ts, cvFormat)
    ensures r.revisedCv.format == cvFormat
    ensures var analysis := svc.analyzeFit(cvText, jobListing, profileContext, extraContext, key);
      && r.coverLetter.markdown == svc.generateCoverLetter(analysis, cvText, jobListing, extraContext, key)
      && r.cvSuggestions == svc.generateCvSuggestions(analysis, cvText, FormatName(cvFormat), key)
      && r.revisedCv.content ==
           svc.generateRevisedCv(analysis, cvText, FormatName(cvFormat), r.cvSuggestions, key)
  {
    var fmt := FormatName(cvFormat);
    var analysis := svc.analyzeFit(cvText, jobListing, profileContext, extraContext, key);
    var coverLetter := svc.generateCoverLetter(analysis, cvText, jobListing, extraContext, key);
    var suggestions := svc.generateCvSuggestions(analysis, cvText, fmt, key);
    var revised := svc.generateRevisedCv(analysis, cvText, fmt, suggestions, key);
    AnalyzeResponse(
      CoverLetterResult(coverLetter, CoverLetterFilename(ts)),
      suggestions,
      RevisedCvResult(revised, cvFormat, RevisedCvFilename(ts, cvFormat)))
  }

  /** What POST /api/analyze answers, cache aside. `ts` is the request time
      as `%Y%m%d_%H%M%S`. */
  function AnalyzeOutcome(form: AnalyzeForm, ts: string, svc: Services): (r: Result<AnalyzeResponse, HttpError>)
    ensures Strip(form.geminiApiKey) == "" ==> r == Failure(ApiKeyRequired)
    ensures Strip(form.geminiApiKey) != "" && form.jobListing == "" && form.jobUrl == "" ==>
      r == Failure(JobSourceRequired)
    ensures Strip(form.geminiApiKey) != "" && form.jobListing == "" && form.jobUrl != "" &&
            svc.fetchJobListing(form.jobUrl).Failure? ==>
      r == Failure(FetchFailed(svc.fetchJobListing(form.jobUrl).error))
    ensures Strip(form.geminiApiKey) != "" && form.jobListing != "" ==> r.Success?
    ensures r.Failure? ==> r.error.status == 422
    ensures r.Success? <==>
      && Strip(form.geminiApiKey) != ""
      && (form.jobListing != "" || (form.jobUrl != "" && svc.fetchJobListing(form.jobUrl).Success?))
    ensures r.Success? ==>
      r.value == Generate(svc.decode(form.cvFile.content), DetectCvFormat(UploadName(form.cvFile)),
                          if form.jobListing != "" then form.jobListing
                          else svc.fetchJobListing(form.jobUrl).value,
                          form.profileContext, form.extraContext, Strip(form.geminiApiKey), ts, svc)
  {
    match ValidateApiKey(form.geminiApiKey)
    case Failure(e) => Failure(e)
    case Success(key) =>
      var cv := ParseCv(form.cvFile.content, UploadName(form.cvFile), svc.decode);
      match ResolveJobListing(form.jobListing, form.jobUrl, svc.fetchJobListing)
      case Failure(e) => Failure(e)
      case Success(jobListing) =>
        Success(Generate(cv.0, cv.1, jobListing, form.profileContext, form.extraContext, key, ts, svc))
  }

  /** Only the stripped key matters: keys that strip to the same text give
      the same outcome. */
  lemma StrippedKeyOnly(form: AnalyzeForm, otherKey: string, ts: string, svc: Services)
    requires Strip(otherKey) == Strip(form.geminiApiKey)
    ensures AnalyzeOutcome(form.(geminiApiKey := otherKey), ts, svc) == AnalyzeOutcome(form, ts, svc)
  {
  }

  /** With pasted text the URL is never fetched: any fetcher gives the same outcome. */
  lemma PastedListingWins(form: AnalyzeForm, ts: string, svc: Services, fetch: string -> Result<string, string>)
    requires form.jobListing != ""
    ensures AnalyzeOutcome(form, ts, svc.(fetchJobListing := fetch)) == AnalyzeOutcome(form, ts, svc)
  {
  }

  // ------------------------------------------------------------ the cache

  /** The cache after a successful request has written its two artifacts. */
  function Stored(files: map<string, (string, string)>, resp: AnalyzeResponse): (c: map<string, (string, string)>)
    ensures c.Keys == files.Keys + {resp.coverLetter.filename, resp.revisedCv.filename}
    ensures c[resp.revisedCv.filename] == (resp.revisedCv.content, MediaType)
    ensures resp.coverLetter.filename != resp.revisedCv.filename ==>
      c[resp.coverLetter.filename] == (resp.coverLetter.markdown, MediaType)
    ensures forall n :: n in files && n != resp.coverLetter.filename && n != resp.revisedCv.filename ==>
      c[n] == files[n]
  {
    files[resp.coverLetter.filename := (resp.coverLetter.markdown, MediaType)]
         [resp.revisedCv.filename := (resp.revisedCv.content, MediaType)]
  }

  /** After a successful request the cache holds both artifacts under the
      names in the response, overwriting same-named entries, and every other
      entry is untouched. */
  lemma StoredEntries(files: map<string, (string, string)>, form: AnalyzeForm, ts: string, svc: Services)
    requires AnalyzeOutcome(form, ts, svc).Success?
    ensures var resp := AnalyzeOutcome(form, ts, svc).value;
      var c, cl, cv := Stored(files, resp), resp.coverLetter.filename, resp.revisedCv.filename;
      && cl != cv
      && c.Keys == files.Keys + {cl, cv}
      && c[cl] == (resp.coverLetter.markdown, MediaType)
      && c[cv] == (resp.revisedCv.content, MediaType)
      && forall n :: n in files && n != cl && n != cv ==> c[n] == files[n]
  {
    var resp := AnalyzeOutcome(form, ts, svc).value;
    FilenamesDistinct(ts, resp.revisedCv.format);
  }

  const AttachmentPrefix := "attachment; filename=\""

  /** The download header: an attachment whose quoted name is the file name. */
  function ContentDisposition(filename: string): (h: string)
    ensures StartsWith(h, AttachmentPrefix) && EndsWith(h, "\"")
    ensures |h| == |AttachmentPrefix| + |filename| + 1 && h[|AttachmentPrefix|..|h| - 1] == filename
  {
    AttachmentPrefix + filename + "\""
  }

  /** What GET /api/download/{filename} answers for a given cache. */
  function Served(files: map<string, (string, string)>, filename: string): (r: Result<FileResponse, HttpError>)
    ensures r.Failure? <==> filename !in files
    ensures r.Failure? ==> r.error == NotFound
    ensures r.Success? ==> r.value.content == files[filename].0 && r.value.mediaType == files[filename].1
  {
    if filename !in files then Failure(NotFound)
    else Success(FileResponse(files[filename].0, files[filename].1, ContentDisposition(filename)))
  }

  /** Both names returned by a successful request download the generated
      text as plain text, and every other name answers as before. */
  lemma DownloadAfterAnalyze(files: map<string, (string, string)>, form: AnalyzeForm, ts: string,
                             svc: Services, other: string)
    requires AnalyzeOutcome(form, ts, svc).Success?
    ensures var resp := AnalyzeOutcome(form, ts, svc).value;
      var c, cl, cv := Stored(files, resp), resp.coverLetter.filename, resp.revisedCv.filename;
      && Served(c, cl) == Success(FileResponse(resp.coverLetter.markdown, MediaType, ContentDisposition(cl)))
      && Served(c, cv) == Success(FileResponse(resp.revisedCv.content, MediaType, ContentDisposition(cv)))
      && (other != cl && other != cv ==> Served(c, other) == Served(files, other))
  {
    StoredEntries(files, form, ts, svc);
  }

  /** The module-level `_file_cache`: file name to (content, media type).
      Written by `analyze`, read by `download`, never evicted. */
  class FileCache {
    var files: map<string, (string, string)>

    constructor ()
      ensures files == map[]
    {
      files := map[];
    }

    /** POST /api/analyze: on success both artifacts are cached under the
        names returned; on failure the cache is as it was. */
    method Analyze(form: AnalyzeForm, ts: string, svc: Services) returns (r: Result<AnalyzeResponse, HttpError>)
      modifies this
      ensures r == AnalyzeOutcome(form, ts, svc)
      ensures r.Failure? ==> files == old(files)
      ensures r.Success? ==> files == Stored(old(files), r.value)
    {
      r := AnalyzeOutcome(form, ts, svc);
      if r.Success? {
        var resp := r.value;
        files := files[resp.coverLetter.filename := (resp.coverLetter.markdown, MediaType)];
        files := files[resp.revisedCv.filename := (resp.revisedCv.content, MediaType)];
      }
    }

    /** GET /api/download/{filename}: 404 for an unknown name, otherwise the
        stored content and media type as an attachment; reading changes nothing. */
    method Download(filename: string) returns (r: Result<FileResponse, HttpError>)
      ensures r == Served(files, filename)
      ensures filename !in files ==> r == Failure(NotFound)
      ensures filename in files ==>
        r == Success(FileResponse(files[filename].0, files[filename].1, ContentDisposition(filename)))
    {
      if filename !in files {
        return Failure(NotFound);
      }
      var (content, mediaType) := files[filename];
      r := Success(FileResponse(content, mediaType, ContentDisposition(filename)));
    }
  }
}
