/** The deterministic parts of the generation service
    (backend/app/services/llm.py): the prompt sent to the model and the
    clean-up of the model's reply before it is parsed as JSON. */
module Llm {
  import opened Common

  // ---------------------------------------------------------------- prompt

  /** What an empty optional field is replaced by (Python's `value or "None provided."`). */
  const NoneProvided := "None provided."

  const PromptIntro :=
    "You are given a candidate's CV and a job listing. Perform a complete application tailoring in one pass.\n\n"

  /** The fixed list of the four keys the model must return (before the part that names the format). */
  const KeysInstructions :=
    "Produce a JSON object with exactly these four keys:\n" +
    "\n" +
    "1. \"fit_analysis\": A structured analysis string covering:\n" +
    "   - Strong matches (skills, experience, accomplishments that align well)\n" +
    "   - Gaps or weaknesses relative to this role\n" +
    "   - Key themes to emphasize in the application\n" +
    "\n" +
    "2. \"cover_letter\": A professional cover letter in markdown. Requirements:\n" +
    "   - 3-4 paragraphs, concise and impactful\n" +
    "   - Opening: why this role, why this company (infer from the listing)\n" +
    "   - Middle: 2-3 specific achievements/skills that directly address the role\n" +
    "   - Closing: call to action\n" +
    "   - Tone: confident but not arrogant, professional\n" +
    "   - Do NOT use generic filler phrases like \"I am writing to express my interest...\"\n" +
    "   - Raw markdown, no code block wrapper\n" +
    "\n" +
    "3. \"cv_suggestions\": A JSON array where each item has:\n" +
    "   - \"section\": the CV section to modify (e.g., \"Summary\", \"Experience - Company X\", \"Skills\")\n" +
    "   - \"suggestion\": specific, actionable improvement instruction\n" +
    "   Example: [{\"section\": \"Summary\", \"suggestion\": \"Rewrite to emphasize distributed systems experience.\"}]\n" +
    "\n"

  function OrNone(value: string): (r: string)
    ensures r != ""
    ensures value != "" ==> r == value
    ensures value == "" ==> r == "None provided."
  {
    if value == "" then NoneProvided else value
  }

  function CvHeading(cvFormat: string): string {
    "## Candidate CV (" + cvFormat + ")"
  }

  const ProfileHeading := "\n\n## Additional Profile Context\n"
  const JobHeading := "\n\n## Job Listing\n"
  const ExtraHeading := "\n\n## Extra Instructions\n"

  const RevisedCvIntro := "4. \"revised_cv\": The full rewritten CV "

  function RevisedCvFormatLine(cvFormat: string): string {
    "in " + cvFormat + " format"
  }

  const RevisedCvRules :=
    ", applying the suggestions.\n" +
    "   - Preserve the original format exactly (same structure, same LaTeX commands if applicable)\n" +
    "   - Only modify content that is directly improved by the suggestions\n" +
    "   - Do NOT invent new experiences, companies, or degrees\n" +
    "   - "

  function RawFormatLine(cvFormat: string): string {
    "Raw " + cvFormat + " content only"
  }

  const PromptClosing :=
    ", no code block wrapper\n" +
    "\n" +
    "Return ONLY the JSON object, no markdown wrapper, no extra text."

  /** The pieces of the f-string in `analyze_and_generate`, in order. */
  function PromptParts(cvText: string, cvFormat: string, jobListing: string,
                       profileContext: string, extraContext: string): seq<string>
  {
    [PromptIntro, CvHeading(cvFormat), "\n", cvText,
     ProfileHeading, OrNone(profileContext),
     JobHeading, jobListing,
     ExtraHeading, OrNone(extraContext),
     "\n\n", KeysInstructions,
     RevisedCvIntro, RevisedCvFormatLine(cvFormat), RevisedCvRules,
     RawFormatLine(cvFormat), PromptClosing]
  }

  /** The prompt `analyze_and_generate` sends, before any key or model
      setting: the fixed introduction opens it and the fixed closing
      instruction ends it. */
  function BuildPrompt(cvText: string, cvFormat: string, jobListing: string,
                       profileContext: string, extraContext: string): (p: string)
    ensures StartsWith(p, PromptIntro) && EndsWith(p, PromptClosing)
  {
    var parts := PromptParts(cvText, cvFormat, jobListing, profileContext, extraContext);
    ConcatOpening(parts);
    ConcatPrefix(parts, 16);
    assert parts[..17] == parts;
    Concat(parts)
  }

  /** Each input reaches the prompt verbatim right under its own heading (an
      empty context as "None provided."), followed by the next heading. */
  lemma PromptPlacesInputs(cvText: string, cvFormat: string, jobListing: string,
                           profileContext: string, extraContext: string)
    ensures var p := BuildPrompt(cvText, cvFormat, jobListing, profileContext, extraContext);
      && Contains(p, CvHeading(cvFormat) + "\n" + cvText)
      && Contains(p, ProfileHeading + OrNone(profileContext) + JobHeading)
      && Contains(p, JobHeading + jobListing + ExtraHeading)
      && Contains(p, ExtraHeading + OrNone(extraContext) + "\n\n")
  {
    var parts := PromptParts(cvText, cvFormat, jobListing, profileContext, extraContext);
    ConcatRun(parts, 1);
    ConcatRun(parts, 4);
    ConcatRun(parts, 6);
    ConcatRun(parts, 8);
  }

  /** The profile context reaches the prompt verbatim under its heading, or
      as "None provided." when empty: two prompts that differ only in it are
      equal exactly when the inserted texts are. */
  lemma PromptProfileSlot(cvText: string, cvFormat: string, jobListing: string,
                          p1: string, p2: string, extraContext: string)
    ensures BuildPrompt(cvText, cvFormat, jobListing, p1, extraContext) ==
            BuildPrompt(cvText, cvFormat, jobListing, p2, extraContext)
        <==> OrNone(p1) == OrNone(p2)
    ensures Contains(BuildPrompt(cvText, cvFormat, jobListing, p1, extraContext),
                     ProfileHeading + OrNone(p1) + JobHeading)
  {
    var q1 := PromptParts(cvText, cvFormat, jobListing, p1, extraContext);
    var q2 := PromptParts(cvText, cvFormat, jobListing, p2, extraContext);
    ConcatSlotAt(q1, q2, 5);
    ConcatRun(q1, 4);
  }

  /** Likewise for the extra instructions, which end their section. */
  lemma PromptExtraSlot(cvText: string, cvFormat: string, jobListing: string,
                        profileContext: string, x1: string, x2: string)
    ensures BuildPrompt(cvText, cvFormat, jobListing, profileContext, x1) ==
            BuildPrompt(cvText, cvFormat, jobListing, profileContext, x2)
        <==> OrNone(x1) == OrNone(x2)
    ensures Contains(BuildPrompt(cvText, cvFormat, jobListing, profileContext, x1),
                     ExtraHeading + OrNone(x1) + "\n\n")
  {
    var q1 := PromptParts(cvText, cvFormat, jobListing, profileContext, x1);
    var q2 := PromptParts(cvText, cvFormat, jobListing, profileContext, x2);
    ConcatSlotAt(q1, q2, 9);
    ConcatRun(q1, 8);
  }

  /** The prompt opens with the fixed introduction, and the format name
      appears unchanged in the résumé heading right after it and in both
      revised-résumé instructions. */
  lemma PromptNamesFormat(cvText: string, cvFormat: string, jobListing: string,
                          profileContext: string, extraContext: string)
    ensures var p := BuildPrompt(cvText, cvFormat, jobListing, profileContext, extraContext);
      && StartsWith(p, PromptIntro)
      && OccursAt(p, CvHeading(cvFormat), |PromptIntro|)
      && Contains(p, RevisedCvFormatLine(cvFormat))
      && Contains(p, RawFormatLine(cvFormat))
  {
    var q := PromptParts(cvText, cvFormat, jobListing, profileContext, extraContext);
    ConcatOpening(q);
    ConcatContains(q, 13);
    ConcatContains(q, 15);
  }

  // ---------------------------------------------------------------- reply

  /** The Markdown code-fence marker the model sometimes wraps its answer in. */
  const Fence := "```"

  /** `raw.split("\n", 1)[1]` on a fenced reply with no newline raises IndexError. */
  datatype CleanError = IndexError

  /** Lines 80-82 of `analyze_and_generate`: strip the reply; if it opens with
      a fence, drop the first line and everything from the last fence on. */
  function CleanReply(text: string): (r: Result<string, CleanError>)
    ensures !StartsWith(Strip(text), Fence) ==> r == Success(Strip(text))
    ensures StartsWith(Strip(text), Fence) ==> (r.Failure? <==> '\n' !in Strip(text))
    ensures r.Success? ==> |r.value| <= |Strip(text)| <= |text|
  {
    var raw := Strip(text);
    if !StartsWith(raw, Fence) then Success(raw)
    else match AfterFirst(raw, '\n')
      case None => Failure(IndexError)
      case Some(body) => Success(BeforeLast(body, Fence))
  }

  /** A fenced reply whose first newline is at `i`: the result is a prefix of
      the text after that newline; it is all of that text exactly when no
      fence follows the first line, and otherwise it stops right before the
      last fence. */
  lemma FencedReply(text: string, i: nat)
    requires StartsWith(Strip(text), Fence)
    requires i < |Strip(text)| && Strip(text)[i] == '\n'
    requires forall k :: 0 <= k < i ==> Strip(text)[k] != '\n'
    ensures CleanReply(text).Success?
    ensures var body, r := Strip(text)[i + 1..], CleanReply(text).value;
      && StartsWith(body, r)
      && (r == body <==> forall k :: !OccursAt(body, Fence, k))
      && (r != body ==> OccursAt(body, Fence, |r|) && forall k :: |r| < k ==> !OccursAt(body, Fence, k))
  {
    var raw := Strip(text);
    assert IndexOf(raw, '\n') == Some(i);
  }

  /** Whatever survives the clean-up is a contiguous piece of the original reply. */
  lemma CleanReplyIsInfix(text: string)
    requires CleanReply(text).Success?
    ensures Contains(text, CleanReply(text).value)
  {
    var raw, lo, r := Strip(text), LeadingSpaces(text), CleanReply(text).value;
    if StartsWith(raw, Fence) {
      var i := IndexOf(raw, '\n').value;
      FencedReply(text, i);
      OccursInside(text, raw, lo, i + 1, r);
    } else {
      OccursInside(text, raw, lo, 0, r);
    }
  }

  /** An answer wrapped in a fenced block (with any info string) comes back
      with just the trailing newline of its last line, whatever the answer
      itself contains. */
  lemma FencedAnswerRoundTrip(info: string, answer: string)
    requires NewlineFree(info)
    ensures CleanReply(Fence + info + "\n" + answer + "\n" + Fence) == Success(answer + "\n")
  {
    var head, body := Fence + info, answer + "\n" + Fence;
    var s := head + "\n" + body;
    assert s == Fence + info + "\n" + answer + "\n" + Fence;
    assert s[0] == '`' && s[|s| - 1] == '`';
    StripUnchanged(s);
    assert StartsWith(s, Fence) by { assert s[..3] == Fence; }
    IndexOfFirst(s, '\n', |head|);
    assert s[|head| + 1..] == body;
    assert body[|body| - 3..] == Fence;
    assert body[..|body| - 3] == answer + "\n";
  }
}
