/**
 * Requests to the generative model: `generate_gemini_content` (main.py:54-61)
 * and `generate_query_response` (main.py:63-71), with the three fixed prompts
 * of main.py:15-26.
 */
module Content {
  import opened Wrappers

  /**
   * `GenerativeModel("gemini-pro").generate_content(prompt).text`: the text
   * the model answers for a prompt, or None when the call raises.
   */
  type Model = string -> Option<string>

  /** `summary_prompt` (main.py:15-17). */
  const SummaryPrompt: string :=
    "You are a "
    + "YouTube video summarizer. You will be taking the transcript text\n"
    + "and summarizing the entire video and providing the important summary in points\n"
    + "within 250 words. Please provide the summary of the text given here: "

  /** `fact_check_prompt` (main.py:19-21); the second line ends in a space. */
  const FactCheckPrompt: string :=
    "You are to "
    + "fact-check the information I have given here. Check if it is valid and\n"
    + " give the appropriate response. Also, if fact-checking is not possible for the given text, \n"
    + " give the proper reason for the same: "

  /**
   * A format string with a `{transcript}` and a `{question}` placeholder, cut
   * at the placeholders into the text before, between and after them.
   */
  datatype Template = Template(head: string, middle: string, tail: string)

  /** `query_prompt` (main.py:23-26). */
  const QueryTemplate: Template := Template(
    "You are an "
    + "assistant who answers questions based on the provided transcript of a YouTube video. Here is the transcript:\n",
    "\nNow, please answer the following question: ",
    ". If the question is not answerable from the transcript then answer off the internet.\n"
    + "Don't use the word transcript instead use video. Act like a chatbot in that scenario:")

  /**
   * The value of `generate_gemini_content(prompt, body)`. The body is
   * optional because the source passes the session's summary, which may be
   * None; then `prompt + body` raises inside the `try` and the result is None
   * without any request being made.
   */
  function GenerateContent(prompt: string, body: Option<string>, model: Model): (r: Option<string>)
    ensures body.None? ==> r.None?
    ensures body.Some? ==> r == model(prompt + body.value)
  {
    match body
    case None => None
    case Some(text) => model(prompt + text)
  }

  /**
   * `template.format(transcript=transcript, question=question)`: both values
   * are inserted verbatim, so each can be read back at its place.
   */
  function Format(template: Template, transcript: string, question: string): (p: string)
    ensures |p| == |template.head| + |transcript| + |template.middle| + |question| + |template.tail|
    ensures p[..|template.head|] == template.head
    ensures p[|template.head|..|template.head| + |transcript|] == transcript
    ensures p[|template.head| + |transcript|..|template.head| + |transcript| + |template.middle|] == template.middle
    ensures p[|template.head| + |transcript| + |template.middle|..|p| - |template.tail|] == question
    ensures p[|p| - |template.tail|..] == template.tail
  {
    template.head + transcript + template.middle + question + template.tail
  }

  /** For one template and transcript, different questions give different requests. */
  lemma FormatInjective(template: Template, transcript: string, q1: string, q2: string)
    requires Format(template, transcript, q1) == Format(template, transcript, q2)
    ensures q1 == q2
  {
    var p := Format(template, transcript, q1);
    assert q1 == p[|template.head| + |transcript| + |template.middle|..|p| - |template.tail|];
  }

  /** The value of `generate_query_response(transcript, question)`. */
  function AnswerQuery(transcript: string, question: string, model: Model): Option<string> {
    model(Format(QueryTemplate, transcript, question))
  }

  /**
   * The three fixed prompts part within their first ten characters, so the
   * model never receives the same request for two different tasks, whatever
   * summary, transcript or question follows.
   */
  lemma RequestsNameTheirTask(summaryBody: string, checkBody: string, transcript: string, question: string)
    ensures SummaryPrompt + summaryBody != FactCheckPrompt + checkBody
    ensures SummaryPrompt + summaryBody != Format(QueryTemplate, transcript, question)
    ensures FactCheckPrompt + checkBody != Format(QueryTemplate, transcript, question)
  {
    var summary := SummaryPrompt + summaryBody;
    var check := FactCheckPrompt + checkBody;
    var query := Format(QueryTemplate, transcript, question);
    assert summary[8] == 'a' && summary[9] == ' ';
    assert check[8] == 't';
    assert query[8] == 'a' && query[9] == 'n';
  }
}
