# YouTube summarizer: a verified model of its core

The system is a one-page Streamlit app (`main.py`). The user pastes a YouTube
link and presses **Get Detailed Notes**. The app takes the video id out of the
link, fetches the caption segments, joins their texts into one transcript, and
asks the Gemini model for a summary. Two more buttons follow: **Fact Check**
sends the summary back to the model with a fact-check prompt, and **Ask** sends
the transcript and a free-form question and records the question with its
answer.

This project models the parts of that script that are its own logic:

- `video_id.dfy` (module `VideoId`): `extract_video_id`. It has the three
  anchored, case-sensitive patterns, the greedy id group, and the
  first-match-wins loop. It is proved equal to the regular language the
  patterns describe.
- `transcript.dfy` (module `Transcript`): `extract_transcript_details`. It
  covers the `" ".join` of the segment texts and the two ways it returns None.
- `content.dfy` (module `Content`): `generate_gemini_content` and the
  `query_prompt.format(...)` request of `generate_query_response`, with the
  three prompt texts.
- `session.dfy` (module `Session`): the session store as a class. It has one
  method per button and scenario methods that run several buttons in a row.
- `wrappers.dfy` (module `Wrappers`): the `Option` type that stands for Python's
  `None`.

The transcript provider and the model are outside calls. Each one enters the
model as a function parameter that gives the call's outcome, with None for a
raised exception:

- `TranscriptProvider`: from a video id to `Option<seq<Segment>>`.
- `Model`: from a request text to `Option<string>`.

With them, "the request is exactly prompt + body" and "no provider call for an
invalid link" become statements about which argument the parameter is applied
to.

Three behaviours of the code are easy to miss, and the model keeps them:

- A failed summary still unlocks fact checking, because any non-empty
  transcript unlocks it (main.py:98-100). A later Fact Check then computes
  `prompt + None`, which raises inside the `try` and gives None without a
  request (`FailedSummary`).
- A later Get Detailed Notes whose summary fails leaves the old fact check in
  place (main.py:99 sets only the summary), so a fact check can sit next to a
  None summary (`StaleFactCheck`).
- A failed fetch overwrites the transcript with None (main.py:96) instead of
  keeping the earlier one.

## Model

| member | source | states |
|---|---|---|
| `VideoId.IdRunLength` | main.py:31-33 | the greedy group `([a-zA-Z0-9_-]+)`: the length returned covers only id characters and stops at the first non-id character, so the captured id is maximal |
| `VideoId.SchemeLength` | main.py:31-33 | the optional group `(?:https?://)?`, taken greedily: the prefix it takes is `""`, `http://` or `https://` and lies inside the link |
| `VideoId.StripScheme` | main.py:31-33 | what follows the optional scheme; `SplitScheme` and `StripSchemeExact` state that it is the link minus an allowed scheme, and exactly the text after `scheme` whenever that text cannot itself start a scheme |
| `VideoId.WwwLength` | main.py:31-33 | the optional group `(?:www\.)?`, taken greedily: the prefix it takes is `""` or `www.` and lies inside the text |
| `VideoId.StripWww` | main.py:31-33 | what follows the optional `www.`; `SplitWww` and `StripWwwExact` state the same as for the scheme |
| `VideoId.MatchPath` | main.py:31-33 | after the optional groups, the literal path must come first and be followed by at least one id character; anything captured is a non-empty run of id characters |
| `VideoId.MatchPattern` | main.py:31-36 | one `re.match` of one pattern: anything it captures is a non-empty run of id characters |
| `VideoId.MatchPatternSound` | main.py:31-36 | whatever one pattern captures lies in that pattern's regular language: optional `http://`/`https://`, optional `www.`, the literal path, the id, then a character that does not continue the id, or nothing |
| `VideoId.MatchPatternComplete` | main.py:31-36 | every link in a pattern's regular language is captured, with that very id; the optional groups never need backtracking |
| `VideoId.MatchPatternCorrect` | main.py:31-36 | both directions together: a pattern captures `id` from a link exactly when the link is in that pattern's language with that id |
| `VideoId.PathsExclusive` | main.py:31-33 | no text starts with two of the three literal paths |
| `VideoId.PatternsExclusive` | main.py:30-34 | no link matches two of the three patterns |
| `VideoId.FirstMatch` | main.py:35-39 | the `for` loop over the patterns as a value: the first capture in list order; its contract is stated by `FirstMatchSpec` |
| `VideoId.VideoIdOf` | main.py:28-40 | the value of `extract_video_id`: `FirstMatch` over the source's pattern order; characterised by `VideoIdOfCorrect` and `VideoIdOfNone` |
| `VideoId.FirstMatchSpec` | main.py:35-39 | trying patterns in a given order gives None exactly when none of them matches, and otherwise the capture of one of them |
| `VideoId.FirstMatchSound` | main.py:35-39 | whatever the loop returns lies in the regular language of one of the patterns tried |
| `VideoId.VideoIdOfAnyPattern` | main.py:35-39 | whichever pattern matches a link, its capture is what `extract_video_id` returns, so stopping at the first match loses nothing |
| `VideoId.ExtractVideoId` | main.py:28-40 | the source's loop, with its early `break`, returns exactly `VideoIdOf(url)` |
| `VideoId.VideoIdOfCorrect` | main.py:28-40 | `extract_video_id` returns `id` if and only if one of the three patterns, read as a regular language anchored at the start, matches the link with that id; trailing text after the id is allowed |
| `VideoId.VideoIdOfSound` | main.py:28-40 | an id that `extract_video_id` returns comes from a link in one of the three patterns' languages |
| `VideoId.VideoIdOfComplete` | main.py:28-40 | a link in any of the three patterns' languages yields exactly that id |
| `VideoId.VideoIdOfDecomposed` | main.py:28-40 | a link built as scheme, `www.`, one of the paths, an id and a rest that does not continue the id yields that id |
| `VideoId.NoPathNoId` | main.py:28-40 | a link whose text after its scheme and `www.` starts with none of the three paths yields None, whatever site it names (`vimeo.com/…`, `yahoo.com/embed/…`, `hooktube.com/…`); the two side conditions say that the greedy groups take exactly that scheme and `www.`. The general "None exactly when no pattern matches" is `VideoIdOfNone` |
| `VideoId.StripsToHost` | main.py:31-33 | when the text after an empty group cannot itself start that group, the greedy groups take exactly the given scheme and `www.` |
| `VideoId.FirstMatchNone` | main.py:35-39 | when no path begins the stripped link, the loop runs to the end and returns None |
| `VideoId.IdShorterThanLink` | main.py:28-40 | a returned id is strictly shorter than the link, so only a non-empty link can yield an id |
| `VideoId.IdShorterThanMatch` | main.py:31-33 | in every pattern's language the id is a proper part of the link |
| `VideoId.VideoIdOfNone` | main.py:28-40 | `extract_video_id` returns None exactly when no pattern matches the link under any id |
| `VideoId.OrderIrrelevant` | main.py:35-39 | any order of the three patterns gives the same result as the source's order |
| `Transcript.Join` | main.py:48 | `" ".join(...)`: the texts with one space between neighbours; its contract is stated by `JoinSplit`, `SplitJoin` and `JoinLength` |
| `Transcript.Texts` | main.py:48 | the list comprehension keeps the segments' texts, one for one and in order |
| `Transcript.JoinSplit` | main.py:48 | splitting a text at single spaces and joining the pieces with single spaces gives the text back |
| `Transcript.SplitJoin` | main.py:48 | for a non-empty list of texts none of which contains a space, the joined transcript gives back the texts, in order (the empty list joins to `""`, which splits to `[""]`) |
| `Transcript.JoinLength` | main.py:48 | the join adds exactly one space between neighbouring texts and nothing else |
| `Transcript.FetchTranscript` | main.py:42-52 | the fetch succeeds exactly when the link yields a video id and the provider answers for that id; then the result is the join of the segment texts; an invalid link gives None |
| `Transcript.FetchAsksOnlyForExtractedId` | main.py:44-47 | the fetch depends on the provider only through its answer for the extracted id; for an invalid link it does not depend on the provider at all |
| `Content.GenerateContent` | main.py:54-61 | the model is asked for exactly `prompt + body`, with no separator; a None body raises before any request and gives None |
| `Content.Format` | main.py:23-26 | `str.format` on the query template: the request holds the fixed text, then the transcript verbatim, the fixed middle, the question verbatim, and the fixed end |
| `Content.FormatInjective` | main.py:65 | for one transcript, different questions give different requests |
| `Content.AnswerQuery` | main.py:63-71 | `generate_query_response`: the model's outcome for the `Format`ted query request, None when the call raises; no contract of its own beyond `Format`'s, and `SessionState.Ask` states what it records |
| `Content.RequestsNameTheirTask` | main.py:15-26 | the summary, fact-check and query requests differ within their first ten characters, so whatever body follows, the model never gets the same request for two different tasks |
| `Session.SessionState.constructor` | main.py:76-85 | a new session has no transcript, summary or fact check, fact checking locked, and no queries |
| `Session.SessionState.GetDetailedNotes` | main.py:94-100 | with a non-empty link, the transcript is overwritten by the fetch result, None included. A non-empty transcript sets the summary to the model's answer, which may be None, and unlocks fact checking. Fact check and queries are never touched, and an empty link changes nothing. It keeps the session invariant. |
| `Session.SessionState.FactCheck` | main.py:108-110 | only while unlocked, the fact check is replaced by the model's answer for the fact-check prompt plus the current summary; nothing else changes; fact checking is never locked again |
| `Session.SessionState.Ask` | main.py:117-127 | with a non-empty transcript and a non-empty question, exactly one `(question, answer-or-None)` pair is appended and earlier pairs are kept; otherwise queries are unchanged; the list never shrinks |
| `Session.ShortLinkId` | main.py:33 | `https://youtu.be/abc123` yields the id `abc123` |
| `Session.OtherSiteHasNoId` | main.py:30-40 | `https://vimeo.com/abc123` yields no id |
| `Session.LookalikeHasNoId` | main.py:30-40 | `www.yahoo.com/embed/abc` yields no id, although its path looks like YouTube's |
| `Session.JoinTwoSegments` | main.py:48 | the segments `Hello` and `world` join to `Hello world` |
| `Session.EndToEnd` | main.py:94-127 | for a link with the id `abc123` (such as the one of `ShortLinkId`) and segments `Hello`, `world`: the transcript is `Hello world`, the summary is the model's text and fact checking is unlocked; two questions, the first one failing, are both recorded in order |
| `Session.InvalidLink` | main.py:94-100 | a non-empty link that no pattern accepts (such as the one of `OtherSiteHasNoId`) leaves the transcript None and fact checking locked, whatever the provider would answer |
| `Session.FailedSummary` | main.py:94-110 | a fetched transcript with a failed summary still unlocks fact checking, and the fact check then gives None |
| `Session.StaleFactCheck` | main.py:94-110 | a fact check survives a later Get Detailed Notes whose summary fails, leaving a fact check beside a None summary |

The session invariant `SessionState.Valid` says two things:

- A summary, a fact check, a non-empty transcript or any query implies that
  fact checking is unlocked.
- Every recorded question is non-empty.

Every button method requires it and ensures it again.

## Left out

- Streamlit rendering: the title, text inputs, buttons, headings, `st.write`,
  `st.error` and `st.warning`, with their message strings. The text in the
  link and query boxes is passed to the button methods as a parameter, and a
  rerun caused by a button press is one method call.
- The thumbnail at main.py:89-92. It only displays the best-effort id from
  `extract_video_id` and changes no state.
- `load_dotenv`, `os.getenv` and `genai.configure` (main.py:9-12). These are
  environment and API-key plumbing.
- The YouTube transcript client and the Gemini client (with its model name
  `gemini-pro`). They are foreign network code. Their outcomes are function
  parameters, so within one button press the same request gets the same
  answer.
- `Transcript.FetchTranscript`: does not model a segment without a `text`
  entry. In the source the `KeyError` is caught and gives None; here a
  `Segment` always has a text.
- What the model answers for a prompt, including the prompts' instructions
  (the 250-word limit, avoiding the word "transcript"). This is model
  behaviour, not local logic. The prompt texts are kept with `\n` line breaks,
  as Python reads the triple-quoted strings.
- Concurrency and multiple sessions. Each session is one `SessionState`
  object, and actions on it run one at a time.
