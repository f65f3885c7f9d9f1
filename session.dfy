/**
 * The per-session store of main.py:75-85 and the three buttons that change it:
 * Get Detailed Notes (main.py:94-100), Fact Check (main.py:108-110) and Ask
 * (main.py:117-127). Each rerun of the script caused by a button press is one
 * method call; the outcome of every outside call comes in as a parameter.
 */
module Session {
  import opened Wrappers
  import VideoId
  import opened Transcript
  import opened Content

  /** One entry of `queries`: the question and the answer, None when generation failed. */
  datatype Query = Query(question: string, answer: Option<string>)

  /** Python truthiness of an optional string: None and "" are both false. */
  predicate Truthy(s: Option<string>) {
    s.Some? && s.value != ""
  }

  class SessionState {
    var transcriptText: Option<string>
    var summary: Option<string>
    var factCheck: Option<string>
    var factCheckEnabled: bool
    var queries: seq<Query>

    /**
     * What the handlers keep true: nothing but a successful fetch produces a
     * summary, a fact check, a usable transcript or a query, and every such
     * fetch also unlocks fact checking; every recorded question is non-empty.
     */
    ghost predicate Valid()
      reads this
    {
      && (Truthy(transcriptText) || summary.Some? || factCheck.Some? || |queries| > 0 ==> factCheckEnabled)
      && forall k :: 0 <= k < |queries| ==> queries[k].question != ""
    }

    /** The initialisation at main.py:76-85. */
    constructor ()
      ensures Valid()
      ensures transcriptText == None && summary == None && factCheck == None
      ensures !factCheckEnabled && queries == []
    {
      transcriptText := None;
      summary := None;
      factCheck := None;
      factCheckEnabled := false;
      queries := [];
    }

    /**
     * Get Detailed Notes with `link` in the link box. An empty link does
     * nothing. Otherwise the transcript is overwritten by the fetch result,
     * None on failure; a non-empty transcript is summarised (the summary may
     * come back None) and unlocks fact checking whatever the summary is.
     */
    method GetDetailedNotes(link: string, provider: TranscriptProvider, model: Model)
      requires Valid()
      modifies this
      ensures Valid()
      ensures link == "" ==> transcriptText == old(transcriptText)
      ensures link != "" ==> transcriptText == FetchTranscript(link, provider)
      ensures if link != "" && Truthy(transcriptText)
        then summary == GenerateContent(SummaryPrompt, transcriptText, model) && factCheckEnabled
        else summary == old(summary) && factCheckEnabled == old(factCheckEnabled)
      ensures factCheck == old(factCheck) && queries == old(queries)
    {
      if link != "" {
        transcriptText := FetchTranscript(link, provider);
        if Truthy(transcriptText) {
          summary := GenerateContent(SummaryPrompt, transcriptText, model);
          factCheckEnabled := true;
        }
      }
    }

    /**
     * Fact Check, whose button exists only once fact checking is unlocked.
     * It sends the current summary, so a summary of None gives None.
     */
    method FactCheck(model: Model)
      requires Valid()
      modifies this
      ensures Valid()
      ensures factCheck == if old(factCheckEnabled) then GenerateContent(FactCheckPrompt, old(summary), model) else old(factCheck)
      ensures transcriptText == old(transcriptText) && summary == old(summary)
      ensures factCheckEnabled == old(factCheckEnabled) && queries == old(queries)
    {
      if factCheckEnabled {
        factCheck := GenerateContent(FactCheckPrompt, summary, model);
      }
    }

    /**
     * Ask with `userQuery` in the query box; the button exists only while the
     * transcript is non-empty. A non-empty question is appended with its
     * answer, None on failure; an empty one only raises a warning.
     */
    method Ask(userQuery: string, model: Model)
      requires Valid()
      modifies this
      ensures Valid()
      ensures queries == if Truthy(old(transcriptText)) && userQuery != ""
        then old(queries) + [Query(userQuery, AnswerQuery(old(transcriptText).value, userQuery, model))]
        else old(queries)
      ensures transcriptText == old(transcriptText) && summary == old(summary)
      ensures factCheck == old(factCheck) && factCheckEnabled == old(factCheckEnabled)
    {
      if Truthy(transcriptText) {
        if userQuery != "" {
          var answer := AnswerQuery(transcriptText.value, userQuery, model);
          queries := queries + [Query(userQuery, answer)];
        }
      }
    }
  }

  /** The link of the end-to-end example carries the id `abc123`. */
  lemma ShortLinkId()
    ensures VideoId.VideoIdOf("https://youtu.be/abc123") == Some("abc123")
  {
    VideoId.VideoIdOfDecomposed("https://youtu.be/abc123", "https://", "", VideoId.ShortPath, "abc123", "");
  }

  /** A link to another site carries no id. */
  lemma OtherSiteHasNoId()
    ensures VideoId.VideoIdOf("https://vimeo.com/abc123").None?
  {
    var host := "vimeo.com/abc123";
    assert host[0] == 'v';
    VideoId.NoPathNoId("https://vimeo.com/abc123", "https://", "", host);
  }

  /** A link to another site carries no id even when its path looks like YouTube's. */
  lemma LookalikeHasNoId()
    ensures VideoId.VideoIdOf("www.yahoo.com/embed/abc").None?
  {
    var host := "yahoo.com/embed/abc";
    assert host[1] == 'a' && VideoId.WatchPath[1] == VideoId.EmbedPath[1] == VideoId.ShortPath[1] == 'o';
    VideoId.NoPathNoId("www.yahoo.com/embed/abc", "", "www.", host);
  }

  lemma JoinTwoSegments()
    ensures Join(Texts([Segment("Hello"), Segment("world")])) == "Hello world"
  {
    assert Texts([Segment("Hello"), Segment("world")]) == ["Hello", "world"];
  }

  lemma JoinOneSegment()
    ensures Join(Texts([Segment("Hello")])) == "Hello"
  {
    assert Texts([Segment("Hello")]) == ["Hello"];
  }

  /**
   * A link with the id `abc123`, two caption segments and a working model:
   * the transcript is the two texts joined, the summary is the model's answer
   * and fact checking is unlocked; two questions, the first failing, are both
   * recorded in order. `ShortLinkId` gives such a link.
   */
  method EndToEnd(link: string) returns (session: SessionState)
    requires VideoId.VideoIdOf(link) == Some("abc123")
    ensures session.transcriptText == Some("Hello world")
    ensures session.summary == Some("Short summary.")
    ensures session.factCheckEnabled && session.factCheck == None
    ensures session.queries == [Query("first?", None), Query("second?", Some("Short summary."))]
  {
    var provider := (id: string) => if id == "abc123" then Some([Segment("Hello"), Segment("world")]) else None;
    var model := (prompt: string) => Some("Short summary.");
    var failing := (prompt: string) => None;
    VideoId.IdShorterThanLink(link);
    JoinTwoSegments();
    assert FetchTranscript(link, provider) == Some("Hello world");
    session := new SessionState();
    session.GetDetailedNotes(link, provider, model);
    session.Ask("first?", failing);
    session.Ask("second?", model);
  }

  /**
   * A non-empty link that no pattern accepts: whatever the provider would
   * answer, the transcript becomes None and fact checking stays locked.
   * `OtherSiteHasNoId` gives such a link.
   */
  method InvalidLink(link: string, provider: TranscriptProvider, model: Model) returns (session: SessionState)
    requires link != "" && VideoId.VideoIdOf(link).None?
    ensures session.transcriptText == None && session.summary == None
    ensures !session.factCheckEnabled
  {
    session := new SessionState();
    session.GetDetailedNotes(link, provider, model);
  }

  /**
   * The transcript arrives but the summary request fails: fact checking is
   * unlocked all the same, and a fact check then sends nothing and gives None.
   */
  method FailedSummary(link: string) returns (session: SessionState)
    requires VideoId.VideoIdOf(link).Some?
    ensures session.transcriptText == Some("Hello") && session.summary == None
    ensures session.factCheckEnabled && session.factCheck == None
  {
    var provider := (id: string) => Some([Segment("Hello")]);
    var failing := (prompt: string) => None;
    var model := (prompt: string) => Some("checked");
    VideoId.IdShorterThanLink(link);
    JoinOneSegment();
    assert FetchTranscript(link, provider) == Some("Hello");
    session := new SessionState();
    session.GetDetailedNotes(link, provider, failing);
    session.FactCheck(model);
  }

  /**
   * A fact check survives a later Get Detailed Notes whose summary fails, so
   * a fact check can be present while the summary is None.
   */
  method StaleFactCheck(link: string) returns (session: SessionState)
    requires VideoId.VideoIdOf(link).Some?
    ensures session.factCheck == Some("checked") && session.summary == None
  {
    var provider := (id: string) => Some([Segment("Hello")]);
    var model := (prompt: string) => Some("checked");
    var failing := (prompt: string) => None;
    VideoId.IdShorterThanLink(link);
    JoinOneSegment();
    assert FetchTranscript(link, provider) == Some("Hello");
    session := new SessionState();
    session.GetDetailedNotes(link, provider, model);
    session.FactCheck(model);
    session.GetDetailedNotes(link, provider, failing);
  }
}
