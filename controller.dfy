/**
 * The "Generate Insights" handler: the input gate, one prompt and one chat
 * completion per selected section, the error messages for a failed request,
 * and what the page then shows (one panel per section and the competitor
 * mention chart).
 *
 * The chat completion service is not modelled: the replies it gives are an
 * input, the i-th reply answering the i-th request sent.
 */
module Controller {
  import opened Wrappers
  import opened Strings
  import opened OrderedMaps
  import opened Sections
  import opened Prompts
  import opened Extractor
  import opened Mentions

  // ---------------------------------------------------------------- gate

  datatype Level = Error | Warning

  /** Whether the handler goes on to generate, or stops with one message. */
  datatype Gate = Open | Blocked(level: Level, message: string)

  const MissingKeyMessage := "OpenAI API key not found. Please set it in your .env file."
  const MissingFieldsMessage := "Please fill in at least Product Name and Company URL."
  const NoSectionMessage := "Please select at least one section to include in the output."

  /** Python truthiness of `openai_api_key`: set and non-empty. */
  predicate HasKey(apiKey: Option<string>) {
    apiKey.Some? && apiKey.value != ""
  }

  /**
   * The `if`/`elif` chain in front of generation: a missing key is an error;
   * then the two required fields, then the section selection, are warnings.
   * Generation starts exactly when all three checks pass.
   */
  function CheckGate(apiKey: Option<string>, form: Form, selected: seq<Section>): (g: Gate)
    ensures g == Open <==> HasKey(apiKey) && form.productName != "" && form.companyUrl != "" && selected != []
    ensures !HasKey(apiKey) ==> g == Blocked(Error, MissingKeyMessage)
    ensures g.Blocked? && g.level == Error ==> !HasKey(apiKey)
    ensures HasKey(apiKey) && (form.productName == "" || form.companyUrl == "") ==> g == Blocked(Warning, MissingFieldsMessage)
    ensures HasKey(apiKey) && form.productName != "" && form.companyUrl != "" && selected == [] ==> g == Blocked(Warning, NoSectionMessage)
    ensures g == Blocked(Warning, NoSectionMessage) ==> form.productName != "" && form.companyUrl != "" && selected == []
  {
    if !HasKey(apiKey) then Blocked(Error, MissingKeyMessage)
    else if form.productName == "" || form.companyUrl == "" then Blocked(Warning, MissingFieldsMessage)
    else if selected == [] then Blocked(Warning, NoSectionMessage)
    else Open
  }

  // ------------------------------------------------------------- replies

  /**
   * What one `chat.completions.create` call gives back: the message content,
   * an `APIStatusError` with its HTTP status, or any other exception (its
   * text as `detail`).
   */
  datatype Reply = Completed(content: string) | StatusError(code: int, detail: string) | Failure(detail: string)

  /** The cause the error message reports. */
  datatype Cause = RateLimited | BadKey | ApiError(detail: string) | Unexpected(detail: string)

  function CauseOf(r: Reply): Cause
    requires !r.Completed?
  {
    match r
    case StatusError(code, detail) =>
      if code == 429 then RateLimited else if code == 401 then BadKey else ApiError(detail)
    case Failure(detail) => Unexpected(detail)
  }

  // The four messages start with different words; each literal is written
  // as its first word and the rest.
  const QuotaMessage := "You" + " have exceeded your OpenAI API quota or rate limit. Please check your usage and billing details."
  const InvalidKeyMessage := "Invalid" + " OpenAI API key. Please check your .env file."
  const ApiErrorPrefix := "OpenAI" + " API error: "
  const UnexpectedPrefix := "Unexpected" + " error generating insights: "

  /** The `st.error` text of the two `except` clauses. */
  function FailureMessage(c: Cause): string {
    match c
    case RateLimited => QuotaMessage
    case BadKey => InvalidKeyMessage
    case ApiError(detail) => ApiErrorPrefix + detail
    case Unexpected(detail) => UnexpectedPrefix + detail
  }

  /** Reads the cause back from an error message: the four messages start with different letters. */
  function ParseFailureMessage(m: string): Option<Cause> {
    if m == QuotaMessage then Some(RateLimited)
    else if m == InvalidKeyMessage then Some(BadKey)
    else if |ApiErrorPrefix| <= |m| && m[..|ApiErrorPrefix|] == ApiErrorPrefix then Some(ApiError(m[|ApiErrorPrefix|..]))
    else if |UnexpectedPrefix| <= |m| && m[..|UnexpectedPrefix|] == UnexpectedPrefix then Some(Unexpected(m[|UnexpectedPrefix|..]))
    else None
  }

  /** The message tells the user which failure happened, and quotes its detail unchanged. */
  lemma FailureMessageNamesCause(c: Cause)
    ensures ParseFailureMessage(FailureMessage(c)) == Some(c)
  {
    var m := FailureMessage(c);
    match c
    case RateLimited =>
    case BadKey =>
      assert m[0] == 'I' != QuotaMessage[0];
    case ApiError(detail) =>
      assert m[0] == 'O';
      assert m != QuotaMessage && m != InvalidKeyMessage by {
        assert QuotaMessage[0] == 'Y' && InvalidKeyMessage[0] == 'I';
      }
      assert m[..|ApiErrorPrefix|] == ApiErrorPrefix;
      assert m[|ApiErrorPrefix|..] == detail;
    case Unexpected(detail) =>
      assert m[0] == 'U';
      assert m != QuotaMessage && m != InvalidKeyMessage by {
        assert QuotaMessage[0] == 'Y' && InvalidKeyMessage[0] == 'I';
      }
      assert |ApiErrorPrefix| > |UnexpectedPrefix| || m[..|ApiErrorPrefix|] != ApiErrorPrefix by {
        assert ApiErrorPrefix[0] == 'O';
      }
      assert m[..|UnexpectedPrefix|] == UnexpectedPrefix;
      assert m[|UnexpectedPrefix|..] == detail;
  }

  /** The number of replies before the first one that is not a completion. */
  function FirstFailure(replies: seq<Reply>): (k: nat)
    ensures k <= |replies|
    ensures forall j :: 0 <= j < k ==> replies[j].Completed?
    ensures k < |replies| ==> !replies[k].Completed?
  {
    if replies == [] || !replies[0].Completed? then 0 else 1 + FirstFailure(replies[1..])
  }

  // ------------------------------------------------------------ requests

  /**
   * One chat completion request: the section it asks for, with the document
   * extract and the form it quotes. The leaders text area is always passed
   * to the prompt builder.
   */
  datatype Request = Request(section: Section, docText: string, form: Form) {
    function Prompt(): string {
      BuildSectionPrompt(section.Key(), docText, form, Some(form.manualLeaders))
    }
  }

  /** The requests for the first `n` sections, in order. */
  function Requests(sections: seq<Section>, docText: string, form: Form, n: nat): (requests: seq<Request>)
    requires n <= |sections|
    ensures |requests| == n
    ensures forall i :: 0 <= i < n ==> requests[i] == Request(sections[i], docText, form)
  {
    seq(n, i requires 0 <= i < n => Request(sections[i], docText, form))
  }

  /** Each prompt sent asks for the section it was sent for, and only it. */
  lemma PromptsFollowSelection(sections: seq<Section>, docText: string, form: Form, n: nat)
    requires n <= |sections|
    ensures forall i :: 0 <= i < n ==>
      SectionKeyOf(Requests(sections, docText, form, n)[i].Prompt()) == sections[i].Key()
  {
    forall i | 0 <= i < n
      ensures SectionKeyOf(Requests(sections, docText, form, n)[i].Prompt()) == sections[i].Key()
    {
      PromptNamesItsSection(sections[i].Key(), docText, form, Some(form.manualLeaders));
    }
  }

  // ------------------------------------------------------------- results

  /**
   * The `results` dict after the first `n` requests succeeded: each section
   * maps to its reply's stripped content, a later assignment to the same
   * section replacing an earlier one.
   */
  function ResultsOf(sections: seq<Section>, replies: seq<Reply>, n: nat): (results: map<Section, string>)
    requires n <= |sections| && n <= |replies|
    requires forall j :: 0 <= j < n ==> replies[j].Completed?
    ensures forall j :: 0 <= j < n ==> sections[j] in results
  {
    if n == 0 then map[]
    else ResultsOf(sections, replies, n - 1)[sections[n - 1] := Strip(replies[n - 1].content)]
  }

  /** A section has a result exactly when it is among the first `n` selected. */
  lemma {:induction false} ResultsOfKeys(sections: seq<Section>, replies: seq<Reply>, n: nat)
    requires n <= |sections| && n <= |replies|
    requires forall j :: 0 <= j < n ==> replies[j].Completed?
    ensures forall s :: s in ResultsOf(sections, replies, n) <==> s in sections[..n]
  {
    if n > 0 {
      ResultsOfKeys(sections, replies, n - 1);
      assert sections[..n] == sections[..n - 1] + [sections[n - 1]];
    }
  }

  /** With every section selected once, each result is its own reply's stripped content. */
  lemma {:induction false} ResultsOfDistinct(sections: seq<Section>, replies: seq<Reply>, n: nat, i: nat)
    requires n <= |sections| && n <= |replies|
    requires forall j :: 0 <= j < n ==> replies[j].Completed?
    requires Distinct(sections) && i < n
    ensures ResultsOf(sections, replies, n)[sections[i]] == Strip(replies[i].content)
  {
    if i < n - 1 {
      assert sections[i] != sections[n - 1];
      ResultsOfDistinct(sections, replies, n - 1, i);
    }
  }

  /**
   * The `for title, key in sections` loop: a prompt is built and sent for
   * each section in turn, and its reply's content, stripped, is stored. The
   * first reply that is not a completion raises out of the loop: the prompts
   * sent are those up to and including the failed one, and `failure` is that
   * reply.
   */
  method CollectResults(selected: seq<Section>, docText: string, form: Form, replies: seq<Reply>)
    returns (results: map<Section, string>, sent: seq<Request>, failure: Option<Reply>)
    requires |replies| == |selected|
    ensures failure.None? <==> FirstFailure(replies) == |selected|
    ensures failure.Some? ==>
      && failure.value == replies[FirstFailure(replies)]
      && sent == Requests(selected, docText, form, FirstFailure(replies) + 1)
    ensures failure.None? ==>
      && sent == Requests(selected, docText, form, |selected|)
      && results == ResultsOf(selected, replies, |selected|)
  {
    results := map[];
    sent := [];
    failure := None;
    for i := 0 to |selected|
      invariant forall j :: 0 <= j < i ==> replies[j].Completed?
      invariant results == ResultsOf(selected, replies, i)
      invariant sent == Requests(selected, docText, form, i)
    {
      var section := selected[i];
      sent := sent + [Request(section, docText, form)];
      var reply := replies[i];
      if !reply.Completed? {
        assert FirstFailure(replies) == i;
        failure := Some(reply);
        return;
      }
      results := results[section := Strip(reply.content)];
    }
    assert FirstFailure(replies) == |selected|;
  }

  // -------------------------------------------------------------- screen

  /**
   * One section as shown: the section's title as a heading, its caption, and
   * the generated text.
   */
  datatype Panel = Panel(section: Section, body: string) {
    function Heading(): string { "### " + section.Title() }
    function Caption(): string { section.Summary() }
  }

  /** What the handler leaves on the page. */
  datatype Screen =
    | Alert(level: Level, message: string)
    | Insights(panels: seq<Panel>, chart: Option<OrderedMap<string, nat>>)

  /** The `for title, _ in sections` loop: one panel per selected section, in selection order. */
  method RenderSections(selected: seq<Section>, results: map<Section, string>) returns (panels: seq<Panel>)
    requires forall s :: s in selected ==> s in results
    ensures |panels| == |selected|
    ensures forall i :: 0 <= i < |selected| ==> panels[i].section == selected[i] && panels[i].body == results[selected[i]]
  {
    panels := [];
    for i := 0 to |selected|
      invariant |panels| == i
      invariant forall j :: 0 <= j < i ==> panels[j].section == selected[j] && panels[j].body == results[selected[j]]
    {
      var section := selected[i];
      panels := panels + [Panel(section, results[section])];
    }
  }

  /**
   * The bar chart under the sections: drawn when the competitor section was
   * generated and the competitors text is not blank. Each listed competitor,
   * once, in the order first listed, with the number of its mentions in that
   * section's text, both lower-cased.
   */
  method CompetitorChart(competitors: string, results: map<Section, string>) returns (chart: Option<OrderedMap<string, nat>>)
    ensures chart.Some? <==> CompetitorMentions in results && !AllSpace(competitors)
    ensures chart.Some? ==>
      var counts := chart.value;
      && counts.Valid()
      && counts.keys == Dedup(CompetitorList(competitors))
      && forall c :: c in counts.entries ==> counts.entries[c] == Count(Lower(results[CompetitorMentions]), Lower(c))
  {
    chart := None;
    StripSpec(competitors);
    if CompetitorMentions in results && Strip(competitors) != [] {
      var competitorList := CompetitorList(competitors);
      var counts := CountMentions(competitorList, results[CompetitorMentions]);
      CompetitorListEmptyIff(competitors);
      assert competitorList[0] in counts.entries;
      if counts.keys != [] {
        chart := Some(counts);
      }
    }
  }

  /**
   * The whole handler for one click. A closed gate shows its message and
   * sends nothing. Otherwise the document is read once and the sections are
   * generated in selection order; a failed request shows its error message
   * and no section. When every request succeeds, the panels follow the
   * selection, and the chart is drawn exactly when the competitor section was
   * generated and the competitors text is not blank; it counts each listed
   * competitor's mentions in that section's text.
   */
  method OnGenerate(apiKey: Option<string>, form: Form, upload: Option<Upload>, selected: seq<Section>, replies: seq<Reply>)
    returns (screen: Screen, sent: seq<Request>)
    requires |replies| == |selected|
    ensures CheckGate(apiKey, form, selected).Blocked? ==>
      var g := CheckGate(apiKey, form, selected);
      screen == Alert(g.level, g.message) && sent == []
    ensures CheckGate(apiKey, form, selected).Open? && FirstFailure(replies) < |selected| ==>
      var k := FirstFailure(replies);
      && screen == Alert(Error, FailureMessage(CauseOf(replies[k])))
      && sent == Requests(selected, ExtractText(upload), form, k + 1)
    ensures CheckGate(apiKey, form, selected).Open? && FirstFailure(replies) == |selected| ==>
      && sent == Requests(selected, ExtractText(upload), form, |selected|)
      && screen.Insights?
      && |screen.panels| == |selected|
      && (forall i :: 0 <= i < |selected| ==>
            && screen.panels[i].section == selected[i]
            && screen.panels[i].body == ResultsOf(selected, replies, |selected|)[selected[i]])
      && (screen.chart.Some? <==> CompetitorMentions in selected && !AllSpace(form.competitors))
      && (screen.chart.Some? ==>
            var counts := screen.chart.value;
            var text := ResultsOf(selected, replies, |selected|)[CompetitorMentions];
            && counts.Valid()
            && counts.keys == Dedup(CompetitorList(form.competitors))
            && forall c :: c in counts.entries ==> counts.entries[c] == Count(Lower(text), Lower(c)))
  {
    var gate := CheckGate(apiKey, form, selected);
    if gate.Blocked? {
      return Alert(gate.level, gate.message), [];
    }
    var docText := ExtractText(upload);
    var results, failure;
    results, sent, failure := CollectResults(selected, docText, form, replies);
    if failure.Some? {
      return Alert(Error, FailureMessage(CauseOf(failure.value))), sent;
    }
    var panels := RenderSections(selected, results);
    var chart := CompetitorChart(form.competitors, results);
    ResultsOfKeys(selected, replies, |selected|);
    assert selected[..|selected|] == selected;
    screen := Insights(panels, chart);
  }
}
