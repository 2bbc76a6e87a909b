# Sales Agent Prototype: a verified model of its string logic

The Sales Agent Prototype is a one-page Streamlit application (`app.py`).
A salesperson fills in a form about the product and the target company, may
upload a product overview document, and picks which sections of a one-page
summary to generate. For each section, the application builds a prompt and
sends it to a chat completion service. It shows the answers in order, with a
bar chart of how often each listed competitor is mentioned in the
"Competitor Mentions" answer.

This project models the deterministic core of that page in Dafny:

- **Strings** (`strings.dfy`): the Python `str` builtins the page relies on,
  over ASCII.
  - `isspace` and `strip`;
  - `splitlines`, where "\r\n" is one boundary;
  - `lower` (A–Z only);
  - `" ".join` and the slice `s[:n]`;
  - `count`, which finds non-overlapping occurrences scanning left to right.
- **OrderedMaps** (`ordered_maps.dfy`): a Python `dict` with its insertion
  order of keys.
- **Extractor** (`extractor.dfy`): `extract_text_from_file`. It dispatches on
  the MIME type, joins the text fragments with single spaces, cuts the text
  to 2000 characters, and returns a fixed sentinel string for each failure.
- **Sections** (`sections.dfy`): the four sections offered: title, key and
  caption.
- **Prompts** (`prompts.dfy`): `build_section_prompt`. It builds the header
  from the form fields and the document extract, appends the leaders block
  for the leadership section only, and puts one of four instructions in
  front.
- **Mentions** (`mentions.dfy`):
  - the competitor list: the stripped, non-blank lines of the competitors
    text;
  - the counting loop that fills the ordered `competitor_counts` dict.
- **Controller** (`controller.dfy`): the "Generate Insights" handler:
  - the input gate (API key, required fields, section selection);
  - the generation loop, one request per selected section in selection
    order;
  - the error messages for a failed request (429, 401, other status, other
    exception);
  - the rendered panels and the chart data.
- **Scenarios** (`scenarios.dfy`): concrete runs of the handler and the
  counter.

The form fields are globals in the source. Here they are a `Form` value
passed as a parameter.

The chat completion service is not modelled. Its replies are an input: a
sequence whose i-th element answers the i-th request sent. Each reply is a
completion, an HTTP status error, or some other exception.

The document readers are not modelled either. An `Upload` carries what each
reader yields on the uploaded bytes, or `None` where that reader raises.

## Model

| member | source | states |
|---|---|---|
| Strings.LowerFolds | app.py:181-183 | After `str.lower()` no character is an upper-case letter, every other character is kept in place, and lowering again changes nothing. |
| Strings.StripSpec | app.py:159 | `str.strip()` leaves a piece of the text with only whitespace around it. Neither end of the result is whitespace. The result is empty exactly when the text is all whitespace. |
| Strings.FirstBreak | app.py:179 | Gives the index of the first line boundary, with no boundary before it, or the length when there is none. |
| Strings.SplitLines | app.py:179 | No line that `splitlines()` yields contains a line boundary. |
| Strings.SplitJoinedLines | app.py:179 | Lines without boundaries, joined with "\n" and with a non-empty last line, split back into exactly those lines, in order. |
| Strings.JoinSplitLines | app.py:179 | A text whose only boundaries are "\n", and which does not end in one, is its `splitlines()` joined with "\n": nothing is lost or reordered. |
| Strings.FirstBreakIs | app.py:179 | A position with no boundary before it and a boundary at it, or at the end, is the first boundary. |
| Strings.JoinLength | app.py:67 | The joined text's length is the sum of the parts plus one separator between each neighbouring pair. |
| Strings.CountBound | app.py:183 | `s.count(sub)` occurrences fit side by side: count × `len(sub)` ≤ `len(s)`. |
| Strings.CountPositiveIff | app.py:183 | The count is positive exactly when `sub in s`. |
| Strings.MatchesAreOccurrences | app.py:183 | The occurrences counted are real occurrences, in increasing order and non-overlapping. |
| Strings.CountIsMaximal | app.py:183 | No family of non-overlapping occurrences is larger than the count. |
| Strings.ConcatHasEach | app.py:96-105 | Every part occurs in the concatenation of the parts. |
| OrderedMaps.OrderedMap.Put | app.py:184 | `d[k] = v` sets the value. A new key goes to the end of the key order, and an existing key keeps its place. Validity is kept: keys are distinct and exactly those of the dict. |
| OrderedMaps.Empty | app.py:180 | `{}` is a valid dict with no keys. |
| OrderedMaps.Dedup | app.py:182-184 | The key order holds exactly the elements of the sequence, each once; `OrderedMaps.DedupOrder` states its order. |
| OrderedMaps.DedupOrder | app.py:182-184 | The key order is the order of first occurrence: of two keys, the one listed first occurs first in the list (by `s.index`). |
| OrderedMaps.DedupDistinct | app.py:182-184 | A sequence without repetitions is its own key order. |
| Extractor.ExtractText | app.py:61-91 | The result is never longer than 2000. No upload gives "". An unknown MIME type gives "[Unsupported file type]". A reader that raises gives its format's sentinel. Otherwise the result is the first `min(2000, len)` characters of the space-joined fragments. |
| Extractor.OnlySelectedReaderMatters | app.py:64-91 | Only the reader chosen by the MIME type affects the result. |
| Sections.SectionTitled | app.py:47-52 | Looking up `section_options[title]` gives a section with that title, or nothing for a title that is not offered. |
| Sections.TitleLookup | app.py:47-52 | Every section is found again by its own title, because the titles are distinct. |
| Sections.OptionsComplete | app.py:53-58 | The multiselect offers every section exactly once. |
| Prompts.BuildSectionPrompt | app.py:95-131 | The prompt is the key's instruction, then the header, then the leaders block exactly when leaders are given and non-empty and the key is `leadership_info`. An unknown key gives the bare header. |
| Prompts.InstructionShape | app.py:108-129 | The four instructions share their first sentence and differ at the first letter of the second. |
| Prompts.PromptNamesItsSection | app.py:108-131 | The section key can be read back from any prompt. An unknown key's prompt has no instruction. |
| Prompts.PromptQuotesEveryField | app.py:96-105 | Every form field and the document extract appear verbatim, each after its label and followed by a line break, in every prompt. |
| Prompts.HeaderHasLine | app.py:96-105 | Each header line occurs in the header. |
| Prompts.PromptHasHeader | app.py:96-131 | The header occurs in every prompt. |
| Prompts.LeadersOnlyInLeadershipPrompt | app.py:106-107 | The leaders block occurs in the leadership prompt when leaders are given. In every other case the prompt is the one built without leaders. |
| Mentions.CompetitorListIsComprehension | app.py:179 | Reading the competitors text line by line gives `[c.strip() for c in competitors.splitlines() if c.strip()]`. |
| Mentions.CompetitorNamesStripped | app.py:179 | Every competitor name is non-empty, and neither of its ends is whitespace. |
| Mentions.NonBlankStrippedNames | app.py:179 | The comprehension yields only non-empty names without whitespace at either end. |
| Mentions.NonBlankStrippedAppend | app.py:179 | The comprehension distributes over concatenating lists of lines. |
| Mentions.CompetitorListOfLine | app.py:179 | A text without line breaks lists one competitor, its stripped self, or none when it is blank. |
| Mentions.CompetitorListAppend | app.py:179 | Lines are read independently and in order: the competitors of `a + "\n" + b` are those of `a`, then those of `b`. |
| Mentions.CompetitorListEmptyIff | app.py:178-179 | No competitor is listed exactly when `competitors.strip()` is empty. |
| Mentions.BlankAroundBreak | app.py:178-179 | A text is blank exactly when the text on both sides of a line boundary is blank. |
| Mentions.CountMentions | app.py:180-184 | The dict holds each listed name once, in order of first listing. Each value is the non-overlapping count of the lower-cased name in the lower-cased text. |
| Mentions.MentionCountBound | app.py:181-183 | A name's mentions fit in the result text: count × `len(name)` ≤ `len(text)`. |
| Controller.CheckGate | app.py:134-140 | A missing key is an error and is checked first. Then a missing product name or URL is a warning, then an empty selection. Generation starts exactly when all three checks pass. |
| Controller.FailureMessageNamesCause | app.py:194-203 | Each error message identifies its cause (429, 401, other status, other exception) and quotes the error detail unchanged. |
| Controller.FirstFailure | app.py:148-159 | Counts the replies before the first one that is not a completion. |
| Controller.PromptsFollowSelection | app.py:146-149 | The i-th prompt sent is built for the i-th selected section. |
| Controller.ResultsOf | app.py:147-159 | After n successful replies, every one of the first n sections has a result. |
| Controller.ResultsOfKeys | app.py:147-159 | A section has a result exactly when it is among those generated. |
| Controller.ResultsOfDistinct | app.py:159 | With each section selected once, each result is its own reply's stripped content. |
| Controller.CollectResults | app.py:146-159 | Requests go out in selection order. The first failed reply stops the loop, after its request was sent. Otherwise every reply's stripped content is stored under its section. |
| Controller.RenderSections | app.py:170-174 | One panel per selected section, in selection order, each showing that section's result. |
| Controller.CompetitorChart | app.py:178-185 | Chart data exists exactly when the competitor section has a result and the competitors text is not blank. It then holds each listed competitor once, with its case-insensitive mention count. |
| Controller.OnGenerate | app.py:133-203 | A closed gate shows its message and sends nothing. A failed request shows its error and no section. Otherwise the panels follow the selection, and the chart rule of `CompetitorChart` holds for the sections' results. |
| Scenarios.MissingFieldScenario | app.py:136-137 | A blank product name gives the fields warning and sends no request. |
| Scenarios.RateLimitScenario | app.py:195-196 | A 429 on the second request gives the quota message after two requests. |
| Scenarios.MixedCaseCounted | app.py:181-183 | "Acme" is counted twice in "ACME, acme". |
| Scenarios.NotMentionedCountsZero | app.py:181-183 | "Globex" is not mentioned in "ACME, acme": its count is zero. |
| Scenarios.TwiceCounted | app.py:183 | "acme" occurs twice in "acme, acme". |
| Scenarios.TwoNames | app.py:179 | Two names on two lines are listed in order. |
| Scenarios.OneName | app.py:179 | A single word is listed as itself. |

## Left out

- Streamlit widgets, page layout, markdown/HTML rendering, the spinner and
  the success banner. The handler's result is a `Screen` value: an alert,
  or panels plus optional chart data.
- The chat completion client, its construction and the request parameters
  (model, system message, `max_tokens`, `temperature`). The replies are an
  input, one per request sent.
- A completion whose content is `None` (`.strip()` on it raises). It is one
  of the `Failure` replies, which are modelled generically.
- The PDF, Word and PowerPoint readers and UTF-8 decoding are foreign
  libraries. An upload carries what each of them yields, or `None` where it
  raises.
- The matplotlib/pandas bar chart: only the counts that feed it are
  modelled.
- Loading `.env`: the API key is a parameter.
- Unicode: `isspace`, `splitlines` and `lower` are modelled over ASCII only.
- Controller.RenderSections: the heading and the caption are derived from
  the section, not stored. The results dict is keyed by the section rather
  than by its title string. Because titles and sections correspond one to
  one (`Sections.TitleLookup`), nothing observable is lost.
- Strings.SplitLines: the round trip with `"\n".join` is proved for texts
  whose only boundaries are "\n". Other boundaries, "\r\n" among them, are
  covered only by the contract that no line holds a boundary and by
  `Mentions.CompetitorListAppend`.
