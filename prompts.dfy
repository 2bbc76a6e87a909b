/**
 * `build_section_prompt`: the prompt sent for one output section. A fixed
 * header quotes every form field and the document extract; the leaders the
 * user typed are appended for the leadership section only; one of four fixed
 * instructions goes in front, chosen by the section key, and an unknown key
 * gets the bare header.
 */
module Prompts {
  import opened Wrappers
  import opened Strings
  import opened Sections

  /** The form fields the prompt quotes (the app reads them as globals). */
  datatype Form = Form(
    productName: string,
    companyUrl: string,
    productCategory: string,
    competitors: string,
    valueProposition: string,
    targetCustomer: string,
    manualLeaders: string)

  // Each instruction is the shared first sentence `Opening`, then a second
  // sentence whose first word is written apart from the rest.

  const Opening := "You " + "are a professional sales insights assistant. "

  const StrategyInstruction := Opening
    + "Summarize" + " the company's activities and direction in the relevant industry. "
    + "Reference any public statements, press releases, or articles by key executives. "
    + "Mention relevant job postings or technology stack indicators if available.\n"
  const CompetitorInstruction := Opening
    + "Note" + " any public information about the listed competitors and their relationship to the target company.\n"
  const LeadershipInstruction := Opening
    + "List" + " key leaders at the prospect company, especially those quoted in recent press releases or articles.\n"
  const ProductInstruction := Opening
    + "For" + " public companies, include insights from annual reports or other relevant documents.\n"

  predicate IsKnownKey(key: string) {
    key == "company_strategy" || key == "competitor_mentions" || key == "leadership_info" || key == "product_strategy"
  }

  /** The instruction put in front of the header; none for an unknown key. */
  function Instruction(key: string): string {
    if key == "company_strategy" then StrategyInstruction
    else if key == "competitor_mentions" then CompetitorInstruction
    else if key == "leadership_info" then LeadershipInstruction
    else if key == "product_strategy" then ProductInstruction
    else ""
  }

  /** The lines of the f-string `base`: every form field, then the document extract. */
  function HeaderLines(form: Form, docText: string): seq<string> {
    [ "Product Name: " + form.productName + "\n",
      "Company URL: " + form.companyUrl + "\n",
      "Product Category: " + form.productCategory + "\n",
      "Competitors: " + form.competitors + "\n",
      "Value Proposition: " + form.valueProposition + "\n",
      "Target Customer: " + form.targetCustomer + "\n",
      "Product Overview Document Extract (if provided):\n" + docText + "\n" ]
  }

  /** The f-string `base`: it opens with a line break, then the header lines. */
  function Header(form: Form, docText: string): string {
    "\n" + Concat(HeaderLines(form, docText))
  }

  function LeadersBlock(leaders: string): string {
    "\nKnown Company Leaders (user provided):\n" + leaders + "\n"
  }

  /** Python truthiness of the optional leaders argument: present and non-empty. */
  predicate Truthy(leaders: Option<string>) {
    leaders.Some? && leaders.value != ""
  }

  /** The leaders block is added exactly for the leadership key with leaders given. */
  predicate AddsLeaders(key: string, leaders: Option<string>) {
    Truthy(leaders) && key == "leadership_info"
  }

  /**
   * `build_section_prompt(section_key, doc_text, manual_leaders)`: the
   * section's instruction, the header, and the leaders block when it applies.
   */
  function BuildSectionPrompt(sectionKey: string, docText: string, form: Form, manualLeaders: Option<string>): (prompt: string)
    ensures prompt == Instruction(sectionKey) + Header(form, docText)
      + (if AddsLeaders(sectionKey, manualLeaders) then LeadersBlock(manualLeaders.value) else "")
    ensures !IsKnownKey(sectionKey) ==> prompt == Header(form, docText)
  {
    var base := Header(form, docText);
    var base := if manualLeaders.Some? && manualLeaders.value != "" && sectionKey == "leadership_info"
      then base + LeadersBlock(manualLeaders.value) else base;
    if sectionKey == "company_strategy" then StrategyInstruction + base
    else if sectionKey == "competitor_mentions" then CompetitorInstruction + base
    else if sectionKey == "leadership_info" then LeadershipInstruction + base
    else if sectionKey == "product_strategy" then ProductInstruction + base
    else base
  }

  /**
   * Reads the section key back from a prompt: the four instructions share
   * their first sentence and differ at the first letter of the second.
   */
  function SectionKeyOf(prompt: string): string {
    if |prompt| > |Opening| && prompt[..|Opening|] == Opening then
      var c := prompt[|Opening|];
      if c == 'S' then "company_strategy"
      else if c == 'N' then "competitor_mentions"
      else if c == 'L' then "leadership_info"
      else if c == 'F' then "product_strategy"
      else ""
    else ""
  }

  /** The first letter of the sentence that follows `Opening` in a known key's instruction. */
  function InstructionLetter(key: string): char {
    if key == "company_strategy" then 'S'
    else if key == "competitor_mentions" then 'N'
    else if key == "leadership_info" then 'L'
    else 'F'
  }

  lemma InstructionShape(key: string)
    requires IsKnownKey(key)
    ensures |Instruction(key)| > |Opening|
    ensures Instruction(key)[..|Opening|] == Opening
    ensures Instruction(key)[|Opening|] == InstructionLetter(key)
  {
  }

  /** Each known key gets its own instruction and an unknown key none. */
  lemma {:induction false} PromptNamesItsSection(sectionKey: string, docText: string, form: Form, manualLeaders: Option<string>)
    ensures SectionKeyOf(BuildSectionPrompt(sectionKey, docText, form, manualLeaders))
      == if IsKnownKey(sectionKey) then sectionKey else ""
  {
    var prompt := BuildSectionPrompt(sectionKey, docText, form, manualLeaders);
    var instruction := Instruction(sectionKey);
    var rest := prompt[|instruction|..];
    assert prompt == instruction + rest;
    if IsKnownKey(sectionKey) {
      InstructionShape(sectionKey);
      assert prompt[..|Opening|] == instruction[..|Opening|];
      assert prompt[|Opening|] == instruction[|Opening|];
    } else {
      assert prompt == Header(form, docText);
      assert prompt[0] == '\n' != Opening[0];
      assert |prompt| > |Opening| ==> prompt[..|Opening|][0] == prompt[0];
    }
  }

  /** The prompt quotes every form field and the document extract verbatim, each on its own line. */
  lemma PromptQuotesEveryField(sectionKey: string, docText: string, form: Form, manualLeaders: Option<string>, k: nat)
    requires k < |HeaderLines(form, docText)|
    ensures IsInfix(HeaderLines(form, docText)[k], BuildSectionPrompt(sectionKey, docText, form, manualLeaders))
  {
    var lines := HeaderLines(form, docText);
    HeaderHasLine(lines, k);
    PromptHasHeader(sectionKey, docText, form, manualLeaders);
    InfixTransitive(lines[k], "\n" + Concat(lines), BuildSectionPrompt(sectionKey, docText, form, manualLeaders));
  }

  lemma HeaderHasLine(lines: seq<string>, k: nat)
    requires k < |lines|
    ensures IsInfix(lines[k], "\n" + Concat(lines))
  {
    ConcatHasEach(lines, k);
    InfixOfConcat("\n", Concat(lines), []);
    assert "\n" + Concat(lines) + [] == "\n" + Concat(lines);
    InfixTransitive(lines[k], Concat(lines), "\n" + Concat(lines));
  }

  lemma PromptHasHeader(sectionKey: string, docText: string, form: Form, manualLeaders: Option<string>)
    ensures IsInfix(Header(form, docText), BuildSectionPrompt(sectionKey, docText, form, manualLeaders))
  {
    var tail := if AddsLeaders(sectionKey, manualLeaders) then LeadersBlock(manualLeaders.value) else "";
    InfixOfConcat(Instruction(sectionKey), Header(form, docText), tail);
  }

  /**
   * The leaders block is quoted in the leadership prompt when leaders are
   * given; without them, and for every other section, the prompt is the
   * instruction and the header alone, whatever leaders were passed.
   */
  lemma LeadersOnlyInLeadershipPrompt(sectionKey: string, docText: string, form: Form, manualLeaders: Option<string>)
    ensures var prompt := BuildSectionPrompt(sectionKey, docText, form, manualLeaders);
      && (AddsLeaders(sectionKey, manualLeaders) ==> IsInfix(LeadersBlock(manualLeaders.value), prompt))
      && (!AddsLeaders(sectionKey, manualLeaders) ==> prompt == BuildSectionPrompt(sectionKey, docText, form, None))
  {
    if AddsLeaders(sectionKey, manualLeaders) {
      InfixOfConcat(Instruction(sectionKey) + Header(form, docText), LeadersBlock(manualLeaders.value), []);
      assert Instruction(sectionKey) + Header(form, docText) + LeadersBlock(manualLeaders.value) + []
        == BuildSectionPrompt(sectionKey, docText, form, manualLeaders);
    }
  }
}
