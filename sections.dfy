/**
 * The four output sections offered by the section multiselect: the title
 * the user picks, the key the prompt builder dispatches on, and the caption
 * shown under the title.
 */
module Sections {
  import opened Wrappers

  datatype Section = CompanyStrategy | CompetitorMentions | LeadershipInformation | ProductStrategySummary {

    /** The key of `section_options`. */
    function Title(): string {
      match this
      case CompanyStrategy => "Company Strategy"
      case CompetitorMentions => "Competitor Mentions"
      case LeadershipInformation => "Leadership Information"
      case ProductStrategySummary => "Product/Strategy Summary"
    }

    /** The value of `section_options`: the key given to the prompt builder. */
    function Key(): string {
      match this
      case CompanyStrategy => "company_strategy"
      case CompetitorMentions => "competitor_mentions"
      case LeadershipInformation => "leadership_info"
      case ProductStrategySummary => "product_strategy"
    }

    /** The caption of `section_summaries`. */
    function Summary(): string {
      match this
      case CompanyStrategy => "Summary of the company's activities, direction, and public statements in the relevant industry."
      case CompetitorMentions => "Mentions and analysis of competitors relevant to the target company."
      case LeadershipInformation => "Key leaders at the prospect company, especially those quoted in recent press releases or articles."
      case ProductStrategySummary => "Insights from annual reports or other relevant documents about the company's product or strategy."
    }
  }

  /** The multiselect's options, in order; all of them are selected by default. */
  const Options: seq<Section> := [CompanyStrategy, CompetitorMentions, LeadershipInformation, ProductStrategySummary]

  /** `section_options[title]`, `None` for a title that is not offered. */
  function SectionTitled(title: string): (s: Option<Section>)
    ensures s.Some? ==> s.value.Title() == title
  {
    if title == "Company Strategy" then Some(CompanyStrategy)
    else if title == "Competitor Mentions" then Some(CompetitorMentions)
    else if title == "Leadership Information" then Some(LeadershipInformation)
    else if title == "Product/Strategy Summary" then Some(ProductStrategySummary)
    else None
  }

  /** Looking a section up by its title gives that section back: titles are distinct. */
  lemma TitleLookup(s: Section)
    ensures SectionTitled(s.Title()) == Some(s)
  {
  }

  /** The options list every section exactly once. */
  lemma OptionsComplete(s: Section)
    ensures s in Options && Distinct(Options)
  {
  }
}
