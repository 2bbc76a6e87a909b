/**
 * Concrete runs of the handler and of the mention counter.
 */
module Scenarios {
  import opened Wrappers
  import opened Strings
  import opened OrderedMaps
  import opened Sections
  import opened Prompts
  import opened Extractor
  import opened Mentions
  import opened Controller

  function SampleForm(competitors: string): Form {
    Form("Widget", "https://example.com", "Tools", competitors, "Saves time", "Ops teams", "")
  }

  /** A competitor named "Acme" is mentioned twice in "ACME, acme": the count ignores case. */
  lemma MixedCaseCounted()
    ensures Count(Lower("ACME, acme"), Lower("Acme")) == 2
  {
    assert Lower("ACME, acme") == "acme, acme";
    assert Lower("Acme") == "acme";
    TwiceCounted();
  }

  /** A competitor named "Globex" is not mentioned in "ACME, acme": its count is zero. */
  lemma NotMentionedCountsZero()
    ensures Count(Lower("ACME, acme"), Lower("Globex")) == 0
  {
    var text, name := "acme, acme", "globex";
    assert Lower("ACME, acme") == text && Lower("Globex") == name;
    assert forall k :: 0 <= k < |text| ==> text[k] != name[0];
    AbsentFirstLetter(text, name);
    CountPositiveIff(text, name);
  }

  /** A text without the first letter of `sub` does not contain `sub`. */
  lemma AbsentFirstLetter(s: string, sub: string)
    requires |sub| > 0
    requires forall k :: 0 <= k < |s| ==> s[k] != sub[0]
    ensures !IsInfix(sub, s)
  {
    forall i | OccursAt(s, sub, i)
      ensures s[i] == sub[0]
    {
      assert s[i..i + |sub|][0] == s[i];
    }
  }

  /** Two words on two lines are listed in order. */
  lemma TwoNames(a: string, b: string)
    requires |a| > 0 && forall k :: 0 <= k < |a| ==> 'A' <= a[k] <= 'z'
    requires |b| > 0 && forall k :: 0 <= k < |b| ==> 'A' <= b[k] <= 'z'
    ensures CompetitorList(a + "\n" + b) == [a, b]
  {
    CompetitorListAppend(a, b);
    OneName(a);
    OneName(b);
  }

  /** A single word is listed as itself. */
  lemma OneName(name: string)
    requires |name| > 0
    requires forall k :: 0 <= k < |name| ==> 'A' <= name[k] <= 'z'
    ensures CompetitorList(name) == [name]
  {
    CompetitorListOfLine(name);
    assert !IsSpace(name[0]);
    assert Strip(name) == name;
  }

  lemma TwiceCounted()
    ensures Count("acme, acme", "acme") == 2
  {
    var s := "acme, acme";
    assert s[..4] == "acme" && s[4..] == ", acme";
    var t := ", acme";
    assert t[..4][0] == ',' && t[1..] == " acme";
    var u := " acme";
    assert u[..4][0] == ' ' && u[1..] == "acme";
    assert "acme"[..4] == "acme" && "acme"[4..] == [];
  }

  /** A blank product name stops the handler with a warning before any request. */
  method MissingFieldScenario() returns (screen: Screen, sent: seq<Request>)
    ensures screen == Alert(Warning, MissingFieldsMessage)
    ensures sent == []
  {
    var form := SampleForm("");
    form := form.(productName := "");
    screen, sent := OnGenerate(Some("sk-1"), form, None, [CompanyStrategy], [Completed("x")]);
  }

  /**
   * The second of two requests is refused with status 429: the quota message
   * is shown, no section is, and both prompts were sent.
   */
  method RateLimitScenario() returns (screen: Screen, sent: seq<Request>)
    ensures screen == Alert(Error, QuotaMessage)
    ensures |sent| == 2
  {
    var replies := [Completed("Growing."), StatusError(429, "Too Many Requests")];
    assert FirstFailure(replies) == 1 by {
      assert replies[1..] == [StatusError(429, "Too Many Requests")];
    }
    screen, sent := OnGenerate(Some("sk-1"), SampleForm(""), None, [CompanyStrategy, LeadershipInformation], replies);
  }
}
