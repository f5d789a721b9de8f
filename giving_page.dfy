/**
 * The summary the giving page derives for its demonstration data: the same
 * figures as the shared giving calculation, but over every contribution it is
 * given, archived or not.
 */
module GivingPage {
  import opened GivingCalculations
  import Seqs

  /** `deriveGivingSummary`: no contribution is left out. */
  method DeriveGivingSummary(contributions: seq<Contribution>, funds: seq<Fund>, monthKey: string -> string, currentMonth: string, previousMonth: string)
    returns (s: Summary)
    ensures s == SummaryOf(contributions, funds, monthKey, currentMonth, previousMonth)
  {
    s := Summarize(contributions, funds, monthKey, currentMonth, previousMonth);
  }

  /** An archived contribution still adds its amount to the page's overall total. */
  lemma ArchivedStillCounted(cs: seq<Contribution>, c: Contribution, funds: seq<Fund>, monthKey: string -> string, currentMonth: string, previousMonth: string)
    requires !Active(c)
    ensures SummaryOf(cs + [c], funds, monthKey, currentMonth, previousMonth).totals.overall
              == SummaryOf(cs, funds, monthKey, currentMonth, previousMonth).totals.overall + AmountOf(c)
  {
    OverallAppend(cs, c);
  }

  /** On contributions none of which is archived, the page and the shared calculation agree. */
  lemma AgreesWithoutArchived(cs: seq<Contribution>, funds: seq<Fund>, monthKey: string -> string, currentMonth: string, previousMonth: string)
    requires forall k :: 0 <= k < |cs| ==> Active(cs[k])
    ensures SummaryOf(Seqs.Filter(cs, IsActive()), funds, monthKey, currentMonth, previousMonth)
              == SummaryOf(cs, funds, monthKey, currentMonth, previousMonth)
  {
    OnlyActiveCounted(cs);
  }
}
