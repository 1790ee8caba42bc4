/**
 * `page_fragments/admin.py`: the admin list shows each fragment's content,
 * one column per language, cut down to a short summary.
 */
module PageFragmentsAdmin {
  import opened Wrappers
  import opened PageFragments

  /**
   * `summarize_str`: a summary is never longer than 78 characters and starts
   * like the string; a string of at most 75 characters is its own summary, a
   * longer one loses everything after 75 characters to `...`.
   */
  function SummarizeStr(s: string): (r: string)
    ensures |r| <= 78
    ensures |s| <= 75 ==> r == s
    ensures |s| > 75 ==> |r| == 78 && r[75..] == "..."
    ensures var n := if |s| < 75 then |s| else 75; r[..n] == s[..n]
  {
    if |s| > 75 then s[..75] + "..." else s
  }

  /** Summarizing a summary changes nothing. */
  lemma SummarizeStrIdempotent(s: string)
    ensures SummarizeStr(SummarizeStr(s)) == SummarizeStr(s)
  {
    if |s| > 75 {
      assert (s[..75] + "...")[..75] == s[..75];
    }
  }

  /** `get_summary_nl`. */
  function GetSummaryNl(f: PageFragment): string { SummarizeStr(f.contentNl) }

  /** `get_summary_en`. */
  function GetSummaryEn(f: PageFragment): string { SummarizeStr(f.contentEn) }

  /** `get_summary_fr`. */
  function GetSummaryFr(f: PageFragment): string { SummarizeStr(f.contentFr) }

  /** Each summary column summarizes the content field of its language. */
  lemma SummaryColumns(f: PageFragment)
    ensures ContentField(f, ContentFieldName("nl")).Some? && GetSummaryNl(f) == SummarizeStr(ContentField(f, ContentFieldName("nl")).value)
    ensures ContentField(f, ContentFieldName("en")).Some? && GetSummaryEn(f) == SummarizeStr(ContentField(f, ContentFieldName("en")).value)
    ensures ContentField(f, ContentFieldName("fr")).Some? && GetSummaryFr(f) == SummarizeStr(ContentField(f, ContentFieldName("fr")).value)
  {
    ContentFieldNameOf("nl");
    ContentFieldNameOf("en");
    ContentFieldNameOf("fr");
  }
}
