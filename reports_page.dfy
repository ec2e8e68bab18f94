/**
 * The admin reports page: a fixed list of reports, the search box that
 * filters it, and the status badge.
 */
module ReportsPage {
  import opened Seqs
  import opened Text

  datatype Report = Report(id: int, user: string, subject: string, status: string, date: string)

  /** The page's constant `reports`. */
  function PageReports(): seq<Report> {
    [Report(1, "علی محمدی", "گزارش تخلف", "pending", "2025-12-29"),
     Report(2, "مریم رضایی", "خطای سیستم", "resolved", "2025-12-28"),
     Report(3, "حسین احمدی", "درخواست حذف آگهی", "pending", "2025-12-27")]
  }

  /** The search text occurs, with its case as typed, in the user, the subject or the status. */
  predicate MatchesSearch(r: Report, search: string) {
    Includes(r.user, search) || Includes(r.subject, search) || Includes(r.status, search)
  }

  /** `filteredReports`. */
  function FilteredReports(reports: seq<Report>, search: string): (r: seq<Report>)
    ensures IsSubsequence(r, reports)
    ensures forall i :: 0 <= i < |reports| ==> (reports[i] in r <==> MatchesSearch(reports[i], search))
  {
    FilterIsSubsequence(reports, (x: Report) => MatchesSearch(x, search));
    Filter(reports, (x: Report) => MatchesSearch(x, search))
  }

  /** An empty search keeps every report. */
  lemma EmptySearchKeepsAll(reports: seq<Report>)
    ensures FilteredReports(reports, "") == reports
  {
    forall i | 0 <= i < |reports| ensures MatchesSearch(reports[i], "") {
      assert OccursAt(reports[i].user, "", 0);
    }
    FilterKeepsAll(reports, (x: Report) => MatchesSearch(x, ""));
  }

  /** Text in which the first character of the search never occurs does not contain the search. */
  lemma AbsentFirstCharacter(s: string, search: string)
    requires search != [] && forall i :: 0 <= i < |s| ==> s[i] != search[0]
    ensures !Includes(s, search)
  {
    forall i | 0 <= i <= |s| - |search| ensures !OccursAt(s, search, i) {
      assert s[i..i + |search|][0] == s[i];
    }
  }

  /** A report none of whose fields holds the first character of the search does not match it. */
  lemma NoMatchWithoutFirstCharacter(r: Report, search: string)
    requires search != []
    requires forall i :: 0 <= i < |r.user| ==> r.user[i] != search[0]
    requires forall i :: 0 <= i < |r.subject| ==> r.subject[i] != search[0]
    requires forall i :: 0 <= i < |r.status| ==> r.status[i] != search[0]
    ensures !MatchesSearch(r, search)
  {
    AbsentFirstCharacter(r.user, search);
    AbsentFirstCharacter(r.subject, search);
    AbsentFirstCharacter(r.status, search);
  }

  /** None of the page's reports holds a capital P, so none matches "Pending". */
  lemma ReportMissesCapitalised(k: nat)
    requires k < |PageReports()|
    ensures !MatchesSearch(PageReports()[k], "Pending")
  {
    if k == 0 {
      NoMatchWithoutFirstCharacter(PageReports()[0], "Pending");
    } else if k == 1 {
      NoMatchWithoutFirstCharacter(PageReports()[1], "Pending");
    } else {
      NoMatchWithoutFirstCharacter(PageReports()[2], "Pending");
    }
  }

  /** Searching "Pending", capitalised as the status badge never shows it, finds none of the page's reports. */
  lemma CapitalisedSearchFindsNothing()
    ensures FilteredReports(PageReports(), "Pending") == []
  {
    var rs := PageReports();
    var p := (x: Report) => MatchesSearch(x, "Pending");
    forall i | 0 <= i < |rs| ensures !p(rs[i]) {
      ReportMissesCapitalised(i);
    }
    FilterKeepsNone(rs, p);
  }

  /** Filtering a list of three, element by element. */
  lemma FilterOfThree(rs: seq<Report>, p: Report -> bool)
    requires |rs| == 3
    ensures Filter(rs, p) == (if p(rs[0]) then [rs[0]] else []) + (if p(rs[1]) then [rs[1]] else [])
                             + (if p(rs[2]) then [rs[2]] else [])
  {
    FilterStep(rs, p);
    FilterStep(rs[1..], p);
    assert rs[1..][1..] == rs[2..];
    FilterStep(rs[2..], p);
    assert rs[2..][1..] == [];
  }

  /** The first and third reports are pending, and so match "pending" through their status. */
  lemma PendingReportsMatchPending()
    ensures MatchesSearch(PageReports()[0], "pending") && MatchesSearch(PageReports()[2], "pending")
  {
    assert OccursAt(PageReports()[0].status, "pending", 0);
    assert OccursAt(PageReports()[2].status, "pending", 0);
  }

  /** The resolved report holds no "p" and so does not match "pending". */
  lemma ResolvedReportMissesPending()
    ensures !MatchesSearch(PageReports()[1], "pending")
  {
    NoMatchWithoutFirstCharacter(PageReports()[1], "pending");
  }

  /** Searching "pending" in lower case finds the two pending reports through their status. */
  lemma LowerCaseSearchFindsPending()
    ensures FilteredReports(PageReports(), "pending") == [PageReports()[0], PageReports()[2]]
  {
    PendingReportsMatchPending();
    ResolvedReportMissesPending();
    FilterOfThree(PageReports(), (x: Report) => MatchesSearch(x, "pending"));
  }

  /** The status badge: the pending label for "pending", the resolved label for anything else. */
  function StatusLabel(status: string): (shown: string)
    ensures status == "pending" <==> shown == "در انتظار"
    ensures status != "pending" <==> shown == "رفع شده"
  {
    if status == "pending" then "در انتظار" else "رفع شده"
  }
}
