/**
 * The rules applied before and while the printable report is laid out: the
 * validation that gates it, the synthetic charges row, the comments
 * placeholder, the page size, and the rows and texts of its tables.
 * The markup and styling around these texts are not modelled.
 */
module Render {
  import opened Wrappers
  import opened Records
  import opened NumText
  import opened Aggregate

  const NairaSign: string := "\U{20A6}"
  const NoComments: string := "No comments provided"
  const SignatureLine: string := "________________"

  const NameRequired: string := "\U{274C} Institution name is required"
  const LocationRequired: string := "\U{274C} Location is required"
  const ProjectRequired: string := "\U{274C} At least one project is required"

  /** The institution block; the inspection date arrives already as text. */
  datatype InstitutionInfo = InstitutionInfo(name: string, location: string, year: string, date: string)

  /** The approval block; the approval date arrives already as text. */
  datatype ApprovalInfo = ApprovalInfo(status: string, officer: string, date: string, comments: string)

  /** The texts of the printable report, table by table. */
  datatype Report = Report(
    pageSize: string,
    header: seq<string>,
    projectRows: seq<seq<string>>,
    summary: seq<string>,
    teamRows: seq<seq<string>>,
    approval: seq<string>)

  /** The warnings that block the printable report, in the order they are shown. */
  function ValidationErrors(name: string, location: string, ps: seq<Project>): (errs: seq<string>)
    ensures errs == [] <==> name != "" && location != "" && ps != []
    ensures NameRequired in errs <==> name == ""
    ensures LocationRequired in errs <==> location == ""
    ensures ProjectRequired in errs <==> ps == []
  {
    (if name == "" then [NameRequired] else [])
    + (if location == "" then [LocationRequired] else [])
    + (if ps == [] then [ProjectRequired] else [])
  }

  /** The approval comments as printed: never empty. */
  function CommentsOrDefault(comments: string): (r: string)
    ensures r != ""
    ensures comments != "" ==> r == comments
    ensures comments == "" ==> r == NoComments
  {
    if comments == "" then NoComments else comments
  }

  /** The page size for an orientation; anything but "Landscape" prints portrait. */
  function PageSize(orientation: string): (size: string)
    ensures size == "A4 landscape" <==> orientation == "Landscape"
    ensures size == "A4" <==> orientation != "Landscape"
  {
    if orientation == "Landscape" then "A4 landscape" else "A4"
  }

  /** The row that stands for the bank and administrative charges: fully disbursed and complete. */
  function RiderRow(amount: real): (p: Project)
    ensures Numeric(p) && p.disbursed.value == 100.0 && p.balance.value == 0.0 && p.completion.value == 100.0
    ensures p.approvedCost == amount && p.contractSum == amount
  {
    Project(None, "Bank and Administrative Charges", amount, amount, Num(100.0), Num(0.0),
            "N/A", "N/A", "Administrative charges", Num(100.0), "Submitted", "Processed")
  }

  /** The list the printable report shows: a copy of the project list, plus the charges row when the rider is on. */
  function PdfProjects(ps: seq<Project>, riderOn: bool, amount: real): (r: seq<Project>)
    ensures |r| == |ps| + (if riderOn then 1 else 0)
    ensures r[..|ps|] == ps
    ensures riderOn ==> r[|ps|] == RiderRow(amount)
    ensures AllNumeric(ps) ==> AllNumeric(r)
  {
    if riderOn then ps + [RiderRow(amount)] else ps
  }

  function Percent(x: real): string
  {
    Fixed1(x) + "%"
  }

  function Money(x: real): string
  {
    NairaSign + WholeGrouped(x)
  }

  function MoneyCents(x: real): string
  {
    NairaSign + Fixed2Grouped(x)
  }

  /** The cells of the project table row numbered i. */
  function ProjectRowCells(i: nat, p: Project): (r: seq<string>)
    requires Numeric(p)
    ensures |r| == 12 && ParseNumber(r[0]) == Some(i as real)
  {
    ParseNumberOfDigits(i);
    [Digits(i), p.name, Money(p.approvedCost), Money(p.contractSum),
     Percent(p.disbursed.value), Percent(p.balance.value), p.quality, p.compliance,
     p.otherObs, Percent(p.completion.value), p.docs, p.recommendation]
  }

  /** The cells of the team table row numbered i, ending in a blank signature line. */
  function TeamRowCells(i: nat, m: TeamMember): (r: seq<string>)
    ensures |r| == 4 && ParseNumber(r[0]) == Some(i as real)
  {
    ParseNumberOfDigits(i);
    [Digits(i), m.name, m.designation, SignatureLine]
  }

  /** The eight texts of the summary block. */
  function SummaryTexts(s: Summary): (t: seq<string>)
    ensures |t| == 8
    ensures ParseNumber(t[0]) == Some(s.totalProjects as real) && ParseNumber(t[1]) == Some(s.completed as real)
  {
    var total, completed := Digits(s.totalProjects), Digits(s.completed);
    ParseNumberOfDigits(s.totalProjects);
    ParseNumberOfDigits(s.completed);
    [total, completed] + [IntText(s.inProgress), Percent(s.completionRate),
     MoneyCents(s.totalApproved), MoneyCents(s.totalContract), MoneyCents(s.totalDisbursed), MoneyCents(s.balance)]
  }

  /** Lays out the report; the rows are numbered by position, not by the stored sequence numbers. */
  method CreateReport(projects: seq<Project>, info: InstitutionInfo, team: seq<TeamMember>,
                      approval: ApprovalInfo, summary: Summary, orientation: string) returns (r: Report)
    requires AllNumeric(projects)
    ensures r.pageSize == PageSize(orientation)
    ensures r.header == [info.name, info.location, info.date, info.year]
    ensures |r.projectRows| == |projects|
    ensures forall i :: 0 <= i < |projects| ==> r.projectRows[i] == ProjectRowCells(i + 1, projects[i])
    ensures r.summary == SummaryTexts(summary)
    ensures |r.teamRows| == |team|
    ensures forall i :: 0 <= i < |team| ==> r.teamRows[i] == TeamRowCells(i + 1, team[i])
    ensures r.approval == [approval.status, approval.officer, approval.date, approval.comments]
  {
    var pageSize := PageSize(orientation);
    var projectRows: seq<seq<string>> := [];
    var i := 0;
    while i < |projects|
      invariant 0 <= i <= |projects|
      invariant |projectRows| == i
      invariant forall k :: 0 <= k < i ==> projectRows[k] == ProjectRowCells(k + 1, projects[k])
    {
      projectRows := projectRows + [ProjectRowCells(i + 1, projects[i])];
      i := i + 1;
    }
    var teamRows: seq<seq<string>> := [];
    i := 0;
    while i < |team|
      invariant 0 <= i <= |team|
      invariant |teamRows| == i
      invariant forall k :: 0 <= k < i ==> teamRows[k] == TeamRowCells(k + 1, team[k])
    {
      teamRows := teamRows + [TeamRowCells(i + 1, team[i])];
      i := i + 1;
    }
    r := Report(pageSize, [info.name, info.location, info.date, info.year], projectRows,
                SummaryTexts(summary), teamRows, [approval.status, approval.officer, approval.date, approval.comments]);
  }

  // ---------------------------------------------------------------------
  // Reading the printed texts back

  /** The amount a printed currency text stands for. */
  function ReadMoney(s: string): Option<real>
  {
    if |s| >= 1 && s[..1] == NairaSign then ParseNumber(RemoveCommas(s[1..])) else None
  }

  /** The value a printed percentage text stands for. */
  function ReadPercent(s: string): Option<real>
  {
    if |s| >= 1 && s[|s| - 1] == '%' then ParseNumber(s[..|s| - 1]) else None
  }

  predicate Near(o: Option<real>, x: real, tolerance: real)
  {
    o.Some? && Abs(o.value - x) <= tolerance
  }

  lemma MoneyDenotes(x: real)
    ensures Near(ReadMoney(Money(x)), x, 0.5)
  {
    assert Money(x)[1..] == WholeGrouped(x);
    assert Money(x)[..1] == NairaSign;
    WholeGroupedDenotes(x);
  }

  lemma MoneyCentsDenotes(x: real)
    ensures Near(ReadMoney(MoneyCents(x)), x, 0.005)
  {
    assert MoneyCents(x)[1..] == Fixed2Grouped(x);
    assert MoneyCents(x)[..1] == NairaSign;
    Fixed2Denotes(x);
  }

  lemma PercentDenotes(x: real)
    ensures Near(ReadPercent(Percent(x)), x, 0.05)
  {
    assert Percent(x)[..|Percent(x)| - 1] == Fixed1(x);
    Fixed1Denotes(x);
  }

  /**
   * A project row carries the project's texts verbatim, its position as the
   * row number, and amounts and percentages that read back to the project's
   * values within the rounding of their formats.
   */
  lemma ProjectRowDenotes(i: nat, p: Project)
    requires Numeric(p)
    ensures var r := ProjectRowCells(i, p);
      && |r| == 12
      && ParseNumber(r[0]) == Some(i as real)
      && r[1] == p.name && r[6] == p.quality && r[7] == p.compliance
      && r[8] == p.otherObs && r[10] == p.docs && r[11] == p.recommendation
      && Near(ReadMoney(r[2]), p.approvedCost, 0.5) && Near(ReadMoney(r[3]), p.contractSum, 0.5)
      && Near(ReadPercent(r[4]), p.disbursed.value, 0.05)
      && Near(ReadPercent(r[5]), p.balance.value, 0.05)
      && Near(ReadPercent(r[9]), p.completion.value, 0.05)
  {
    var r := ProjectRowCells(i, p);
    assert r[0] == Digits(i);
    ParseNumberOfDigits(i);
    ProjectRowAmounts(r, p);
    ProjectRowPercents(r, p);
  }

  lemma ProjectRowAmounts(r: seq<string>, p: Project)
    requires |r| == 12 && r[2] == Money(p.approvedCost) && r[3] == Money(p.contractSum)
    ensures Near(ReadMoney(r[2]), p.approvedCost, 0.5) && Near(ReadMoney(r[3]), p.contractSum, 0.5)
  {
    MoneyDenotes(p.approvedCost);
    MoneyDenotes(p.contractSum);
  }

  lemma ProjectRowPercents(r: seq<string>, p: Project)
    requires Numeric(p) && |r| == 12
    requires r[4] == Percent(p.disbursed.value) && r[5] == Percent(p.balance.value) && r[9] == Percent(p.completion.value)
    ensures Near(ReadPercent(r[4]), p.disbursed.value, 0.05)
    ensures Near(ReadPercent(r[5]), p.balance.value, 0.05)
    ensures Near(ReadPercent(r[9]), p.completion.value, 0.05)
  {
    PercentDenotes(p.disbursed.value);
    PercentDenotes(p.balance.value);
    PercentDenotes(p.completion.value);
  }

  /** The summary block reads back to the summary within the rounding of its formats. */
  lemma SummaryTextsDenote(s: Summary)
    requires s.inProgress >= 0
    ensures var t := SummaryTexts(s);
      && |t| == 8
      && ParseNumber(t[0]) == Some(s.totalProjects as real)
      && ParseNumber(t[1]) == Some(s.completed as real)
      && ParseNumber(t[2]) == Some(s.inProgress as real)
      && Near(ReadPercent(t[3]), s.completionRate, 0.05)
      && Near(ReadMoney(t[4]), s.totalApproved, 0.005)
      && Near(ReadMoney(t[5]), s.totalContract, 0.005)
      && Near(ReadMoney(t[6]), s.totalDisbursed, 0.005)
      && Near(ReadMoney(t[7]), s.balance, 0.005)
  {
    var t := SummaryTexts(s);
    assert t[0] == Digits(s.totalProjects) && t[1] == Digits(s.completed) && t[2] == Digits(s.inProgress);
    ParseNumberOfDigits(s.totalProjects);
    ParseNumberOfDigits(s.completed);
    ParseNumberOfDigits(s.inProgress);
    assert t[3] == Percent(s.completionRate);
    PercentDenotes(s.completionRate);
    SummaryAmountsDenote(t, s);
  }

  lemma SummaryAmountsDenote(t: seq<string>, s: Summary)
    requires |t| == 8
    requires t[4] == MoneyCents(s.totalApproved) && t[5] == MoneyCents(s.totalContract)
    requires t[6] == MoneyCents(s.totalDisbursed) && t[7] == MoneyCents(s.balance)
    ensures Near(ReadMoney(t[4]), s.totalApproved, 0.005)
    ensures Near(ReadMoney(t[5]), s.totalContract, 0.005)
    ensures Near(ReadMoney(t[6]), s.totalDisbursed, 0.005)
    ensures Near(ReadMoney(t[7]), s.balance, 0.005)
  {
    MoneyCentsDenotes(s.totalApproved);
    MoneyCentsDenotes(s.totalContract);
    MoneyCentsDenotes(s.totalDisbursed);
    MoneyCentsDenotes(s.balance);
  }

  /** The worked example: an approved cost of 1234567 prints as a grouped whole amount. */
  lemma MoneyExample()
    ensures Money(1234567.0) == NairaSign + "1,234,567"
  {
    GroupedExample();
  }

  /**
   * The printed list with its charges row adds up, without the rider, to the
   * same money totals as the project list with the rider; it has one more
   * project, and that one counts as completed.
   */
  lemma RiderRowMatchesRider(ps: seq<Project>, amount: real, other: real)
    requires AllMeasured(ps)
    ensures AllMeasured(PdfProjects(ps, true, amount))
    ensures var printed := Summarize(PdfProjects(ps, true, amount), false, other);
            var session := Summarize(ps, true, amount);
      && printed.totalApproved == session.totalApproved
      && printed.totalContract == session.totalContract
      && printed.totalDisbursed == session.totalDisbursed
      && printed.balance == session.balance
      && printed.totalProjects == session.totalProjects + 1
      && printed.completed == session.completed + 1
  {
    var row := RiderRow(amount);
    assert [row][1..] == [];
    SumsOfConcat(ps, [row]);
  }
}
