/**
 * The record model of the monitoring report: projects, team members and the
 * fixed defaults the application starts from.
 */
module Records {
  import opened Wrappers

  /**
   * A cell of one of the numeric project columns as the table editor or a
   * loaded draft hands it over: a number, free text, or empty (NaN or None).
   */
  datatype Cell = Num(value: real) | Text(text: string) | Missing

  /**
   * One funded project (a row of the project table). The field `name` holds
   * the `project` column. `sNo` is None where a row has no sequence number
   * (a row the editor has just added, or the synthetic charges row).
   */
  datatype Project = Project(
    sNo: Option<int>,
    name: string,
    approvedCost: real,
    contractSum: real,
    disbursed: Cell,
    balance: Cell,
    quality: string,
    compliance: string,
    otherObs: string,
    completion: Cell,
    docs: string,
    recommendation: string)

  datatype TeamMember = TeamMember(name: string, designation: string)

  /** A calendar date; its stored and printed text forms are in the module Dates. */
  datatype Date = Date(year: int, month: int, day: int)

  /** The default amount of the bank and administrative charges rider. */
  const DefaultBankChargesAmount: real := 215013.0

  /** The page orientation the report uses unless another one is chosen. */
  const DefaultOrientation: string := "Landscape"

  /** The template every newly added project is copied from. */
  const DefaultProject: Project := Project(
    Some(1), "New Project", 0.0, 0.0, Num(0.0), Num(100.0),
    "Good", "Compliant", "", Num(0.0), "Pending", "Pending Review")

  const DefaultMonitoringTeam: seq<TeamMember> := [
    TeamMember("Arch. A.A.", "Team Lead"),
    TeamMember("Engr. A.B.", "Monitor"),
    TeamMember("Mr. A.C.", "Engineer")]

  /** The two columns the summary computes with hold numbers. */
  predicate Measured(p: Project)
  {
    p.disbursed.Num? && p.completion.Num?
  }

  /** All three percentage columns the report prints hold numbers. */
  predicate Numeric(p: Project)
  {
    Measured(p) && p.balance.Num?
  }

  predicate AllMeasured(ps: seq<Project>)
  {
    forall i :: 0 <= i < |ps| ==> Measured(ps[i])
  }

  predicate AllNumeric(ps: seq<Project>)
  {
    forall i :: 0 <= i < |ps| ==> Numeric(ps[i])
  }
}
