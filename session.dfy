/**
 * The session: the mutable working state of one user of the monitoring app
 * and the commands that change it.
 */
module Sessions {
  import opened Wrappers
  import opened Records
  import opened Recalc
  import opened Aggregate
  import opened Render
  import opened Draft
  import opened Dates

  class Session {
    var projects: seq<Project>
    var institutionName: string
    var location: string
    var interventionYear: string
    var inspectionDate: Date
    var bankChargesAdded: bool
    var bankChargesAmount: real
    var monitoringTeam: seq<TeamMember>
    var approvalStatus: string
    var dmeOfficer: string
    var approvalComments: string
    var pdfOrientation: string
    var draftLoaded: Option<Value>

    /** The session's fields as one value. */
    function Current(): State
      reads this
    {
      State(projects, institutionName, location, interventionYear, inspectionDate, bankChargesAdded,
            bankChargesAmount, monitoringTeam, approvalStatus, dmeOfficer, approvalComments,
            pdfOrientation, draftLoaded)
    }

    /** The inspection date is a real calendar date, as a date value always is. */
    predicate Valid()
      reads this
    {
      ValidDate(inspectionDate)
    }

    /** Starts a session from the defaults; the current year and date come from the clock. */
    constructor (thisYear: string, today: Date)
      requires ValidDate(today)
      ensures Current() == InitialState(thisYear, today) && Valid()
    {
      projects := [DefaultProject];
      institutionName := "";
      location := "";
      interventionYear := thisYear;
      inspectionDate := today;
      bankChargesAdded := false;
      bankChargesAmount := DefaultBankChargesAmount;
      monitoringTeam := DefaultMonitoringTeam;
      approvalStatus := "Pending";
      dmeOfficer := "";
      approvalComments := "";
      pdfOrientation := DefaultOrientation;
      draftLoaded := None;
    }

    /** Takes the edited project table: a non-empty table is recalculated in place and becomes the project list. */
    method EditProjects(edited: array<Project>)
      modifies this, edited
      ensures edited.Length > 0 ==> edited[..] == Recalculated(old(edited[..]))
      ensures edited.Length > 0 ==> Current() == old(Current()).(projects := Recalculated(old(edited[..])))
      ensures edited.Length == 0 ==> Current() == old(Current())
    {
      if edited.Length > 0 {
        RecalcProjects(edited);
        projects := edited[..];
      }
    }

    /** Appends a default project numbered after the last one. */
    method AddProject()
      modifies this
      ensures Current() == old(Current()).(projects := old(projects) + [NewProject(|old(projects)|)])
    {
      var added := NewProject(|projects|);
      projects := projects + [added];
    }

    /** Drops the last project, if any. */
    method RemoveLastProject()
      modifies this
      ensures Current() == old(Current()).(projects := DropLast(old(projects)))
    {
      if |projects| > 0 {
        projects := projects[..|projects| - 1];
      }
    }

    /** Appends a blank team member. */
    method AddTeamMember()
      modifies this
      ensures Current() == old(Current()).(monitoringTeam := old(monitoringTeam) + [NewMember])
    {
      monitoringTeam := monitoringTeam + [NewMember];
    }

    /** Drops the last team member, if any. */
    method RemoveLastTeamMember()
      modifies this
      ensures Current() == old(Current()).(monitoringTeam := DropLast(old(monitoringTeam)))
    {
      if |monitoringTeam| > 0 {
        monitoringTeam := monitoringTeam[..|monitoringTeam| - 1];
      }
    }

    /** The snapshot written by autosave, stamped with the save time. */
    method Autosave(savedAt: string) returns (d: Snapshot)
      requires Valid()
      ensures d == Encode(Current(), savedAt)
      ensures Load(Current(), d).ok
    {
      d := Encode(Current(), savedAt);
      RoundTrip(Current(), savedAt, Current());
    }

    /**
     * Reads a saved draft into the session field by field. A missing required
     * key or a value of the wrong kind stops the reading with ok false, and the
     * fields already read keep their new values.
     */
    method LoadAutosave(draft: Snapshot) returns (ok: bool)
      modifies this
      ensures Loaded(Current(), ok) == Load(old(Current()), draft)
      ensures old(Valid()) ==> Valid()
    {
      ok := ReadHead(draft);
      if ok {
        ok := ReadSecond(draft);
      }
      if ok {
        ok := ReadMiddle(draft);
      }
      if ok {
        ok := ReadLast(draft);
      }
    }

    method ReadHead(draft: Snapshot) returns (ok: bool)
      modifies this
      ensures Loaded(Current(), ok) == LoadHead(old(Current()), draft)
    {
      ok := false;
      if !ProjectsAt(draft, "projects") { return; }
      projects := draft["projects"].projects;
      if !StrAt(draft, "institution_name") { return; }
      institutionName := draft["institution_name"].str;
      if !StrAt(draft, "location") { return; }
      location := draft["location"].str;
      ok := true;
    }

    method ReadSecond(draft: Snapshot) returns (ok: bool)
      modifies this
      ensures Loaded(Current(), ok) == LoadSecond(old(Current()), draft)
    {
      ok := false;
      if !StrAt(draft, "intervention_year") { return; }
      interventionYear := draft["intervention_year"].str;
      if !DateAt(draft, "inspection_date") { return; }
      inspectionDate := ParseIsoDate(draft["inspection_date"].str).value;
      if !BoolAt(draft, "bank_charges_added") { return; }
      bankChargesAdded := draft["bank_charges_added"].flag;
      ok := true;
    }

    method ReadMiddle(draft: Snapshot) returns (ok: bool)
      modifies this
      ensures Loaded(Current(), ok) == LoadMiddle(old(Current()), draft)
    {
      ok := false;
      if "bank_charges_amount" in draft {
        if !draft["bank_charges_amount"].Number? { return; }
        bankChargesAmount := draft["bank_charges_amount"].number;
      } else {
        bankChargesAmount := DefaultBankChargesAmount;
      }
      if !MembersAt(draft, "monitoring_team") { return; }
      monitoringTeam := draft["monitoring_team"].members;
      if !StrAt(draft, "approval_status") { return; }
      approvalStatus := draft["approval_status"].str;
      ok := true;
    }

    method ReadLast(draft: Snapshot) returns (ok: bool)
      modifies this
      ensures Loaded(Current(), ok) == LoadLast(old(Current()), draft)
    {
      ok := false;
      if !StrAt(draft, "dme_officer") { return; }
      dmeOfficer := draft["dme_officer"].str;
      if !StrAt(draft, "approval_comments") { return; }
      approvalComments := draft["approval_comments"].str;
      if "pdf_orientation" in draft {
        if !draft["pdf_orientation"].Str? { return; }
        pdfOrientation := draft["pdf_orientation"].str;
      } else {
        pdfOrientation := DefaultOrientation;
      }
      draftLoaded := if "saved_at" in draft then Some(draft["saved_at"]) else None;
      ok := true;
    }

    /** At startup a saved draft is read only when the session has not read one yet. */
    method RestoreOnStartup(fileExists: bool, draft: Snapshot) returns (loaded: bool, ok: bool)
      modifies this
      ensures loaded == LoadsAtStartup(old(Current()), fileExists)
      ensures loaded ==> Loaded(Current(), ok) == Load(old(Current()), draft)
      ensures !loaded ==> Current() == old(Current()) && !ok
      ensures old(Valid()) ==> Valid()
    {
      loaded := fileExists && (draftLoaded.None? || !Truthy(draftLoaded.value));
      ok := false;
      if loaded {
        ok := LoadAutosave(draft);
      }
    }

    /** The summary figures, with the charges amount added to each total when the rider is on. */
    method ComputeSummary() returns (s: Summary)
      requires AllMeasured(projects)
      ensures s == Summarize(projects, bankChargesAdded, bankChargesAmount)
    {
      var total := |projects|;
      var completed := CountCompleted(projects);
      var inProgress := total - completed;
      var rate := if total > 0 then completed as real / total as real * 100.0 else 0.0;
      var totalApproved := SumApproved(projects);
      var totalContract := SumContract(projects);
      var totalDisbursed := SumDisbursed(projects);
      if bankChargesAdded {
        var charges := bankChargesAmount;
        totalApproved := totalApproved + charges;
        totalContract := totalContract + charges;
        totalDisbursed := totalDisbursed + charges;
      }
      s := Summary(total, completed, inProgress, rate, totalApproved, totalContract, totalDisbursed,
                   totalContract - totalDisbursed);
    }

    /**
     * Prepares the printed report: refuses with the validation messages when
     * the name, the location or the projects are missing; otherwise lays out
     * the project list, with the rider row appended when the rider is on, the
     * team, the approval block and the summary of the session's own list.
     */
    method PrepareReport(approvalDate: Date) returns (r: Result<Report, seq<string>>)
      requires AllNumeric(projects) && Valid() && ValidDate(approvalDate)
      ensures r.Err? <==> ValidationErrors(institutionName, location, projects) != []
      ensures r.Err? ==> r.error == ValidationErrors(institutionName, location, projects)
      ensures r.Ok? ==> r.value.pageSize == PageSize(pdfOrientation)
      ensures r.Ok? ==> r.value.header == [institutionName, location, DayMonthYear(inspectionDate), interventionYear]
      ensures r.Ok? ==> r.value.approval == [approvalStatus, dmeOfficer, DayMonthYear(approvalDate), CommentsOrDefault(approvalComments)]
      ensures r.Ok? ==> r.value.summary == SummaryTexts(Summarize(projects, bankChargesAdded, bankChargesAmount))
      ensures r.Ok? ==> var rows := PdfProjects(projects, bankChargesAdded, bankChargesAmount);
                        |r.value.projectRows| == |rows| &&
                        forall i :: 0 <= i < |rows| ==> r.value.projectRows[i] == ProjectRowCells(i + 1, rows[i])
      ensures r.Ok? ==> |r.value.teamRows| == |monitoringTeam| &&
                        forall i :: 0 <= i < |monitoringTeam| ==> r.value.teamRows[i] == TeamRowCells(i + 1, monitoringTeam[i])
    {
      var errors := ValidationErrors(institutionName, location, projects);
      if errors != [] {
        return Err(errors);
      }
      var summary := ComputeSummary();
      var info := InstitutionInfo(institutionName, location, interventionYear, DayMonthYear(inspectionDate));
      var approval := ApprovalInfo(approvalStatus, dmeOfficer, DayMonthYear(approvalDate), CommentsOrDefault(approvalComments));
      var pdfProjects := PdfProjects(projects, bankChargesAdded, bankChargesAmount);
      var report := CreateReport(pdfProjects, info, monitoringTeam, approval, summary, pdfOrientation);
      r := Ok(report);
    }
  }
}
