/**
 * The draft snapshot: the working state copied into one flat key-value record
 * and read back from it. Only the record is modelled; writing it to a file
 * and reading the file are not.
 */
module Draft {
  import opened Wrappers
  import opened Records
  import opened Dates

  /** A value stored under one key of the snapshot. */
  datatype Value =
    | Projects(projects: seq<Project>)
    | Members(members: seq<TeamMember>)
    | Str(str: string)
    | Bool(flag: bool)
    | Number(number: real)

  type Snapshot = map<string, Value>

  /** The working state of one session. */
  datatype State = State(
    projects: seq<Project>,
    institutionName: string,
    location: string,
    interventionYear: string,
    inspectionDate: Date,
    bankChargesAdded: bool,
    bankChargesAmount: real,
    monitoringTeam: seq<TeamMember>,
    approvalStatus: string,
    dmeOfficer: string,
    approvalComments: string,
    pdfOrientation: string,
    draftLoaded: Option<Value>)

  /** The state a new session starts from; the current year and date are parameters. */
  function InitialState(thisYear: string, today: Date): (s: State)
    ensures |s.projects| == 1 && s.projects[0] == DefaultProject
    ensures s.bankChargesAmount == DefaultBankChargesAmount && !s.bankChargesAdded
    ensures s.pdfOrientation == DefaultOrientation && s.draftLoaded == None
  {
    State([DefaultProject], "", "", thisYear, today, false, DefaultBankChargesAmount,
          DefaultMonitoringTeam, "Pending", "", "", DefaultOrientation, None)
  }

  /** The keys a snapshot must hold: reading it fails when one is absent. */
  const RequiredKeys: set<string> := {
    "projects", "institution_name", "location", "intervention_year", "inspection_date",
    "bank_charges_added", "monitoring_team", "approval_status", "dme_officer", "approval_comments"}

  /** The keys a snapshot may lack. */
  const OptionalKeys: set<string> := {"bank_charges_amount", "pdf_orientation", "saved_at"}

  /** Whether key is present and holds a value of the kind read for it. */
  predicate ProjectsAt(d: Snapshot, key: string) { key in d && d[key].Projects? }
  predicate MembersAt(d: Snapshot, key: string) { key in d && d[key].Members? }
  predicate DateAt(d: Snapshot, key: string) { key in d && d[key].Str? && ParseIsoDate(d[key].str).Some? }
  predicate BoolAt(d: Snapshot, key: string) { key in d && d[key].Bool? }
  predicate StrAt(d: Snapshot, key: string) { key in d && d[key].Str? }

  /** The snapshot of a state, stamped with the save time. */
  function Encode(s: State, savedAt: string): (d: Snapshot)
    requires ValidDate(s.inspectionDate)
    ensures Readable(d)
  {
    IsoDateRoundTrip(s.inspectionDate);
    map[
      "projects" := Projects(s.projects),
      "institution_name" := Str(s.institutionName),
      "location" := Str(s.location),
      "intervention_year" := Str(s.interventionYear),
      "inspection_date" := Str(IsoDate(s.inspectionDate)),
      "bank_charges_added" := Bool(s.bankChargesAdded),
      "bank_charges_amount" := Number(s.bankChargesAmount),
      "monitoring_team" := Members(s.monitoringTeam),
      "approval_status" := Str(s.approvalStatus),
      "dme_officer" := Str(s.dmeOfficer),
      "approval_comments" := Str(s.approvalComments),
      "pdf_orientation" := Str(s.pdfOrientation),
      "saved_at" := Str(savedAt)]
  }

  /** A snapshot holds exactly the required and the optional keys. */
  lemma EncodeKeys(s: State, savedAt: string)
    requires ValidDate(s.inspectionDate)
    ensures Encode(s, savedAt).Keys == RequiredKeys + OptionalKeys
  {
  }

  /** The outcome of reading a snapshot into a state: the state reached and whether every read succeeded. */
  datatype Loaded = Loaded(state: State, ok: bool)

  /**
   * Reads the snapshot into s one key after another, in a fixed order. The
   * charges amount and the orientation fall back to their defaults when absent
   * and the save time to None; any other absent key, or a value of the wrong
   * kind, stops the reading, and the keys read before it stay assigned.
   */
  function Load(s: State, d: Snapshot): (r: Loaded)
    ensures ValidDate(s.inspectionDate) ==> ValidDate(r.state.inspectionDate)
    ensures "projects" !in d ==> r == Loaded(s, false)  // fails before anything changes
  {
    var head := LoadHead(s, d);
    if !head.ok then head else
    var second := LoadSecond(head.state, d);
    if !second.ok then second else
    var middle := LoadMiddle(second.state, d);
    if !middle.ok then middle else LoadLast(middle.state, d)
  }

  /** The first three reads: the projects, the institution's name and its location. */
  function LoadHead(s: State, d: Snapshot): Loaded
  {
    if !ProjectsAt(d, "projects") then Loaded(s, false) else
    var s1 := s.(projects := d["projects"].projects);
    if !StrAt(d, "institution_name") then Loaded(s1, false) else
    var s2 := s1.(institutionName := d["institution_name"].str);
    if !StrAt(d, "location") then Loaded(s2, false) else
    Loaded(s2.(location := d["location"].str), true)
  }

  /** The next three reads: the year, the inspection date and the rider switch. */
  function LoadSecond(s3: State, d: Snapshot): Loaded
  {
    if !StrAt(d, "intervention_year") then Loaded(s3, false) else
    var s4 := s3.(interventionYear := d["intervention_year"].str);
    if !DateAt(d, "inspection_date") then Loaded(s4, false) else
    var s5 := s4.(inspectionDate := ParseIsoDate(d["inspection_date"].str).value);
    if !BoolAt(d, "bank_charges_added") then Loaded(s5, false) else
    Loaded(s5.(bankChargesAdded := d["bank_charges_added"].flag), true)
  }

  /** The next three reads: the charges amount, with its default, up to the approval status. */
  function LoadMiddle(s: State, d: Snapshot): Loaded
  {
    if "bank_charges_amount" in d && !d["bank_charges_amount"].Number? then Loaded(s, false) else
    var s7 := s.(bankChargesAmount :=
      if "bank_charges_amount" in d then d["bank_charges_amount"].number else DefaultBankChargesAmount);
    if !MembersAt(d, "monitoring_team") then Loaded(s7, false) else
    var s8 := s7.(monitoringTeam := d["monitoring_team"].members);
    if !StrAt(d, "approval_status") then Loaded(s8, false) else
    Loaded(s8.(approvalStatus := d["approval_status"].str), true)
  }

  /** The last reads: the officer up to the orientation, with its default, and the save time. */
  function LoadLast(s: State, d: Snapshot): Loaded
  {
    if !StrAt(d, "dme_officer") then Loaded(s, false) else
    var s10 := s.(dmeOfficer := d["dme_officer"].str);
    if !StrAt(d, "approval_comments") then Loaded(s10, false) else
    var s11 := s10.(approvalComments := d["approval_comments"].str);
    if "pdf_orientation" in d && !d["pdf_orientation"].Str? then Loaded(s11, false) else
    var s12 := s11.(pdfOrientation := if "pdf_orientation" in d then d["pdf_orientation"].str else DefaultOrientation);
    Loaded(s12.(draftLoaded := if "saved_at" in d then Some(d["saved_at"]) else None), true)
  }

  /** A snapshot every key of which can be read. */
  predicate Readable(d: Snapshot)
  {
    && ProjectsAt(d, "projects") && StrAt(d, "institution_name") && StrAt(d, "location")
    && StrAt(d, "intervention_year") && DateAt(d, "inspection_date") && BoolAt(d, "bank_charges_added")
    && MembersAt(d, "monitoring_team") && StrAt(d, "approval_status") && StrAt(d, "dme_officer")
    && StrAt(d, "approval_comments")
    && ("bank_charges_amount" in d ==> d["bank_charges_amount"].Number?)
    && ("pdf_orientation" in d ==> d["pdf_orientation"].Str?)
  }

  /** The state a readable snapshot describes, the two optional fields taking their defaults when absent. */
  function Decoded(d: Snapshot): State
    requires Readable(d)
  {
    State(
      d["projects"].projects, d["institution_name"].str, d["location"].str, d["intervention_year"].str,
      ParseIsoDate(d["inspection_date"].str).value, d["bank_charges_added"].flag,
      if "bank_charges_amount" in d then d["bank_charges_amount"].number else DefaultBankChargesAmount,
      d["monitoring_team"].members, d["approval_status"].str, d["dme_officer"].str, d["approval_comments"].str,
      if "pdf_orientation" in d then d["pdf_orientation"].str else DefaultOrientation,
      if "saved_at" in d then Some(d["saved_at"]) else None)
  }

  /** Reading succeeds exactly on the snapshots that hold every required key, each key with a value of its kind. */
  lemma LoadSucceedsIff(s: State, d: Snapshot)
    ensures Load(s, d).ok <==> Readable(d)
  {
  }

  /** A successful read overwrites every field with what the snapshot describes. */
  lemma LoadReadable(s: State, d: Snapshot)
    requires Readable(d)
    ensures Load(s, d) == Loaded(Decoded(d), true)
  {
  }

  /** A successful read overwrites every field, so the state before it does not matter. */
  lemma LoadForgetsPriorState(s1: State, s2: State, d: Snapshot)
    requires Load(s1, d).ok
    ensures Load(s2, d) == Load(s1, d)
  {
    LoadSucceedsIff(s1, d);
    LoadReadable(s1, d);
    LoadReadable(s2, d);
  }

  /** Reading a snapshot back restores the state it was made from and records its save time. */
  lemma RoundTrip(s: State, savedAt: string, prior: State)
    requires ValidDate(s.inspectionDate)
    ensures Load(prior, Encode(s, savedAt)) == Loaded(s.(draftLoaded := Some(Str(savedAt))), true)
  {
    var d := Encode(s, savedAt);
    IsoDateRoundTrip(s.inspectionDate);
    LoadReadable(prior, d);
    DecodedEncode(s, savedAt);
  }

  lemma DecodedEncode(s: State, savedAt: string)
    requires ValidDate(s.inspectionDate)
    ensures Decoded(Encode(s, savedAt)) == s.(draftLoaded := Some(Str(savedAt)))
  {
    var d := Encode(s, savedAt);
    IsoDateRoundTrip(s.inspectionDate);
    assert d["inspection_date"] == Str(IsoDate(s.inspectionDate));
  }

  /** Dropping an optional key from a readable snapshot leaves it readable and changes only that key's field. */
  lemma DecodedWithout(d: Snapshot, key: string)
    requires Readable(d) && (key == "bank_charges_amount" || key == "pdf_orientation")
    ensures Readable(d - {key})
    ensures key == "bank_charges_amount" ==> Decoded(d - {key}) == Decoded(d).(bankChargesAmount := DefaultBankChargesAmount)
    ensures key == "pdf_orientation" ==> Decoded(d - {key}) == Decoded(d).(pdfOrientation := DefaultOrientation)
  {
  }

  /** A snapshot without the charges amount reads as the default amount. */
  lemma MissingAmountDefaults(s: State, savedAt: string, prior: State)
    requires ValidDate(s.inspectionDate)
    ensures Load(prior, Encode(s, savedAt) - {"bank_charges_amount"})
         == Loaded(s.(bankChargesAmount := DefaultBankChargesAmount, draftLoaded := Some(Str(savedAt))), true)
  {
    var d := Encode(s, savedAt);
    RoundTrip(s, savedAt, prior);
    LoadReadable(prior, d);
    DecodedWithout(d, "bank_charges_amount");
    LoadReadable(prior, d - {"bank_charges_amount"});
  }

  /** A snapshot without the orientation reads as landscape. */
  lemma MissingOrientationDefaults(s: State, savedAt: string, prior: State)
    requires ValidDate(s.inspectionDate)
    ensures Load(prior, Encode(s, savedAt) - {"pdf_orientation"})
         == Loaded(s.(pdfOrientation := DefaultOrientation, draftLoaded := Some(Str(savedAt))), true)
  {
    var d := Encode(s, savedAt);
    RoundTrip(s, savedAt, prior);
    LoadReadable(prior, d);
    DecodedWithout(d, "pdf_orientation");
    LoadReadable(prior, d - {"pdf_orientation"});
  }

  /** A snapshot lacking any other key cannot be read. */
  lemma MissingRequiredKeyFails(s: State, savedAt: string, prior: State, key: string)
    requires ValidDate(s.inspectionDate)
    requires key in RequiredKeys
    ensures !Load(prior, Encode(s, savedAt) - {key}).ok
  {
    IsoDateRoundTrip(s.inspectionDate);
    LoadSucceedsIff(prior, Encode(s, savedAt) - {key});
  }

  /**
   * A reading that stops midway keeps what it read before: with the project
   * list present and the name absent, the projects are replaced and ok is false.
   */
  lemma StoppedReadKeepsEarlierFields(s: State, d: Snapshot)
    requires ProjectsAt(d, "projects") && "institution_name" !in d
    ensures Load(s, d) == Loaded(s.(projects := d["projects"].projects), false)
  {
  }

  /** Python truthiness of a stored value: empty texts and lists, false and zero are false. */
  predicate Truthy(v: Value)
  {
    match v
    case Projects(ps) => |ps| > 0
    case Members(ms) => |ms| > 0
    case Str(t) => |t| > 0
    case Bool(b) => b
    case Number(x) => x != 0.0
  }

  /** Whether a session that finds a saved draft at startup reads it: only when no draft has been read yet. */
  predicate LoadsAtStartup(s: State, fileExists: bool)
  {
    fileExists && (s.draftLoaded.None? || !Truthy(s.draftLoaded.value))
  }

  /** Once a draft stamped with a save time is read, a later startup does not read the draft again. */
  lemma StartupLoadsOnce(s: State, d: Snapshot)
    requires Load(s, d).ok && "saved_at" in d && Truthy(d["saved_at"])
    ensures !LoadsAtStartup(Load(s, d).state, true)
  {
  }

  /** A fresh session finding a draft reads it. */
  lemma FreshSessionLoads(thisYear: string, today: Date)
    ensures LoadsAtStartup(InitialState(thisYear, today), true)
  {
  }
}
