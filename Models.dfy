/**
 * The rules that live on the data models of the LMS: the admin permission
 * flags with their role presets, user names and login ids, the verdict of a
 * password-reset token, the date windows of grading scales and assessment
 * schemes, and per-type notification switches.
 *
 * Times are whole seconds and dates whole day numbers; the current time or
 * day is always passed in.
 */
module Models {

  import opened Wrappers
  import opened Strings

  // ===========================================================================
  // Admin permissions
  // ===========================================================================

  /** The eleven permission columns of an admin. */
  datatype Permission =
    | ViewFinances | EditFinances | ApprovePayments | ManageFees
    | ViewAcademics | EditAcademics
    | ViewAdmissions | EditAdmissions
    | ManageUsers | ViewReports | ExportData

  /** The column name by which a permission is asked for. */
  function PermissionName(p: Permission): string
  {
    match p
    case ViewFinances => "can_view_finances"
    case EditFinances => "can_edit_finances"
    case ApprovePayments => "can_approve_payments"
    case ManageFees => "can_manage_fees"
    case ViewAcademics => "can_view_academics"
    case EditAcademics => "can_edit_academics"
    case ViewAdmissions => "can_view_admissions"
    case EditAdmissions => "can_edit_admissions"
    case ManageUsers => "can_manage_users"
    case ViewReports => "can_view_reports"
    case ExportData => "can_export_data"
  }

  /** The permission a column name denotes, if any (the attribute lookup of `getattr`). */
  function PermissionNamed(name: string): (r: Option<Permission>)
    ensures r.Some? ==> PermissionName(r.value) == name
    ensures r.None? ==> forall p :: PermissionName(p) != name
  {
    if name == "can_view_finances" then Some(ViewFinances)
    else if name == "can_edit_finances" then Some(EditFinances)
    else if name == "can_approve_payments" then Some(ApprovePayments)
    else if name == "can_manage_fees" then Some(ManageFees)
    else if name == "can_view_academics" then Some(ViewAcademics)
    else if name == "can_edit_academics" then Some(EditAcademics)
    else if name == "can_view_admissions" then Some(ViewAdmissions)
    else if name == "can_edit_admissions" then Some(EditAdmissions)
    else if name == "can_manage_users" then Some(ManageUsers)
    else if name == "can_view_reports" then Some(ViewReports)
    else if name == "can_export_data" then Some(ExportData)
    else None
  }

  /** Every permission is found again under its own name, so names are distinct. */
  lemma PermissionNameRoundTrip(p: Permission)
    ensures PermissionNamed(PermissionName(p)) == Some(p)
  {
  }

  /** The flags each role preset switches on; every other flag is switched off. */
  const FinanceAdminPreset: set<Permission> :=
    {ViewFinances, EditFinances, ApprovePayments, ManageFees, ViewReports, ExportData}
  const AcademicAdminPreset: set<Permission> :=
    {ViewAcademics, EditAcademics, ViewReports, ExportData}
  const AdmissionsAdminPreset: set<Permission> :=
    {ViewAdmissions, EditAdmissions, ViewAcademics, ViewReports, ExportData}

  /** Every permission column. */
  const AllPermissions: set<Permission> := {
    ViewFinances, EditFinances, ApprovePayments, ManageFees,
    ViewAcademics, EditAcademics, ViewAdmissions, EditAdmissions,
    ManageUsers, ViewReports, ExportData}

  /** The dashboard sections an admin may be shown. */
  datatype Section = Finances | Academics | Admissions | Users | Reports

  /** The name under which a section is listed. */
  function SectionName(s: Section): string
  {
    match s
    case Finances => "finances"
    case Academics => "academics"
    case Admissions => "admissions"
    case Users => "users"
    case Reports => "reports"
  }

  /** All sections, in the order they are listed. */
  const AllSections: seq<Section> := [Finances, Academics, Admissions, Users, Reports]

  /** Position of a section in `AllSections`. */
  function SectionRank(s: Section): (r: nat)
    ensures r < |AllSections| && AllSections[r] == s
  {
    match s
    case Finances => 0
    case Academics => 1
    case Admissions => 2
    case Users => 3
    case Reports => 4
  }

  /** The permission that opens a section. */
  function SectionPermission(s: Section): Permission
  {
    match s
    case Finances => ViewFinances
    case Academics => ViewAcademics
    case Admissions => ViewAdmissions
    case Users => ManageUsers
    case Reports => ViewReports
  }

  /** Section names are distinct, so a list of sections and the list of their names agree on repeats. */
  lemma SectionNamesDistinct(s: Section, t: Section)
    requires s != t
    ensures SectionName(s) != SectionName(t)
  {
  }

  class Admin {
    var publicId: string
    var isSuperadmin: bool
    var canViewFinances: bool
    var canEditFinances: bool
    var canApprovePayments: bool
    var canManageFees: bool
    var canViewAcademics: bool
    var canEditAcademics: bool
    var canViewAdmissions: bool
    var canEditAdmissions: bool
    var canManageUsers: bool
    var canViewReports: bool
    var canExportData: bool

    /** A new admin: every flag takes its column default, False. */
    constructor (publicId: string)
      ensures this.publicId == publicId && !isSuperadmin
      ensures HasExactly({})
    {
      this.publicId := publicId;
      isSuperadmin := false;
      canViewFinances, canEditFinances, canApprovePayments, canManageFees := false, false, false, false;
      canViewAcademics, canEditAcademics := false, false;
      canViewAdmissions, canEditAdmissions := false, false;
      canManageUsers, canViewReports, canExportData := false, false, false;
    }

    /** The stored value of one permission column. */
    function Flag(p: Permission): bool
      reads this
    {
      match p
      case ViewFinances => canViewFinances
      case EditFinances => canEditFinances
      case ApprovePayments => canApprovePayments
      case ManageFees => canManageFees
      case ViewAcademics => canViewAcademics
      case EditAcademics => canEditAcademics
      case ViewAdmissions => canViewAdmissions
      case EditAdmissions => canEditAdmissions
      case ManageUsers => canManageUsers
      case ViewReports => canViewReports
      case ExportData => canExportData
    }

    /** The permission columns that are set are exactly `granted`, column by column. */
    predicate HasExactly(granted: set<Permission>)
      reads this
    {
      && canViewFinances == (ViewFinances in granted) && canEditFinances == (EditFinances in granted)
      && canApprovePayments == (ApprovePayments in granted) && canManageFees == (ManageFees in granted)
      && canViewAcademics == (ViewAcademics in granted) && canEditAcademics == (EditAcademics in granted)
      && canViewAdmissions == (ViewAdmissions in granted) && canEditAdmissions == (EditAdmissions in granted)
      && canManageUsers == (ManageUsers in granted) && canViewReports == (ViewReports in granted)
      && canExportData == (ExportData in granted)
    }

    /** Column by column is permission by permission: a flag is set exactly when its permission is granted. */
    lemma HasExactlyFlags(granted: set<Permission>)
      requires HasExactly(granted)
      ensures forall p :: Flag(p) <==> p in granted
    {
      forall p ensures Flag(p) <==> p in granted {
        match p
        case ViewFinances =>
        case EditFinances =>
        case ApprovePayments =>
        case ManageFees =>
        case ViewAcademics =>
        case EditAcademics =>
        case ViewAdmissions =>
        case EditAdmissions =>
        case ManageUsers =>
        case ViewReports =>
        case ExportData =>
      }
    }

    /** Flask-Login's id of an admin. */
    function GetId(): (r: string)
      reads this
      ensures |r| == 6 + |publicId| && r[..6] == "admin:" && r[6..] == publicId
    {
      "admin:" + publicId
    }

    /** A superadmin holds every name; otherwise exactly the set flags, and no unknown name. */
    function HasPermission(name: string): (r: bool)
      reads this
      ensures isSuperadmin ==> r
      ensures !isSuperadmin ==> (r <==> exists p :: PermissionName(p) == name && Flag(p))
    {
      if isSuperadmin then true
      else
        match PermissionNamed(name)
        case Some(p) => Flag(p)
        case None => false
    }

    /** Python's `any(...)` over `HasPermission`, short-cut for a superadmin. */
    function HasAnyPermission(names: seq<string>): (r: bool)
      reads this
      ensures isSuperadmin ==> r
      ensures !isSuperadmin ==> (r <==> exists i :: 0 <= i < |names| && HasPermission(names[i]))
    {
      if isSuperadmin then true
      else if names == [] then false
      else HasPermission(names[0]) || HasAnyPermission(names[1..])
    }

    /** Python's `all(...)` over `HasPermission`, short-cut for a superadmin. */
    function HasAllPermissions(names: seq<string>): (r: bool)
      reads this
      ensures isSuperadmin ==> r
      ensures !isSuperadmin ==> (r <==> forall i :: 0 <= i < |names| ==> HasPermission(names[i]))
    {
      if isSuperadmin then true
      else if names == [] then true
      else HasPermission(names[0]) && HasAllPermissions(names[1..])
    }

    /** Whether the admin may open `section`. */
    predicate GrantsSection(section: Section)
      reads this
    {
      isSuperadmin || Flag(SectionPermission(section))
    }

    /** The granted sections among the first `k` of `AllSections`, in that order. */
    function GrantedAmong(k: nat): seq<Section>
      requires k <= |AllSections|
      reads this
    {
      if k == 0 then []
      else GrantedAmong(k - 1) + (if GrantsSection(AllSections[k - 1]) then [AllSections[k - 1]] else [])
    }

    /** `GrantedAmong(k)` holds exactly the granted sections of rank below `k`, in rank order. */
    lemma {:induction false} GrantedAmongMeaning(k: nat)
      requires k <= |AllSections|
      ensures forall s :: s in GrantedAmong(k) <==> GrantsSection(s) && SectionRank(s) < k
      ensures forall i, j :: 0 <= i < j < |GrantedAmong(k)| ==>
        SectionRank(GrantedAmong(k)[i]) < SectionRank(GrantedAmong(k)[j])
    {
      if k > 0 {
        GrantedAmongMeaning(k - 1);
        var prev := GrantedAmong(k - 1);
        var next := AllSections[k - 1];
        assert SectionRank(next) == k - 1;
        if GrantsSection(next) {
          assert GrantedAmong(k) == prev + [next];
          forall i, j | 0 <= i < j < |prev| + 1
            ensures SectionRank((prev + [next])[i]) < SectionRank((prev + [next])[j])
          {
            if j == |prev| { assert prev[i] in prev; }
          }
        } else {
          assert GrantedAmong(k) == prev;
        }
      }
    }

    /** A superadmin is granted every section, in order. */
    lemma SuperadminGrantedAll()
      requires isSuperadmin
      ensures GrantedAmong(|AllSections|) == AllSections
    {
      assert GrantedAmong(1) == [Finances];
      assert GrantedAmong(3) == [Finances, Academics, Admissions];
    }

    /**
     * The sections the admin may open: exactly the granted ones, without
     * repeats, in the order of `AllSections`; all five for a superadmin.
     */
    method GetAccessibleSections() returns (sections: seq<Section>)
      ensures sections == GrantedAmong(|AllSections|)
      ensures forall s :: s in sections <==> GrantsSection(s)
      ensures forall i, j :: 0 <= i < j < |sections| ==> SectionRank(sections[i]) < SectionRank(sections[j])
      ensures isSuperadmin ==> sections == AllSections
    {
      sections := [];
      if isSuperadmin || canViewFinances {
        sections := sections + [Finances];
      }
      assert sections == GrantedAmong(1);
      if isSuperadmin || canViewAcademics {
        sections := sections + [Academics];
      }
      assert sections == GrantedAmong(2);
      if isSuperadmin || canViewAdmissions {
        sections := sections + [Admissions];
      }
      assert sections == GrantedAmong(3);
      if isSuperadmin || canManageUsers {
        sections := sections + [Users];
      }
      assert sections == GrantedAmong(4);
      if isSuperadmin || canViewReports {
        sections := sections + [Reports];
      }
      assert sections == GrantedAmong(5);
      GrantedAmongMeaning(5);
      if isSuperadmin {
        SuperadminGrantedAll();
      }
    }

    /** Finance admin: the six finance/report flags on, the rest off; the superadmin flag and public id are outside the frame. */
    method ApplyFinanceAdminPreset()
      modifies this`canViewFinances, this`canEditFinances, this`canApprovePayments, this`canManageFees
      modifies this`canViewAcademics, this`canEditAcademics, this`canViewAdmissions, this`canEditAdmissions
      modifies this`canManageUsers, this`canViewReports, this`canExportData
      ensures HasExactly(FinanceAdminPreset)
    {
      canViewFinances := true;
      canEditFinances := true;
      canApprovePayments := true;
      canManageFees := true;
      canViewReports := true;
      canExportData := true;
      canViewAcademics := false;
      canEditAcademics := false;
      canViewAdmissions := false;
      canEditAdmissions := false;
      canManageUsers := false;
    }

    /** Academic admin: academics, reports and export on, the rest off; the superadmin flag and public id are outside the frame. */
    method ApplyAcademicAdminPreset()
      modifies this`canViewFinances, this`canEditFinances, this`canApprovePayments, this`canManageFees
      modifies this`canViewAcademics, this`canEditAcademics, this`canViewAdmissions, this`canEditAdmissions
      modifies this`canManageUsers, this`canViewReports, this`canExportData
      ensures HasExactly(AcademicAdminPreset)
    {
      canViewAcademics := true;
      canEditAcademics := true;
      canViewReports := true;
      canExportData := true;
      canViewFinances := false;
      canEditFinances := false;
      canApprovePayments := false;
      canManageFees := false;
      canViewAdmissions := false;
      canEditAdmissions := false;
      canManageUsers := false;
    }

    /** Admissions admin: admissions, read-only academics, reports and export on; the superadmin flag and public id are outside the frame. */
    method ApplyAdmissionsAdminPreset()
      modifies this`canViewFinances, this`canEditFinances, this`canApprovePayments, this`canManageFees
      modifies this`canViewAcademics, this`canEditAcademics, this`canViewAdmissions, this`canEditAdmissions
      modifies this`canManageUsers, this`canViewReports, this`canExportData
      ensures HasExactly(AdmissionsAdminPreset)
    {
      canViewAdmissions := true;
      canEditAdmissions := true;
      canViewAcademics := true;
      canViewReports := true;
      canExportData := true;
      canViewFinances := false;
      canEditFinances := false;
      canApprovePayments := false;
      canManageFees := false;
      canEditAcademics := false;
      canManageUsers := false;
    }

    /** Superadmin: the superadmin flag and all eleven permission flags on. */
    method ApplySuperadminPreset()
      modifies this`isSuperadmin
      modifies this`canViewFinances, this`canEditFinances, this`canApprovePayments, this`canManageFees
      modifies this`canViewAcademics, this`canEditAcademics, this`canViewAdmissions, this`canEditAdmissions
      modifies this`canManageUsers, this`canViewReports, this`canExportData
      ensures isSuperadmin && HasExactly(AllPermissions)
    {
      isSuperadmin := true;
      canViewFinances := true;
      canEditFinances := true;
      canApprovePayments := true;
      canManageFees := true;
      canViewAcademics := true;
      canEditAcademics := true;
      canViewAdmissions := true;
      canEditAdmissions := true;
      canManageUsers := true;
      canViewReports := true;
      canExportData := true;
    }
  }

  /** After a role preset, an ordinary admin holds exactly the names of the preset's flags. */
  lemma PresetPermissions(a: Admin, granted: set<Permission>, name: string)
    requires !a.isSuperadmin && a.HasExactly(granted)
    ensures a.HasPermission(name) <==> PermissionNamed(name).Some? && PermissionNamed(name).value in granted
  {
    a.HasExactlyFlags(granted);
    if PermissionNamed(name).Some? {
      PermissionNameRoundTrip(PermissionNamed(name).value);
    }
  }

  /** An ordinary admin holds every name of an empty list and none of it. */
  lemma EmptyPermissionLists(a: Admin)
    requires !a.isSuperadmin
    ensures !a.HasAnyPermission([]) && a.HasAllPermissions([])
  {
  }

  /** Holding all of a non-empty list implies holding one of it. */
  lemma {:induction false} AllImpliesAny(a: Admin, names: seq<string>)
    requires |names| > 0 && a.HasAllPermissions(names)
    ensures a.HasAnyPermission(names)
  {
    if !a.isSuperadmin {
      assert a.HasPermission(names[0]);
    }
  }

  // ===========================================================================
  // User
  // ===========================================================================

  datatype StudentProfile = StudentProfile(
    currentProgramme: Option<string>,
    programmeLevel: Option<int>,
    indexNumber: Option<string>)

  /** The levels a tertiary programme has. */
  const ProgrammeLevels: set<int> := {100, 200, 300, 400}

  datatype User = User(
    publicId: string,
    firstName: string,
    middleName: Option<string>,
    lastName: string,
    studentProfile: Option<StudentProfile>)
  {
    /** Flask-Login's id of a user. */
    function GetId(): (r: string)
      ensures |r| == 5 + |publicId| && r[..5] == "user:" && r[5..] == publicId
    {
      "user:" + publicId
    }

    /** The names that make up the full name; the middle name only when it is non-empty. */
    function NameParts(): (r: seq<string>)
      ensures 2 <= |r| <= 3 && r[0] == firstName && r[|r| - 1] == lastName
      ensures |r| == 3 <==> Truthy(middleName)
      ensures |r| == 3 ==> r[1] == middleName.value
    {
      [firstName] + (if Truthy(middleName) then [middleName.value] else []) + [lastName]
    }

    /** First name, then a non-empty middle name, then last name, joined by single spaces. */
    function FullName(): (r: string)
      ensures r == firstName + " " + (if Truthy(middleName) then middleName.value + " " else "") + lastName
    {
      var parts := NameParts();
      if |parts| == 3 then
        assert parts[1..][1..] == [parts[2]];
        assert Join(parts[1..], ' ') == parts[1] + [' '] + parts[2];
        Join(parts, ' ')
      else
        assert Join(parts, ' ') == parts[0] + [' '] + parts[1];
        Join(parts, ' ')
    }

    /** A programme name and one of the four levels on an existing profile. */
    function ProgrammeInfoComplete(): (r: bool)
      ensures r <==>
        studentProfile.Some?
        && Truthy(studentProfile.value.currentProgramme)
        && studentProfile.value.programmeLevel.Some?
        && studentProfile.value.programmeLevel.value in ProgrammeLevels
    {
      studentProfile.Some?
      && Truthy(studentProfile.value.currentProgramme)
      && studentProfile.value.programmeLevel.Some?
      && studentProfile.value.programmeLevel.value != 0
      && studentProfile.value.programmeLevel.value in [100, 200, 300, 400]
    }

    /** `ProgrammeInfoComplete` and a non-empty index number; it implies programme info is complete. */
    function RegistrationInfoComplete(): (r: bool)
      ensures r ==> ProgrammeInfoComplete() && studentProfile.Some?
      ensures r <==> ProgrammeInfoComplete() && Truthy(studentProfile.value.indexNumber)
    {
      ProgrammeInfoComplete() && Truthy(studentProfile.value.indexNumber)
    }
  }

  /** The full name starts with the first name and ends with the last name. */
  lemma FullNameShape(u: User)
    ensures |u.FullName()| == |u.firstName| + |u.lastName| + 1
                              + (if Truthy(u.middleName) then |u.middleName.value| + 1 else 0)
    ensures u.FullName()[..|u.firstName|] == u.firstName
    ensures u.FullName()[|u.FullName()| - |u.lastName|..] == u.lastName
  {
  }

  /** When no name holds a space, splitting the full name on spaces gives the names back. */
  lemma FullNameSplits(u: User)
    requires ' ' !in u.firstName && ' ' !in u.lastName
    requires u.middleName.Some? ==> ' ' !in u.middleName.value
    ensures Split(u.FullName(), ' ') == u.NameParts()
  {
    SplitJoin(u.NameParts(), ' ');
  }

  // ===========================================================================
  // Password reset tokens
  // ===========================================================================

  /** A stored reset token; `tokenHash` is the digest of the raw token, compared as an opaque string. */
  datatype ResetToken = ResetToken(userId: string, tokenHash: string, expiresAt: int, used: bool)

  /** The first stored token whose hash matches, the row `first()` returns. */
  function FindToken(tokens: seq<ResetToken>, tokenHash: string): (r: Option<ResetToken>)
    ensures r.None? <==> forall k :: 0 <= k < |tokens| ==> tokens[k].tokenHash != tokenHash
    ensures r.Some? ==> r.value in tokens && r.value.tokenHash == tokenHash
    ensures forall k :: 0 <= k < |tokens| && tokens[k].tokenHash == tokenHash ==>
      (forall m :: 0 <= m < k ==> tokens[m].tokenHash != tokenHash) ==> r == Some(tokens[k])
  {
    if tokens == [] then None
    else if tokens[0].tokenHash == tokenHash then Some(tokens[0])
    else
      var r := FindToken(tokens[1..], tokenHash);
      assert forall k :: 1 <= k < |tokens| ==> tokens[k] == tokens[1..][k - 1];
      r
  }

  /**
   * Verifying a raw token whose digest is `tokenHash`: the token and 'ok',
   * or no token and the first failing check among 'invalid', 'used', 'expired'.
   */
  function VerifyToken(tokens: seq<ResetToken>, tokenHash: string, now: int): (r: (Option<ResetToken>, string))
    ensures r.0.Some? <==> r.1 == "ok"
    ensures r.1 in {"invalid", "used", "expired", "ok"}
    ensures r.1 == "invalid" <==> FindToken(tokens, tokenHash).None?
    ensures r.1 == "ok" ==>
      r.0 == FindToken(tokens, tokenHash) && !r.0.value.used && now <= r.0.value.expiresAt
  {
    var token := FindToken(tokens, tokenHash);
    if token.None? then (None, "invalid")
    else if token.value.used then (None, "used")
    else if token.value.expiresAt < now then (None, "expired")
    else (token, "ok")
  }

  /** The checks run in order: a used token reports 'used' even when it has also expired. */
  lemma VerifyOrder(tokens: seq<ResetToken>, tokenHash: string, now: int)
    requires FindToken(tokens, tokenHash).Some?
    ensures var t := FindToken(tokens, tokenHash).value;
      VerifyToken(tokens, tokenHash, now).1 ==
        if t.used then "used" else if t.expiresAt < now then "expired" else "ok"
  {
  }

  /** A token is still good at the very instant it expires. */
  lemma VerifyAtExpiry(tokens: seq<ResetToken>, t: ResetToken)
    requires FindToken(tokens, t.tokenHash) == Some(t) && !t.used
    ensures VerifyToken(tokens, t.tokenHash, t.expiresAt) == (Some(t), "ok")
  {
  }

  // ===========================================================================
  // Date windows
  // ===========================================================================

  /** Active on `today` unless a start bound lies after it or an end bound before it. */
  function ActiveOn(start: Option<int>, end: Option<int>, today: int): (r: bool)
    ensures r <==> (start.None? || start.value <= today) && (end.None? || today <= end.value)
  {
    if start.Some? && today < start.value then false
    else if end.Some? && today > end.value then false
    else true
  }

  /** The active days of a window form one unbroken stretch. */
  lemma ActiveDaysContiguous(start: Option<int>, end: Option<int>, d1: int, d: int, d2: int)
    requires ActiveOn(start, end, d1) && ActiveOn(start, end, d2) && d1 <= d <= d2
    ensures ActiveOn(start, end, d)
  {
  }

  datatype GradingScale = GradingScale(gradeLetter: string, effectiveFrom: Option<int>, effectiveTo: Option<int>)
  {
    /** In force on `today`: not before `effectiveFrom` and not after `effectiveTo`, either bound optional. */
    function IsActive(today: int): (r: bool)
      ensures r <==> (effectiveFrom.None? || effectiveFrom.value <= today)
                     && (effectiveTo.None? || today <= effectiveTo.value)
    {
      ActiveOn(effectiveFrom, effectiveTo, today)
    }
  }

  datatype CourseAssessmentScheme = CourseAssessmentScheme(
    courseCode: string, schemeStartDate: Option<int>, schemeEndDate: Option<int>)
  {
    /** In force on `today`: not before the start date and not after the end date, either optional. */
    function IsActive(today: int): (r: bool)
      ensures r <==> (schemeStartDate.None? || schemeStartDate.value <= today)
                     && (schemeEndDate.None? || today <= schemeEndDate.value)
    {
      ActiveOn(schemeStartDate, schemeEndDate, today)
    }
  }

  // ===========================================================================
  // Notification preferences
  // ===========================================================================

  /**
   * What the `enabled_types` column holds: nothing (None, empty text or an
   * empty dict, all falsy), JSON text that decodes to a type-to-flag map, or a
   * value `json.loads` cannot turn into such a map (malformed text, a non-empty
   * dict stored natively by the JSON column, a JSON value that is not an object).
   */
  datatype StoredTypes = NoTypes | Json(types: map<string, bool>) | Undecodable

  /** Whether a type is on under a stored value: the stored flag if there is one, else on. */
  function TypeEnabled(stored: StoredTypes, t: string): (r: bool)
    ensures !r <==> stored.Json? && t in stored.types && !stored.types[t]
  {
    match stored
    case NoTypes => true
    case Json(types) => if t in types then types[t] else true
    case Undecodable => true
  }

  /** The stored value after switching a type; a value that does not decode is left as it was. */
  function WithType(stored: StoredTypes, t: string, enabled: bool): (r: StoredTypes)
    ensures stored.Undecodable? ==> r == stored
    ensures !stored.Undecodable? ==> r.Json?
  {
    match stored
    case NoTypes => Json(map[t := enabled])
    case Json(types) => Json(types[t := enabled])
    case Undecodable => Undecodable
  }

  /** Reading back what was set: the new flag, unless the stored value does not decode. */
  lemma SetThenGet(stored: StoredTypes, t: string, enabled: bool)
    ensures TypeEnabled(WithType(stored, t, enabled), t) == (stored.Undecodable? || enabled)
  {
  }

  /** Switching one type leaves every other type as it was. */
  lemma SetLeavesOthers(stored: StoredTypes, t: string, enabled: bool, other: string)
    requires other != t
    ensures TypeEnabled(WithType(stored, t, enabled), other) == TypeEnabled(stored, other)
  {
  }

  class NotificationPreference {
    var enabledTypes: StoredTypes

    /** A new preference row: the column default, an empty dict. */
    constructor ()
      ensures enabledTypes == NoTypes
      ensures forall t :: IsTypeEnabled(t)
    {
      enabledTypes := NoTypes;
    }

    /** A type is on unless it is explicitly stored as off. */
    function IsTypeEnabled(t: string): (r: bool)
      reads this
      ensures !r <==> enabledTypes.Json? && t in enabledTypes.types && !enabledTypes.types[t]
    {
      TypeEnabled(enabledTypes, t)
    }

    /** Stores the flag for `t`, keeping the others; silently does nothing when the stored value does not decode. */
    method SetTypeEnabled(t: string, enabled: bool)
      modifies this
      ensures enabledTypes == WithType(old(enabledTypes), t, enabled)
      ensures IsTypeEnabled(t) == (old(enabledTypes).Undecodable? || enabled)
      ensures forall other :: other != t ==> IsTypeEnabled(other) == old(IsTypeEnabled(other))
    {
      match enabledTypes
      case NoTypes => enabledTypes := Json(map[t := enabled]);
      case Json(types) => enabledTypes := Json(types[t := enabled]);
      case Undecodable =>
    }
  }
}
