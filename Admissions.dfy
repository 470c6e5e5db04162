/**
 * The admission workflow: the application record, the resolver that picks
 * the next unfinished form step, the numbered step redirector, the voucher
 * rules (authentication, validation, purchase), the wholesale replacement of
 * exam results and the passport photo's white-background test.
 *
 * Applicant ids are natural numbers, times whole seconds; the current time is
 * passed in. The database tables this code reads and writes are the fields of
 * `AdmissionsOffice`.
 */
module Admissions {

  import opened Wrappers
  import opened Strings

  // ===========================================================================
  // The application record
  // ===========================================================================

  datatype Document = Document(documentType: string, filePath: Option<string>)

  datatype ExamResult = ExamResult(subject: string, grade: string)

  /** An application row with the columns the workflow tests, its documents and its exam results. */
  datatype Application = Application(
    applicantId: nat,
    status: string,
    surname: Option<string>,
    otherNames: Option<string>,
    gender: Option<string>,
    dob: Option<int>,
    nationality: Option<string>,
    phone: Option<string>,
    email: Option<string>,
    guardianName: Option<string>,
    firstChoice: Option<string>,
    documents: seq<Document>,
    results: seq<ExamResult>)

  /** The row created for an applicant who has none yet: status 'draft', nothing filled in. */
  function NewDraft(applicantId: nat): (a: Application)
    ensures a.applicantId == applicantId && a.status == "draft"
    ensures a.documents == [] && a.results == []
    ensures !Truthy(a.surname) && !Truthy(a.otherNames) && !Truthy(a.gender) && a.dob.None?
    ensures !Truthy(a.nationality) && !Truthy(a.phone) && !Truthy(a.email)
    ensures !Truthy(a.guardianName) && !Truthy(a.firstChoice)
  {
    Application(applicantId, "draft", None, None, None, None, None, None, None, None, None, [], [])
  }

  // ===========================================================================
  // Steps and their endpoints
  // ===========================================================================

  datatype Step =
    | PersonalInfo | Guardian | Programme | Education | ExamInfo | ExamResults
    | PassportUpload | Preview | Dashboard

  /** The endpoint a step redirects to. */
  function Endpoint(s: Step): string
  {
    match s
    case PersonalInfo => "admissions.personal_info"
    case Guardian => "admissions.guardian"
    case Programme => "admissions.programme"
    case Education => "admissions.education"
    case ExamInfo => "admissions.exam_info"
    case ExamResults => "admissions.exam_results"
    case PassportUpload => "admissions.passport_upload"
    case Preview => "admissions.preview"
    case Dashboard => "admissions.dashboard"
  }

  /** Different steps lead to different endpoints. */
  lemma EndpointsDistinct(s: Step, t: Step)
    requires s != t
    ensures Endpoint(s) != Endpoint(t)
  {
  }

  // ===========================================================================
  // The next-step resolver
  // ===========================================================================

  /** All seven required personal fields are filled in (non-empty; a date of birth is present). */
  predicate PersonalInfoComplete(a: Application)
  {
    Truthy(a.surname) && Truthy(a.otherNames) && Truthy(a.gender) && a.dob.Some?
    && Truthy(a.nationality) && Truthy(a.phone) && Truthy(a.email)
  }

  /** Some document is a photo with a non-empty file path. */
  predicate HasPhoto(docs: seq<Document>)
  {
    exists k :: 0 <= k < |docs| && docs[k].documentType == "photo" && Truthy(docs[k].filePath)
  }

  /** The step the applicant should be sent to, or None once the application is submitted. */
  function NextApplicationStep(app: Option<Application>): (r: Option<Step>)
    ensures r != Some(ExamInfo) && r != Some(Dashboard)
  {
    if app.None? then Some(PersonalInfo)
    else
      var a := app.value;
      if !PersonalInfoComplete(a) then Some(PersonalInfo)
      else if !Truthy(a.guardianName) then Some(Guardian)
      else if !Truthy(a.firstChoice) then Some(Programme)
      else if |a.documents| == 0 then Some(Education)
      else if |a.results| == 0 then Some(ExamResults)
      else if !HasPhoto(a.documents) then Some(PassportUpload)
      else if a.status != "submitted" then Some(Preview)
      else None
  }

  /** The order in which the resolver checks the steps. */
  const ResolverOrder: seq<Step> :=
    [PersonalInfo, Guardian, Programme, Education, ExamResults, PassportUpload, Preview]

  /** Whether an application has what a step asks for (Preview: the application is submitted). */
  predicate StepDone(a: Application, s: Step)
  {
    match s
    case PersonalInfo => PersonalInfoComplete(a)
    case Guardian => Truthy(a.guardianName)
    case Programme => Truthy(a.firstChoice)
    case Education => |a.documents| > 0
    case ExamResults => |a.results| > 0
    case PassportUpload => HasPhoto(a.documents)
    case Preview => a.status == "submitted"
    case ExamInfo => true
    case Dashboard => true
  }

  /** The first of `steps` that `a` has not done. */
  function FirstUnmet(a: Application, steps: seq<Step>): Option<Step>
  {
    if steps == [] then None
    else if !StepDone(a, steps[0]) then Some(steps[0])
    else FirstUnmet(a, steps[1..])
  }

  /** `FirstUnmet` is None when every step is done, and otherwise an undone step all of whose predecessors are done. */
  lemma {:induction false} FirstUnmetMeaning(a: Application, steps: seq<Step>)
    ensures FirstUnmet(a, steps).None? <==> forall k :: 0 <= k < |steps| ==> StepDone(a, steps[k])
    ensures FirstUnmet(a, steps).Some? ==>
      exists i :: 0 <= i < |steps| && steps[i] == FirstUnmet(a, steps).value && !StepDone(a, steps[i])
                  && forall k :: 0 <= k < i ==> StepDone(a, steps[k])
  {
    if steps != [] && StepDone(a, steps[0]) {
      FirstUnmetMeaning(a, steps[1..]);
      assert forall k :: 1 <= k < |steps| ==> steps[k] == steps[1..][k - 1];
      if FirstUnmet(a, steps[1..]).Some? {
        var i :| 0 <= i < |steps[1..]| && steps[1..][i] == FirstUnmet(a, steps[1..]).value
                 && !StepDone(a, steps[1..][i]) && forall k :: 0 <= k < i ==> StepDone(a, steps[1..][k]);
        assert steps[i + 1] == FirstUnmet(a, steps).value;
      }
    }
  }

  /** One step of `FirstUnmet`: a done head is skipped, an undone head is the answer. */
  lemma FirstUnmetCons(a: Application, s: Step, rest: seq<Step>)
    ensures FirstUnmet(a, [s] + rest) == if StepDone(a, s) then FirstUnmet(a, rest) else Some(s)
  {
    assert ([s] + rest)[1..] == rest;
  }

  /** The resolver returns the first unmet step of `ResolverOrder`. */
  lemma NextStepIsFirstUnmet(a: Application)
    ensures NextApplicationStep(Some(a)) == FirstUnmet(a, ResolverOrder)
  {
    var o6: seq<Step> := [Preview];
    var o5 := [PassportUpload] + o6;
    var o4 := [ExamResults] + o5;
    var o3 := [Education] + o4;
    var o2 := [Programme] + o3;
    var o1 := [Guardian] + o2;
    assert ResolverOrder == [PersonalInfo] + o1;
    FirstUnmetCons(a, Preview, []);
    FirstUnmetCons(a, PassportUpload, o6);
    FirstUnmetCons(a, ExamResults, o5);
    FirstUnmetCons(a, Education, o4);
    FirstUnmetCons(a, Programme, o3);
    FirstUnmetCons(a, Guardian, o2);
    FirstUnmetCons(a, PersonalInfo, o1);
  }

  /** Only a submitted application that has passed every check resolves to no step. */
  lemma NextStepNoneIffSubmitted(app: Option<Application>)
    ensures NextApplicationStep(app).None? <==>
      app.Some? && (forall k :: 0 <= k < |ResolverOrder| ==> StepDone(app.value, ResolverOrder[k]))
  {
    if app.Some? {
      NextStepIsFirstUnmet(app.value);
      FirstUnmetMeaning(app.value, ResolverOrder);
    }
  }

  /** No application, or any missing personal field, sends the applicant to the personal-info form. */
  lemma PersonalInfoFirst(app: Option<Application>)
    requires app.None? || !PersonalInfoComplete(app.value)
    ensures NextApplicationStep(app) == Some(PersonalInfo)
  {
  }

  /** A fresh draft starts at the personal-info form. */
  lemma NewDraftStartsAtPersonalInfo(applicantId: nat)
    ensures NextApplicationStep(Some(NewDraft(applicantId))) == Some(PersonalInfo)
  {
  }

  /** The education check only asks for some document: a photo alone is enough to pass it. */
  lemma PhotoAlonePassesEducation(a: Application, path: string)
    requires PersonalInfoComplete(a) && Truthy(a.guardianName) && Truthy(a.firstChoice)
    requires a.documents == [Document("photo", Some(path))] && path != "" && |a.results| > 0
    ensures NextApplicationStep(Some(a)) == (if a.status == "submitted" then None else Some(Preview))
  {
    assert a.documents[0].documentType == "photo" && Truthy(a.documents[0].filePath);
  }

  // ===========================================================================
  // The numbered step redirector
  // ===========================================================================

  /** The form steps by number. */
  const StepRoutes: map<int, Step> := map[
    1 := PersonalInfo, 2 := Guardian, 3 := Programme, 4 := Education,
    5 := ExamInfo, 6 := ExamResults, 7 := PassportUpload]

  /** The forms in step order, for step numbers 1 to 7. */
  const FormSteps: seq<Step> :=
    [PersonalInfo, Guardian, Programme, Education, ExamInfo, ExamResults, PassportUpload]

  /** Step `n` of the form, or the preview for any other number. */
  function ApplicationStep(n: int): (r: Step)
    ensures 1 <= n <= 7 ==> r == FormSteps[n - 1]
    ensures !(1 <= n <= 7) ==> r == Preview
  {
    if n in StepRoutes then StepRoutes[n] else Preview
  }

  /** Different step numbers in range lead to different forms, none of them the preview. */
  lemma ApplicationStepInjective(m: int, n: int)
    requires 1 <= m <= 7 && 1 <= n <= 7 && m != n
    ensures ApplicationStep(m) != ApplicationStep(n)
    ensures ApplicationStep(m) != Preview
  {
  }

  // ===========================================================================
  // Vouchers
  // ===========================================================================

  /** An admission voucher; `usedBy` is the applicant it is bound to. */
  datatype Voucher = Voucher(
    pin: string,
    serial: string,
    amount: real,
    purchaserEmail: Option<string>,
    validUntil: Option<int>,
    isUsed: bool,
    usedBy: Option<nat>)

  /** A voucher whose validity date has passed; one without a date never expires. */
  predicate Expired(v: Voucher, now: int)
  {
    v.validUntil.Some? && v.validUntil.value < now
  }

  /** Binding a voucher to an applicant: it is used, and used by them. */
  function MarkAsUsed(v: Voucher, applicantId: nat): (w: Voucher)
    ensures w.isUsed && w.usedBy == Some(applicantId)
    ensures w.pin == v.pin && w.serial == v.serial && w.validUntil == v.validUntil
    ensures w.purchaserEmail == v.purchaserEmail && w.amount == v.amount
  {
    v.(isUsed := true, usedBy := Some(applicantId))
  }

  /** Index of the first voucher with this PIN and serial. */
  function FindVoucher(vouchers: seq<Voucher>, pin: string, serial: string): (r: Option<nat>)
    ensures r.Some? ==> r.value < |vouchers| && vouchers[r.value].pin == pin && vouchers[r.value].serial == serial
    ensures r.Some? ==> forall k :: 0 <= k < r.value ==> !(vouchers[k].pin == pin && vouchers[k].serial == serial)
    ensures r.None? ==> forall k :: 0 <= k < |vouchers| ==> !(vouchers[k].pin == pin && vouchers[k].serial == serial)
  {
    if vouchers == [] then None
    else if vouchers[0].pin == pin && vouchers[0].serial == serial then Some(0)
    else
      var r := FindVoucher(vouchers[1..], pin, serial);
      assert forall k :: 1 <= k < |vouchers| ==> vouchers[k] == vouchers[1..][k - 1];
      if r.Some? then Some(r.value + 1) else None
  }

  /** The voucher a PIN and serial look up, if any. */
  function LookUp(vouchers: seq<Voucher>, pin: string, serial: string): Option<Voucher>
  {
    var i := FindVoucher(vouchers, pin, serial);
    if i.Some? then Some(vouchers[i.value]) else None
  }

  datatype Rejection = NotFound | VoucherExpired | UsedByAnother | AlreadyUsed

  /** What a voucher handler does with the voucher it looked up. */
  datatype VoucherDecision = Reject(reason: Rejection) | Resume | Bind

  /**
   * The voucher-authentication decision for `applicantId`: unknown vouchers
   * and expired ones are refused (expiry before use), a voucher already used
   * by this applicant resumes, one used by another is refused, a fresh one is bound.
   */
  function AuthenticationDecision(v: Option<Voucher>, applicantId: nat, now: int): (d: VoucherDecision)
    ensures d == Bind <==> v.Some? && !Expired(v.value, now) && !v.value.isUsed
    ensures d == Resume <==> v.Some? && !Expired(v.value, now) && v.value.isUsed && v.value.usedBy == Some(applicantId)
    ensures d.Reject? ==> d.reason != AlreadyUsed
    ensures v.None? ==> d == Reject(NotFound)
    ensures v.Some? && Expired(v.value, now) ==> d == Reject(VoucherExpired)
    ensures v.Some? && !Expired(v.value, now) && v.value.isUsed && v.value.usedBy != Some(applicantId) ==> d == Reject(UsedByAnother)
  {
    if v.None? then Reject(NotFound)
    else if Expired(v.value, now) then Reject(VoucherExpired)
    else if v.value.isUsed then
      if v.value.usedBy == Some(applicantId) then Resume else Reject(UsedByAnother)
    else Bind
  }

  /** The voucher-validation decision: refuses any used voucher, whoever used it, and never looks at expiry. */
  function ValidationDecision(v: Option<Voucher>): (d: VoucherDecision)
    ensures d == Bind <==> v.Some? && !v.value.isUsed
    ensures d != Resume
    ensures v.None? ==> d == Reject(NotFound)
    ensures v.Some? && v.value.isUsed ==> d == Reject(AlreadyUsed)
  {
    if v.None? then Reject(NotFound)
    else if v.value.isUsed then Reject(AlreadyUsed)
    else Bind
  }

  /** Expiry is checked before use: an expired voucher is refused as expired even when it is this applicant's. */
  lemma ExpiryBeforeUse(v: Voucher, applicantId: nat, now: int)
    requires Expired(v, now)
    ensures AuthenticationDecision(Some(v), applicantId, now) == Reject(VoucherExpired)
  {
  }

  /** A bound voucher stays bound: its applicant resumes, anyone else is refused, until it expires. */
  lemma BindingIsSticky(v: Voucher, owner: nat, other: nat, now: int)
    requires !Expired(v, now) && other != owner
    ensures AuthenticationDecision(Some(MarkAsUsed(v, owner)), owner, now) == Resume
    ensures AuthenticationDecision(Some(MarkAsUsed(v, owner)), other, now) == Reject(UsedByAnother)
    ensures ValidationDecision(Some(MarkAsUsed(v, owner))) == Reject(AlreadyUsed)
  {
  }

  /** Validation binds an expired voucher that authentication would refuse. */
  lemma ValidationIgnoresExpiry(v: Voucher, applicantId: nat, now: int)
    requires Expired(v, now) && !v.isUsed
    ensures ValidationDecision(Some(v)) == Bind
    ensures AuthenticationDecision(Some(v), applicantId, now) == Reject(VoucherExpired)
  {
  }

  /** The applications after a successful voucher step: an existing row is kept, a missing one is a new draft. */
  function EnsureApplication(apps: map<nat, Application>, applicantId: nat): (r: map<nat, Application>)
    ensures applicantId in r
    ensures applicantId in apps ==> r == apps
    ensures applicantId !in apps ==> r[applicantId] == NewDraft(applicantId)
    ensures r.Keys == apps.Keys + {applicantId}
    ensures forall k :: k in apps ==> r[k] == apps[k]
  {
    if applicantId in apps then apps else apps[applicantId := NewDraft(applicantId)]
  }

  /** Where a successful voucher step sends the applicant: the next form step, or the dashboard. */
  function ContinueTo(a: Application): (s: Step)
    ensures s == Dashboard <==> NextApplicationStep(Some(a)).None?
    ensures NextApplicationStep(Some(a)).Some? ==> s == NextApplicationStep(Some(a)).value
    ensures s != ExamInfo
  {
    NextApplicationStep(Some(a)).GetOr(Dashboard)
  }

  datatype AuthenticationOutcome =
    | LoginRequired
    | Refused(reason: Rejection)
    | Resumed(next: Step)
    | Authenticated(next: Step)

  datatype ValidationOutcome = ValidationLoginRequired | ValidationRefused(reason: Rejection) | Validated

  datatype ExamResultsOutcome = Mismatch | NoApplication | Saved

  // ===========================================================================
  // The passport photo check
  // ===========================================================================

  /** Grid point (i, j) of the 5x5 sample: `min(int(width*i/4), width-1)`, likewise for height. */
  function GridPoint(width: nat, height: nat, i: nat, j: nat): (int, int)
  {
    (Min(width * i / 4, width - 1), Min(height * j / 4, height - 1))
  }

  function Min(a: int, b: int): int
  {
    if a <= b then a else b
  }

  /** The 25 sample points, column by column (`for i in range(5) for j in range(5)`). */
  function SamplePoints(width: nat, height: nat): (pts: seq<(int, int)>)
    requires width > 0 && height > 0
    ensures |pts| == 25
    ensures forall k :: 0 <= k < 25 ==> pts[k] == GridPoint(width, height, k / 5, k % 5)
    ensures forall k :: 0 <= k < 25 ==> 0 <= pts[k].0 < width && 0 <= pts[k].1 < height
    ensures pts[0] == (0, 0) && pts[24] == (width - 1, height - 1)
  {
    seq(25, k requires 0 <= k < 25 => GridPoint(width, height, k / 5, k % 5))
  }

  /** How many of `pts` the whiteness test accepts. */
  function WhiteCount(pts: seq<(int, int)>, isWhite: (int, int) -> bool): (n: nat)
    ensures n <= |pts|
    ensures n == |pts| <==> forall k :: 0 <= k < |pts| ==> isWhite(pts[k].0, pts[k].1)
    ensures n == 0 <==> forall k :: 0 <= k < |pts| ==> !isWhite(pts[k].0, pts[k].1)
  {
    if pts == [] then 0
    else
      var rest := WhiteCount(pts[1..], isWhite);
      assert forall k :: 1 <= k < |pts| ==> pts[k] == pts[1..][k - 1];
      (if isWhite(pts[0].0, pts[0].1) then 1 else 0) + rest
  }

  /** Counting white samples adds up over concatenation. */
  lemma {:induction false} WhiteCountAppend(a: seq<(int, int)>, b: seq<(int, int)>, isWhite: (int, int) -> bool)
    ensures WhiteCount(a + b, isWhite) == WhiteCount(a, isWhite) + WhiteCount(b, isWhite)
  {
    if a == [] {
      assert a + b == b;
    } else {
      assert (a + b)[1..] == a[1..] + b;
      WhiteCountAppend(a[1..], b, isWhite);
    }
  }

  datatype PhotoVerdict = EmptyImage | NotWhite | WhiteBackground

  /**
   * An empty image is an error; otherwise the photo passes when at least 60%
   * of the samples are white, that is 15 or more of the 25.
   */
  function PhotoCheck(width: nat, height: nat, isWhite: (int, int) -> bool): (v: PhotoVerdict)
    ensures v == EmptyImage <==> width == 0 || height == 0
    ensures width > 0 && height > 0 ==>
      (v == WhiteBackground <==> WhiteCount(SamplePoints(width, height), isWhite) >= 15)
  {
    if width == 0 || height == 0 then EmptyImage
    else
      var white := WhiteCount(SamplePoints(width, height), isWhite);
      ThresholdIsFifteen(white);
      if (white as real) / 25.0 >= 0.6 then WhiteBackground else NotWhite
  }

  /** The 60% threshold over 25 samples is 15 samples. */
  lemma ThresholdIsFifteen(white: nat)
    ensures (white as real) / 25.0 >= 0.6 <==> white >= 15
  {
  }


  /** The documents without the photo records. */
  function WithoutPhotos(docs: seq<Document>): (r: seq<Document>)
    ensures forall d :: d in r <==> d in docs && d.documentType != "photo"
    ensures |r| <= |docs|
  {
    if docs == [] then []
    else (if docs[0].documentType == "photo" then [] else [docs[0]]) + WithoutPhotos(docs[1..])
  }

  /** Removing the photo records works piece by piece: the kept documents stay in order, each once. */
  lemma {:induction false} WithoutPhotosAppend(a: seq<Document>, b: seq<Document>)
    ensures WithoutPhotos(a + b) == WithoutPhotos(a) + WithoutPhotos(b)
  {
    if a == [] {
      assert a + b == b;
    } else {
      assert (a + b)[1..] == a[1..] + b;
      WithoutPhotosAppend(a[1..], b);
    }
  }

  /** Where an accepted photo is stored: `uploads/profile_pictures/applicant_<id>.<ext>`. */
  function PhotoPath(applicantId: nat, ext: string): string
  {
    "uploads/profile_pictures/applicant_" + DecimalString(applicantId) + "." + ext
  }

  /** After a photo replaces the old ones, the application passes the photo check. */
  lemma ReplacedPhotoPasses(docs: seq<Document>, applicantId: nat, ext: string)
    ensures HasPhoto(WithoutPhotos(docs) + [Document("photo", Some(PhotoPath(applicantId, ext)))])
  {
    var r := WithoutPhotos(docs) + [Document("photo", Some(PhotoPath(applicantId, ext)))];
    assert r[|r| - 1].documentType == "photo" && Truthy(r[|r| - 1].filePath);
  }

  datatype PassportOutcome = ProcessingError | NotWhiteBackground | Uploaded(path: string)

  // ===========================================================================
  // The admissions store
  // ===========================================================================

  /** The voucher table, in creation order, and one application row per applicant. */
  class AdmissionsOffice {
    var vouchers: seq<Voucher>
    var applications: map<nat, Application>

    constructor ()
      ensures vouchers == [] && applications == map[]
    {
      vouchers := [];
      applications := map[];
    }

    /**
     * Voucher authentication (a missing or falsy applicant id, that is 0,
     * means not logged in): refuses, or resumes
     * without rebinding, or binds the voucher; on both successes the
     * applicant is sure to have an application row, and an existing one is kept.
     */
    method AuthenticateVoucher(session: Option<nat>, pin: string, serial: string, now: int)
      returns (o: AuthenticationOutcome)
      modifies this
      ensures session.None? || session.value == 0 ==> o == LoginRequired
      ensures session.None? || session.value == 0 ==> vouchers == old(vouchers) && applications == old(applications)
      ensures session.Some? && session.value != 0 ==>
        var d := AuthenticationDecision(LookUp(old(vouchers), pin, serial), session.value, now);
        && (d.Reject? ==> o == Refused(d.reason) && vouchers == old(vouchers) && applications == old(applications))
        && (d.Resume? ==> vouchers == old(vouchers))
        && (d.Bind? ==> var i := FindVoucher(old(vouchers), pin, serial).value;
                        vouchers == old(vouchers)[i := MarkAsUsed(old(vouchers)[i], session.value)])
        && (!d.Reject? ==> applications == EnsureApplication(old(applications), session.value))
        && (d.Resume? ==> o == Resumed(ContinueTo(applications[session.value])))
        && (d.Bind? ==> o == Authenticated(ContinueTo(applications[session.value])))
    {
      if session.None? || session.value == 0 {
        return LoginRequired;
      }
      var applicantId := session.value;
      var i := FindVoucher(vouchers, pin, serial);
      if i.None? {
        return Refused(NotFound);
      }
      var v := vouchers[i.value];
      if v.validUntil.Some? && v.validUntil.value < now {
        return Refused(VoucherExpired);
      }
      if v.isUsed {
        if v.usedBy == Some(applicantId) {
          if applicantId !in applications {
            applications := applications[applicantId := NewDraft(applicantId)];
          }
          return Resumed(ContinueTo(applications[applicantId]));
        } else {
          return Refused(UsedByAnother);
        }
      }
      vouchers := vouchers[i.value := MarkAsUsed(v, applicantId)];
      if applicantId !in applications {
        applications := applications[applicantId := NewDraft(applicantId)];
      }
      return Authenticated(ContinueTo(applications[applicantId]));
    }

    /** Voucher validation: binds any unused voucher with this PIN and serial to the applicant. */
    method ValidateVoucher(session: Option<nat>, pin: string, serial: string)
      returns (o: ValidationOutcome)
      modifies this
      ensures applications == old(applications)
      ensures session.None? ==> o == ValidationLoginRequired && vouchers == old(vouchers)
      ensures session.Some? ==>
        var d := ValidationDecision(LookUp(old(vouchers), pin, serial));
        && (d.Reject? ==> o == ValidationRefused(d.reason) && vouchers == old(vouchers))
        && (d.Bind? ==> var i := FindVoucher(old(vouchers), pin, serial).value;
                        o == Validated && vouchers == old(vouchers)[i := MarkAsUsed(old(vouchers)[i], session.value)])
    {
      if session.None? {
        return ValidationLoginRequired;
      }
      var i := FindVoucher(vouchers, pin, serial);
      if i.None? {
        return ValidationRefused(NotFound);
      }
      if vouchers[i.value].isUsed {
        return ValidationRefused(AlreadyUsed);
      }
      vouchers := vouchers[i.value := MarkAsUsed(vouchers[i.value], session.value)];
      return Validated;
    }

    /**
     * Voucher purchase after a successful payment: the oldest voucher that is
     * unused and unassigned goes to `email` with the new amount; when there is
     * none, a new voucher with the generated PIN and serial, valid for 180
     * days, is added. Returns the PIN and serial handed out.
     */
    method PurchaseVoucher(email: string, amount: real, newPin: string, newSerial: string, now: int)
      returns (pin: string, serial: string)
      modifies this
      ensures applications == old(applications)
      ensures var i := FindUnassigned(old(vouchers));
        if i.Some? then
          && vouchers == old(vouchers)[i.value := old(vouchers)[i.value].(amount := amount, purchaserEmail := Some(email))]
          && pin == old(vouchers)[i.value].pin && serial == old(vouchers)[i.value].serial
        else
          && vouchers == old(vouchers) + [Voucher(newPin, newSerial, amount, Some(email), Some(now + VoucherLifetime), false, None)]
          && pin == newPin && serial == newSerial
    {
      var i := FindUnassigned(vouchers);
      if i.Some? {
        var v := vouchers[i.value];
        vouchers := vouchers[i.value := v.(amount := amount, purchaserEmail := Some(email))];
        pin, serial := v.pin, v.serial;
      } else {
        pin, serial := newPin, newSerial;
        vouchers := vouchers + [Voucher(pin, serial, amount, Some(email), Some(now + VoucherLifetime), false, None)];
      }
    }

    /**
     * Saving the exam results form: lists of different lengths change
     * nothing; otherwise the applicant's results become exactly the
     * (subject, grade) pairs, in order, and nothing else changes.
     */
    method SaveExamResults(applicantId: nat, subjects: seq<string>, grades: seq<string>)
      returns (o: ExamResultsOutcome)
      modifies this
      ensures vouchers == old(vouchers)
      ensures |subjects| != |grades| ==> o == Mismatch && applications == old(applications)
      ensures |subjects| == |grades| && applicantId !in old(applications) ==>
        o == NoApplication && applications == old(applications)
      ensures |subjects| == |grades| && applicantId in old(applications) ==>
        && o == Saved
        && applications.Keys == old(applications).Keys
        && (forall k :: k in applications && k != applicantId ==> applications[k] == old(applications)[k])
        && applications[applicantId] == old(applications)[applicantId].(results := applications[applicantId].results)
        && |applications[applicantId].results| == |subjects|
        && forall k :: 0 <= k < |subjects| ==> applications[applicantId].results[k] == ExamResult(subjects[k], grades[k])
    {
      if |subjects| != |grades| {
        return Mismatch;
      }
      if applicantId !in applications {
        return NoApplication;
      }
      var results: seq<ExamResult> := [];
      var i := 0;
      while i < |subjects|
        invariant 0 <= i <= |subjects|
        invariant |results| == i
        invariant forall k :: 0 <= k < i ==> results[k] == ExamResult(subjects[k], grades[k])
      {
        results := results + [ExamResult(subjects[i], grades[i])];
        i := i + 1;
      }
      applications := applications[applicantId := applications[applicantId].(results := results)];
      return Saved;
    }

    /**
     * Uploading a passport photo (image already decoded to its size and a
     * whiteness test per pixel, file name already made safe): an accepted
     * photo replaces the applicant's photo documents.
     */
    method UploadPassport(applicantId: nat, width: nat, height: nat, isWhite: (int, int) -> bool, filename: string)
      returns (o: PassportOutcome)
      modifies this
      ensures vouchers == old(vouchers)
      ensures PhotoCheck(width, height, isWhite) == EmptyImage ==> o == ProcessingError
      ensures PhotoCheck(width, height, isWhite) == NotWhite ==> o == NotWhiteBackground
      ensures PhotoCheck(width, height, isWhite) == WhiteBackground && ('.' !in filename || applicantId !in old(applications))
        ==> o == ProcessingError
      ensures !o.Uploaded? ==> applications == old(applications)
      ensures o.Uploaded? <==>
        PhotoCheck(width, height, isWhite) == WhiteBackground && '.' in filename && applicantId in old(applications)
      ensures o.Uploaded? ==>
        && o.path == PhotoPath(applicantId, Lower(AfterLast(filename, '.')))
        && applications == old(applications)[applicantId := old(applications)[applicantId].(
             documents := WithoutPhotos(old(applications)[applicantId].documents) + [Document("photo", Some(o.path))])]
    {
      var verdict := PhotoCheck(width, height, isWhite);
      if verdict == EmptyImage {
        return ProcessingError;
      }
      if verdict == NotWhite {
        return NotWhiteBackground;
      }
      if '.' !in filename {
        return ProcessingError;
      }
      var ext := Lower(AfterLast(filename, '.'));
      var path := PhotoPath(applicantId, ext);
      if applicantId !in applications {
        return ProcessingError;
      }
      var a := applications[applicantId];
      applications := applications[applicantId := a.(documents := WithoutPhotos(a.documents) + [Document("photo", Some(path))])];
      return Uploaded(path);
    }
  }

  /** A purchased voucher lasts 180 days. */
  const VoucherLifetime: int := 180 * 24 * 60 * 60

  /** Index of the oldest voucher that is neither used nor assigned to a purchaser. */
  function FindUnassigned(vouchers: seq<Voucher>): (r: Option<nat>)
    ensures r.Some? ==> r.value < |vouchers| && !vouchers[r.value].isUsed && vouchers[r.value].purchaserEmail.None?
    ensures r.Some? ==> forall k :: 0 <= k < r.value ==> vouchers[k].isUsed || vouchers[k].purchaserEmail.Some?
    ensures r.None? ==> forall k :: 0 <= k < |vouchers| ==> vouchers[k].isUsed || vouchers[k].purchaserEmail.Some?
  {
    if vouchers == [] then None
    else if !vouchers[0].isUsed && vouchers[0].purchaserEmail.None? then Some(0)
    else
      var r := FindUnassigned(vouchers[1..]);
      assert forall k :: 1 <= k < |vouchers| ==> vouchers[k] == vouchers[1..][k - 1];
      if r.Some? then Some(r.value + 1) else None
  }
}
