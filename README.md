# A Dafny model of the my-lms school portal core

This project models the decision logic of a Flask school-management portal:

- **Administrators** (`Models.Admin`): eleven permission flags and a
  superadmin switch; permission queries by column name; the five
  dashboard sections; and the four preset roles that rewrite the flags.
- **Users** (`Models.User`): the Flask-Login id, the displayed full name,
  and whether a student's programme and registration information is
  complete.
- **Password reset tokens**: verification by token hash, with the verdicts
  `invalid`, `used`, `expired` and `ok`.
- **Date-windowed records**: grading scales and course assessment schemes,
  which are active between optional start and end dates.
- **Notification preferences** (`Models.NotificationPreference`): a map of
  enabled types stored as JSON text; a type counts as enabled unless it is
  explicitly switched off.
- **The admissions workflow** (`Admissions`):
  - the resolver that picks an applicant's next form step;
  - the numbered-step redirector;
  - voucher authentication, validation and purchase;
  - saving exam results;
  - the passport-photo background check (25 sample points, at least 60% of
    them white) and the replacement of the photo document.

  The voucher table and the application rows are the fields of
  `Admissions.AdmissionsOffice`, which its methods update in place.
- **Application glue** (`App`):
  - the session-id parser behind `load_user`;
  - the `start_year` template filter;
  - the portal redirect map;
  - the security headers added to every response (`App.Response`).
- **Form choice lists** (`Helpers`): programmes, school classes and
  programme levels.

Clocks are parameters (`now` in seconds, `today` as a day number). A string
counts as falsy when it is absent or empty. `Strings` holds the string
operations the source borrows from Python:

- `split` and `' '.join`;
- `split(':', 1)[1]` and `rsplit('.', 1)[1]`;
- ASCII `lower()`;
- `sorted(set(...))`, with a proof that the result is unique.

## Model

| member | source | states |
|---|---|---|
| Models.PermissionNamed | models.py:149-191 | Looking up a permission column by name returns a permission that has exactly that name, or signals that no column has it. |
| Models.PermissionNameRoundTrip | models.py:149-191 | Every permission column is found again from its own name. |
| Models.SectionNamesDistinct | models.py:374-398 | The five section names are pairwise different. |
| Models.Admin.constructor | models.py:149-191 | A new admin has the given public id, is not a superadmin and holds no permission (every column defaults to False). |
| Models.Admin.GetId | models.py:231-236 | The login id is `admin:` followed by the public id. |
| Models.Admin.HasPermission | models.py:332-344 | A superadmin has every permission. Otherwise the result is true exactly when the name is a permission column whose flag is set; unknown names give False. |
| Models.Admin.HasAnyPermission | models.py:346-358 | A superadmin always passes. Otherwise the result is true exactly when some listed name passes HasPermission. |
| Models.Admin.HasAllPermissions | models.py:360-372 | A superadmin always passes. Otherwise the result is true exactly when every listed name passes HasPermission. |
| Models.Admin.GrantedAmongMeaning | models.py:381-398 | The sections collected from the first k checks are exactly the granted sections of rank below k, in ascending rank order. |
| Models.Admin.SuperadminGrantedAll | models.py:383-398 | A superadmin is granted all five sections, in order. |
| Models.Admin.GetAccessibleSections | models.py:374-398 | The result holds exactly the sections the admin's flags (or superadmin status) grant, in the fixed order finances, academics, admissions, users, reports. A superadmin gets all five. |
| Models.Admin.ApplyFinanceAdminPreset | models.py:449-463 | Afterwards the admin holds exactly the four finance permissions plus view-reports and export-data. Only permission columns change. |
| Models.Admin.ApplyAcademicAdminPreset | models.py:465-479 | Afterwards the admin holds exactly the two academic permissions plus view-reports and export-data. Only permission columns change. |
| Models.Admin.ApplyAdmissionsAdminPreset | models.py:481-495 | Afterwards the admin holds exactly the two admissions permissions plus view-academics, view-reports and export-data. Only permission columns change. |
| Models.Admin.ApplySuperadminPreset | models.py:497-511 | Afterwards the admin is a superadmin and holds all eleven permission columns. |
| Models.PresetPermissions | models.py:332-344 | For a non-superadmin with exactly a given set of flags, HasPermission(name) holds exactly when the name is a column in that set. This connects the presets to the queries. |
| Models.EmptyPermissionLists | models.py:346-372 | For a non-superadmin, "any of none" is false and "all of none" is true. |
| Models.AllImpliesAny | models.py:346-372 | For a non-empty list of names, holding all of them implies holding one of them. |
| Models.User.GetId | models.py:695-696 | The login id is `user:` followed by the public id. |
| Models.User.NameParts | models.py:709-713 | The parts are the first name, then the middle name exactly when it is non-empty, then the last name. |
| Models.User.FullName | models.py:708-714 | The full name is the first name, one space, the middle name and one more space when it is non-empty, then the last name. |
| Models.FullNameShape | models.py:709-714 | The full name starts with the first name and ends with the last name. Its length is theirs plus one space, plus the middle name and a second space when it is non-empty. |
| Models.FullNameSplits | models.py:709-714 | When no part contains a space, splitting the full name at spaces gives back exactly its parts. |
| Models.User.ProgrammeInfoComplete | models.py:776-786 | Programme info is complete exactly when there is a profile with a non-empty programme and a level among 100, 200, 300 and 400. |
| Models.User.RegistrationInfoComplete | models.py:788-791 | Registration info is complete exactly when programme info is complete and the index number is non-empty. In particular it implies that programme info is complete. |
| Models.FindToken | models.py:840 | Finds the first stored token with the given hash, or reports that none has it. |
| Models.VerifyToken | models.py:836-847 | A token is returned exactly on `ok`; the verdict is one of four words; `invalid` exactly when no token has the hash. |
| Models.VerifyOrder | models.py:841-847 | The checks run in order: `used` before `expired`, then `ok` for an unused token that has not expired. |
| Models.VerifyAtExpiry | models.py:845-847 | At its exact expiry instant, any unused token the lookup finds still verifies (the comparison is strict). |
| Models.ActiveOn | models.py:1269-1276 | Active exactly when today is on or after the start (if any) and on or before the end (if any). |
| Models.ActiveDaysContiguous | models.py:1269-1276 | The active days form an interval: a day between two active days is active. |
| Models.GradingScale.IsActive | models.py:1269-1276 | A grading scale is active exactly within its optional effective-from and effective-to dates, both inclusive. |
| Models.CourseAssessmentScheme.IsActive | models.py:1499-1506 | A scheme is active exactly within its optional start and end dates, both inclusive. |
| Models.TypeEnabled | models.py:1801-1808 | A notification type is disabled exactly when the stored map decodes and maps that type to False. Missing types and undecodable text count as enabled. |
| Models.WithType | models.py:1810-1817 | Setting a type on undecodable text leaves it unchanged. Otherwise the result is a decoded map. |
| Models.SetThenGet | models.py:1801-1817 | After a type is set, reading it gives the value written, unless the stored text was undecodable. |
| Models.SetLeavesOthers | models.py:1801-1817 | Setting one type does not change whether any other type is enabled. |
| Models.NotificationPreference.constructor | models.py:1783 | A new preference stores nothing, so every type is enabled. |
| Models.NotificationPreference.IsTypeEnabled | models.py:1801-1808 | False exactly when the stored map decodes and maps the type to False. |
| Models.NotificationPreference.SetTypeEnabled | models.py:1810-1817 | The stored value becomes WithType of the old one. The type then reads as the value written (or stays enabled when undecodable). Every other type reads as before. |
| Admissions.NewDraft | admissions/routes.py:235 | A new application belongs to the applicant, is a draft, and has no documents and no results. None of the seven personal fields, the guardian name or the first choice is filled in. |
| Admissions.EndpointsDistinct | admissions/routes.py:40-89 | Different steps have different endpoint names. |
| Admissions.NextApplicationStep | admissions/routes.py:40-89 | The resolver never sends an applicant to exam info or the dashboard. |
| Admissions.FirstUnmetMeaning | admissions/routes.py:45-89 | The first unmet step of a list is absent exactly when every step in it is done. When present, it is the step at some position, every earlier step is done, and it is not. |
| Admissions.NextStepIsFirstUnmet | admissions/routes.py:45-89 | The resolver returns the first unmet step, in the order personal info, guardian, programme, education, exam results, passport, preview. |
| Admissions.NextStepNoneIffSubmitted | admissions/routes.py:84-89 | There is no next step exactly when an application exists, every requirement is met and it is submitted. |
| Admissions.PersonalInfoFirst | admissions/routes.py:45-59 | Without an application, or with incomplete personal info, the next step is personal info. |
| Admissions.NewDraftStartsAtPersonalInfo | admissions/routes.py:235 | A freshly created draft resumes at personal info. |
| Admissions.PhotoAlonePassesEducation | admissions/routes.py:69-82 | A photo document alone satisfies the education step, because that step only checks for any document. The application then goes to preview, or nowhere once it is submitted. |
| Admissions.ApplicationStep | admissions/routes.py:784-799 | Steps 1 to 7 go to their form in order. Any other number goes to preview. |
| Admissions.ApplicationStepInjective | admissions/routes.py:785-793 | Different valid step numbers lead to different forms, none of them preview. |
| Admissions.MarkAsUsed | admissions/routes.py:247 | Marking a voucher used records the applicant and leaves the PIN, serial, expiry, purchaser and amount unchanged. |
| Admissions.FindVoucher | admissions/routes.py:216 | Finds the first voucher whose PIN and serial both match, or reports that none matches. |
| Admissions.AuthenticationDecision | admissions/routes.py:216-247 | Binds exactly an existing, unexpired, unused voucher. Resumes exactly an existing, unexpired voucher already used by this applicant. An unknown voucher is refused as not found; an expired one as expired, before any use check; a used one not bound to this applicant as used by another. |
| Admissions.ValidationDecision | admissions/routes.py:276-286 | Binds exactly an existing unused voucher and never resumes. An unknown voucher is refused as not found, and a used one as already used. |
| Admissions.ExpiryBeforeUse | admissions/routes.py:222-228 | An expired voucher is refused as expired, whoever used it. |
| Admissions.BindingIsSticky | admissions/routes.py:227-244 | Once bound, the voucher resumes for its owner, is refused for anyone else, and is refused by validation. |
| Admissions.ValidationIgnoresExpiry | admissions/routes.py:276-286 | Validation binds an expired unused voucher that authentication refuses as expired. |
| Admissions.EnsureApplication | admissions/routes.py:251-255 | The applicant ends up with a row: an existing row is kept, and a missing one becomes a new draft. No other row changes. |
| Admissions.ContinueTo | admissions/routes.py:258-259 | After authentication the applicant goes to the next step when there is one, and to the dashboard exactly when there is none. This is never the exam-info step. |
| Admissions.SamplePoints | admissions/routes.py:675-676 | There are 25 sample points, column by column on a 5x5 grid. All lie inside the image, from the top-left to the bottom-right corner. |
| Admissions.WhiteCount | admissions/routes.py:693 | The white count is at most the number of samples. It equals that number exactly when every sample is white, and it is 0 exactly when none is. |
| Admissions.WhiteCountAppend | admissions/routes.py:693 | The count over two runs of samples is the sum of their counts. Together with the bounds above, this fixes the count as the number of white samples. |
| Admissions.ThresholdIsFifteen | admissions/routes.py:695 | A white share of at least 60% of 25 samples means at least 15 white samples. |
| Admissions.PhotoCheck | admissions/routes.py:671-695 | An image with a zero side is an error. Otherwise the photo passes exactly when at least 15 samples are white. |
| Admissions.WithoutPhotos | admissions/routes.py:706-709 | Deleting the photo records keeps exactly the other documents, and never more documents than there were. |
| Admissions.WithoutPhotosAppend | admissions/routes.py:706-709 | Deleting photo records distributes over concatenation. Together with the membership statement above, this means every other document is kept once, in its place. |
| Admissions.ReplacedPhotoPasses | admissions/routes.py:706-716 | After the new photo record is added, the application passes the resolver's photo test. |
| Admissions.FindUnassigned | admissions/routes.py:311-314 | Finds the oldest voucher that is unused and has no purchaser, or reports that there is none. |
| Admissions.AdmissionsOffice.AuthenticateVoucher | admissions/routes.py:202-259 | A missing or zero (falsy) applicant id asks for login. Otherwise it applies AuthenticationDecision: refusals change nothing; a bind marks that voucher used. Both successes ensure an application row and continue to its next step. |
| Admissions.AdmissionsOffice.ValidateVoucher | admissions/routes.py:266-289 | Applies ValidationDecision: refusals change nothing, and a bind marks that voucher used. Applications never change. |
| Admissions.AdmissionsOffice.PurchaseVoucher | admissions/routes.py:309-338 | Assigns the oldest unassigned voucher to the buyer with the new amount. When there is none, appends a new voucher valid for 180 days. Returns its PIN and serial. |
| Admissions.AdmissionsOffice.SaveExamResults | admissions/routes.py:605-629 | Lists of different lengths change nothing. Otherwise the results become exactly the subject/grade pairs, in order, and nothing else changes. A missing application is an error. |
| Admissions.AdmissionsOffice.UploadPassport | admissions/routes.py:666-728 | Empty images, a missing extension or a missing application give an error, and non-white photos are refused; these change nothing. An accepted photo replaces every photo record with one at `applicant_<id>.<ext>`. |
| App.ParseLoginId | app.py:84-89 | An `admin:` prefix gives an admin key. Otherwise a `user:` prefix gives a user key. Each key carries the text after the first colon. |
| App.PrefixSplit | app.py:85 | For a prefix without a colon, the text after the first colon is exactly the rest. |
| App.LoadUser | app.py:80-92 | An account is loaded exactly when the id parses and its public id is in the table of the parsed kind. The loaded account is the one the id names. An id without either prefix loads nothing. |
| App.AdminLoginRoundTrip | app.py:84-86 | Parsing an admin's login id gives back that admin's public id. |
| App.UserLoginRoundTrip | app.py:87-89 | Parsing a user's login id gives back that user's public id. |
| App.LoadUserFindsAdmin | app.py:84-86 | An existing admin is loaded from their own login id. |
| App.LoadUserFindsUser | app.py:87-89 | An existing user is loaded from their own login id. |
| App.StartYear | app.py:176-183 | The filter gives "" for a falsy value. Otherwise it gives the longest prefix of the value containing neither `/` nor `-`: the whole value, or the text up to the first `/` or `-`. |
| App.StartYearIdempotent | app.py:176-183 | Applying the filter twice gives the same result as applying it once. |
| App.RedirectToPortal | app.py:223-234 | A portal name redirects exactly when its lower-case form is one of the four keys, and then to that key's login endpoint. Otherwise it is not found. |
| App.PortalCaseInsensitive | app.py:231 | Redirection depends only on the lower-case form of the portal name. |
| App.SecuredHeaders | app.py:133-136 | The result adds the two header names. The content-type-options header is always `nosniff`. An existing Cache-Control is kept, otherwise it becomes `no-store`. Every other header is unchanged. |
| App.SecuredHeadersIdempotent | app.py:133-136 | Securing the headers twice gives the same result as securing them once. |
| App.Response.SetHeaders | app.py:132-136 | The response's headers become SecuredHeaders of the old ones. |
| Helpers.SelfPairs | utils/helpers.py:34 | Each name becomes the pair (name, name), in order. |
| Helpers.ProgrammeChoices | utils/helpers.py:7-34 | Every choice pairs a programme with itself. The choices hold exactly the certificate and diploma programmes, in strictly ascending code-point order, with no duplicates. |
| Helpers.ClassNamesInSchoolOrder | utils/helpers.py:58-71 | The twelve class names are Primary 1-6, JHS 1-3 and SHS 1-3, in that order. |
| Helpers.ClassChoices | utils/helpers.py:53-71 | There are twelve choices, each pairing the class name of that rank with itself. |
| Helpers.PresentLevels | utils/helpers.py:43 | The kept levels are exactly the non-null ones. |
| Helpers.PresentLevelsAppend | utils/helpers.py:43 | Filtering out nulls distributes over concatenation. |
| Helpers.LevelChoices | utils/helpers.py:36-43 | Each non-null level becomes (level, "Level " + level), in query order. |
| Helpers.LevelChoicesDistinct | utils/helpers.py:38-43 | Distinct levels from the query give distinct choices. |
| Helpers.PresentLevelsDistinct | utils/helpers.py:38-43 | Filtering out nulls keeps the levels distinct. |
| Strings.SplitJoin | models.py:714 | Joining parts that contain no separator and splitting the result gives back the parts. |
| Strings.Split | app.py:181 | Splitting gives at least one part. The first part is the text before the first separator, no part contains the separator, and the parts joined by the separator give the input back. |
| Strings.AfterFirst | app.py:85 | The text is the part before the first colon, the colon, then the result. |
| Strings.DecimalString | admissions/routes.py:698 | The applicant id is written as decimal digits that denote exactly that number, with no leading zero; 0 is written as the single digit `0`. |
| Strings.AfterLast | admissions/routes.py:697 | The result is the suffix after the last dot, and contains no dot. |
| Strings.Lower | app.py:231 | Lower-casing keeps the length and maps each ASCII capital to its small letter. |
| Strings.LowerIdempotent | app.py:231 | Lower-casing twice gives the same result as lower-casing once. |
| Strings.SortedDistinct | utils/helpers.py:33 | The result is strictly ascending and has exactly the input's elements. |
| Strings.SortedDistinctUnique | utils/helpers.py:33 | Any strictly ascending sequence with the same elements is that result. |

## Left out

- The database, ORM sessions, commits and queries are not modelled. Tables are sequences or maps. `.first()` on a filter is the first match in creation order, and each applicant has at most one application row.
- Hashing, random PIN/serial generation and `uuid` are not modelled. The token hash and the new PIN and serial are parameters.
- Clocks are parameters: `utcnow()` is `now` in seconds and `today` is a day number.
- File and image I/O is not modelled: saving, renaming and removing files, `os.listdir` for the existing passport, PIL decoding. The image arrives as its width, its height and a whiteness predicate per pixel.
- The HSV and RGB float test in `is_white_pixel` is abstract: it is the `isWhite` parameter.
- The float expression `int(width*i/4)` is modelled as integer division. The two agree for widths and heights below 2^51, where every multiple of a quarter is an exact double. Above that, the float division can round up where integer division does not.
- `secure_filename` is not modelled; the file name arrives already sanitised.
- Form validation, CSRF, flash messages, templates and `url_for` are not modelled. Routes are the `Step` values and endpoint strings.
- The session is an optional applicant id.
- Only `strip()`-ed PIN and serial inputs are modelled; whitespace handling is not.
- `Admissions.MarkAsUsed` assumes the effect of `mark_as_used` (setting the used flag and the user, keeping every other field), because the source body of that method is not among the modelled files.
- The dead payment-failure branch of `purchase_voucher` is not modelled, since `payment_success` is always true there. The e-mail sending is left out too.
- Python's Unicode `lower()` is modelled only on ASCII. It is used on the portal keys and on the upload's file extension. For the portal keys this gives the same answer. For the extension it is exact too, because `secure_filename` only emits ASCII.
- Response headers are a case-sensitive single-valued map. Werkzeug's header object is case-insensitive and multi-valued.
- JSON text in `enabled_types` is modelled as `StoredTypes`: nothing stored, a decoded string-to-bool map, or text that does not decode. A stored value that is not a boolean is not modelled.
- `App.StartYear`: only string values (or none) are modelled. `str()` of other types and the exception path are left out.
- `App.LoadUser`: the admin and user tables are sets of public ids, and the loaded record is represented by its key rather than the row.
- `Models.Admin.HasPermission`: `getattr` on attributes other than the eleven permission columns is treated as an unknown name giving False.
- `Models.Admin.GetAccessibleSections`: returns `Section` values; `SectionName` gives their strings.
- `Helpers.ProgrammeChoices`: does not state the list's length (12) or spell out its literal contents. It states the choices through their set of elements, their order and their uniqueness.
- `get_course_choices` is not modelled; it is only a query followed by a pairing.
- Application setup, logging, login and the remaining routes are not modelled.
- `call_window.py` is not part of this model.
