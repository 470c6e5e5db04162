/**
 * The application-level glue: turning a Flask-Login id back into an admin or
 * user key, the `start_year` template filter, the portal redirect table and
 * the security headers added to every response.
 */
module App {

  import opened Wrappers
  import opened Strings
  import Models

  // ===========================================================================
  // Login ids
  // ===========================================================================

  /** Which table a login id names, and the public id to look up there. */
  datatype LoginKey = AdminKey(publicId: string) | UserKey(publicId: string)

  /** The parse of `load_user`: an `admin:` or `user:` prefix, then the text after the first colon. */
  function ParseLoginId(userId: string): (r: Option<LoginKey>)
    ensures r.Some? && r.value.AdminKey? <==> StartsWith(userId, "admin:")
    ensures r.Some? && r.value.UserKey? <==> !StartsWith(userId, "admin:") && StartsWith(userId, "user:")
    ensures r.Some? && r.value.AdminKey? ==> r.value.publicId == userId[6..]
    ensures r.Some? && r.value.UserKey? ==> r.value.publicId == userId[5..]
  {
    if StartsWith(userId, "admin:") then
      assert userId == "admin" + ":" + userId[6..];
      PrefixSplit("admin", userId[6..]);
      Some(AdminKey(AfterFirst(userId, ':')))
    else if StartsWith(userId, "user:") then
      assert userId == "user" + ":" + userId[5..];
      PrefixSplit("user", userId[5..]);
      Some(UserKey(AfterFirst(userId, ':')))
    else None
  }

  /** `split(":", 1)[1]` of a colon-free prefix, a colon and `rest` is `rest`, colons in `rest` or not. */
  lemma PrefixSplit(prefix: string, rest: string)
    requires ':' !in prefix
    ensures ':' in prefix + ":" + rest && AfterFirst(prefix + ":" + rest, ':') == rest
  {
    SplitAtSeparator(prefix, ':', rest);
  }

  /**
   * `load_user`: the admin or user whose public id follows the prefix, when
   * the table (given as its set of public ids) has one; None otherwise.
   */
  function LoadUser(userId: string, adminIds: set<string>, userIds: set<string>): (r: Option<LoginKey>)
    ensures r.Some? ==> ParseLoginId(userId) == r
    ensures r.Some? && r.value.AdminKey? ==> r.value.publicId in adminIds
    ensures r.Some? && r.value.UserKey? ==> r.value.publicId in userIds
    ensures !StartsWith(userId, "admin:") && !StartsWith(userId, "user:") ==> r.None?
    ensures r.Some? <==>
      ParseLoginId(userId).Some? &&
      ParseLoginId(userId).value.publicId in (if ParseLoginId(userId).value.AdminKey? then adminIds else userIds)
  {
    match ParseLoginId(userId)
    case Some(AdminKey(uid)) => if uid in adminIds then Some(AdminKey(uid)) else None
    case Some(UserKey(uid)) => if uid in userIds then Some(UserKey(uid)) else None
    case None => None
  }

  /** Parsing an admin's login id gives back its public id, even one holding a colon. */
  lemma AdminLoginRoundTrip(a: Models.Admin)
    ensures ParseLoginId(a.GetId()) == Some(AdminKey(a.publicId))
  {
  }

  /** Parsing a user's login id gives back its public id, even one holding a colon. */
  lemma UserLoginRoundTrip(u: Models.User)
    ensures ParseLoginId(u.GetId()) == Some(UserKey(u.publicId))
  {
  }

  /** An admin whose public id is in the admin table is loaded from its own login id. */
  lemma LoadUserFindsAdmin(a: Models.Admin, adminIds: set<string>, userIds: set<string>)
    requires a.publicId in adminIds
    ensures LoadUser(a.GetId(), adminIds, userIds) == Some(AdminKey(a.publicId))
  {
    AdminLoginRoundTrip(a);
  }

  /** A user whose public id is in the user table is loaded from its own login id. */
  lemma LoadUserFindsUser(u: Models.User, adminIds: set<string>, userIds: set<string>)
    requires u.publicId in userIds
    ensures LoadUser(u.GetId(), adminIds, userIds) == Some(UserKey(u.publicId))
  {
    UserLoginRoundTrip(u);
  }

  // ===========================================================================
  // The start_year filter
  // ===========================================================================

  /**
   * `_start_year_filter` on a string value: '' when falsy, else the text before the first '/' and then the first '-'.
   * The result is the longest prefix of the value that holds neither '/' nor '-'.
   */
  function StartYear(val: Option<string>): (r: string)
    ensures '/' !in r && '-' !in r
    ensures Truthy(val) ==> |r| <= |val.value| && r == val.value[..|r|]
    ensures Truthy(val) ==> |r| == |val.value| || val.value[|r|] in {'/', '-'}
    ensures !Truthy(val) ==> r == ""
  {
    if !Truthy(val) then ""
    else
      var a := BeforeFirst(val.value, '/');
      var b := BeforeFirst(a, '-');
      assert b == a[..|b|];
      Split(Split(val.value, '/')[0], '-')[0]
  }

  /** The filter is idempotent. */
  lemma StartYearIdempotent(val: Option<string>)
    ensures StartYear(Some(StartYear(val))) == StartYear(val)
  {
  }

  // ===========================================================================
  // Portal redirects
  // ===========================================================================

  /** The login endpoint of each portal. */
  const PortalEndpoints: map<string, string> := map[
    "exams" := "exam.exam_login",
    "teachers" := "teacher.teacher_login",
    "students" := "student.student_login",
    "vclass" := "vclass.vclass_login"]

  /** The login endpoint for a portal name in any letter case; None stands for the 404 abort. */
  function RedirectToPortal(portal: string): (r: Option<string>)
    ensures r.Some? <==> Lower(portal) in {"exams", "teachers", "students", "vclass"}
    ensures r.Some? ==> r.value == PortalEndpoints[Lower(portal)]
  {
    var key := Lower(portal);
    if key !in PortalEndpoints then None else Some(PortalEndpoints[key])
  }

  /** Letter case does not matter to the portal table. */
  lemma PortalCaseInsensitive(portal: string)
    ensures RedirectToPortal(portal) == RedirectToPortal(Lower(portal))
  {
    LowerIdempotent(portal);
  }

  // ===========================================================================
  // Response headers
  // ===========================================================================

  /** The headers after `set_headers`: nosniff always, no-store unless a Cache-Control is already there. */
  function SecuredHeaders(h: map<string, string>): (r: map<string, string>)
    ensures r.Keys == h.Keys + {"X-Content-Type-Options", "Cache-Control"}
    ensures r["X-Content-Type-Options"] == "nosniff"
    ensures r["Cache-Control"] == if "Cache-Control" in h then h["Cache-Control"] else "no-store"
    ensures forall k :: k in h && k != "X-Content-Type-Options" && k != "Cache-Control" ==> r[k] == h[k]
  {
    var nosniff := h["X-Content-Type-Options" := "nosniff"];
    if "Cache-Control" in nosniff then nosniff else nosniff["Cache-Control" := "no-store"]
  }

  /** Adding the headers twice is adding them once. */
  lemma SecuredHeadersIdempotent(h: map<string, string>)
    ensures SecuredHeaders(SecuredHeaders(h)) == SecuredHeaders(h)
  {
  }

  class Response {
    var headers: map<string, string>

    constructor (headers: map<string, string>)
      ensures this.headers == headers
    {
      this.headers := headers;
    }

    /** Sets nosniff, sets no-store only if absent, and touches no other header. */
    method SetHeaders()
      modifies this
      ensures headers == SecuredHeaders(old(headers))
    {
      headers := headers["X-Content-Type-Options" := "nosniff"];
      if "Cache-Control" !in headers {
        headers := headers["Cache-Control" := "no-store"];
      }
    }
  }
}
