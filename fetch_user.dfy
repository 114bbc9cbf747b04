/** `fetchUser` of `data/fetchUser.ts`: the signed-in user's display record,
    each field taken from the first non-empty of the profile row, the auth
    user's metadata and a default. The auth user and the profile row are
    inputs (the source asks Supabase for them). */
module FetchUser {
  import opened JsValue

  /** The auth user: `email`, `user_metadata?.name`, `user_metadata?.avatar_url`. */
  datatype AuthUser = AuthUser(id: string, email: Field, metaName: Field, metaAvatarUrl: Field)

  /** The `profiles` row, as far as it is read. */
  datatype Profile = Profile(fullName: Field, avatar: Field, domain: Field, planName: Field)

  datatype UserData = UserData(name: string, email: string, avatar: string, domain: string, planName: string)

  const DefaultDomain := "example.com"
  const DefaultPlan := "free"

  datatype Column = FullName | Avatar | Domain | PlanName

  /** `profile?.<column>`: absent when there is no row. */
  function Of(row: Option<Profile>, c: Column): Field {
    if row.None? then Undefined
    else
      match c
      case FullName => row.value.fullName
      case Avatar => row.value.avatar
      case Domain => row.value.domain
      case PlanName => row.value.planName
  }

  /** `fetchUser`: nothing without a user; otherwise the `||` chains. A
      missing row (the query's `data` is `null`) reads as all fields absent. */
  function FetchUser(user: Option<AuthUser>, profile: Option<Profile>): Option<UserData> {
    if user.None? then None
    else
      var u := user.value;
      Some(UserData(
        OrElse(Of(profile, FullName), OrElse(u.metaName, OrElse(u.email, ""))),
        OrElse(u.email, ""),
        OrElse(Of(profile, Avatar), OrElse(u.metaAvatarUrl, "")),
        OrElse(Of(profile, Domain), DefaultDomain),
        OrElse(Of(profile, PlanName), DefaultPlan)))
  }

  /** The reference reading of a fallback chain: the first non-empty string
      of `fields`, or `d` when there is none. */
  function FirstTruthy(fields: seq<Field>, d: string): (r: string)
    ensures (exists k :: 0 <= k < |fields| && Truthy(fields[k])) ==>
              exists k :: 0 <= k < |fields| && Truthy(fields[k]) && r == fields[k].s
                          && forall j :: 0 <= j < k ==> !Truthy(fields[j])
    ensures (forall k :: 0 <= k < |fields| ==> !Truthy(fields[k])) ==> r == d
    decreases |fields|
  {
    if fields == [] then d
    else if Truthy(fields[0]) then fields[0].s
    else
      var r := FirstTruthy(fields[1..], d);
      assert forall k :: 1 <= k < |fields| ==> fields[k] == fields[1..][k - 1];
      r
  }

  /** A nested `a || (b || d)` is the first non-empty of the chain. */
  lemma {:induction false} OrElseChain(fields: seq<Field>, d: string)
    ensures FirstTruthy(fields, d) == OrElseAll(fields, d)
    decreases |fields|
  {
    if fields != [] {
      OrElseChain(fields[1..], d);
    }
  }

  /** `fields[0] || fields[1] || ... || d`, written as the source nests it. */
  function OrElseAll(fields: seq<Field>, d: string): string
    decreases |fields|
  {
    if fields == [] then d else OrElse(fields[0], OrElseAll(fields[1..], d))
  }

  /** There is a record exactly when there is a user: without one the
      function ends without returning, so the guest record it builds is
      never what a caller gets. Each field is the first non-empty of its chain: name
      from the profile's `full_name`, the metadata `name`, then the email;
      the email itself; the avatar from the profile, then the metadata
      `avatar_url`; the domain and plan from the profile, defaulting to
      `example.com` and `free`. */
  lemma FetchUserFallbacks(user: Option<AuthUser>, profile: Option<Profile>)
    ensures FetchUser(user, profile).Some? <==> user.Some?
    ensures user.Some? ==>
              var u := user.value;
              var d := FetchUser(user, profile).value;
              && d.name == FirstTruthy([Of(profile, FullName), u.metaName, u.email], "")
              && d.email == FirstTruthy([u.email], "")
              && d.avatar == FirstTruthy([Of(profile, Avatar), u.metaAvatarUrl], "")
              && d.domain == FirstTruthy([Of(profile, Domain)], DefaultDomain)
              && d.planName == FirstTruthy([Of(profile, PlanName)], DefaultPlan)
  {
    if user.Some? {
      var u := user.value;
      OrElseChain([Of(profile, FullName), u.metaName, u.email], "");
      OrElseChain([u.email], "");
      OrElseChain([Of(profile, Avatar), u.metaAvatarUrl], "");
      OrElseChain([Of(profile, Domain)], DefaultDomain);
      OrElseChain([Of(profile, PlanName)], DefaultPlan);
    }
  }

  /** Domain and plan are never empty; with no profile row they are the
      defaults. */
  lemma DomainAndPlanDefaults(user: Option<AuthUser>, profile: Option<Profile>)
    requires user.Some?
    ensures FetchUser(user, profile).value.domain != ""
    ensures FetchUser(user, profile).value.planName != ""
    ensures profile.None? ==> FetchUser(user, profile).value.domain == DefaultDomain
                              && FetchUser(user, profile).value.planName == DefaultPlan
  {
  }

  /** The record built before the user is looked at. */
  const Guest := UserData("Guest", "guest@example.com", "", DefaultDomain, DefaultPlan)

  /** `fetchUser` returning the record it built in every case: the guest
      record without a user. */
  function FetchUserOrGuest(user: Option<AuthUser>, profile: Option<Profile>): UserData {
    var d := FetchUser(user, profile);
    if d.Some? then d.value else Guest
  }

  /** The corrected function always gives a record: the guest record
      exactly when there is no user (a signed-in user's record never has the
      guest's email, since it is the user's own or empty), and otherwise
      the record of the chains. */
  lemma OrGuestSpec(user: Option<AuthUser>, profile: Option<Profile>)
    ensures user.None? ==> FetchUserOrGuest(user, profile) == Guest
    ensures user.Some? ==> Some(FetchUserOrGuest(user, profile)) == FetchUser(user, profile)
    ensures user.Some? && user.value.email != Str("guest@example.com") ==>
              FetchUserOrGuest(user, profile) != Guest
  {
    FetchUserFallbacks(user, profile);
  }
}
