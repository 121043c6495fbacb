/** The admin section's layout: who may see it, what shows while the user
    is loading, and when the page sends the visitor back to the dashboard. */
module AdminLayout {
  import opened Seqs
  import opened JsValue
  import Permissions

  /** `user?.profile?.role || user?.role`: the profile's role, falling back
      to a role on the user itself. `user` is `null` or `undefined` when
      nobody is signed in. */
  function EffectiveRole(user: Value): (r: Value)
    ensures Truthy(Get(Get(user, "profile"), "role")) ==> r == Get(Get(user, "profile"), "role")
    ensures !Truthy(Get(Get(user, "profile"), "role")) ==> r == Get(user, "role")
  {
    Or(Get(Get(user, "profile"), "role"), Get(user, "role"))
  }

  /** A signed-in user whose effective role is admin or owner. */
  predicate Allowed(user: Value) {
    Truthy(user) && (EffectiveRole(user) == Str("admin") || EffectiveRole(user) == Str("owner"))
  }

  datatype View = Spinner | Nothing | Children

  /** What the layout renders, and whether its effect redirects to the
      dashboard. */
  function Render(user: Value, isLoading: bool): (r: (View, bool))
    ensures isLoading ==> r == (Spinner, false)
    ensures !isLoading && Allowed(user) ==> r == (Children, false)
    ensures !isLoading && !Allowed(user) ==> r == (Nothing, true)
  {
    if isLoading then (Spinner, false)
    else if Allowed(user) then (Children, false)
    else (Nothing, true)
  }

  /** The children show only to an allowed user, and only once loaded. */
  lemma ChildrenOnlyWhenAllowed(user: Value, isLoading: bool)
    ensures Render(user, isLoading).0 == Children <==> !isLoading && Allowed(user)
    ensures Render(user, isLoading).1 <==> !isLoading && !Allowed(user)
  {
  }

  /** A user as the profile endpoint returns it: the role under `profile`. */
  function ProfileUser(role: string): Value
  {
    Obj([("profile", Obj([("role", Str(role))]))])
  }

  /** The layout's role test is the backend's admin check: for a signed-in
      user with a profile, the page lets them in exactly when the API would. */
  lemma AgreesWithIsAdmin(id: nat, role: string)
    ensures Allowed(ProfileUser(role)) <==> Permissions.IsAdmin(Permissions.Requester(id, true, Some(role)))
  {
    var profile := Obj([("role", Str(role))]);
    var user := ProfileUser(role);
    assert EntryIndex(user.fields, "profile") == Some(0);
    assert Get(user, "profile") == profile;
    assert EntryIndex(profile.fields, "role") == Some(0);
    assert Get(profile, "role") == Str(role);
    assert EntryIndex(user.fields, "role").None?;
    assert Get(user, "role") == Undefined;
  }

  /** Nobody signed in is never let in. */
  lemma NoUserNoEntry(user: Value)
    requires user == Null || user == Undefined
    ensures !Allowed(user) && Render(user, false) == (Nothing, true)
  {
  }
}
