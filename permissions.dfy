/** The backend's role permissions and its owner-or-read-only object
    permission. */
module Permissions {
  import opened Seqs

  const RoleOwner := "owner"
  const RoleAdmin := "admin"
  const RoleUser := "user"
  const RoleViewer := "viewer"

  /** The roles a profile may be created with. */
  const RoleChoices: seq<string> := [RoleOwner, RoleAdmin, RoleUser, RoleViewer]

  /** A requester: its primary key, whether it is a signed-in user (the
      anonymous user is not), and its profile's role when it has a
      profile. */
  datatype Requester = Requester(id: nat, authenticated: bool, profileRole: Option<string>)

  /** `IsOwner.has_permission`. */
  predicate IsOwner(u: Requester) {
    u.authenticated && u.profileRole.Some? && u.profileRole.value == RoleOwner
  }

  /** `IsAdmin.has_permission`: signed in with a profile, and the role is
      owner or admin. */
  predicate IsAdmin(u: Requester) {
    if !(u.authenticated && u.profileRole.Some?) then false
    else u.profileRole.value in [RoleOwner, RoleAdmin]
  }

  /** Every owner is an admin. */
  lemma OwnerIsAdmin(u: Requester)
    requires IsOwner(u)
    ensures IsAdmin(u)
  {
  }

  /** Exactly the owner and admin roles pass the admin check: user, viewer
      and every other role fail both checks. */
  lemma AdminRoles(u: Requester)
    requires u.authenticated && u.profileRole.Some?
    ensures IsAdmin(u) <==> u.profileRole.value == RoleOwner || u.profileRole.value == RoleAdmin
    ensures u.profileRole.value in [RoleUser, RoleViewer] ==> !IsAdmin(u) && !IsOwner(u)
  {
  }

  /** Without a profile or a sign-in nobody passes either check. */
  lemma NoProfileNoRole(u: Requester)
    requires !u.authenticated || u.profileRole.None?
    ensures !IsOwner(u) && !IsAdmin(u)
  {
  }

  // ---------------------------------------------------------------------------
  // Object permission

  const SafeMethods: seq<string> := ["GET", "HEAD", "OPTIONS"]

  /** The object's `user` and `owner` attributes, as the primary key of the
      user they name; `None` when the attribute is missing or empty. */
  datatype Owned = Owned(user: Option<nat>, owner: Option<nat>)

  /** `getattr(obj, attr, None) == request.user`: only a signed-in user can
      equal a stored user, and then by primary key. */
  predicate Names(attr: Option<nat>, u: Requester) { u.authenticated && attr == Some(u.id) }

  /** `IsOwnerOrReadOnly.has_object_permission`. */
  predicate HasObjectPermission(verb: string, u: Requester, obj: Owned) {
    verb in SafeMethods || Names(obj.user, u) || Names(obj.owner, u)
  }

  /** Reading is allowed to everyone, signed in or not. */
  lemma ReadsAllowed(verb: string, u: Requester, obj: Owned)
    requires verb in ["GET", "HEAD", "OPTIONS"]
    ensures HasObjectPermission(verb, u, obj)
  {
  }

  /** A write is allowed exactly to the user the object names as its user
      or owner, and to nobody when it names neither. */
  lemma WritesOnlyByOwner(verb: string, u: Requester, obj: Owned)
    requires verb !in SafeMethods
    ensures HasObjectPermission(verb, u, obj)
        <==> u.authenticated && (obj.user == Some(u.id) || obj.owner == Some(u.id))
    ensures obj.user.None? && obj.owner.None? ==> !HasObjectPermission(verb, u, obj)
  {
  }
}
