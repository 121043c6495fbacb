/** The signed-in user's profile endpoint: fetching the user (creating a
    missing profile) and the multipart partial update of names, avatar and
    role. */
module ProfileView {
  import opened Seqs
  import Permissions

  /** A user's profile row: the stored avatar's file name, if any, and the
      role. */
  class Profile {
    var avatar: Option<string>
    var role: string

    /** A new profile has no avatar and the default role. */
    constructor ()
      ensures avatar == None && role == Permissions.RoleUser
    {
      avatar := None;
      role := Permissions.RoleUser;
    }
  }

  /** A user row and its related profile (`null` when the row is missing). */
  class Account {
    const id: nat
    var firstName: string
    var lastName: string
    var username: string
    var email: string
    var password: string
    var profile: Profile?

    constructor (id: nat, username: string, email: string, password: string)
      ensures this.id == id && this.username == username && this.email == email && this.password == password
      ensures firstName == "" && lastName == "" && profile == null
    {
      this.id := id;
      this.username := username;
      this.email := email;
      this.password := password;
      firstName := "";
      lastName := "";
      profile := null;
    }
  }

  // ---------------------------------------------------------------------------
  // The same state as values

  datatype ProfileState = ProfileState(avatar: Option<string>, role: string)

  datatype AccountState = AccountState(id: nat, firstName: string, lastName: string, username: string,
                                       email: string, password: string, profile: Option<ProfileState>)

  const NewProfile := ProfileState(None, Permissions.RoleUser)

  /** The value of an account and its profile. */
  function State(u: Account): (s: AccountState)
    reads u, u.profile
    ensures (s.profile == None) == (u.profile == null)
  {
    AccountState(u.id, u.firstName, u.lastName, u.username, u.email, u.password,
                 if u.profile == null then None else Some(ProfileState(u.profile.avatar, u.profile.role)))
  }

  /** `data.get(key, current)`. */
  function FieldOr(data: map<string, string>, key: string, current: string): (r: string)
    ensures key in data ==> r == data[key]
    ensures key !in data ==> r == current
  {
    if key in data then data[key] else current
  }

  /** An uploaded file is truthy when it has a non-empty name. */
  predicate Uploaded(avatarFile: Option<string>) { avatarFile.Some? && avatarFile.value != "" }

  /** A submitted role is used when it is a non-empty string. */
  predicate RoleGiven(data: map<string, string>) { "role" in data && data["role"] != "" }

  /** The account after `put`: the submitted names, the uploaded avatar, the
      submitted role, on the existing profile or on a new one. */
  function PutResult(s: AccountState, data: map<string, string>, avatarFile: Option<string>): (r: AccountState)
    ensures r.id == s.id && r.username == s.username && r.email == s.email && r.password == s.password
    ensures r.profile.Some?
  {
    var p := if s.profile.Some? then s.profile.value else NewProfile;
    var p1 := if Uploaded(avatarFile) then p.(avatar := avatarFile) else p;
    var p2 := if RoleGiven(data) then p1.(role := data["role"]) else p1;
    s.(firstName := FieldOr(data, "first_name", s.firstName),
       lastName := FieldOr(data, "last_name", s.lastName),
       profile := Some(p2))
  }

  /** `put` only touches the names and the profile, and each field changes
      exactly when the request carries a value for it. */
  lemma PutFields(s: AccountState, data: map<string, string>, avatarFile: Option<string>)
    ensures PutResult(s, data, avatarFile).firstName == if "first_name" in data then data["first_name"] else s.firstName
    ensures PutResult(s, data, avatarFile).lastName == if "last_name" in data then data["last_name"] else s.lastName
    ensures PutResult(s, data, avatarFile).profile.value.avatar
         == if Uploaded(avatarFile) then avatarFile
            else if s.profile.Some? then s.profile.value.avatar else None
    ensures PutResult(s, data, avatarFile).profile.value.role
         == if RoleGiven(data) then data["role"]
            else if s.profile.Some? then s.profile.value.role else Permissions.RoleUser
  {
  }

  /** An empty request leaves an account with a profile as it was. */
  lemma EmptyPutChangesNothing(s: AccountState)
    requires s.profile.Some?
    ensures PutResult(s, map[], None) == s
  {
  }

  /** Sending the same update twice is the same as sending it once. */
  lemma PutIdempotent(s: AccountState, data: map<string, string>, avatarFile: Option<string>)
    ensures PutResult(PutResult(s, data, avatarFile), data, avatarFile) == PutResult(s, data, avatarFile)
  {
  }

  /** The role is not checked: any non-empty string is stored, including
      one that is not among the role choices. */
  lemma RoleNotChecked(s: AccountState)
    ensures PutResult(s, map["role" := "superuser"], None).profile.value.role == "superuser"
    ensures "superuser" !in Permissions.RoleChoices
  {
  }

  /** Nor is the caller's privilege: any signed-in user can make themselves
      owner, and then passes the owner and admin checks. */
  lemma SelfPromotion(s: AccountState, data: map<string, string>, avatarFile: Option<string>)
    requires "role" in data && data["role"] == Permissions.RoleOwner
    ensures Permissions.IsOwner(Permissions.Requester(s.id, true,
              Some(PutResult(s, data, avatarFile).profile.value.role)))
    ensures Permissions.IsAdmin(Permissions.Requester(s.id, true,
              Some(PutResult(s, data, avatarFile).profile.value.role)))
  {
  }

  // ---------------------------------------------------------------------------
  // The view's methods

  /** `get_object`: the requesting user, with a profile created first when
      it has none. */
  method GetObject(u: Account) returns (r: Account)
    modifies u
    ensures r == u && u.profile != null
    ensures old(u.profile) != null ==> u.profile == old(u.profile)
    ensures old(u.profile) == null ==> fresh(u.profile) && State(u).profile == Some(NewProfile)
    ensures State(u).(profile := None) == old(State(u)).(profile := None)
    ensures old(u.profile) != null ==> State(u) == old(State(u))
  {
    if u.profile == null {
      var p := new Profile();
      u.profile := p;
    }
    r := u;
  }

  /** `put`: assign the names, make sure there is a profile, then set the
      avatar and role on it. */
  method Put(u: Account, data: map<string, string>, avatarFile: Option<string>)
    modifies u, u.profile
    ensures u.profile != null
    ensures old(u.profile) != null ==> u.profile == old(u.profile)
    ensures old(u.profile) == null ==> fresh(u.profile)
    ensures State(u) == PutResult(old(State(u)), data, avatarFile)
  {
    u.firstName := FieldOr(data, "first_name", u.firstName);
    u.lastName := FieldOr(data, "last_name", u.lastName);
    var profile := u.profile;
    if profile == null {
      profile := new Profile();
      u.profile := profile;
    }
    if Uploaded(avatarFile) {
      profile.avatar := avatarFile;
    }
    if RoleGiven(data) {
      profile.role := data["role"];
    }
  }
}
