/** The API client's pure parts: the message of the error a failed request
    throws, the avatar URL with its cache-busting query, the fields a
    profile update sends, and the login body. The requests themselves, the
    web storage and the token refresh are not part of this model. */
module ApiClient {
  import opened Seqs
  import opened Strings
  import opened JsValue

  // ---------------------------------------------------------------------------
  // Error messages

  /** How an array element reads once joined: `null` and `undefined` as
      nothing, an array as its elements joined by commas, an object as
      `[object Object]`. Numbers are formatted by `numberText`, which stands
      for JavaScript's number-to-string conversion. */
  function ElementText(v: Value, numberText: real -> string): string
    decreases v
  {
    match v
    case Undefined => ""
    case Null => ""
    case Bool(b) => if b then "true" else "false"
    case Num(n) => numberText(n)
    case Str(s) => s
    case Arr(items) => Join(seq(|items|, k requires 0 <= k < |items| => ElementText(items[k], numberText)), ",")
    case Obj(_) => "[object Object]"
  }

  /** `items.join(' ')`. */
  function JoinSpaced(items: seq<Value>, numberText: real -> string): string
  {
    Join(seq(|items|, k requires 0 <= k < |items| => ElementText(items[k], numberText)), " ")
  }

  /** `defaultMsg || \`Request failed with status ${status}\``. */
  function Fallback(defaultMsg: string, status: nat): (r: string)
    ensures defaultMsg != "" ==> r == defaultMsg
    ensures defaultMsg == "" ==> r == "Request failed with status " + NatToString(status)
  {
    if defaultMsg != "" then defaultMsg else "Request failed with status " + NatToString(status)
  }

  /** The field-error line for one entry: arrays are space-joined, strings
      taken as they are, and every other value gives no line. */
  function FieldLine(entry: (string, Value), numberText: real -> string): (r: Option<string>)
    ensures r.Some? <==> entry.1.Arr? || entry.1.Str?
    ensures entry.1.Str? ==> r == Some(entry.0 + ": " + entry.1.s)
    ensures entry.1.Arr? ==> r == Some(entry.0 + ": " + JoinSpaced(entry.1.items, numberText))
  {
    match entry.1
    case Arr(items) => Some(entry.0 + ": " + JoinSpaced(items, numberText))
    case Str(s) => Some(entry.0 + ": " + s)
    case _ => None
  }

  /** A textual entry: one that gives a field-error line. */
  predicate Textual(entry: (string, Value)) { entry.1.Arr? || entry.1.Str? }

  /** The line of a textual entry, and the empty string for any other. */
  function LineText(entry: (string, Value), numberText: real -> string): string
  {
    match FieldLine(entry, numberText)
    case Some(line) => line
    case None => ""
  }

  function LineOf(numberText: real -> string): ((string, Value)) -> string
  {
    (e: (string, Value)) => LineText(e, numberText)
  }

  /** One entry alone gives its line when it is textual and nothing otherwise. */
  lemma SingleEntryLine(last: (string, Value), numberText: real -> string)
    ensures Map(LineOf(numberText), Filter(Textual, [last]))
         == match FieldLine(last, numberText) case Some(line) => [line] case None => []
  {
    assert [last][1..] == [];
  }

  /** The field-error lines of a list of entries, in entry order: the loop
      over the entries is the `filter`-then-`map` reading of them, keeping
      the textual entries and making each its line. */
  function FieldLines(entries: seq<(string, Value)>, numberText: real -> string): (r: seq<string>)
    ensures r == Map(LineOf(numberText), Filter(Textual, entries))
    ensures |r| <= |entries|
    decreases |entries|
  {
    if |entries| == 0 then []
    else
      var init := entries[..|entries| - 1];
      var last := entries[|entries| - 1];
      SingleEntryLine(last, numberText);
      MapAppend(LineOf(numberText), Filter(Textual, init), Filter(Textual, [last]));
      FilterAppend(Textual, init, [last]);
      assert entries == init + [last];
      FieldLines(init, numberText)
        + match FieldLine(last, numberText) case Some(line) => [line] case None => []
  }

  /** One more entry adds its line, if it has one, at the end. */
  lemma FieldLinesStep(entries: seq<(string, Value)>, i: nat, numberText: real -> string)
    requires i < |entries|
    ensures FieldLines(entries[..i + 1], numberText)
         == FieldLines(entries[..i], numberText)
            + match FieldLine(entries[i], numberText) case Some(line) => [line] case None => []
  {
    assert entries[..i + 1][..i] == entries[..i];
  }

  /** Every line names its field first. */
  lemma FieldLinesNameFields(entries: seq<(string, Value)>, numberText: real -> string, i: nat)
    requires i < |FieldLines(entries, numberText)|
    ensures exists k :: 0 <= k < |entries| && Textual(entries[k])
                        && StartsWith(FieldLines(entries, numberText)[i], entries[k].0 + ": ")
  {
    var textual := Filter(Textual, entries);
    var e := textual[i];
    assert e in entries;
    var k :| 0 <= k < |entries| && entries[k] == e;
    var lineText := FieldLines(entries, numberText)[i];
    assert lineText == LineText(e, numberText);
    assert lineText[..|e.0 + ": "|] == e.0 + ": ";
  }

  /** There are lines exactly when some entry is textual. */
  lemma NoLinesIffNoTextual(entries: seq<(string, Value)>, numberText: real -> string)
    ensures |FieldLines(entries, numberText)| == 0 <==> forall k :: 0 <= k < |entries| ==> !Textual(entries[k])
  {
    var textual := Filter(Textual, entries);
    if exists k :: 0 <= k < |entries| && Textual(entries[k]) {
      var k :| 0 <= k < |entries| && Textual(entries[k]);
      assert entries[k] in textual;
    }
  }

  /** The message `handleApiError` throws. `body` is the parsed response
      body, `None` when it does not parse. A string `detail` wins; then an
      array `non_field_errors`, space-joined; then one line per textual
      field; otherwise the fallback. */
  function ErrorMessage(body: Option<Value>, defaultMsg: string, status: nat, numberText: real -> string): (r: string)
    ensures body.None? ==> r == Fallback(defaultMsg, status)
    ensures body.Some? && !Truthy(body.value) ==> r == Fallback(defaultMsg, status)
  {
    match body
    case None => Fallback(defaultMsg, status)
    case Some(data) =>
      if !Truthy(data) then Fallback(defaultMsg, status)
      else if Get(data, "detail").Str? then Get(data, "detail").s
      else if Get(data, "non_field_errors").Arr? then JoinSpaced(Get(data, "non_field_errors").items, numberText)
      else
        var parts := FieldLines(Entries(data), numberText);
        if |parts| > 0 then Join(parts, "\n") else Fallback(defaultMsg, status)
  }

  /** `handleApiError`: the pass over the body's entries collecting the
      field-error lines, then the choice of message. The function above is
      what it computes. */
  method HandleApiError(body: Option<Value>, defaultMsg: string, status: nat, numberText: real -> string)
    returns (message: string)
    ensures message == ErrorMessage(body, defaultMsg, status, numberText)
  {
    if body.None? {
      return Fallback(defaultMsg, status);
    }
    var data := body.value;
    if Truthy(data) {
      var detail := Get(data, "detail");
      if detail.Str? {
        return detail.s;
      }
      var nonField := Get(data, "non_field_errors");
      if nonField.Arr? {
        return JoinSpaced(nonField.items, numberText);
      }
      var entries := Entries(data);
      var parts: seq<string> := [];
      var i := 0;
      while i < |entries|
        invariant 0 <= i <= |entries|
        invariant parts == FieldLines(entries[..i], numberText)
      {
        FieldLinesStep(entries, i, numberText);
        var (key, value) := entries[i];
        if value.Arr? {
          parts := parts + [key + ": " + JoinSpaced(value.items, numberText)];
        } else if value.Str? {
          parts := parts + [key + ": " + value.s];
        }
        i := i + 1;
      }
      assert entries[..i] == entries;
      if |parts| > 0 {
        return Join(parts, "\n");
      }
    }
    message := Fallback(defaultMsg, status);
  }

  /** A string `detail` in an object body is the message, whatever else the
      body holds. */
  lemma DetailTakesPrecedence(fields: seq<(string, Value)>, defaultMsg: string, status: nat, numberText: real -> string)
    requires Get(Obj(fields), "detail").Str?
    ensures ErrorMessage(Some(Obj(fields)), defaultMsg, status, numberText) == Get(Obj(fields), "detail").s
  {
  }

  /** Without a string `detail`, an array `non_field_errors` is the message,
      its elements joined by spaces. */
  lemma NonFieldErrorsNext(fields: seq<(string, Value)>, defaultMsg: string, status: nat, numberText: real -> string)
    requires !Get(Obj(fields), "detail").Str? && Get(Obj(fields), "non_field_errors").Arr?
    ensures ErrorMessage(Some(Obj(fields)), defaultMsg, status, numberText)
         == JoinSpaced(Get(Obj(fields), "non_field_errors").items, numberText)
  {
  }

  /** An object body with neither gives its field lines, or the fallback when
      no field is textual. */
  lemma FieldErrorsLast(fields: seq<(string, Value)>, defaultMsg: string, status: nat, numberText: real -> string)
    requires !Get(Obj(fields), "detail").Str? && !Get(Obj(fields), "non_field_errors").Arr?
    ensures (forall k :: 0 <= k < |fields| ==> !Textual(fields[k]))
        ==> ErrorMessage(Some(Obj(fields)), defaultMsg, status, numberText) == Fallback(defaultMsg, status)
    ensures (exists k :: 0 <= k < |fields| && Textual(fields[k]))
        ==> ErrorMessage(Some(Obj(fields)), defaultMsg, status, numberText) == Join(FieldLines(fields, numberText), "\n")
  {
    NoLinesIffNoTextual(fields, numberText);
  }

  /** The status code shows only when there is no default message: with one,
      the message does not depend on the status. */
  lemma StatusOnlyWithoutDefault(body: Option<Value>, defaultMsg: string, s1: nat, s2: nat, numberText: real -> string)
    requires defaultMsg != ""
    ensures ErrorMessage(body, defaultMsg, s1, numberText) == ErrorMessage(body, defaultMsg, s2, numberText)
  {
  }

  /** The status message carries the status: the text after its fixed prefix
      parses back to the code. */
  lemma StatusMessageCarriesStatus(status: nat)
    ensures var m := Fallback("", status); var prefix := "Request failed with status ";
      StartsWith(m, prefix) && ParseInt(m[|prefix|..]) == Some(status)
  {
    var prefix := "Request failed with status ";
    var m := Fallback("", status);
    assert m[|prefix|..] == NatToString(status);
    assert m[..|prefix|] == prefix;
    ParseNatToString(status);
  }

  // ---------------------------------------------------------------------------
  // Avatar URL

  /** `getAvatarUrl(path)`: `None` for a missing or empty path; otherwise a
      full URL (paths not starting with "http" get the backend's origin
      `backendUrl` prefixed) with `t=<now>` appended, after `&` when the URL
      already has a query and after `?` when not. `now` is `Date.now()`. */
  function AvatarUrl(path: Option<string>, backendUrl: string, now: nat): (r: Option<string>)
    ensures r.None? <==> path.None? || path.value == ""
  {
    match path
    case None => None
    case Some(p) =>
      if p == "" then None
      else
        var url := if StartsWith(p, "http") then p else backendUrl + p;
        Some(url + (if '?' in url then "&" else "?") + "t=" + NatToString(now))
  }

  /** The URL before the cache-busting query: the path itself when it is
      absolute, else the backend's origin and the path. */
  function BaseUrl(p: string, backendUrl: string): string
  {
    if StartsWith(p, "http") then p else backendUrl + p
  }

  /** The avatar URL is its base URL, then `&` when the base already has a
      query and `?` when not, then `t=` and digits that parse back to `now`;
      so it always has a query. */
  lemma AvatarUrlExtendsBase(p: string, backendUrl: string, now: nat)
    requires p != ""
    ensures var r := AvatarUrl(Some(p), backendUrl, now).value; var b := BaseUrl(p, backendUrl);
      |r| >= |b| + 4 && r[..|b|] == b
      && r[|b|] == (if '?' in b then '&' else '?')
      && r[|b| + 1..|b| + 3] == "t="
      && ParseInt(r[|b| + 3..]) == Some(now)
      && '?' in r
  {
    var url := BaseUrl(p, backendUrl);
    var r := AvatarUrl(Some(p), backendUrl, now).value;
    var sep := if '?' in url then "&" else "?";
    assert r == url + sep + "t=" + NatToString(now);
    assert r[..|url|] == url;
    assert r[|url| + 3..] == NatToString(now);
    ParseNatToString(now);
    if '?' in url {
      var k :| 0 <= k < |url| && url[k] == '?';
      assert r[k] == '?';
    } else {
      assert r[|url|] == '?';
    }
  }

  /** Two different times give two different URLs, so a cached avatar is
      never reused after a change. */
  lemma AvatarUrlBustsCache(p: string, backendUrl: string, t1: nat, t2: nat)
    requires p != "" && t1 != t2
    ensures AvatarUrl(Some(p), backendUrl, t1) != AvatarUrl(Some(p), backendUrl, t2)
  {
    var url := BaseUrl(p, backendUrl);
    var head := url + (if '?' in url then "&" else "?") + "t=";
    var r1 := AvatarUrl(Some(p), backendUrl, t1).value;
    var r2 := AvatarUrl(Some(p), backendUrl, t2).value;
    assert r1 == head + NatToString(t1);
    assert r2 == head + NatToString(t2);
    if r1 == r2 {
      assert r1[|head|..] == NatToString(t1);
      assert r2[|head|..] == NatToString(t2);
      NatToStringInjective(t1, t2);
    }
  }

  // ---------------------------------------------------------------------------
  // Profile update and login

  /** The arguments of `updateProfile`; `None` is `undefined`. */
  datatype ProfileChanges = ProfileChanges(
    firstName: Option<string>, lastName: Option<string>, username: Option<string>,
    email: Option<string>, password: Option<string>, role: Option<string>,
    accentColor: Option<string>, avatarFile: Option<string>)

  /** A text part of the form, appended only when the value is defined. */
  function Part(name: string, value: Option<string>): (r: seq<(string, string)>)
    ensures value.None? ==> r == []
    ensures value.Some? ==> r == [(name, value.value)]
  {
    if value.Some? then [(name, value.value)] else []
  }

  /** The password is sent only when it is not blank. */
  function PasswordPart(password: Option<string>): (r: seq<(string, string)>)
    ensures r == [] <==> password.None? || Blank(password.value)
    ensures r != [] ==> r == [("password", password.value)]
  {
    TrimEmptyIffBlank(if password.Some? then password.value else "");
    if password.Some? && Trim(password.value) != "" then [("password", password.value)] else []
  }

  /** The multipart form `updateProfile` sends, part by part in its order;
      the avatar file is named by its file name here. */
  function ProfileForm(c: ProfileChanges): seq<(string, string)>
  {
    Part("first_name", c.firstName) + Part("last_name", c.lastName) + Part("username", c.username)
    + Part("email", c.email) + PasswordPart(c.password) + Part("role", c.role)
    + Part("accent_color", c.accentColor) + Part("avatar", c.avatarFile)
  }

  /** The value the form carries for a field, if any. */
  function FormValue(form: seq<(string, string)>, name: string): (r: Option<string>)
    ensures r.Some? <==> exists k :: 0 <= k < |form| && form[k].0 == name
    decreases |form|
  {
    if |form| == 0 then None
    else if form[0].0 == name then Some(form[0].1)
    else
      var rest := FormValue(form[1..], name);
      assert forall k :: 1 <= k < |form| ==> form[k] == form[1..][k - 1];
      rest
  }

  lemma FormValueAppend(a: seq<(string, string)>, b: seq<(string, string)>, name: string)
    ensures FormValue(a + b, name) == if FormValue(a, name).Some? then FormValue(a, name) else FormValue(b, name)
    decreases |a|
  {
    if |a| > 0 {
      assert (a + b)[1..] == a[1..] + b;
      FormValueAppend(a[1..], b, name);
    } else {
      assert a + b == b;
    }
  }

  /** The first of two values that is defined. */
  function OrElse(a: Option<string>, b: Option<string>): Option<string>
  {
    if a.Some? then a else b
  }

  /** A field's value in the profile form is the first one its parts carry. */
  lemma ProfileFormLookup(c: ProfileChanges, name: string)
    ensures FormValue(ProfileForm(c), name)
         == OrElse(OrElse(OrElse(OrElse(OrElse(OrElse(OrElse(
              FormValue(Part("first_name", c.firstName), name), FormValue(Part("last_name", c.lastName), name)),
              FormValue(Part("username", c.username), name)), FormValue(Part("email", c.email), name)),
              FormValue(PasswordPart(c.password), name)), FormValue(Part("role", c.role), name)),
              FormValue(Part("accent_color", c.accentColor), name)), FormValue(Part("avatar", c.avatarFile), name))
  {
    var p1 := Part("first_name", c.firstName);
    var p2 := Part("last_name", c.lastName);
    var p3 := Part("username", c.username);
    var p4 := Part("email", c.email);
    var p5 := PasswordPart(c.password);
    var p6 := Part("role", c.role);
    var p7 := Part("accent_color", c.accentColor);
    var p8 := Part("avatar", c.avatarFile);
    FormValueAppend(p1 + p2 + p3 + p4 + p5 + p6 + p7, p8, name);
    FormValueAppend(p1 + p2 + p3 + p4 + p5 + p6, p7, name);
    FormValueAppend(p1 + p2 + p3 + p4 + p5, p6, name);
    FormValueAppend(p1 + p2 + p3 + p4, p5, name);
    FormValueAppend(p1 + p2 + p3, p4, name);
    FormValueAppend(p1 + p2, p3, name);
    FormValueAppend(p1, p2, name);
  }

  lemma PartValue(n: string, v: Option<string>, name: string)
    ensures FormValue(Part(n, v), name) == if n == name then v else None
  {
  }

  lemma PasswordPartValue(password: Option<string>, name: string)
    ensures FormValue(PasswordPart(password), name)
         == if name == "password" && password.Some? && !Blank(password.value) then password else None
  {
  }

  /** What the form should carry for each field name `updateProfile` knows. */
  function Expected(c: ProfileChanges, name: string): Option<string>
  {
    if name == "first_name" then c.firstName
    else if name == "last_name" then c.lastName
    else if name == "username" then c.username
    else if name == "email" then c.email
    else if name == "password" then (if c.password.Some? && !Blank(c.password.value) then c.password else None)
    else if name == "role" then c.role
    else if name == "accent_color" then c.accentColor
    else if name == "avatar" then c.avatarFile
    else None
  }

  /** Each field is sent under its own name with its value, exactly when it
      is defined; the password only when it is not blank; no other field. */
  lemma ProfileFormField(c: ProfileChanges, name: string)
    ensures FormValue(ProfileForm(c), name) == Expected(c, name)
  {
    ProfileFormLookup(c, name);
    PartValue("first_name", c.firstName, name);
    PartValue("last_name", c.lastName, name);
    PartValue("username", c.username, name);
    PartValue("email", c.email, name);
    PasswordPartValue(c.password, name);
    PartValue("role", c.role, name);
    PartValue("accent_color", c.accentColor, name);
    PartValue("avatar", c.avatarFile, name);
  }

  /** The body `login` posts: the user name trimmed, the password as typed. */
  function LoginBody(username: string, password: string): (r: (string, string))
    ensures IsTrimmed(r.0) && r.1 == password
  {
    TrimIsTrimmed(username);
    (Trim(username), password)
  }

  /** Padding around the user name makes no difference to the login. */
  lemma LoginIgnoresPadding(username: string, password: string)
    ensures LoginBody(Trim(username), password) == LoginBody(username, password)
  {
    TrimIsTrimmed(username);
    TrimOfTrimmed(Trim(username));
  }
}
