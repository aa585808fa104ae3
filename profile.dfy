/**
 * The profile page's two actions: updating username, email, display name and age, and
 * changing the password. Each checks its form in a fixed order and reports the first
 * problem; only a form that passes every check reaches the user table.
 */
module Profile {
  import opened Wrappers
  import opened Text
  import opened NumberText
  import opened Forms

  datatype Problem =
    | NotLoggedIn
    | UsernameLength | UsernameCharset | InvalidEmail | InvalidAge
    | UsernameTaken | EmailTaken | UpdateFailed
    | PasswordFieldsMissing | PasswordLength | PasswordMismatch
    | UserNotFound | WrongPassword | PasswordChangeFailed

  datatype ProfileForm = ProfileForm(username: Field, email: Field, displayName: Field, age: Field)

  // ---------------------------------------------------------------------------
  // Field checks

  predicate UsernameChar(c: char) {
    'a' <= c <= 'z' || '0' <= c <= '9' || c == '_' || c == '-'
  }

  /** A character allowed on either side of the '@' of an email address. */
  predicate EmailChar(c: char) {
    !IsSpace(c) && c != '@'
  }

  /** The shape that `/^[^\s@]+@[^\s@]+\.[^\s@]+$/` accepts, with the '@' at `at` and the
      chosen '.' at `dot`. */
  ghost predicate EmailShapedAt(e: string, at: int, dot: int) {
    && 0 < at && at + 1 < dot && dot + 1 < |e|
    && e[at] == '@' && e[dot] == '.'
    && forall k :: 0 <= k < |e| && k != at ==> EmailChar(e[k])
  }

  ghost predicate EmailShaped(e: string) {
    exists at, dot :: EmailShapedAt(e, at, dot)
  }

  /** The index of the first character that may not appear in an email's parts, or |e|. */
  function FirstNonEmailChar(e: string): (i: nat)
    ensures i <= |e|
    ensures forall k :: 0 <= k < i ==> EmailChar(e[k])
    ensures i < |e| ==> !EmailChar(e[i])
  {
    if e == [] || !EmailChar(e[0]) then 0 else 1 + FirstNonEmailChar(e[1..])
  }

  /** The regular-expression test, computed from the position of the only '@'. */
  predicate ValidEmail(e: string) {
    var at := FirstNonEmailChar(e);
    && 0 < at < |e| && e[at] == '@'
    && (forall k :: at < k < |e| ==> EmailChar(e[k]))
    && (exists dot :: at + 1 < dot < |e| - 1 && e[dot] == '.')
  }

  /** The computed test accepts exactly the addresses of the regular expression's shape. */
  lemma ValidEmailIff(e: string)
    ensures ValidEmail(e) <==> EmailShaped(e)
  {
    var at := FirstNonEmailChar(e);
    if ValidEmail(e) {
      var dot :| at + 1 < dot < |e| - 1 && e[dot] == '.';
      assert EmailShapedAt(e, at, dot);
    }
    if EmailShaped(e) {
      var a, d :| EmailShapedAt(e, a, d);
      assert a == at;
      assert at + 1 < d < |e| - 1 && e[d] == '.';
    }
  }

  lemma EmailExamples()
    ensures ValidEmail("a@b.c")
    ensures ValidEmail("a@b..c")
    ensures !ValidEmail("a@b")
    ensures !ValidEmail("a@.c")
    ensures !ValidEmail("@b.c")
    ensures !ValidEmail("a@b@c.d")
  {
    assert FirstNonEmailChar("a@b.c") == 1 by {
      assert "a@b.c"[1..] == "@b.c";
    }
    assert "a@b.c"[3] == '.';
    assert FirstNonEmailChar("a@b..c") == 1 by {
      assert "a@b..c"[1..] == "@b..c";
    }
    assert "a@b..c"[3] == '.';
    assert FirstNonEmailChar("a@.c") == 1 by {
      assert "a@.c"[1..] == "@.c";
    }
    assert FirstNonEmailChar("a@b@c.d") == 1 by {
      assert "a@b@c.d"[1..] == "@b@c.d";
    }
    assert !EmailChar("a@b@c.d"[3]);
  }

  /** `parseInt(ageString)` accepted in 1..150. */
  predicate AgeInRange(n: Option<int>) {
    n.Some? && 1 <= n.value <= 150
  }

  /** The checks of `updateProfile` in order; on success, the age to store. */
  function ValidateProfile(form: ProfileForm): (r: Result<Option<int>, Problem>)
    ensures r.Ok? ==> form.username.Some? && 3 <= |form.username.value| <= 31
    ensures r.Ok? ==> forall k :: 0 <= k < |form.username.value| ==> UsernameChar(form.username.value[k])
    ensures r.Ok? && Given(form.email) ==> EmailShaped(form.email.value)
    ensures r.Ok? ==> (r.value.None? <==> !Given(form.age))
    ensures r.Ok? && r.value.Some? ==> 1 <= r.value.value <= 150 && r.value == ParseInt(form.age.value)
    ensures r.Err? ==> r.error in {UsernameLength, UsernameCharset, InvalidEmail, InvalidAge}
  {
    if !Given(form.username) || |form.username.value| < 3 || |form.username.value| > 31 then
      Err(UsernameLength)
    else if exists k :: 0 <= k < |form.username.value| && !UsernameChar(form.username.value[k]) then
      Err(UsernameCharset)
    else if Given(form.email) && !ValidEmail(form.email.value) then
      Err(InvalidEmail)
    else if Given(form.age) && !AgeInRange(ParseInt(form.age.value)) then
      Err(InvalidAge)
    else
      ValidEmailShaped(form.email);
      Ok(if Given(form.age) then ParseInt(form.age.value) else None)
  }

  lemma ValidEmailShaped(email: Field)
    ensures Given(email) && ValidEmail(email.value) ==> EmailShaped(email.value)
  {
    if Given(email) {
      ValidEmailIff(email.value);
    }
  }

  /** Each problem is reported only after every earlier check has passed. */
  lemma ValidateProfileOrder(form: ProfileForm)
    ensures ValidateProfile(form) == Err(UsernameCharset) ==> 3 <= |form.username.value| <= 31
    ensures ValidateProfile(form) == Err(InvalidEmail) ==>
              forall k :: 0 <= k < |form.username.value| ==> UsernameChar(form.username.value[k])
    ensures ValidateProfile(form) == Err(InvalidAge) ==>
              !Given(form.email) || EmailShaped(form.email.value)
  {
    ValidEmailShaped(form.email);
  }

  /** With a well-formed username, an invalid email is reported whatever the age says. */
  lemma BadEmailWinsOverAge(form: ProfileForm)
    requires form.username == Some("writer_01")
    requires form.email == Some("no-at-sign")
    ensures ValidateProfile(form) == Err(InvalidEmail)
  {
    assert FirstNonEmailChar("no-at-sign") == |"no-at-sign"| by {
      NoAtSignAllEmailChars("no-at-sign");
    }
  }

  lemma {:induction false} NoAtSignAllEmailChars(e: string)
    requires forall k :: 0 <= k < |e| ==> EmailChar(e[k])
    ensures FirstNonEmailChar(e) == |e|
    decreases |e|
  {
    if e != [] {
      NoAtSignAllEmailChars(e[1..]);
    }
  }

  /** `changePassword`'s checks before any hashing, in order. */
  function ValidatePassword(current: Field, newPassword: Field, confirm: Field): (r: Option<Problem>)
    ensures r.None? <==>
              Given(current) && Given(newPassword) && Given(confirm)
              && 6 <= |newPassword.value| <= 255 && newPassword.value == confirm.value
    ensures r == Some(PasswordLength) ==> Given(current) && Given(newPassword) && Given(confirm)
    ensures r == Some(PasswordMismatch) ==> Given(newPassword) && 6 <= |newPassword.value| <= 255
  {
    if !Given(current) || !Given(newPassword) || !Given(confirm) then Some(PasswordFieldsMissing)
    else if |newPassword.value| < 6 || |newPassword.value| > 255 then Some(PasswordLength)
    else if newPassword.value != confirm.value then Some(PasswordMismatch)
    else None
  }

  // ---------------------------------------------------------------------------
  // The user table

  /** The columns of the user table that the two actions read or write. The table has no age
      column, so the age the profile form sends is checked but never stored. */
  datatype UserProfile = UserProfile(
    username: string,
    email: Option<string>,
    displayName: Option<string>,
    passwordHash: string,
    updatedAt: int)

  /** `value || null`: an empty or absent field is stored as null. */
  function OrNull(f: Field): (r: Option<string>)
    ensures r.Some? <==> Given(f)
    ensures r.Some? ==> r.value == f.value
  {
    if Given(f) then f else None
  }

  datatype Outcome =
    | Failed(status: int, problem: Problem, echo: Option<ProfileForm>)
    | Succeeded

  predicate UsernameTakenByOther(rows: map<string, UserProfile>, me: string, username: string) {
    exists id :: id in rows && id != me && rows[id].username == username
  }

  predicate EmailTakenByOther(rows: map<string, UserProfile>, me: string, email: string) {
    exists id :: id in rows && id != me && rows[id].email == Some(email)
  }

  class ProfileStore {
    var rows: map<string, UserProfile>

    /** The unique constraints on the username and email columns. */
    predicate Valid()
      reads this
    {
      && (forall a, b :: a in rows && b in rows && a != b ==> rows[a].username != rows[b].username)
      && (forall a, b :: a in rows && b in rows && a != b && rows[a].email.Some? ==> rows[a].email != rows[b].email)
    }

    constructor(rows0: map<string, UserProfile>)
      requires (forall a, b :: a in rows0 && b in rows0 && a != b ==> rows0[a].username != rows0[b].username)
      requires (forall a, b :: a in rows0 && b in rows0 && a != b && rows0[a].email.Some? ==>
                  rows0[a].email != rows0[b].email)
      ensures Valid() && rows == rows0
    {
      rows := rows0;
    }

    /** The `updateProfile` action. `storeFails` says whether a database call throws. The
        validated age is part of the update's values but names no column of the user table,
        so the query builder drops it and the stored row is unchanged in that respect. */
    method UpdateProfile(me: Option<string>, form: ProfileForm, now: int, storeFails: bool)
      returns (outcome: Outcome)
      requires Valid()
      modifies this
      ensures Valid()
      ensures me.None? ==> outcome == Failed(401, NotLoggedIn, None)
      ensures me.Some? && ValidateProfile(form).Err? ==>
                outcome == Failed(400, ValidateProfile(form).error, Some(form))
      ensures outcome == Failed(500, UpdateFailed, Some(form)) <==>
                me.Some? && ValidateProfile(form).Ok? && storeFails
      ensures outcome == Failed(400, UsernameTaken, Some(form)) <==>
                me.Some? && ValidateProfile(form).Ok? && !storeFails
                && UsernameTakenByOther(old(rows), me.value, form.username.value)
      ensures outcome == Failed(400, EmailTaken, Some(form)) <==>
                me.Some? && ValidateProfile(form).Ok? && !storeFails
                && !UsernameTakenByOther(old(rows), me.value, form.username.value)
                && Given(form.email) && EmailTakenByOther(old(rows), me.value, form.email.value)
      ensures outcome.Succeeded? && me.value in old(rows) ==>
                var row := old(rows)[me.value];
                rows == old(rows)[me.value := row.(username := form.username.value, email := OrNull(form.email),
                                                   displayName := OrNull(form.displayName), updatedAt := now)]
      ensures outcome.Succeeded? && me.value !in old(rows) ==> rows == old(rows)
      ensures !outcome.Succeeded? ==> rows == old(rows)
    {
      if me.None? {
        return Failed(401, NotLoggedIn, None);
      }
      var checked := ValidateProfile(form);
      if checked.Err? {
        return Failed(400, checked.error, Some(form));
      }
      if storeFails {
        return Failed(500, UpdateFailed, Some(form));
      }
      var id := me.value;
      var username := form.username.value;
      if UsernameTakenByOther(rows, id, username) {
        return Failed(400, UsernameTaken, Some(form));
      }
      if Given(form.email) && EmailTakenByOther(rows, id, form.email.value) {
        return Failed(400, EmailTaken, Some(form));
      }
      if id in rows {
        var row := rows[id];
        rows := rows[id := row.(username := username, email := OrNull(form.email),
                                displayName := OrNull(form.displayName), updatedAt := now)];
      }
      return Succeeded;
    }

    /** The `changePassword` action; `passwordVerifies` is the verdict of the hash check of
        the current password and `newHash` the hash of the new one. */
    method ChangePassword(me: Option<string>, current: Field, newPassword: Field, confirm: Field,
                          passwordVerifies: bool, newHash: string, now: int, storeFails: bool)
      returns (outcome: Outcome)
      requires Valid()
      modifies this
      ensures Valid()
      ensures me.None? ==> outcome == Failed(401, NotLoggedIn, None)
      ensures me.Some? && ValidatePassword(current, newPassword, confirm).Some? ==>
                outcome == Failed(400, ValidatePassword(current, newPassword, confirm).value, None)
      ensures outcome.Succeeded? <==>
                me.Some? && ValidatePassword(current, newPassword, confirm).None? && !storeFails
                && me.value in old(rows) && passwordVerifies
      ensures outcome == Failed(404, UserNotFound, None) <==>
                me.Some? && ValidatePassword(current, newPassword, confirm).None? && !storeFails
                && me.value !in old(rows)
      ensures me.Some? && ValidatePassword(current, newPassword, confirm).None? && storeFails ==>
                outcome == Failed(500, PasswordChangeFailed, None)
      ensures me.Some? && ValidatePassword(current, newPassword, confirm).None? && !storeFails
              && me.value in old(rows) && !passwordVerifies ==>
                outcome == Failed(400, WrongPassword, None)
      ensures outcome.Succeeded? ==>
                rows == old(rows)[me.value := old(rows)[me.value].(passwordHash := newHash, updatedAt := now)]
      ensures !outcome.Succeeded? ==> rows == old(rows)
    {
      if me.None? {
        return Failed(401, NotLoggedIn, None);
      }
      var problem := ValidatePassword(current, newPassword, confirm);
      if problem.Some? {
        return Failed(400, problem.value, None);
      }
      if storeFails {
        return Failed(500, PasswordChangeFailed, None);
      }
      var id := me.value;
      if id !in rows {
        return Failed(404, UserNotFound, None);
      }
      if !passwordVerifies {
        return Failed(400, WrongPassword, None);
      }
      rows := rows[id := rows[id].(passwordHash := newHash, updatedAt := now)];
      return Succeeded;
    }
  }
}
