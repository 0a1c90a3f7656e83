/**
 * The user-creation form of `src/pages/NewUser.tsx`: its validation rules,
 * the admin gate, and the two-step submit (sign-up with the identity
 * provider, then the profile row in `users`).
 */
module NewUser {
  import opened Wrappers
  import opened Types
  import EmailPattern
  import Text

  const MinPasswordLength := 8

  datatype NewUserForm = NewUserForm(email: string, password: string, fullName: string, department: string, role: Role)

  /** The identity provider's answer to the sign-up: the new user's id (possibly absent), or an error. */
  datatype SignUpOutcome = SignedUp(userId: Option<string>) | SignUpError

  /** The profile row inserted into `users`. */
  datatype ProfileInsert = ProfileInsert(id: Option<string>, email: string, fullName: string, department: string, role: Role)

  /**
   * The form's rules: name and department required, the address pattern,
   * and `minLength: 8` on the password, counted in UTF-16 code units.
   */
  function FormAccepted(f: NewUserForm): (ok: bool)
    ensures ok <==> f.fullName != "" && f.department != "" && EmailPattern.MatchesPattern(f.email)
                    && Text.Utf16Length(f.password) >= MinPasswordLength
  {
    f.fullName != "" && EmailPattern.FieldAccepts(f.email)
    && f.password != "" && Text.Utf16Length(f.password) >= MinPasswordLength && f.department != ""
  }

  /** A password the sign-in form accepts may still be too short here. */
  lemma SevenCodeUnitsAreNotEnough(f: NewUserForm)
    requires f.fullName != "" && f.department != "" && EmailPattern.MatchesPattern(f.email)
    requires Text.Utf16Length(f.password) == 7
    ensures !FormAccepted(f)
  {
  }

  /** Four emoji are eight code units, so they pass the length rule although they are four characters. */
  lemma FourEmojiPasswordLongEnough(f: NewUserForm)
    requires f.fullName != "" && f.department != "" && EmailPattern.MatchesPattern(f.email)
    requires f.password == "\U{1F600}\U{1F600}\U{1F600}\U{1F600}"
    ensures FormAccepted(f) && |f.password| < MinPasswordLength
  {
    var s := f.password;
    assert s[1..][1..][1..][1..] == "";
    assert Text.Utf16Length(s[1..][1..][1..]) == 2;
    assert Text.Utf16Length(s[1..][1..]) == 4;
    assert Text.Utf16Length(s[1..]) == 6;
  }

  /** The form a profile row was made from, given the password that went only to the sign-up. */
  function FormOf(r: ProfileInsert, password: string): NewUserForm {
    NewUserForm(r.email, password, r.fullName, r.department, r.role)
  }

  /**
   * The row inserted into `users`: the new auth user's id and every field of
   * the form except the password, which goes only to the sign-up.
   */
  function ProfileRow(f: NewUserForm, newId: Option<string>): (r: ProfileInsert)
    ensures r.id == newId
    ensures FormOf(r, f.password) == f
  {
    ProfileInsert(newId, f.email, f.fullName, f.department, f.role)
  }

  /** The password does not reach the profile row, and the rest of the form is recovered from it. */
  lemma ProfileRowKeepsFormButPassword(f: NewUserForm, g: NewUserForm, newId: Option<string>)
    ensures ProfileRow(f, newId) == ProfileRow(g, newId) <==> f.(password := g.password) == g
  {
    if ProfileRow(f, newId) == ProfileRow(g, newId) {
      assert FormOf(ProfileRow(f, newId), g.password) == g;
    }
  }

  class Page {
    var loading: bool
    var navigatedTo: Option<string>

    constructor ()
      ensures !loading && navigatedTo == None
    {
      loading, navigatedTo := false, None;
    }

    /**
     * `onSubmit`, reachable only from the form an admin sees. The profile row
     * is inserted (`profile`) only after a sign-up with no error, with the new
     * auth user's id and the form's fields; the user list opens only when
     * both steps succeed; loading ends on every path that started.
     */
    method Submit(current: Option<User>, form: NewUserForm, signUp: SignUpOutcome, insertOk: bool)
      returns (profile: Option<ProfileInsert>)
      modifies this
      ensures profile.Some? <==> !Restricted(current) && FormAccepted(form) && signUp.SignedUp?
      ensures profile.Some? ==> profile.value == ProfileRow(form, signUp.userId)
      ensures navigatedTo == if profile.Some? && insertOk then Some("/users") else old(navigatedTo)
      ensures loading == if !Restricted(current) && FormAccepted(form) then false else old(loading)
    {
      if Restricted(current) || !FormAccepted(form) {
        return None;
      }
      loading := true;
      if signUp.SignUpError? {
        loading := false;
        return None;
      }
      profile := Some(ProfileRow(form, signUp.userId));
      if insertOk {
        navigatedTo := Some("/users");
      }
      loading := false;
    }
  }
}
