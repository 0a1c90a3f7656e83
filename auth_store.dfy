/**
 * The session store of `src/store/authStore.ts`: two fields, the signed-in
 * user's profile and a loading flag, overwritten after each step of sign-in,
 * sign-out and the session check. The identity provider's answers and the
 * `users` table are parameters.
 */
module AuthStore {
  import opened Wrappers
  import opened Types
  import Seqs

  /** The identity provider's answer to a password sign-in. */
  datatype AuthOutcome = Authenticated(userId: string) | AuthError

  function HasId(id: string): User -> bool {
    (u: User) => u.id == id
  }

  /**
   * `.from('users').select('*').eq('id', id).single()`: the one row with that
   * id, or null when there is none or more than one.
   */
  function SingleById(users: seq<User>, id: string): (r: Option<User>)
    ensures r.Some? ==> r.value in users && r.value.id == id
    ensures r.Some? ==> forall u :: u in users && u.id == id ==> u == r.value
    ensures (forall u :: u in users ==> u.id != id) ==> r.None?
  {
    var rows := Seqs.Filter(users, HasId(id));
    if |rows| == 1 then
      assert rows[0] in rows;
      Some(rows[0])
    else None
  }

  /** A row whose id no other position of the table carries is the one `single()` returns. */
  lemma {:induction false} SingleRowFound(users: seq<User>, id: string, i: nat)
    requires i < |users| && users[i].id == id
    requires forall j :: 0 <= j < |users| && j != i ==> users[j].id != id
    ensures SingleById(users, id) == Some(users[i])
  {
    OnlyMatchFilters(users, id, i);
  }

  lemma {:induction false} OnlyMatchFilters(users: seq<User>, id: string, i: nat)
    requires i < |users| && users[i].id == id
    requires forall j :: 0 <= j < |users| && j != i ==> users[j].id != id
    ensures Seqs.Filter(users, HasId(id)) == [users[i]]
  {
    if i != 0 {
      OnlyMatchFilters(users[1..], id, i - 1);
    }
  }

  class Store {
    var user: Option<User>
    var loading: bool

    /** The store starts with nobody signed in and a session check pending. */
    constructor ()
      ensures user == None && loading
    {
      user := None;
      loading := true;
    }

    /**
     * `signIn`: an identity-provider error is thrown to the caller (here
     * `ok == false`) and leaves the store as it was; otherwise the user becomes
     * the profile row of the authenticated id. The loading flag is not touched.
     */
    method SignIn(outcome: AuthOutcome, users: seq<User>) returns (ok: bool)
      modifies this
      ensures ok <==> outcome.Authenticated?
      ensures loading == old(loading)
      ensures !ok ==> user == old(user)
      ensures ok ==> user == SingleById(users, outcome.userId)
    {
      if outcome.AuthError? {
        return false;
      }
      user := SingleById(users, outcome.userId);
      ok := true;
    }

    /** `signOut`: nobody is signed in afterwards; the loading flag is not touched. */
    method SignOut()
      modifies this
      ensures user == None
      ensures loading == old(loading)
    {
      user := None;
    }

    /**
     * `checkAuth`: without a session the user is cleared; with one the user is
     * the profile row of the session's user. Either way loading ends.
     */
    method CheckAuth(session: Option<string>, users: seq<User>)
      modifies this
      ensures !loading
      ensures session.None? ==> user == None
      ensures session.Some? ==> user == SingleById(users, session.value)
    {
      if session.None? {
        user, loading := None, false;
        return;
      }
      user, loading := SingleById(users, session.value), false;
    }
  }
}
