/**
 * The user page of `src/pages/Users.tsx`: the admin gate, the filter panel
 * and `filteredUsers`, the conjunction of a text search, a market selector
 * and a status selector, computed on every render but never drawn.
 *
 * The search as written reads `user.name`, a property no `users` row has;
 * `FilteredUsersAsWritten` and `Render` model that code, including the
 * exception it raises, and `FilteredUsers` and `RenderCorrected` the search
 * on `full_name` the page evidently intends.
 */
module Users {
  import opened Wrappers
  import opened Types
  import Seqs
  import Text

  const AllMarkets := "all"
  const AllStatuses := "all"

  /** The market options of the selector besides "all". */
  const Markets: seq<string> := ["IBERIA CX", "FCSD", "FBS"]

  /** `marketFilter === 'all' || user.market === marketFilter`; a null market equals no option. */
  predicate MarketMatches(u: User, market: string) {
    market == AllMarkets || u.market == Some(market)
  }

  /** `statusFilter === 'all' || user.status === statusFilter`. */
  predicate StatusMatches(u: User, status: string) {
    status == AllStatuses || UserStatusName(u.status) == status
  }

  /** The intended search: full name (null read as empty) or email contains the term, ignoring case. */
  predicate SearchMatches(u: User, term: string) {
    var fullName := if u.fullName.Some? then u.fullName.value else "";
    Text.ContainsIgnoringCase(fullName, term) || Text.ContainsIgnoringCase(u.email, term)
  }

  function Kept(term: string, market: string, status: string): User -> bool {
    (u: User) => SearchMatches(u, term) && MarketMatches(u, market) && StatusMatches(u, status)
  }

  /**
   * `filteredUsers` with the search on `full_name`: a user is kept iff the
   * search, market and status conditions all hold, in the input order.
   */
  function FilteredUsers(users: seq<User>, term: string, market: string, status: string): (r: seq<User>)
    ensures forall u :: u in r <==> u in users && SearchMatches(u, term) && MarketMatches(u, market) && StatusMatches(u, status)
    ensures Seqs.IsSubsequence(r, users)
  {
    Seqs.Filter(users, Kept(term, market, status))
  }

  /** The default filters (empty term, all markets, all statuses) keep every user. */
  lemma {:induction false} DefaultFiltersKeepAll(users: seq<User>)
    ensures FilteredUsers(users, "", AllMarkets, AllStatuses) == users
  {
    forall u | u in users ensures Kept("", AllMarkets, AllStatuses)(u) {
      Text.EmptyTermMatches(u.email);
    }
    Seqs.FilterKeepsAll(users, Kept("", AllMarkets, AllStatuses));
  }

  /** The search of the code as written, defined only for a user that has a `name`. */
  predicate SearchMatchesAsWritten(u: User, term: string)
    requires u.name.Some?
  {
    Text.ContainsIgnoringCase(u.name.value, term) || Text.ContainsIgnoringCase(u.email, term)
  }

  function KeptAsWritten(term: string, market: string, status: string): User -> bool {
    (u: User) => u.name.Some? && SearchMatchesAsWritten(u, term) && MarketMatches(u, market) && StatusMatches(u, status)
  }

  /**
   * `filteredUsers` as written. `user.name.toLowerCase()` throws a TypeError
   * (None here) as soon as the filter reaches a user without `name`; when
   * every user has one, the result is the conjunction filter on `name`.
   */
  function FilteredUsersAsWritten(users: seq<User>, term: string, market: string, status: string)
    : (r: Option<seq<User>>)
    ensures r.None? <==> exists i :: 0 <= i < |users| && users[i].name.None?
    ensures r.Some? ==> r.value == Seqs.Filter(users, KeptAsWritten(term, market, status))
  {
    if users == [] then Some([])
    else if users[0].name.None? then None
    else
      var u := users[0];
      match FilteredUsersAsWritten(users[1..], term, market, status)
      case None =>
        assert exists i :: 0 <= i < |users| && users[i].name.None? by {
          var i :| 0 <= i < |users[1..]| && users[1..][i].name.None?;
          assert users[i + 1] == users[1..][i];
        }
        None
      case Some(rest) =>
        assert forall i :: 0 <= i < |users| ==> users[i].name.Some? by {
          forall i | 0 <= i < |users| ensures users[i].name.Some? {
            if i > 0 {
              assert users[i] == users[1..][i - 1];
            }
          }
        }
        Some(if KeptAsWritten(term, market, status)(u) then [u] + rest else rest)
  }

  /**
   * The rows the table returns have no `name`, so with any filters at all the
   * list as written crashes as soon as there is one user.
   */
  lemma TableRowsCrashTheFilter(users: seq<User>, term: string, market: string, status: string)
    requires users != []
    requires forall u :: u in users ==> u.name.None?
    ensures FilteredUsersAsWritten(users, term, market, status).None?
  {
    assert users[0] in users;
  }

  /** A concrete table row: the admin list as written fails on it; the intended search finds it. */
  lemma OneRowShowsTheCrash()
    ensures
      var row := User("u1", "ana@example.com", Admin, "2024-01-01", Some("Ana"), None, Some("FCSD"), Active, None);
      && FilteredUsersAsWritten([row], "", AllMarkets, AllStatuses) == None
      && FilteredUsers([row], "ana", AllMarkets, AllStatuses) == [row]
  {
    var row := User("u1", "ana@example.com", Admin, "2024-01-01", Some("Ana"), None, Some("FCSD"), Active, None);
    assert Text.Lower("Ana") == "ana";
    assert Text.Lower("ana") == "ana";
    assert Text.StartsWith(Text.Lower("Ana"), Text.Lower("ana"));
    assert SearchMatches(row, "ana");
  }

  /** Choosing one of the market options keeps exactly the users of that market. */
  lemma MarketOptionSelectsItsUsers(users: seq<User>, m: string)
    requires m in Markets
    ensures forall u :: u in FilteredUsers(users, "", m, AllStatuses) <==> u in users && u.market == Some(m)
  {
    forall u | u in users {
      Text.EmptyTermMatches(u.email);
    }
  }

  /**
   * What the page shows. An admin sees the heading, the "Nuevo Usuario"
   * button and the three filter controls holding their values; the page draws
   * no list, so `filtered` is the value it computes on each render and never
   * displays. `RenderFails` is the `TypeError` the render throws instead.
   */
  datatype View =
    | RestrictedNotice
    | RenderFails
    | FilterPanel(term: string, market: string, status: string, filtered: seq<User>)

  /**
   * The render as written: the admin gate, then `filteredUsers` computed with
   * the search on `user.name`, which throws on any row without a `name`.
   */
  function Render(current: Option<User>, users: seq<User>, term: string, market: string, status: string): (v: View)
    ensures v.RestrictedNotice? <==> Restricted(current)
    ensures v.RenderFails? <==> !Restricted(current) && exists i :: 0 <= i < |users| && users[i].name.None?
    ensures v.FilterPanel? ==> v.term == term && v.market == market && v.status == status
    ensures v.FilterPanel? ==> v.filtered == Seqs.Filter(users, KeptAsWritten(term, market, status))
  {
    if Restricted(current) then RestrictedNotice
    else match FilteredUsersAsWritten(users, term, market, status)
      case None => RenderFails
      case Some(rows) => FilterPanel(term, market, status, rows)
  }

  /** An admin whose table has at least one row, none with a `name`, gets the exception and not the page. */
  lemma AdminPageFailsOnTableRows(current: Option<User>, users: seq<User>, term: string, market: string, status: string)
    requires current.Some? && current.value.role == Admin
    requires users != [] && forall u :: u in users ==> u.name.None?
    ensures Render(current, users, term, market, status) == RenderFails
  {
    TableRowsCrashTheFilter(users, term, market, status);
  }

  /**
   * The render with the search on `full_name`: an admin always gets the
   * panel, whose computed list is `FilteredUsers`.
   */
  function RenderCorrected(current: Option<User>, users: seq<User>, term: string, market: string, status: string): (v: View)
    ensures v.RestrictedNotice? <==> Restricted(current)
    ensures !v.RenderFails?
    ensures v.FilterPanel? ==> v.term == term && v.market == market && v.status == status
    ensures v.FilterPanel? ==> forall u :: u in v.filtered <==>
      u in users && SearchMatches(u, term) && MarketMatches(u, market) && StatusMatches(u, status)
  {
    if Restricted(current) then RestrictedNotice else FilterPanel(term, market, status, FilteredUsers(users, term, market, status))
  }

  /** Where every row has a `name` equal to its full name, the two renders agree. */
  lemma {:induction false} RenderCorrectedAgreesWhereNamesExist(current: Option<User>, users: seq<User>,
                                                               term: string, market: string, status: string)
    requires forall u :: u in users ==> u.fullName.Some? && u.name == u.fullName
    ensures Render(current, users, term, market, status) == RenderCorrected(current, users, term, market, status)
  {
    if !Restricted(current) {
      FilterAgreesWhereNamesExist(users, term, market, status);
    }
  }

  lemma {:induction false} FilterAgreesWhereNamesExist(users: seq<User>, term: string, market: string, status: string)
    requires forall u :: u in users ==> u.fullName.Some? && u.name == u.fullName
    ensures FilteredUsersAsWritten(users, term, market, status) == Some(FilteredUsers(users, term, market, status))
  {
    assert forall u :: u in users ==> KeptAsWritten(term, market, status)(u) == Kept(term, market, status)(u);
    Seqs.FilterSameOn(users, KeptAsWritten(term, market, status), Kept(term, market, status));
  }
}
