/**
 * The sign-in page of `src/pages/Login.tsx`: the form's validation rules,
 * the submit flow through the session store, and the help-article widget
 * (search, the featured-only view and the expanded-article list).
 */
module Login {
  import opened Wrappers
  import opened Types
  import Seqs
  import Text
  import EmailPattern
  import AuthStore

  const InvalidCredentials := "Credenciales inválidas. Por favor, inténtelo de nuevo."
  const MinPasswordLength := 6

  /** A row of `help_articles`. */
  datatype HelpArticle = HelpArticle(id: string, title: string, content: string, category: string, isFeatured: bool)

  /**
   * The password field: `required` and `minLength: 6`; the length rule
   * subsumes `required`, and it counts `value.length`, that is UTF-16 code
   * units, so a character outside the Basic Multilingual Plane counts twice.
   */
  function PasswordAccepted(password: string): (ok: bool)
    ensures ok <==> Text.Utf16Length(password) >= MinPasswordLength
    ensures |password| >= MinPasswordLength ==> ok
    ensures ok ==> 2 * |password| >= MinPasswordLength
  {
    password != "" && Text.Utf16Length(password) >= MinPasswordLength
  }

  /** Three emoji make six code units, enough for the password rule. */
  lemma ThreeEmojiPasswordAccepted()
    ensures PasswordAccepted("\U{1F600}\U{1F600}\U{1F600}")
    ensures |"\U{1F600}\U{1F600}\U{1F600}"| < MinPasswordLength
  {
    Text.ThreeEmojiAreSixUnits();
  }

  /**
   * The form is submitted only when both fields pass their rules: the
   * address matches the e-mail pattern and the password is six code units long.
   */
  function FormAccepted(email: string, password: string): (ok: bool)
    ensures ok <==> EmailPattern.MatchesPattern(email) && Text.Utf16Length(password) >= MinPasswordLength
  {
    EmailPattern.FieldAccepts(email) && PasswordAccepted(password)
  }

  /** A plain address with a six-code-unit password is submitted. */
  lemma PlainSignInSubmitted()
    ensures FormAccepted("ana@it.es", "\U{1F600}\U{1F600}\U{1F600}")
  {
    EmailPattern.AcceptsPlainAddress();
    ThreeEmojiPasswordAccepted();
  }

  function Matching(term: string): HelpArticle -> bool {
    (a: HelpArticle) => Text.MatchesSearch(a.title, a.content, term)
  }

  function Featured(a: HelpArticle): bool {
    a.isFeatured
  }

  /**
   * `filteredArticles`: exactly the articles whose title or content contains
   * the search term, ignoring case, in their original order.
   */
  function FilteredArticles(articles: seq<HelpArticle>, term: string): (r: seq<HelpArticle>)
    ensures forall a :: a in r <==> a in articles && Text.MatchesSearch(a.title, a.content, term)
    ensures Seqs.IsSubsequence(r, articles)
  {
    Seqs.Filter(articles, Matching(term))
  }

  /** An empty search box keeps every article. */
  lemma {:induction false} EmptySearchKeepsAll(articles: seq<HelpArticle>)
    ensures FilteredArticles(articles, "") == articles
  {
    forall a | a in articles ensures Matching("")(a) {
      Text.EmptyTermMatches(a.title);
    }
    Seqs.FilterKeepsAll(articles, Matching(""));
  }

  /**
   * `displayedArticles`: the filtered articles when "show all" is on,
   * otherwise only the featured ones among them, in order.
   */
  function DisplayedArticles(articles: seq<HelpArticle>, term: string, showAll: bool): (r: seq<HelpArticle>)
    ensures showAll ==> r == FilteredArticles(articles, term)
    ensures forall a :: a in r <==> a in articles && Text.MatchesSearch(a.title, a.content, term) && (showAll || a.isFeatured)
    ensures Seqs.IsSubsequence(r, articles)
  {
    var filtered := FilteredArticles(articles, term);
    if showAll then filtered
    else
      Seqs.FilterTwice(articles, Matching(term), Featured);
      Seqs.Filter(filtered, Featured)
  }

  /**
   * `toggleArticle`'s new list: an id already present is removed everywhere,
   * an absent one is appended at the end.
   */
  function Toggled(ids: seq<string>, id: string): (r: seq<string>)
    ensures id in ids ==> forall x :: x in r <==> x in ids && x != id
    ensures id !in ids ==> r == ids + [id]
    ensures (id in r) <==> (id !in ids)
  {
    if id in ids then Seqs.Filter(ids, (x: string) => x != id) else ids + [id]
  }

  /**
   * Toggling the same id twice gives back the same expanded ids; when the id
   * was absent the list comes back exactly.
   */
  lemma {:induction false} ToggleTwiceRestores(ids: seq<string>, id: string)
    ensures forall x :: x in Toggled(Toggled(ids, id), id) <==> x in ids
    ensures id !in ids ==> Toggled(Toggled(ids, id), id) == ids
  {
    if id !in ids {
      var notId := (x: string) => x != id;
      Seqs.FilterAppend(ids, [id], notId);
      Seqs.FilterKeepsAll(ids, notId);
    }
  }

  /** A toggle never introduces a duplicate id. */
  lemma {:induction false} ToggleKeepsIdsDistinct(ids: seq<string>, id: string)
    requires Seqs.NoDuplicates(ids)
    ensures Seqs.NoDuplicates(Toggled(ids, id))
  {
    if id in ids {
      Seqs.FilterNoDuplicates(ids, (x: string) => x != id);
    } else {
      var r := ids + [id];
      forall i, j | 0 <= i < j < |r| ensures r[i] != r[j] {
        if j == |ids| {
          assert r[i] == ids[i];
        }
      }
    }
  }

  class Page {
    var expanded: seq<string>
    var error: string
    var loading: bool
    var navigatedTo: Option<string>

    constructor ()
      ensures expanded == [] && error == "" && !loading && navigatedTo == None
    {
      expanded, error, loading, navigatedTo := [], "", false, None;
    }

    method ToggleArticle(id: string)
      modifies this
      ensures expanded == Toggled(old(expanded), id)
      ensures error == old(error) && loading == old(loading) && navigatedTo == old(navigatedTo)
    {
      expanded := Toggled(expanded, id);
    }

    /**
     * The form's submit: nothing happens unless both fields pass their rules.
     * Otherwise the error is cleared and `signIn` runs; success navigates to
     * the dashboard, failure shows the fixed invalid-credentials message, and
     * loading ends on both paths.
     */
    method Submit(auth: AuthStore.Store, email: string, password: string,
                  outcome: AuthStore.AuthOutcome, users: seq<User>) returns (signedIn: bool)
      modifies this, auth
      ensures !FormAccepted(email, password) ==>
        !signedIn && error == old(error) && loading == old(loading)
        && navigatedTo == old(navigatedTo) && auth.user == old(auth.user)
      ensures FormAccepted(email, password) ==>
        && signedIn == outcome.Authenticated?
        && !loading
        && error == (if signedIn then "" else InvalidCredentials)
        && navigatedTo == (if signedIn then Some("/dashboard") else old(navigatedTo))
        && auth.user == (if signedIn then AuthStore.SingleById(users, outcome.userId) else old(auth.user))
      ensures auth.loading == old(auth.loading) && expanded == old(expanded)
    {
      if !FormAccepted(email, password) {
        return false;
      }
      loading := true;
      error := "";
      signedIn := auth.SignIn(outcome, users);
      if signedIn {
        navigatedTo := Some("/dashboard");
      } else {
        error := InvalidCredentials;
      }
      loading := false;
    }
  }
}
