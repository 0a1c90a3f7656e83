/**
 * The knowledge-base list of `src/pages/KnowledgeBase.tsx`: the category
 * selector that constrains the fetch, the fetch's effect on the page state,
 * and the search over the fetched articles.
 */
module KnowledgeBase {
  import opened Wrappers
  import opened Types
  import Seqs
  import Text

  /** The selector's value that stands for "every category". */
  const AllCategories := "all"

  /** The category ids the selector offers besides "all". */
  const Categories: seq<string> := ["hardware", "software", "network", "security", "procedures"]

  /** "all" is not one of the category ids, so it can only mean "no constraint". */
  lemma AllIsNotACategory()
    ensures AllCategories !in Categories
    ensures Seqs.NoDuplicates(Categories)
  {
  }

  /**
   * The `.eq('category', …)` the fetch adds: none for "all", an exact
   * category equality for any other selector value.
   */
  function CategoryConstraint(selected: string): (r: Option<string>)
    ensures r.None? <==> selected == AllCategories
    ensures r.Some? ==> r.value == selected
  {
    if selected != AllCategories then Some(selected) else None
  }

  function InCategory(constraint: Option<string>): KnowledgeArticle -> bool {
    (a: KnowledgeArticle) => constraint.None? || a.category == constraint.value
  }

  /**
   * The rows the constrained query selects from the table, in the order the
   * table delivers them.
   */
  function Selected(table: seq<KnowledgeArticle>, selected: string): (r: seq<KnowledgeArticle>)
    ensures forall a :: a in r <==> a in table && (selected == AllCategories || a.category == selected)
    ensures Seqs.IsSubsequence(r, table)
  {
    Seqs.Filter(table, InCategory(CategoryConstraint(selected)))
  }

  /** With "all" selected the query returns the whole table. */
  lemma {:induction false} AllSelectsEverything(table: seq<KnowledgeArticle>)
    ensures Selected(table, AllCategories) == table
  {
    Seqs.FilterKeepsAll(table, InCategory(CategoryConstraint(AllCategories)));
  }

  function Matching(term: string): KnowledgeArticle -> bool {
    (a: KnowledgeArticle) => Text.MatchesSearch(a.title, a.content, term)
  }

  /**
   * `filteredArticles`: exactly the fetched articles whose title or content
   * contains the term, ignoring case, in their order.
   */
  function FilteredArticles(articles: seq<KnowledgeArticle>, term: string): (r: seq<KnowledgeArticle>)
    ensures forall a :: a in r <==> a in articles && Text.MatchesSearch(a.title, a.content, term)
    ensures Seqs.IsSubsequence(r, articles)
  {
    Seqs.Filter(articles, Matching(term))
  }

  /** An empty search box keeps every fetched article. */
  lemma {:induction false} EmptySearchKeepsAll(articles: seq<KnowledgeArticle>)
    ensures FilteredArticles(articles, "") == articles
  {
    forall a | a in articles ensures Matching("")(a) {
      Text.EmptyTermMatches(a.title);
    }
    Seqs.FilterKeepsAll(articles, Matching(""));
  }

  class Page {
    var articles: seq<KnowledgeArticle>
    var loading: bool
    var selectedCategory: string

    /** The list starts empty and loading, with every category selected. */
    constructor ()
      ensures articles == [] && loading && selectedCategory == AllCategories
    {
      articles, loading, selectedCategory := [], true, AllCategories;
    }

    /**
     * `fetchArticles` for the current selector: on success the list becomes
     * the selected rows of `table`; on an error it is left as it was. Loading
     * ends either way.
     */
    method FetchArticles(table: seq<KnowledgeArticle>, ok: bool)
      modifies this
      ensures articles == if ok then Selected(table, old(selectedCategory)) else old(articles)
      ensures !loading
      ensures selectedCategory == old(selectedCategory)
    {
      var constraint: Option<string> := None;
      if selectedCategory != AllCategories {
        constraint := Some(selectedCategory);
      }
      if ok {
        articles := Seqs.Filter(table, InCategory(constraint));
      }
      loading := false;
    }

    /** Choosing a category refetches with it (the effect keyed on `selectedCategory`). */
    method SelectCategory(category: string, table: seq<KnowledgeArticle>, ok: bool)
      modifies this
      ensures selectedCategory == category
      ensures articles == if ok then Selected(table, category) else old(articles)
      ensures !loading
    {
      selectedCategory := category;
      FetchArticles(table, ok);
    }
  }
}
