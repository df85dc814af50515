/**
 * The "latest news" page: infinite-scroll paging over the news feed, the
 * cards' storage keys and the search over the articles loaded so far.
 */
module LatestFeed {
  import opened Optional
  import opened JsString
  import Sequences
  import Handoff

  const PageSize := 20

  /** An article as the feed sends it: every field may be missing. */
  datatype FeedArticle = FeedArticle(
    id: Option<string>,
    title: Option<string>,
    excerpt: Option<string>,
    author: Option<string>,
    category: Option<string>,
    body: Option<string>,
    image: Option<string>,
    url: Option<string>)

  /** `field || fallback`: a missing or empty field gives the fallback. */
  function OrElse(field: Option<string>, fallback: string): (r: string)
    ensures field.Some? && field.value != "" ==> r == field.value
    ensures field.None? || field.value == "" ==> r == fallback
  {
    if field.Some? && field.value != "" then field.value else fallback
  }

  const DefaultImage := "https://images.unsplash.com/photo-1657957746418-6a38df9e1ea7?w=800"

  /**
   * What `createArticleCard` registers: the defaulted fields, under the key
   * derived from the id (the empty id when there is none). `dateText` is the
   * formatted publication date, or `None` when the article has none.
   */
  function Card(a: FeedArticle, dateText: Option<string>): (r: (string, Handoff.ArticleData))
    ensures r.1.id == OrElse(a.id, "")
    ensures r.0 == Handoff.ArticleKey(r.1.id)
    ensures r.1.body == OrElse(a.body, r.1.excerpt)
    ensures r.1.title != "" && r.1.excerpt != "" && r.1.author != "" && r.1.category != ""
  {
    var excerpt := OrElse(a.excerpt, "No description available");
    var data := Handoff.ArticleData(
      OrElse(a.id, ""),
      OrElse(a.title, "Untitled Article"),
      OrElse(a.author, "The Guardian"),
      dateText.GetOr("Recent"),
      OrElse(a.category, "Football"),
      OrElse(a.image, DefaultImage),
      excerpt,
      OrElse(a.body, excerpt),
      OrElse(a.url, ""));
    (Handoff.ArticleKey(data.id), data)
  }

  // ------------------------------------------------------------------ paging

  datatype LoadOutcome =
    | RateLimited
    | Answered(success: bool, articles: seq<FeedArticle>, pages: Option<int>)
    | Failed(message: string)

  /** The page's paging state. */
  class Feed {
    var currentPage: int
    var isLoading: bool
    var hasMoreArticles: bool
    var apiLimitReached: bool
    var totalArticlesLoaded: int
    var allLoadedArticles: seq<FeedArticle>

    ghost predicate Valid()
      reads this
    {
      && totalArticlesLoaded == |allLoadedArticles|
      && (apiLimitReached ==> !hasMoreArticles)
      && currentPage >= 1
    }

    predicate CanLoad()
      reads this
    {
      !isLoading && hasMoreArticles && !apiLimitReached
    }

    constructor ()
      ensures Valid() && CanLoad()
      ensures currentPage == 1 && allLoadedArticles == []
    {
      currentPage := 1;
      isLoading := false;
      hasMoreArticles := true;
      apiLimitReached := false;
      totalArticlesLoaded := 0;
      allLoadedArticles := [];
    }

    /** The start of `loadArticles`: nothing happens unless a load may start; then it is in flight. */
    method BeginLoad() returns (started: bool)
      requires Valid()
      modifies this
      ensures Valid()
      ensures started == old(CanLoad())
      ensures !started ==> unchanged(this)
      ensures started ==> isLoading && currentPage == old(currentPage) && hasMoreArticles == old(hasMoreArticles)
                          && apiLimitReached == old(apiLimitReached) && allLoadedArticles == old(allLoadedArticles)
                          && totalArticlesLoaded == old(totalArticlesLoaded)
    {
      started := CanLoad();
      if started {
        isLoading := true;
      }
    }

    /**
     * The end of `loadArticles(page)`: a 429, or a failure whose message
     * mentions 429, ends paging for good; a successful non-empty batch is
     * appended and the page recorded, ending paging when it was the last
     * page or a short one; any other answer ends paging; any other failure
     * changes nothing. Whatever happens, the load is over.
     */
    method FinishLoad(page: int, outcome: LoadOutcome)
      requires Valid() && isLoading && page >= 1
      modifies this
      ensures Valid()
      ensures !isLoading
      ensures hasMoreArticles ==> old(hasMoreArticles)
      ensures old(apiLimitReached) ==> apiLimitReached
      ensures outcome.RateLimited? || (outcome.Failed? && Includes(outcome.message, "429")) ==>
                apiLimitReached && !hasMoreArticles
                && allLoadedArticles == old(allLoadedArticles) && currentPage == old(currentPage)
      ensures outcome.Answered? && outcome.success && |outcome.articles| > 0 ==>
                && allLoadedArticles == old(allLoadedArticles) + outcome.articles
                && currentPage == page
                && apiLimitReached == old(apiLimitReached)
                && (hasMoreArticles <==>
                      old(hasMoreArticles)
                      && !(outcome.pages.Some? && page >= outcome.pages.value)
                      && |outcome.articles| >= PageSize)
      ensures outcome.Answered? && !(outcome.success && |outcome.articles| > 0) ==>
                !hasMoreArticles && allLoadedArticles == old(allLoadedArticles) && currentPage == old(currentPage)
                && apiLimitReached == old(apiLimitReached)
      ensures outcome.Failed? && !Includes(outcome.message, "429") ==>
                hasMoreArticles == old(hasMoreArticles) && apiLimitReached == old(apiLimitReached)
                && allLoadedArticles == old(allLoadedArticles) && currentPage == old(currentPage)
    {
      match outcome {
        case RateLimited =>
          apiLimitReached := true;
          hasMoreArticles := false;
        case Answered(success, articles, pages) =>
          if success && |articles| > 0 {
            allLoadedArticles := allLoadedArticles + articles;
            currentPage := page;
            totalArticlesLoaded := totalArticlesLoaded + |articles|;
            if (pages.Some? && page >= pages.value) || |articles| < PageSize {
              hasMoreArticles := false;
            }
          } else {
            hasMoreArticles := false;
          }
        case Failed(message) =>
          if Includes(message, "429") {
            apiLimitReached := true;
            hasMoreArticles := false;
          }
      }
      isLoading := false;
    }

    /** `handleScroll`: near the bottom, and when a load may start, the next page is requested. */
    method Scroll(nearBottom: bool) returns (request: Option<int>)
      requires Valid()
      modifies this
      ensures Valid()
      ensures request.Some? <==> old(CanLoad()) && nearBottom
      ensures request.Some? ==> request.value == old(currentPage) + 1 && isLoading
      ensures request.None? ==> unchanged(this)
      ensures currentPage == old(currentPage) && allLoadedArticles == old(allLoadedArticles)
      ensures hasMoreArticles == old(hasMoreArticles) && apiLimitReached == old(apiLimitReached)
    {
      if !CanLoad() || !nearBottom {
        return None;
      }
      var started := BeginLoad();
      request := Some(currentPage + 1);
    }
  }

  // ------------------------------------------------------------------ search

  /** `event.target.value.trim().toLowerCase()`. */
  function SearchQuery(input: string): (q: string)
    ensures q == "" <==> AllSpace(input)
  {
    TrimEmpty(input);
    Lower(Trim(input))
  }

  /** `(field || '').toLowerCase().includes(query)`. */
  predicate FieldMatches(field: Option<string>, query: string) {
    Includes(Lower(OrElse(field, "")), query)
  }

  /** The local filter's test; the one used after a failed request leaves the body out. */
  predicate Matches(a: FeedArticle, query: string, withBody: bool) {
    || FieldMatches(a.title, query)
    || FieldMatches(a.excerpt, query)
    || FieldMatches(a.author, query)
    || FieldMatches(a.category, query)
    || (withBody && FieldMatches(a.body, query))
  }

  function Matcher(query: string, withBody: bool): FeedArticle -> bool {
    a => Matches(a, query, withBody)
  }

  /** The loaded articles that match, in loading order. */
  function LocalSearch(loaded: seq<FeedArticle>, query: string, withBody: bool): (r: seq<FeedArticle>)
    ensures forall i :: 0 <= i < |r| ==> r[i] in loaded && Matches(r[i], query, withBody)
    ensures forall i :: 0 <= i < |loaded| && Matches(loaded[i], query, withBody) ==> loaded[i] in r
  {
    Sequences.FilterMembers(loaded, Matcher(query, withBody));
    Sequences.Filter(loaded, Matcher(query, withBody))
  }

  /** Searching the whole feed is searching each batch in turn, so results keep loading order. */
  lemma LocalSearchBatches(earlier: seq<FeedArticle>, batch: seq<FeedArticle>, query: string, withBody: bool)
    ensures LocalSearch(earlier + batch, query, withBody)
         == LocalSearch(earlier, query, withBody) + LocalSearch(batch, query, withBody)
  {
    Sequences.FilterAppend(earlier, batch, Matcher(query, withBody));
  }

  datatype SearchOutcome = Found(success: bool, articles: seq<FeedArticle>) | Unreachable

  datatype SearchView = AllArticles | Results(articles: seq<FeedArticle>)

  /**
   * `performSearch(query)`: an empty query shows everything loaded; a
   * non-empty answer from the server is shown as it is; an empty or
   * unsuccessful answer falls back to the local filter, and a failed request
   * to the local filter without the body.
   */
  function Search(loaded: seq<FeedArticle>, query: string, outcome: SearchOutcome): (v: SearchView)
    ensures query == "" <==> v == AllArticles
    ensures query != "" && outcome.Found? && outcome.success && |outcome.articles| > 0 ==>
              v == Results(outcome.articles)
    ensures query != "" && outcome.Found? && !(outcome.success && |outcome.articles| > 0) ==>
              v == Results(LocalSearch(loaded, query, true))
    ensures query != "" && outcome.Unreachable? ==> v == Results(LocalSearch(loaded, query, false))
  {
    if query == "" then AllArticles
    else
      match outcome
      case Found(success, articles) =>
        if success && |articles| > 0 then Results(articles) else Results(LocalSearch(loaded, query, true))
      case Unreachable => Results(LocalSearch(loaded, query, false))
  }

  /** The search after a failed request finds nothing the other local search misses. */
  lemma OfflineSearchNarrower(loaded: seq<FeedArticle>, query: string)
    ensures forall i :: 0 <= i < |LocalSearch(loaded, query, false)| ==>
              LocalSearch(loaded, query, false)[i] in LocalSearch(loaded, query, true)
  {
    var narrow := LocalSearch(loaded, query, false);
    forall i | 0 <= i < |narrow| ensures narrow[i] in LocalSearch(loaded, query, true) {
      var j :| 0 <= j < |loaded| && loaded[j] == narrow[i];
    }
  }
}
