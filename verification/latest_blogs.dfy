/** The latest-news section: on load (and on refresh) it fetches one article
    per news category from NewsAPI, or else from the Guardian, and shows
    them, or three fixed posts when it has none. Unlike the news service,
    the section does not catch per request: any failure abandons the whole
    fetch. What each request returns and the clock reading are inputs. */
module LatestBlogs {
  import opened Wrappers
  import opened Http
  import NewsApi

  /** The names of NEWS_CATEGORIES, in order. */
  const NewsCategories: seq<string> := ["Technology", "Financial Automation", "Professional Development"]

  /** What one request does: throw, or answer with a status and a body.
      `None` is a body whose fields cannot be read: one that is not JSON
      (`json()` throws) or is JSON `null` (reading `data.articles` or
      `data.response` from it throws); both abandon the fetch alike.
      `Some` is a JSON object. */
  datatype Reply<T> = Threw | Returned(status: int, body: Option<T>)

  /** A NewsAPI body: its `articles` list, `None` when absent or null. */
  type NewsBody = Option<seq<NewsApi.NewsApiItem>>

  /** A Guardian object body: without the `response` envelope (absent or
      null), reading `data.response.results` throws. */
  datatype GuardianBody = NoEnvelope | Envelope(results: Option<seq<NewsApi.GuardianItem>>)

  /** One category's contribution: abandon the fetch, add nothing, or add
      one article. */
  datatype Step = Abort | Skip | Take(article: NewsApi.Article)

  const FetchError: string := "Failed to fetch latest news"
  const NoSourceError: string := "No news API configured"

  /** The `fetchNews` loop body for one category. */
  function NewsStep(category: string, reply: Reply<NewsBody>, now: nat): (s: Step)
    ensures s.Abort? <==> reply.Threw? || (IsOk(reply.status) && reply.body.None?)
    ensures s.Take? <==> reply.Returned? && IsOk(reply.status) && reply.body.Some?
                         && reply.body.value.Some? && |reply.body.value.value| > 0
    ensures s.Take? ==> s.article.category == category
  {
    match reply
    case Threw => Abort
    case Returned(status, body) =>
      if !IsOk(status) then Skip
      else if body.None? then Abort
      else if body.value.None? || |body.value.value| == 0 then Skip
      else
        var a := body.value.value[0];
        Take(NewsApi.Article(NewsApi.MakeId("", category, now), a.title,
                             NewsApi.NewsApiDescription(a.description, a.content),
                             a.url, a.publishedAt, a.source, category))
  }

  /** The `fetchAlternativeNews` loop body for one category. */
  function GuardianStep(category: string, reply: Reply<GuardianBody>, now: nat): (s: Step)
    ensures s.Abort? <==> reply.Threw? || (IsOk(reply.status) && (reply.body.None? || reply.body.value.NoEnvelope?))
    ensures s.Take? <==> reply.Returned? && IsOk(reply.status) && reply.body.Some? && reply.body.value.Envelope?
                         && reply.body.value.results.Some? && |reply.body.value.results.value| > 0
    ensures s.Take? ==> s.article.category == category && s.article.description != ""
  {
    match reply
    case Threw => Abort
    case Returned(status, body) =>
      if !IsOk(status) then Skip
      else if body.None? || body.value.NoEnvelope? then Abort
      else if body.value.results.None? || |body.value.results.value| == 0 then Skip
      else
        var a := body.value.results.value[0];
        Take(NewsApi.Article(NewsApi.MakeId("", category, now), a.webTitle,
                             NewsApi.OrReadMore(a.trailText), a.webUrl, a.webPublicationDate,
                             NewsApi.Source("The Guardian", None), category))
  }

  /** The articles the steps add, in order. */
  function Taken(steps: seq<Step>): (r: seq<NewsApi.Article>)
    ensures |r| <= |steps|
  {
    if |steps| == 0 then []
    else (if steps[0].Take? then [steps[0].article] else []) + Taken(steps[1..])
  }

  /** The loop with its surrounding `try`: every article taken, unless some
      step abandons the fetch. */
  function Accumulate(steps: seq<Step>): (r: Option<seq<NewsApi.Article>>)
    ensures r.None? <==> exists k :: 0 <= k < |steps| && steps[k].Abort?
    ensures r.Some? ==> r.value == Taken(steps)
  {
    if |steps| == 0 then Some([])
    else
      match steps[0]
      case Abort => None
      case Skip =>
        var r := Accumulate(steps[1..]);
        assert forall k :: 0 <= k < |steps| - 1 ==> steps[1..][k] == steps[k + 1];
        r
      case Take(a) =>
        var rest := Accumulate(steps[1..]);
        assert forall k :: 0 <= k < |steps| - 1 ==> steps[1..][k] == steps[k + 1];
        if rest.None? then None else Some([a] + rest.value)
  }

  /** The positions of the steps that add an article, in increasing order,
      counted from `base`. */
  function TakenAt(steps: seq<Step>, base: nat): (r: seq<nat>)
    ensures |r| == |Taken(steps)|
  {
    if |steps| == 0 then []
    else (if steps[0].Take? then [base] else []) + TakenAt(steps[1..], base + 1)
  }

  /** The `i`-th article taken is the article of the step at position
      `TakenAt(steps, base)[i]`. */
  lemma {:induction false} TakenAtArticle(steps: seq<Step>, base: nat, i: nat)
    requires i < |Taken(steps)|
    ensures var p := TakenAt(steps, base)[i];
      base <= p < base + |steps| && steps[p - base] == Take(Taken(steps)[i])
  {
    var at, rest := TakenAt(steps, base), TakenAt(steps[1..], base + 1);
    var taken, later := Taken(steps), Taken(steps[1..]);
    if steps[0].Take? {
      assert at == [base] + rest && taken == [steps[0].article] + later;
      if i > 0 {
        TakenAtArticle(steps[1..], base + 1, i - 1);
        assert at[i] == rest[i - 1] && taken[i] == later[i - 1];
        assert steps[at[i] - base] == steps[1..][rest[i - 1] - (base + 1)];
      }
    } else {
      assert at == rest && taken == later;
      TakenAtArticle(steps[1..], base + 1, i);
      assert steps[at[i] - base] == steps[1..][rest[i] - (base + 1)];
    }
  }

  /** The positions increase. */
  lemma {:induction false} TakenAtIncreasing(steps: seq<Step>, base: nat, i: nat, j: nat)
    requires i < j < |Taken(steps)|
    ensures TakenAt(steps, base)[i] < TakenAt(steps, base)[j]
  {
    var at, rest := TakenAt(steps, base), TakenAt(steps[1..], base + 1);
    if steps[0].Take? {
      assert at == [base] + rest && Taken(steps) == [steps[0].article] + Taken(steps[1..]);
      assert at[j] == rest[j - 1];
      if i == 0 {
        TakenAtArticle(steps[1..], base + 1, j - 1);
      } else {
        TakenAtIncreasing(steps[1..], base + 1, i - 1, j - 1);
        assert at[i] == rest[i - 1];
      }
    } else {
      assert at == rest && Taken(steps) == Taken(steps[1..]);
      TakenAtIncreasing(steps[1..], base + 1, i, j);
    }
  }

  /** Every step that adds an article has its position among them. */
  lemma {:induction false} TakenAtComplete(steps: seq<Step>, base: nat, k: nat)
    requires k < |steps| && steps[k].Take?
    ensures base + k in TakenAt(steps, base)
  {
    var at, rest := TakenAt(steps, base), TakenAt(steps[1..], base + 1);
    if k == 0 {
      assert at == [base] + rest;
      assert at[0] == base + k;
    } else {
      assert steps[1..][k - 1] == steps[k];
      TakenAtComplete(steps[1..], base + 1, k - 1);
      var j :| 0 <= j < |rest| && rest[j] == base + k;
      if steps[0].Take? {
        assert at == [base] + rest;
        assert at[j + 1] == base + k;
      } else {
        assert at == rest;
      }
    }
  }

  /** Each article taken sits at a position holding the step that took it. */
  lemma TakenPositionsArticles(steps: seq<Step>)
    ensures var at := TakenAt(steps, 0);
      forall i :: 0 <= i < |at| ==> at[i] < |steps| && steps[at[i]] == Take(Taken(steps)[i])
  {
    var at := TakenAt(steps, 0);
    forall i | 0 <= i < |at|
      ensures at[i] < |steps| && steps[at[i]] == Take(Taken(steps)[i])
    {
      TakenAtArticle(steps, 0, i);
    }
  }

  /** The positions of the articles taken increase. */
  lemma TakenPositionsIncrease(steps: seq<Step>)
    ensures var at := TakenAt(steps, 0); forall i, j :: 0 <= i < j < |at| ==> at[i] < at[j]
  {
    var at := TakenAt(steps, 0);
    forall i, j | 0 <= i < j < |at|
      ensures at[i] < at[j]
    {
      TakenAtIncreasing(steps, 0, i, j);
    }
  }

  /** Every step that takes an article has its position listed. */
  lemma TakenPositionsComplete(steps: seq<Step>)
    ensures forall k :: 0 <= k < |steps| && steps[k].Take? ==> k in TakenAt(steps, 0)
  {
    forall k | 0 <= k < |steps| && steps[k].Take?
      ensures k in TakenAt(steps, 0)
    {
      TakenAtComplete(steps, 0, k);
    }
  }

  /** The news categories are distinct. */
  lemma CategoriesDistinct()
    ensures forall a, b :: 0 <= a < b < |NewsCategories| ==> NewsCategories[a] != NewsCategories[b]
  {
    assert NewsCategories[0][0] != NewsCategories[1][0] && NewsCategories[0][0] != NewsCategories[2][0];
    assert NewsCategories[1][0] != NewsCategories[2][0];
  }

  /** The `fetchNews` loop's steps, one per category in order. */
  function NewsSteps(replies: seq<Reply<NewsBody>>, now: nat): (steps: seq<Step>)
    requires |replies| == |NewsCategories|
    ensures |steps| == |NewsCategories|
    ensures forall k :: 0 <= k < |steps| ==> steps[k] == NewsStep(NewsCategories[k], replies[k], now)
  {
    seq(|NewsCategories|, k requires 0 <= k < |NewsCategories| => NewsStep(NewsCategories[k], replies[k], now))
  }

  /** The `fetchAlternativeNews` loop's steps, one per category in order. */
  function GuardianSteps(replies: seq<Reply<GuardianBody>>, now: nat): (steps: seq<Step>)
    requires |replies| == |NewsCategories|
    ensures |steps| == |NewsCategories|
    ensures forall k :: 0 <= k < |steps| ==> steps[k] == GuardianStep(NewsCategories[k], replies[k], now)
  {
    seq(|NewsCategories|, k requires 0 <= k < |NewsCategories| => GuardianStep(NewsCategories[k], replies[k], now))
  }

  /** `fetchNews`: the new article list, or `None` when it failed. */
  function FetchNews(replies: seq<Reply<NewsBody>>, now: nat): (r: Option<seq<NewsApi.Article>>)
    requires |replies| == |NewsCategories|
    ensures r.None? <==> exists k :: 0 <= k < |replies| && NewsStep(NewsCategories[k], replies[k], now).Abort?
    ensures r.Some? ==> r.value == Taken(NewsSteps(replies, now)) && |r.value| <= |NewsCategories|
  {
    Accumulate(NewsSteps(replies, now))
  }

  /** `fetchAlternativeNews`: the new article list, or `None` when it failed. */
  function FetchAlternativeNews(replies: seq<Reply<GuardianBody>>, now: nat): (r: Option<seq<NewsApi.Article>>)
    requires |replies| == |NewsCategories|
    ensures r.None? <==> exists k :: 0 <= k < |replies| && GuardianStep(NewsCategories[k], replies[k], now).Abort?
    ensures r.Some? ==> r.value == Taken(GuardianSteps(replies, now)) && |r.value| <= |NewsCategories|
  {
    Accumulate(GuardianSteps(replies, now))
  }

  /** A successful NewsAPI fetch holds, in category order, the article of
      exactly those categories whose reply had a non-empty list: article `i`
      comes from the reply for category `at[i]` and carries that category. */
  lemma FetchNewsPerCategory(replies: seq<Reply<NewsBody>>, now: nat)
    requires |replies| == |NewsCategories|
    ensures var r := FetchNews(replies, now); var at := TakenAt(NewsSteps(replies, now), 0);
      r.Some? ==> (
        && |at| == |r.value|
        && (forall i :: 0 <= i < |at| ==>
              && at[i] < |NewsCategories|
              && NewsStep(NewsCategories[at[i]], replies[at[i]], now).Take?
              && r.value[i] == NewsStep(NewsCategories[at[i]], replies[at[i]], now).article
              && r.value[i].category == NewsCategories[at[i]])
        && (forall i, j :: 0 <= i < j < |at| ==> at[i] < at[j])
        && (forall k :: 0 <= k < |replies| && NewsStep(NewsCategories[k], replies[k], now).Take? ==> k in at))
  {
    var steps := NewsSteps(replies, now);
    TakenPositionsArticles(steps);
    TakenPositionsIncrease(steps);
    TakenPositionsComplete(steps);
  }

  /** The same for a successful Guardian fetch. */
  lemma FetchAlternativeNewsPerCategory(replies: seq<Reply<GuardianBody>>, now: nat)
    requires |replies| == |NewsCategories|
    ensures var r := FetchAlternativeNews(replies, now); var at := TakenAt(GuardianSteps(replies, now), 0);
      r.Some? ==> (
        && |at| == |r.value|
        && (forall i :: 0 <= i < |at| ==>
              && at[i] < |NewsCategories|
              && GuardianStep(NewsCategories[at[i]], replies[at[i]], now).Take?
              && r.value[i] == GuardianStep(NewsCategories[at[i]], replies[at[i]], now).article
              && r.value[i].category == NewsCategories[at[i]])
        && (forall i, j :: 0 <= i < j < |at| ==> at[i] < at[j])
        && (forall k :: 0 <= k < |replies| && GuardianStep(NewsCategories[k], replies[k], now).Take? ==> k in at))
  {
    var steps := GuardianSteps(replies, now);
    TakenPositionsArticles(steps);
    TakenPositionsIncrease(steps);
    TakenPositionsComplete(steps);
  }

  /** A fetch that succeeds has at most one article per category: at most
      three articles, with distinct categories, all from the list. */
  lemma FetchBounded(news: seq<Reply<NewsBody>>, guardian: seq<Reply<GuardianBody>>, now: nat)
    requires |news| == |NewsCategories| && |guardian| == |NewsCategories|
    ensures var r := FetchNews(news, now);
      r.Some? ==> (
        && |r.value| <= 3
        && (forall i :: 0 <= i < |r.value| ==> r.value[i].category in NewsCategories)
        && (forall i, j :: 0 <= i < j < |r.value| ==> r.value[i].category != r.value[j].category))
    ensures var r := FetchAlternativeNews(guardian, now);
      r.Some? ==> (
        && |r.value| <= 3
        && (forall i :: 0 <= i < |r.value| ==> r.value[i].category in NewsCategories)
        && (forall i, j :: 0 <= i < j < |r.value| ==> r.value[i].category != r.value[j].category))
  {
    FetchNewsPerCategory(news, now);
    FetchAlternativeNewsPerCategory(guardian, now);
    var n := FetchNews(news, now);
    if n.Some? {
      OrderedCategories(n.value, TakenAt(NewsSteps(news, now), 0));
    }
    var g := FetchAlternativeNews(guardian, now);
    if g.Some? {
      OrderedCategories(g.value, TakenAt(GuardianSteps(guardian, now), 0));
    }
  }

  /** Articles tagged with the categories at increasing positions of the
      list carry distinct categories from the list. */
  lemma OrderedCategories(articles: seq<NewsApi.Article>, at: seq<nat>)
    requires |at| == |articles|
    requires forall i :: 0 <= i < |at| ==> at[i] < |NewsCategories| && articles[i].category == NewsCategories[at[i]]
    requires forall i, j :: 0 <= i < j < |at| ==> at[i] < at[j]
    ensures forall i :: 0 <= i < |articles| ==> articles[i].category in NewsCategories
    ensures forall i, j :: 0 <= i < j < |articles| ==> articles[i].category != articles[j].category
  {
    CategoriesDistinct();
  }

  /** A successful Guardian reply without the `response` envelope abandons
      the whole alternative fetch. */
  lemma MissingEnvelopeAborts(replies: seq<Reply<GuardianBody>>, now: nat, k: nat)
    requires |replies| == |NewsCategories| && k < |replies|
    requires replies[k].Returned? && IsOk(replies[k].status) && replies[k].body == Some(NoEnvelope)
    ensures FetchAlternativeNews(replies, now).None?
  {
    assert GuardianSteps(replies, now)[k].Abort?;
  }

  datatype State = State(articles: seq<NewsApi.Article>, isLoading: bool, error: Option<string>)

  const Initial: State := State([], true, None)

  /** The end of a fetch: new articles and no error on success; the error
      message and the old articles on failure; loading over either way. */
  function Apply(st: State, fetched: Option<seq<NewsApi.Article>>): (t: State)
    ensures !t.isLoading
    ensures fetched.Some? ==> t.articles == fetched.value && t.error == None
    ensures fetched.None? ==> t.articles == st.articles && t.error == Some(FetchError)
  {
    match fetched
    case Some(articles) => State(articles, false, None)
    case None => st.(isLoading := false, error := Some(FetchError))
  }

  /** Which of the two keys the section reads are set. */
  datatype Env = Env(newsApiKey: bool, guardianKey: bool)

  /** `loadNews`: NewsAPI if its key is set, else the Guardian if its key is
      set, else no fetch and an error. */
  function LoadNews(st: State, env: Env, news: seq<Reply<NewsBody>>, guardian: seq<Reply<GuardianBody>>, now: nat): (t: State)
    requires |news| == |NewsCategories| && |guardian| == |NewsCategories|
    ensures !t.isLoading
    ensures env.newsApiKey ==> t == Apply(st, FetchNews(news, now))
    ensures !env.newsApiKey && env.guardianKey ==> t == Apply(st, FetchAlternativeNews(guardian, now))
    ensures !env.newsApiKey && !env.guardianKey ==> t == st.(isLoading := false, error := Some(NoSourceError))
  {
    if env.newsApiKey then Apply(st, FetchNews(news, now))
    else if env.guardianKey then Apply(st, FetchAlternativeNews(guardian, now))
    else st.(isLoading := false, error := Some(NoSourceError))
  }

  /** The refresh button's handler: like `loadNews`, but with neither key it
      does nothing. */
  function Refresh(st: State, env: Env, news: seq<Reply<NewsBody>>, guardian: seq<Reply<GuardianBody>>, now: nat): (t: State)
    requires |news| == |NewsCategories| && |guardian| == |NewsCategories|
    ensures !env.newsApiKey && !env.guardianKey ==> t == st
    ensures env.newsApiKey || env.guardianKey ==> t == LoadNews(st, env, news, guardian, now)
  {
    if env.newsApiKey then Apply(st, FetchNews(news, now))
    else if env.guardianKey then Apply(st, FetchAlternativeNews(guardian, now))
    else st
  }

  /** Loading keeps the list at most one article per category. */
  lemma LoadBounded(st: State, env: Env, news: seq<Reply<NewsBody>>, guardian: seq<Reply<GuardianBody>>, now: nat)
    requires |news| == |NewsCategories| && |guardian| == |NewsCategories|
    requires |st.articles| <= 3
    ensures |LoadNews(st, env, news, guardian, now).articles| <= 3
    ensures |Refresh(st, env, news, guardian, now).articles| <= 3
  {
    FetchBounded(news, guardian, now);
  }

  /** The refresh control is shown only when there are articles. */
  predicate ShowRefresh(st: State) {
    |st.articles| > 0
  }

  /** Without any key the section never gets articles, so the refresh
      control never appears. */
  lemma NoKeyNoRefresh(st: State, env: Env, news: seq<Reply<NewsBody>>, guardian: seq<Reply<GuardianBody>>, now: nat)
    requires |news| == |NewsCategories| && |guardian| == |NewsCategories|
    requires !env.newsApiKey && !env.guardianKey && !ShowRefresh(st)
    ensures !ShowRefresh(LoadNews(st, env, news, guardian, now))
  {
  }

  /** The fields of a fixed post the model keeps. */
  datatype BlogPost = BlogPost(id: string, title: string, readTime: string, category: string)

  const FallbackPosts: seq<BlogPost> := [
    BlogPost("absolute-zero", "Innovation in Technology Solutions", "8 min", "Technology"),
    BlogPost("automation-2025", "Financial Automation Trends to Watch in 2025", "6 min", "Financial Automation"),
    BlogPost("ai-safety", "Best Practices in Professional Development", "10 min", "Professional Development")
  ]

  datatype Card = News(article: NewsApi.Article) | Post(post: BlogPost)

  /** `displayContent`: the articles if there are any, else the fixed posts. */
  function Display(articles: seq<NewsApi.Article>): (cards: seq<Card>)
    ensures |cards| > 0
    ensures |articles| > 0 ==> |cards| == |articles| && forall k :: 0 <= k < |cards| ==> cards[k] == News(articles[k])
    ensures |articles| == 0 ==> |cards| == 3 && forall k :: 0 <= k < 3 ==> cards[k] == Post(FallbackPosts[k])
  {
    if |articles| > 0 then seq(|articles|, k requires 0 <= k < |articles| => News(articles[k]))
    else seq(3, k requires 0 <= k < 3 => Post(FallbackPosts[k]))
  }

  /** The fixed posts cover the news categories one each, in order. */
  lemma FallbackCoversCategories()
    ensures |FallbackPosts| == |NewsCategories|
    ensures forall k :: 0 <= k < |FallbackPosts| ==> FallbackPosts[k].category == NewsCategories[k]
  {
  }
}
