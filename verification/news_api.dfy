/** The news service: up to three providers (NewsAPI, the Guardian,
    NewsData), tried in that order for each category, at most one article per
    category; plus the read-time estimate and the relative publish date.
    Which keys are configured is a set of flags, what each provider's request
    would return is an input, and so are the clock readings. */
module NewsApi {
  import opened Wrappers
  import opened Text
  import opened Http

  /** Which of the three API keys are set (non-empty). */
  datatype Keys = Keys(newsApi: bool, guardian: bool, newsData: bool)

  /** `hasAPIKey`. */
  predicate HasApiKey(keys: Keys) {
    keys.newsApi || keys.guardian || keys.newsData
  }

  /** A key is configured exactly when some provider can supply an article:
      with none, every category comes back empty whatever the providers
      would say. */
  lemma HasApiKeyMeansSomeProvider(keys: Keys, category: string, now: nat)
    ensures HasApiKey(keys) <==> exists o :: ForCategory(keys, category, o, now).Some?
  {
    if HasApiKey(keys) {
      var n := NewsApiItem("", None, None, "", "", Source("", None));
      var g := GuardianItem("", None, "", "");
      var d := NewsDataItem("", None, "", "", "", "");
      var o := Outcomes(Returned(200, Some([n])), Returned(200, Some([g])), Returned(200, Some([d])));
      assert ForCategory(keys, category, o, now).Some?;
    }
  }

  /** An article's source; the component's Guardian articles carry no url. */
  datatype Source = Source(name: string, url: Option<string>)

  /** The fields read from a NewsAPI article; `None` is null or absent. */
  datatype NewsApiItem = NewsApiItem(
    title: string, description: Option<string>, content: Option<string>,
    url: string, publishedAt: string, source: Source)

  /** The fields read from a Guardian result. */
  datatype GuardianItem = GuardianItem(
    webTitle: string, trailText: Option<string>, webUrl: string, webPublicationDate: string)

  /** The fields read from a NewsData result. */
  datatype NewsDataItem = NewsDataItem(
    title: string, description: Option<string>, link: string, pubDate: string,
    sourceId: string, sourceUrl: string)

  /** What one provider request does: throw (network failure, or a body that
      is not JSON), or answer with a status and the result list it carries,
      `None` when the list (or the Guardian's `response` envelope) is absent. */
  datatype Fetch<T> = Threw | Returned(status: int, items: Option<seq<T>>)

  /** What each provider would answer for one category's query. */
  datatype Outcomes = Outcomes(
    newsApi: Fetch<NewsApiItem>, guardian: Fetch<GuardianItem>, newsData: Fetch<NewsDataItem>)

  datatype Article = Article(
    id: string, title: string, description: string, url: string,
    publishedAt: string, source: Source, category: string)

  const ReadMore: string := "Read more about this topic..."

  /** `fetchFrom*`: the result list, or `[]` without a key, on a non-2xx
      status, on an absent list, or when the request throws. */
  function Fetched<T>(hasKey: bool, fetch: Fetch<T>): (items: seq<T>)
    ensures items != [] ==> hasKey && fetch.Returned? && IsOk(fetch.status) && fetch.items == Some(items)
    ensures hasKey && fetch.Returned? && IsOk(fetch.status) && fetch.items.Some? ==> items == fetch.items.value
  {
    if !hasKey then []
    else match fetch
      case Threw => []
      case Returned(status, items) => if IsOk(status) && items.Some? then items.value else []
  }

  /** `s.substring(0, 150)`. */
  function Prefix150(s: string): (p: string)
    ensures |p| == if |s| < 150 then |s| else 150
    ensures p == s[..|p|]
  {
    if |s| < 150 then s else s[..150]
  }

  /** A truthy optional string. */
  predicate Present(s: Option<string>) {
    s.Some? && s.value != ""
  }

  /** `description || content?.substring(0, 150) + "..."`: an absent content
      reads as `undefined`, which concatenates as the word "undefined". */
  function NewsApiDescription(description: Option<string>, content: Option<string>): (r: string)
    ensures Present(description) ==> r == description.value
    ensures !Present(description) ==>
              |r| >= 3 && r[|r| - 3..] == "..." && |r| <= 153
              && (content.Some? ==> r[..|r| - 3] == Prefix150(content.value))
              && (content.None? ==> r[..|r| - 3] == "undefined")
  {
    if Present(description) then description.value
    else (if content.Some? then Prefix150(content.value) else "undefined") + "..."
  }

  /** `text || "Read more about this topic..."`. */
  function OrReadMore(text: Option<string>): (r: string)
    ensures r != ""
    ensures Present(text) ==> r == text.value
    ensures !Present(text) ==> r == ReadMore
  {
    if Present(text) then text.value else ReadMore
  }

  /** `${prefix}${category}-${Date.now()}`. */
  function MakeId(prefix: string, category: string, now: nat): (id: string)
    ensures |id| > |prefix| + |category| + 1
    ensures id[..|prefix|] == prefix
    ensures id[|prefix|..|prefix| + |category|] == category
  {
    prefix + category + "-" + NatToString(now)
  }

  function FromNewsApi(a: NewsApiItem, category: string, now: nat): Article {
    Article(MakeId("newsapi-", category, now), a.title, NewsApiDescription(a.description, a.content),
            a.url, a.publishedAt, a.source, category)
  }

  function FromGuardian(a: GuardianItem, category: string, now: nat): Article {
    Article(MakeId("guardian-", category, now), a.webTitle, OrReadMore(a.trailText),
            a.webUrl, a.webPublicationDate, Source("The Guardian", Some("theguardian.com")), category)
  }

  function FromNewsData(a: NewsDataItem, category: string, now: nat): Article {
    Article(MakeId("newsdata-", category, now), a.title, OrReadMore(a.description),
            a.link, a.pubDate, Source(a.sourceId, Some(a.sourceUrl)), category)
  }

  /** One iteration of `fetchCategoryNews`: the first provider, in the order
      NewsAPI, Guardian, NewsData, that returns something supplies the
      category's single article, built from its first result. */
  function ForCategory(keys: Keys, category: string, o: Outcomes, now: nat): (r: Option<Article>)
    ensures r.Some? ==> r.value.category == category
    ensures r.None? <==>
              Fetched(keys.newsApi, o.newsApi) == [] && Fetched(keys.guardian, o.guardian) == []
              && Fetched(keys.newsData, o.newsData) == []
    ensures Fetched(keys.newsApi, o.newsApi) != [] ==>
              r == Some(FromNewsApi(Fetched(keys.newsApi, o.newsApi)[0], category, now))
    ensures Fetched(keys.newsApi, o.newsApi) == [] && Fetched(keys.guardian, o.guardian) != [] ==>
              r == Some(FromGuardian(Fetched(keys.guardian, o.guardian)[0], category, now))
    ensures Fetched(keys.newsApi, o.newsApi) == [] && Fetched(keys.guardian, o.guardian) == []
            && Fetched(keys.newsData, o.newsData) != [] ==>
              r == Some(FromNewsData(Fetched(keys.newsData, o.newsData)[0], category, now))
  {
    var n := Fetched(keys.newsApi, o.newsApi);
    if n != [] then Some(FromNewsApi(n[0], category, now))
    else
      var g := Fetched(keys.guardian, o.guardian);
      if g != [] then Some(FromGuardian(g[0], category, now))
      else
        var d := Fetched(keys.newsData, o.newsData);
        if d != [] then Some(FromNewsData(d[0], category, now)) else None
  }

  /** The articles of `fetchCategoryNews`, one per category that some
      provider answered, in category order. */
  function Collect(keys: Keys, categories: seq<string>, outcomes: seq<Outcomes>, now: nat): (r: seq<Article>)
    requires |outcomes| == |categories|
    ensures |r| <= |categories|
    ensures forall k :: 0 <= k < |r| ==> r[k].category in categories
  {
    if |categories| == 0 then []
    else
      var n := |categories| - 1;
      var init := Collect(keys, categories[..n], outcomes[..n], now);
      match ForCategory(keys, categories[n], outcomes[n], now)
      case None => init
      case Some(a) => init + [a]
  }

  /** `fetchCategoryNews`, the loop over the categories. */
  method FetchCategoryNews(keys: Keys, categories: seq<string>, outcomes: seq<Outcomes>, now: nat)
    returns (all: seq<Article>)
    requires |outcomes| == |categories|
    ensures all == Collect(keys, categories, outcomes, now)
    ensures |all| <= |categories|
  {
    all := [];
    var i := 0;
    while i < |categories|
      invariant 0 <= i <= |categories|
      invariant all == Collect(keys, categories[..i], outcomes[..i], now)
    {
      var a := ForCategory(keys, categories[i], outcomes[i], now);
      CollectStep(keys, categories, outcomes, now, i);
      if a.Some? {
        all := all + [a.value];
      }
      i := i + 1;
    }
    assert categories[..i] == categories;
    assert outcomes[..i] == outcomes;
  }

  /** Collecting one category further appends that category's article, if any. */
  lemma CollectStep(keys: Keys, categories: seq<string>, outcomes: seq<Outcomes>, now: nat, i: nat)
    requires |outcomes| == |categories| && i < |categories|
    ensures Collect(keys, categories[..i + 1], outcomes[..i + 1], now)
            == Collect(keys, categories[..i], outcomes[..i], now)
               + match ForCategory(keys, categories[i], outcomes[i], now) case None => [] case Some(a) => [a]
  {
    assert categories[..i + 1][..i] == categories[..i];
    assert outcomes[..i + 1][..i] == outcomes[..i];
  }

  /** Collecting over two lists of categories is collecting over each in
      turn: articles come in category order, each category on its own. */
  lemma {:induction false} CollectAppend(keys: Keys, c1: seq<string>, o1: seq<Outcomes>,
                                         c2: seq<string>, o2: seq<Outcomes>, now: nat)
    requires |o1| == |c1| && |o2| == |c2|
    ensures Collect(keys, c1 + c2, o1 + o2, now) == Collect(keys, c1, o1, now) + Collect(keys, c2, o2, now)
  {
    if |c2| > 0 {
      var n := |c2| - 1;
      assert (c1 + c2)[..|c1| + n] == c1 + c2[..n];
      assert (o1 + o2)[..|o1| + n] == o1 + o2[..n];
      CollectAppend(keys, c1, o1, c2[..n], o2[..n], now);
    } else {
      assert c1 + c2 == c1 && o1 + o2 == o1;
    }
  }

  /** A single category yields its own article or nothing. */
  lemma CollectOne(keys: Keys, category: string, o: Outcomes, now: nat)
    ensures Collect(keys, [category], [o], now)
            == match ForCategory(keys, category, o, now) case None => [] case Some(a) => [a]
  {
    assert [category][..0] == [] && [o][..0] == [];
  }

  /** With no key configured no provider is asked and nothing comes back. */
  lemma {:induction false} NoKeyNoArticles(keys: Keys, categories: seq<string>, outcomes: seq<Outcomes>, now: nat)
    requires !HasApiKey(keys) && |outcomes| == |categories|
    ensures Collect(keys, categories, outcomes, now) == []
  {
    if |categories| > 0 {
      var n := |categories| - 1;
      NoKeyNoArticles(keys, categories[..n], outcomes[..n], now);
    }
  }

  /** The Guardian is asked only after NewsAPI gave nothing, and NewsData only
      after both; each article's id names the provider that supplied it. */
  lemma ProviderOrder(keys: Keys, category: string, o: Outcomes, now: nat)
    requires ForCategory(keys, category, o, now).Some?
    ensures var id := ForCategory(keys, category, o, now).value.id;
      || (id[..8] == "newsapi-" && Fetched(keys.newsApi, o.newsApi) != [])
      || (id[..9] == "guardian-" && Fetched(keys.newsApi, o.newsApi) == [] && keys.guardian)
      || (id[..9] == "newsdata-" && Fetched(keys.newsApi, o.newsApi) == []
          && Fetched(keys.guardian, o.guardian) == [] && keys.newsData)
  {
  }

  /** Number of words as `text.split(' ').length` counts them. */
  function Words(text: string): (w: nat)
    ensures w == Count(text, ' ') + 1
  {
    SplitCount(text, ' ');
    |Split(text, ' ')|
  }

  /** `Math.ceil(words / 200)`. */
  function ReadMinutes(text: string): (m: nat)
    ensures m >= 1
    ensures (m - 1) * 200 < Words(text) <= m * 200
  {
    (Words(text) + 199) / 200
  }

  /** `calculateReadTime`: the minute count in decimal, then " min". */
  function ReadTime(text: string): (r: string)
    ensures |r| > 4 && r[|r| - 4..] == " min"
    ensures AllDigits(r[..|r| - 4]) && DecimalValue(r[..|r| - 4]) == ReadMinutes(text)
  {
    var digits := NatToString(ReadMinutes(text));
    assert (digits + " min")[..|digits|] == digits;
    digits + " min"
  }

  /** Up to 199 spaces (at most 200 words) reads as one minute. */
  lemma ShortReadTime(text: string)
    requires Count(text, ' ') < 200
    ensures ReadTime(text) == "1 min"
  {
    assert ReadMinutes(text) == 1;
    assert NatToString(1) == "1";
  }

  /** `formatPublishDate` for an age of `hours` whole hours (negative for a
      date in the future): "<h>h ago" under a day, "<d>d ago" under a week,
      and `None` for the locale-formatted date beyond. */
  function PublishAge(hours: int): (r: Option<string>)
    ensures r.None? <==> hours >= 168
    ensures hours < 24 ==>
              (|r.value| > 5 && r.value[|r.value| - 5..] == "h ago"
               && r.value[..|r.value| - 5] == IntToString(hours))
    ensures 24 <= hours < 168 ==>
              (|r.value| == 6 && r.value[1..] == "d ago"
               && '1' <= r.value[0] <= '6' && r.value[0] as int - '0' as int == hours / 24)
  {
    if hours < 24 then
      var s := IntToString(hours) + "h ago";
      assert s[..|s| - 5] == IntToString(hours);
      Some(s)
    else if hours < 168 then Some([DigitChar(hours / 24)] + "d ago")
    else None
  }
}
