/** The news page (src/pages/News/index.js): the article list it renders
    and the category filter buttons. */
module News {
  import Performance

  datatype NewsItem = NewsItem(date: string, category: string, title: string, excerpt: string)

  const Items: seq<NewsItem> := [
    NewsItem("2024-01-15", "Product", "ISPER Maps 2.0 Released",
             "Major update brings 3x faster processing and improved accuracy for urban environments."),
    NewsItem("2023-12-01", "Funding", "Series A Funding Announcement",
             "ISPER raises $15M to expand location intelligence capabilities and team."),
    NewsItem("2023-10-20", "Partnership", "Strategic Partnership with News Organizations",
             "Leading media companies adopt ISPER for video verification workflows.")]

  /** `toLowerCase` on the ASCII letters the categories use. */
  function Lower(s: string): (r: string)
    ensures |r| == |s|
    ensures forall i :: 0 <= i < |s| ==> r[i] == Performance.Fold(s[i])
  {
    if s == [] then [] else [Performance.Fold(s[0])] + Lower(s[1..])
  }

  /** One rendered `article.news-item`: its animation delay in seconds, its
      `data-category`, and the item it shows. */
  datatype Article = Article(delay: real, dataCategory: string, item: NewsItem)

  /** `renderNewsItems`: one article per item, in order, each starting
      0.1 s after the one before. */
  function RenderItems(items: seq<NewsItem>): (r: seq<Article>)
    ensures |r| == |items|
    ensures forall i :: 0 <= i < |r| ==>
              r[i] == Article(i as real * 0.1, Lower(items[i].category), items[i])
  {
    seq(|items|, i requires 0 <= i < |items| =>
      Article(i as real * 0.1, Lower(items[i].category), items[i]))
  }

  /** The `data-filter` values of the filter buttons, in order. */
  const Filters: seq<string> := ["all", "product", "funding", "partnership"]

  /** Which button is `active` and which articles are displayed. */
  datatype View = View(active: seq<bool>, shown: seq<bool>)

  /** Right after rendering: "All" is active and nothing is hidden. */
  function Initial(articles: seq<Article>): (v: View)
    ensures |v.active| == |Filters| && |v.shown| == |articles|
    ensures forall b :: 0 <= b < |Filters| ==> (v.active[b] <==> Filters[b] == "all")
    ensures forall i :: 0 <= i < |articles| ==> v.shown[i]
  {
    View(seq(|Filters|, b requires 0 <= b < |Filters| => b == 0), seq(|articles|, _ => true))
  }

  /** Clicking filter button `b`: only it is active, and an article is shown
      exactly when the filter is "all" or equals its category. */
  function OnFilter(articles: seq<Article>, b: nat): (v: View)
    requires b < |Filters|
    ensures |v.active| == |Filters| && |v.shown| == |articles|
    ensures forall c :: 0 <= c < |Filters| ==> (v.active[c] <==> c == b)
    ensures forall i :: 0 <= i < |articles| ==>
              (v.shown[i] <==> Filters[b] == "all" || articles[i].dataCategory == Filters[b])
  {
    var f := Filters[b];
    View(seq(|Filters|, c => c == b),
         seq(|articles|, i requires 0 <= i < |articles| => f == "all" || articles[i].dataCategory == f))
  }

  /** Lower-casing a word that starts with its only capital letter. */
  lemma LowerWord(s: string, t: string)
    requires |s| == |t| && forall i :: 0 <= i < |s| ==> Performance.Fold(s[i]) == t[i]
    ensures Lower(s) == t
  {
  }

  /** The lower-cased categories of the page's items are the non-"all"
      filter values, in the same order. */
  lemma CategoriesAreFilters()
    ensures Lower(Items[0].category) == Filters[1]
    ensures Lower(Items[1].category) == Filters[2]
    ensures Lower(Items[2].category) == Filters[3]
  {
    ProductIsFilter();
    FundingIsFilter();
    PartnershipIsFilter();
  }

  lemma ProductIsFilter()
    ensures Lower(Items[0].category) == Filters[1]
  {
    assert Items[0].category == "Product";
    LowerWord("Product", "product");
  }

  lemma FundingIsFilter()
    ensures Lower(Items[1].category) == Filters[2]
  {
    assert Items[1].category == "Funding";
    LowerWord("Funding", "funding");
  }

  lemma PartnershipIsFilter()
    ensures Lower(Items[2].category) == Filters[3]
  {
    assert Items[2].category == "Partnership";
    LowerWord("Partnership", "partnership");
  }

  /** Since every filter value names one category in lower case, on the
      page's own items the "All" button shows all three articles and each
      other button shows exactly the article of its own category. */
  lemma EachFilterShowsItsCategory(b: nat)
    requires b < |Filters|
    ensures var v := OnFilter(RenderItems(Items), b);
      forall i :: 0 <= i < |Items| ==> (v.shown[i] <==> b == 0 || i == b - 1)
  {
    CategoriesAreFilters();
    var arts := RenderItems(Items);
    assert arts[0].dataCategory == Filters[1];
    assert arts[1].dataCategory == Filters[2];
    assert arts[2].dataCategory == Filters[3];
    FilterByPosition(arts, b);
  }

  lemma FilterByPosition(arts: seq<Article>, b: nat)
    requires b < |Filters| && |arts| == 3
    requires arts[0].dataCategory == Filters[1]
    requires arts[1].dataCategory == Filters[2]
    requires arts[2].dataCategory == Filters[3]
    ensures var v := OnFilter(arts, b);
      forall i :: 0 <= i < |arts| ==> (v.shown[i] <==> b == 0 || i == b - 1)
  {
    var v := OnFilter(arts, b);
    forall i | 0 <= i < |arts| ensures v.shown[i] <==> b == 0 || i == b - 1 {
      assert arts[i].dataCategory == Filters[i + 1];
      DistinctFilters(b, i + 1);
    }
  }

  lemma DistinctFilters(b: nat, c: nat)
    requires b < |Filters| && c < |Filters|
    ensures Filters[b] == Filters[c] <==> b == c
    ensures Filters[b] == "all" <==> b == 0
  {
    assert Filters[0][0] == 'a' && Filters[1][0] == 'p' && Filters[2][0] == 'f' && Filters[3][0] == 'p';
    assert |Filters[1]| != |Filters[3]|;
  }
}
