/** The catalog entities and the built-in fallback data set (`types.ts`). */
module Types {

  /** A portfolio entry. `category` names a category by its display name; nothing enforces it. */
  datatype Project = Project(
    id: string,
    title: string,
    category: string,
    description: string,
    imageUrl: string,
    date: string)

  datatype Category = Category(id: string, name: string)

  /** The singleton site text record. */
  datatype SiteConfig = SiteConfig(
    heroHeadline: string,
    heroSubheadline: string,
    contactEmail: string,
    instagramHandle: string,
    whatsappNumber: string)

  /** No two projects share an id. */
  ghost predicate UniqueProjectIds(ps: seq<Project>) {
    forall i, j :: 0 <= i < j < |ps| ==> ps[i].id != ps[j].id
  }

  /** No two categories share an id. */
  ghost predicate UniqueCategoryIds(cs: seq<Category>) {
    forall i, j :: 0 <= i < j < |cs| ==> cs[i].id != cs[j].id
  }

  /** Strict lexicographic order on strings; on ISO-8601 dates it is chronological order. */
  predicate LexLess(a: string, b: string)
    decreases |a|
  {
    if |a| == 0 then |b| > 0
    else if |b| == 0 then false
    else if a[0] != b[0] then a[0] < b[0]
    else LexLess(a[1..], b[1..])
  }

  /** Newest first by date, the order the remote projects query asks for. */
  ghost predicate NewestFirst(ps: seq<Project>) {
    forall i, j :: 0 <= i < j < |ps| ==> !LexLess(ps[i].date, ps[j].date)
  }

  const DefaultCategories: seq<Category> := [
    Category("thumbnails", "Thumbnails"),
    Category("logos", "Logos"),
    Category("social", "Social Media Posts"),
    Category("posters", "Posters"),
    Category("banners", "Banners")
  ]

  const DefaultSiteConfig: SiteConfig := SiteConfig(
    heroHeadline := "We Craft *Digital Experiences* That Matter.",
    heroSubheadline := "Shah Graphics is a premium design studio specializing in brand identity, social media aesthetics, and high-impact visual communication.",
    contactEmail := "contact@shahgraphics.com",
    instagramHandle := "@ShahGraphics",
    whatsappNumber := "+1 234 567 890")

  const DefaultProjects: seq<Project> := [
    Project(
      id := "t1", title := "Fun Fair Vlog", category := "Thumbnails",
      description := "High-energy vlog thumbnail featuring bright colors and expressive emotions.",
      imageUrl := "https://placehold.co/1280x720/18181b/ffffff?text=Fun+Fair+Vlog+Thumbnail",
      date := "2023-10-15"),
    Project(
      id := "t2", title := "Vaping vs Smoking", category := "Thumbnails",
      description := "Comparative analysis thumbnail design with strong contrast.",
      imageUrl := "https://placehold.co/1280x720/18181b/ffffff?text=Vaping+vs+Smoking",
      date := "2023-11-02"),
    Project(
      id := "t3", title := "The Real Myth", category := "Thumbnails",
      description := "Dark, mysterious thumbnail design inspired by Squid Game aesthetics.",
      imageUrl := "https://placehold.co/1280x720/18181b/ffffff?text=The+Real+Myth",
      date := "2023-11-10"),
    Project(
      id := "t4", title := "Truth Uncovered", category := "Thumbnails",
      description := "Dramatic commentary thumbnail with glowing eyes effect.",
      imageUrl := "https://placehold.co/1280x720/18181b/ffffff?text=Does+He+Lied?",
      date := "2023-11-20"),
    Project(
      id := "t5", title := "Financial Secrets", category := "Thumbnails",
      description := "Finance niche thumbnail focusing on credit cards and wealth.",
      imageUrl := "https://placehold.co/1280x720/18181b/ffffff?text=Financial+Secrets",
      date := "2023-12-05"),
    Project(
      id := "t6", title := "Million Dollar Lifestyle", category := "Thumbnails",
      description := "MrBeast-style challenge thumbnail with high saturation and luxury elements.",
      imageUrl := "https://placehold.co/1280x720/18181b/ffffff?text=Million+Dollar+Lifestyle",
      date := "2023-12-15"),
    Project(
      id := "t7", title := "Antarctica Mysteries", category := "Thumbnails",
      description := "Documentary style thumbnail featuring frozen landscapes and pyramids.",
      imageUrl := "https://placehold.co/1280x720/18181b/ffffff?text=Antarctica+Mysteries",
      date := "2024-01-05"),
    Project(
      id := "t8", title := "Athlete Secrets", category := "Thumbnails",
      description := "Sports commentary thumbnail featuring Cristiano Ronaldo.",
      imageUrl := "https://placehold.co/1280x720/18181b/ffffff?text=Ronaldo+Secret",
      date := "2024-01-12"),
    Project(
      id := "t9", title := "Rich vs Poor", category := "Thumbnails",
      description := "Comparison style thumbnail utilizing face aging and conceptual contrast.",
      imageUrl := "https://placehold.co/1280x720/18181b/ffffff?text=Rich+Vs+Poor",
      date := "2024-01-20"),
    Project(
      id := "t10", title := "Pakistan to Japan", category := "Thumbnails",
      description := "Travel vlog thumbnail showcasing cultural transition and landmarks.",
      imageUrl := "https://placehold.co/1280x720/18181b/ffffff?text=Pakistan+To+Japan",
      date := "2024-02-01"),
    Project(
      id := "t11", title := "Setup Makeover", category := "Thumbnails",
      description := "Before and After tech setup transformation thumbnail.",
      imageUrl := "https://placehold.co/1280x720/18181b/ffffff?text=Setup+Makeover",
      date := "2024-02-14"),
    Project(
      id := "l1", title := "Amber Almonds", category := "Logos",
      description := "Organic and natural logo design for a premium dry fruit brand.",
      imageUrl := "https://placehold.co/800x800/18181b/ffffff?text=Amber+Almonds",
      date := "2023-09-10"),
    Project(
      id := "l2", title := "Dyenix Fabrics", category := "Logos",
      description := "Modern, geometric logo for a textile and fabric company.",
      imageUrl := "https://placehold.co/800x800/18181b/ffffff?text=Dyenix+Fabrics",
      date := "2023-09-25"),
    Project(
      id := "l3", title := "Elect Power", category := "Logos",
      description := "Industrial symbol logo combining gear mechanics and electrical energy.",
      imageUrl := "https://placehold.co/800x800/18181b/ffffff?text=Elect+Power",
      date := "2023-10-05"),
    Project(
      id := "l4", title := "Cash Bridge", category := "Logos",
      description := "Minimalist typography wordmark for a financial or design agency.",
      imageUrl := "https://placehold.co/800x800/18181b/ffffff?text=Cash+Bridge",
      date := "2023-10-20"),
    Project(
      id := "p1", title := "Porsche 911 GT3 RS", category := "Posters",
      description := "Automotive poster layout featuring the legendary 911 GT3 RS in a clean studio setting.",
      imageUrl := "https://placehold.co/800x1000/18181b/ffffff?text=Porsche+911",
      date := "2023-12-10"),
    Project(
      id := "p2", title := "Anime Character Art", category := "Posters",
      description := "Vibrant vector illustration character design.",
      imageUrl := "https://placehold.co/800x1000/18181b/ffffff?text=Anime+Art",
      date := "2023-12-25"),
    Project(
      id := "p3", title := "Ford Mustang Legend", category := "Posters",
      description := "Vintage style automotive poster celebrating the 1964 Mustang.",
      imageUrl := "https://placehold.co/800x1000/18181b/ffffff?text=Ford+Mustang",
      date := "2024-01-15"),
    Project(
      id := "p4", title := "Tokyo Typography", category := "Posters",
      description := "Bold typography poster featuring Japanese street aesthetics and color palettes.",
      imageUrl := "https://placehold.co/800x1000/18181b/ffffff?text=Tokyo",
      date := "2024-02-10"),
    Project(
      id := "s1", title := "Delicious Burger Promo", category := "Social Media Posts",
      description := "Appetizing food promotion design with 50% off offer.",
      imageUrl := "https://placehold.co/1080x1080/18181b/ffffff?text=Delicious+Burger",
      date := "2023-11-15"),
    Project(
      id := "s2", title := "Grilled Burger Special", category := "Social Media Posts",
      description := "Dark theme food social media post highlighting texture and taste.",
      imageUrl := "https://placehold.co/1080x1080/18181b/ffffff?text=Grilled+Burger",
      date := "2023-11-28")
  ]

  /** Both fallback lists are non-empty, so falling back never leaves a collection empty. */
  lemma DefaultsNonEmpty()
    ensures |DefaultCategories| == 5 && |DefaultProjects| == 21
  {
  }

  lemma DefaultCategoryIdsUnique()
    ensures UniqueCategoryIds(DefaultCategories)
  {
  }

  function ProjectIds(ps: seq<Project>): (ids: seq<string>)
    ensures |ids| == |ps| && forall i :: 0 <= i < |ps| ==> ids[i] == ps[i].id
  {
    seq(|ps|, i requires 0 <= i < |ps| => ps[i].id)
  }

  /** The ids of the fallback projects, in order, one family per category. */
  const ThumbnailIds: seq<string> := ["t1", "t2", "t3", "t4", "t5", "t6", "t7", "t8", "t9", "t10", "t11"]
  const LogoIds: seq<string> := ["l1", "l2", "l3", "l4"]
  const PosterIds: seq<string> := ["p1", "p2", "p3", "p4"]
  const SocialIds: seq<string> := ["s1", "s2"]

  lemma DefaultProjectIdsAre()
    ensures ProjectIds(DefaultProjects) == ThumbnailIds + LogoIds + PosterIds + SocialIds
  {
  }

  predicate Distinct(s: seq<string>) {
    forall i, j :: 0 <= i < j < |s| ==> s[i] != s[j]
  }

  /** Every string in `s` is non-empty and starts (or does not start) with `x`. */
  predicate AllStartWith(s: seq<string>, x: char, yes: bool) {
    forall i :: 0 <= i < |s| ==> |s[i]| > 0 && (s[i][0] == x <==> yes)
  }

  /** A family sharing an initial, followed by strings with other initials, has no repeats if
      neither part has. */
  lemma DistinctFamilies(a: seq<string>, x: char, b: seq<string>)
    requires Distinct(a) && Distinct(b)
    requires AllStartWith(a, x, true) && AllStartWith(b, x, false)
    ensures Distinct(a + b)
  {
    forall i, j | 0 <= i < j < |a + b|
      ensures (a + b)[i] != (a + b)[j]
    {
      if i < |a| && |a| <= j {
        assert (a + b)[i][0] == x != (a + b)[j][0];
      }
    }
  }

  lemma DefaultIdFamiliesDistinct()
    ensures Distinct(ThumbnailIds + LogoIds + PosterIds + SocialIds)
  {
    var socials := SocialIds;
    var posters := PosterIds + socials;
    var logos := LogoIds + posters;
    assert Distinct(socials);
    DistinctFamilies(PosterIds, 'p', socials);
    DistinctFamilies(LogoIds, 'l', posters);
    DistinctFamilies(ThumbnailIds, 't', logos);
    assert ThumbnailIds + LogoIds + PosterIds + SocialIds == ThumbnailIds + logos;
  }

  lemma DefaultProjectIdsUnique()
    ensures UniqueProjectIds(DefaultProjects)
  {
    DefaultProjectIdsAre();
    DefaultIdFamiliesDistinct();
    var ids := ProjectIds(DefaultProjects);
    assert forall i, j :: 0 <= i < j < |DefaultProjects| ==> DefaultProjects[i].id == ids[i] && DefaultProjects[j].id == ids[j];
  }

  /** The display names of the fallback categories. */
  function CategoryNames(cs: seq<Category>): (names: seq<string>)
    ensures |names| == |cs| && forall i :: 0 <= i < |cs| ==> names[i] == cs[i].name
  {
    seq(|cs|, i requires 0 <= i < |cs| => cs[i].name)
  }

  /** The category each fallback project is filed under, in order. */
  function ProjectCategories(ps: seq<Project>): (cats: seq<string>)
    ensures |cats| == |ps| && forall i :: 0 <= i < |ps| ==> cats[i] == ps[i].category
  {
    seq(|ps|, i requires 0 <= i < |ps| => ps[i].category)
  }

  lemma DefaultProjectCategoriesAre()
    ensures ProjectCategories(DefaultProjects) == ["Thumbnails", "Thumbnails", "Thumbnails", "Thumbnails", "Thumbnails", "Thumbnails", "Thumbnails", "Thumbnails", "Thumbnails", "Thumbnails", "Thumbnails", "Logos", "Logos", "Logos", "Logos", "Posters", "Posters", "Posters", "Posters", "Social Media Posts", "Social Media Posts"]
  {
  }

  /** Every fallback project is filed under the display name of some fallback category. */
  lemma DefaultProjectCategoriesExist()
    ensures forall i :: 0 <= i < |DefaultProjects| ==> DefaultProjects[i].category in CategoryNames(DefaultCategories)
  {
    DefaultProjectCategoriesAre();
    var names := CategoryNames(DefaultCategories);
    assert names == ["Thumbnails", "Logos", "Social Media Posts", "Posters", "Banners"];
  }

  /** A common prefix does not affect the order. */
  lemma {:induction false} LexLessCommonPrefix(p: string, a: string, b: string)
    ensures LexLess(p + a, p + b) == LexLess(a, b)
    decreases |p|
  {
    if |p| > 0 {
      assert (p + a)[0] == p[0] == (p + b)[0];
      assert (p + a)[1..] == p[1..] + a;
      assert (p + b)[1..] == p[1..] + b;
      LexLessCommonPrefix(p[1..], a, b);
    } else {
      assert p + a == a && p + b == b;
    }
  }

  /** The fallback list is in declaration order, not newest first: `t1` is older than `t2`. */
  lemma DefaultProjectsNotNewestFirst()
    ensures !NewestFirst(DefaultProjects)
  {
    var p := "2023-1";
    assert DefaultProjects[0].date == p + "0-15";
    assert DefaultProjects[1].date == p + "1-02";
    LexLessCommonPrefix(p, "0-15", "1-02");
  }
}
