/** The landing page (`pages/Home.tsx`): the featured projects and the hero headline, whose
    `*`-delimited stretches are shown highlighted. The markup is abstracted to tagged segments. */
module HomePage {
  import opened Seqs
  import opened Strings
  import opened Types

  /** How many projects the landing page features. */
  const FeaturedCount: nat := 3

  /** `projects.slice(0, 3)`: the first three projects, or all of them when there are fewer. */
  function FeaturedProjects(ps: seq<Project>): (r: seq<Project>)
    ensures |r| == if |ps| < FeaturedCount then |ps| else FeaturedCount
    ensures r == ps[..|r|]
  {
    Take(ps, FeaturedCount)
  }

  /** A piece of the headline and whether it is rendered with the gradient. */
  datatype Segment = Segment(text: string, highlighted: bool)

  /** The separator that marks highlighted stretches. */
  const Marker: char := '*'

  /** `renderHeroHeadline`: the pieces of `text.split('*')`, every odd-numbered one highlighted. */
  function HeadlineSegments(headline: string): (segs: seq<Segment>)
    ensures |segs| == |Split(headline, Marker)|
    ensures forall i :: 0 <= i < |segs| ==> (segs[i].highlighted <==> i % 2 == 1)
    ensures forall i :: 0 <= i < |segs| ==> segs[i].text == Split(headline, Marker)[i]
  {
    var parts := Split(headline, Marker);
    seq(|parts|, i requires 0 <= i < |parts| => Segment(parts[i], i % 2 == 1))
  }

  function Texts(segs: seq<Segment>): (texts: seq<string>)
    ensures |texts| == |segs| && forall i :: 0 <= i < |segs| ==> texts[i] == segs[i].text
  {
    seq(|segs|, i requires 0 <= i < |segs| => segs[i].text)
  }

  /** There is one segment more than there are markers; the segments read back as the
      headline with every marker removed, no segment holds a marker, and joining the segments
      with the marker restores the headline. */
  lemma SegmentsCoverHeadline(headline: string)
    ensures |HeadlineSegments(headline)| == Count(headline, Marker) + 1
    ensures Concat(Texts(HeadlineSegments(headline))) == Filter(NotChar(Marker), headline)
    ensures forall i :: 0 <= i < |HeadlineSegments(headline)| ==> Marker !in HeadlineSegments(headline)[i].text
    ensures Join(Texts(HeadlineSegments(headline)), Marker) == headline
  {
    assert Texts(HeadlineSegments(headline)) == Split(headline, Marker);
    SplitCount(headline, "", Marker);
    ConcatSplit(headline, "", Marker);
    assert "" + headline == headline;
    SplitPiecesAreSeparatorFree(headline, "", Marker);
    JoinSplit(headline, "", Marker);
  }

  /** A headline without a marker is one plain segment. */
  lemma UnmarkedHeadline(headline: string)
    requires Marker !in headline
    ensures HeadlineSegments(headline) == [Segment(headline, false)]
  {
    SplitWithoutSeparator(headline, "", Marker);
    assert "" + headline == headline;
  }

  /** A headline with one marked stretch is plain, highlighted, plain. */
  lemma OneMarkedStretch(a: string, b: string, c: string)
    requires Marker !in a && Marker !in b && Marker !in c
    ensures HeadlineSegments(a + [Marker] + b + [Marker] + c)
      == [Segment(a, false), Segment(b, true), Segment(c, false)]
  {
    assert a + [Marker] + b + [Marker] + c == a + [Marker] + (b + [Marker] + c);
    SplitAround(a, b + [Marker] + c, "", Marker);
    SplitAround(b, c, "", Marker);
    SplitWithoutSeparator(a, "", Marker);
    SplitWithoutSeparator(b, "", Marker);
    SplitWithoutSeparator(c, "", Marker);
    assert "" + a == a && "" + b == b && "" + c == c;
  }

  /** The fallback headline. */
  lemma DefaultHeadlineText()
    ensures DefaultSiteConfig.heroHeadline == "We Craft *Digital Experiences* That Matter."
  {
  }

  /** The fallback headline as its three stretches around the two markers. */
  lemma DefaultHeadlineStretches(h: string)
    requires h == "We Craft *Digital Experiences* That Matter."
    ensures h == "We Craft " + [Marker] + "Digital Experiences" + [Marker] + " That Matter."
  {
  }

  /** The segments of a headline made of the fallback headline's stretches. */
  lemma DefaultHeadlineSegments(h: string)
    requires h == "We Craft " + [Marker] + "Digital Experiences" + [Marker] + " That Matter."
    ensures HeadlineSegments(h) == [Segment("We Craft ", false), Segment("Digital Experiences", true), Segment(" That Matter.", false)]
  {
    OneMarkedStretch("We Craft ", "Digital Experiences", " That Matter.");
  }

  /** The fallback headline has exactly one highlighted stretch. */
  lemma DefaultHeadline()
    ensures HeadlineSegments(DefaultSiteConfig.heroHeadline)
      == [Segment("We Craft ", false), Segment("Digital Experiences", true), Segment(" That Matter.", false)]
  {
    DefaultHeadlineText();
    DefaultHeadlineStretches(DefaultSiteConfig.heroHeadline);
    DefaultHeadlineSegments(DefaultSiteConfig.heroHeadline);
  }
}
