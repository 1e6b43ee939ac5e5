/** The category id derived from a display name when a category is added:
    `name.toLowerCase().replace(/\s+/g, '-')`. There is no trimming and no uniqueness check. */
module CategoryId {
  import opened Strings
  import opened Types

  /** `s` with its leading run of whitespace removed. */
  function DropWhitespace(s: string): (r: string)
    ensures |r| <= |s|
    ensures |r| > 0 ==> !IsJsWhitespace(r[0])
    decreases |s|
  {
    if |s| > 0 && IsJsWhitespace(s[0]) then DropWhitespace(s[1..]) else s
  }

  /** `s.replace(/\s+/g, '-')`: every maximal run of whitespace becomes one hyphen. */
  function CollapseWhitespace(s: string): (r: string)
    ensures |r| <= |s|
    ensures forall i :: 0 <= i < |r| ==> !IsJsWhitespace(r[i])
    decreases |s|
  {
    if |s| == 0 then ""
    else if IsJsWhitespace(s[0]) then "-" + CollapseWhitespace(DropWhitespace(s[1..]))
    else [s[0]] + CollapseWhitespace(s[1..])
  }

  /** The id `addCategory` gives a category named `name`. */
  function Slug(name: string): (id: string)
    ensures |id| <= |name|
    ensures forall i :: 0 <= i < |id| ==> !IsJsWhitespace(id[i]) && !IsAsciiUpper(id[i])
  {
    var lowered := Lower(name);
    LowerPreservedByCollapse(lowered);
    CollapseWhitespace(lowered)
  }

  /** What remains after dropping leading whitespace is a suffix of the string. */
  lemma {:induction false} DropWhitespaceIsSuffix(s: string)
    ensures DropWhitespace(s) == s[|s| - |DropWhitespace(s)|..]
    decreases |s|
  {
    if |s| > 0 && IsJsWhitespace(s[0]) {
      DropWhitespaceIsSuffix(s[1..]);
    }
  }

  /** Collapsing never introduces an ASCII capital. */
  lemma {:induction false} LowerPreservedByCollapse(s: string)
    requires forall i :: 0 <= i < |s| ==> !IsAsciiUpper(s[i])
    ensures forall i :: 0 <= i < |CollapseWhitespace(s)| ==> !IsAsciiUpper(CollapseWhitespace(s)[i])
    decreases |s|
  {
    if |s| > 0 {
      if IsJsWhitespace(s[0]) {
        DropWhitespaceIsSuffix(s[1..]);
        LowerPreservedByCollapse(DropWhitespace(s[1..]));
      } else {
        LowerPreservedByCollapse(s[1..]);
      }
    }
  }

  /** A string without whitespace is left alone by the collapse. */
  lemma {:induction false} CollapseWithoutWhitespace(s: string)
    requires forall i :: 0 <= i < |s| ==> !IsJsWhitespace(s[i])
    ensures CollapseWhitespace(s) == s
    decreases |s|
  {
    if |s| > 0 {
      CollapseWithoutWhitespace(s[1..]);
    }
  }

  /** Deriving an id from an id changes nothing. */
  lemma SlugIdempotent(name: string)
    ensures Slug(Slug(name)) == Slug(name)
  {
    var id := Slug(name);
    LowerOfLower(id);
    CollapseWithoutWhitespace(id);
  }

  /** One step of the collapse at a whitespace character. */
  lemma CollapseAtBlank(t: string)
    requires |t| > 0 && IsJsWhitespace(t[0])
    ensures CollapseWhitespace(t) == "-" + CollapseWhitespace(DropWhitespace(t[1..]))
    ensures DropWhitespace(t) == DropWhitespace(t[1..])
  {
  }

  /** One step of the collapse at any other character. */
  lemma CollapseAtOther(t: string)
    requires |t| > 0 && !IsJsWhitespace(t[0])
    ensures CollapseWhitespace(t) == [t[0]] + CollapseWhitespace(t[1..])
    ensures DropWhitespace(t) == t
  {
  }

  /** The same derivation written as the left-to-right scan a regular-expression replace
      performs: a hyphen is emitted when a whitespace run starts, nothing inside the run. */
  method ComputeSlug(name: string) returns (id: string)
    ensures id == Slug(name)
  {
    var s := Lower(name);
    id := "";
    var inRun := false;
    var i := 0;
    while i < |s|
      invariant 0 <= i <= |s|
      invariant id + (if inRun then CollapseWhitespace(DropWhitespace(s[i..])) else CollapseWhitespace(s[i..]))
        == CollapseWhitespace(s)
    {
      var t := s[i..];
      assert t[1..] == s[i + 1..];
      if IsJsWhitespace(s[i]) {
        CollapseAtBlank(t);
        if !inRun {
          assert id + "-" + CollapseWhitespace(DropWhitespace(t[1..])) == CollapseWhitespace(s);
          id := id + "-";
          inRun := true;
        }
      } else {
        CollapseAtOther(t);
        assert id + [s[i]] + CollapseWhitespace(t[1..]) == CollapseWhitespace(s);
        id := id + [s[i]];
        inRun := false;
      }
      i := i + 1;
    }
    assert s[i..] == "";
  }

  /** A single blank after a whitespace-free word becomes one hyphen, and the word is lowered. */
  lemma SlugOfBlankSeparated(a: string, b: string)
    requires forall i :: 0 <= i < |a| ==> !IsJsWhitespace(a[i])
    requires |b| > 0 && !IsJsWhitespace(b[0])
    ensures Slug(a + " " + b) == Lower(a) + "-" + Slug(b)
  {
    LowerConcat(a + " ", b);
    LowerConcat(a, " ");
    assert Lower(" ") == " ";
    CollapseSplitsAtBlank(Lower(a), Lower(b));
    CollapseWithoutWhitespace(Lower(a));
  }

  /** The ordinary case: blanks between words become hyphens. */
  lemma SlugOfWords()
    ensures Slug("Social Media Posts") == "social-media-posts"
  {
    SocialMediaPostsWords("Social Media Posts");
    SlugOfSocialMediaPosts("Social Media Posts");
  }

  /** The name of the fallback category for social media work, as three words. */
  lemma SocialMediaPostsWords(name: string)
    requires name == "Social Media Posts"
    ensures name == "Social" + " " + "Media" + " " + "Posts"
  {
  }

  /** The slug of a name made of those three words. */
  lemma SlugOfSocialMediaPosts(name: string)
    requires name == "Social" + " " + "Media" + " " + "Posts"
    ensures Slug(name) == "social-media-posts"
  {
    SlugOfThreeWords(name, "Social", "Media", "Posts");
    assert Lower("Social") == "social" && Lower("Media") == "media" && Lower("Posts") == "posts";
  }

  /** A name of three words separated by single blanks gives the three lower-cased words
      joined by hyphens. */
  lemma SlugOfThreeWords(name: string, a: string, b: string, c: string)
    requires forall i :: 0 <= i < |a| ==> !IsJsWhitespace(a[i])
    requires forall i :: 0 <= i < |b| ==> !IsJsWhitespace(b[i])
    requires forall i :: 0 <= i < |c| ==> !IsJsWhitespace(c[i])
    requires |b| > 0 && |c| > 0 && name == a + " " + b + " " + c
    ensures Slug(name) == Lower(a) + "-" + Lower(b) + "-" + Lower(c)
  {
    assert name == a + " " + (b + " " + c);
    SlugOfBlankSeparated(a, b + " " + c);
    SlugOfBlankSeparated(b, c);
    CollapseWithoutWhitespace(Lower(c));
  }

  /** Leading, trailing and repeated blanks are turned into hyphens rather than trimmed. */
  lemma SlugOfPaddedName()
    ensures Slug("  A   B ") == "-a-b-"
  {
    SlugOfPadded("  A   B ");
  }

  /** The padded name walked through the collapse one character at a time. */
  lemma SlugOfPadded(name: string)
    requires name == "  A   B "
    ensures Slug(name) == "-a-b-"
  {
    assert Lower(name) == "  a   b ";
    CollapsePadded(Lower(name));
  }

  /** The lower-cased padded name: each run of blanks becomes one hyphen. */
  lemma CollapsePadded(s: string)
    requires s == "  a   b "
    ensures CollapseWhitespace(s) == "-a-b-"
  {
    CollapseAtBlank(s);
    assert s[1..] == " a   b ";
    CollapseAtBlank(s[1..]);
    assert s[2..] == "a   b ";
    CollapseAtOther(s[2..]);
    assert DropWhitespace(s[1..]) == s[2..];
    var u := s[3..];
    assert u == "   b ";
    CollapseAtBlank(u);
    assert u[1..] == "  b ";
    CollapseAtBlank(u[1..]);
    assert u[2..] == " b ";
    CollapseAtBlank(u[2..]);
    assert u[3..] == "b ";
    CollapseAtOther(u[3..]);
    assert DropWhitespace(u[1..]) == "b ";
    var v := " ";
    assert u[4..] == v;
    CollapseAtBlank(v);
    assert DropWhitespace(v[1..]) == "";
  }

  /** A single blank between two whitespace-free words becomes one hyphen. */
  lemma {:induction false} CollapseSplitsAtBlank(a: string, b: string)
    requires forall i :: 0 <= i < |a| ==> !IsJsWhitespace(a[i])
    requires |b| > 0 && !IsJsWhitespace(b[0])
    ensures CollapseWhitespace(a + " " + b) == CollapseWhitespace(a) + "-" + CollapseWhitespace(b)
    decreases |a|
  {
    if |a| == 0 {
      assert a + " " + b == " " + b;
      assert (" " + b)[1..] == b;
    } else {
      assert (a + " " + b)[1..] == a[1..] + " " + b;
      CollapseSplitsAtBlank(a[1..], b);
    }
  }

  /** The fallback category "Social Media Posts" has the id "social", not its derived slug,
      so the fallback data does not follow the id-from-name rule. */
  lemma DefaultIdsNotDerived()
    ensures DefaultCategories[2].id != Slug(DefaultCategories[2].name)
  {
    assert DefaultCategories[2].name == "Social Media Posts";
    SlugOfWords();
  }

  /** Names that differ only in case and spacing collide on the same id. */
  lemma SlugCollision()
    ensures Slug("Logos") == Slug("logos") == DefaultCategories[1].id
  {
    assert Lower("Logos") == "logos";
    assert Lower("logos") == "logos";
    CollapseWithoutWhitespace("logos");
  }
}
