/** The contact page (`pages/Contact.tsx`): the three links built from the site configuration. */
module ContactPage {
  import opened Seqs
  import opened Strings
  import opened Types

  const InstagramPrefix: string := "https://instagram.com/"
  const WhatsAppPrefix: string := "https://wa.me/"
  const MailtoPrefix: string := "mailto:"

  /** The Instagram link: the handle with its first "@" removed (a string pattern in
      `replace` removes one occurrence only). */
  function InstagramLink(c: SiteConfig): (link: string)
    ensures |link| >= |InstagramPrefix| && link[..|InstagramPrefix|] == InstagramPrefix
    ensures '@' !in c.instagramHandle ==> link[|InstagramPrefix|..] == c.instagramHandle
    ensures '@' in c.instagramHandle ==> |link| == |InstagramPrefix| + |c.instagramHandle| - 1
  {
    InstagramPrefix + RemoveFirst(c.instagramHandle, '@')
  }

  /** Only the first "@" goes: the handle is cut around its first "@" and nothing else changes. */
  lemma InstagramLinkDropsFirstAt(c: SiteConfig, i: nat)
    requires i < |c.instagramHandle| && c.instagramHandle[i] == '@'
    requires forall j :: 0 <= j < i ==> c.instagramHandle[j] != '@'
    ensures InstagramLink(c) == InstagramPrefix + c.instagramHandle[..i] + c.instagramHandle[i + 1..]
  {
    RemoveFirstCutsAtFirst(c.instagramHandle, '@', i);
  }

  /** `number.replace(/[^0-9]/g, '')`. */
  function DigitsOf(s: string): (r: string)
    ensures forall i :: 0 <= i < |r| ==> IsAsciiDigit(r[i])
    ensures |r| <= |s|
  {
    Filter(IsAsciiDigit, s)
  }

  /** The WhatsApp link: the number with everything but the digits removed. */
  function WhatsAppLink(c: SiteConfig): (link: string)
    ensures |link| >= |WhatsAppPrefix| && link[..|WhatsAppPrefix|] == WhatsAppPrefix
    ensures forall i :: |WhatsAppPrefix| <= i < |link| ==> IsAsciiDigit(link[i])
  {
    WhatsAppPrefix + DigitsOf(c.whatsappNumber)
  }

  /** Stripping keeps every digit, in order, drops everything else, and is idempotent. */
  lemma DigitsOfSpec(s: string, a: string, b: string, x: char)
    ensures multiset(DigitsOf(s))[x] == if IsAsciiDigit(x) then multiset(s)[x] else 0
    ensures DigitsOf(a + b) == DigitsOf(a) + DigitsOf(b)
    ensures DigitsOf(DigitsOf(s)) == DigitsOf(s)
  {
    FilterMultiplicity(IsAsciiDigit, s, x);
    FilterConcat(IsAsciiDigit, a, b);
    FilterIdempotent(IsAsciiDigit, s);
  }

  /** A number written only with digits is used as it is. */
  lemma WhatsAppLinkOfDigits(c: SiteConfig)
    requires forall i :: 0 <= i < |c.whatsappNumber| ==> IsAsciiDigit(c.whatsappNumber[i])
    ensures WhatsAppLink(c) == WhatsAppPrefix + c.whatsappNumber
  {
    FilterKeepsAll(IsAsciiDigit, c.whatsappNumber);
  }

  /** A separator anywhere in the number ("+", a blank, a dash) makes no difference to the link. */
  lemma WhatsAppLinkIgnoresSeparator(c: SiteConfig, a: string, x: char, b: string)
    requires c.whatsappNumber == a + [x] + b && !IsAsciiDigit(x)
    ensures WhatsAppLink(c) == WhatsAppPrefix + DigitsOf(a + b)
  {
    FilterConcat(IsAsciiDigit, a + [x], b);
    FilterConcat(IsAsciiDigit, a, [x]);
    FilterConcat(IsAsciiDigit, a, b);
  }

  /** The e-mail link is the address, unchanged, after "mailto:". */
  function EmailLink(c: SiteConfig): (link: string)
    ensures |link| >= |MailtoPrefix| && link[..|MailtoPrefix|] == MailtoPrefix && link[|MailtoPrefix|..] == c.contactEmail
  {
    MailtoPrefix + c.contactEmail
  }

  /** A separator followed by a run of digits contributes exactly those digits. */
  lemma DigitsOfPiece(pre: string, sep: char, word: string)
    requires !IsAsciiDigit(sep)
    requires forall i :: 0 <= i < |word| ==> IsAsciiDigit(word[i])
    ensures DigitsOf(pre + [sep] + word) == DigitsOf(pre) + word
  {
    FilterConcat(IsAsciiDigit, pre + [sep], word);
    FilterConcat(IsAsciiDigit, pre, [sep]);
    FilterKeepsAll(IsAsciiDigit, word);
  }

  /** A number written as a leading sign and four digit groups separated by blanks gives the
      four groups run together. */
  lemma DigitsOfNumber(n: string, w1: string, w2: string, w3: string, w4: string)
    requires n == "+" + w1 + " " + w2 + " " + w3 + " " + w4
    requires forall i :: 0 <= i < |w1| ==> IsAsciiDigit(w1[i])
    requires forall i :: 0 <= i < |w2| ==> IsAsciiDigit(w2[i])
    requires forall i :: 0 <= i < |w3| ==> IsAsciiDigit(w3[i])
    requires forall i :: 0 <= i < |w4| ==> IsAsciiDigit(w4[i])
    ensures DigitsOf(n) == w1 + w2 + w3 + w4
  {
    var e: string := "";
    var n1 := e + ['+'] + w1;
    var n2 := n1 + [' '] + w2;
    var n3 := n2 + [' '] + w3;
    assert n == n3 + [' '] + w4;
    DigitsOfPiece(e, '+', w1);
    DigitsOfPiece(n1, ' ', w2);
    DigitsOfPiece(n2, ' ', w3);
    DigitsOfPiece(n3, ' ', w4);
  }

  /** The fallback number. */
  lemma DefaultNumberText()
    ensures DefaultSiteConfig.whatsappNumber == "+1 234 567 890"
  {
  }

  /** The fallback number as its sign and digit groups. */
  lemma DefaultNumberGroups(n: string)
    requires n == "+1 234 567 890"
    ensures n == "+" + "1" + " " + "234" + " " + "567" + " " + "890"
  {
  }

  /** The digits of a number spelled like the fallback one. */
  lemma DefaultNumberDigits(n: string)
    requires n == "+" + "1" + " " + "234" + " " + "567" + " " + "890"
    ensures DigitsOf(n) == "1234567890"
  {
    DigitsOfNumber(n, "1", "234", "567", "890");
    assert "1" + "234" + "567" + "890" == "1234567890";
  }

  /** The fallback number, "+1 234 567 890", links to its ten digits. */
  lemma DefaultWhatsAppLink()
    ensures WhatsAppLink(DefaultSiteConfig) == WhatsAppPrefix + "1234567890"
  {
    DefaultNumberText();
    DefaultNumberGroups(DefaultSiteConfig.whatsappNumber);
    DefaultNumberDigits(DefaultSiteConfig.whatsappNumber);
  }
}
