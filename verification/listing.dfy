/**
 * The listing walker: the endless sequence of listing-page URLs of the
 * fintech category feed, page 1, 2, 3, ... (`_infinity_page_links`).
 */
module Listing {
  import opened Wrappers

  /** The category feed the parser walks. */
  const Host: string := "https://techcrunch.com/category/fintech/"

  /** What comes before and after the page number in a listing URL. */
  const PagePrefix: string := Host + "page/"
  const PageSuffix: string := "/?guccounter=1"

  predicate IsDigit(c: char) { '0' <= c <= '9' }

  predicate AllDigits(s: string) { forall i :: 0 <= i < |s| ==> IsDigit(s[i]) }

  /** A decimal numeral as Python's `str` writes a non-negative int: no leading zero. */
  predicate Canonical(s: string) {
    |s| >= 1 && AllDigits(s) && (|s| > 1 ==> s[0] != '0')
  }

  function DigitChar(d: nat): (c: char)
    requires d < 10
    ensures IsDigit(c) && c as int - '0' as int == d
  {
    ('0' as int + d) as char
  }

  /** The decimal numeral of `n`, as the `{page_number}` field of a format string renders it. */
  function Decimal(n: nat): (s: string)
    ensures Canonical(s)
    ensures s[0] == '0' <==> n == 0
    decreases n
  {
    if n < 10 then [DigitChar(n)] else Decimal(n / 10) + [DigitChar(n % 10)]
  }

  /** The value of a string of decimal digits. */
  function DecimalValue(s: string): nat
    requires AllDigits(s)
  {
    if s == [] then 0 else DecimalValue(s[..|s| - 1]) * 10 + (s[|s| - 1] as int - '0' as int)
  }

  /** Reading back a rendered page number gives the number. */
  lemma {:induction false} DecimalRoundTrip(n: nat)
    ensures DecimalValue(Decimal(n)) == n
  {
    if n >= 10 {
      var s := Decimal(n);
      assert s[..|s| - 1] == Decimal(n / 10);
      DecimalRoundTrip(n / 10);
    }
  }

  /** Only a string of zeros has the value 0. */
  lemma {:induction false} ZeroValueAllZeros(s: string)
    requires AllDigits(s) && DecimalValue(s) == 0
    ensures forall i :: 0 <= i < |s| ==> s[i] == '0'
  {
    if s != [] {
      ZeroValueAllZeros(s[..|s| - 1]);
      forall i | 0 <= i < |s| ensures s[i] == '0' {
        if i < |s| - 1 { assert s[i] == s[..|s| - 1][i]; }
      }
    }
  }

  /** Rendering the value of a canonical numeral gives the numeral back. */
  lemma {:induction false} CanonicalRoundTrip(s: string)
    requires Canonical(s)
    ensures Decimal(DecimalValue(s)) == s
  {
    var t := s[..|s| - 1];
    var d := s[|s| - 1] as int - '0' as int;
    if |s| > 1 {
      assert t[0] == s[0];
      assert Canonical(t);
      CanonicalRoundTrip(t);
      if DecimalValue(t) == 0 {
        ZeroValueAllZeros(t);
        assert false;
      }
      var v := DecimalValue(s);
      assert v == DecimalValue(t) * 10 + d;
      assert v / 10 == DecimalValue(t) && v % 10 == d;
      assert Decimal(v) == Decimal(DecimalValue(t)) + [DigitChar(d)];
      assert s == t + [s[|s| - 1]];
    }
  }

  /** The URL of listing page `n`: the template `HOST + 'page/{page_number}/?guccounter=1'`. */
  function PageUrl(n: nat): (url: string)
    ensures |url| > |Host| + |PageSuffix| && url[..|Host|] == Host
    ensures url[|url| - |PageSuffix|..] == PageSuffix
  {
    var url := PagePrefix + Decimal(n) + PageSuffix;
    assert url[..|Host|] == Host;
    url
  }

  /** The page number a listing URL names, if it has the template's shape. */
  function PageNumberOf(url: string): Option<nat> {
    var lo := |PagePrefix|;
    var hi := |url| - |PageSuffix|;
    if lo <= hi && url[..lo] == PagePrefix && url[hi..] == PageSuffix && Canonical(url[lo..hi])
    then Some(DecimalValue(url[lo..hi]))
    else None
  }

  /** PageNumberOf is the exact inverse of PageUrl. */
  lemma PageNumberOfInverse(url: string, n: nat)
    ensures PageNumberOf(url) == Some(n) <==> url == PageUrl(n)
  {
    var lo := |PagePrefix|;
    if url == PageUrl(n) {
      var d := Decimal(n);
      var hi := |url| - |PageSuffix|;
      assert url[..lo] == PagePrefix;
      assert url[hi..] == PageSuffix;
      assert url[lo..hi] == d;
      DecimalRoundTrip(n);
    }
    if PageNumberOf(url) == Some(n) {
      var hi := |url| - |PageSuffix|;
      var mid := url[lo..hi];
      CanonicalRoundTrip(mid);
      assert url == url[..lo] + mid + url[hi..];
    }
  }

  /** Two listing pages share a URL only when they have the same number. */
  lemma PageUrlInjective(m: nat, n: nat)
    ensures PageUrl(m) == PageUrl(n) <==> m == n
  {
    PageNumberOfInverse(PageUrl(m), m);
    PageNumberOfInverse(PageUrl(m), n);
  }

  /** A walk that yields PageUrl(1), PageUrl(2), ... never repeats a URL. */
  lemma WalkNeverRepeats(urls: seq<string>)
    requires forall k :: 0 <= k < |urls| ==> urls[k] == PageUrl(k + 1)
    ensures forall i, j :: 0 <= i < j < |urls| ==> urls[i] != urls[j]
  {
    forall i, j | 0 <= i < j < |urls| ensures urls[i] != urls[j] {
      PageUrlInjective(i + 1, j + 1);
    }
  }

  /** The first listing URL the walker yields. */
  lemma FirstPageUrl()
    ensures PageUrl(1) == "https://techcrunch.com/category/fintech/page/1/?guccounter=1"
  {
  }

  /**
   * The generator object of `_infinity_page_links`: a page counter that starts
   * at 1 and is advanced after each yield. `yielded` records what it yielded.
   */
  class PageLinkWalker {
    var pageNumber: nat
    ghost var yielded: seq<string>

    /** The k-th URL yielded (from 1) is the URL of page k, and the counter is the next page. */
    ghost predicate Valid()
      reads this
    {
      pageNumber == |yielded| + 1 &&
      forall k :: 0 <= k < |yielded| ==> yielded[k] == PageUrl(k + 1)
    }

    constructor ()
      ensures Valid() && yielded == [] && pageNumber == 1
    {
      pageNumber := 1;
      yielded := [];
    }

    /** Yield the URL of the current page and advance the counter by one. */
    method Next() returns (url: string)
      requires Valid()
      modifies this
      ensures Valid()
      ensures url == PageUrl(old(pageNumber)) && pageNumber == old(pageNumber) + 1
      ensures yielded == old(yielded) + [url]
    {
      url := PagePrefix + Decimal(pageNumber) + PageSuffix;
      yielded := yielded + [url];
      pageNumber := pageNumber + 1;
    }
  }
}
