/** What the library sees of the website: fixed URLs, the pages it fetches
    (reduced to the results of the CSS selectors it runs on them), the
    requests it sends, and the two anchored regular expressions it matches
    against link targets. */
module Web {
  import opened Py
  import opened Text

  const Host := "http://www.pixiv.net"
  const MainPage := Host + "/"
  const LoginPage := "http://www.pixiv.net/login.php"
  /** Base of the member listing; the query follows. */
  const ListPage := "http://www.pixiv.net/member_illust.php?"
  /** `MEDIUM_ILLUST_PAGE` up to its `{illust_id}` placeholder. */
  const MediumIllustPage := "http://www.pixiv.net/member_illust.php?mode=medium&illust_id="
  /** The literal part of `WORK_URL_REGEX`. */
  const WorkHrefPrefix := "/member_illust.php?mode=medium&illust_id="
  /** The literal part of `MANGA_URL_REGEX`. */
  const MangaHrefPrefix := "member_illust.php?mode=manga&illust_id="

  /** A fetched page, given by the results of the selectors the library
      applies to it. Parsing HTML and evaluating selectors is not modelled. */
  datatype Html = Html(
    /** `href` of each `ul._image-items > li.image-item > a.work`, in document order */
    workAnchors: seq<string>,
    /** number of `div._ugoku-illust-player-container` elements */
    playerContainers: nat,
    /** `href` of each `div.works_display > a`, in document order */
    worksDisplayAnchors: seq<string>,
    /** number of `.original-image` elements */
    originalImageElements: nat,
    /** `data-src` attribute (if present) of each `img.original-image` */
    originalImageSources: seq<Option<string>>,
    /** text of each `span.tags-container > ul.tags > li.tag > a.text` */
    tagTexts: seq<string>,
    /** `int` of group 1 of the first `USERID_REGEX` match in the page, if any */
    userId: Option<nat>)

  /** The website as an oracle: the page a GET of each URL returns. */
  type Site = string -> Html

  /** An HTTP request the client sends. */
  datatype Request =
    | Get(url: string, headers: map<string, string>)
    | Post(url: string, form: map<string, string>, headers: map<string, string>)

  /** `MEDIUM_ILLUST_PAGE.format(illust_id=id)`. */
  function DetailPageUrl(illustId: int): (url: string)
    ensures StartsWith(url, MediumIllustPage)
    ensures url[|MediumIllustPage|..] == IntToString(illustId)
  {
    MediumIllustPage + IntToString(illustId)
  }

  /** The detail page URL is the host followed by the path that
      `WORK_URL_REGEX` matches in listing links. */
  lemma MediumIllustPageIsAbsoluteWorkPath()
    ensures MediumIllustPage == Host + WorkHrefPrefix
  {
    var joined := Host + WorkHrefPrefix;
    assert |MediumIllustPage| == |joined|;
    forall i | 0 <= i < |joined| ensures MediumIllustPage[i] == joined[i] {
      if i < |Host| {
        assert joined[i] == Host[i];
      } else {
        assert joined[i] == WorkHrefPrefix[i - |Host|];
      }
    }
  }

  /** The path of the detail URL of work n, read as a listing link, names
      work n again. */
  lemma DetailPageUrlRoundTrip(n: nat)
    ensures ExtractWorkId(DetailPageUrl(n)[|Host|..]) == Ok(n)
  {
    MediumIllustPageIsAbsoluteWorkPath();
    assert DetailPageUrl(n)[|Host|..] == WorkHrefPrefix + NatToString(n) + "";
    ExtractWorkIdOfHref(n, "");
  }

  /** Different works have different detail pages. */
  lemma DetailPageUrlInjective(a: nat, b: nat)
    requires DetailPageUrl(a) == DetailPageUrl(b)
    ensures a == b
  {
    DetailPageUrlRoundTrip(a);
    DetailPageUrlRoundTrip(b);
  }

  /** Group 1 of `re.match(re.escape(prefix) + '([0-9]+)', s)`: the match
      is anchored at the start of `s` and the group is greedy. */
  function MatchPrefixDigits(prefix: string, s: string): (group: Option<string>)
    ensures group.Some? <==> StartsWith(s, prefix) && |s| > |prefix| && IsDigit(s[|prefix|])
    ensures group.Some? ==> group.value != [] && AllDigits(group.value)
    ensures group.Some? ==> StartsWith(s, prefix + group.value)
    ensures group.Some? && |prefix| + |group.value| < |s| ==> !IsDigit(s[|prefix| + |group.value|])
  {
    if StartsWith(s, prefix) then
      var run := DigitRun(s[|prefix|..]);
      if run == [] then None else
        assert s[..|prefix| + |run|] == prefix + run;
        Some(run)
    else None
  }

  /** `int(WORK_URL_REGEX.match(href).group(1))`; when the pattern does not
      match, `match` returns None and `.group` raises. */
  function ExtractWorkId(href: string): (r: Result<int>)
    ensures r.Err? ==> r.error == AttributeError(NoneGroupMessage)
  {
    match MatchPrefixDigits(WorkHrefPrefix, href)
    case Some(digits) => Ok(DecimalValue(digits))
    case None => Err(AttributeError(NoneGroupMessage))
  }

  /** A link yields an ID exactly when it starts with the work path followed
      by a digit; the ID is the value of the digit run there. */
  lemma ExtractWorkIdMeaning(href: string)
    ensures ExtractWorkId(href).Ok? <==>
      StartsWith(href, WorkHrefPrefix) && |href| > |WorkHrefPrefix| && IsDigit(href[|WorkHrefPrefix|])
    ensures ExtractWorkId(href).Ok? ==>
      ExtractWorkId(href).value == DecimalValue(DigitRun(href[|WorkHrefPrefix|..]))
  {
  }

  /** The listing link of work `n`, followed by anything that does not
      continue the digit run, yields `n` back. */
  lemma ExtractWorkIdOfHref(n: nat, rest: string)
    requires rest == [] || !IsDigit(rest[0])
    ensures ExtractWorkId(WorkHrefPrefix + NatToString(n) + rest) == Ok(n)
  {
    var digits := NatToString(n);
    var href := WorkHrefPrefix + digits + rest;
    assert href[..|WorkHrefPrefix|] == WorkHrefPrefix;
    assert href[|WorkHrefPrefix|..] == digits + rest;
    DigitRunOfDigits(digits, rest);
    DecimalValueOfNatToString(n);
  }

  /** `MANGA_URL_REGEX.match(href)` succeeds. */
  predicate IsMangaHref(href: string) {
    MatchPrefixDigits(MangaHrefPrefix, href).Some?
  }
}
