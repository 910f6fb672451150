/** `Member.works` (`pixiv/pixiv.py`): walk the member's listing page by
    page until a page has no work links, and turn every link into an
    unresolved `Work` stub. */
module Listing {
  import opened Py
  import opened Text
  import opened Web
  import opened Client
  import opened Artwork

  /** The listing as the loop sees it: the URL of each page number, and the
      page the site returns for a URL. */
  datatype PageSource = PageSource(site: Site, pageUrl: int -> string)

  /** The listing `works` walks: `list_page_url(page_num)` with the default
      type, fetched through the member's client. */
  function ListingOf(client: Pixiv, m: Member): (l: PageSource)
    ensures l.site == client.site
    ensures forall page :: l.pageUrl(page) == m.ListPageUrl(Some(page), None)
  {
    PageSource(client.site, page => m.ListPageUrl(Some(page), None))
  }

  /** The work links on one page of the listing. */
  function PageAnchors(l: PageSource, page: int): seq<string> {
    l.site(l.pageUrl(page)).workAnchors
  }

  /** The links of pages 1 to n - 1: page after page, each page in
      document order. */
  function AnchorsBefore(l: PageSource, n: nat): seq<string> {
    if n <= 1 then [] else AnchorsBefore(l, n - 1) + PageAnchors(l, n - 1)
  }

  ghost predicate IsFirstEmptyPage(l: PageSource, n: nat) {
    n >= 1 && PageAnchors(l, n) == [] &&
    forall k :: 1 <= k < n ==> PageAnchors(l, k) != []
  }

  /** Page n stops the walk: it has no work links, or one of its links is
      not a work link and raises. */
  ghost predicate EndsWalk(l: PageSource, n: nat) {
    PageAnchors(l, n) == [] || ExtractIds(PageAnchors(l, n)).Err?
  }

  /** The page at which the walk stops: the first one that ends it. */
  ghost predicate IsLastPage(l: PageSource, n: nat) {
    n >= 1 && EndsWalk(l, n) &&
    forall k :: 1 <= k < n ==> !EndsWalk(l, k)
  }

  /** The walk ends somewhere; the `while True` loop runs forever otherwise. */
  ghost predicate WalkEnds(l: PageSource) {
    exists n: nat :: n >= 1 && EndsWalk(l, n)
  }

  lemma {:induction false} LastPageExists(l: PageSource, n: nat)
    requires n >= 1 && EndsWalk(l, n)
    ensures exists f: nat :: f <= n && IsLastPage(l, f)
  {
    if forall k :: 1 <= k < n ==> !EndsWalk(l, k) {
      assert IsLastPage(l, n);
    } else {
      var k :| 1 <= k < n && EndsWalk(l, k);
      LastPageExists(l, k);
    }
  }

  lemma LastPageUnique(l: PageSource, a: nat, b: nat)
    requires IsLastPage(l, a) && IsLastPage(l, b)
    ensures a == b
  {
  }

  /** The page at which `works` stops. */
  ghost function LastPage(l: PageSource): (n: nat)
    requires WalkEnds(l)
    ensures IsLastPage(l, n)
  {
    var w: nat :| w >= 1 && EndsWalk(l, w);
    LastPageExists(l, w);
    var n: nat :| IsLastPage(l, n);
    n
  }

  /** Fewer pages give a prefix of the links of more pages. */
  lemma {:induction false} AnchorsBeforePrefix(l: PageSource, j: nat, n: nat)
    requires j <= n
    ensures |AnchorsBefore(l, j)| <= |AnchorsBefore(l, n)|
    ensures AnchorsBefore(l, n)[..|AnchorsBefore(l, j)|] == AnchorsBefore(l, j)
  {
    if j < n {
      AnchorsBeforePrefix(l, j, n - 1);
      var shorter := AnchorsBefore(l, n - 1);
      if n > 1 {
        assert AnchorsBefore(l, n)[..|shorter|] == shorter;
      }
    }
  }

  /** Page-then-position order: link i of page k sits right after the
      links of the pages before k. */
  lemma AnchorsBeforeOrder(l: PageSource, n: nat, k: nat, i: nat)
    requires 1 <= k < n && i < |PageAnchors(l, k)|
    ensures |AnchorsBefore(l, k)| + i < |AnchorsBefore(l, n)|
    ensures AnchorsBefore(l, n)[|AnchorsBefore(l, k)| + i] == PageAnchors(l, k)[i]
  {
    AnchorsBeforePrefix(l, k + 1, n);
    var before, page, upTo := AnchorsBefore(l, k), PageAnchors(l, k), AnchorsBefore(l, k + 1);
    assert upTo == before + page;
    assert upTo[|before| + i] == page[i];
    assert AnchorsBefore(l, n)[..|upTo|][|before| + i] == upTo[|before| + i];
  }

  /** The IDs of a run of links, or the error raised at the first link that
      is not a work link. */
  function ExtractIds(hrefs: seq<string>): (r: Result<seq<int>>)
    ensures r.Err? ==> r.error == AttributeError(NoneGroupMessage)
  {
    if hrefs == [] then Ok([])
    else match ExtractWorkId(hrefs[0])
      case Err(e) => Err(e)
      case Ok(first) =>
        match ExtractIds(hrefs[1..])
        case Err(e) => Err(e)
        case Ok(rest) => Ok([first] + rest)
  }

  /** The run succeeds exactly when every link is a work link, and then
      holds each link's ID at the link's position. */
  lemma {:induction false} ExtractIdsMeaning(hrefs: seq<string>)
    ensures ExtractIds(hrefs).Ok? <==> forall i :: 0 <= i < |hrefs| ==> ExtractWorkId(hrefs[i]).Ok?
    ensures ExtractIds(hrefs).Ok? ==> |ExtractIds(hrefs).value| == |hrefs|
    ensures ExtractIds(hrefs).Ok? ==>
      forall i :: 0 <= i < |hrefs| ==> ExtractWorkId(hrefs[i]) == Ok(ExtractIds(hrefs).value[i])
  {
    if hrefs != [] {
      ExtractIdsMeaning(hrefs[1..]);
      assert forall i :: 1 <= i < |hrefs| ==> hrefs[1..][i - 1] == hrefs[i];
    }
  }

  /** The URLs of pages 1 to n, in order. */
  function UrlsUpTo(l: PageSource, n: nat): (urls: seq<string>)
    ensures |urls| == n
    ensures forall k :: 0 <= k < n ==> urls[k] == l.pageUrl(k + 1)
  {
    if n == 0 then [] else UrlsUpTo(l, n - 1) + [l.pageUrl(n)]
  }

  /** The IDs of pages 1 to n - 1 as `works` gathers them: page by page,
      stopping at the first link that is not a work link. */
  function IdsBefore(l: PageSource, n: nat): (r: Result<seq<int>>)
    ensures r.Err? ==> r.error == AttributeError(NoneGroupMessage)
  {
    if n <= 1 then Ok([])
    else match IdsBefore(l, n - 1)
      case Err(e) => Err(e)
      case Ok(ids) =>
        match ExtractIds(PageAnchors(l, n - 1))
        case Err(e) => Err(e)
        case Ok(more) => Ok(ids + more)
  }

  /** Gathering page by page is extracting from all the links at once. */
  lemma {:induction false} IdsBeforeIsFlat(l: PageSource, n: nat)
    ensures IdsBefore(l, n) == ExtractIds(AnchorsBefore(l, n))
  {
    if n > 1 {
      IdsBeforeIsFlat(l, n - 1);
      var before, page := AnchorsBefore(l, n - 1), PageAnchors(l, n - 1);
      if ExtractIds(before).Ok? {
        ExtractIdsConcat(before, page);
      } else {
        assert (before + page)[..|before|] == before;
        ExtractIdsPrefixErr(before + page, |before|);
      }
    }
  }

  /** Once a page fails, every longer walk fails too. */
  lemma {:induction false} IdsBeforeErrPersists(l: PageSource, j: nat, n: nat)
    requires j <= n && IdsBefore(l, j).Err?
    ensures IdsBefore(l, n).Err?
  {
    if j < n {
      IdsBeforeErrPersists(l, j, n - 1);
    }
  }

  /** Before a page that stops the walk, every page's links are work
      links, so the IDs gathered so far are there. */
  lemma {:induction false} IdsBeforeWalkOk(l: PageSource, n: nat)
    requires forall k :: 1 <= k < n ==> !EndsWalk(l, k)
    ensures IdsBefore(l, n).Ok?
  {
    if n > 1 {
      IdsBeforeWalkOk(l, n - 1);
      assert !EndsWalk(l, n - 1);
    }
  }

  /** What `works` computes, as a value: the IDs of the links on every page
      up to the one that stops the walk, or the error raised there. */
  ghost function ListedWorkIds(l: PageSource): Result<seq<int>>
    requires WalkEnds(l)
  {
    IdsBefore(l, LastPage(l) + 1)
  }

  /** The listing yields IDs exactly when the walk stops at an empty page,
      which is then the first empty page; otherwise it raises at the last
      page, after every page before it gave IDs. */
  lemma ListedWorkIdsOk(l: PageSource)
    requires WalkEnds(l)
    ensures ListedWorkIds(l).Ok? <==> PageAnchors(l, LastPage(l)) == []
    ensures ListedWorkIds(l).Ok? ==> IsFirstEmptyPage(l, LastPage(l)) && ListedWorkIds(l) == IdsBefore(l, LastPage(l))
    ensures ListedWorkIds(l).Err? ==> IdsBefore(l, LastPage(l)).Ok? && ExtractIds(PageAnchors(l, LastPage(l))).Err?
  {
    var n := LastPage(l);
    IdsBeforeWalkOk(l, n);
    var ids := IdsBefore(l, n).value;
    if PageAnchors(l, n) == [] {
      assert ids + [] == ids;
      forall k | 1 <= k < n ensures PageAnchors(l, k) != [] {
        assert !EndsWalk(l, k);
      }
    }
  }

  /** The listing's IDs are the IDs of all its links in page-then-position
      order, or an error if any of them is not a work link. */
  lemma ListedWorkIdsAreFlat(l: PageSource)
    requires WalkEnds(l)
    ensures ListedWorkIds(l) == ExtractIds(AnchorsBefore(l, LastPage(l) + 1))
  {
    IdsBeforeIsFlat(l, LastPage(l) + 1);
  }

  /** A stub as `works` makes it: authored by `m`, on `m`'s client, still a
      plain `Work`, nothing fetched or cached. */
  ghost predicate IsStub(w: Work, m: Member)
    reads w
  {
    w.detailFetches == 0 && w.author == Some(m) && w.session == m.session && w.kind.None? &&
    w.response.None? && w.tags.None? && w.originalIllustUrl.None?
  }

  /** A stub is a valid `Work`: its lazy attributes can be asked for. */
  lemma StubIsValid(w: Work, m: Member)
    requires IsStub(w, m)
    ensures w.Valid()
  {
  }

  /** The IDs of a run of stubs. */
  function IdsOf(works: seq<Work>): (ids: seq<int>)
    ensures |ids| == |works| && forall i :: 0 <= i < |works| ==> ids[i] == works[i].id
  {
    seq(|works|, i requires 0 <= i < |works| => works[i].id)
  }

  lemma IdsOfConcat(a: seq<Work>, b: seq<Work>)
    ensures IdsOf(a + b) == IdsOf(a) + IdsOf(b)
  {
    var joined, parts := IdsOf(a + b), IdsOf(a) + IdsOf(b);
    forall i | 0 <= i < |joined| ensures joined[i] == parts[i] {
      if i < |a| { assert (a + b)[i] == a[i]; } else { assert (a + b)[i] == b[i - |a|]; }
    }
  }

  /** Extracting the IDs of two runs of links one after the other. */
  lemma {:induction false} ExtractIdsConcat(a: seq<string>, b: seq<string>)
    requires ExtractIds(a).Ok?
    ensures ExtractIds(a + b).Ok? <==> ExtractIds(b).Ok?
    ensures ExtractIds(b).Ok? ==> ExtractIds(a + b).value == ExtractIds(a).value + ExtractIds(b).value
  {
    if a == [] {
      assert a + b == b;
    } else {
      assert (a + b)[0] == a[0];
      assert (a + b)[1..] == a[1..] + b;
      ExtractIdsConcat(a[1..], b);
      if ExtractIds(b).Ok? {
        var first, rest, more := ExtractWorkId(a[0]).value, ExtractIds(a[1..]).value, ExtractIds(b).value;
        assert ExtractIds(a + b).value == [first] + (rest + more);
        assert [first] + (rest + more) == ([first] + rest) + more;
      }
    }
  }

  /** A link that fails in a run of links fails the whole listing it is a
      prefix of. */
  lemma {:induction false} ExtractIdsPrefixErr(s: seq<string>, k: nat)
    requires k <= |s| && ExtractIds(s[..k]).Err?
    ensures ExtractIds(s).Err?
  {
    assert s[..k][0] == s[0];
    if ExtractWorkId(s[0]).Ok? {
      assert s[..k][1..] == s[1..][..k - 1];
      ExtractIdsPrefixErr(s[1..], k - 1);
    }
  }

  lemma ExtractIdsSingle(href: string)
    requires ExtractWorkId(href).Ok?
    ensures ExtractIds([href]) == Ok([ExtractWorkId(href).value])
  {
    assert [href][1..] == [];
    assert [ExtractWorkId(href).value] + [] == [ExtractWorkId(href).value];
  }

  /** The `for work in works` loop of `Member.works` for one page: one
      stub per link, in order; the first link that is not a work link
      raises, and nothing is returned. */
  method PageStubs(m: Member, works: seq<string>) returns (r: Result<seq<Work>>)
    ensures r.Ok? <==> ExtractIds(works).Ok?
    ensures r.Err? ==> r.error == ExtractIds(works).error
    ensures r.Ok? ==> IdsOf(r.value) == ExtractIds(works).value
    ensures r.Ok? ==> forall i :: 0 <= i < |r.value| ==> fresh(r.value[i]) && IsStub(r.value[i], m)
  {
    var stubs: seq<Work> := [];
    var j := 0;
    while j < |works|
      invariant 0 <= j <= |works|
      invariant ExtractIds(works[..j]) == Ok(IdsOf(stubs))
      invariant forall i :: 0 <= i < |stubs| ==> fresh(stubs[i]) && IsStub(stubs[i], m)
    {
      var id := ExtractWorkId(works[j]);
      assert works[..j + 1] == works[..j] + [works[j]];
      ExtractIdsConcat(works[..j], [works[j]]);
      if id.Err? {
        ExtractIdsPrefixErr(works, j + 1);
        return Err(id.error);
      }
      ExtractIdsSingle(works[j]);
      var w := new Work(id.value, Some(m), false, m.session, None);
      IdsOfConcat(stubs, [w]);
      assert IdsOf([w]) == [id.value];
      stubs := stubs + [w];
      j := j + 1;
    }
    assert works[..j] == works;
    return Ok(stubs);
  }

  /** The `while True` loop of `Member.works`: request pages 1, 2, ... of
      the listing until one has no work links, and make one unresolved stub,
      authored by `m`, per link. A link that is not a work link raises at
      once. `requested` lists the URLs fetched, in order. */
  method CollectWorks(m: Member, l: PageSource) returns (r: Result<seq<Work>>, requested: seq<string>)
    requires WalkEnds(l)
    ensures r.Ok? <==> ListedWorkIds(l).Ok?
    ensures r.Err? ==> r.error == ListedWorkIds(l).error
    ensures |requested| == LastPage(l) && requested == UrlsUpTo(l, |requested|)
    ensures r.Err? ==> IdsBefore(l, |requested|).Ok? && IdsBefore(l, |requested| + 1).Err?
    ensures r.Ok? ==> IdsOf(r.value) == ListedWorkIds(l).value
    ensures r.Ok? ==> forall i :: 0 <= i < |r.value| ==> fresh(r.value[i]) && IsStub(r.value[i], m)
  {
    ghost var n := LastPage(l);
    requested := [];
    var all: seq<Work> := [];
    var page := 1;
    while true
      invariant 1 <= page <= n
      invariant requested == UrlsUpTo(l, page - 1)
      invariant IdsBefore(l, page) == Ok(IdsOf(all))
      invariant forall i :: 0 <= i < |all| ==> fresh(all[i]) && IsStub(all[i], m)
      decreases n - page
    {
      var url := l.pageUrl(page);
      requested := requested + [url];
      var works := l.site(url).workAnchors;
      assert works == PageAnchors(l, page);
      if works == [] {
        assert EndsWalk(l, page);
        assert page == n;
        assert IdsOf(all) + [] == IdsOf(all);
        break;
      }
      var stubs := PageStubs(m, works);
      if stubs.Err? {
        assert EndsWalk(l, page);
        assert page == n;
        return Err(stubs.error), requested;
      }
      assert !EndsWalk(l, page);
      assert page < n;
      IdsOfConcat(all, stubs.value);
      all := all + stubs.value;
      page := page + 1;
    }
    return Ok(all), requested;
  }

  /** `Member.works`: the listing of `m` through `m`'s client. A member
      without a client has no session to fetch with. */
  method MemberWorks(m: Member) returns (r: Result<seq<Work>>, requested: seq<string>)
    requires m.session.Some? ==> WalkEnds(ListingOf(m.session.value, m))
    ensures m.session.None? ==> r == Err(AttributeError(NoneSessionMessage)) && requested == []
    ensures m.session.Some? ==>
      var l := ListingOf(m.session.value, m);
      (r.Ok? <==> ListedWorkIds(l).Ok?) &&
      (r.Err? ==> r.error == ListedWorkIds(l).error) &&
      (r.Err? ==> IdsBefore(l, |requested|).Ok? && IdsBefore(l, |requested| + 1).Err?) &&
      |requested| == LastPage(l) &&
      (r.Ok? ==> IdsOf(r.value) == ListedWorkIds(l).value) &&
      forall k :: 0 <= k < |requested| ==> requested[k] == m.ListPageUrl(Some(k + 1), None)
    ensures r.Ok? ==> forall i :: 0 <= i < |r.value| ==> fresh(r.value[i]) && IsStub(r.value[i], m)
  {
    if m.session.None? {
      return Err(AttributeError(NoneSessionMessage)), [];
    }
    r, requested := CollectWorks(m, ListingOf(m.session.value, m));
  }
}
