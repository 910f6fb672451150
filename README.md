# pixiv scraping client: the deterministic core

This project is a Dafny model of the logic inside the small pixiv scraping
client `pixiv/pixiv.py`, with pages and HTTP abstracted away. It covers:

- the `Pixiv` client's construction checks and its `member` factory;
- `Member.list_page_url`, which builds the member listing URL;
- `Member.works`, which walks the listing page by page, turns each work
  link into an unresolved `Work` stub, and reads the numeric ID with
  `WORK_URL_REGEX`;
- the work-type classifier `Work._get_type_from_html`;
- the lazily filled attributes of a `Work`: `_initialize_details`,
  `author`, `tags`, `Illust.original_illust_url` and `resolve_type`;
- the argument checks and the fetch of an eager `Work(...)` construction.

Modules:

- `Py`: optional values, raised exceptions as a `Result`, and dynamically
  typed arguments.
- `Text`: ASCII digits, `str(int)`, `int(digits)` and `str.strip()`.
- `Web`: fixed URLs, fetched pages and requests, and the two anchored regular
  expressions. A fetched page is reduced to the results of the CSS selectors
  the library runs on it. The site is an oracle from URL to page.
- `Client`: the `Pixiv` client as a value, and `Member` with its listing URLs.
- `Artwork`: the classifier, tags, the `Work` class with its memo fields and
  a `detailFetches` counter, and eager construction.
- `Listing`: `Member.works`, stated against a specification of the listing.
  The specification says at which page the walk stops (the first page that
  is empty or holds a link that is not a work link) and which IDs the
  links up to it carry.

`Work` is a class whose methods update its memo fields in place.
`Work.Valid()` is the invariant every method keeps:

- a cached detail page is the site's page for this work's URL;
- exactly one fetch was counted for it (none while nothing is cached);
- the cached tags and original-image URL agree with the cached page.

Changing the class in `resolve_type` is modelled as setting the instance's
`kind` field.

The work-type classifier is modelled as the code is written. Its third test
compares a list with `None`, so it always holds, and "Unhandled work type"
is never raised.

## Model

| member | source | states |
|---|---|---|
| Client.NewPixiv | pixiv/pixiv.py:35-68 | extra headers raise TypeError exactly when they are neither None nor a dict, and then no login request is sent; otherwise the session headers are User-Agent (the given one, or the default) and DNT overridden by the extra dict, and the two login requests of `login` follow: a GET of the main page, then a POST of the login form |
| Client.MemberOf | pixiv/pixiv.py:70-76 | `member(None)` and `member(non-int)` raise TypeError with their own messages; an int gives a member with that id on this client |
| Client.Member.ListPageUrl | pixiv/pixiv.py:118-134 | the three URL shapes: page 1 with type all (or none), page 1 with another type, and later pages with type defaulting to `all` |
| Client.ListPageUrlsDistinct | pixiv/pixiv.py:118-134 | two different page numbers of one member give two different URLs |
| Web.DetailPageUrl | pixiv/pixiv.py:24-25 | the detail URL is the medium-illust page followed by `str(illust_id)` |
| Web.MediumIllustPageIsAbsoluteWorkPath | pixiv/pixiv.py:24-28 | the medium-illust page is the host followed by the path that `WORK_URL_REGEX` matches |
| Web.DetailPageUrlRoundTrip | pixiv/pixiv.py:24-28 | the path of the detail URL of work n, read by `WORK_URL_REGEX`, gives n back |
| Web.DetailPageUrlInjective | pixiv/pixiv.py:24-25 | different works have different detail URLs |
| Web.MatchPrefixDigits | pixiv/pixiv.py:27-30 | an anchored prefix-plus-digits match succeeds iff the prefix is followed by a digit; the group is a maximal non-empty digit run |
| Web.ExtractWorkId | pixiv/pixiv.py:27-28 | a link that does not match raises AttributeError from `.group` on None |
| Web.ExtractWorkIdMeaning | pixiv/pixiv.py:27-28 | extraction succeeds iff the link starts with the work path followed by a digit; the ID is the decimal value of the maximal digit run there |
| Web.ExtractWorkIdOfHref | pixiv/pixiv.py:27-28 | the work link of ID n followed by any non-digit text yields n back |
| Text.Strip | pixiv/pixiv.py:253 | `strip()` is a slice of the input without leading and trailing whitespace |
| Text.StripIdempotent | pixiv/pixiv.py:253 | stripping twice is stripping once |
| Artwork.Classify | pixiv/pixiv.py:189-203 | never raises; Ugoira iff a player container is present; Manga iff there is none and the first works_display link is a manga link |
| Artwork.ClassifyIgnoresOriginalImage | pixiv/pixiv.py:200-203 | the original-image selector has no influence on the classification |
| Artwork.TagsOfTextsMeaning | pixiv/pixiv.py:249-253 | one tag per tag link, in document order, each holding the stripped text |
| Artwork.TagsOfAreStripped | pixiv/pixiv.py:249-253 | every tag text comes out already stripped |
| Artwork.AuthorOf | pixiv/pixiv.py:238-241 | the author is the member whose ID the page's user-id pattern gives, on the same session; without a match, AttributeError |
| Artwork.OriginalUrlOf | pixiv/pixiv.py:264-266 | the URL is the first original image's `data-src`; no image raises IndexError, and a missing attribute raises KeyError |
| Artwork.DetailsById | pixiv/pixiv.py:205-209 | the fetch succeeds exactly when it is handed a client, and returns the site's page for the detail URL |
| Artwork.Work.constructor | pixiv/pixiv.py:180-187 | id, author, session and class are as given, nothing is cached or fetched unless eager with a session, and then the detail page is fetched once |
| Artwork.Work.InitializeDetails | pixiv/pixiv.py:211-220 | TypeError without a session; otherwise the detail page is cached; an existing cache is left untouched, so no second fetch ever happens |
| Artwork.Work.Author | pixiv/pixiv.py:234-242 | a known author is returned with no state change or fetch; otherwise the page is fetched at most once and the author read from it is kept |
| Artwork.Work.Tags | pixiv/pixiv.py:244-255 | kept tags are returned unchanged; otherwise the tags of the detail page are built, kept and returned; no second fetch |
| Artwork.Work.OriginalIllustUrl | pixiv/pixiv.py:258-267 | only an Illust has it (AttributeError otherwise); kept once read; read from the cached detail page |
| Artwork.Work.ResolveType | pixiv/pixiv.py:222-228 | the instance becomes the classified type of its detail page, keeps the cached page, gets its author reset to None, and is returned |
| Artwork.EagerWorkId | pixiv/pixiv.py:138-164 | an eager construction needs the session keyword and exactly one ID, positional or keyword; each failure has its own TypeError |
| Artwork.EagerFetchAsWritten | pixiv/pixiv.py:166-169 | the eager fetch as written always raises |
| Artwork.EagerFetch | pixiv/pixiv.py:166-169 | the fetch through the client returns the site's detail page exactly when a client is given |
| Artwork.EagerFetchDiscrepancy | pixiv/pixiv.py:166-169 | given a client, the written fetch raises AttributeError on `Session` where the intended one returns the detail page |
| Artwork.NewEagerWork | pixiv/pixiv.py:138-178 | argument errors as checked; otherwise a fresh instance of the classified type holding the detail page (one fetch), with the given author and nothing else cached |
| Listing.LastPageExists | pixiv/pixiv.py:96-115 | if some page is empty or holds a link that is not a work link, there is a first such page, the one where the loop stops |
| Listing.LastPageUnique | pixiv/pixiv.py:96-115 | the page where the loop stops is unique |
| Listing.AnchorsBeforePrefix | pixiv/pixiv.py:96-115 | the links of fewer pages are a prefix of the links of more pages |
| Listing.AnchorsBeforeOrder | pixiv/pixiv.py:96-115 | page-then-position order: link i of page k sits right after all links of the pages before k |
| Listing.ExtractIdsMeaning | pixiv/pixiv.py:108-115 | a run of links yields IDs iff every link is a work link, and then holds each link's ID at its position |
| Listing.ExtractIdsConcat | pixiv/pixiv.py:105-115 | extracting from two runs one after the other is concatenating the two extractions |
| Listing.ExtractIdsPrefixErr | pixiv/pixiv.py:108-115 | a failing link in a prefix fails the whole run |
| Listing.IdsBeforeIsFlat | pixiv/pixiv.py:96-115 | gathering page by page, as the loop does, equals extracting from all the links of those pages at once |
| Listing.IdsBeforeErrPersists | pixiv/pixiv.py:108-115 | once a page raises, every longer walk raises |
| Listing.IdsBeforeWalkOk | pixiv/pixiv.py:96-115 | while no page has stopped the walk, the IDs gathered so far are there |
| Listing.ListedWorkIdsOk | pixiv/pixiv.py:96-115 | the listing yields IDs exactly when the walk stops at an empty page, which is then the first empty page; otherwise it raises at the page where it stops, after all earlier pages gave IDs |
| Listing.ListedWorkIdsAreFlat | pixiv/pixiv.py:93-116 | the listing's IDs are those of all links up to the page where the walk stops, in page-then-position order |
| Listing.PageStubs | pixiv/pixiv.py:108-115 | for one page: one fresh stub per link with that link's ID, in order, authored by the member; or the extraction error |
| Listing.CollectWorks | pixiv/pixiv.py:95-116 | requests pages 1, 2, ... in order up to the page that stops the walk and no further; returns fresh stubs whose IDs are the listing's IDs, or raises exactly when a link on that last page is not a work link, after every earlier page gave IDs |
| Listing.MemberWorks | pixiv/pixiv.py:93-116 | without a client, AttributeError on `_session`; otherwise the listing of the member through its client, requesting `list_page_url(1)`, `list_page_url(2)`, ... up to the page that stops the walk |

## Left out

- HTTP traffic is not modelled. A GET is the site oracle applied to the URL, the login requests are returned as a list, and the bytes of `Illust.original_illust` are left out.
- HTML parsing and CSS selectors are not modelled. A page is given by the results of the selectors the library runs on it.
- `USERID_REGEX.search` on the page text is given as an optional number on the page.
- `requests`' own default headers and its case-insensitive header keys are left out. The model keeps a plain map of the headers the client sets.
- A link whose `href` attribute is missing would raise KeyError. Links are modelled as their `href` strings, so this case is left out.
- Python's `bool` is a subclass of `int`, so `member(True)` is accepted. The argument value type does not model this.
- Listing.CollectWorks: it requires that some listing page is empty or holds a link that is not a work link. Without such a page, the `while True` loop never ends.
- Listing.MemberWorks: it has the same requirement, for the listing through the member's client.
- Argument binding errors of a non-eager `Work(...)` call, for example a missing positional ID, are left out. The Python interpreter raises them, not the library.
- `Novel`, `DictionaryArticle` and `Tag.dictionary_article` have no behaviour.
- `PixivObject.__init__` only stores the session.
- `pixiv/__init__.py` is not part of this model.
- The class change made by eager `Work.__new__` is modelled by the `kind` field.
- `__new__` followed by `__init__` is modelled as one construction.

## Findings

| source | as written | input that shows it | evidently intended | confidence | as-written member | corrected member |
|---|---|---|---|---|---|---|
| pixiv/pixiv.py:166-169 | eager `Work.__new__` passes `pixiv_session._session`, the HTTP session, to `_initialize_details_by_id`. That function reads `._session` from its argument once more, so it raises AttributeError | `Work(1, eager=True, pixiv_session=client)` for any client | pass the client itself, as `_initialize_details` does at lines 217-220, so that the detail page is fetched | not executed | Artwork.EagerFetchAsWritten (with Artwork.EagerFetchDiscrepancy) | Artwork.EagerFetch (used by Artwork.NewEagerWork) |
