/** Artworks (`pixiv/pixiv.py`, classes `Work`, `Illust`, `Manga`,
    `Ugoira` and `Tag`): classification of a detail page, the lazily
    filled attributes of a `Work` instance, and eager construction. */
module Artwork {
  import opened Py
  import opened Text
  import opened Web
  import opened Client

  /** The subclasses of `Work` that classification can produce. */
  datatype WorkType = Illust | Manga | Ugoira

  /** The Python class of an instance: `Work` itself until it is resolved. */
  function ClassName(kind: Option<WorkType>): string {
    match kind
    case None => "Work"
    case Some(Illust) => "Illust"
    case Some(Manga) => "Manga"
    case Some(Ugoira) => "Ugoira"
  }

  const UnhandledTypeMessage := "Unhandled work type"

  /** `soup.select(...) is not None`: a selector always returns a list, so
      this holds whatever the list contains. */
  predicate IsNotNone(selected: nat) { true }

  /** `Work._get_type_from_html`: an animation player means Ugoira;
      otherwise a first `works_display` link to a manga page means Manga;
      otherwise Illust. The original-image test that should guard Illust
      compares a list with None, so it always passes and the
      "Unhandled work type" error is never raised. */
  function Classify(page: Html): (r: Result<WorkType>)
    ensures r.Ok?
    ensures r.value == Ugoira <==> page.playerContainers > 0
    ensures r.value == Manga <==>
      page.playerContainers == 0 && |page.worksDisplayAnchors| > 0 && IsMangaHref(page.worksDisplayAnchors[0])
  {
    if page.playerContainers > 0 then Ok(Ugoira)
    else if |page.worksDisplayAnchors| > 0 && IsMangaHref(page.worksDisplayAnchors[0]) then Ok(Manga)
    else if IsNotNone(page.originalImageElements) then Ok(Illust)
    else Err(TypeError(UnhandledTypeMessage))
  }

  /** The original-image elements play no part in the classification: a
      page without any is still classified Illust. */
  lemma ClassifyIgnoresOriginalImage(a: Html, b: Html)
    requires a.playerContainers == b.playerContainers
    requires a.worksDisplayAnchors == b.worksDisplayAnchors
    ensures Classify(a) == Classify(b)
  {
  }

  /** A tag of an artwork. */
  datatype Tag = Tag(text: string)

  /** The tags of a run of tag texts: one per text, stripped, in order. */
  function TagsOfTexts(texts: seq<string>): seq<Tag> {
    if texts == [] then [] else TagsOfTexts(texts[..|texts| - 1]) + [Tag(Strip(texts[|texts| - 1]))]
  }

  /** The tags of a detail page. */
  function TagsOf(page: Html): seq<Tag> {
    TagsOfTexts(page.tagTexts)
  }

  /** Tag i is the stripped text of tag link i. */
  lemma {:induction false} TagsOfTextsMeaning(texts: seq<string>)
    ensures |TagsOfTexts(texts)| == |texts|
    ensures forall i :: 0 <= i < |texts| ==> TagsOfTexts(texts)[i] == Tag(Strip(texts[i]))
  {
    if texts != [] {
      var init := texts[..|texts| - 1];
      TagsOfTextsMeaning(init);
      assert texts == init + [texts[|init|]];
      forall i | 0 <= i < |texts| ensures TagsOfTexts(texts)[i] == Tag(Strip(texts[i])) {
        TagOfTextsAt(init, texts[|init|], i);
      }
    }
  }

  /** One step of the induction above: the tags of one more text. */
  lemma TagOfTextsAt(init: seq<string>, last: string, i: nat)
    requires i <= |init|
    requires |TagsOfTexts(init)| == |init|
    requires forall j :: 0 <= j < |init| ==> TagsOfTexts(init)[j] == Tag(Strip(init[j]))
    ensures TagsOfTexts(init + [last])[i] == Tag(Strip((init + [last])[i]))
  {
    var texts := init + [last];
    assert texts[..|texts| - 1] == init;
    if i < |init| {
      assert TagsOfTexts(texts)[i] == TagsOfTexts(init)[i];
      assert texts[i] == init[i];
    }
  }

  /** Every tag of a page comes out already stripped. */
  lemma TagsOfAreStripped(page: Html)
    ensures |TagsOf(page)| == |page.tagTexts|
    ensures forall i :: 0 <= i < |page.tagTexts| ==> TagsOf(page)[i].text == Strip(TagsOf(page)[i].text)
  {
    TagsOfTextsMeaning(page.tagTexts);
    forall i | 0 <= i < |page.tagTexts|
      ensures TagsOf(page)[i].text == Strip(TagsOf(page)[i].text)
    {
      StripIdempotent(page.tagTexts[i]);
    }
  }

  /** The author read from a detail page: `Member(int(USERID_REGEX.search(text).group(1)))`. */
  function AuthorOf(page: Html, session: Option<Pixiv>): (r: Result<Member>)
    ensures r.Ok? <==> page.userId.Some?
    ensures r.Ok? ==> r.value == Member(page.userId.value, session)
    ensures r.Err? ==> r.error == AttributeError(NoneGroupMessage)
  {
    match page.userId
    case Some(n) => Ok(Member(n, session))
    case None => Err(AttributeError(NoneGroupMessage))
  }

  /** `soup.select('img.original-image')[0].attrs['data-src']`. */
  function OriginalUrlOf(page: Html): (r: Result<string>)
    ensures r.Ok? <==> |page.originalImageSources| > 0 && page.originalImageSources[0].Some?
    ensures r.Ok? ==> r.value == page.originalImageSources[0].value
    ensures page.originalImageSources == [] ==> r == Err(IndexError(IndexMessage))
    ensures page.originalImageSources != [] && page.originalImageSources[0].None? ==> r == Err(KeyError("data-src"))
  {
    if page.originalImageSources == [] then Err(IndexError(IndexMessage))
    else match page.originalImageSources[0]
      case Some(url) => Ok(url)
      case None => Err(KeyError("data-src"))
  }

  /** What `_initialize_details_by_id` may be handed: it reads the object's
      `_session` attribute and GETs through it. */
  datatype SessionHolder =
    | NoneHolder
    | PixivHolder(client: Pixiv)
    | HttpSessionHolder(headers: map<string, string>, site: Site)

  /** `pixiv._session`: the HTTP session inside a client. */
  function HttpSessionOf(client: Pixiv): SessionHolder {
    HttpSessionHolder(client.headers, client.site)
  }

  /** `Work._initialize_details_by_id(id, holder)`: only a client has a
      `_session` to fetch through. */
  function DetailsById(id: int, holder: SessionHolder): (r: Result<Html>)
    ensures r.Ok? <==> holder.PixivHolder?
    ensures r.Ok? ==> r.value == holder.client.site(DetailPageUrl(id))
  {
    match holder
    case PixivHolder(client) => Ok(client.site(DetailPageUrl(id)))
    case HttpSessionHolder(_, _) => Err(AttributeError(HttpSessionMessage))
    case NoneHolder => Err(AttributeError(NoneSessionMessage))
  }

  const NoSessionMessage := "Pixiv session should be set to initialize details."

  /** One artwork. Every derived attribute is filled at most once; the
      detail page is fetched at most once, and `detailFetches` counts the
      fetches made for this instance. */
  class Work {
    const id: int
    const session: Option<Pixiv>
    /** The instance's subclass; None while it is still a plain `Work`. */
    var kind: Option<WorkType>
    var author: Option<Member>
    var response: Option<Html>
    var tags: Option<seq<Tag>>
    var originalIllustUrl: Option<string>
    var detailFetches: nat

    /** The cache holds the detail page of this work and was filled by the
        one fetch counted; derived attributes agree with the cached page. */
    ghost predicate Valid()
      reads this
    {
      detailFetches == (if response.Some? then 1 else 0) &&
      (response.Some? ==> session.Some? && response.value == session.value.site(DetailPageUrl(id))) &&
      (tags.Some? ==> response.Some? && tags.value == TagsOf(response.value)) &&
      (originalIllustUrl.Some? ==>
         response.Some? && OriginalUrlOf(response.value) == Ok(originalIllustUrl.value))
    }

    /** `Work.__init__(id, author=..., eager=..., pixiv_session=...)` on a
        fresh instance of class `kind`: nothing is fetched unless eager
        initialisation is asked for and a session is given. */
    constructor (id: int, author: Option<Member>, eager: bool, session: Option<Pixiv>, kind: Option<WorkType>)
      ensures Valid()
      ensures this.id == id && this.author == author && this.session == session && this.kind == kind
      ensures tags.None? && originalIllustUrl.None?
      ensures eager && session.Some? ==> response == Some(session.value.site(DetailPageUrl(id)))
      ensures !(eager && session.Some?) ==> response.None?
    {
      this.id := id;
      this.session := session;
      this.kind := kind;
      this.author := author;
      this.tags := None;
      this.originalIllustUrl := None;
      if eager && session.Some? {
        var page := DetailsById(id, PixivHolder(session.value));
        this.response := Some(page.value);
        this.detailFetches := 1;
      } else {
        this.response := None;
        this.detailFetches := 0;
      }
    }

    /** `Work._initialize_details`: a session is required; the detail page
        is fetched only if it is not cached yet. */
    method InitializeDetails() returns (r: Result<()>)
      requires Valid()
      modifies this`response, this`detailFetches
      ensures Valid()
      ensures session.None? ==> r == Err(TypeError(NoSessionMessage)) && unchanged(this)
      ensures session.Some? ==> r.Ok? && response == Some(session.value.site(DetailPageUrl(id)))
      ensures old(response).Some? ==> unchanged(this)
    {
      if session.None? {
        return Err(TypeError(NoSessionMessage));
      }
      if response.None? {
        var page := DetailsById(id, PixivHolder(session.value));
        response := Some(page.value);
        detailFetches := detailFetches + 1;
      }
      return Ok(());
    }

    /** `Work.author`: a known author is returned as it is, without a
        fetch; otherwise it is read from the detail page and kept. */
    method Author() returns (r: Result<Member>)
      requires Valid()
      modifies this`response, this`detailFetches, this`author
      ensures Valid()
      ensures old(author).Some? ==> r == Ok(old(author).value) && unchanged(this)
      ensures old(author).None? && session.None? ==> r == Err(TypeError(NoSessionMessage)) && unchanged(this)
      ensures old(author).None? && session.Some? ==>
        var page := session.value.site(DetailPageUrl(id));
        response == Some(page) && r == AuthorOf(page, session) &&
        author == (if r.Ok? then Some(r.value) else None)
      ensures old(response).Some? ==> response == old(response) && detailFetches == old(detailFetches)
    {
      if author.Some? {
        return Ok(author.value);
      }
      var init := InitializeDetails();
      if init.Err? {
        return Err(init.error);
      }
      r := AuthorOf(response.value, session);
      if r.Ok? {
        author := Some(r.value);
      }
    }

    /** `Work.tags`: built once from the detail page, one stripped tag per
        tag link in document order, then returned as kept. */
    method Tags() returns (r: Result<seq<Tag>>)
      requires Valid()
      modifies this`response, this`detailFetches, this`tags
      ensures Valid()
      ensures old(tags).Some? ==> r == Ok(old(tags).value) && unchanged(this)
      ensures old(tags).None? && session.None? ==> r == Err(TypeError(NoSessionMessage)) && unchanged(this)
      ensures old(tags).None? && session.Some? ==>
        var page := session.value.site(DetailPageUrl(id));
        response == Some(page) && tags == Some(TagsOf(page)) && r == Ok(TagsOf(page))
      ensures old(response).Some? ==> response == old(response) && detailFetches == old(detailFetches)
    {
      if tags.Some? {
        return Ok(tags.value);
      }
      var init := InitializeDetails();
      if init.Err? {
        return Err(init.error);
      }
      var texts := response.value.tagTexts;
      var built: seq<Tag> := [];
      var i := 0;
      while i < |texts|
        invariant 0 <= i <= |texts|
        invariant built == TagsOfTexts(texts[..i])
      {
        assert texts[..i + 1][..i] == texts[..i];
        built := built + [Tag(Strip(texts[i]))];
        i := i + 1;
      }
      assert texts[..i] == texts;
      tags := Some(built);
      return Ok(tags.value);
    }

    /** `Illust.original_illust_url`: only an Illust has it; read once
        from the first original-image element's `data-src`, then kept. */
    method OriginalIllustUrl() returns (r: Result<string>)
      requires Valid()
      modifies this`response, this`detailFetches, this`originalIllustUrl
      ensures Valid()
      ensures kind != Some(Illust) ==>
        r == Err(AttributeError("'" + ClassName(kind) + "' object has no attribute 'original_illust_url'")) &&
        unchanged(this)
      ensures kind == Some(Illust) && old(originalIllustUrl).Some? ==>
        r == Ok(old(originalIllustUrl).value) && unchanged(this)
      ensures kind == Some(Illust) && old(originalIllustUrl).None? && session.None? ==>
        r == Err(TypeError(NoSessionMessage)) && unchanged(this)
      ensures kind == Some(Illust) && old(originalIllustUrl).None? && session.Some? ==>
        var page := session.value.site(DetailPageUrl(id));
        response == Some(page) && r == OriginalUrlOf(page) &&
        originalIllustUrl == (if r.Ok? then Some(r.value) else None)
      ensures old(response).Some? ==> response == old(response) && detailFetches == old(detailFetches)
    {
      if kind != Some(Illust) {
        return Err(AttributeError("'" + ClassName(kind) + "' object has no attribute 'original_illust_url'"));
      }
      if originalIllustUrl.Some? {
        return Ok(originalIllustUrl.value);
      }
      var init := InitializeDetails();
      if init.Err? {
        return Err(init.error);
      }
      r := OriginalUrlOf(response.value);
      if r.Ok? {
        originalIllustUrl := Some(r.value);
      }
    }

    /** `Work.resolve_type`: fetch if needed, switch the instance to the
        class its page shows, and re-run `__init__` eagerly, which keeps the
        cached page (no second fetch) but resets `author` to None. */
    method ResolveType() returns (r: Result<Work>)
      requires Valid()
      modifies this`response, this`detailFetches, this`kind, this`author
      ensures Valid()
      ensures session.None? ==> r == Err(TypeError(NoSessionMessage)) && unchanged(this)
      ensures session.Some? ==>
        var page := session.value.site(DetailPageUrl(id));
        r == Ok(this) && response == Some(page) && kind == Some(Classify(page).value) && author.None?
      ensures old(response).Some? ==> response == old(response) && detailFetches == old(detailFetches)
    {
      var init := InitializeDetails();
      if init.Err? {
        return Err(init.error);
      }
      var workType := Classify(response.value);
      kind := Some(workType.value);
      // __init__(self.id, eager=True, pixiv_session=...): author defaults to
      // None, and the cached response means no fetch.
      author := None;
      return Ok(this);
    }
  }

  const SessionKeywordMessage := "Keyword argument 'pixiv_session' is needed to eagerly initialize this class."
  const DuplicateIdMessage := "pixiv.pixiv.Work() got multiple values for argument 'id'"
  const MissingIdMessage := "pixiv.pixiv.Work() missing 1 required positional argument: 'id'"

  /** How `pixiv_session` was passed to the constructor. */
  datatype SessionArgument = Omitted | Passed(value: Option<Pixiv>)

  /** The argument checks `Work.__new__` makes before an eager
      construction: a session keyword is required, and the ID must be given
      exactly once, positionally or by keyword. */
  function EagerWorkId(positionalId: Option<int>, keywordId: Option<int>, session: SessionArgument): (r: Result<int>)
    ensures r.Ok? <==> session.Passed? && positionalId.Some? != keywordId.Some?
    ensures r.Ok? ==> r.value == if positionalId.Some? then positionalId.value else keywordId.value
    ensures session.Omitted? ==>
      r == Err(TypeError(SessionKeywordMessage))
    ensures session.Passed? && positionalId.Some? && keywordId.Some? ==>
      r == Err(TypeError(DuplicateIdMessage))
    ensures session.Passed? && positionalId.None? && keywordId.None? ==>
      r == Err(TypeError(MissingIdMessage))
  {
    if session.Omitted? then
      Err(TypeError(SessionKeywordMessage))
    else if positionalId.Some? then
      if keywordId.Some? then Err(TypeError(DuplicateIdMessage))
      else Ok(positionalId.value)
    else if keywordId.Some? then Ok(keywordId.value)
    else Err(TypeError(MissingIdMessage))
  }

  /** The eager fetch as `Work.__new__` writes it: it hands
      `pixiv_session._session` (the HTTP session) to
      `_initialize_details_by_id`, which reads `._session` once more. It
      can never succeed. */
  function EagerFetchAsWritten(id: int, session: Option<Pixiv>): (r: Result<Html>)
    ensures r.Err?
  {
    if session.None? then Err(AttributeError(NoneSessionMessage))
    else DetailsById(id, HttpSessionOf(session.value))
  }

  /** The eager fetch as intended: through the client, as
      `_initialize_details` does it. */
  function EagerFetch(id: int, session: Option<Pixiv>): (r: Result<Html>)
    ensures r.Ok? <==> session.Some?
    ensures r.Ok? ==> r.value == session.value.site(DetailPageUrl(id))
  {
    if session.None? then Err(AttributeError(NoneSessionMessage))
    else DetailsById(id, PixivHolder(session.value))
  }

  /** With a client passed, eager construction as written raises where the
      intended fetch returns the detail page. */
  lemma EagerFetchDiscrepancy(id: int, client: Pixiv)
    ensures EagerFetchAsWritten(id, Some(client)) == Err(AttributeError(HttpSessionMessage))
    ensures EagerFetch(id, Some(client)) == Ok(client.site(DetailPageUrl(id)))
  {
  }

  /** `Work(id, eager=True, pixiv_session=...)`: check the arguments,
      fetch the detail page, classify it, and return an instance of the
      detected class that already holds the page (with the intended fetch). */
  method NewEagerWork(positionalId: Option<int>, keywordId: Option<int>, author: Option<Member>, session: SessionArgument)
    returns (r: Result<Work>)
    ensures EagerWorkId(positionalId, keywordId, session).Err? ==>
      r == Err(EagerWorkId(positionalId, keywordId, session).error)
    ensures EagerWorkId(positionalId, keywordId, session).Ok? ==> (r.Ok? <==> session.value.Some?)
    ensures r.Ok? ==>
      var id := EagerWorkId(positionalId, keywordId, session).value;
      var page := session.value.value.site(DetailPageUrl(id));
      fresh(r.value) && r.value.Valid() && r.value.id == id && r.value.session == session.value &&
      r.value.author == author && r.value.response == Some(page) && r.value.kind == Some(Classify(page).value) &&
      r.value.tags.None? && r.value.originalIllustUrl.None?
  {
    var id := EagerWorkId(positionalId, keywordId, session);
    if id.Err? {
      return Err(id.error);
    }
    var page := EagerFetch(id.value, session.value);
    if page.Err? {
      return Err(page.error);
    }
    var workType := Classify(page.value);
    var w := new Work(id.value, author, false, session.value, Some(workType.value));
    w.response := Some(page.value);
    w.detailFetches := 1;
    return Ok(w);
  }
}
