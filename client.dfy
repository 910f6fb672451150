/** The `Pixiv` client (`pixiv/pixiv.py`, class `Pixiv`) and the `Member`
    entity with its listing URLs. */
module Client {
  import opened Py
  import opened Text
  import opened Web

  const DefaultUserAgent :=
    "Mozilla/5.0 (Windows NT 6.3; WOW64)AppleWebKit/537.36 (KHTML, like Gecko) Chrome/35.0.1916.153 Safari/537.36"

  const HeadersMessage := "Additional headers must be given in dict."
  const MissingMemberIdMessage := "You have to provide the id of the member to retrieve their information."
  const MemberIdTypeMessage := "Member id must be given in integer form."

  /** A client after construction: the headers its HTTP session sends on
      every request, and the site it talks to. */
  datatype Pixiv = Pixiv(headers: map<string, string>, site: Site)

  /** What constructing a client produces: the client or the raised error,
      and the requests sent while constructing it. */
  datatype Construction = Construction(client: Result<Pixiv>, sent: seq<Request>)

  /** The headers the constructor puts on the session before anything else. */
  function SessionHeaders(userAgent: string): map<string, string> {
    map["User-Agent" := userAgent, "DNT" := "1"]
  }

  /** `Pixiv.login`: load the home page, then post the login form. Neither
      response is looked at. */
  function LoginRequests(id: string, password: string): seq<Request> {
    [ Get(MainPage, map[]),
      Post(LoginPage,
           map["mode" := "login", "return_to" := "/", "pixiv_id" := id, "pass" := password, "skip" := "1"],
           map["Referer" := MainPage]) ]
  }

  /** `Pixiv(id, password, user_agent=..., headers=...)`. The user agent
      defaults to `DefaultUserAgent`. Extra headers must be a dict (they
      override the session's own); anything else but None raises before
      the login requests are sent. */
  function NewPixiv(id: string, password: string, userAgent: Option<string>, headers: Value, site: Site): (c: Construction)
    ensures c.client.Err? <==> !headers.NoneValue? && !headers.DictValue?
    ensures c.client.Err? ==> c.sent == [] && c.client.error == TypeError(HeadersMessage)
    ensures c.client.Ok? ==> c.sent == LoginRequests(id, password) && c.client.value.site == site
    ensures c.client.Ok? ==>
      var base := SessionHeaders(if userAgent.None? then DefaultUserAgent else userAgent.value);
      (forall k :: k in c.client.value.headers <==> k in base || (headers.DictValue? && k in headers.entries)) &&
      (headers.DictValue? ==> forall k :: k in headers.entries ==> c.client.value.headers[k] == headers.entries[k]) &&
      (forall k :: k in base && !(headers.DictValue? && k in headers.entries) ==> c.client.value.headers[k] == base[k])
  {
    var base := SessionHeaders(if userAgent.None? then DefaultUserAgent else userAgent.value);
    match headers
    case NoneValue => Construction(Ok(Pixiv(base, site)), LoginRequests(id, password))
    case DictValue(extra) => Construction(Ok(Pixiv(base + extra, site)), LoginRequests(id, password))
    case _ => Construction(Err(TypeError(HeadersMessage)), [])
  }

  /** A member account: its numeric ID and the client it was obtained from. */
  datatype Member = Member(id: int, session: Option<Pixiv>) {

    /** `Member.list_page_url(page_num, type)`: the URL of one page of the
        member's listing. The first page has a short form; later pages
        always carry the type, which defaults to `all`. */
    function ListPageUrl(pageNum: Option<int>, workType: Option<string>): (url: string)
      ensures StartsWith(url, ListPage)
      ensures (pageNum.None? || pageNum == Some(1)) && (workType.None? || workType == Some("all")) ==>
        url == ListPage + "id=" + IntToString(id)
      ensures (pageNum.None? || pageNum == Some(1)) && workType.Some? && workType != Some("all") ==>
        url == ListPage + "type=" + workType.value + "&id=" + IntToString(id)
      ensures pageNum.Some? && pageNum != Some(1) ==>
        url == ListPage + "id=" + IntToString(id) + "&type=" +
               (if workType.None? then "all" else workType.value) + "&p=" + IntToString(pageNum.value)
    {
      var t := if workType.None? then "all" else workType.value;
      var p := if pageNum.None? then 1 else pageNum.value;
      if p == 1 then
        if t == "all" then ListPage + "id=" + IntToString(id)
        else ListPage + "type=" + t + "&id=" + IntToString(id)
      else ListPage + "id=" + IntToString(id) + "&type=" + t + "&p=" + IntToString(p)
    }
  }

  /** Different pages of one member's listing have different URLs, so the
      listing never requests a page twice. */
  lemma ListPageUrlsDistinct(m: Member, p: int, q: int)
    requires p >= 1 && q >= 1 && p != q
    ensures m.ListPageUrl(Some(p), None) != m.ListPageUrl(Some(q), None)
  {
    var head := ListPage + "id=" + IntToString(m.id);
    var later := head + "&type=" + "all" + "&p=";
    if p != 1 && q != 1 {
      if m.ListPageUrl(Some(p), None) == m.ListPageUrl(Some(q), None) {
        var u, v := later + IntToString(p), later + IntToString(q);
        assert u == m.ListPageUrl(Some(p), None);
        assert v == m.ListPageUrl(Some(q), None);
        assert IntToString(p) == u[|later|..] == v[|later|..] == IntToString(q);
        IntToStringInjective(p, q);
      }
    } else if p == 1 {
      assert |m.ListPageUrl(Some(p), None)| == |head| < |m.ListPageUrl(Some(q), None)|;
    } else {
      assert |m.ListPageUrl(Some(q), None)| == |head| < |m.ListPageUrl(Some(p), None)|;
    }
  }

  /** `Pixiv.member(id)`: the ID must be given and must be an int. */
  function MemberOf(client: Pixiv, id: Value): (r: Result<Member>)
    ensures r.Ok? <==> id.IntValue?
    ensures r.Ok? ==> r.value.id == id.i && r.value.session == Some(client)
    ensures id.NoneValue? ==>
      r == Err(TypeError(MissingMemberIdMessage))
    ensures !id.NoneValue? && !id.IntValue? ==> r == Err(TypeError(MemberIdTypeMessage))
  {
    match id
    case NoneValue =>
      Err(TypeError(MissingMemberIdMessage))
    case IntValue(i) => Ok(Member(i, Some(client)))
    case _ => Err(TypeError(MemberIdTypeMessage))
  }
}
