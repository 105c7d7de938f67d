/**
 * The inbox edge function (supabase/functions/fetch-gmail/index.ts): it
 * finds the user's stored Gmail token, refreshes it when it has expired,
 * lists the inbox and fetches the first ten messages, turning each into an
 * email with its subject, sender and plain-text body. The Gmail and token
 * endpoints, the stored-token lookup, the clock and `atob` are parameters.
 */
module FetchGmail {
  import opened Wrappers
  import opened Records
  import opened Text
  import EdgeAuth

  const PLAIN_TEXT := "text/plain"
  const SUBJECT := "Subject"
  const FROM := "From"
  /** Only this many of the listed messages are fetched. */
  const FETCH_COUNT := 10
  const NO_TOKEN_MESSAGE := "No Gmail token found. Please connect your Gmail account."
  const NO_REFRESH_MESSAGE := "Token expired and no refresh token available"
  const LIST_FAILED_MESSAGE := "Failed to fetch Gmail messages"

  // ---------------------------------------------------------------------
  // Messages as the Gmail API returns them
  // ---------------------------------------------------------------------

  /** A MIME part; `data` is `body.data`, `None` when the body or its data is absent. */
  datatype Part = Part(mimeType: string, data: Option<string>)
  datatype Header = Header(name: string, value: string)
  datatype Payload = Payload(mimeType: string, headers: Option<seq<Header>>, data: Option<string>,
                             parts: Option<seq<Part>>)
  datatype GmailMessage = GmailMessage(id: string, snippet: string, payload: Option<Payload>)

  /**
   * `try { return atob(data) } catch { return data }`; `decode` is `atob`,
   * `None` where it throws.
   */
  function Decoded(data: string, decode: string -> Option<string>): (r: string)
    ensures decode(data).None? ==> r == data
    ensures decode(data).Some? ==> r == decode(data).value
  {
    match decode(data)
    case None => data
    case Some(text) => text
  }

  /** A part the body may be taken from: exactly `text/plain`, with non-empty data. */
  predicate IsPlainPart(p: Part)
  {
    p.mimeType == PLAIN_TEXT && Truthy(p.data)
  }

  /** The position of the first plain part. */
  function FirstPlainPart(parts: seq<Part>): (r: Option<nat>)
    ensures r.None? <==> forall k :: 0 <= k < |parts| ==> !IsPlainPart(parts[k])
    ensures r.Some? ==> r.value < |parts| && IsPlainPart(parts[r.value])
                        && forall k :: 0 <= k < r.value ==> !IsPlainPart(parts[k])
  {
    if parts == [] then None
    else if IsPlainPart(parts[0]) then Some(0)
    else match FirstPlainPart(parts[1..])
      case None => None
      case Some(k) => Some(k + 1)
  }

  /** What `extractEmailBody` returns. */
  function EmailBody(payload: Option<Payload>, decode: string -> Option<string>): string
  {
    if payload.None? then ""
    else if Truthy(payload.value.data) then Decoded(payload.value.data.value, decode)
    else if payload.value.parts.None? then ""
    else match FirstPlainPart(payload.value.parts.value)
      case None => ""
      case Some(k) => Decoded(payload.value.parts.value[k].data.value, decode)
  }

  /**
   * `extractEmailBody`: the top-level data if there is any, else the first
   * plain part's, scanning the parts in order and stopping at the first fit.
   */
  method ExtractEmailBody(payload: Option<Payload>, decode: string -> Option<string>) returns (body: string)
    ensures body == EmailBody(payload, decode)
  {
    if payload.None? {
      return "";
    }
    var p := payload.value;
    if Truthy(p.data) {
      return Decoded(p.data.value, decode);
    }
    if p.parts.Some? {
      var parts := p.parts.value;
      for i := 0 to |parts|
        invariant forall k :: 0 <= k < i ==> !IsPlainPart(parts[k])
      {
        if parts[i].mimeType == PLAIN_TEXT && Truthy(parts[i].data) {
          return Decoded(parts[i].data.value, decode);
        }
      }
    }
    return "";
  }

  /** A message without a payload has an empty body. */
  lemma NoPayloadNoBody(decode: string -> Option<string>)
    ensures EmailBody(None, decode) == ""
  {
  }

  /** Top-level data wins: the parts are then never looked at. */
  lemma TopLevelDataWins(p: Payload, otherParts: Option<seq<Part>>, decode: string -> Option<string>)
    requires Truthy(p.data)
    ensures EmailBody(Some(p), decode) == EmailBody(Some(p.(parts := otherParts)), decode)
    ensures EmailBody(Some(p), decode) == Decoded(p.data.value, decode)
  {
  }

  /**
   * Without top-level data the body is either empty, or the decoding of the
   * first plain part's data; no other part (an HTML one, a later plain one)
   * is ever used.
   */
  lemma BodyFromFirstPlainPart(p: Payload, decode: string -> Option<string>)
    requires !Truthy(p.data)
    ensures p.parts.None? ==> EmailBody(Some(p), decode) == ""
    ensures p.parts.Some? && (forall k :: 0 <= k < |p.parts.value| ==> !IsPlainPart(p.parts.value[k]))
            ==> EmailBody(Some(p), decode) == ""
    ensures p.parts.Some? && FirstPlainPart(p.parts.value).Some?
            ==> exists k :: 0 <= k < |p.parts.value|
                  && p.parts.value[k].mimeType == PLAIN_TEXT && Truthy(p.parts.value[k].data)
                  && (forall j :: 0 <= j < k ==> !IsPlainPart(p.parts.value[j]))
                  && EmailBody(Some(p), decode) == Decoded(p.parts.value[k].data.value, decode)
  {
    if p.parts.Some? && FirstPlainPart(p.parts.value).Some? {
      var k := FirstPlainPart(p.parts.value).value;
      assert EmailBody(Some(p), decode) == Decoded(p.parts.value[k].data.value, decode);
    }
  }

  /** Parts that cannot be used may be dropped without changing the body. */
  function PlainParts(parts: seq<Part>): (r: seq<Part>)
    ensures forall q :: q in r <==> q in parts && IsPlainPart(q)
  {
    if parts == [] then []
    else (if IsPlainPart(parts[0]) then [parts[0]] else []) + PlainParts(parts[1..])
  }

  lemma {:induction false} OnlyPlainPartsMatter(p: Payload, decode: string -> Option<string>)
    requires p.parts.Some?
    ensures EmailBody(Some(p), decode) == EmailBody(Some(p.(parts := Some(PlainParts(p.parts.value)))), decode)
  {
    FirstOfPlainParts(p.parts.value);
  }

  lemma {:induction false} FirstOfPlainParts(parts: seq<Part>)
    ensures FirstPlainPart(parts).None? <==> PlainParts(parts) == []
    ensures FirstPlainPart(parts).Some? ==> FirstPlainPart(PlainParts(parts)) == Some(0)
                                            && PlainParts(parts)[0] == parts[FirstPlainPart(parts).value]
  {
    if parts != [] && !IsPlainPart(parts[0]) {
      FirstOfPlainParts(parts[1..]);
    }
  }

  // ---------------------------------------------------------------------
  // Headers
  // ---------------------------------------------------------------------

  /** `headers.find((h) => h.name === name)`: the first header of exactly that name. */
  function FindHeader(headers: seq<Header>, name: string): (r: Option<nat>)
    ensures r.None? <==> forall k :: 0 <= k < |headers| ==> headers[k].name != name
    ensures r.Some? ==> r.value < |headers| && headers[r.value].name == name
                        && forall k :: 0 <= k < r.value ==> headers[k].name != name
  {
    if headers == [] then None
    else if headers[0].name == name then Some(0)
    else match FindHeader(headers[1..], name)
      case None => None
      case Some(k) => Some(k + 1)
  }

  /** `payload?.headers?.find(...)?.value || ""`. */
  function HeaderValue(payload: Option<Payload>, name: string): string
  {
    if payload.None? || payload.value.headers.None? then ""
    else match FindHeader(payload.value.headers.value, name)
      case None => ""
      case Some(k) => payload.value.headers.value[k].value
  }

  /**
   * The value of the first header named exactly `name` (the comparison is
   * case-sensitive, so `subject` is not `Subject`), and `""` when there is
   * none; later headers of the same name are ignored.
   */
  lemma HeaderValueSpec(p: Payload, name: string)
    requires p.headers.Some?
    ensures (forall k :: 0 <= k < |p.headers.value| ==> p.headers.value[k].name != name)
            ==> HeaderValue(Some(p), name) == ""
    ensures forall k :: 0 <= k < |p.headers.value| && p.headers.value[k].name == name
              && (forall j :: 0 <= j < k ==> p.headers.value[j].name != name)
              ==> HeaderValue(Some(p), name) == p.headers.value[k].value
  {
    var hs := p.headers.value;
    forall k | 0 <= k < |hs| && hs[k].name == name && (forall j :: 0 <= j < k ==> hs[j].name != name)
      ensures HeaderValue(Some(p), name) == hs[k].value
    {
      var r := FindHeader(hs, name);
      assert r.Some?;
      assert r.value == k;
    }
  }

  /** The email the handler builds from one fetched message. */
  function EmailOf(m: GmailMessage, decode: string -> Option<string>): (e: Email)
    ensures e.id == m.id && e.snippet == m.snippet
    ensures e.subject == HeaderValue(m.payload, SUBJECT) && e.from == HeaderValue(m.payload, FROM)
    ensures e.body == EmailBody(m.payload, decode)
  {
    Email(m.id, HeaderValue(m.payload, SUBJECT), HeaderValue(m.payload, FROM), m.snippet, EmailBody(m.payload, decode))
  }

  // ---------------------------------------------------------------------
  // The access token
  // ---------------------------------------------------------------------

  /**
   * A row of `gmail_tokens`. `expiresAt` is the instant `expires_at` names,
   * `None` when it is null, empty or not a date, which never counts as
   * expired; `refreshToken` is `None` when null.
   */
  datatype GmailToken = GmailToken(accessToken: string, refreshToken: Option<string>, expiresAt: Option<int>)

  predicate Expired(t: GmailToken, now: int)
  {
    t.expiresAt.Some? && t.expiresAt.value < now
  }

  /** The token the Gmail calls use; `refresh` is `refreshAccessToken`. */
  function AccessToken(t: GmailToken, now: int, refresh: string -> Result<string, Raised>): Result<string, Raised>
  {
    if !Expired(t, now) then Ok(t.accessToken)
    else if !Truthy(t.refreshToken) then Err(ErrorValue(NO_REFRESH_MESSAGE))
    else refresh(t.refreshToken.value)
  }

  /** `let accessToken = ...`, reassigned from a refresh only when the stored one has expired. */
  method ResolveAccessToken(t: GmailToken, now: int, refresh: string -> Result<string, Raised>)
    returns (r: Result<string, Raised>)
    ensures r == AccessToken(t, now, refresh)
  {
    var accessToken := t.accessToken;
    if t.expiresAt.Some? && t.expiresAt.value < now {
      if !Truthy(t.refreshToken) {
        return Err(ErrorValue(NO_REFRESH_MESSAGE));
      }
      var refreshed := refresh(t.refreshToken.value);
      if refreshed.Err? {
        return Err(refreshed.error);
      }
      accessToken := refreshed.value;
    }
    return Ok(accessToken);
  }

  /**
   * The stored token is used as is unless it has expired (strictly before
   * now); only then is the refresh endpoint consulted, and only with the
   * stored refresh token, whose absence is an error.
   */
  lemma AccessTokenDecision(t: GmailToken, now: int, refresh: string -> Result<string, Raised>,
                            other: string -> Result<string, Raised>)
    ensures !Expired(t, now) ==> AccessToken(t, now, refresh) == Ok(t.accessToken)
    ensures !Expired(t, now) ==> AccessToken(t, now, refresh) == AccessToken(t, now, other)
    ensures t.expiresAt == Some(now) ==> AccessToken(t, now, refresh) == Ok(t.accessToken)
    ensures Expired(t, now) && !Truthy(t.refreshToken) ==> AccessToken(t, now, refresh) == Err(ErrorValue(NO_REFRESH_MESSAGE))
    ensures Expired(t, now) && Truthy(t.refreshToken) ==> AccessToken(t, now, refresh) == refresh(t.refreshToken.value)
  {
  }

  // ---------------------------------------------------------------------
  // Listing and fetching
  // ---------------------------------------------------------------------

  /** The list call: not OK, a body whose `messages` ids may be absent, or a throw. */
  datatype ListReply = ListNotOk | Listed(messages: Option<seq<string>>) | ListThrew(error: Raised)

  /** One detail call: not OK (the `null` entry), a message, or a throw. */
  datatype DetailReply = DetailNotOk | Detail(message: GmailMessage) | DetailThrew(error: Raised)

  /** `messageList.messages || []`. */
  function MessageIds(messages: Option<seq<string>>): seq<string>
  {
    if messages.None? then [] else messages.value
  }

  /** `messages.slice(0, 10)`. */
  function Selected(ids: seq<string>): (r: seq<string>)
    ensures |r| <= FETCH_COUNT
    ensures r <= ids
    ensures |ids| <= FETCH_COUNT ==> r == ids
    ensures |ids| > FETCH_COUNT ==> |r| == FETCH_COUNT
  {
    if |ids| <= FETCH_COUNT then ids else ids[..FETCH_COUNT]
  }

  /** The replies of the detail calls, one per selected id, in order. */
  function Replies(ids: seq<string>, accessToken: string, fetchDetail: (string, string) -> DetailReply)
    : (r: seq<DetailReply>)
    ensures |r| == |ids|
    ensures forall k :: 0 <= k < |ids| ==> r[k] == fetchDetail(accessToken, ids[k])
  {
    seq(|ids|, k requires 0 <= k < |ids| => fetchDetail(accessToken, ids[k]))
  }

  /**
   * The error `Promise.all` rejects with: the first thrown reply in list
   * order.
   */
  function FirstThrown(replies: seq<DetailReply>): (r: Option<Raised>)
    ensures r.None? <==> forall k :: 0 <= k < |replies| ==> !replies[k].DetailThrew?
    ensures r.Some? ==> exists k :: 0 <= k < |replies| && replies[k] == DetailThrew(r.value)
                                    && forall j :: 0 <= j < k ==> !replies[j].DetailThrew?
  {
    if replies == [] then None
    else
      var init := replies[..|replies| - 1];
      var last := replies[|replies| - 1];
      assert forall j :: 0 <= j < |init| ==> init[j] == replies[j];
      match FirstThrown(init)
      case Some(e) => Some(e)
      case None => if last.DetailThrew? then Some(last.error) else None
  }

  /** A throw among the first replies decides the outcome, whatever follows. */
  lemma FirstThrownPrefix(replies: seq<DetailReply>, n: nat)
    requires n <= |replies| && FirstThrown(replies[..n]).Some?
    ensures FirstThrown(replies) == FirstThrown(replies[..n])
    decreases |replies| - n
  {
    if n < |replies| {
      var m := n + 1;
      assert replies[..m][..n] == replies[..n];
      FirstThrownPrefix(replies, m);
    }
  }

  /** `emailsWithContent.filter((e) => e !== null)`: the emails of the OK replies. */
  function Kept(replies: seq<DetailReply>, decode: string -> Option<string>): (r: seq<Email>)
    ensures |r| <= |replies|
  {
    if replies == [] then []
    else
      var last := replies[|replies| - 1];
      Kept(replies[..|replies| - 1], decode) + (if last.Detail? then [EmailOf(last.message, decode)] else [])
  }

  /** The positions of the OK replies, in increasing order. */
  function DetailIndices(replies: seq<DetailReply>): (r: seq<nat>)
    ensures forall a, b :: 0 <= a < b < |r| ==> r[a] < r[b]
    ensures forall a :: 0 <= a < |r| ==> r[a] < |replies|
    ensures forall k :: 0 <= k < |replies| ==> (replies[k].Detail? <==> k in r)
  {
    if replies == [] then []
    else
      var n := |replies| - 1;
      var init := replies[..n];
      assert forall j :: 0 <= j < n ==> init[j] == replies[j];
      DetailIndices(init) + (if replies[n].Detail? then [n] else [])
  }

  /**
   * The kept emails are exactly those of the OK replies, in list order:
   * the k-th kept email is built from the k-th OK reply.
   */
  lemma {:induction false} KeptInOrder(replies: seq<DetailReply>, decode: string -> Option<string>)
    ensures |Kept(replies, decode)| == |DetailIndices(replies)|
    ensures forall k :: 0 <= k < |DetailIndices(replies)| ==>
              Kept(replies, decode)[k] == EmailOf(replies[DetailIndices(replies)[k]].message, decode)
  {
    if replies != [] {
      var n := |replies| - 1;
      var init := replies[..n];
      var last := replies[n];
      KeptInOrder(init, decode);
      var kept, at := Kept(replies, decode), DetailIndices(replies);
      var before, idx := Kept(init, decode), DetailIndices(init);
      assert kept == before + (if last.Detail? then [EmailOf(last.message, decode)] else []);
      assert at == idx + (if last.Detail? then [n] else []);
      forall k | 0 <= k < |at| ensures kept[k] == EmailOf(replies[at[k]].message, decode) {
        if k < |idx| {
          assert kept[k] == before[k] && at[k] == idx[k];
          assert init[idx[k]] == replies[idx[k]];
        } else {
          assert kept[k] == EmailOf(last.message, decode) && at[k] == n;
        }
      }
    }
  }

  /** Fetching the selected messages: the first throw, or the emails of the OK replies. */
  function FetchEmails(ids: seq<string>, accessToken: string, fetchDetail: (string, string) -> DetailReply,
                       decode: string -> Option<string>): Result<seq<Email>, Raised>
  {
    var replies := Replies(Selected(ids), accessToken, fetchDetail);
    match FirstThrown(replies)
    case Some(e) => Err(e)
    case None => Ok(Kept(replies, decode))
  }

  /**
   * At most ten messages are fetched, each from one of the first ten ids,
   * in list order, and a not-OK detail reply drops exactly that message.
   */
  lemma FetchEmailsSpec(ids: seq<string>, accessToken: string, fetchDetail: (string, string) -> DetailReply,
                        decode: string -> Option<string>)
    ensures FetchEmails(ids, accessToken, fetchDetail, decode).Ok? ==>
              |FetchEmails(ids, accessToken, fetchDetail, decode).value| <= FETCH_COUNT
    ensures FetchEmails(ids, accessToken, fetchDetail, decode).Ok?
        <==> forall k :: 0 <= k < |Selected(ids)| ==> !fetchDetail(accessToken, Selected(ids)[k]).DetailThrew?
    ensures FetchEmails(ids, accessToken, fetchDetail, decode).Ok? ==>
              var idx := DetailIndices(Replies(Selected(ids), accessToken, fetchDetail));
              && |FetchEmails(ids, accessToken, fetchDetail, decode).value| == |idx|
              && (forall k :: 0 <= k < |idx| ==> idx[k] < |Selected(ids)| && idx[k] < |ids|)
              && (forall k :: 0 <= k < |idx| ==>
                    FetchEmails(ids, accessToken, fetchDetail, decode).value[k]
                    == EmailOf(fetchDetail(accessToken, ids[idx[k]]).message, decode))
  {
    var replies := Replies(Selected(ids), accessToken, fetchDetail);
    KeptInOrder(replies, decode);
    assert forall k :: 0 <= k < |Selected(ids)| ==> Selected(ids)[k] == ids[k];
  }

  /** No `messages` field in the list reply means no email at all. */
  lemma NoMessagesNoEmails(accessToken: string, fetchDetail: (string, string) -> DetailReply,
                           decode: string -> Option<string>)
    ensures FetchEmails(MessageIds(None), accessToken, fetchDetail, decode) == Ok([])
  {
  }

  /** The `Promise.all` over the first ten ids followed by the null filter. */
  method FetchMessages(ids: seq<string>, accessToken: string, fetchDetail: (string, string) -> DetailReply,
                       decode: string -> Option<string>) returns (r: Result<seq<Email>, Raised>)
    ensures r == FetchEmails(ids, accessToken, fetchDetail, decode)
  {
    var selected := Selected(ids);
    ghost var replies := Replies(selected, accessToken, fetchDetail);
    var valid: seq<Email> := [];
    for i := 0 to |selected|
      invariant FirstThrown(replies[..i]).None?
      invariant valid == Kept(replies[..i], decode)
    {
      var reply := fetchDetail(accessToken, selected[i]);
      assert replies[..i + 1][..i] == replies[..i];
      assert replies[..i + 1][i] == reply;
      if reply.DetailThrew? {
        FirstThrownPrefix(replies, i + 1);
        return Err(reply.error);
      }
      if reply.Detail? {
        var body := ExtractEmailBody(reply.message.payload, decode);
        var m := reply.message;
        valid := valid + [Email(m.id, HeaderValue(m.payload, SUBJECT), HeaderValue(m.payload, FROM), m.snippet, body)];
      }
    }
    assert replies[..|selected|] == replies;
    return Ok(valid);
  }

  // ---------------------------------------------------------------------
  // The handler
  // ---------------------------------------------------------------------

  datatype FetchRequest = FetchRequest(httpMethod: string, authorization: Option<string>)

  /** The CORS preflight answer, the JSON array of emails, or `{ error }` with status 400. */
  datatype FetchResponse = FetchPreflight | Emails(emails: seq<Email>) | FetchRejected(message: string)

  /** A request past the preflight whose user is authenticated and has the stored token `t`. */
  predicate HasToken(req: FetchRequest, getUser: string -> Option<string>,
                     tokenRow: string -> Option<GmailToken>, t: GmailToken)
  {
    && req.httpMethod != "OPTIONS"
    && EdgeAuth.Authenticate(req.authorization, getUser).Ok?
    && tokenRow(EdgeAuth.Authenticate(req.authorization, getUser).value) == Some(t)
  }

  /**
   * The whole handler. `tokenRow` is the `gmail_tokens` lookup for a user
   * (`None` for an error or no row), `list` the inbox list call for an
   * access token, `fetchDetail` the message call for an access token and a
   * message id.
   */
  function FetchOutcome(req: FetchRequest, getUser: string -> Option<string>,
                        tokenRow: string -> Option<GmailToken>, now: int,
                        refresh: string -> Result<string, Raised>, list: string -> ListReply,
                        fetchDetail: (string, string) -> DetailReply, decode: string -> Option<string>)
    : (r: FetchResponse)
    ensures req.httpMethod == "OPTIONS" <==> r.FetchPreflight?
    ensures r.Emails? ==> |r.emails| <= FETCH_COUNT
    ensures r.Emails? ==> && EdgeAuth.Authenticate(req.authorization, getUser).Ok?
                          && tokenRow(EdgeAuth.Authenticate(req.authorization, getUser).value).Some?
    ensures req.httpMethod != "OPTIONS" && EdgeAuth.Authenticate(req.authorization, getUser).Ok?
            && tokenRow(EdgeAuth.Authenticate(req.authorization, getUser).value).None?
            ==> r == FetchRejected(NO_TOKEN_MESSAGE)
    ensures req.httpMethod != "OPTIONS" && EdgeAuth.Authenticate(req.authorization, getUser).Err?
            ==> r == FetchRejected(MessageOr(EdgeAuth.Authenticate(req.authorization, getUser).error,
                                             EdgeAuth.UNKNOWN_ERROR_MESSAGE))
    ensures forall t :: HasToken(req, getUser, tokenRow, t) && AccessToken(t, now, refresh).Err?
              ==> r == FetchRejected(MessageOr(AccessToken(t, now, refresh).error, EdgeAuth.UNKNOWN_ERROR_MESSAGE))
    ensures forall t, a :: HasToken(req, getUser, tokenRow, t) && AccessToken(t, now, refresh) == Ok(a)
              ==> (list(a) == ListNotOk ==> r == FetchRejected(LIST_FAILED_MESSAGE))
                  && (list(a).ListThrew? ==> r == FetchRejected(MessageOr(list(a).error, EdgeAuth.UNKNOWN_ERROR_MESSAGE)))
                  && (list(a).Listed? ==>
                        r == match FetchEmails(MessageIds(list(a).messages), a, fetchDetail, decode)
                             case Ok(es) => Emails(es)
                             case Err(e) => FetchRejected(MessageOr(e, EdgeAuth.UNKNOWN_ERROR_MESSAGE)))
  {
    if req.httpMethod == "OPTIONS" then FetchPreflight
    else
      match EdgeAuth.Authenticate(req.authorization, getUser)
      case Err(e) => FetchRejected(MessageOr(e, EdgeAuth.UNKNOWN_ERROR_MESSAGE))
      case Ok(user) =>
        match tokenRow(user)
        case None => FetchRejected(NO_TOKEN_MESSAGE)
        case Some(t) =>
          match AccessToken(t, now, refresh)
          case Err(e) => FetchRejected(MessageOr(e, EdgeAuth.UNKNOWN_ERROR_MESSAGE))
          case Ok(access) =>
            match list(access)
            case ListNotOk => FetchRejected(LIST_FAILED_MESSAGE)
            case ListThrew(e) => FetchRejected(MessageOr(e, EdgeAuth.UNKNOWN_ERROR_MESSAGE))
            case Listed(ms) =>
              match FetchEmails(MessageIds(ms), access, fetchDetail, decode)
              case Err(e) => FetchRejected(MessageOr(e, EdgeAuth.UNKNOWN_ERROR_MESSAGE))
              case Ok(es) => Emails(es)
  }

  /** The Deno.serve handler of the inbox function. */
  method HandleFetch(req: FetchRequest, getUser: string -> Option<string>,
                     tokenRow: string -> Option<GmailToken>, now: int,
                     refresh: string -> Result<string, Raised>, list: string -> ListReply,
                     fetchDetail: (string, string) -> DetailReply, decode: string -> Option<string>)
    returns (resp: FetchResponse)
    ensures resp == FetchOutcome(req, getUser, tokenRow, now, refresh, list, fetchDetail, decode)
  {
    if req.httpMethod == "OPTIONS" {
      return FetchPreflight;
    }
    var auth := EdgeAuth.Authenticate(req.authorization, getUser);
    if auth.Err? {
      return FetchRejected(MessageOr(auth.error, EdgeAuth.UNKNOWN_ERROR_MESSAGE));
    }
    var row := tokenRow(auth.value);
    if row.None? {
      return FetchRejected(NO_TOKEN_MESSAGE);
    }
    var access := ResolveAccessToken(row.value, now, refresh);
    if access.Err? {
      return FetchRejected(MessageOr(access.error, EdgeAuth.UNKNOWN_ERROR_MESSAGE));
    }
    var listed := list(access.value);
    if listed.ListNotOk? {
      return FetchRejected(LIST_FAILED_MESSAGE);
    }
    if listed.ListThrew? {
      return FetchRejected(MessageOr(listed.error, EdgeAuth.UNKNOWN_ERROR_MESSAGE));
    }
    var emails := FetchMessages(MessageIds(listed.messages), access.value, fetchDetail, decode);
    if emails.Err? {
      return FetchRejected(MessageOr(emails.error, EdgeAuth.UNKNOWN_ERROR_MESSAGE));
    }
    return Emails(emails.value);
  }
}
