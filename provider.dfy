/**
 * The Gmail client as the model sees it. Every call the application makes on a
 * service object becomes a lookup in data given to the model: what
 * `messages().list(...)` answers for each of the four queries it makes, and what
 * `messages().get(id=...)` answers for each identifier, or `None` when that call
 * raises (message gone, network or quota failure).
 */
module Provider {
  import opened Util

  /** One entry of a message's `payload.headers` list. */
  datatype Header = Header(name: string, value: string)

  /** A message as `messages().get` returns it: its headers and its snippet. */
  datatype Message = Message(headers: seq<Header>, snippet: string)

  /** One element of the `messages` list of a `messages().list` response. */
  datatype MessageRef = MessageRef(id: string)

  /** The four `messages().list` calls the application makes; `userId` is always 'me'. */
  datatype ListRequest =
    | RecentRequest     // maxResults=10, by the fetcher
    | TotalRequest      // no parameters, by the dashboard
    | UnreadRequest     // q='is:unread', by the dashboard
    | ImportantRequest  // maxResults=5, by the dashboard

  /** A `messages().list` response; either key may be missing from it. */
  datatype ListResponse = ListResponse(messages: Option<seq<MessageRef>>, resultSizeEstimate: Option<int>)

  /**
   * What one authorised client's calls return: the response to each of the four
   * list calls, and the message `get` returns for each id; `get` raises for an
   * id missing from `store`.
   */
  datatype Service = Service(
    recent: ListResponse,
    total: ListResponse,
    unread: ListResponse,
    important: ListResponse,
    store: map<string, Message>)
  {
    /** `messages().list(userId='me', ...)` */
    function List(r: ListRequest): ListResponse
    {
      match r
      case RecentRequest => recent
      case TotalRequest => total
      case UnreadRequest => unread
      case ImportantRequest => important
    }

    /** `messages().get(userId='me', id=id)`, or None when the call raises. */
    function Get(id: string): Option<Message>
    {
      if id in store then Some(store[id]) else None
    }
  }

  /** The client handle the registry stores for an account (built from its credentials). */
  datatype Handle = Handle(credentials: string)

  /** The remote mailboxes at the moment of an operation: each handle's answers. */
  type Mailboxes = Handle -> Service

  /** The fetcher asks for the ten most recent messages, the dashboard for five. */
  const FetchLimit: nat := 10
  const ImportantLimit: nat := 5

  /** The `maxResults` parameter of each request, if it has one. */
  function MaxResults(r: ListRequest): Option<nat>
  {
    match r
    case RecentRequest => Some(FetchLimit)
    case ImportantRequest => Some(ImportantLimit)
    case _ => None
  }

  /** `results.get('messages', [])` */
  function Refs(r: ListResponse): seq<MessageRef>
  {
    if r.messages.Some? then r.messages.value else []
  }

  /** `results.get('resultSizeEstimate', 0)` */
  function Estimate(r: ListResponse): int
  {
    if r.resultSizeEstimate.Some? then r.resultSizeEstimate.value else 0
  }

  /** The service never lists more messages than a request's maxResults asks for. */
  ghost predicate HonoursMaxResults(svc: Service)
  {
    forall r: ListRequest | MaxResults(r).Some? :: |Refs(svc.List(r))| <= MaxResults(r).value
  }

  /**
   * The messages that a loop `for m in refs: get(m['id'])` retrieves before the
   * first call that raises: the longest prefix of refs whose every get succeeds.
   */
  function Fetched(svc: Service, refs: seq<MessageRef>): seq<Message>
  {
    if refs == [] then []
    else match svc.Get(refs[0].id)
      case None => []
      case Some(m) => [m] + Fetched(svc, refs[1..])
  }

  /**
   * What the loop retrieves: one message per reference, in order, each the
   * answer of its get; it stops early exactly at the first get that raises.
   */
  lemma {:induction false} FetchedSpec(svc: Service, refs: seq<MessageRef>)
    ensures var got := Fetched(svc, refs);
      && |got| <= |refs|
      && (forall i | 0 <= i < |got| :: svc.Get(refs[i].id) == Some(got[i]))
      && (|got| < |refs| ==> svc.Get(refs[|got|].id) == None)
      && (|got| == |refs| <==> forall i | 0 <= i < |refs| :: svc.Get(refs[i].id).Some?)
  {
    if refs != [] && svc.Get(refs[0].id).Some? {
      FetchedSpec(svc, refs[1..]);
      var got := Fetched(svc, refs);
      assert forall i | 1 <= i < |refs| :: refs[1..][i - 1] == refs[i];
      assert forall i | 1 <= i < |got| :: got[i] == Fetched(svc, refs[1..])[i - 1];
    }
  }
}
