/**
  The host framework's per-request objects as the template engine sees
  them, and the two "virtual attribute" switches the adapter registers so
  that templates can read `request.uri` and the like on a `Request`, and
  `id` and the like on a `Session` object that reaches a template.
 */
module WebObjects {
  import opened Optional

  /** A value a template can see: a model entry, an attribute, or an accessor's result. */
  datatype Value =
    | Text(text: string)
    | Flag(flag: bool)
    | Date(millis: int)                       // a `java.util.Date` built from epoch milliseconds
    | Opaque(id: nat)                         // any other application object
    | Attributes(entries: map<string, Value>) // an attribute map such as `session.attributes()`
    | RequestObject(request: Request)
    | SessionObject(session: Session)

  /** The read-only view of a `Request` the adapter uses. */
  datatype Request = Request(
    uri: string,
    url: string,
    remoteAddress: string,
    protocol: string,
    httpMethod: string,
    keepAlive: bool,
    queryString: string,
    attributes: map<string, Value>,
    session: Option<Session>)

  /** The read-only view of a `Session` the adapter uses. */
  datatype Session = Session(
    id: string,
    ip: string,
    created: int,
    expired: int,
    attributes: map<string, Value>)

  const RequestAttributeNames: set<string> :=
    {"uri", "url", "remoteAddress", "protocol", "method", "keepAlive", "queryString"}
  const SessionAttributeNames: set<string> := {"id", "ip", "created", "expired"}

  /** The accessors exposed on a request, by the name a template uses. */
  function RequestFields(request: Request): (fields: map<string, Value>)
    ensures fields.Keys == RequestAttributeNames
  {
    map[
      "uri" := Text(request.uri),
      "url" := Text(request.url),
      "remoteAddress" := Text(request.remoteAddress),
      "protocol" := Text(request.protocol),
      "method" := Text(request.httpMethod),
      "keepAlive" := Flag(request.keepAlive),
      "queryString" := Text(request.queryString)]
  }

  /** The accessors exposed on a session; the two timestamps become dates. */
  function SessionFields(session: Session): (fields: map<string, Value>)
    ensures fields.Keys == SessionAttributeNames
  {
    map[
      "id" := Text(session.id),
      "ip" := Text(session.ip),
      "created" := Date(session.created),
      "expired" := Date(session.expired)]
  }

  /**
    The virtual-attribute switch registered for `Request`: a known name
    gives its accessor's value, any other name gives null (`None`).
   */
  function RequestAttribute(request: Request, name: string): (r: Option<Value>)
    ensures r.Some? <==> name in RequestAttributeNames
    ensures r.Some? ==> r.value == RequestFields(request)[name]
  {
    if name == "uri" then Some(Text(request.uri))
    else if name == "url" then Some(Text(request.url))
    else if name == "remoteAddress" then Some(Text(request.remoteAddress))
    else if name == "protocol" then Some(Text(request.protocol))
    else if name == "method" then Some(Text(request.httpMethod))
    else if name == "keepAlive" then Some(Flag(request.keepAlive))
    else if name == "queryString" then Some(Text(request.queryString))
    else None
  }

  /**
    The virtual-attribute switch registered for `Session`: `created` and
    `expired` are wrapped as dates, unknown names give null (`None`).
   */
  function SessionAttribute(session: Session, name: string): (r: Option<Value>)
    ensures r.Some? <==> name in SessionAttributeNames
    ensures r.Some? ==> r.value == SessionFields(session)[name]
  {
    if name == "id" then Some(Text(session.id))
    else if name == "ip" then Some(Text(session.ip))
    else if name == "created" then Some(Date(session.created))
    else if name == "expired" then Some(Date(session.expired))
    else None
  }

  /**
    Attribute lookup as the engine performs it through the registrations:
    by the class of the object, requests and sessions only.
   */
  function VirtualAttribute(obj: Value, name: string): (r: Option<Value>)
    ensures r.Some? ==> obj.RequestObject? || obj.SessionObject?
    ensures obj.RequestObject? ==> r == RequestAttribute(obj.request, name)
    ensures obj.SessionObject? ==> r == SessionAttribute(obj.session, name)
  {
    match obj
    case RequestObject(request) => RequestAttribute(request, name)
    case SessionObject(session) => SessionAttribute(session, name)
    case _ => None
  }

  /** A template reading `request.uri` on a request for `/ping` gets `/ping`; an unknown field is null. */
  lemma PingExample(request: Request)
    requires request.uri == "/ping"
    ensures VirtualAttribute(RequestObject(request), "uri") == Some(Text("/ping"))
    ensures VirtualAttribute(RequestObject(request), "body") == None
  {
  }
}
