/** The client protocol engine of `Base`: the state the object keeps, the stanzas it writes,
    the events it triggers, and the handlers `response`, `authenticate` and `query` that
    react to what the server sends.

    The socket becomes two queues. `send` appends the trimmed text to `outbox`; `wait`
    takes the next text the server delivers from `inbox` and parses it. Every handler that
    ends with `$this->response($this->wait())` therefore consumes one inbox entry before it
    recurses, and a handler that dispatches a tree it already holds recurses into a strict
    part of that tree: `(|inbox|, tree)` decreases along every chain of calls. An exception
    ends the whole chain; the state it leaves is the state at the point it was raised. */
module Protocol {

  import opened Wrappers
  import opened Php
  import opened OrderedMap
  import opened XmlTree
  import opened Sasl
  import opened Stanzas

  /** The AUTH_* constants. */
  datatype Negotiation = Noop | Started | Challenge | Failure | Proceed | Success

  /** The exceptions the engine raises. `TypeError` stands for what PHP 8 throws where the
      code counts or decodes a value of the wrong type: `sizeof(null)` on missing features,
      `base64_decode` of an element body, and reading the metadata of a closed connection. */
  datatype Error =
    | NoFeatures | NotConnected | NoJid | NoAuthMethod | NoSasl | ServerFailed
    | UndefinedConstant | TypeError

  /** The events `trigger` announces, with their arguments. */
  datatype Event =
    | Connected | Disconnected | Sent(xml: string) | Received(data: string)
    | LoggedIn | SessionStarted | Registered | Unregistered
    | Roster(roster: Table<Option<string>>)
    | Subscribe(ask: string, jid: Option<string>)
    | Message(from: Option<string>, body: Option<string>, subject: Option<string>, thread: Option<string>,
              fishing: bool)
    | AuthFailure

  /** What the code asks of its environment: whether the OpenSSL extension and the TLS stream
      functions exist, whether the TLS handshake succeeds, the crypto primitives, the XML
      tokenizer, and the random text the cnonce is hashed from. */
  datatype Env = Env(sslAvailable: bool, tlsAvailable: bool, tlsHandshake: bool, crypto: Crypto,
                     tokenize: string -> seq<Token>, cnonceSeed: string)

  /** The fields the constructor fixes. */
  datatype Config = Config(host: string, port: int, user: string, pass: string, domain: string,
                           ssl: bool, tls: bool, env: Env)

  /** The constructor: the host is the domain unless the user name is `user@domain`, and the
      standard port moves to 5223 when SSL is on. */
  function Configure(host: string, port: int, user: string, pass: string, ssl: bool, tls: bool, env: Env): (c: Config)
    ensures c.host == host && c.pass == pass
    ensures c.ssl == (ssl && env.sslAvailable) && c.tls == (tls && env.tlsAvailable)
    ensures '@' !in user ==> c.user == user && c.domain == host
    ensures port == 5222 && c.ssl ==> c.port == 5223
    ensures !(port == 5222 && c.ssl) ==> c.port == port
    ensures c.ssl ==> c.port != 5222
  {
    var ssl' := ssl && env.sslAvailable;
    var tls' := tls && env.tlsAvailable;
    var parts := Split(user, '@');
    var user' := if '@' in user then parts[0] else user;
    var domain := if '@' in user && |parts| > 1 then parts[1] else host;
    var port' := if port == 5222 && ssl' then 5223 else port;
    Config(host, port', user', pass, domain, ssl', tls', env)
  }

  /** The object's mutable fields, with the socket as two queues. `presence` is left out: no
      code path ever sets it. */
  datatype State = State(negotiation: Negotiation, connected: bool, jabberId: Option<string>,
                         streamId: Option<string>, session: bool, resource: Option<string>,
                         outbox: seq<string>, events: seq<Event>, inbox: seq<string>)

  /** A fresh object; `inbox` is everything the server will deliver. */
  function Initial(inbox: seq<string>): State {
    State(Noop, false, None, None, false, None, [], [], inbox)
  }

  /** The outcome of an operation: the final state, and the exception it raised, if any. */
  datatype Run = Run(state: State, error: Option<Error>)

  /** What every handler keeps: texts sent stay sent, events announced stay announced, and a
      handler that ends without an exception leaves an open connection open. */
  predicate Keeps(s: State, r: State, failed: bool) {
    s.outbox <= r.outbox && s.events <= r.events && (s.connected && !failed ==> r.connected)
  }

  /** Keeping is transitive: a step that keeps the connection open, then any step. */
  lemma KeepsTrans(s: State, m: State, r: State, failed: bool)
    requires Keeps(s, m, false) && Keeps(m, r, failed)
    ensures Keeps(s, r, failed)
  {
    assert r.outbox[..|s.outbox|] == m.outbox[..|m.outbox|][..|s.outbox|];
    assert r.events[..|s.events|] == m.events[..|m.events|][..|s.events|];
  }

  function Log(s: State, e: Event): (r: State)
    ensures r.events == s.events + [e]
    ensures Keeps(s, r, false)
  {
    s.(events := s.events + [e])
  }

  /** `send` on an open connection: trim, announce, write. */
  function Emit(s: State, xml: string): (r: State)
    ensures r.outbox == s.outbox + [TrimSpace(xml)] && r.events == s.events + [Sent(TrimSpace(xml))]
    ensures r.(outbox := s.outbox, events := s.events) == s
    ensures Keeps(s, r, false)
  {
    var x := TrimSpace(xml);
    s.(outbox := s.outbox + [x], events := s.events + [Sent(x)])
  }

  /** `send`: refused without a connection. */
  function Send(s: State, xml: string): (r: Run)
    ensures r.error.Some? <==> !s.connected
    ensures r.error.Some? ==> r.state == s && r.error == Some(NotConnected)
    ensures r.error.None? ==> r.state == Emit(s, xml)
    ensures Keeps(s, r.state, r.error.Some?)
  {
    if !s.connected then Run(s, Some(NotConnected)) else Run(Emit(s, xml), None)
  }

  /** The text `wait` hands back, or `null`, and the state after reading. */
  datatype Reading = Reading(state: State, tree: Option<Tree>, error: Option<Error>)

  /** `wait`: refused without a connection; otherwise the next delivery is consumed. Nothing
      delivered (an empty queue or an empty text) gives `null`; a text is announced and parsed. */
  function Wait(c: Config, s: State): (r: Reading)
    ensures r.error.Some? <==> !s.connected
    ensures r.error.Some? ==> r == Reading(s, None, Some(NotConnected))
    ensures s.connected && |s.inbox| > 0 ==> r.state.inbox == s.inbox[1..]
    ensures s.connected && |s.inbox| == 0 ==> r == Reading(s, None, None)
    ensures r.tree.Some? ==> |s.inbox| > 0 && s.inbox[0] != "" && r.tree == Parsed(s.inbox[0], c.env.tokenize)
    ensures s.connected && |s.inbox| > 0 && s.inbox[0] != "" ==>
              r.tree == Parsed(s.inbox[0], c.env.tokenize) && r.state.events == s.events + [Received(s.inbox[0])]
    ensures s.connected && |s.inbox| > 0 && s.inbox[0] == "" ==> r.tree.None? && r.state.events == s.events
    ensures r.state.(inbox := s.inbox, events := s.events) == s
    ensures Keeps(s, r.state, false)
  {
    if !s.connected then Reading(s, None, Some(NotConnected))
    else if |s.inbox| == 0 then Reading(s, None, None)
    else
      var data := s.inbox[0];
      var s' := s.(inbox := s.inbox[1..]);
      if data == "" then Reading(s', None, None)
      else Reading(Log(s', Received(data)), Parsed(data, c.env.tokenize), None)
  }

  /** `disconnect`: close the stream and forget the connection; nothing without one. */
  function Disconnect(s: State): (r: State)
    ensures !r.connected
    ensures !s.connected ==> r == s
    ensures s.connected ==> r.outbox == s.outbox + [TrimSpace(StreamClose)] &&
                            r.events == s.events + [Sent(TrimSpace(StreamClose)), Disconnected]
    ensures r.(connected := s.connected, outbox := s.outbox, events := s.events) == s
    ensures Keeps(s, r, true)
  {
    if !s.connected then s else Log(Emit(s, StreamClose).(connected := false), Disconnected)
  }

  // The texts the client writes.

  // The namespaces they use.
  const TlsNamespace: string := "urn:ietf:params:" + "xml:ns:" + "xmpp-tls"
  const BindNamespace: string := "urn:ietf:params:" + "xml:ns:" + "xmpp-bind"
  const SessionNamespace: string := "urn:ietf:params:" + "xml:ns:" + "xmpp-session"
  const XmlNamespace: string := "http://" + "www.w3.org/" + "XML/1998/" + "namespace"
  const StreamsNamespace: string := "http://" + "etherx." + "jabber.org/" + "streams"
  const RegisterNamespace: string := "jabber:iq:" + "register"
  const RosterNamespace: string := "jabber:iq:" + "roster"

  const XmlHeader: string := "<?xml version=" + "'1.0' " + "encoding='UTF-8'" + " ?>\n"
  const StreamClose: string := "</stream:stream>"
  const StartTls: string := "<starttls " + "xmlns='" + TlsNamespace + "'/>\n"
  const AuthDigest: string := "<auth xmlns='" + SaslNamespace + "' mechanism=" + "'DIGEST-MD5'" + "/>"
  const AuthAnonymous: string := "<auth xmlns='" + SaslNamespace + "' mechanism=" + "'ANONYMOUS'" + "/>"

  /** The header `connect` opens the stream with. */
  function StreamOpen(host: string): string {
    "<stream:stream " + "to='" + host + "' " + "xmlns='jabber:" + "client' " + "xml:lang='en' " +
    "xmlns:xml='" + XmlNamespace + "' " +
    "xmlns:stream='" + StreamsNamespace + "' " + "version='1.0'>\n"
  }

  /** The shorter header that restarts the stream after TLS and after authentication. */
  function StreamRestart(host: string): string {
    "<stream:stream " + "to='" + host + "' " + "xmlns='jabber:" + "client' " +
    "xmlns:stream='" + StreamsNamespace + "' " + "version='1.0'>\n"
  }

  function BindRequest(resource: Option<string>): string {
    "<iq type='set' " + "id='bind_1'>" + "<bind xmlns='" + BindNamespace + "'>" +
    "<resource>" + EscapeHtml(resource.GetOr("")) + "</resource>" + "</bind></iq>"
  }

  function SessionRequest(host: string): string {
    "<iq to='" + host + "' type='set'" + " id='sess_1'>" + "\n" + "            " + "            " +
    "<session xmlns='" + SessionNamespace + "'/></iq>"
  }

  function RegisterRequest(user: string, pass: string): string {
    "<iq type='set' " + "id='reg_2'>" + "<query xmlns='" + RegisterNamespace + "'>" + "<username>" +
    EscapeHtml(user) + "</username>" + "<password>" + EscapeHtml(pass) + "</password>" + "</query></iq>"
  }

  /** PLAIN credentials: NUL, `user@domain`, NUL, password, base64-encoded. */
  function AuthPlain(c: Config): string {
    "<auth xmlns='" + SaslNamespace + "' mechanism=" + "'PLAIN'>" +
    c.env.crypto.base64Encode(['\0'] + c.user + "@" + c.domain + ['\0'] + c.pass) + "</auth>"
  }

  function RosterRequest(jabberId: Option<string>): string {
    "<iq from=\"" + jabberId.GetOr("") + "\" type=\"get\" " + "id=\"roster_1\">" +
    "<query xmlns=\"" + RosterNamespace + "\"/></iq> "
  }

  // Mechanism choice.

  datatype Mechanism = DigestMd5 | Plain | Anonymous

  function MechanismName(m: Mechanism): string {
    match m
    case DigestMd5 => "DIGEST-MD5"
    case Plain => "PLAIN"
    case Anonymous => "ANONYMOUS"
  }

  /** The order of preference: DIGEST-MD5, then PLAIN, then ANONYMOUS. */
  function Preference(m: Mechanism): nat {
    match m
    case DigestMd5 => 0
    case Plain => 1
    case Anonymous => 2
  }

  /** PLAIN sends the password readable, so the client accepts it only over SSL or after
      TLS was negotiated. */
  predicate Acceptable(m: Mechanism, ssl: bool, negotiation: Negotiation) {
    m != Plain || ssl || negotiation == Proceed
  }

  predicate Offered(methods: seq<Option<string>>, m: Mechanism) {
    Some(MechanismName(m)) in methods
  }

  /** The mechanism the client authenticates with: the most preferred acceptable one among
      those offered, none when no offered mechanism is acceptable. */
  function Choose(methods: seq<Option<string>>, ssl: bool, negotiation: Negotiation): (r: Option<Mechanism>)
    ensures r.Some? ==> Offered(methods, r.value) && Acceptable(r.value, ssl, negotiation)
    ensures r.Some? ==> forall m :: Offered(methods, m) && Acceptable(m, ssl, negotiation) ==>
                                      Preference(r.value) <= Preference(m)
    ensures r.None? <==> forall m :: !(Offered(methods, m) && Acceptable(m, ssl, negotiation))
  {
    if Some("DIGEST-MD5") in methods then Some(DigestMd5)
    else if Some("PLAIN") in methods && (ssl || negotiation == Proceed) then Some(Plain)
    else if Some("ANONYMOUS") in methods then Some(Anonymous)
    else None
  }

  function AuthRequest(c: Config, m: Mechanism): string {
    match m
    case DigestMd5 => AuthDigest
    case Plain => AuthPlain(c)
    case Anonymous => AuthAnonymous
  }

  /** The `#` of every `mechanism` child, in order; an element body is never a name. The
      `foreach` reads the key `mechanism` of the body, which PHP 8 refuses with a TypeError
      when the body is a text: that case is `None`. */
  function MechanismList(mechanisms: Occurrence): (r: Option<seq<Option<string>>>)
    ensures r.None? <==> mechanisms.body.Text?
    ensures var os := Occs(Children(mechanisms).entries, "mechanism");
            r.Some? ==> |r.value| == |os| && forall i :: 0 <= i < |os| ==> r.value[i] == TextOf(os[i])
  {
    if mechanisms.body.Text? then None
    else
      var os := Occs(Children(mechanisms).entries, "mechanism");
      Some(seq(|os|, i requires 0 <= i < |os| => TextOf(os[i])))
  }

  /** What the features offer for SASL: no `mechanisms` child in the SASL namespace, one
      whose body is a text (so reading its mechanisms raises), or the listed names. */
  datatype SaslOffer = NoMechanisms | TextMechanisms | Listed(names: seq<Option<string>>)

  /** The mechanisms of a SASL `mechanisms` child. */
  function SaslMechanisms(features: Occurrence): (r: SaslOffer)
    ensures !r.NoMechanisms? <==> Child(features, "mechanisms").Some? &&
                                  Attr(Child(features, "mechanisms").value, "xmlns") == Some(SaslNamespace)
    ensures r.TextMechanisms? <==> !r.NoMechanisms? && Child(features, "mechanisms").value.body.Text?
    ensures r.Listed? ==> Some(r.names) == MechanismList(Child(features, "mechanisms").value)
  {
    match Child(features, "mechanisms")
    case None => NoMechanisms
    case Some(m) =>
      if Attr(m, "xmlns") != Some(SaslNamespace) then NoMechanisms
      else if m.body.Text? then TextMechanisms
      else Listed(MechanismList(m).value)
  }

  // One handler step. A step ends the handler (`Return`), raises, dispatches a tree it
  // holds (`Respond`), or dispatches what the next `wait` delivers (`AwaitReply`).

  datatype Step = Return(state: State) | Raise(state: State, error: Error) | Respond(state: State, tree: Tree)
                | AwaitReply(state: State)

  /** `$this->send($xml); return $this->response($this->wait());` */
  function SendThenAwait(s: State, xml: string): (r: Step)
    ensures r.state.inbox == s.inbox && !r.Respond?
    ensures Keeps(s, r.state, r.Raise?)
  {
    if !s.connected then Raise(s, NotConnected) else AwaitReply(Emit(s, xml))
  }

  /** Whether the features carry a `mechanisms` child. */
  predicate OffersMechanisms(features: Tree) {
    match First(features, "stream:features")
    case None => false
    case Some(f) => HasChild(f, "mechanisms")
  }

  /** A stream header, once its features are at hand (`None` when `wait` gave `null`). The
      stream id is overwritten every time and never cleared, so after the first header with
      an id every later one is taken as the restart after TLS or authentication. */
  function HeaderStep(s: State, header: Occurrence, features: Option<Tree>): (r: Step)
    ensures r.state.inbox == s.inbox
    ensures r.Respond? ==> features == Some(r.tree)
    ensures Keeps(s, r.state, r.Raise?)
  {
    var second := s.streamId.Some?;
    var s1 := s.(streamId := Attr(header, "id"));
    if second then
      match features
      case None => Raise(s1, TypeError)
      case Some(t) => if |t.entries| == 0 then Raise(s1, NoFeatures) else Respond(s1, t)
    else
      var s2 := s1.(negotiation := Started);
      if features.Some? && OffersMechanisms(features.value) then Respond(s2, features.value) else Return(s2)
  }

  /** `stream:features`: bind after authentication, else start TLS when it is possible and
      offered, else pick a SASL mechanism. */
  function FeaturesStep(c: Config, s: State, features: Occurrence): (r: Step)
    ensures r.state.inbox == s.inbox && !r.Respond?
    ensures Keeps(s, r.state, r.Raise?)
  {
    if s.negotiation == Success then
      SendThenAwait(s.(session := HasChild(features, "session")), BindRequest(s.resource))
    else if !c.ssl && c.tls && c.env.sslAvailable && HasChild(features, "starttls") then
      SendThenAwait(s, StartTls)
    else SaslStep(c, s, features)
  }

  /** The SASL part of `stream:features`: request the chosen mechanism, or disconnect. */
  function SaslStep(c: Config, s: State, features: Occurrence): (r: Step)
    ensures r.state.inbox == s.inbox && !r.Respond?
    ensures Keeps(s, r.state, r.Raise?)
  {
    match SaslMechanisms(features)
    case NoMechanisms => Raise(Disconnect(s), NoSasl)
    case TextMechanisms => Raise(s, TypeError)
    case Listed(methods) =>
      match Choose(methods, c.ssl, s.negotiation)
      case None => Raise(Disconnect(s), NoAuthMethod)
      case Some(m) => SendThenAwait(s, AuthRequest(c, m))
  }

  /** `base64_encode(md5(uniqid(mt_rand(), true)))`. */
  function Cnonce(c: Config): string {
    c.env.crypto.base64Encode(c.env.crypto.md5Hex(c.env.cnonceSeed))
  }

  /** `challenge`: answer it; the challenge text must be a text body. */
  function ChallengeStep(c: Config, s: State, challenge: Occurrence): (r: Step)
    ensures r.state.inbox == s.inbox && !r.Respond?
    ensures Keeps(s, r.state, r.Raise?)
  {
    var s1 := s.(negotiation := Challenge);
    match TextOf(challenge)
    case None => Raise(s1, TypeError)
    case Some(text) => SendThenAwait(s1, AnswerChallenge(c.env.crypto, c.user, c.pass, c.host, Cnonce(c), text))
  }

  /** `failure`: authentication failed. */
  function FailureStep(s: State): (r: Step)
    ensures r.state.inbox == s.inbox && !r.Respond?
    ensures Keeps(s, r.state, r.Raise?)
  {
    Raise(Disconnect(Log(s.(negotiation := Failure), AuthFailure)), ServerFailed)
  }

  /** `proceed`: switch the socket to TLS and restart the stream. */
  function ProceedStep(c: Config, s: State): (r: Step)
    ensures r.state.inbox == s.inbox && !r.Respond?
    ensures Keeps(s, r.state, r.Raise?)
  {
    if !s.connected then Raise(s, TypeError)
    else if !c.env.tlsHandshake then Raise(s, ServerFailed)
    else AwaitReply(Emit(Emit(s.(negotiation := Proceed), XmlHeader), StreamRestart(c.host)))
  }

  /** `success`: restart the stream as an authenticated client. */
  function SuccessStep(c: Config, s: State): (r: Step)
    ensures r.state.inbox == s.inbox && !r.Respond?
    ensures Keeps(s, r.state, r.Raise?)
  {
    if !s.connected then Raise(s, NotConnected)
    else AwaitReply(Emit(s, StreamRestart(c.host)).(negotiation := Success))
  }

  /** The `authenticate` branches other than the stream header. */
  function AuthStep(c: Config, s: State, tag: string, o: Occurrence): (r: Step)
    ensures r.state.inbox == s.inbox && !r.Respond?
    ensures Keeps(s, r.state, r.Raise?)
  {
    if tag == "stream:features" then FeaturesStep(c, s, o)
    else if tag == "challenge" then ChallengeStep(c, s, o)
    else if tag == "failure" then FailureStep(s)
    else if tag == "proceed" then ProceedStep(c, s)
    else if tag == "success" then SuccessStep(c, s)
    else Return(s)
  }

  /** `self::$authentications`. */
  const AuthTags: seq<string> := ["stream:stream", "stream:features", "challenge", "failure", "proceed", "success"]

  // IQ handlers.

  /** `$o['#'][$tag][0]['#']` read as a text. */
  function ChildText(o: Occurrence, tag: string): Option<string> {
    match Child(o, tag)
    case None => None
    case Some(x) => TextOf(x)
  }

  /** `$xml['iq'][0]['#']['bind'][0]['#']['jid']` reads a string key of the IQ's body and
      of the `bind` child's body, which PHP 8 refuses with a TypeError on a text body. */
  predicate BindUnreadable(iq: Occurrence) {
    iq.body.Text? || (Child(iq, "bind").Some? && Child(iq, "bind").value.body.Text?)
  }

  /** The JID in a `bind_1` result. */
  function BoundJid(iq: Occurrence): Option<string> {
    match Child(iq, "bind")
    case None => None
    case Some(b) => ChildText(b, "jid")
  }

  /** The `item` children of the IQ's `query`. */
  function Items(iq: Occurrence): seq<Occurrence> {
    match Child(iq, "query")
    case None => []
    case Some(q) => Occs(Children(q).entries, "item")
  }

  /** `$roster[$jid] = $subscription` over the items, in order; a missing `jid` is the key "". */
  function RosterOf(items: seq<Occurrence>): (r: Table<Option<string>>)
    decreases |items|
  {
    if items == [] then []
    else
      var last := items[|items| - 1];
      Set(RosterOf(items[..|items| - 1]), Attr(last, "jid").GetOr(""), Attr(last, "subscription"))
  }

  /** `push`: a roster push is announced when its first item asks something. A subscription
      request from a JID that `user@domain` does not contain reaches `self::ONLINE`, which is
      not defined, so it raises before anything is sent. */
  function PushStep(c: Config, s: State, iq: Occurrence): (r: Step)
    ensures r.state.inbox == s.inbox && !r.Respond?
    ensures Keeps(s, r.state, r.Raise?)
  {
    var items := Items(iq);
    if |items| == 0 then Return(s)
    else
      match Attr(items[0], "ask")
      case None => Return(s)
      case Some(ask) =>
        var jid := Attr(items[0], "jid");
        if ask == "subscribe" && !Contains(c.user + "@" + c.domain, jid.GetOr("")) then Raise(s, UndefinedConstant)
        else Return(Log(s, Subscribe(ask, jid)))
  }

  /** `bind_1`: record the bound JID, then open a session if the server asked for one. */
  function BindStep(c: Config, s: State, iq: Occurrence): (r: Step)
    ensures r.state.inbox == s.inbox && !r.Respond?
    ensures Keeps(s, r.state, r.Raise?)
  {
    if BindUnreadable(iq) then Raise(s, TypeError)
    else
      var s1 := Log(s.(jabberId := BoundJid(iq)), LoggedIn);
      if s1.session then SendThenAwait(s1, SessionRequest(c.host)) else Return(s1)
  }

  /** `query`: the handler for the IQ whose `id` is `id`. */
  function QueryStep(c: Config, s: State, id: string, iq: Occurrence): (r: Step)
    ensures r.state.inbox == s.inbox && !r.Respond?
    ensures Keeps(s, r.state, r.Raise?)
  {
    if id == "bind_1" then BindStep(c, s, iq)
    else if id == "sess_1" then Return(Log(s, SessionStarted))
    else if id == "reg_1" then SendThenAwait(s, RegisterRequest(c.user, c.pass))
    else if id == "reg_2" then (if HasChild(iq, "error") then Return(s) else Return(Log(s, Registered)))
    else if id == "unreg_1" then Return(Log(s, Unregistered))
    else if id == "roster_1" then Return(Log(s, Roster(RosterOf(Items(iq)))))
    else if id == "push" then PushStep(c, s, iq)
    else Return(s)
  }

  /** A `message` with a body is announced; `fishing` tells whether it was addressed to
      someone else than the bound JID (`null` compares equal to ""). */
  function MessageStep(s: State, m: Occurrence): State {
    if !HasChild(m, "body") then s
    else
      var to := Attr(m, "to");
      Log(s, Message(Attr(m, "from"), ChildText(m, "body"), ChildText(m, "subject"), ChildText(m, "thread"),
                     to.GetOr("") != s.jabberId.GetOr("")))
  }

  // The dispatcher. Every function here returns a state whose inbox is a suffix-length no
  // longer than the one it started from; that is the first half of the termination measure.

  /** `response($xml)` for a tree `$xml`. */
  function Dispatch(c: Config, s: State, t: Tree): (r: Run)
    ensures |r.state.inbox| <= |s.inbox|
    decreases |s.inbox|, t, 2
    ensures Keeps(s, r.state, r.error.Some?)
  {
    DispatchEntries(c, s, t.entries, 0)
  }

  /** One entry after another, from `es[i]` on, until one raises. */
  function DispatchEntries(c: Config, s: State, es: seq<Entry>, i: nat): (r: Run)
    requires i <= |es|
    ensures |r.state.inbox| <= |s.inbox|
    decreases |s.inbox|, es, |es| - i
    ensures Keeps(s, r.state, r.error.Some?)
  {
    if i == |es| then Run(s, None)
    else
      var r := DispatchEntry(c, s, es[i]);
      if r.error.Some? then r else DispatchEntries(c, r.state, es, i + 1)
  }

  /** One entry: each occurrence of a tag in turn. A text entry cannot be counted. */
  function DispatchEntry(c: Config, s: State, e: Entry): (r: Run)
    ensures |r.state.inbox| <= |s.inbox|
    decreases |s.inbox|, e, 0
    ensures Keeps(s, r.state, r.error.Some?)
  {
    match e
    case TextNode(_) => Run(s, Some(TypeError))
    case Group(tag, os) => DispatchOccs(c, s, tag, os, 0)
  }

  function DispatchOccs(c: Config, s: State, tag: string, os: seq<Occurrence>, i: nat): (r: Run)
    requires i <= |os|
    ensures |r.state.inbox| <= |s.inbox|
    decreases |s.inbox|, os, |os| - i
    ensures Keeps(s, r.state, r.error.Some?)
  {
    if i == |os| then Run(s, None)
    else
      var r := DispatchOcc(c, s, tag, os[i]);
      if r.error.Some? then r else DispatchOccs(c, r.state, tag, os, i + 1)
  }

  /** A single element: authentication stanzas, IQs with an id, messages; anything else is
      ignored. */
  function DispatchOcc(c: Config, s: State, tag: string, o: Occurrence): (r: Run)
    ensures |r.state.inbox| <= |s.inbox|
    decreases |s.inbox|, o, 5
    ensures Keeps(s, r.state, r.error.Some?)
  {
    if tag in AuthTags then Authenticate(c, s, tag, o)
    else if tag == "iq" then
      match Attr(o, "id")
      case None => Run(s, None)
      case Some(id) => Follow(c, |s.inbox|, o, QueryStep(c, s, id, o))
    else if tag == "message" then Run(MessageStep(s, o), None)
    else Run(s, None)
  }

  /** `authenticate`. A stream header that carries its features dispatches them at once;
      otherwise it waits for them first. */
  function Authenticate(c: Config, s: State, tag: string, o: Occurrence): (r: Run)
    ensures |r.state.inbox| <= |s.inbox|
    decreases |s.inbox|, o, 4
    ensures Keeps(s, r.state, r.error.Some?)
  {
    if tag == "stream:stream" then
      if HasChild(o, "stream:features") then
        assert o.body.Kids?;
        Follow(c, |s.inbox|, o, HeaderStep(s, o, Some(Children(o))))
      else
        var w := Wait(c, s);
        if w.error.Some? then Run(w.state, w.error)
        else Follow(c, |s.inbox|, o, HeaderStep(w.state, o, w.tree))
    else Follow(c, |s.inbox|, o, AuthStep(c, s, tag, o))
  }

  /** Carries out a step. `n` and `o` bound the termination measure: a step that dispatches a
      tree it holds either has consumed input or holds a part of `o`. */
  function Follow(c: Config, ghost n: nat, ghost o: Occurrence, step: Step): (r: Run)
    requires |step.state.inbox| <= n
    requires step.Respond? ==> |step.state.inbox| < n || o.body == Kids(step.tree)
    ensures |r.state.inbox| <= |step.state.inbox|
    decreases n, o, 3
    ensures Keeps(step.state, r.state, r.error.Some?)
  {
    match step
    case Return(st) => Run(st, None)
    case Raise(st, e) => Run(st, Some(e))
    case Respond(st, t) => Dispatch(c, st, t)
    case AwaitReply(st) =>
      var w := Wait(c, st);
      if w.error.Some? then Run(w.state, w.error)
      else
        match w.tree
        case None => Run(w.state, None)
        case Some(t) => Dispatch(c, w.state, t)
  }

  /** `response($x)` for what `wait` returned: `null` does nothing. */
  function Response(c: Config, s: State, x: Option<Tree>): (r: Run)
    ensures |r.state.inbox| <= |s.inbox|
    ensures Keeps(s, r.state, r.error.Some?)
  {
    match x
    case None => Run(s, None)
    case Some(t) => Dispatch(c, s, t)
  }

  /** Where the termination measure of a top-level wait starts. */
  ghost const Outside: Occurrence := Occurrence(None, Text(""))

  // The public operations.

  /** The socket is open: the XML declaration and the stream header go out, then `connected`
      is announced. */
  function Opened(c: Config, s: State): State {
    Log(Emit(Emit(s.(connected := true), XmlHeader), StreamOpen(c.host)), Connected)
  }

  /** `connect`: open the stream and handle what the server answers. */
  function Connect(c: Config, s: State): (r: Run)
  {
    if s.connected then Run(s, None)
    else
      var s1 := Opened(c, s);
      Follow(c, |s1.inbox|, Outside, AwaitReply(s1))
  }

  /** Sends the texts in order, stopping at the first refusal. */
  function SendAll(s: State, xs: seq<string>): (r: Run)
    decreases |xs|
  {
    if xs == [] then Run(s, None)
    else
      var r := Send(s, xs[0]);
      if r.error.Some? then r else SendAll(r.state, xs[1..])
  }

  /** `setPresence`. */
  function SetPresence(s: State, to: Recipients, message: Option<string>, kind: Option<string>,
                       show: Option<string>): (r: Run)
  {
    match s.jabberId
    case None => Run(s, Some(NoJid))
    case Some(jid) => SendAll(s, PresenceStanzas(jid, to, message, kind, show))
  }

  /** `to`: send a message; `id` is the value `uniqid('msg')` produced. */
  function SendMessage(s: State, to: string, text: string, subject: Option<string>, thread: Option<string>,
                       id: string): (r: Run)
  {
    match s.jabberId
    case None => Run(s, Some(NoJid))
    case Some(from) => Send(s, MessageStanza(from, to, text, subject, thread, id))
  }

  /** `getRoster`. */
  function GetRoster(s: State): (r: Run) {
    Send(s, RosterRequest(s.jabberId))
  }

  /** What `sprintf('%s', $to)` makes of the recipients: a list prints as `Array`. */
  function RecipientsText(to: Recipients): string {
    match to
    case Everyone => ""
    case Single(u) => u
    case List(_) => "Array"
  }

  /** The roster item `subscribeTo` adds. */
  function RosterAdd(jid: string): string {
    "<iq type=\"set\"" + " id=\"set1\">" + "<query xmlns=\"" + RosterNamespace + "\">" + "<item jid=\"" +
    jid + "\" /></query>" + "</iq>"
  }

  /** `subscribeTo`: the roster item, then a `subscribe` presence. */
  function SubscribeTo(s: State, to: Recipients, message: Option<string>): (r: Run) {
    var r := Send(s, RosterAdd(RecipientsText(to)));
    if r.error.Some? then r else SetPresence(r.state, to, message, Some("subscribe"), None)
  }

  /** `setResource`. */
  function SetResource(s: State, name: string): (r: State) {
    s.(resource := Some(name))
  }
}
