/** The class `Base` itself: the object's fields, and its methods updating them in place.
    Every method is proved to leave the object in the state the engine function of the same
    name computes from the old state, and to raise the exception it computes; what those
    functions keep and guarantee is proved about them directly. */
module Jabber {

  import opened Wrappers
  import opened Php
  import opened OrderedMap
  import opened XmlTree
  import opened Sasl
  import opened Stanzas
  import opened Protocol

  class Base {
    // Fixed by the constructor.
    const host: string
    const port: int
    const user: string
    const pass: string
    const domain: string
    const ssl: bool
    const tls: bool
    const env: Env

    // Changed by the methods; `connected` stands for `$this->connection` being set, and the
    // two queues for the socket.
    var negotiation: Negotiation
    var connected: bool
    var jabberId: Option<string>
    var streamId: Option<string>
    var session: bool
    var resource: Option<string>
    var outbox: seq<string>
    var events: seq<Event>
    var inbox: seq<string>

    function Cfg(): Config {
      Config(host, port, user, pass, domain, ssl, tls, env)
    }

    function Snap(): State
      reads this
    {
      State(negotiation, connected, jabberId, streamId, session, resource, outbox, events, inbox)
    }

    /** `__construct`; `inbox` is what the server will deliver once connected. */
    constructor (host: string, port: int, user: string, pass: string, ssl: bool, tls: bool, env: Env,
                 inbox: seq<string>)
      ensures Cfg() == Configure(host, port, user, pass, ssl, tls, env)
      ensures Snap() == Protocol.Initial(inbox)
    {
      var ssl' := ssl && env.sslAvailable;
      var user', domain' := user, host;
      if '@' in user {
        var parts := Split(user, '@');
        user' := parts[0];
        if |parts| > 1 {
          domain' := parts[1];
        }
      }
      var port' := port;
      if port' == 5222 && ssl' {
        port' := 5223;
      }
      this.host := host;
      this.port := port';
      this.user := user';
      this.pass := pass;
      this.domain := domain';
      this.ssl := ssl';
      this.tls := tls && env.tlsAvailable;
      this.env := env;
      negotiation := Noop;
      connected := false;
      jabberId := None;
      streamId := None;
      session := false;
      resource := None;
      outbox := [];
      events := [];
      this.inbox := inbox;
    }

    /** `trigger`: the event is appended to the log. */
    method Trigger(e: Event)
      modifies this
      ensures Snap() == Log(old(Snap()), e)
    {
      events := events + [e];
    }

    /** `send`. */
    method Send(xml: string) returns (err: Option<Error>)
      modifies this
      ensures Run(Snap(), err) == Protocol.Send(old(Snap()), xml)
    {
      if !connected {
        return Some(NotConnected);
      }
      var x := TrimSpace(xml);
      Trigger(Sent(x));
      outbox := outbox + [x];
      err := None;
    }

    /** `wait`: one delivery, parsed. */
    method Wait() returns (tree: Option<Tree>, err: Option<Error>)
      modifies this
      ensures Reading(Snap(), tree, err) == Protocol.Wait(Cfg(), old(Snap()))
    {
      if !connected {
        return None, Some(NotConnected);
      }
      if |inbox| == 0 {
        return None, None;
      }
      var data := inbox[0];
      inbox := inbox[1..];
      if data == "" {
        return None, None;
      }
      Trigger(Received(data));
      tree := ParseXml(data, env.tokenize);
      err := None;
    }

    /** `disconnect`. */
    method Disconnect()
      modifies this
      ensures Snap() == Protocol.Disconnect(old(Snap()))
    {
      if !connected {
        return;
      }
      var err := Send(StreamClose);
      connected := false;
      Trigger(Disconnected);
    }

    /** `$this->response($this->wait())` inside a handler; `n` and `o` are the handler's
        termination bounds. */
    method Await(ghost n: nat, ghost o: Occurrence) returns (err: Option<Error>)
      requires |inbox| <= n
      modifies this
      decreases n, o, 1
      ensures Run(Snap(), err) == Follow(Cfg(), n, o, AwaitReply(old(Snap())))
    {
      var tree;
      tree, err := Wait();
      if err.Some? {
        return;
      }
      match tree
      case None =>
      case Some(t) =>
        err := Dispatch(t);
    }

    /** `$this->send($xml); return $this->response($this->wait());` */
    method Converse(ghost n: nat, ghost o: Occurrence, xml: string) returns (err: Option<Error>)
      requires |inbox| <= n
      modifies this
      decreases n, o, 2
      ensures Run(Snap(), err) == Follow(Cfg(), n, o, SendThenAwait(old(Snap()), xml))
    {
      err := Send(xml);
      if err.None? {
        err := Await(n, o);
      }
    }

    /** `response($xml)` for a tree: tag after tag, until one raises. */
    method Dispatch(t: Tree) returns (err: Option<Error>)
      modifies this
      decreases |inbox|, t, 2
      ensures Run(Snap(), err) == Protocol.Dispatch(Cfg(), old(Snap()), t)
    {
      var i := 0;
      while i < |t.entries|
        invariant i <= |t.entries| && |inbox| <= |old(inbox)|
        invariant Protocol.DispatchEntries(Cfg(), Snap(), t.entries, i) == Protocol.Dispatch(Cfg(), old(Snap()), t)
      {
        err := DispatchEntry(t.entries[i]);
        if err.Some? {
          return;
        }
        i := i + 1;
      }
      err := None;
    }

    /** One tag: occurrence after occurrence, until one raises. */
    method DispatchEntry(e: Entry) returns (err: Option<Error>)
      modifies this
      decreases |inbox|, e, 0
      ensures Run(Snap(), err) == Protocol.DispatchEntry(Cfg(), old(Snap()), e)
    {
      match e
      case TextNode(_) =>
        err := Some(TypeError);
      case Group(tag, os) =>
        var i := 0;
        while i < |os|
          invariant i <= |os| && |inbox| <= |old(inbox)|
          invariant Protocol.DispatchOccs(Cfg(), Snap(), tag, os, i) == Protocol.DispatchEntry(Cfg(), old(Snap()), e)
        {
          err := DispatchOcc(tag, os[i]);
          if err.Some? {
            return;
          }
          i := i + 1;
        }
        err := None;
    }

    /** One element: `authenticate`, `query` for an IQ with an id, the `message` event. */
    method DispatchOcc(tag: string, o: Occurrence) returns (err: Option<Error>)
      modifies this
      decreases |inbox|, o, 6
      ensures Run(Snap(), err) == Protocol.DispatchOcc(Cfg(), old(Snap()), tag, o)
    {
      if tag in AuthTags {
        err := Authenticate(tag, o);
      } else if tag == "iq" {
        match Attr(o, "id")
        case None =>
          err := None;
        case Some(id) =>
          err := Query(id, o);
      } else if tag == "message" {
        if HasChild(o, "body") {
          Trigger(Message(Attr(o, "from"), ChildText(o, "body"), ChildText(o, "subject"), ChildText(o, "thread"),
                          Attr(o, "to").GetOr("") != jabberId.GetOr("")));
        }
        err := None;
      } else {
        err := None;
      }
    }

    /** `response($xml)` for what `wait` returned. */
    method Response(x: Option<Tree>) returns (err: Option<Error>)
      modifies this
      ensures Run(Snap(), err) == Protocol.Response(Cfg(), old(Snap()), x)
    {
      match x
      case None =>
        err := None;
      case Some(t) =>
        err := Dispatch(t);
    }

    /** `authenticate`. */
    method Authenticate(tag: string, o: Occurrence) returns (err: Option<Error>)
      modifies this
      decreases |inbox|, o, 5
      ensures Run(Snap(), err) == Protocol.Authenticate(Cfg(), old(Snap()), tag, o)
    {
      ghost var n := |inbox|;
      if tag == "stream:stream" {
        var features;
        if HasChild(o, "stream:features") {
          assert o.body.Kids?;
          features := Some(Children(o));
        } else {
          features, err := Wait();
          if err.Some? {
            return;
          }
        }
        err := OnHeader(n, o, features);
      } else if tag == "stream:features" {
        err := OnFeatures(n, o);
      } else if tag == "challenge" {
        err := OnChallenge(n, o);
      } else if tag == "failure" {
        err := OnFailure(n, o);
      } else if tag == "proceed" {
        err := OnProceed(n, o);
      } else if tag == "success" {
        err := OnSuccess(n, o);
      } else {
        err := None;
      }
    }

    /** A stream header, with its features at hand. */
    method OnHeader(ghost n: nat, o: Occurrence, features: Option<Tree>) returns (err: Option<Error>)
      requires |inbox| <= n
      requires features.Some? ==> |inbox| < n || o.body == Kids(features.value)
      modifies this
      decreases n, o, 3
      ensures Run(Snap(), err) == Follow(Cfg(), n, o, HeaderStep(old(Snap()), o, features))
    {
      var second := streamId.Some?;
      streamId := Attr(o, "id");
      if second {
        match features {
          case None =>
            err := Some(TypeError);
          case Some(t) =>
            if |t.entries| == 0 {
              err := Some(NoFeatures);
            } else {
              err := Dispatch(t);
            }
        }
        return;
      }
      negotiation := Started;
      if features.Some? && OffersMechanisms(features.value) {
        err := Dispatch(features.value);
      } else {
        err := None;
      }
    }

    /** The `#` of each `mechanism` child, collected in order. */
    method Mechanisms(m: Occurrence) returns (methods: Option<seq<Option<string>>>)
      ensures methods == MechanismList(m)
    {
      if m.body.Text? {
        return None;
      }
      var os := Occs(Children(m).entries, "mechanism");
      var names: seq<Option<string>> := [];
      for i := 0 to |os|
        invariant |names| == i && forall j :: 0 <= j < i ==> names[j] == TextOf(os[j])
      {
        names := names + [TextOf(os[i])];
      }
      assert names == MechanismList(m).value;
      methods := Some(names);
    }

    /** `stream:features`. */
    method OnFeatures(ghost n: nat, o: Occurrence) returns (err: Option<Error>)
      requires |inbox| <= n
      modifies this
      decreases n, o, 4
      ensures Run(Snap(), err) == Follow(Cfg(), n, o, FeaturesStep(Cfg(), old(Snap()), o))
    {
      if negotiation == Success {
        session := HasChild(o, "session");
        err := Converse(n, o, BindRequest(resource));
      } else if !ssl && tls && env.sslAvailable && HasChild(o, "starttls") {
        err := Converse(n, o, StartTls);
      } else {
        err := Authorize(n, o);
      }
    }

    /** The SASL part of `stream:features`: the first acceptable mechanism in the order of
        preference, or disconnect. */
    method Authorize(ghost n: nat, o: Occurrence) returns (err: Option<Error>)
      requires |inbox| <= n
      requires negotiation != Success && !(!ssl && tls && env.sslAvailable && HasChild(o, "starttls"))
      modifies this
      decreases n, o, 3
      ensures Run(Snap(), err) == Follow(Cfg(), n, o, FeaturesStep(Cfg(), old(Snap()), o))
    {
      ghost var s0 := Snap();
      assert FeaturesStep(Cfg(), s0, o) == SaslStep(Cfg(), s0, o);
      var m := Child(o, "mechanisms");
      if m.None? || Attr(m.value, "xmlns") != Some(SaslNamespace) {
        assert SaslStep(Cfg(), s0, o) == Raise(Protocol.Disconnect(s0), NoSasl);
        Disconnect();
        return Some(NoSasl);
      }
      var listed := Mechanisms(m.value);
      if listed.None? {
        assert SaslStep(Cfg(), s0, o) == Raise(s0, TypeError);
        return Some(TypeError);
      }
      var methods := listed.value;
      assert SaslMechanisms(o) == Listed(methods);
      var xml := AuthFor(methods);
      if xml.None? {
        assert SaslStep(Cfg(), s0, o) == Raise(Protocol.Disconnect(s0), NoAuthMethod);
        Disconnect();
        return Some(NoAuthMethod);
      }
      assert SaslStep(Cfg(), s0, o) == SendThenAwait(s0, xml.value);
      err := Converse(n, o, xml.value);
    }

    /** The `auth` request for the first acceptable mechanism in the order of preference. */
    method AuthFor(methods: seq<Option<string>>) returns (xml: Option<string>)
      ensures Choose(methods, ssl, negotiation).None? ==> xml.None?
      ensures Choose(methods, ssl, negotiation).Some? ==> xml == Some(AuthRequest(Cfg(), Choose(methods, ssl, negotiation).value))
    {
      if Some("DIGEST-MD5") in methods {
        xml := Some(AuthDigest);
      } else if Some("PLAIN") in methods && (ssl || negotiation == Proceed) {
        xml := Some(AuthPlain(Cfg()));
      } else if Some("ANONYMOUS") in methods {
        xml := Some(AuthAnonymous);
      } else {
        xml := None;
      }
    }

    /** `challenge`: decode, parse and fill in the challenge, then answer it. */
    method OnChallenge(ghost n: nat, o: Occurrence) returns (err: Option<Error>)
      requires |inbox| <= n
      modifies this
      decreases n, o, 3
      ensures Run(Snap(), err) == Follow(Cfg(), n, o, ChallengeStep(Cfg(), old(Snap()), o))
    {
      ghost var s0 := Snap();
      negotiation := Challenge;
      if TextOf(o).None? {
        return Some(TypeError);
      }
      var xml := Answer(TextOf(o).value);
      assert ChallengeStep(Cfg(), s0, o) == SendThenAwait(s0.(negotiation := Challenge), xml);
      err := Converse(n, o, xml);
    }

    /** The answer to a challenge: decode and parse it, fill it in, then reply with the
        response table, or with an empty response once the server proves itself (`rspauth`). */
    method Answer(challenge: string) returns (xml: string)
      ensures xml == AnswerChallenge(env.crypto, user, pass, host, Cnonce(Cfg()), challenge)
    {
      var cr := env.crypto;
      var decoded := ParseData(cr.base64Decode(challenge));
      decoded := Prepare(decoded, host, Cnonce(Cfg()));
      if Has(decoded, "rspauth") {
        xml := EmptyResponse;
      } else {
        var reply := ImplodeData(ChallengeReply(cr, user, pass, decoded));
        xml := ResponseStart + ">" + cr.base64Encode(reply) + "</response>";
      }
    }

    /** `failure`. */
    method OnFailure(ghost n: nat, o: Occurrence) returns (err: Option<Error>)
      requires |inbox| <= n
      modifies this
      ensures Run(Snap(), err) == Follow(Cfg(), n, o, FailureStep(old(Snap())))
    {
      negotiation := Failure;
      Trigger(AuthFailure);
      Disconnect();
      err := Some(ServerFailed);
    }

    /** `proceed`: the TLS handshake, then a new stream. */
    method OnProceed(ghost n: nat, o: Occurrence) returns (err: Option<Error>)
      requires |inbox| <= n
      modifies this
      decreases n, o, 3
      ensures Run(Snap(), err) == Follow(Cfg(), n, o, ProceedStep(Cfg(), old(Snap())))
    {
      if !connected {
        return Some(TypeError);
      }
      if !env.tlsHandshake {
        return Some(ServerFailed);
      }
      negotiation := Proceed;
      err := Send(XmlHeader);
      err := Send(StreamRestart(host));
      err := Await(n, o);
    }

    /** `success`: a new stream, authenticated. */
    method OnSuccess(ghost n: nat, o: Occurrence) returns (err: Option<Error>)
      requires |inbox| <= n
      modifies this
      decreases n, o, 3
      ensures Run(Snap(), err) == Follow(Cfg(), n, o, SuccessStep(Cfg(), old(Snap())))
    {
      err := Send(StreamRestart(host));
      if err.Some? {
        return;
      }
      negotiation := Success;
      err := Await(n, o);
    }

    /** `query`. */
    method Query(id: string, o: Occurrence) returns (err: Option<Error>)
      modifies this
      decreases |inbox|, o, 5
      ensures Run(Snap(), err) == Follow(Cfg(), |old(inbox)|, o, QueryStep(Cfg(), old(Snap()), id, o))
    {
      ghost var n := |inbox|;
      err := None;
      if id == "bind_1" {
        err := OnBind(n, o);
      } else if id == "sess_1" {
        Trigger(SessionStarted);
      } else if id == "reg_1" {
        err := Converse(n, o, RegisterRequest(user, pass));
      } else if id == "reg_2" {
        if !HasChild(o, "error") {
          Trigger(Registered);
        }
      } else if id == "unreg_1" {
        Trigger(Unregistered);
      } else if id == "roster_1" {
        OnRoster(o);
      } else if id == "push" {
        err := OnPush(o);
      }
    }

    /** `bind_1`. */
    method OnBind(ghost n: nat, o: Occurrence) returns (err: Option<Error>)
      requires |inbox| <= n
      modifies this
      decreases n, o, 3
      ensures Run(Snap(), err) == Follow(Cfg(), n, o, BindStep(Cfg(), old(Snap()), o))
    {
      var b := Child(o, "bind");
      if o.body.Text? || (b.Some? && b.value.body.Text?) {
        return Some(TypeError);
      }
      jabberId := BoundJid(o);
      Trigger(LoggedIn);
      err := None;
      if session {
        err := Converse(n, o, SessionRequest(host));
      }
    }

    /** `roster_1`: the roster is built item by item, then announced. */
    method OnRoster(o: Occurrence)
      modifies this
      ensures Snap() == Log(old(Snap()), Event.Roster(RosterOf(Items(o))))
    {
      var items := Items(o);
      var roster: Table<Option<string>> := [];
      for i := 0 to |items|
        invariant roster == RosterOf(items[..i])
      {
        assert items[..i + 1][..i] == items[..i];
        roster := Set(roster, Attr(items[i], "jid").GetOr(""), Attr(items[i], "subscription"));
      }
      assert items[..|items|] == items;
      Trigger(Event.Roster(roster));
    }

    /** `push`. */
    method OnPush(o: Occurrence) returns (err: Option<Error>)
      modifies this
      ensures Run(Snap(), err) == Follow(Cfg(), |old(inbox)|, o, PushStep(Cfg(), old(Snap()), o))
    {
      var items := Items(o);
      err := None;
      if |items| == 0 || Attr(items[0], "ask").None? {
        return;
      }
      var ask := Attr(items[0], "ask").value;
      var jid := Attr(items[0], "jid");
      if ask == "subscribe" && !Contains(user + "@" + domain, jid.GetOr("")) {
        return Some(UndefinedConstant);
      }
      Trigger(Subscribe(ask, jid));
    }

    /** `connect`, once the socket is open. */
    method Connect() returns (err: Option<Error>)
      modifies this
      ensures Run(Snap(), err) == Protocol.Connect(Cfg(), old(Snap()))
    {
      if connected {
        return None;
      }
      Open();
      err := Await(|inbox|, Outside);
    }

    /** The part of `connect` after the socket is open. */
    method Open()
      modifies this
      ensures Snap() == Opened(Cfg(), old(Snap()))
    {
      connected := true;
      var err := Send(XmlHeader);
      err := Send(StreamOpen(host));
      Trigger(Connected);
    }

    /** `setPresence`: one stanza per recipient. */
    method SetPresence(to: Recipients, message: Option<string>, kind: Option<string>, show: Option<string>)
      returns (err: Option<Error>)
      modifies this
      ensures Run(Snap(), err) == Protocol.SetPresence(old(Snap()), to, message, kind, show)
    {
      if jabberId.None? {
        return Some(NoJid);
      }
      var template := PresenceTemplate(jabberId.value, kind, show, message);
      match to {
        case Everyone =>
          ghost var s0 := Snap();
          assert PresenceStanzas(jabberId.value, to, message, kind, show) == [template.Fill("")];
          err := Send(template.Fill(""));
          assert [template.Fill("")][1..] == [];
          assert Protocol.SendAll(s0, [template.Fill("")]) == Run(Snap(), err);
        case Single(u) =>
          assert PresenceStanzas(jabberId.value, to, message, kind, show) == Addressed(template, [u]);
          err := SendAddressed(template, [u]);
        case List(us) =>
          err := SendAddressed(template, us);
      }
    }

    /** The `foreach` of `setPresence`: the template filled in for each recipient is sent, until
        a send is refused. */
    method SendAddressed(template: Template, users: seq<string>) returns (err: Option<Error>)
      modifies this
      ensures Run(Snap(), err) == Protocol.SendAll(old(Snap()), Addressed(template, users))
    {
      ghost var xs := Addressed(template, users);
      err := None;
      var i := 0;
      while i < |users|
        invariant i <= |users| && err.None?
        invariant Protocol.SendAll(Snap(), xs[i..]) == Protocol.SendAll(old(Snap()), xs)
      {
        assert xs[i..][0] == xs[i] && xs[i..][1..] == xs[i + 1..];
        err := Send(template.Fill(RecipientAttr(users[i])));
        if err.Some? {
          return;
        }
        i := i + 1;
      }
      assert xs[i..] == [];
    }

    /** `probe`. */
    method Probe(to: string) returns (err: Option<Error>)
      modifies this
      ensures Run(Snap(), err) == Protocol.SetPresence(old(Snap()), Single(to), None, Some("probe"), None)
    {
      err := SetPresence(Single(to), None, Some("probe"), None);
    }

    /** `setAway`, `setDND`, `setOffline`, `setXA` and `setOnline`: a presence whose show is
        `away`, `dnd`, `offline`, `xa`, or `available` (which is not a known show). */
    method SetShow(to: Recipients, message: Option<string>, show: string) returns (err: Option<Error>)
      modifies this
      ensures Run(Snap(), err) == Protocol.SetPresence(old(Snap()), to, message, None, Some(show))
    {
      err := SetPresence(to, message, None, Some(show));
    }

    /** `to`: `id` is the value `uniqid('msg')` produced. */
    method To(to: string, text: string, subject: Option<string>, thread: Option<string>, id: string)
      returns (err: Option<Error>)
      modifies this
      ensures Run(Snap(), err) == SendMessage(old(Snap()), to, text, subject, thread, id)
    {
      if jabberId.None? {
        return Some(NoJid);
      }
      err := Send(MessageStanza(jabberId.value, to, text, subject, thread, id));
    }

    /** `getRoster`. */
    method GetRoster() returns (err: Option<Error>)
      modifies this
      ensures Run(Snap(), err) == Protocol.GetRoster(old(Snap()))
    {
      err := Send(RosterRequest(jabberId));
    }

    /** `subscribeTo`. */
    method SubscribeTo(to: Recipients, message: Option<string>) returns (err: Option<Error>)
      modifies this
      ensures Run(Snap(), err) == Protocol.SubscribeTo(old(Snap()), to, message)
    {
      err := Send(RosterAdd(RecipientsText(to)));
      if err.Some? {
        return;
      }
      err := SetPresence(to, message, Some("subscribe"), None);
    }

    /** `setResource`. */
    method SetResource(name: string)
      modifies this
      ensures Snap() == Protocol.SetResource(old(Snap()), name)
    {
      resource := Some(name);
    }
  }
}
