/** What the protocol engine guarantees: the constructor's account split, the mechanism
    choice, the negotiation transitions of `authenticate`, the IQ handlers, the dispatcher's
    order and filters, and the stanzas the public operations send. */
module ProtocolFacts {

  import opened Wrappers
  import opened Php
  import opened OrderedMap
  import opened XmlTree
  import opened Stanzas
  import opened Protocol
  import Sasl

  // The constructor.

  /** `user@domain` is split at its first `@`: the part before it is the user and the part up
      to the next `@`, if any, is the domain; whatever follows a second `@` is dropped. */
  lemma AccountSplit(host: string, port: int, u: string, d: string, tail: string, pass: string, ssl: bool,
                     tls: bool, env: Env)
    requires '@' !in u && '@' !in d
    requires tail == [] || tail[0] == '@'
    ensures var c := Configure(host, port, u + "@" + d + tail, pass, ssl, tls, env);
            c.user == u && c.domain == d
  {
    var user := u + "@" + d + tail;
    assert user == u + ['@'] + (d + tail);
    SplitFirst(u, '@', d + tail);
    SplitHead(d, '@', tail);
    assert user[|u|] == '@';
  }

  // Mechanism choice.

  /** The choice depends on which mechanisms are offered, not on the order of the list. */
  lemma ChooseIgnoresOrder(a: seq<Option<string>>, b: seq<Option<string>>, ssl: bool, negotiation: Negotiation)
    requires multiset(a) == multiset(b)
    ensures Choose(a, ssl, negotiation) == Choose(b, ssl, negotiation)
  {
    forall x: Option<string> ensures x in a <==> x in b {
      assert x in a <==> x in multiset(a);
      assert x in b <==> x in multiset(b);
    }
  }

  // `stream:features`.

  /** The condition under which the client upgrades to TLS. */
  predicate TlsWanted(c: Config, features: Occurrence) {
    !c.ssl && c.tls && c.env.sslAvailable && HasChild(features, "starttls")
  }

  /** After authentication, features record whether a session is required and the resource
      is bound. */
  lemma FeaturesAfterSuccess(c: Config, s: State, o: Occurrence)
    requires s.negotiation == Success
    ensures var r := AuthStep(c, s, "stream:features", o);
            var s1 := s.(session := HasChild(o, "session"));
            (s.connected ==> r == AwaitReply(Emit(s1, BindRequest(s.resource)))) &&
            (!s.connected ==> r == Raise(s1, NotConnected))
  {
  }

  /** Before authentication, TLS is started when it is wanted and offered. */
  lemma FeaturesStartTls(c: Config, s: State, o: Occurrence)
    requires s.negotiation != Success && TlsWanted(c, o) && s.connected
    ensures AuthStep(c, s, "stream:features", o) == AwaitReply(Emit(s, StartTls))
  {
  }

  /** Otherwise SASL: the chosen mechanism is requested; with no SASL mechanisms, or none
      the client accepts, it disconnects and then raises. A text body in place of the
      mechanism list raises TypeError with nothing sent and the connection left open. */
  lemma FeaturesSasl(c: Config, s: State, o: Occurrence)
    requires s.negotiation != Success && !TlsWanted(c, o)
    ensures var r := AuthStep(c, s, "stream:features", o);
            var ms := SaslMechanisms(o);
            (ms.NoMechanisms? ==> r == Raise(Disconnect(s), NoSasl)) &&
            (ms.TextMechanisms? ==> r == Raise(s, TypeError)) &&
            (ms.Listed? && Choose(ms.names, c.ssl, s.negotiation).None? ==> r == Raise(Disconnect(s), NoAuthMethod)) &&
            (ms.Listed? && Choose(ms.names, c.ssl, s.negotiation).Some? && s.connected ==>
               r == AwaitReply(Emit(s, AuthRequest(c, Choose(ms.names, c.ssl, s.negotiation).value))))
  {
  }

  /** DIGEST-MD5 is requested whenever the server offers it, wherever it stands in the list. */
  lemma DigestWheneverOffered(c: Config, s: State, o: Occurrence)
    requires s.negotiation != Success && !TlsWanted(c, o) && s.connected
    requires SaslMechanisms(o).Listed? && Some("DIGEST-MD5") in SaslMechanisms(o).names
    ensures AuthStep(c, s, "stream:features", o) == AwaitReply(Emit(s, AuthDigest))
  {
    assert Offered(SaslMechanisms(o).names, DigestMd5);
  }

  /** The two refusals leave the connection closed, with the closing tag sent if it was open. */
  lemma RefusalDisconnects(c: Config, s: State, o: Occurrence)
    requires var r := AuthStep(c, s, "stream:features", o);
             r.Raise? && (r.error == NoSasl || r.error == NoAuthMethod)
    ensures var r := AuthStep(c, s, "stream:features", o);
            !r.state.connected && r.state.negotiation == s.negotiation &&
            (s.connected ==> r.state.outbox == s.outbox + [TrimSpace(StreamClose)])
  {
  }

  // The other `authenticate` branches.

  /** A challenge sets CHALLENGE and is answered; an element body cannot be decoded. */
  lemma ChallengeAnswered(c: Config, s: State, o: Occurrence)
    ensures var r := AuthStep(c, s, "challenge", o);
            var s1 := s.(negotiation := Challenge);
            r.state.negotiation == Challenge &&
            (TextOf(o).None? ==> r == Raise(s1, TypeError)) &&
            (TextOf(o).Some? && s.connected ==>
               r == AwaitReply(Emit(s1, Sasl.AnswerChallenge(c.env.crypto, c.user, c.pass, c.host, Cnonce(c),
                                                               TextOf(o).value))))
  {
  }

  /** A failure sets FAILURE, is announced, disconnects and raises SERVER_FAILED. */
  lemma FailureDisconnects(c: Config, s: State, o: Occurrence)
    ensures var r := AuthStep(c, s, "failure", o);
            r.Raise? && r.error == ServerFailed && !r.state.connected && r.state.negotiation == Failure &&
            |r.state.events| > |s.events| && r.state.events[|s.events|] == AuthFailure &&
            (s.connected ==> r.state.outbox == s.outbox + [TrimSpace(StreamClose)])
  {
  }

  /** `proceed` sets PROCEED and restarts the stream once TLS is on; a failed handshake raises
      SERVER_FAILED and leaves the connection as it was. */
  lemma ProceedRestarts(c: Config, s: State, o: Occurrence)
    requires s.connected
    ensures var r := AuthStep(c, s, "proceed", o);
            (c.env.tlsHandshake ==>
               r.AwaitReply? && r.state.negotiation == Proceed && r.state.connected &&
               r.state.outbox == s.outbox + [TrimSpace(XmlHeader), TrimSpace(StreamRestart(c.host))]) &&
            (!c.env.tlsHandshake ==> r == Raise(s, ServerFailed))
  {
  }

  /** `success` restarts the stream and sets SUCCESS. */
  lemma SuccessRestarts(c: Config, s: State, o: Occurrence)
    requires s.connected
    ensures var r := AuthStep(c, s, "success", o);
            r.AwaitReply? && r.state.negotiation == Success &&
            r.state.outbox == s.outbox + [TrimSpace(StreamRestart(c.host))]
  {
  }

  /** The first stream header starts the negotiation and goes on only when mechanisms are
      offered; any later one leaves the negotiation alone and needs features. */
  lemma HeaderBranches(s: State, o: Occurrence, features: Option<Tree>)
    ensures var r := HeaderStep(s, o, features);
            r.state.streamId == Attr(o, "id") &&
            (s.streamId.None? ==>
               r.state.negotiation == Started &&
               (r.Respond? <==> features.Some? && OffersMechanisms(features.value)) &&
               (!r.Respond? ==> r.Return?)) &&
            (s.streamId.Some? ==>
               r.state.negotiation == s.negotiation &&
               (features.None? ==> r.Raise? && r.error == TypeError) &&
               (features.Some? && features.value.entries == [] ==> r.Raise? && r.error == NoFeatures) &&
               (features.Some? && features.value.entries != [] ==> r.Respond? && r.tree == features.value))
  {
  }

  // IQ handlers.

  /** `bind_1` records the bound JID and asks for a session when one is required; a text
      body on the IQ or on its `bind` child raises TypeError before anything changes. */
  lemma BindRecordsJid(c: Config, s: State, o: Occurrence)
    ensures var r := QueryStep(c, s, "bind_1", o);
            (BindUnreadable(o) ==> r == Raise(s, TypeError)) &&
            (!BindUnreadable(o) ==>
               r.state.jabberId == BoundJid(o) && r.state.events[|s.events|] == LoggedIn &&
               (!s.session ==> r == Return(Log(s.(jabberId := BoundJid(o)), LoggedIn))) &&
               (s.session && s.connected ==>
                  r == AwaitReply(Emit(Log(s.(jabberId := BoundJid(o)), LoggedIn), SessionRequest(c.host)))))
  {
  }

  /** `reg_2` announces the registration unless the IQ carries an error. */
  lemma RegistrationResult(c: Config, s: State, o: Occurrence)
    ensures QueryStep(c, s, "reg_2", o) == Return(if HasChild(o, "error") then s else Log(s, Registered))
  {
  }

  /** The roster key of an item: its `jid`, "" when missing. */
  function ItemKey(item: Occurrence): string {
    Attr(item, "jid").GetOr("")
  }

  /** The roster holds each JID once, keys in the order they first appear. */
  lemma {:induction false} RosterUnique(items: seq<Occurrence>)
    ensures UniqueKeys(RosterOf(items))
    decreases |items|
  {
    if items != [] {
      var n := |items| - 1;
      RosterUnique(items[..n]);
      UniqueKeysSet(RosterOf(items[..n]), ItemKey(items[n]), Attr(items[n], "subscription"));
    }
  }

  /** The roster keys of the items, in order. */
  function ItemKeys(items: seq<Occurrence>): (r: seq<string>)
    ensures |r| == |items| && forall i :: 0 <= i < |items| ==> r[i] == ItemKey(items[i])
  {
    seq(|items|, i requires 0 <= i < |items| => ItemKey(items[i]))
  }

  /** A JID is in the roster exactly when some item carries it. */
  lemma {:induction false} RosterHas(items: seq<Occurrence>, k: string)
    ensures Has(RosterOf(items), k) <==> k in ItemKeys(items)
    decreases |items|
  {
    if items != [] {
      var n := |items| - 1;
      RosterHas(items[..n], k);
      KeysSet(RosterOf(items[..n]), ItemKey(items[n]), Attr(items[n], "subscription"));
      assert ItemKeys(items) == ItemKeys(items[..n]) + [ItemKey(items[n])];
    }
  }

  /** Each JID maps to the subscription of the last item that carries it. */
  lemma {:induction false} RosterLastWins(items: seq<Occurrence>, i: nat)
    requires i < |items|
    requires forall j :: i < j < |items| ==> ItemKey(items[j]) != ItemKey(items[i])
    ensures Get(RosterOf(items), ItemKey(items[i])) == Some(Attr(items[i], "subscription"))
    decreases |items|
  {
    var n := |items| - 1;
    var m := RosterOf(items[..n]);
    if i == n {
      GetSetSame(m, ItemKey(items[n]), Attr(items[n], "subscription"));
    } else {
      GetSetOther(m, ItemKey(items[n]), Attr(items[n], "subscription"), ItemKey(items[i]));
      RosterLastWins(items[..n], i);
    }
  }

  /** A roster push is announced when its first item asks; a subscription request from a JID
      that `user@domain` does not contain raises on the undefined constant. */
  lemma PushGuard(c: Config, s: State, o: Occurrence)
    ensures var r := QueryStep(c, s, "push", o);
            var items := Items(o);
            (|items| == 0 || Attr(items[0], "ask").None? ==> r == Return(s)) &&
            (|items| > 0 && Attr(items[0], "ask").Some? ==>
               var ask := Attr(items[0], "ask").value;
               var jid := Attr(items[0], "jid");
               (ask == "subscribe" && !Contains(c.user + "@" + c.domain, jid.GetOr("")) ==> r == Raise(s, UndefinedConstant)) &&
               (ask != "subscribe" || Contains(c.user + "@" + c.domain, jid.GetOr("")) ==>
                  r == Return(Log(s, Subscribe(ask, jid)))))
  {
  }

  // The dispatcher.

  /** `null` and an empty array are no-ops. */
  lemma NothingToDispatch(c: Config, s: State)
    ensures Response(c, s, None) == Run(s, None)
    ensures Response(c, s, Some(Tree([]))) == Run(s, None)
  {
    assert Dispatch(c, s, Tree([])) == DispatchEntries(c, s, [], 0);
  }

  lemma {:induction false} EntriesShift(c: Config, s: State, p: seq<Entry>, q: seq<Entry>, j: nat)
    requires j <= |q|
    ensures DispatchEntries(c, s, p + q, |p| + j) == DispatchEntries(c, s, q, j)
    decreases |q| - j
  {
    if j < |q| {
      assert (p + q)[|p| + j] == q[j];
      var r := DispatchEntry(c, s, q[j]);
      if r.error.None? {
        EntriesShift(c, r.state, p, q, j + 1);
      }
    }
  }

  lemma {:induction false} EntriesConcat(c: Config, s: State, a: seq<Entry>, b: seq<Entry>, i: nat)
    requires i <= |a|
    ensures DispatchEntries(c, s, a + b, i) ==
            var r := DispatchEntries(c, s, a, i);
            if r.error.Some? then r else DispatchEntries(c, r.state, b, 0)
    decreases |a| - i
  {
    if i == |a| {
      EntriesShift(c, s, a, b, 0);
    } else {
      assert (a + b)[i] == a[i];
      var r := DispatchEntry(c, s, a[i]);
      if r.error.None? {
        EntriesConcat(c, r.state, a, b, i + 1);
      }
    }
  }

  /** Several tags are handled one after the other, in order, and an exception stops the rest. */
  lemma DispatchInOrder(c: Config, s: State, a: seq<Entry>, b: seq<Entry>)
    ensures Dispatch(c, s, Tree(a + b)) ==
            var r := Dispatch(c, s, Tree(a));
            if r.error.Some? then r else Dispatch(c, r.state, Tree(b))
  {
    EntriesConcat(c, s, a, b, 0);
  }

  lemma {:induction false} OccsShift(c: Config, s: State, tag: string, p: seq<Occurrence>, q: seq<Occurrence>, j: nat)
    requires j <= |q|
    ensures DispatchOccs(c, s, tag, p + q, |p| + j) == DispatchOccs(c, s, tag, q, j)
    decreases |q| - j
  {
    if j < |q| {
      assert (p + q)[|p| + j] == q[j];
      var r := DispatchOcc(c, s, tag, q[j]);
      if r.error.None? {
        OccsShift(c, r.state, tag, p, q, j + 1);
      }
    }
  }

  lemma {:induction false} OccsConcat(c: Config, s: State, tag: string, a: seq<Occurrence>, b: seq<Occurrence>, i: nat)
    requires i <= |a|
    ensures DispatchOccs(c, s, tag, a + b, i) ==
            var r := DispatchOccs(c, s, tag, a, i);
            if r.error.Some? then r else DispatchOccs(c, r.state, tag, b, 0)
    decreases |a| - i
  {
    if i == |a| {
      OccsShift(c, s, tag, a, b, 0);
    } else {
      assert (a + b)[i] == a[i];
      var r := DispatchOcc(c, s, tag, a[i]);
      if r.error.None? {
        OccsConcat(c, r.state, tag, a, b, i + 1);
      }
    }
  }

  /** A tag with a single occurrence is handled as that element. */
  lemma SingleOccurrence(c: Config, s: State, tag: string, o: Occurrence)
    ensures DispatchEntry(c, s, Group(tag, [o])) == DispatchOcc(c, s, tag, o)
  {
    var r := DispatchOcc(c, s, tag, o);
    assert DispatchOccs(c, r.state, tag, [o], 1) == Run(r.state, None);
  }

  /** The occurrences of one tag are handled one after the other, in order. */
  lemma OccurrencesInOrder(c: Config, s: State, tag: string, a: seq<Occurrence>, b: seq<Occurrence>)
    ensures DispatchEntry(c, s, Group(tag, a + b)) ==
            var r := DispatchEntry(c, s, Group(tag, a));
            if r.error.Some? then r else DispatchEntry(c, r.state, Group(tag, b))
  {
    OccsConcat(c, s, tag, a, b, 0);
  }

  /** Only authentication stanzas, IQs with an id and messages with a body do anything. */
  lemma IgnoredStanzas(c: Config, s: State, tag: string, o: Occurrence)
    ensures tag == "iq" && Attr(o, "id").None? ==> DispatchOcc(c, s, tag, o) == Run(s, None)
    ensures tag == "message" && !HasChild(o, "body") ==> DispatchOcc(c, s, tag, o) == Run(s, None)
    ensures tag !in AuthTags && tag != "iq" && tag != "message" ==> DispatchOcc(c, s, tag, o) == Run(s, None)
  {
  }

  /** A message with a body is announced with its parts, flagged as fishing exactly when its
      `to` differs from the bound JID. */
  lemma MessageAnnounced(c: Config, s: State, o: Occurrence)
    requires HasChild(o, "body")
    ensures var r := DispatchOcc(c, s, "message", o);
            r.error.None? && |r.state.events| == |s.events| + 1 &&
            var e := r.state.events[|s.events|];
            e.Message? && e.from == Attr(o, "from") && e.body == ChildText(o, "body") &&
            e.subject == ChildText(o, "subject") && e.thread == ChildText(o, "thread") &&
            (e.fishing <==> Attr(o, "to").GetOr("") != s.jabberId.GetOr(""))
  {
  }

  // The public operations.

  /** The texts as `send` writes them. */
  function Trimmed(xs: seq<string>): (r: seq<string>)
    ensures |r| == |xs| && forall i :: 0 <= i < |xs| ==> r[i] == TrimSpace(xs[i])
  {
    seq(|xs|, i requires 0 <= i < |xs| => TrimSpace(xs[i]))
  }

  /** Two steps that each change only the outbox and the events change only those. */
  lemma OnlyOutputTrans(a: State, b: State, c: State)
    requires b.(outbox := a.outbox, events := a.events) == a
    requires c.(outbox := b.outbox, events := b.events) == b
    ensures c.(outbox := a.outbox, events := a.events) == a
  {
  }

  lemma TrimmedCons(xs: seq<string>)
    requires xs != []
    ensures Trimmed(xs) == [TrimSpace(xs[0])] + Trimmed(xs[1..])
  {
  }

  /** On an open connection the first text goes out, then the rest. */
  lemma SendAllStep(s: State, xs: seq<string>)
    requires s.connected && xs != []
    ensures SendAll(s, xs) == SendAll(Emit(s, xs[0]), xs[1..])
  {
    assert Send(s, xs[0]) == Run(Emit(s, xs[0]), None);
  }

  /** On an open connection every text goes out, in order. */
  lemma {:induction false} SendAllOutbox(s: State, xs: seq<string>)
    requires s.connected
    ensures SendAll(s, xs).error.None? && SendAll(s, xs).state.outbox == s.outbox + Trimmed(xs)
    decreases |xs|
  {
    if xs != [] {
      var s1 := Emit(s, xs[0]);
      SendAllStep(s, xs);
      SendAllOutbox(s1, xs[1..]);
      var t, ts := TrimSpace(xs[0]), Trimmed(xs[1..]);
      TrimmedCons(xs);
      assert s1.outbox + ts == s.outbox + ([t] + ts);
    }
  }

  /** Sending changes nothing but the outbox and the events. */
  lemma {:induction false} SendAllFrame(s: State, xs: seq<string>)
    requires s.connected
    ensures SendAll(s, xs).state.(outbox := s.outbox, events := s.events) == s
    decreases |xs|
  {
    if xs != [] {
      var s1 := Emit(s, xs[0]);
      SendAllStep(s, xs);
      SendAllFrame(s1, xs[1..]);
      OnlyOutputTrans(s, s1, SendAll(s1, xs[1..]).state);
    }
  }

  /** On an open connection every text goes out in order; on a closed one nothing does. */
  lemma SendAllSends(s: State, xs: seq<string>)
    ensures var r := SendAll(s, xs);
            (s.connected ==> r.error.None? && r.state.outbox == s.outbox + Trimmed(xs) &&
                             r.state.(outbox := s.outbox, events := s.events) == s) &&
            (!s.connected && xs != [] ==> r == Run(s, Some(NotConnected)))
  {
    if s.connected {
      SendAllOutbox(s, xs);
      SendAllFrame(s, xs);
    }
  }

  /** `subscribeTo` sends the roster item first; with a bound JID the `subscribe` presences
      follow, and without one it raises NO_JID after the item has gone out. */
  lemma SubscribeToSends(s: State, to: Recipients, message: Option<string>)
    ensures var r := SubscribeTo(s, to, message);
            var item := TrimSpace(RosterAdd(RecipientsText(to)));
            (!s.connected ==> r == Run(s, Some(NotConnected))) &&
            (s.connected && s.jabberId.None? ==>
               r.error == Some(NoJid) && r.state.outbox == s.outbox + [item]) &&
            (s.connected && s.jabberId.Some? ==>
               r.error.None? &&
               r.state.outbox == s.outbox + [item] +
                                 Trimmed(PresenceStanzas(s.jabberId.value, to, message, Some("subscribe"), None)))
  {
    if s.connected && s.jabberId.Some? {
      var s1 := Emit(s, RosterAdd(RecipientsText(to)));
      SendAllOutbox(s1, PresenceStanzas(s.jabberId.value, to, message, Some("subscribe"), None));
    }
  }

  /** Presence needs a bound JID; with one, a stanza per recipient goes out in order. */
  lemma PresenceSent(s: State, to: Recipients, message: Option<string>, kind: Option<string>, show: Option<string>)
    ensures var r := SetPresence(s, to, message, kind, show);
            (s.jabberId.None? ==> r == Run(s, Some(NoJid))) &&
            (s.jabberId.Some? && s.connected ==>
               r.error.None? &&
               r.state.outbox == s.outbox + Trimmed(PresenceStanzas(s.jabberId.value, to, message, kind, show)))
  {
    if s.jabberId.Some? {
      SendAllSends(s, PresenceStanzas(s.jabberId.value, to, message, kind, show));
    }
  }

  /** A message needs a bound JID; with one it goes out from that JID. */
  lemma MessageSent(s: State, to: string, text: string, subject: Option<string>, thread: Option<string>, id: string)
    ensures var r := SendMessage(s, to, text, subject, thread, id);
            (s.jabberId.None? ==> r == Run(s, Some(NoJid))) &&
            (s.jabberId.Some? && s.connected ==>
               r == Run(Emit(s, MessageStanza(s.jabberId.value, to, text, subject, thread, id)), None))
  {
  }

  /** Opening the socket sends the XML declaration and the stream header, then announces
      the connection; nothing is read. */
  lemma OpenedSends(c: Config, s: State)
    ensures var r := Opened(c, s);
            r.connected && r.inbox == s.inbox &&
            r.outbox == s.outbox + [TrimSpace(XmlHeader), TrimSpace(StreamOpen(c.host))] &&
            r.events == s.events + [Sent(TrimSpace(XmlHeader)), Sent(TrimSpace(StreamOpen(c.host))), Connected]
  {
    var a, b := TrimSpace(XmlHeader), TrimSpace(StreamOpen(c.host));
    var s1 := Emit(s.(connected := true), XmlHeader);
    var s2 := Emit(s1, StreamOpen(c.host));
    assert s2.connected && s2.inbox == s.inbox;
    assert s2.outbox == s.outbox + [a] + [b];
    assert s2.events == s.events + [Sent(a)] + [Sent(b)];
  }

  /** `connect` does nothing when connected; otherwise the XML declaration and the stream
      header are the first texts it sends, whatever the server answers. */
  lemma ConnectOpensStream(c: Config, s: State)
    ensures s.connected ==> Connect(c, s) == Run(s, None)
    ensures !s.connected ==>
              var out := Connect(c, s).state.outbox;
              s.outbox + [TrimSpace(XmlHeader), TrimSpace(StreamOpen(c.host))] <= out
  {
    if !s.connected {
      var s1 := Opened(c, s);
      OpenedSends(c, s);
      assert Connect(c, s) == Follow(c, |s1.inbox|, Outside, AwaitReply(s1));
    }
  }

  /** Whatever the server sends and however the handlers end, texts already sent stay sent,
      announced events stay announced, and an open connection is only closed by a handler
      that raises. */
  lemma HandlersKeep(c: Config, s: State, x: Option<Tree>)
    ensures var r := Response(c, s, x);
            s.outbox <= r.state.outbox && s.events <= r.state.events &&
            (s.connected && r.error.None? ==> r.state.connected)
  {
  }
}
