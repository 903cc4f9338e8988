# Eden Jabber client, modelled in Dafny

This project models `Eden\Jabber\Base`, a small XMPP (Jabber) client written in PHP. The client:

- opens a stream to a server;
- negotiates authentication (STARTTLS, SASL DIGEST-MD5, PLAIN or ANONYMOUS);
- binds a resource and opens a session;
- sends presence, messages and roster requests;
- turns every stanza the server sends into an event (`trigger`).

The model has two layers.

- **The engine.** Pure functions over a `State` value:
  - what has been sent (`outbox`);
  - what has been announced (`events`);
  - what the server will still deliver (`inbox`, one entry per `wait()` read);
  - the negotiation stage, the JID, the stream id, the session flag and the resource.
- **The class.** `Jabber.Base` keeps the fields of the PHP object and updates them in place.
  - Each method is proved to leave the object exactly in the state that its engine function computes from the old state.
  - Each method raises exactly the exception that function computes.

Each PHP exception is an `Error` value returned beside the state. The class methods return it as `err`.

Modules, one per concern:

| module | file | what it holds |
|---|---|---|
| `Wrappers` | wrappers.dfy | `Option` |
| `Php` | php.dfy | `trim`, `strpos` on one character and on a string needle (`Contains`), `explode`/`implode`, `strtolower`, truthiness, `htmlspecialchars` |
| `OrderedMap` | ordered_map.dfy | PHP's string-keyed arrays, which keep insertion order |
| `XmlTree` | xml_tree.dfy | `getDepth` and `parseXml`, over the token list `xml_parse_into_struct` yields |
| `Sasl` | sasl.dfy | `parseData`, `implodeData`, the DIGEST-MD5 reply and `encryptPass` (RFC 2831) |
| `Stanzas` | stanzas.dfy | the presence and message templates |
| `Protocol` | protocol.dfy | the engine: `send`, `wait`, `disconnect`, `response`, `authenticate`, `query` and the public operations |
| `ProtocolFacts` | protocol_facts.dfy | lemmas about the engine |
| `Jabber` | client.dfy | class `Base` |

`response`, `authenticate` and `query` call one another through `wait()`. The engine's step functions return a `Step`:

- return;
- raise an exception;
- dispatch a tree already at hand;
- wait for the next delivery and dispatch it.

`Protocol.Follow` carries out a step. Recursion ends because every wait consumes one delivery from `inbox`, and every inline dispatch descends into a smaller tree.

Things outside the program are parameters of the `Env` value the constructor receives:

- the crypto primitives (`md5`, `pack('H32')`, base64);
- the XML tokenizer;
- whether the openssl functions exist;
- whether the TLS handshake succeeds;
- the value the cnonce is derived from.

## Model

| member | source | states |
|---|---|---|
| Php.LTrim | Base.php:356 | the result of trimming the left of a string is never longer than the string and does not start with a trimmed character |
| Php.RTrim | Base.php:356 | the result of trimming the right of a string is never longer than the string and does not end with a trimmed character |
| Php.LTrimDropsPrefix | Base.php:356 | trimming the left removes exactly a prefix, and every removed character is one of the trimmed characters |
| Php.RTrimDropsSuffix | Base.php:356 | trimming the right removes exactly a suffix, and every removed character is one of the trimmed characters |
| Php.TrimSpace | Base.php:356 | the definition of `trim($s)`: `RTrim` of `LTrim` over the default white space; `LTrimDropsPrefix`, `RTrimDropsSuffix` and `TrimUnchanged` prove its properties |
| Php.Lower | Base.php:458 | `strtolower` keeps the length and lowers each character in place |
| Php.Truthy | Base.php:473-480 | the definition of PHP's truthiness of a string or `null`; `Stanzas.StatusElement` and `Stanzas.MessageType` state what depends on it |
| Php.IndexOf | Base.php:188 | the first position of a character is absent exactly when the character does not occur |
| Php.Contains | Base.php:846 | the definition of `strpos($hay, $needle) !== false`, also used at line 1148; `ContainsSlice` proves it against a plain definition |
| Php.ContainsSlice | Base.php:846 | `needle` is found exactly when it is a slice of `hay` at some position |
| Php.Split | Base.php:189 | `explode` on a character always gives at least one piece |
| Php.SplitJoin | Base.php:1184 | splitting what `implode` joined gives back the pieces, when no piece holds the delimiter |
| Php.JoinSplit | Base.php:1061 | `implode` of what `explode` split gives back the string |
| Php.Join | Base.php:1061 | the definition of `implode`; `Php.SplitJoin` and `Php.JoinSplit` prove it inverse to `explode` |
| Php.UnescapeEscape | Base.php:475 | `htmlspecialchars` is undone by decoding its entities, so the escaped text determines the text |
| Php.EscapeHtml | Base.php:475 | the definition of `htmlspecialchars` with ENT_QUOTES, one character at a time; `UnescapeEscape`, `EscapeHasNoMarkup` and `EscapeAmpersandsAreEntities` prove its properties |
| Php.EscapeHasNoMarkup | Base.php:637-642 | an escaped text holds no `<`, `>`, `"` or `'` |
| Php.EscapeAmpersandsAreEntities | Base.php:637-642 | every `&` in an escaped text begins one of the five entities `&amp;`, `&lt;`, `&gt;`, `&quot;`, `&#039;` |
| OrderedMap.Find | Base.php:1133 | a key has no index exactly when it is not among the keys |
| OrderedMap.Get | Base.php:1133 | a lookup finds a value exactly when the key is present |
| OrderedMap.GetSetSame | Base.php:1133 | after storing under a key, reading that key gives the stored value |
| OrderedMap.Set | Base.php:1133 | the definition of assigning `$a[$k] = $v` to an ordered array; `OrderedMap.GetSetSame`, `OrderedMap.GetSetOther`, `OrderedMap.KeysSet` and `OrderedMap.UniqueKeysSet` prove its properties |
| OrderedMap.GetSetOther | Base.php:1133 | storing under one key leaves every other key's value unchanged |
| OrderedMap.KeysSet | Base.php:1133 | overwriting a present key keeps the key order; a new key goes last |
| OrderedMap.UniqueKeysSet | Base.php:1133 | storing keeps every key unique |
| XmlTree.OccsPut | Base.php:1010-1017 | a new occurrence of a tag is appended to that tag's list, and other tags are untouched |
| XmlTree.TextsPush | Base.php:1021-1023 | a text node is appended to the text nodes |
| XmlTree.OccsPush | Base.php:1021-1023 | a text node leaves every tag's occurrences untouched |
| XmlTree.GetDepth | Base.php:996-1044 | the loop builds the children and stops at the index that the specification function `Depth` gives |
| XmlTree.Depth | Base.php:996-1044 | the recursive definition of `getDepth`: the index it stops at lies past its start and, inside the tokens, is a `close`; `LevelBalanced`, `DepthBalanced` and `SiblingsAccumulate` prove what it builds |
| XmlTree.LevelFill | Base.php:1007-1041 | the children built from index `j` on are the siblings met from `j`, added in order |
| XmlTree.SiblingsAccumulate | Base.php:1010-1033 | the occurrences under a tag are exactly that tag's siblings in token order, and the text nodes are the text siblings |
| XmlTree.SiblingStoredAtCount | Base.php:1011-1017 | the n-th sibling is stored at the index equal to the count of earlier siblings with its tag, so no occurrence overwrites another |
| XmlTree.LevelBalanced | Base.php:1007-1041 | the loop stops on a `close` that balances every level opened since it started |
| XmlTree.DepthBalanced | Base.php:996-1044 | an `open` token's subtree ends at its matching `close`, and every level opened inside it closes before it |
| XmlTree.Wrapped | Base.php:1219-1225 | the trimmed text is wrapped in `<root>` unless it starts with `<?xml` |
| XmlTree.Parsed | Base.php:1212-1250 | a fragment parses to the children of the synthetic `root`; a document parses to one element named by its first token, carrying that token's attributes (an empty map when it has none) and the children that `Depth` builds from the token list |
| XmlTree.ParseXml | Base.php:1212-1250 | the method computes `Parsed` |
| XmlTree.FragmentTopLevel | Base.php:1236-1247 | the top-level occurrences of a fragment under a tag are the tag's siblings inside `root`, in order |
| Sasl.StepAssignment | Base.php:1189-1193 | a piece with `=` past its first character stores the trimmed, unquoted value under the trimmed key |
| Sasl.StepContinuation | Base.php:1194-1197 | a piece ending in a quote is appended with a comma to the last key's value, when that key is truthy |
| Sasl.StepDropped | Base.php:1191-1198 | any other piece is ignored |
| Sasl.ParseData | Base.php:1179-1202 | the loop computes `ParseFields` |
| Sasl.ParseFields | Base.php:1179-1202 | the definition of `parseData`; `StepAssignment`, `StepContinuation`, `StepDropped` and `ParseRender` prove its properties |
| Sasl.ImplodeData | Base.php:1052-1062 | the loop computes `Render` |
| Sasl.Render | Base.php:1052-1062 | the definition of `implodeData`: the rendered pairs joined by commas; `RenderPairs` and `ParseRender` prove its properties |
| Sasl.RenderPairs | Base.php:1058-1060 | each pair is rendered `key="value"`, in order |
| Sasl.ParseRender | Base.php:1052-1062 | parsing what `implodeData` rendered gives back the table, for clean keys and values |
| Sasl.CanonicalQop | Base.php:846-848 | the qop becomes `auth` exactly when it contains `auth` |
| Sasl.AuthConfForced | Base.php:846-848 | `auth-conf` is replaced by `auth` |
| Sasl.Prepare | Base.php:833-838 | the cnonce is set, `digest-uri` defaults to `xmpp/host`, and every other field is unchanged |
| Sasl.FixQop | Base.php:846-848 | only the qop changes, and it becomes its canonical value |
| Sasl.ReplyKeys | Base.php:850-861 | the reply's keys are `username, response, charset, nc, qop`, then those of `nonce, digest-uri, realm, cnonce` the challenge holds |
| Sasl.ReplyFixedValues | Base.php:850-855 | the reply holds the user name, the response, `utf-8`, `00000001` and `auth` |
| Sasl.ReplyCopiedValues | Base.php:857-861 | every copied field has the challenge's value |
| Sasl.EncryptPassIsResponseValue | Base.php:948-988 | `encryptPass` computes the RFC 2831 response value over the table's fields |
| Sasl.EncryptPass | Base.php:948-988 | the definition of `encryptPass`; `EncryptPassIsResponseValue` and `EncryptPassRealmDefault` prove its properties |
| Sasl.EncryptPassRealmDefault | Base.php:953-957 | a missing realm counts as the empty realm |
| Sasl.ChallengeReplyResponse | Base.php:846-855 | the reply's response is computed with the canonical qop and `nc` 00000001 |
| Sasl.ChallengeReplyCopies | Base.php:855-861 | the reply copies nonce, digest-uri, realm and cnonce, and declares qop `auth` |
| Sasl.ChallengeReplyContents | Base.php:827-867 | for a challenge text: the response value, the cnonce sent, a digest-uri always present, and the copied fields |
| Sasl.RspauthAcknowledged | Base.php:841-842 | a challenge carrying `rspauth` is answered with an empty response |
| Sasl.AnswerChallenge | Base.php:827-869 | the definition of the answer to a challenge; `RspauthAcknowledged` and `ChallengeReplyContents` prove its properties |
| Stanzas.ShowElement | Base.php:458-460 | the show is present exactly when its lower-case form is a known presence, and then it is that lower-case form wrapped in `<show>` |
| Stanzas.ShowIgnoresCase | Base.php:458-460 | a show and its lower-case form give the same element |
| Stanzas.TypeAttr | Base.php:466-467 | the type attribute is present exactly when the type is one of the presence types, and then it is ` type="…"` holding that type |
| Stanzas.StatusElement | Base.php:473-480 | a status element is present exactly when the message is truthy |
| Stanzas.Addressed | Base.php:500-512 | one stanza per user, in order, each filled with that user's `to` attribute |
| Stanzas.PresenceStanzas | Base.php:451-512 | the definition of the stanzas `setPresence` builds; `PresenceStanzasPerRecipient`, `PresenceShape` and `StatusIsEscaped` prove their properties |
| Stanzas.PresenceStanzasPerRecipient | Base.php:488-512 | no recipient gives one unaddressed stanza; a single JID is the one-element list; a list gives one addressed stanza per JID |
| Stanzas.PresenceShape | Base.php:482-486 | every presence stanza starts with `<presence from="jid"`, and is self-closing exactly when it has neither show nor status |
| Stanzas.OnlineIsShown | Base.php:459-463 | `online` is sent as `<show>online</show>`, since the comparison at line 462 never holds once the show is wrapped |
| Stanzas.AvailableIsNoShow | Base.php:421-430 | `setOnline`'s `available` is no known show, so the stanza carries no show |
| Stanzas.StatusIsEscaped | Base.php:474-476 | the status text is escaped: it holds no markup and decodes back to the message |
| Stanzas.MessageType | Base.php:631-661 | the type is `normal` exactly when the thread is falsy and `chat` otherwise |
| Stanzas.MessageBodyIsEscaped | Base.php:637-659 | the body is the escaped text: it holds no markup and decodes back to the text |
| Stanzas.MessageStanza | Base.php:622-661 | the definition of the stanza `to` builds; `MessageType` and `MessageBodyIsEscaped` prove its properties |
| Protocol.Configure | Base.php:163-196 | host and password are kept; SSL and TLS need the openssl functions; a user without `@` keeps the host as domain; port 5222 becomes 5223 under SSL and every other port is kept as given |
| Protocol.Log | Base.php:358 | an event is appended and everything else is kept |
| Protocol.Emit | Base.php:356-361 | the trimmed text is sent and announced |
| Protocol.Send | Base.php:345-364 | `send` fails exactly when there is no connection; otherwise it emits the trimmed text |
| Protocol.Wait | Base.php:670-708 | `wait` fails exactly when there is no connection; otherwise it consumes one delivery; a non-empty delivery is announced as `received` and its tree is `Parsed` of that delivery, while an empty delivery or an empty queue gives `null` and announces nothing |
| Protocol.Disconnect | Base.php:275-303 | afterwards there is no connection; an open stream is closed with `</stream:stream>` and `disconnected` is announced |
| Protocol.Choose | Base.php:799-815 | the chosen mechanism is offered and acceptable and no acceptable offer is preferred to it; none is chosen exactly when none is acceptable |
| Protocol.MechanismList | Base.php:786-790 | no list exactly when the body is a text, on which the `foreach` raises TypeError; otherwise the names of the `mechanism` children, in order |
| Protocol.SaslMechanisms | Base.php:783-790 | mechanisms are offered exactly when a `mechanisms` child with the SASL namespace exists; the offer is unreadable exactly when that child's body is a text, and otherwise it is `MechanismList` of the child |
| Protocol.KeepsTrans | Base.php:719-916 | keeping sent texts, announced events and an open connection composes across two steps |
| Protocol.HeaderStep | Base.php:726-757 | the header step consumes nothing and keeps what was sent |
| Protocol.FeaturesStep | Base.php:759-825 | the features step keeps what was sent, and keeps the connection unless it raises |
| Protocol.SaslStep | Base.php:783-825 | the SASL branch of the features step keeps what was sent, and keeps the connection unless it raises; `ProtocolFacts.FeaturesSasl` states its branches |
| Protocol.ChallengeStep | Base.php:827-869 | the challenge step keeps what was sent, and keeps the connection unless it raises |
| Protocol.FailureStep | Base.php:871-878 | the failure step keeps what was sent |
| Protocol.ProceedStep | Base.php:880-900 | the proceed step keeps what was sent, and keeps the connection unless it raises |
| Protocol.SuccessStep | Base.php:902-912 | the success step keeps what was sent, and keeps the connection unless it raises |
| Protocol.PushStep | Base.php:1139-1164 | the push step keeps what was sent, and keeps the connection unless it raises |
| Protocol.QueryStep | Base.php:1071-1171 | every query branch keeps what was sent, and keeps the connection unless it raises |
| Protocol.Dispatch | Base.php:1272-1277 | dispatching a tree never adds deliveries, and keeps what was sent |
| Protocol.DispatchOcc | Base.php:1287-1331 | dispatching one stanza never adds deliveries, and keeps what was sent |
| Protocol.Response | Base.php:1258-1332 | `response` never adds deliveries, and keeps what was sent and the connection unless it raises |
| Protocol.Authenticate | Base.php:719-916 | `authenticate` never adds deliveries, and keeps what was sent and the connection unless it raises; the `ProtocolFacts` lemmas for each handler state its branches |
| ProtocolFacts.AccountSplit | Base.php:188-190 | a user name `u@d…` gives user `u` and domain `d` |
| ProtocolFacts.ChooseIgnoresOrder | Base.php:799-815 | the mechanism chosen does not depend on the order the server lists them in |
| ProtocolFacts.FeaturesAfterSuccess | Base.php:761-771 | after SASL success, features record the session flag and the resource is bound |
| ProtocolFacts.FeaturesStartTls | Base.php:774-778 | STARTTLS is requested when SSL is off, TLS is wanted and possible, and the server offers it |
| ProtocolFacts.FeaturesSasl | Base.php:783-825 | without SASL mechanisms: disconnect and NO_SASL; with a text body in place of the list: TypeError, with nothing sent and no disconnect; with none acceptable: disconnect and NO_AUTH_METHOD; otherwise the chosen `auth` is sent |
| ProtocolFacts.DigestWheneverOffered | Base.php:799-800 | DIGEST-MD5 is requested whenever it is offered, wherever it stands in the list |
| ProtocolFacts.RefusalDisconnects | Base.php:809-824 | both refusals close the connection, sending the closing tag if it was open |
| ProtocolFacts.ChallengeAnswered | Base.php:827-869 | a challenge sets CHALLENGE and is answered with the computed response; an element body cannot be decoded |
| ProtocolFacts.FailureDisconnects | Base.php:871-878 | a failure sets FAILURE, announces it, disconnects and raises SERVER_FAILED |
| ProtocolFacts.ProceedRestarts | Base.php:880-900 | after a successful handshake, PROCEED is set and a new stream is opened; a failed handshake raises SERVER_FAILED |
| ProtocolFacts.SuccessRestarts | Base.php:902-912 | success sets SUCCESS and restarts the stream |
| ProtocolFacts.HeaderBranches | Base.php:726-757 | the stream id is recorded; the first header starts negotiation and goes on only when mechanisms are offered; a later header needs non-empty features |
| ProtocolFacts.BindRecordsJid | Base.php:1079-1092 | a text body on the IQ or its `bind` child raises TypeError before anything changes; otherwise binding records the JID, announces `loggedin`, and requests a session only when one is required |
| Protocol.BindStep | Base.php:1079-1092 | binding keeps what was sent, and keeps the connection unless it raises; `ProtocolFacts.BindRecordsJid` states its branches |
| ProtocolFacts.RegistrationResult | Base.php:1107-1116 | registration is announced unless the reply holds an error |
| ProtocolFacts.RosterUnique | Base.php:1129-1134 | the roster holds each JID once |
| Protocol.RosterOf | Base.php:1129-1134 | the definition of the roster table; `RosterUnique`, `RosterHas` and `RosterLastWins` prove its properties |
| ProtocolFacts.RosterHas | Base.php:1129-1134 | a JID is in the roster exactly when some item carries it |
| ProtocolFacts.RosterLastWins | Base.php:1130-1133 | a JID's subscription is the one of its last item |
| ProtocolFacts.PushGuard | Base.php:1139-1164 | a push without `ask` is ignored; a subscription from a foreign JID fails on `self::ONLINE`; otherwise `subscribe` is announced |
| ProtocolFacts.NothingToDispatch | Base.php:1265-1268 | `null` or an empty tree changes nothing |
| ProtocolFacts.DispatchInOrder | Base.php:1272-1277 | the top-level entries are dispatched in order, stopping at the first exception |
| ProtocolFacts.SingleOccurrence | Base.php:1280-1287 | a tag with one occurrence is dispatched as that occurrence |
| Protocol.DispatchEntry | Base.php:1280-1285 | the definition of the loop over one tag's occurrences; `ProtocolFacts.SingleOccurrence` and `ProtocolFacts.OccurrencesInOrder` prove its properties |
| ProtocolFacts.OccurrencesInOrder | Base.php:1280-1284 | the occurrences of a tag are dispatched in order, stopping at the first exception |
| ProtocolFacts.IgnoredStanzas | Base.php:1293-1308 | an `iq` without id, a `message` without body and an unknown tag change nothing |
| ProtocolFacts.MessageAnnounced | Base.php:1304-1330 | a message with a body is announced once, with sender, body, subject, thread and whether it was addressed to someone else |
| Protocol.MessageStep | Base.php:1304-1330 | the definition of the `message` handler; `ProtocolFacts.MessageAnnounced` and `ProtocolFacts.IgnoredStanzas` prove its properties |
| ProtocolFacts.SendAllSends | Base.php:500-512 | while connected, every text is sent trimmed, in order, and nothing else changes; without a connection the first send fails |
| ProtocolFacts.SendAllOutbox | Base.php:500-512 | while connected, every send succeeds and the outbox grows by the trimmed texts, in order |
| ProtocolFacts.SendAllFrame | Base.php:500-512 | while connected, sending changes nothing but the outbox and the events |
| ProtocolFacts.PresenceSent | Base.php:439-515 | without a JID NO_JID is raised; otherwise the presence stanzas go out in order |
| Protocol.SetPresence | Base.php:439-515 | the definition of `setPresence`; `ProtocolFacts.PresenceSent` proves its properties |
| ProtocolFacts.MessageSent | Base.php:614-662 | without a JID NO_JID is raised; otherwise the one message stanza goes out |
| Protocol.SendMessage | Base.php:614-662 | the definition of `to`; `ProtocolFacts.MessageSent` proves its properties |
| ProtocolFacts.SubscribeToSends | Base.php:588-603 | the roster item goes out first; with a JID the `subscribe` presences follow in order, without one NO_JID is raised after the item; without a connection nothing is sent |
| Protocol.SubscribeTo | Base.php:588-603 | the definition of `subscribeTo`; `ProtocolFacts.SubscribeToSends` proves its properties |
| ProtocolFacts.OpenedSends | Base.php:253-260 | opening sends the XML declaration and the stream header, then announces `connected` |
| Protocol.Opened | Base.php:253-260 | the definition of what an opened connection sends and announces; `ProtocolFacts.OpenedSends` proves it |
| ProtocolFacts.ConnectOpensStream | Base.php:206-268 | connecting twice does nothing; a first connect sends the declaration and the header before anything else |
| Protocol.Connect | Base.php:206-268 | the definition of `connect`; `ProtocolFacts.ConnectOpensStream` and `OpenedSends` prove its properties |
| ProtocolFacts.HandlersKeep | Base.php:1258-1332 | handling a delivery never unsends a text or unannounces an event, and an open connection stays open unless an exception is raised |
| Protocol.Follow | Base.php:777 | the definition of `return $this->response($this->wait())`; `ProtocolFacts.HandlersKeep` proves what it keeps |
| ProtocolFacts.Trimmed | Base.php:356 | each text is trimmed, in order |
| Jabber.Base.constructor | Base.php:163-196 | the fields are those `Configure` computes, and the state is the initial one |
| Jabber.Base.Trigger | Base.php:358 | one event is appended |
| Jabber.Base.Send | Base.php:345-364 | the object ends as `Protocol.Send` says |
| Jabber.Base.Wait | Base.php:670-708 | the object and the tree read are as `Protocol.Wait` says |
| Jabber.Base.Disconnect | Base.php:275-303 | the object ends as `Protocol.Disconnect` says |
| Jabber.Base.Dispatch | Base.php:1272-1277 | the loop over the entries ends as `Protocol.Dispatch` says |
| Jabber.Base.DispatchEntry | Base.php:1280-1284 | the loop over the occurrences ends as `Protocol.DispatchEntry` says |
| Jabber.Base.DispatchOcc | Base.php:1287-1331 | one stanza is handled as `Protocol.DispatchOcc` says |
| Jabber.Base.Response | Base.php:1258-1332 | `response` ends as `Protocol.Response` says |
| Jabber.Base.Authenticate | Base.php:719-916 | `authenticate` ends as `Protocol.Authenticate` says |
| Jabber.Base.OnHeader | Base.php:726-757 | the stream header is handled as `HeaderStep` says |
| Jabber.Base.Mechanisms | Base.php:786-790 | the loop collects `MechanismList` |
| Jabber.Base.OnFeatures | Base.php:759-825 | features are handled as `FeaturesStep` says |
| Jabber.Base.Authorize | Base.php:783-825 | the SASL branch of features is handled as `FeaturesStep` says |
| Jabber.Base.AuthFor | Base.php:799-815 | the `auth` request is the one for `Choose`'s mechanism, or none |
| Jabber.Base.OnChallenge | Base.php:827-869 | a challenge is handled as `ChallengeStep` says |
| Jabber.Base.Answer | Base.php:830-866 | the answer is `AnswerChallenge` of the challenge text |
| Jabber.Base.OnFailure | Base.php:871-878 | a failure is handled as `FailureStep` says |
| Jabber.Base.OnProceed | Base.php:880-900 | `proceed` is handled as `ProceedStep` says |
| Jabber.Base.OnSuccess | Base.php:902-912 | `success` is handled as `SuccessStep` says |
| Jabber.Base.Query | Base.php:1071-1171 | `query` ends as `QueryStep` says |
| Jabber.Base.OnBind | Base.php:1079-1092 | `bind_1` is handled as `BindStep` says |
| Jabber.Base.OnRoster | Base.php:1122-1137 | the loop builds `RosterOf` the items and announces it |
| Jabber.Base.OnPush | Base.php:1139-1164 | a push is handled as `PushStep` says |
| Jabber.Base.Connect | Base.php:206-268 | `connect` ends as `Protocol.Connect` says |
| Jabber.Base.Open | Base.php:253-260 | the opening texts are sent as `Opened` says |
| Jabber.Base.SetPresence | Base.php:439-515 | `setPresence` ends as `Protocol.SetPresence` says |
| Jabber.Base.SendAddressed | Base.php:500-512 | the loop sends the addressed stanzas as `SendAll` says |
| Jabber.Base.Probe | Base.php:332-337 | `probe` is `setPresence` to one JID with type `probe` |
| Jabber.Base.SetShow | Base.php:373-430 | `setAway`, `setDND`, `setOffline`, `setOnline` and `setXA` are `setPresence` with their show |
| Jabber.Base.To | Base.php:614-662 | `to` ends as `SendMessage` says |
| Jabber.Base.GetRoster | Base.php:537-544 | the roster request is sent as `Protocol.GetRoster` says |
| Protocol.GetRoster | Base.php:537-544 | the definition of `getRoster`; `Jabber.Base.GetRoster` states its effect |
| Jabber.Base.SubscribeTo | Base.php:588-603 | the roster item is sent, then a `subscribe` presence, as `Protocol.SubscribeTo` says |
| Jabber.Base.SetResource | Base.php:524-529 | the resource is set and nothing else changes |
| Protocol.SetResource | Base.php:524-529 | the definition of `setResource`; `Jabber.Base.SetResource` states its effect |

## Left out

- Sockets, DNS and the clock. Opening a connection (`fsockopen`), the SRV lookup (`dns_get_record`), blocking modes and timeouts are not modelled; `connected` stands for an open socket. Whatever the server sends is a parameter: `inbox` lists the texts consecutive `wait()` calls read.
- Connect failure: a failing `fsockopen` (CONNECTION_FAILED) is not modelled; the socket always opens.
- `wait`'s read loop. Its timeout and its end-of-element test are not modelled; each entry of `inbox` is one complete read.
- The XML tokenizer (`xml_parse_into_struct`) is the parameter `tokenize`. Case folding and white-space skipping are its concern.
- The crypto primitives (`md5`, `pack('H32')`, `base64_encode`, `base64_decode`) are parameters, because they are foreign code.
- The cnonce. It is derived from a fixed seed given with the configuration, not from `uniqid(mt_rand(), true)`, which is random.
- The message id. `uniqid('msg')` is the parameter `id` of `To`.
- The TLS handshake. Its outcome is a boolean of the configuration; the encrypted transport itself is not modelled.
- `canUseSSL` and `canUseTLS` are booleans of the configuration, since they probe the PHP installation.
- `start()` loops forever reading the socket, so the model has no counterpart for it; every delivery is handled by `response`, as `start` does.
- `getMeta` only returns the fields, and the model exposes them as `Snap()` and `Cfg()`.
- `$this->presence` is never assigned anywhere in the class, so the offline presence `disconnect` would send is never sent. The model leaves that branch out.
- The `Argument::i()->test(...)` type checks are not modelled, because their library (`Eden\Core\Argument`) is not part of this model. Where `wait()` hands `null` to `response` (lines 770, 777 and 1089), `response(null)` is taken as the no-op its own body describes (lines 1265-1268).
- Element-valued fields. A JID, body, subject or thread given as an element rather than text is taken as absent, where PHP would pass an array on.
- `sprintf` in the templates. A `%` in a presence field or JID is not modelled; the template is split at its one `%s` slot.
- PHP's loose comparison of numeric strings (`==` between `"1e1"` and `"10"`) is not modelled; texts compare as texts.

Where the code and its documentation differ, the model follows the code:

- a `qop` containing `auth` (also `auth-conf`) is forced to `auth`;
- a failed TLS handshake raises SERVER_FAILED and does not disconnect;
- NO_FEATURES does not disconnect;
- `online` is sent as a show, because the test at line 462 compares the wrapped value;
- `subscribeTo` formats its `$to` with `%s`: a list of JIDs becomes the text `Array`, as PHP 8 prints an array, and `null` the empty text;
- reading a string key of a text body outside `isset` raises a TypeError in PHP 8: the `foreach` over a SASL `mechanisms` child whose body is a text (line 788) raises it with nothing sent and the connection left open, and so does a `bind_1` IQ or `bind` child whose body is a text (line 1080), before the JID is written;
- a text at the top level of a dispatched tree is stored under a numeric key (line 1022) and reaches `sizeof` of a string at line 1281, which raises a TypeError in PHP 8; the model raises TypeError there and dispatch stops;
- `parseData` keeps only the first and last pieces of a quoted value that holds two or more commas.
