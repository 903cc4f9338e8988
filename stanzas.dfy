/** The stanzas the client writes on its own initiative: presence (`setPresence`) and chat
    messages (`to`). Both are built from fixed templates; the texts a user supplies are
    escaped with `htmlspecialchars`, except a message's thread and the JIDs of a presence. */
module Stanzas {

  import opened Wrappers
  import opened Php

  /** `self::$presences`: the values `show` may take. */
  const Presences: seq<string> := ["online", "chat", "offline", "dnd", "away", "xa"]

  /** `self::$presenceTypes`: the values `type` may take. `available` is not one of them. */
  const PresenceTypes: seq<string> := ["probe", "unavailable", "error", "subscribe", "subscribed", "unsubscribe", "unsubscribed"]

  /** `$show` once fixed: lower-cased (a `null` becomes ""), then wrapped in `<show>` when it
      is one of the known values and dropped otherwise. */
  function ShowElement(show: Option<string>): (r: Option<string>)
    ensures r.Some? <==> Lower(show.GetOr("")) in Presences
    ensures r.Some? ==> r.value == "<show>" + Lower(show.GetOr("")) + "</show>"
  {
    var v := Lower(show.GetOr(""));
    if v in Presences then Some("<show>" + v + "</show>") else None
  }

  /** The show value is matched without regard to case: `Away` gives the same element as `away`. */
  lemma {:induction false} ShowIgnoresCase(s: string)
    ensures ShowElement(Some(s)) == ShowElement(Some(Lower(s)))
  {
    var l := Lower(s);
    forall i | 0 <= i < |l| ensures Lower(l)[i] == l[i] {
      assert l[i] == LowerChar(s[i]);
    }
    assert Lower(l) == l;
  }

  /** `$type` once fixed: ` type="…"` for a known type, dropped otherwise. */
  function TypeAttr(kind: Option<string>): (r: string)
    ensures r != "" <==> kind.Some? && kind.value in PresenceTypes
    ensures r != "" ==> r == " type=\"" + kind.value + "\""
  {
    if kind.Some? && kind.value in PresenceTypes then " type=\"" + kind.value + "\"" else ""
  }

  /** `$message` once fixed: an escaped `<status>` for a truthy text, dropped otherwise. */
  function StatusElement(message: Option<string>): (r: Option<string>)
    ensures r.Some? <==> Truthy(message.GetOr(""))
  {
    if Truthy(message.GetOr("")) then Some("<status>" + EscapeHtml(message.value) + "</status>") else None
  }

  /** A format string with a single `%s` slot: the text before it and the text after it. */
  datatype Template = Template(head: string, tail: string) {
    /** `sprintf($template, $v)`. */
    function Fill(v: string): string {
      head + v + tail
    }
  }

  /** The presence template: self-closing unless there is a show or a status. */
  function PresenceTemplate(jid: string, kind: Option<string>, show: Option<string>, message: Option<string>): Template {
    var head := "<presence from=\"" + jid + "\"";
    var sh := ShowElement(show);
    var st := StatusElement(message);
    if sh.Some? || st.Some? then
      Template(head, TypeAttr(kind) + ">" + sh.GetOr("") + st.GetOr("") + "</presence>")
    else
      Template(head, TypeAttr(kind) + " />")
  }

  /** The `to` argument of `setPresence`: `null`, one JID, or a list of them. */
  datatype Recipients = Everyone | Single(jid: string) | List(jids: seq<string>)

  /** The slot value for one recipient: ` to="…"` for a truthy JID, nothing otherwise. */
  function RecipientAttr(user: string): string {
    if Truthy(user) then " to=\"" + user + "\"" else ""
  }

  /** The template filled in once for each recipient, in order. */
  function Addressed(t: Template, users: seq<string>): (r: seq<string>)
    ensures |r| == |users| && forall i :: 0 <= i < |users| ==> r[i] == t.head + RecipientAttr(users[i]) + t.tail
  {
    seq(|users|, i requires 0 <= i < |users| => t.Fill(RecipientAttr(users[i])))
  }

  /** The template filled in for each recipient of `to`, in order; filled in once, with no
      address, for everyone. */
  function Addressings(t: Template, to: Recipients): seq<string> {
    match to
    case Everyone => [t.Fill("")]
    case Single(u) => Addressed(t, [u])
    case List(us) => Addressed(t, us)
  }

  /** The stanzas `setPresence` sends, in order. */
  function PresenceStanzas(jid: string, to: Recipients, message: Option<string>, kind: Option<string>,
                           show: Option<string>): seq<string>
  {
    Addressings(PresenceTemplate(jid, kind, show, message), to)
  }

  /** One stanza per recipient, in the order given, each addressed to its recipient; without
      recipients a single unaddressed stanza. A single JID is the one-element list. */
  lemma PresenceStanzasPerRecipient(t: Template, to: Recipients)
    ensures var r := Addressings(t, to);
            match to
            case Everyone => r == [t.head + t.tail]
            case Single(u) => r == Addressings(t, List([u]))
            case List(us) => |r| == |us| && forall i :: 0 <= i < |us| ==> r[i] == t.head + RecipientAttr(us[i]) + t.tail
  {
    match to
    case Everyone => assert t.Fill("") == t.head + t.tail;
    case Single(u) =>
    case List(us) =>
  }

  /** Every presence stanza is `<presence from="jid"…`, and self-closing exactly when it carries
      neither a show nor a status. */
  lemma PresenceShape(jid: string, kind: Option<string>, show: Option<string>, message: Option<string>, slot: string)
    ensures var p := PresenceTemplate(jid, kind, show, message).Fill(slot);
            ("<presence from=\"" + jid + "\"" <= p) &&
            (|p| >= 3 && p[|p| - 3..] == " />" <==> ShowElement(show).None? && StatusElement(message).None?)
  {
    var t := PresenceTemplate(jid, kind, show, message);
    var p := t.Fill(slot);
    assert p == t.head + (slot + t.tail);
    if ShowElement(show).None? && StatusElement(message).None? {
      assert p[|p| - 3..] == " />";
    } else {
      var close := "</presence>";
      assert p[|p| - 3..] == close[8..];
      assert close[8] != ' ';
    }
  }

  /** `$show == 'online'` never holds once `$show` is wrapped, so `online` is sent as a show. */
  lemma OnlineIsShown()
    ensures ShowElement(Some("online")) == Some("<show>online</show>")
  {
    var v := Lower("online");
    assert v[0] == 'o' && v[1] == 'n' && v[2] == 'l' && v[3] == 'i' && v[4] == 'n' && v[5] == 'e';
    assert v == "online";
    assert Presences[0] == v;
    assert "<show>" + v + "</show>" == "<show>online</show>";
  }

  /** `setOnline` passes `available`, which is not a known show: the stanza has no show. */
  lemma AvailableIsNoShow()
    ensures ShowElement(Some("available")) == None
  {
    var v := Lower("available");
    assert v == "available";
    assert |v| == 9;
  }

  /** The user's status text reaches the stanza escaped, so it cannot end the element, and it
      decodes back to the text. */
  lemma StatusIsEscaped(message: string)
    requires Truthy(message)
    ensures var st := StatusElement(Some(message)).value;
            exists e :: st == "<status>" + e + "</status>" && UnescapeHtml(e) == message &&
                        forall i :: 0 <= i < |e| ==> !IsMarkup(e[i])
  {
    var e := EscapeHtml(message);
    UnescapeEscape(message);
    EscapeHasNoMarkup(message);
    assert StatusElement(Some(message)).value == "<status>" + e + "</status>";
  }

  /** The start of every message, up to the opening quote of its `type`. */
  function MessageOpening(from: string, to: string): string {
    "<message from=\"" + EscapeHtml(from) + "\" to=\"" + EscapeHtml(to) + "\" type=\""
  }

  /** The message type: `normal` for a falsy thread, `chat` otherwise. */
  function MessageKind(thread: Option<string>): string {
    if !Truthy(thread.GetOr("")) then "normal" else "chat"
  }

  /** The chat-state notifications namespace of XEP-0085. */
  const ChatStatesNamespace: string := "http://" + "jabber.org/" + "protocol/" + "chatstates"

  /** What follows the body: the end of the message, or, with a thread, the thread (not
      escaped) and a chat-state marker first. */
  function MessageTrailer(thread: Option<string>): string {
    if !Truthy(thread.GetOr("")) then "</message>"
    else "<thread>" + thread.value + "</thread>" + "<active xmlns=\"" + ChatStatesNamespace + "\" />" + "</message>"
  }

  /** Everything from the `type` value's closing quote up to the body. */
  function MessageFields(id: string, subject: Option<string>): string {
    "\" id=\"" + id + "\"><subject>" + EscapeHtml(subject.GetOr("")) + "</subject>"
  }

  /** The message `to` sends: the two templates differ in the type and in what follows the body. */
  function MessageStanza(from: string, to: string, text: string, subject: Option<string>, thread: Option<string>,
                         id: string): string
  {
    MessageOpening(from, to) + MessageKind(thread) + MessageRest(text, subject, thread, id)
  }

  /** Everything after the type value: the fields, the escaped body and the trailer. */
  function MessageRest(text: string, subject: Option<string>, thread: Option<string>, id: string): (r: string)
    ensures |r| > 0 && r[0] == '"'
  {
    MessageFields(id, subject) + BodyElement(text) + MessageTrailer(thread)
  }

  /** The `<body>` element: the text escaped. */
  function BodyElement(text: string): string {
    "<body>" + EscapeHtml(text) + "</body>"
  }

  /** A choice between two words that differ in their first letter, followed by a quote. */
  lemma KindPrefix(o: string, k: string, f: string, rest: string)
    requires k == "normal" || k == "chat"
    requires |f| > 0 && f[0] == '"'
    ensures o + "normal\"" <= o + k + f + rest <==> k == "normal"
    ensures o + "chat\"" <= o + k + f + rest <==> k == "chat"
  {
    var m := o + k + f + rest;
    var n := "normal\"";
    var c := "chat\"";
    assert m[|o|] == k[0];
    assert (o + n)[|o|] == 'n' && (o + c)[|o|] == 'c';
    assert m[..|o| + |k| + 1] == o + k + [f[0]];
  }

  /** The message type is `normal` exactly when the thread is falsy, `chat` otherwise. */
  lemma MessageType(from: string, to: string, text: string, subject: Option<string>, thread: Option<string>, id: string)
    ensures var m := MessageStanza(from, to, text, subject, thread, id);
            var o := MessageOpening(from, to);
            (o + "normal\"" <= m <==> !Truthy(thread.GetOr(""))) &&
            (o + "chat\"" <= m <==> Truthy(thread.GetOr("")))
  {
    KindPrefix(MessageOpening(from, to), MessageKind(thread), MessageRest(text, subject, thread, id), "");
  }

  /** Concatenation regroups freely. */
  lemma Regroup(a: string, b: string, c: string, d: string, e: string)
    ensures a + (b + c + d) + e == a + b + c + d + e
  {
  }

  /** The body of a message is its text escaped: it cannot break out of `<body>`, and it
      decodes back to the text. */
  lemma MessageBodyIsEscaped(from: string, to: string, text: string, subject: Option<string>, thread: Option<string>,
                             id: string)
    ensures var m := MessageStanza(from, to, text, subject, thread, id);
            exists p, q :: m == p + "<body>" + EscapeHtml(text) + "</body>" + q
    ensures UnescapeHtml(EscapeHtml(text)) == text
    ensures forall i :: 0 <= i < |EscapeHtml(text)| ==> !IsMarkup(EscapeHtml(text)[i])
  {
    var x := MessageOpening(from, to) + MessageKind(thread);
    var f := MessageFields(id, subject);
    var q := MessageTrailer(thread);
    var m := MessageStanza(from, to, text, subject, thread, id);
    assert m == (x + f) + BodyElement(text) + q by {
      Regroup(x, f, BodyElement(text), q, "");
    }
    assert (x + f) + BodyElement(text) + q == (x + f) + "<body>" + EscapeHtml(text) + "</body>" + q by {
      Regroup(x + f, "<body>", EscapeHtml(text), "</body>", q);
    }
    UnescapeEscape(text);
    EscapeHasNoMarkup(text);
  }
}
