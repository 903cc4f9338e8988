/** SASL DIGEST-MD5 as the client negotiates it (RFC 2831): the challenge is decoded into
    a field table (`parseData`), the reply table is assembled from it, its `response`
    value is computed (`encryptPass`, section 2.1.2.1 of RFC 2831) and the table is
    serialised back (`implodeData`). MD5, `pack('H32')` and base64 are uninterpreted. */
module Sasl {

  import opened Wrappers
  import opened Php
  import opened OrderedMap

  /** The digest and encoding primitives the client calls: `md5` (hex digest),
      `pack('H32', …)` (hex to raw octets), `base64_encode` and `base64_decode`. */
  datatype Crypto = Crypto(
    md5Hex: string -> string,
    packH32: string -> string,
    base64Encode: string -> string,
    base64Decode: string -> string)

  /** A field table of a challenge or a reply. */
  type Fields = Table<string>

  /** The variables of `parseData`'s loop: `$pairs` and `$key` (`false` is `None`). */
  datatype Scan = Scan(pairs: Fields, key: Option<string>)

  const Quote: set<char> := {'"'}

  /** `trim(trim($s), '"')`: whitespace, then surrounding double quotes, removed. */
  function Unquote(s: string): string {
    Trim(TrimSpace(s), Quote)
  }

  /** A piece of the form `key=value`: `=` occurs, and not first. */
  predicate IsAssignment(piece: string) {
    IndexOf(piece, '=').Some? && IndexOf(piece, '=').value > 0
  }

  /** A piece that continues the previous value: it ends in `"` once trimmed. */
  predicate IsContinuation(piece: string) {
    var t := TrimSpace(piece);
    |t| > 0 && t[|t| - 1] == '"'
  }

  /** The key an assignment piece defines. */
  function PieceKey(piece: string): string
    requires IsAssignment(piece)
  {
    TrimSpace(piece[..IndexOf(piece, '=').value])
  }

  /** The value an assignment piece assigns. */
  function PieceValue(piece: string): string
    requires IsAssignment(piece)
  {
    Unquote(piece[IndexOf(piece, '=').value + 1..])
  }

  /** One turn of `parseData`'s loop. */
  function StepPiece(st: Scan, piece: string): Scan {
    if IsAssignment(piece) then
      Scan(Set(st.pairs, PieceKey(piece), PieceValue(piece)), Some(PieceKey(piece)))
    else if IsContinuation(piece) && st.key.Some? && Truthy(st.key.value) then
      Scan(Set(st.pairs, st.key.value, Get(st.pairs, st.key.value).GetOr("") + "," + Unquote(piece)), st.key)
    else st
  }

  /** An assignment piece sets its key, and the later pieces continue that key. */
  lemma StepAssignment(st: Scan, piece: string, k': string)
    requires IsAssignment(piece)
    ensures StepPiece(st, piece).key == Some(PieceKey(piece))
    ensures Get(StepPiece(st, piece).pairs, PieceKey(piece)) == Some(PieceValue(piece))
    ensures k' != PieceKey(piece) ==> Get(StepPiece(st, piece).pairs, k') == Get(st.pairs, k')
  {
    GetSetSame(st.pairs, PieceKey(piece), PieceValue(piece));
    if k' != PieceKey(piece) {
      GetSetOther(st.pairs, PieceKey(piece), PieceValue(piece), k');
    }
  }

  /** A continuation piece, once a truthy key has been seen, appends `,` and the unquoted
      piece to that key's value. */
  lemma StepContinuation(st: Scan, piece: string, k': string)
    requires !IsAssignment(piece) && IsContinuation(piece) && st.key.Some? && Truthy(st.key.value)
    ensures StepPiece(st, piece).key == st.key
    ensures Get(StepPiece(st, piece).pairs, st.key.value) ==
            Some(Get(st.pairs, st.key.value).GetOr("") + "," + Unquote(piece))
    ensures k' != st.key.value ==> Get(StepPiece(st, piece).pairs, k') == Get(st.pairs, k')
  {
    var v := Get(st.pairs, st.key.value).GetOr("") + "," + Unquote(piece);
    GetSetSame(st.pairs, st.key.value, v);
    if k' != st.key.value {
      GetSetOther(st.pairs, st.key.value, v, k');
    }
  }

  /** Every other piece is dropped. */
  lemma StepDropped(st: Scan, piece: string)
    requires !IsAssignment(piece) && !(IsContinuation(piece) && st.key.Some? && Truthy(st.key.value))
    ensures StepPiece(st, piece) == st
  {
  }

  /** The loop over the remaining pieces. */
  function ScanPieces(st: Scan, pieces: seq<string>): Scan
    decreases |pieces|
  {
    if pieces == [] then st else ScanPieces(StepPiece(st, pieces[0]), pieces[1..])
  }

  lemma ScanPiecesStep(st: Scan, pieces: seq<string>)
    requires pieces != []
    ensures ScanPieces(st, pieces) == ScanPieces(StepPiece(st, pieces[0]), pieces[1..])
  {
  }

  /** `parseData($data)`: the field table of a decoded challenge. */
  function ParseFields(data: string): Fields {
    ScanPieces(Scan([], None), Split(data, ',')).pairs
  }

  /** `parseData`, with its loop. */
  method ParseData(data: string) returns (pairs: Fields)
    ensures pairs == ParseFields(data)
  {
    var pieces := Split(data, ',');
    pairs := [];
    var key: Option<string> := None;
    var n := 0;
    while n < |pieces|
      invariant 0 <= n <= |pieces|
      invariant ScanPieces(Scan(pairs, key), pieces[n..]) == ScanPieces(Scan([], None), pieces)
    {
      var piece := pieces[n];
      ghost var before := Scan(pairs, key);
      var dd := IndexOf(piece, '=');
      if dd.Some? && dd.value > 0 {
        var k := TrimSpace(piece[..dd.value]);
        key := Some(k);
        pairs := Set(pairs, k, Unquote(piece[dd.value + 1..]));
      } else if IsContinuation(piece) && key.Some? && Truthy(key.value) {
        pairs := Set(pairs, key.value, Get(pairs, key.value).GetOr("") + "," + Unquote(piece));
      }
      assert Scan(pairs, key) == StepPiece(before, piece);
      ScanPiecesStep(before, pieces[n..]);
      assert pieces[n..][1..] == pieces[n + 1..];
      n := n + 1;
    }
  }

  /** `key="value"`. */
  function RenderPair(p: Pair<string>): string {
    p.key + "=\"" + p.value + "\""
  }

  function RenderPairs(fs: Fields): (r: seq<string>)
    ensures |r| == |fs| && forall i :: 0 <= i < |fs| ==> r[i] == RenderPair(fs[i])
  {
    seq(|fs|, i requires 0 <= i < |fs| => RenderPair(fs[i]))
  }

  /** `implodeData($fs)`: the pairs `key="value"`, in table order, joined by commas. */
  function Render(fs: Fields): string {
    Join(RenderPairs(fs), ',')
  }

  /** `implodeData`, with its loop. */
  method ImplodeData(data: Fields) returns (r: string)
    ensures r == Render(data)
  {
    var parts: seq<string> := [];
    var n := 0;
    while n < |data|
      invariant 0 <= n <= |data|
      invariant parts == RenderPairs(data[..n])
    {
      parts := parts + [RenderPair(data[n])];
      n := n + 1;
    }
    assert data[..n] == data;
    r := Join(parts, ',');
  }

  /** A key `parseData` reads back as written: non-empty, with no `=` or `,`, and not
      starting or ending with whitespace. */
  predicate CleanKey(k: string) {
    |k| > 0 && '=' !in k && ',' !in k && k[0] !in Whitespace && k[|k| - 1] !in Whitespace
  }

  /** A value `parseData` reads back as written: no `,`, and not starting or ending with `"`. */
  predicate CleanValue(v: string) {
    ',' !in v && (v == [] || (v[0] != '"' && v[|v| - 1] != '"'))
  }

  predicate Clean(fs: Fields) {
    UniqueKeys(fs) && forall i :: 0 <= i < |fs| ==> CleanKey(fs[i].key) && CleanValue(fs[i].value)
  }

  lemma UnquoteQuoted(v: string)
    requires v == [] || (v[0] != '"' && v[|v| - 1] != '"')
    ensures Unquote("\"" + v + "\"") == v
  {
    var q := "\"" + v + "\"";
    assert q[0] == '"' && q[|q| - 1] == '"';
    TrimUnchanged(q, Whitespace);
    var tail := q[1..];
    assert tail == v + "\"";
    assert LTrim(q, Quote) == LTrim(tail, Quote);
    if v == [] {
      assert LTrim(tail, Quote) == LTrim(tail[1..], Quote);
      assert tail[1..] == [];
    } else {
      assert tail[0] == v[0];
      assert LTrim(tail, Quote) == tail;
      assert tail[..|tail| - 1] == v;
      assert RTrim(tail, Quote) == RTrim(v, Quote);
    }
  }

  /** A rendered pair is one assignment piece that gives back its key and value. */
  lemma PieceOfPair(p: Pair<string>)
    requires CleanKey(p.key) && CleanValue(p.value)
    ensures IsAssignment(RenderPair(p))
    ensures PieceKey(RenderPair(p)) == p.key && PieceValue(RenderPair(p)) == p.value
  {
    var s := RenderPair(p);
    assert s == p.key + ['='] + ("\"" + p.value + "\"");
    IndexOfFirst(p.key, '=', "\"" + p.value + "\"");
    assert s[..|p.key|] == p.key;
    assert s[|p.key| + 1..] == "\"" + p.value + "\"";
    TrimUnchanged(p.key, Whitespace);
    UnquoteQuoted(p.value);
  }

  lemma NoCommaInPair(p: Pair<string>)
    requires CleanKey(p.key) && CleanValue(p.value)
    ensures ',' !in RenderPair(p)
  {
  }

  /** `pieces` are assignment pieces defining, one by one, the pairs of `fs`. */
  predicate Assigns(pieces: seq<string>, fs: Fields)
    decreases |fs|
  {
    |pieces| == |fs| &&
    (fs == [] ||
     (IsAssignment(pieces[0]) && PieceKey(pieces[0]) == fs[0].key && PieceValue(pieces[0]) == fs[0].value &&
      Assigns(pieces[1..], fs[1..])))
  }

  /** The rendered pairs of a clean table are assignments of its pairs. */
  lemma {:induction false} AssignsRendered(fs: Fields)
    requires forall i :: 0 <= i < |fs| ==> CleanKey(fs[i].key) && CleanValue(fs[i].value)
    ensures Assigns(RenderPairs(fs), fs)
    decreases |fs|
  {
    if fs != [] {
      PieceOfPair(fs[0]);
      assert RenderPairs(fs)[1..] == RenderPairs(fs[1..]);
      AssignsRendered(fs[1..]);
    }
  }

  /** Assigning a key that is not yet present appends the pair. */
  lemma SetFresh(acc: Fields, p: Pair<string>)
    requires p.key !in Keys(acc)
    ensures Set(acc, p.key, p.value) == acc + [p]
  {
  }

  /** The first of the later pairs is new to the table built so far. */
  lemma FreshHead(acc: Fields, fs: Fields)
    requires fs != [] && UniqueKeys(acc + fs)
    ensures fs[0].key !in Keys(acc)
    ensures acc + fs == (acc + [fs[0]]) + fs[1..]
  {
    var all := acc + fs;
    assert all[|acc|] == fs[0];
    forall i | 0 <= i < |acc| ensures acc[i].key != fs[0].key {
      assert all[i] == acc[i];
    }
    assert fs == [fs[0]] + fs[1..];
  }

  /** Assignment pieces that define new keys append their pairs, in order. */
  lemma {:induction false} ScanAssignments(acc: Fields, key: Option<string>, fs: Fields, pieces: seq<string>)
    requires Assigns(pieces, fs)
    requires UniqueKeys(acc + fs)
    ensures ScanPieces(Scan(acc, key), pieces).pairs == acc + fs
    decreases |fs|
  {
    if fs == [] {
      assert acc + fs == acc;
    } else {
      FreshHead(acc, fs);
      SetFresh(acc, fs[0]);
      ScanAssignments(acc + [fs[0]], Some(fs[0].key), fs[1..], pieces[1..]);
    }
  }

  /** Reading back a rendered table gives the table, for tables whose keys and values
      `parseData` can tell apart from the separators. */
  lemma ParseRender(fs: Fields)
    requires Clean(fs)
    ensures ParseFields(Render(fs)) == fs
  {
    if fs == [] {
      assert Render(fs) == "";
      assert Split("", ',') == [""];
    } else {
      forall k | 0 <= k < |fs| ensures ',' !in RenderPairs(fs)[k] {
        NoCommaInPair(fs[k]);
      }
      SplitJoin(RenderPairs(fs), ',');
      AssignsRendered(fs);
      assert [] + fs == fs;
      ScanAssignments([], None, fs, RenderPairs(fs));
    }
  }

  /** The qop rule: a qop that differs from `auth` but contains it becomes `auth`. */
  function CanonicalQop(qop: string): (r: string)
    ensures r == "auth" <==> Contains(qop, "auth")
    ensures !Contains(qop, "auth") ==> r == qop
  {
    if qop != "auth" && Contains(qop, "auth") then "auth" else qop
  }

  /** `auth-conf` (confidentiality) is not kept: it is forced to `auth` as well. */
  lemma AuthConfForced()
    ensures CanonicalQop("auth-conf") == "auth"
  {
    assert "auth" <= "auth-conf";
  }

  /** The challenge table once the client has filled it in: `digest-uri` defaults to
      `xmpp/` and the host, and `cnonce` is always the client's own. */
  function Prepare(decoded: Fields, host: string, cnonce: string): (r: Fields)
    ensures Get(r, "cnonce") == Some(cnonce)
    ensures Get(r, "digest-uri") == if Has(decoded, "digest-uri") then Get(decoded, "digest-uri") else Some("xmpp/" + host)
    ensures forall k :: k != "cnonce" && k != "digest-uri" ==> Get(r, k) == Get(decoded, k)
  {
    var d := if Has(decoded, "digest-uri") then decoded else Set(decoded, "digest-uri", "xmpp/" + host);
    GetSetSame(decoded, "digest-uri", "xmpp/" + host);
    forall k | k != "digest-uri" ensures Get(d, k) == Get(decoded, k) {
      GetSetOther(decoded, "digest-uri", "xmpp/" + host, k);
    }
    var r := Set(d, "cnonce", cnonce);
    GetSetSame(d, "cnonce", cnonce);
    forall k | k != "cnonce" ensures Get(r, k) == Get(d, k) {
      GetSetOther(d, "cnonce", cnonce, k);
    }
    r
  }

  /** The table with the qop rule applied to its `qop`, if it has one. */
  function FixQop(d: Fields): (r: Fields)
    ensures Get(r, "qop") == match Get(d, "qop") case Some(q) => Some(CanonicalQop(q)) case None => None
    ensures forall k :: k != "qop" ==> Get(r, k) == Get(d, k)
  {
    match Get(d, "qop")
    case Some(q) =>
      if q != "auth" && Contains(q, "auth") then
        GetSetSame(d, "qop", "auth");
        forall k | k != "qop" ensures Get(Set(d, "qop", "auth"), k) == Get(d, k) {
          GetSetOther(d, "qop", "auth", k);
        }
        Set(d, "qop", "auth")
      else d
    case None => d
  }

  /** The fields the reply copies from the challenge, when present, in this order. */
  const Copied: seq<string> := ["nonce", "digest-uri", "realm", "cnonce"]

  /** The fields every reply starts with. */
  function BaseReply(user: string, response: string): Fields {
    [Pair("username", user), Pair("response", response), Pair("charset", "utf-8"),
     Pair("nc", "00000001"), Pair("qop", "auth")]
  }

  function CopyPresent(r: Fields, d: Fields, keys: seq<string>): Fields
    decreases |keys|
  {
    if keys == [] then r
    else
      var r' := match Get(d, keys[0]) case Some(v) => Set(r, keys[0], v) case None => r;
      CopyPresent(r', d, keys[1..])
  }

  /** The keys of `d` among `keys`, in that order. */
  function Present(d: Fields, keys: seq<string>): seq<string>
    decreases |keys|
  {
    if keys == [] then [] else (if Has(d, keys[0]) then [keys[0]] else []) + Present(d, keys[1..])
  }

  /** The reply table: `username`, `response`, `charset=utf-8`, `nc=00000001`, `qop=auth`,
      then those of `nonce`, `digest-uri`, `realm`, `cnonce` the challenge holds. */
  function Reply(user: string, response: string, d: Fields): Fields {
    CopyPresent(BaseReply(user, response), d, Copied)
  }

  lemma {:induction false} CopyPresentFacts(r: Fields, d: Fields, keys: seq<string>)
    requires forall i :: 0 <= i < |keys| ==> keys[i] !in Keys(r)
    requires forall i, j :: 0 <= i < j < |keys| ==> keys[i] != keys[j]
    ensures Keys(CopyPresent(r, d, keys)) == Keys(r) + Present(d, keys)
    ensures forall k :: k in keys ==> Get(CopyPresent(r, d, keys), k) == Get(d, k)
    ensures forall k :: k !in keys ==> Get(CopyPresent(r, d, keys), k) == Get(r, k)
    decreases |keys|
  {
    if keys != [] {
      var k0 := keys[0];
      var r' := match Get(d, k0) case Some(v) => Set(r, k0, v) case None => r;
      match Get(d, k0) {
        case Some(v) =>
          KeysSet(r, k0, v);
          GetSetSame(r, k0, v);
          forall k | k != k0 ensures Get(r', k) == Get(r, k) { GetSetOther(r, k0, v, k); }
        case None =>
          assert !Has(r, k0);
      }
      assert forall i :: 0 <= i < |keys[1..]| ==> keys[1..][i] !in Keys(r') by {
        forall i | 0 <= i < |keys[1..]| ensures keys[1..][i] !in Keys(r') {
          assert keys[1..][i] == keys[i + 1] && keys[i + 1] != k0;
        }
      }
      CopyPresentFacts(r', d, keys[1..]);
      assert Keys(r') == Keys(r) + (if Has(d, k0) then [k0] else []);
      forall k | k in keys ensures Get(CopyPresent(r, d, keys), k) == Get(d, k) {
        if k != k0 {
          assert k in keys[1..];
        } else {
          assert k0 !in keys[1..];
        }
      }
    }
  }

  /** The copied fields are distinct and none of them is a fixed field. */
  lemma BaseReplyKeys(user: string, response: string)
    ensures Keys(BaseReply(user, response)) == ["username", "response", "charset", "nc", "qop"]
    ensures forall i :: 0 <= i < |Copied| ==> Copied[i] !in Keys(BaseReply(user, response))
    ensures forall i, j :: 0 <= i < j < |Copied| ==> Copied[i] != Copied[j]
    ensures UniqueKeys(BaseReply(user, response))
  {
    assert Keys(BaseReply(user, response)) == ["username", "response", "charset", "nc", "qop"];
  }

  lemma BaseReplyValues(user: string, response: string)
    ensures Get(BaseReply(user, response), "username") == Some(user)
    ensures Get(BaseReply(user, response), "response") == Some(response)
    ensures Get(BaseReply(user, response), "charset") == Some("utf-8")
    ensures Get(BaseReply(user, response), "nc") == Some("00000001")
    ensures Get(BaseReply(user, response), "qop") == Some("auth")
  {
    var b := BaseReply(user, response);
    BaseReplyKeys(user, response);
    UniqueGet(b, 0);
    UniqueGet(b, 1);
    UniqueGet(b, 2);
    UniqueGet(b, 3);
    UniqueGet(b, 4);
  }

  /** The reply holds the five fixed fields first, then exactly the copied fields the
      challenge holds, in the order `nonce`, `digest-uri`, `realm`, `cnonce`. */
  lemma ReplyKeys(user: string, response: string, d: Fields)
    ensures Keys(Reply(user, response, d)) == ["username", "response", "charset", "nc", "qop"] + Present(d, Copied)
  {
    BaseReplyKeys(user, response);
    CopyPresentFacts(BaseReply(user, response), d, Copied);
  }

  /** The fixed fields: the user, the response, `charset=utf-8`, `nc=00000001` and `qop=auth`
      whatever qop the challenge offered. */
  lemma ReplyFixedValues(user: string, response: string, d: Fields)
    ensures Get(Reply(user, response, d), "username") == Some(user)
    ensures Get(Reply(user, response, d), "response") == Some(response)
    ensures Get(Reply(user, response, d), "charset") == Some("utf-8")
    ensures Get(Reply(user, response, d), "nc") == Some("00000001")
    ensures Get(Reply(user, response, d), "qop") == Some("auth")
  {
    BaseReplyKeys(user, response);
    CopyPresentFacts(BaseReply(user, response), d, Copied);
    BaseReplyValues(user, response);
    assert "username" !in Copied && "response" !in Copied && "charset" !in Copied && "nc" !in Copied && "qop" !in Copied;
  }

  /** The copied fields carry the challenge's values. */
  lemma ReplyCopiedValues(user: string, response: string, d: Fields)
    ensures forall k :: k in Copied ==> Get(Reply(user, response, d), k) == Get(d, k)
  {
    BaseReplyKeys(user, response);
    CopyPresentFacts(BaseReply(user, response), d, Copied);
  }

  /** H of RFC 2831: the 16 octets of the MD5 digest. */
  function H(cr: Crypto, s: string): string {
    cr.packH32(cr.md5Hex(s))
  }

  /** HEX(H(s)). */
  function HexH(cr: Crypto, s: string): string {
    cr.md5Hex(s)
  }

  /** HEX(KD(k, s)) with KD(k, s) = H(k ":" s). */
  function HexKD(cr: Crypto, k: string, s: string): string {
    HexH(cr, k + ":" + s)
  }

  /** The `response` value of section 2.1.2.1 of RFC 2831 for qop `auth`. */
  function ResponseValue(cr: Crypto, username: string, realm: string, passwd: string, nonce: string,
                         cnonce: string, authzid: Option<string>, nc: string, qop: string, digestUri: string): string
  {
    var a1 := H(cr, username + ":" + realm + ":" + passwd) + ":" + nonce + ":" + cnonce +
              (match authzid case Some(z) => ":" + z case None => "");
    var a2 := "AUTHENTICATE:" + digestUri;
    HexKD(cr, HexH(cr, a1), nonce + ":" + nc + ":" + cnonce + ":" + qop + ":" + HexH(cr, a2))
  }

  /** A field of the table, with `null` (an unset key) read as the empty string. */
  function Field(data: Fields, k: string): string {
    Get(data, k).GetOr("")
  }

  /** The value `encryptPass` computes from the fields it has read. */
  function Digest(cr: Crypto, user: string, pass: string, realm: string, nonce: string, cnonce: string,
                  authzid: Option<string>, nc: string, qop: string, digestUri: string): string
  {
    var pack := cr.md5Hex(user + ":" + realm + ":" + pass);
    var a1 := match authzid
      case Some(z) => cr.packH32(pack) + (":" + nonce + ":" + cnonce + ":" + z)
      case None => cr.packH32(pack) + (":" + nonce + ":" + cnonce);
    var a2 := "AUTHENTICATE:" + digestUri;
    cr.md5Hex(cr.md5Hex(a1) + ":" + nonce + ":" + nc + ":" + cnonce + ":" + qop + ":" + cr.md5Hex(a2))
  }

  /** `encryptPass($data)`: `realm`, `cnonce` and `digest-uri` default to the empty string;
      an unset `nonce`, `nc` or `qop` reads as `null`, which formats as the empty string too. */
  function EncryptPass(cr: Crypto, user: string, pass: string, data: Fields): string {
    Digest(cr, user, pass, Field(data, "realm"), Field(data, "nonce"), Field(data, "cnonce"),
           Get(data, "authzid"), Field(data, "nc"), Field(data, "qop"), Field(data, "digest-uri"))
  }

  lemma ConcatAssoc(a: string, b: string, c: string)
    ensures a + (b + c) == a + b + c
  {
  }

  /** Five colon-separated strings after `k`. */
  lemma ColonChain(k: string, xs: seq<string>)
    requires |xs| == 5
    ensures k + ":" + (xs[0] + ":" + xs[1] + ":" + xs[2] + ":" + xs[3] + ":" + xs[4]) ==
            k + ":" + xs[0] + ":" + xs[1] + ":" + xs[2] + ":" + xs[3] + ":" + xs[4]
  {
    var t := xs[0] + ":" + xs[1] + ":" + xs[2] + ":" + xs[3];
    ConcatAssoc(k + ":", t + ":", xs[4]);
    ConcatAssoc(k + ":", t, ":");
    var u := xs[0] + ":" + xs[1] + ":" + xs[2];
    ConcatAssoc(k + ":", u + ":", xs[3]);
    ConcatAssoc(k + ":", u, ":");
    var w := xs[0] + ":" + xs[1];
    ConcatAssoc(k + ":", w + ":", xs[2]);
    ConcatAssoc(k + ":", w, ":");
    ConcatAssoc(k + ":", xs[0] + ":", xs[1]);
    ConcatAssoc(k + ":", xs[0], ":");
  }

  /** The digest is the response value of RFC 2831 for the same field values. */
  lemma DigestIsResponseValue(cr: Crypto, user: string, pass: string, realm: string, nonce: string, cnonce: string,
                              authzid: Option<string>, nc: string, qop: string, digestUri: string)
    ensures Digest(cr, user, pass, realm, nonce, cnonce, authzid, nc, qop, digestUri) ==
            ResponseValue(cr, user, realm, pass, nonce, cnonce, authzid, nc, qop, digestUri)
  {
    var h := H(cr, user + ":" + realm + ":" + pass);
    var ra1 := h + ":" + nonce + ":" + cnonce + (match authzid case Some(z) => ":" + z case None => "");
    var da1 := match authzid
      case Some(z) => h + (":" + nonce + ":" + cnonce + ":" + z)
      case None => h + (":" + nonce + ":" + cnonce);
    assert ra1 == da1 by {
      match authzid {
        case Some(z) =>
          ConcatAssoc(h, ":" + nonce + ":" + cnonce, ":" + z);
          ConcatAssoc(":" + nonce + ":" + cnonce, ":", z);
          ConcatAssoc(h, ":" + nonce + ":" + cnonce + ":", z);
        case None =>
          assert ":" + nonce + ":" + cnonce + "" == ":" + nonce + ":" + cnonce;
      }
    }
    var k := HexH(cr, ra1);
    var x := HexH(cr, "AUTHENTICATE:" + digestUri);
    ColonChain(k, [nonce, nc, cnonce, qop, x]);
  }

  /** `encryptPass` computes RFC 2831's response value from the table's fields, the
      missing ones (`realm`, `cnonce`, `digest-uri`, and also `nonce`, `nc`, `qop`) read as
      empty, and `authzid` taking part only when present. */
  lemma EncryptPassIsResponseValue(cr: Crypto, user: string, pass: string, data: Fields)
    ensures EncryptPass(cr, user, pass, data) ==
            ResponseValue(cr, user, Field(data, "realm"), pass, Field(data, "nonce"), Field(data, "cnonce"),
                          Get(data, "authzid"), Field(data, "nc"), Field(data, "qop"), Field(data, "digest-uri"))
  {
    DigestIsResponseValue(cr, user, pass, Field(data, "realm"), Field(data, "nonce"), Field(data, "cnonce"),
                          Get(data, "authzid"), Field(data, "nc"), Field(data, "qop"), Field(data, "digest-uri"));
  }

  /** A missing `realm` is the empty realm: the default changes nothing else. */
  lemma EncryptPassRealmDefault(cr: Crypto, user: string, pass: string, data: Fields)
    requires !Has(data, "realm")
    ensures EncryptPass(cr, user, pass, data) == EncryptPass(cr, user, pass, Set(data, "realm", ""))
  {
    GetSetSame(data, "realm", "");
    GetSetOther(data, "realm", "", "nonce");
    GetSetOther(data, "realm", "", "cnonce");
    GetSetOther(data, "realm", "", "authzid");
    GetSetOther(data, "realm", "", "nc");
    GetSetOther(data, "realm", "", "qop");
    GetSetOther(data, "realm", "", "digest-uri");
  }

  /** The SASL namespace of RFC 6120. */
  const SaslNamespace: string := "urn:ietf:params:" + "xml:ns:" + "xmpp-sasl"

  /** The start of every `<response>` element, before it is closed or given content. */
  const ResponseStart: string := "<response " + "xmlns='" + SaslNamespace + "'"

  const EmptyResponse: string := ResponseStart + "/>"

  /** The `<response>` element carrying the base64 of the rendered reply. */
  function ResponseElement(cr: Crypto, reply: Fields): string {
    ResponseStart + ">" + cr.base64Encode(Render(reply)) + "</response>"
  }

  /** The table of a challenge once decoded, parsed and filled in. */
  function Decoded(cr: Crypto, host: string, cnonce: string, challenge: string): Fields {
    Prepare(ParseFields(cr.base64Decode(challenge)), host, cnonce)
  }

  /** The reply table for a challenge without `rspauth`. */
  function ChallengeReply(cr: Crypto, user: string, pass: string, d: Fields): Fields {
    var d' := FixQop(d);
    Reply(user, EncryptPass(cr, user, pass, Set(d', "nc", "00000001")), d')
  }

  /** What the client sends for a challenge: an empty `<response/>` when the challenge
      holds `rspauth` (the server's proof, after success), else the reply. */
  function AnswerChallenge(cr: Crypto, user: string, pass: string, host: string, cnonce: string, challenge: string): string {
    var d := Decoded(cr, host, cnonce, challenge);
    if Has(d, "rspauth") then EmptyResponse else ResponseElement(cr, ChallengeReply(cr, user, pass, d))
  }

  /** The `response` of the reply is RFC 2831's value over the challenge's fields, with the
      canonical qop and `nc` 00000001. */
  lemma ChallengeReplyResponse(cr: Crypto, user: string, pass: string, d: Fields)
    ensures var qop := match Get(d, "qop") case Some(q) => CanonicalQop(q) case None => "";
            Get(ChallengeReply(cr, user, pass, d), "response") ==
              Some(ResponseValue(cr, user, Field(d, "realm"), pass, Field(d, "nonce"), Field(d, "cnonce"),
                                 Get(d, "authzid"), "00000001", qop, Field(d, "digest-uri")))
  {
    var d' := FixQop(d);
    var m := Set(d', "nc", "00000001");
    GetSetSame(d', "nc", "00000001");
    GetSetOther(d', "nc", "00000001", "realm");
    GetSetOther(d', "nc", "00000001", "nonce");
    GetSetOther(d', "nc", "00000001", "cnonce");
    GetSetOther(d', "nc", "00000001", "authzid");
    GetSetOther(d', "nc", "00000001", "qop");
    GetSetOther(d', "nc", "00000001", "digest-uri");
    EncryptPassIsResponseValue(cr, user, pass, m);
    ReplyFixedValues(user, EncryptPass(cr, user, pass, m), d');
  }

  /** The reply copies `nonce`, `digest-uri`, `realm` and `cnonce` from the challenge and
      declares `qop=auth`. */
  lemma ChallengeReplyCopies(cr: Crypto, user: string, pass: string, d: Fields)
    ensures var reply := ChallengeReply(cr, user, pass, d);
            Get(reply, "nonce") == Get(d, "nonce") && Get(reply, "digest-uri") == Get(d, "digest-uri") &&
            Get(reply, "realm") == Get(d, "realm") && Get(reply, "cnonce") == Get(d, "cnonce") &&
            Get(reply, "qop") == Some("auth")
  {
    var d' := FixQop(d);
    var rv := EncryptPass(cr, user, pass, Set(d', "nc", "00000001"));
    ReplyCopiedValues(user, rv, d');
    ReplyFixedValues(user, rv, d');
    assert "cnonce" in Copied && "digest-uri" in Copied && "nonce" in Copied && "realm" in Copied;
  }

  /** The reply to a first challenge: its `response` is RFC 2831's value over the canonical
      qop, `nc` 00000001, the client's cnonce and the (possibly defaulted) digest-uri; it
      copies `nonce` and `realm` when the challenge holds them, and always carries the
      `digest-uri` and `cnonce` used. */
  lemma ChallengeReplyContents(cr: Crypto, user: string, pass: string, host: string, cnonce: string, challenge: string)
    ensures var d := Decoded(cr, host, cnonce, challenge);
            var reply := ChallengeReply(cr, user, pass, d);
            var qop := match Get(d, "qop") case Some(q) => CanonicalQop(q) case None => "";
            Get(reply, "response") ==
              Some(ResponseValue(cr, user, Field(d, "realm"), pass, Field(d, "nonce"), cnonce,
                                 Get(d, "authzid"), "00000001", qop, Field(d, "digest-uri"))) &&
            Get(reply, "cnonce") == Some(cnonce) &&
            Get(reply, "digest-uri") == Get(d, "digest-uri") && Get(reply, "digest-uri").Some? &&
            Get(reply, "nonce") == Get(d, "nonce") && Get(reply, "realm") == Get(d, "realm") &&
            Get(reply, "qop") == Some("auth")
  {
    var d := Decoded(cr, host, cnonce, challenge);
    ChallengeReplyResponse(cr, user, pass, d);
    ChallengeReplyCopies(cr, user, pass, d);
  }

  /** Once the server has sent its `rspauth`, the client only acknowledges. */
  lemma RspauthAcknowledged(cr: Crypto, user: string, pass: string, host: string, cnonce: string, challenge: string)
    requires Has(ParseFields(cr.base64Decode(challenge)), "rspauth")
    ensures AnswerChallenge(cr, user, pass, host, cnonce, challenge) == EmptyResponse
  {
    var dec := ParseFields(cr.base64Decode(challenge));
    assert Get(Decoded(cr, host, cnonce, challenge), "rspauth") == Get(dec, "rspauth");
  }
}
