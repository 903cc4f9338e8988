/** The array that `getDepth` and `parseXml` build from the token list of PHP's XML
    tokenizer (`xml_parse_into_struct`).

    At every nesting level the children form one PHP array. A tag maps to the list of its
    occurrences at that level, and each occurrence has an `@` facet (the attributes, set
    only when the token carries some) and a `#` facet (the text of a leaf, or the nested
    children). Text tokens are pushed into the same array under numeric keys. Tags are XML
    names, which never start with a digit, so a tag key never collides with a numeric key. */
module XmlTree {

  import opened Wrappers
  import opened Php

  /** The `type` field of a token. */
  datatype TokenKind = Open | Complete | Cdata | Close

  /** One entry of the tokenizer's output: its type, tag, `attributes` and `value`. */
  datatype Token = Token(kind: TokenKind, tag: string, attrs: Option<map<string, string>>, value: Option<string>)

  /** What `#` holds: a text, or an array of children (perhaps empty). */
  datatype Content = Text(text: string) | Kids(tree: Tree)

  /** One occurrence of a tag: `['@' => attrs, '#' => body]`; `attrs` is `None` when `@` is unset. */
  datatype Occurrence = Occurrence(attrs: Option<map<string, string>>, body: Content)

  /** An entry of a children array: the list of occurrences stored under a tag, or a text
      pushed under the next numeric key (`None` stands for a pushed `null`). */
  datatype Entry = Group(tag: string, occs: seq<Occurrence>) | TextNode(text: Option<string>)

  /** A children array, entries in PHP's iteration order. */
  datatype Tree = Tree(entries: seq<Entry>)

  predicate Named(e: Entry, tag: string) {
    e.Group? && e.tag == tag
  }

  /** The position of the entry stored under `tag`, if there is one. */
  function GroupIndex(es: seq<Entry>, tag: string): (r: Option<nat>)
    ensures r.None? ==> forall k :: 0 <= k < |es| ==> !Named(es[k], tag)
    ensures r.Some? ==> r.value < |es| && Named(es[r.value], tag)
    ensures r.Some? ==> forall k :: 0 <= k < r.value ==> !Named(es[k], tag)
    decreases |es|
  {
    if |es| == 0 then None
    else if Named(es[0], tag) then Some(0)
    else
      match GroupIndex(es[1..], tag)
      case None => None
      case Some(i) => Some(i + 1)
  }

  lemma GroupIndexFirst(es: seq<Entry>, tag: string, i: nat)
    requires i < |es| && Named(es[i], tag)
    requires forall k :: 0 <= k < i ==> !Named(es[k], tag)
    ensures GroupIndex(es, tag) == Some(i)
  {
  }

  /** `$children[$tag]`: the occurrences stored under `tag`, none when it is unset. */
  function Occs(es: seq<Entry>, tag: string): seq<Occurrence> {
    match GroupIndex(es, tag)
    case None => []
    case Some(i) => es[i].occs
  }

  /** The texts pushed under numeric keys, in order. */
  function Texts(es: seq<Entry>): seq<Option<string>>
    decreases |es|
  {
    if es == [] then []
    else Texts(es[..|es| - 1]) + (if es[|es| - 1].TextNode? then [es[|es| - 1].text] else [])
  }

  /** `$children[$tag][$size] = $occ` with `$size` the current count of `$children[$tag]`:
      the occurrence joins the tag's existing list, or starts a new one at the end. */
  function Put(es: seq<Entry>, tag: string, o: Occurrence): seq<Entry> {
    match GroupIndex(es, tag)
    case Some(i) => es[i := Group(tag, es[i].occs + [o])]
    case None => es + [Group(tag, [o])]
  }

  /** `array_push($children, $text)`. */
  function Push(es: seq<Entry>, text: Option<string>): seq<Entry> {
    es + [TextNode(text)]
  }

  /** Storing an occurrence appends it to its tag's list: the occurrences already there
      keep their indexes and the new one lands at the old count. */
  lemma OccsPut(es: seq<Entry>, tag: string, o: Occurrence, tag': string)
    ensures Occs(Put(es, tag, o), tag') == if tag' == tag then Occs(es, tag) + [o] else Occs(es, tag')
  {
    var r := Put(es, tag, o);
    assert forall k :: 0 <= k < |es| && k < |r| ==> (Named(r[k], tag') <==> Named(es[k], tag')) || tag' == tag;
    match GroupIndex(es, tag)
    case Some(i) =>
      if tag' == tag {
        GroupIndexFirst(r, tag, i);
      } else if GroupIndex(es, tag').Some? {
        GroupIndexFirst(r, tag', GroupIndex(es, tag').value);
      }
    case None =>
      if tag' == tag {
        GroupIndexFirst(r, tag, |es|);
      } else if GroupIndex(es, tag').Some? {
        GroupIndexFirst(r, tag', GroupIndex(es, tag').value);
      }
  }

  lemma OccsPush(es: seq<Entry>, text: Option<string>, tag: string)
    ensures Occs(Push(es, text), tag) == Occs(es, tag)
  {
    var r := Push(es, text);
    if GroupIndex(es, tag).Some? {
      GroupIndexFirst(r, tag, GroupIndex(es, tag).value);
    }
  }

  lemma {:induction false} TextsUpdate(es: seq<Entry>, i: nat, g: Entry)
    requires i < |es| && es[i].Group? && g.Group?
    ensures Texts(es[i := g]) == Texts(es)
    decreases |es|
  {
    var r := es[i := g];
    var n := |es| - 1;
    if i == n {
      assert r[..n] == es[..n];
    } else {
      assert r[..n] == es[..n][i := g];
      TextsUpdate(es[..n], i, g);
    }
  }

  lemma TextsPut(es: seq<Entry>, tag: string, o: Occurrence)
    ensures Texts(Put(es, tag, o)) == Texts(es)
  {
    match GroupIndex(es, tag)
    case Some(i) => TextsUpdate(es, i, Group(tag, es[i].occs + [o]));
    case None =>
      var r := es + [Group(tag, [o])];
      assert r[..|r| - 1] == es;
  }

  lemma TextsPush(es: seq<Entry>, text: Option<string>)
    ensures Texts(Push(es, text)) == Texts(es) + [text]
  {
    var r := Push(es, text);
    assert r[..|r| - 1] == es;
  }

  /** The `#` of a `complete` token: its value, or an empty array when it has none. */
  function LeafBody(value: Option<string>): Content {
    match value
    case Some(v) => Text(v)
    case None => Kids(Tree([]))
  }

  /** The children `getDepth` starts from: the token's own value, when it has one. */
  function Initial(vals: seq<Token>, i: nat): seq<Entry>
    requires i < |vals|
  {
    if vals[i].value.Some? then Push([], vals[i].value) else []
  }

  /** `getDepth($vals, $i)`: the children of the token at `i` and the index the call
      leaves in `$i` (the matching `close`, or past the end of the list). */
  function Depth(vals: seq<Token>, i: nat): (r: (seq<Entry>, nat))
    requires i < |vals|
    ensures i < r.1
    ensures r.1 < |vals| ==> vals[r.1].kind == Close
    decreases |vals| - i, 0
  {
    Level(vals, i + 1, Initial(vals, i))
  }

  /** The rest of `getDepth`'s loop, entered at index `j` with the children `acc` built so far. */
  function Level(vals: seq<Token>, j: nat, acc: seq<Entry>): (r: (seq<Entry>, nat))
    ensures j <= r.1
    ensures r.1 < |vals| ==> vals[r.1].kind == Close
    decreases |vals| - j, 1
  {
    if j >= |vals| then (acc, j)
    else
      var t := vals[j];
      match t.kind
      case Open =>
        var (kids, k) := Depth(vals, j);
        Level(vals, k + 1, Put(acc, t.tag, Occurrence(t.attrs, Kids(Tree(kids)))))
      case Complete => Level(vals, j + 1, Put(acc, t.tag, Occurrence(t.attrs, LeafBody(t.value))))
      case Cdata => Level(vals, j + 1, Push(acc, t.value))
      case Close => (acc, j)
  }

  /** `getDepth`, with the index it takes by reference returned as `i`. */
  method GetDepth(vals: seq<Token>, i0: nat) returns (children: seq<Entry>, i: nat)
    requires i0 < |vals|
    ensures (children, i) == Depth(vals, i0)
    decreases |vals| - i0
  {
    children := [];
    if vals[i0].value.Some? {
      children := Push(children, vals[i0].value);
    }
    i := i0 + 1;
    while i < |vals|
      invariant i0 < i
      invariant Level(vals, i, children) == Depth(vals, i0)
      decreases |vals| - i
    {
      var t := vals[i];
      match t.kind {
        case Open =>
          var kids, k := GetDepth(vals, i);
          children := Put(children, t.tag, Occurrence(t.attrs, Kids(Tree(kids))));
          i := k;
        case Cdata =>
          children := Push(children, t.value);
        case Complete =>
          children := Put(children, t.tag, Occurrence(t.attrs, LeafBody(t.value)));
        case Close =>
          return;
      }
      i := i + 1;
    }
  }

  /** A sibling at one nesting level, in token order: an element with the occurrence the
      builder stores for it, or a text. */
  datatype Item = Element(tag: string, occ: Occurrence) | Chars(text: Option<string>)

  /** The siblings met by `getDepth`'s loop from index `j` until the level's `close`. */
  ghost function Siblings(vals: seq<Token>, j: nat): seq<Item>
    decreases |vals| - j
  {
    if j >= |vals| then []
    else
      var t := vals[j];
      match t.kind
      case Open =>
        var (kids, k) := Depth(vals, j);
        [Element(t.tag, Occurrence(t.attrs, Kids(Tree(kids))))] + Siblings(vals, k + 1)
      case Complete => [Element(t.tag, Occurrence(t.attrs, LeafBody(t.value)))] + Siblings(vals, j + 1)
      case Cdata => [Chars(t.value)] + Siblings(vals, j + 1)
      case Close => []
  }

  function Add(es: seq<Entry>, it: Item): seq<Entry> {
    match it
    case Element(tag, o) => Put(es, tag, o)
    case Chars(x) => Push(es, x)
  }

  /** Storing the items one after another, in order. */
  function Fill(es: seq<Entry>, items: seq<Item>): seq<Entry>
    decreases |items|
  {
    if items == [] then es else Fill(Add(es, items[0]), items[1..])
  }

  /** The occurrences of the elements named `tag`, in order. */
  function OccsOf(items: seq<Item>, tag: string): seq<Occurrence>
    decreases |items|
  {
    if items == [] then []
    else (if items[0].Element? && items[0].tag == tag then [items[0].occ] else []) + OccsOf(items[1..], tag)
  }

  /** The texts among the items, in order. */
  function TextsOf(items: seq<Item>): seq<Option<string>>
    decreases |items|
  {
    if items == [] then [] else (if items[0].Chars? then [items[0].text] else []) + TextsOf(items[1..])
  }

  /** The loop stores exactly the siblings it meets, in the order it meets them. */
  lemma {:induction false} LevelFill(vals: seq<Token>, j: nat, acc: seq<Entry>)
    ensures Level(vals, j, acc).0 == Fill(acc, Siblings(vals, j))
    decreases |vals| - j
  {
    if j < |vals| {
      var t := vals[j];
      match t.kind
      case Open =>
        var (kids, k) := Depth(vals, j);
        LevelFill(vals, k + 1, Put(acc, t.tag, Occurrence(t.attrs, Kids(Tree(kids)))));
      case Complete =>
        LevelFill(vals, j + 1, Put(acc, t.tag, Occurrence(t.attrs, LeafBody(t.value))));
      case Cdata =>
        LevelFill(vals, j + 1, Push(acc, t.value));
      case Close =>
    }
  }

  lemma {:induction false} FillOccs(es: seq<Entry>, items: seq<Item>, tag: string)
    ensures Occs(Fill(es, items), tag) == Occs(es, tag) + OccsOf(items, tag)
    decreases |items|
  {
    if items != [] {
      FillOccs(Add(es, items[0]), items[1..], tag);
      match items[0]
      case Element(t, o) => OccsPut(es, t, o, tag);
      case Chars(x) => OccsPush(es, x, tag);
    }
  }

  lemma {:induction false} FillTexts(es: seq<Entry>, items: seq<Item>)
    ensures Texts(Fill(es, items)) == Texts(es) + TextsOf(items)
    decreases |items|
  {
    if items != [] {
      FillTexts(Add(es, items[0]), items[1..]);
      match items[0]
      case Element(t, o) => TextsPut(es, t, o);
      case Chars(x) => TextsPush(es, x);
    }
  }

  lemma {:induction false} OccsOfAppend(a: seq<Item>, b: seq<Item>, tag: string)
    ensures OccsOf(a + b, tag) == OccsOf(a, tag) + OccsOf(b, tag)
    decreases |a|
  {
    if a == [] {
      assert a + b == b;
    } else {
      assert (a + b)[0] == a[0] && (a + b)[1..] == a[1..] + b;
      OccsOfAppend(a[1..], b, tag);
    }
  }

  /** Siblings with the same tag accumulate in token order: the occurrences stored under
      `tag` are exactly those of the `tag` siblings, and the texts are the text siblings. */
  lemma SiblingsAccumulate(vals: seq<Token>, i: nat, tag: string)
    requires i < |vals|
    ensures Occs(Depth(vals, i).0, tag) == OccsOf(Siblings(vals, i + 1), tag)
    ensures Texts(Depth(vals, i).0) == Texts(Initial(vals, i)) + TextsOf(Siblings(vals, i + 1))
  {
    LevelFill(vals, i + 1, Initial(vals, i));
    FillOccs(Initial(vals, i), Siblings(vals, i + 1), tag);
    FillTexts(Initial(vals, i), Siblings(vals, i + 1));
    OccsPush([], vals[i].value, tag);
  }

  /** The sibling met `n`-th is stored under its tag at the index equal to the number of
      earlier siblings with that tag, so no occurrence overwrites another. */
  lemma SiblingStoredAtCount(vals: seq<Token>, i: nat, n: nat)
    requires i < |vals|
    requires n < |Siblings(vals, i + 1)| && Siblings(vals, i + 1)[n].Element?
    ensures var items := Siblings(vals, i + 1);
            var occs := Occs(Depth(vals, i).0, items[n].tag);
            var at := |OccsOf(items[..n], items[n].tag)|;
            at < |occs| && occs[at] == items[n].occ
  {
    var items := Siblings(vals, i + 1);
    var tag := items[n].tag;
    SiblingsAccumulate(vals, i, tag);
    assert items == items[..n] + ([items[n]] + items[n + 1..]);
    OccsOfAppend(items[..n], [items[n]] + items[n + 1..], tag);
    assert OccsOf([items[n]] + items[n + 1..], tag) == [items[n].occ] + OccsOf(items[n + 1..], tag);
  }

  /** The weight of a token for nesting: an `open` opens one level, a `close` closes one. */
  function Weight(t: Token): int {
    match t.kind
    case Open => 1
    case Close => -1
    case _ => 0
  }

  /** Opened minus closed levels over `vals[a..b]`. */
  function Net(vals: seq<Token>, a: nat, b: nat): int
    requires a <= b <= |vals|
    decreases b - a
  {
    if a == b then 0 else Net(vals, a, b - 1) + Weight(vals[b - 1])
  }

  lemma {:induction false} NetAdd(vals: seq<Token>, a: nat, b: nat, c: nat)
    requires a <= b <= c <= |vals|
    ensures Net(vals, a, c) == Net(vals, a, b) + Net(vals, b, c)
    decreases c - b
  {
    if b < c {
      NetAdd(vals, a, b, c - 1);
    }
  }

  /** The loop entered at `j` stops on a `close` that balances every level opened since `j`. */
  lemma {:induction false} LevelBalanced(vals: seq<Token>, j: nat, acc: seq<Entry>)
    ensures var k := Level(vals, j, acc).1;
            k < |vals| ==> Net(vals, j, k) == 0 && forall m :: j <= m <= k ==> Net(vals, j, m) >= 0
    decreases |vals| - j, 1
  {
    var k := Level(vals, j, acc).1;
    if j < |vals| && k < |vals| {
      var t := vals[j];
      match t.kind
      case Open =>
        var (kids, k1) := Depth(vals, j);
        var acc' := Put(acc, t.tag, Occurrence(t.attrs, Kids(Tree(kids))));
        DepthBalanced(vals, j);
        LevelBalanced(vals, k1 + 1, acc');
        forall m | j <= m <= k ensures Net(vals, j, m) >= 0 {
          if m > k1 + 1 { NetAdd(vals, j, k1 + 1, m); }
        }
        NetAdd(vals, j, k1 + 1, k);
      case Complete =>
        LevelBalanced(vals, j + 1, Put(acc, t.tag, Occurrence(t.attrs, LeafBody(t.value))));
        forall m | j + 1 <= m <= k ensures Net(vals, j, m) >= 0 {
          NetAdd(vals, j, j + 1, m);
        }
        NetAdd(vals, j, j + 1, k);
      case Cdata =>
        LevelBalanced(vals, j + 1, Push(acc, t.value));
        forall m | j + 1 <= m <= k ensures Net(vals, j, m) >= 0 {
          NetAdd(vals, j, j + 1, m);
        }
        NetAdd(vals, j, j + 1, k);
      case Close =>
    }
  }

  /** An `open` token's subtree ends at its matching `close`: `getDepth` leaves the index
      on a `close` such that the tokens from the `open` through that `close` are balanced,
      and every level opened in between is closed before it. */
  lemma {:induction false} DepthBalanced(vals: seq<Token>, i: nat)
    requires i < |vals|
    ensures var k := Depth(vals, i).1;
            k < |vals| && vals[i].kind == Open ==>
              vals[k].kind == Close && Net(vals, i, k + 1) == 0 &&
              forall m :: i < m <= k ==> Net(vals, i, m) > 0
    ensures var k := Depth(vals, i).1;
            var j := i + 1;
            k < |vals| ==> Net(vals, j, k) == 0 && forall m :: j <= m <= k ==> Net(vals, j, m) >= 0
    decreases |vals| - i, 0
  {
    var k := Depth(vals, i).1;
    LevelBalanced(vals, i + 1, Initial(vals, i));
    if k < |vals| && vals[i].kind == Open {
      NetAdd(vals, i, i + 1, k + 1);
      NetAdd(vals, i + 1, k, k + 1);
      forall m | i < m <= k ensures Net(vals, i, m) > 0 {
        NetAdd(vals, i, i + 1, m);
      }
    }
  }

  /** The text that marks a full document rather than a fragment. */
  const XmlDeclaration: string := "<?xml"

  /** The text `parseXml` hands to the tokenizer: the trimmed input, wrapped in
      `<root>…</root>` unless it starts with an XML declaration. */
  function Wrapped(data: string): (r: string)
    ensures XmlDeclaration <= TrimSpace(data) ==> r == TrimSpace(data)
    ensures !(XmlDeclaration <= TrimSpace(data)) ==> r == "<root>" + TrimSpace(data) + "</root>"
  {
    var d := TrimSpace(data);
    if XmlDeclaration <= d then d else "<root>" + d + "</root>"
  }

  /** The children of the first token, as `getDepth($vals, 0)` returns them. */
  function TopChildren(vals: seq<Token>): seq<Entry> {
    if |vals| == 0 then [] else Depth(vals, 0).0
  }

  /** `parseXml($data)`, given the tokenizer. A document becomes one tag (the first token's)
      with one occurrence; a fragment becomes the children of its `root` wrapper, and `null`
      (`None`) when the tokens do not start with that wrapper. */
  function Parsed(data: string, tokenize: string -> seq<Token>): (r: Option<Tree>)
    ensures var vals := tokenize(Wrapped(data));
            !(XmlDeclaration <= TrimSpace(data)) ==>
              (r.Some? <==> |vals| > 0 && vals[0].tag == "root") &&
              (r.Some? ==> r.value.entries == Depth(vals, 0).0)
    ensures XmlDeclaration <= TrimSpace(data) ==> r.Some? && |r.value.entries| == 1 && r.value.entries[0].Group?
    ensures var vals := tokenize(Wrapped(data));
            XmlDeclaration <= TrimSpace(data) && |vals| > 0 ==>
              r == Some(Tree([Group(vals[0].tag, [Occurrence(Some(vals[0].attrs.GetOr(map[])), Kids(Tree(Depth(vals, 0).0)))])]))
    ensures var vals := tokenize(Wrapped(data));
            XmlDeclaration <= TrimSpace(data) && |vals| == 0 ==>
              r == Some(Tree([Group("", [Occurrence(Some(map[]), Kids(Tree([])))])]))
  {
    var d := Wrapped(data);
    assert !(XmlDeclaration <= TrimSpace(data)) ==> d[1] != XmlDeclaration[1];
    var vals := tokenize(d);
    var tag := if |vals| > 0 then vals[0].tag else "";
    var attrs := if |vals| > 0 && vals[0].attrs.Some? then vals[0].attrs.value else map[];
    var kids := TopChildren(vals);
    if XmlDeclaration <= d then Some(Tree([Group(tag, [Occurrence(Some(attrs), Kids(Tree(kids)))])]))
    else if tag == "root" then Some(Tree(kids))
    else None
  }

  /** `parseXml`, running the tree builder. */
  method ParseXml(data: string, tokenize: string -> seq<Token>) returns (r: Option<Tree>)
    ensures r == Parsed(data, tokenize)
  {
    var d := Wrapped(data);
    assert !(XmlDeclaration <= TrimSpace(data)) ==> d[1] != XmlDeclaration[1];
    var vals := tokenize(d);
    var kids: seq<Entry> := [];
    if |vals| > 0 {
      var i;
      kids, i := GetDepth(vals, 0);
    }
    var tag := if |vals| > 0 then vals[0].tag else "";
    if XmlDeclaration <= d {
      var attrs := if |vals| > 0 && vals[0].attrs.Some? then vals[0].attrs.value else map[];
      r := Some(Tree([Group(tag, [Occurrence(Some(attrs), Kids(Tree(kids)))])]));
    } else if tag == "root" {
      r := Some(Tree(kids));
    } else {
      r := None;
    }
  }

  /** A fragment is seen through its top level only: the occurrences under a tag are those
      of the wrapper's children with that tag, in order. */
  lemma FragmentTopLevel(data: string, tokenize: string -> seq<Token>, tag: string)
    requires !(XmlDeclaration <= TrimSpace(data))
    requires Parsed(data, tokenize).Some?
    ensures var vals := tokenize(Wrapped(data));
            Occs(Parsed(data, tokenize).value.entries, tag) == OccsOf(Siblings(vals, 1), tag)
  {
    SiblingsAccumulate(tokenize(Wrapped(data)), 0, tag);
  }

  // Lookups used by the protocol engine. Each mirrors a PHP array read: `isset` on a
  // missing key, or on a string-keyed read from a text body, comes out false.

  /** `$t[$tag][0]`: the first occurrence stored under `tag`. */
  function First(t: Tree, tag: string): Option<Occurrence> {
    var os := Occs(t.entries, tag);
    if |os| > 0 then Some(os[0]) else None
  }

  /** `$o['#']` read as an array under `isset`, where a text body has no children. A read
      outside `isset` raises on a text body instead; the handlers that make one test for it. */
  function Children(o: Occurrence): Tree {
    match o.body
    case Kids(t) => t
    case Text(_) => Tree([])
  }

  /** `$o['#'][$tag][0]`. */
  function Child(o: Occurrence, tag: string): Option<Occurrence> {
    First(Children(o), tag)
  }

  /** `isset($o['#'][$tag])`. */
  predicate HasChild(o: Occurrence, tag: string) {
    |Occs(Children(o).entries, tag)| > 0
  }

  /** `$o['@'][$name]`, `None` when unset. */
  function Attr(o: Occurrence, name: string): Option<string> {
    match o.attrs
    case Some(m) => if name in m then Some(m[name]) else None
    case None => None
  }

  /** `$o['#']` read as a string; `None` when the body is an array. */
  function TextOf(o: Occurrence): Option<string> {
    match o.body
    case Text(s) => Some(s)
    case Kids(_) => None
  }
}
