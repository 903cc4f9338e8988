/** The PHP string built-ins the protocol engine relies on, written out with the
    semantics of PHP 8: `trim`, `strpos`, `explode`, `implode`, `strtolower`,
    truthiness of strings and `htmlspecialchars`. */
module Php {

  import opened Wrappers

  /** The characters `trim($s)` removes when no character list is given. */
  const Whitespace: set<char> := {' ', '\t', '\n', '\r', '\0', '\U{000B}'}

  /** `ltrim($s, $cs)`: the longest suffix of `s` that does not start with a character of `cs`. */
  function LTrim(s: string, cs: set<char>): (r: string)
    ensures |r| <= |s|
    ensures r == [] || r[0] !in cs
    decreases |s|
  {
    if |s| > 0 && s[0] in cs then LTrim(s[1..], cs) else s
  }

  /** `rtrim($s, $cs)`: the longest prefix of `s` that does not end with a character of `cs`. */
  function RTrim(s: string, cs: set<char>): (r: string)
    ensures |r| <= |s|
    ensures r == [] || r[|r| - 1] !in cs
    decreases |s|
  {
    if |s| > 0 && s[|s| - 1] in cs then RTrim(s[..|s| - 1], cs) else s
  }

  /** `ltrim` removes exactly a prefix made of characters of `cs`. */
  lemma {:induction false} LTrimDropsPrefix(s: string, cs: set<char>)
    ensures LTrim(s, cs) == s[|s| - |LTrim(s, cs)|..]
    ensures forall i :: 0 <= i < |s| - |LTrim(s, cs)| ==> s[i] in cs
    decreases |s|
  {
    if |s| > 0 && s[0] in cs {
      LTrimDropsPrefix(s[1..], cs);
      var r := LTrim(s, cs);
      assert s[1..][|s| - 1 - |r|..] == s[|s| - |r|..];
      forall i | 0 <= i < |s| - |r| ensures s[i] in cs {
        if i > 0 {
          assert s[i] == s[1..][i - 1];
        }
      }
    }
  }

  /** `rtrim` removes exactly a suffix made of characters of `cs`. */
  lemma {:induction false} RTrimDropsSuffix(s: string, cs: set<char>)
    ensures RTrim(s, cs) == s[..|RTrim(s, cs)|]
    ensures forall i :: |RTrim(s, cs)| <= i < |s| ==> s[i] in cs
    decreases |s|
  {
    if |s| > 0 && s[|s| - 1] in cs {
      var t := s[..|s| - 1];
      RTrimDropsSuffix(t, cs);
      var r := RTrim(s, cs);
      assert t[..|r|] == s[..|r|];
      forall i | |r| <= i < |s| ensures s[i] in cs {
        if i < |s| - 1 {
          assert s[i] == t[i];
        }
      }
    }
  }

  /** `trim($s, $cs)`. */
  function Trim(s: string, cs: set<char>): string {
    RTrim(LTrim(s, cs), cs)
  }

  /** `trim($s)`. */
  function TrimSpace(s: string): string {
    Trim(s, Whitespace)
  }

  /** Trimming a string that neither starts nor ends with a trimmed character changes nothing. */
  lemma TrimUnchanged(s: string, cs: set<char>)
    requires s == [] || (s[0] !in cs && s[|s| - 1] !in cs)
    ensures Trim(s, cs) == s
  {
  }

  /** `strpos($s, $c)` for a one-character needle: the first position of `c`, or `false`. */
  function IndexOf(s: string, c: char): (r: Option<nat>)
    ensures r.None? <==> c !in s
    ensures r.Some? ==> r.value < |s| && s[r.value] == c && c !in s[..r.value]
    decreases |s|
  {
    if |s| == 0 then None
    else if s[0] == c then Some(0)
    else
      match IndexOf(s[1..], c)
      case None => None
      case Some(i) =>
        assert s[..i + 1] == [s[0]] + s[1..][..i];
        Some(i + 1)
  }

  /** The first occurrence of `c` in `p + [c] + q` is at `|p|` when `p` has none. */
  lemma IndexOfFirst(p: string, c: char, q: string)
    requires c !in p
    ensures IndexOf(p + [c] + q, c) == Some(|p|)
  {
    var s := p + [c] + q;
    assert s[|p|] == c && s[..|p|] == p;
  }

  /** `strpos($hay, $needle) !== false`: `needle` occurs somewhere in `hay`. PHP 8 finds the
      empty needle at position 0. */
  predicate Contains(hay: string, needle: string)
    decreases |hay|
  {
    needle <= hay || (|hay| > 0 && Contains(hay[1..], needle))
  }

  /** `needle` occurs in `hay` at position `i`. */
  predicate SliceAt(hay: string, needle: string, i: int) {
    0 <= i <= |hay| - |needle| && hay[i..i + |needle|] == needle
  }

  /** `Contains` agrees with the plain definition: `needle` is some slice of `hay`. */
  lemma {:induction false} ContainsSlice(hay: string, needle: string)
    ensures Contains(hay, needle) <==> exists i :: SliceAt(hay, needle, i)
    decreases |hay|
  {
    if needle <= hay {
      assert SliceAt(hay, needle, 0);
    } else if |hay| > 0 {
      ContainsSlice(hay[1..], needle);
      if exists i :: SliceAt(hay, needle, i) {
        var i :| SliceAt(hay, needle, i);
        assert i != 0;
        assert hay[1..][i - 1..i - 1 + |needle|] == hay[i..i + |needle|];
        assert SliceAt(hay[1..], needle, i - 1);
      }
      if exists j :: SliceAt(hay[1..], needle, j) {
        var j :| SliceAt(hay[1..], needle, j);
        assert hay[1..][j..j + |needle|] == hay[j + 1..j + 1 + |needle|];
        assert SliceAt(hay, needle, j + 1);
      }
    } else {
      assert forall i :: !SliceAt(hay, needle, i);
    }
  }

  /** `explode($d, $s)`: the pieces of `s` between occurrences of `d`, in order. */
  function Split(s: string, d: char): (r: seq<string>)
    ensures |r| >= 1
    ensures forall k :: 0 <= k < |r| ==> d !in r[k]
    decreases |s|
  {
    match IndexOf(s, d)
    case None => [s]
    case Some(i) => [s[..i]] + Split(s[i + 1..], d)
  }

  /** `implode($d, $ps)`. */
  function Join(ps: seq<string>, d: char): string
    decreases |ps|
  {
    if |ps| == 0 then ""
    else if |ps| == 1 then ps[0]
    else ps[0] + [d] + Join(ps[1..], d)
  }

  /** Exploding an imploded list gives the list back when no piece holds the delimiter. */
  lemma {:induction false} SplitJoin(ps: seq<string>, d: char)
    requires |ps| >= 1
    requires forall k :: 0 <= k < |ps| ==> d !in ps[k]
    ensures Split(Join(ps, d), d) == ps
    decreases |ps|
  {
    if |ps| > 1 {
      var rest := Join(ps[1..], d);
      IndexOfFirst(ps[0], d, rest);
      var s := ps[0] + [d] + rest;
      assert s[..|ps[0]|] == ps[0];
      assert s[|ps[0]| + 1..] == rest;
      SplitJoin(ps[1..], d);
    }
  }

  /** Imploding the pieces of an exploded string gives the string back. */
  lemma {:induction false} JoinSplit(s: string, d: char)
    ensures Join(Split(s, d), d) == s
    decreases |s|
  {
    match IndexOf(s, d)
    case None =>
    case Some(i) =>
      var rest := Split(s[i + 1..], d);
      JoinSplit(s[i + 1..], d);
      var ps := [s[..i]] + rest;
      assert Split(s, d) == ps;
      assert |ps| >= 2 && ps[0] == s[..i] && ps[1..] == rest;
      assert Join(ps, d) == s[..i] + [d] + s[i + 1..];
      assert s == s[..i] + [d] + s[i + 1..] by {
        assert s[i] == d;
      }
  }

  /** Exploding at a first delimiter yields the part before it, then the pieces of the rest. */
  lemma SplitFirst(p: string, d: char, q: string)
    requires d !in p
    ensures Split(p + [d] + q, d) == [p] + Split(q, d)
  {
    var s := p + [d] + q;
    IndexOfFirst(p, d, q);
    assert s[..|p|] == p && s[|p| + 1..] == q;
  }

  /** The first piece ends where the text or the first delimiter does. */
  lemma SplitHead(p: string, d: char, t: string)
    requires d !in p
    requires t == [] || t[0] == d
    ensures Split(p + t, d)[0] == p
  {
    if t == [] {
      assert p + t == p;
    } else {
      assert p + t == p + [d] + t[1..];
      SplitFirst(p, d, t[1..]);
    }
  }

  /** `strtolower` on ASCII letters (PHP 8.2 and later are locale-insensitive). */
  function LowerChar(c: char): char {
    if 'A' <= c <= 'Z' then (c as int + 32) as char else c
  }

  function Lower(s: string): (r: string)
    ensures |r| == |s| && forall i :: 0 <= i < |s| ==> r[i] == LowerChar(s[i])
  {
    seq(|s|, i requires 0 <= i < |s| => LowerChar(s[i]))
  }

  /** PHP's truthiness of a string: everything except "" and "0". A `null` behaves as "". */
  predicate Truthy(s: string) {
    s != "" && s != "0"
  }

  /** `htmlspecialchars` as PHP 8.1 and later apply it by default (ENT_QUOTES): the five
      characters `& < > " '` become entities and every other character is kept. */
  function EscapeChar(c: char): string {
    if c == '&' then "&amp;"
    else if c == '<' then "&lt;"
    else if c == '>' then "&gt;"
    else if c == '"' then "&quot;"
    else if c == '\'' then "&#039;"
    else [c]
  }

  function EscapeHtml(s: string): string
    decreases |s|
  {
    if s == [] then [] else EscapeChar(s[0]) + EscapeHtml(s[1..])
  }

  /** The markup characters that escaped text never contains. */
  predicate IsMarkup(c: char) {
    c == '<' || c == '>' || c == '"' || c == '\''
  }

  /** The five entities `htmlspecialchars` writes. */
  predicate StartsEntity(t: string) {
    "&amp;" <= t || "&lt;" <= t || "&gt;" <= t || "&quot;" <= t || "&#039;" <= t
  }

  /** The decoding direction of `EscapeHtml` (`htmlspecialchars_decode` with ENT_QUOTES). */
  function UnescapeHtml(s: string): string
    decreases |s|
  {
    if s == [] then []
    else if "&amp;" <= s then "&" + UnescapeHtml(s[5..])
    else if "&lt;" <= s then "<" + UnescapeHtml(s[4..])
    else if "&gt;" <= s then ">" + UnescapeHtml(s[4..])
    else if "&quot;" <= s then "\"" + UnescapeHtml(s[6..])
    else if "&#039;" <= s then "'" + UnescapeHtml(s[6..])
    else [s[0]] + UnescapeHtml(s[1..])
  }

  lemma UnescapeAmp(rest: string)
    ensures UnescapeHtml("&amp;" + rest) == "&" + UnescapeHtml(rest)
  {
    var e := "&amp;" + rest;
    assert "&amp;" <= e && e[5..] == rest;
  }

  lemma UnescapeLt(rest: string)
    ensures UnescapeHtml("&lt;" + rest) == "<" + UnescapeHtml(rest)
  {
    var e := "&lt;" + rest;
    assert e[1] != "&amp;"[1];
    assert "&lt;" <= e && e[4..] == rest;
  }

  lemma UnescapeGt(rest: string)
    ensures UnescapeHtml("&gt;" + rest) == ">" + UnescapeHtml(rest)
  {
    var e := "&gt;" + rest;
    assert e[1] != "&amp;"[1] && e[1] != "&lt;"[1];
    assert "&gt;" <= e && e[4..] == rest;
  }

  lemma UnescapeQuot(rest: string)
    ensures UnescapeHtml("&quot;" + rest) == "\"" + UnescapeHtml(rest)
  {
    var e := "&quot;" + rest;
    assert e[1] != "&amp;"[1] && e[1] != "&lt;"[1] && e[1] != "&gt;"[1];
    assert "&quot;" <= e && e[6..] == rest;
  }

  lemma UnescapeApos(rest: string)
    ensures UnescapeHtml("&#039;" + rest) == "'" + UnescapeHtml(rest)
  {
    var e := "&#039;" + rest;
    assert e[1] != "&amp;"[1] && e[1] != "&lt;"[1] && e[1] != "&gt;"[1] && e[1] != "&quot;"[1];
    assert "&#039;" <= e && e[6..] == rest;
  }

  lemma UnescapePlain(c: char, rest: string)
    requires c != '&'
    ensures UnescapeHtml([c] + rest) == [c] + UnescapeHtml(rest)
  {
    var e := [c] + rest;
    assert e[0] == c && e[1..] == rest;
  }

  lemma UnescapeChar(c: char, rest: string)
    ensures UnescapeHtml(EscapeChar(c) + rest) == [c] + UnescapeHtml(rest)
  {
    if c == '&' {
      UnescapeAmp(rest);
    } else if c == '<' {
      UnescapeLt(rest);
    } else if c == '>' {
      UnescapeGt(rest);
    } else if c == '"' {
      UnescapeQuot(rest);
    } else if c == '\'' {
      UnescapeApos(rest);
    } else {
      UnescapePlain(c, rest);
    }
  }

  /** Escaping loses nothing: decoding the escaped text gives the original text back. */
  lemma {:induction false} UnescapeEscape(s: string)
    ensures UnescapeHtml(EscapeHtml(s)) == s
    decreases |s|
  {
    if s != [] {
      UnescapeChar(s[0], EscapeHtml(s[1..]));
      UnescapeEscape(s[1..]);
      assert s == [s[0]] + s[1..];
    }
  }

  /** Escaped text holds no markup character, so it cannot close or open an element or
      end an attribute value. */
  lemma {:induction false} EscapeHasNoMarkup(s: string)
    ensures forall i :: 0 <= i < |EscapeHtml(s)| ==> !IsMarkup(EscapeHtml(s)[i])
    decreases |s|
  {
    if s != [] {
      EscapeHasNoMarkup(s[1..]);
      var e := EscapeChar(s[0]);
      assert forall i :: 0 <= i < |e| ==> !IsMarkup(e[i]);
      assert EscapeHtml(s) == e + EscapeHtml(s[1..]);
      forall i | 0 <= i < |EscapeHtml(s)| ensures !IsMarkup(EscapeHtml(s)[i]) {
        if i >= |e| {
          assert EscapeHtml(s)[i] == EscapeHtml(s[1..])[i - |e|];
        }
      }
    }
  }

  /** An escaped character holds `&` only at its start, and then begins an entity. */
  lemma EscapeCharAmpersand(c: char, rest: string)
    ensures forall i :: 0 <= i < |EscapeChar(c)| && EscapeChar(c)[i] == '&' ==> i == 0
    ensures EscapeChar(c)[0] == '&' ==> StartsEntity(EscapeChar(c) + rest)
  {
  }

  /** Every `&` in escaped text begins one of the five entities: no bare ampersand is left. */
  lemma {:induction false} EscapeAmpersandsAreEntities(s: string)
    ensures forall i :: 0 <= i < |EscapeHtml(s)| && EscapeHtml(s)[i] == '&' ==> StartsEntity(EscapeHtml(s)[i..])
    decreases |s|
  {
    if s != [] {
      EscapeAmpersandsAreEntities(s[1..]);
      var e := EscapeChar(s[0]);
      var rest := EscapeHtml(s[1..]);
      EscapeCharAmpersand(s[0], rest);
      assert EscapeHtml(s) == e + rest;
      forall i | 0 <= i < |e + rest| && (e + rest)[i] == '&' ensures StartsEntity((e + rest)[i..]) {
        if i >= |e| {
          assert (e + rest)[i..] == rest[i - |e|..];
          assert rest[i - |e|] == '&';
        } else {
          assert (e + rest)[i] == e[i];
          assert (e + rest)[i..] == e + rest;
        }
      }
    }
  }
}
