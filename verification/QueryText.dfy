/** Normalising what a user typed into the search box, and trimming index tokens
    (server/src/search/mod.rs, lines 604 to 614 and 981 to 1029). */
module QueryText {
  import opened Prelude

  type Text = seq<char>

  /** The Unicode classes the code asks for, with the few facts about them it relies on. */
  datatype Chars = Chars(alphanumeric: char -> bool, whitespace: char -> bool, lowercase: Text -> Text) {
    ghost predicate Valid() {
      && (forall c :: alphanumeric(c) ==> !whitespace(c))
      && whitespace(' ')
      && !whitespace('_') && !whitespace('"') && !alphanumeric('"')
      && alphanumeric('A') && alphanumeric('N') && alphanumeric('D') && alphanumeric('O')
      && alphanumeric('R') && alphanumeric('T')
      && alphanumeric('a') && alphanumeric('n') && alphanumeric('d') && alphanumeric('o')
      && alphanumeric('r') && alphanumeric('t')
    }

    predicate Kept(c: char) {
      c == '_' || alphanumeric(c) || whitespace(c)
    }

    predicate WordChar(c: char) {
      c == '_' || alphanumeric(c)
    }

    function TrimStart(s: Text): Text {
      if s != [] && whitespace(s[0]) then TrimStart(s[1..]) else s
    }

    function TrimEnd(s: Text): Text {
      if s != [] && whitespace(s[|s| - 1]) then TrimEnd(s[..|s| - 1]) else s
    }

    function Trim(s: Text): Text {
      TrimEnd(TrimStart(s))
    }

    /** Every character that is not kept becomes a space. */
    function Clean(s: Text): (r: Text)
      ensures |r| == |s|
      ensures forall i :: 0 <= i < |s| ==> r[i] == if Kept(s[i]) then s[i] else ' '
    {
      seq(|s|, i requires 0 <= i < |s| => if Kept(s[i]) then s[i] else ' ')
    }

    /** The maximal runs of characters that are not whitespace; `current` is the run being read. */
    function Words(s: Text, current: Text): seq<Text>
      decreases |s|
    {
      if s == [] then (if current == [] then [] else [current])
      else if whitespace(s[0]) then (if current == [] then [] else [current]) + Words(s[1..], [])
      else Words(s[1..], current + [s[0]])
    }
  }

  const MAX_QUERY_CHARS: int := 256
  const MAX_PREFIX_CHARS: int := 64

  function Quotes(s: Text): nat {
    if s == [] then 0 else (if s[0] == '"' then 1 else 0) + Quotes(s[1..])
  }

  function Unquote(s: Text): (r: Text)
    ensures |r| == |s|
    ensures forall i :: 0 <= i < |s| ==> r[i] == if s[i] == '"' then ' ' else s[i]
  {
    seq(|s|, i requires 0 <= i < |s| => if s[i] == '"' then ' ' else s[i])
  }

  /** The parser's operators lose their meaning. */
  function Plain(word: Text): Text {
    if word == "AND" then "and" else if word == "OR" then "or" else if word == "NOT" then "not" else word
  }

  function PlainAll(words: seq<Text>): (r: seq<Text>)
    ensures |r| == |words|
    ensures forall i :: 0 <= i < |words| ==> r[i] == Plain(words[i])
  {
    seq(|words|, i requires 0 <= i < |words| => Plain(words[i]))
  }

  function JoinWords(words: seq<Text>): Text {
    if words == [] then [] else if |words| == 1 then words[0] else words[0] + [' '] + JoinWords(words[1..])
  }

  function Take(s: Text, n: nat): Text {
    if |s| <= n then s else s[..n]
  }

  function NormalizedWords(raw: Text, ch: Chars): seq<Text> {
    var value := Take(ch.Trim(raw), MAX_QUERY_CHARS);
    var balanced := if Quotes(value) % 2 == 1 then Unquote(value) else value;
    PlainAll(ch.Words(ch.Clean(balanced), []))
  }

  function Normalized(raw: Option<Text>, ch: Chars): Option<Text> {
    if raw.None? || ch.Trim(raw.value) == [] then None
    else if JoinWords(NormalizedWords(raw.value, ch)) == [] then None
    else Some(JoinWords(NormalizedWords(raw.value, ch)))
  }

  /** The code: one pass cleans the characters, then words are split, renamed and joined. */
  method NormalizedQuery(raw: Option<Text>, ch: Chars) returns (r: Option<Text>)
    ensures r == Normalized(raw, ch)
  {
    if raw.None? {
      return None;
    }
    var trimmed := ch.Trim(raw.value);
    if trimmed == [] {
      return None;
    }
    var value := Take(trimmed, MAX_QUERY_CHARS);
    if Quotes(value) % 2 == 1 {
      value := Unquote(value);
    }
    var normalized: Text := [];
    for i := 0 to |value|
      invariant normalized == ch.Clean(value)[..i]
    {
      if value[i] == '_' || ch.alphanumeric(value[i]) || ch.whitespace(value[i]) {
        normalized := normalized + [value[i]];
      } else {
        normalized := normalized + [' '];
      }
    }
    assert normalized == ch.Clean(value);
    var joined := JoinWords(PlainAll(ch.Words(normalized, [])));
    return if joined == [] then None else Some(joined);
  }

  // ---------- what the result looks like ----------

  ghost predicate IsWord(w: Text, ch: Chars) {
    w != [] && forall i :: 0 <= i < |w| ==> ch.WordChar(w[i])
  }

  ghost predicate AreWords(ws: seq<Text>, ch: Chars) {
    forall i :: 0 <= i < |ws| ==> IsWord(ws[i], ch)
  }

  /** Words separated by single spaces, none of them an operator, at most 256 characters. */
  ghost predicate IsNormal(s: Text, ch: Chars) {
    |s| <= 256 && exists ws :: NormalOf(ws, s, ch)
  }

  ghost predicate NormalOf(ws: seq<Text>, s: Text, ch: Chars) {
    ws != [] && AreWords(ws, ch) && (forall i :: 0 <= i < |ws| ==> ws[i] !in ["AND", "OR", "NOT"]) && s == JoinWords(ws)
  }

  /** Splitting cleaned text yields words, and joining them again is no longer than the text. */
  lemma {:induction false} WordsAreWords(s: Text, current: Text, ch: Chars)
    requires ch.Valid()
    requires forall i :: 0 <= i < |s| ==> ch.Kept(s[i])
    requires forall i :: 0 <= i < |current| ==> ch.WordChar(current[i])
    ensures AreWords(ch.Words(s, current), ch)
    ensures |JoinWords(ch.Words(s, current))| <= |current| + |s|
    decreases |s|
  {
    if s == [] {
    } else if ch.whitespace(s[0]) {
      WordsAreWords(s[1..], [], ch);
      var rest := ch.Words(s[1..], []);
      if current != [] {
        var all := [current] + rest;
        assert all[1..] == rest && IsWord(current, ch);
        assert ch.Words(s, current) == all;
        forall i | 0 <= i < |all|
          ensures IsWord(all[i], ch)
        {
          assert i > 0 ==> all[i] == rest[i - 1];
        }
        assert rest == [] ==> JoinWords(all) == current;
      } else {
        assert ch.Words(s, current) == [] + rest == rest;
      }
    } else {
      WordsAreWords(s[1..], current + [s[0]], ch);
    }
  }

  lemma {:induction false} PlainKeeps(ws: seq<Text>, ch: Chars)
    requires ch.Valid() && AreWords(ws, ch)
    ensures AreWords(PlainAll(ws), ch) && |JoinWords(PlainAll(ws))| == |JoinWords(ws)|
    ensures forall i :: 0 <= i < |ws| ==> PlainAll(ws)[i] !in ["AND", "OR", "NOT"]
  {
    if ws != [] {
      PlainKeeps(ws[1..], ch);
      assert PlainAll(ws)[1..] == PlainAll(ws[1..]);
      assert IsWord(ws[0], ch);
      assert IsWord(Plain(ws[0]), ch);
      forall i | 0 <= i < |ws|
        ensures IsWord(PlainAll(ws)[i], ch) && PlainAll(ws)[i] !in ["AND", "OR", "NOT"]
      {
        if i > 0 {
          assert PlainAll(ws)[i] == PlainAll(ws[1..])[i - 1];
        }
      }
    }
  }

  lemma {:induction false} TrimShrinks(s: Text, ch: Chars)
    ensures |ch.TrimStart(s)| <= |s| && |ch.TrimEnd(s)| <= |s|
  {
    if s != [] {
      if ch.whitespace(s[0]) {
        TrimShrinks(s[1..], ch);
      }
      if ch.whitespace(s[|s| - 1]) {
        TrimShrinks(s[..|s| - 1], ch);
      }
    }
  }

  /** Whatever was typed, the normalised query is normal. */
  lemma {:induction false} NormalizedIsNormal(raw: Option<Text>, ch: Chars)
    requires ch.Valid() && Normalized(raw, ch).Some?
    ensures IsNormal(Normalized(raw, ch).value, ch)
  {
    var value := Take(ch.Trim(raw.value), MAX_QUERY_CHARS);
    var balanced := if Quotes(value) % 2 == 1 then Unquote(value) else value;
    var clean := ch.Clean(balanced);
    WordsAreWords(clean, [], ch);
    var ws := ch.Words(clean, []);
    PlainKeeps(ws, ch);
    assert NormalOf(PlainAll(ws), Normalized(raw, ch).value, ch);
  }

  /** The balancing of quotes never makes a difference: every quote becomes a space in any case. */
  lemma {:induction false} QuotesDoNotMatter(value: Text, ch: Chars)
    requires ch.Valid()
    ensures ch.Clean(Unquote(value)) == ch.Clean(value)
  {
  }

  /** So the words are those of the first 256 characters of what is left after trimming. */
  lemma {:induction false} BalancingHasNoEffect(raw: Text, ch: Chars)
    requires ch.Valid()
    ensures var typed := ch.Trim(raw);
            NormalizedWords(raw, ch)
            == PlainAll(ch.Words(ch.Clean(if |typed| > 256 then typed[..256] else typed), []))
  {
    QuotesDoNotMatter(Take(ch.Trim(raw), MAX_QUERY_CHARS), ch);
  }

  // ---------- idempotence ----------

  lemma {:induction false} WordsReadWord(w: Text, rest: Text, current: Text, ch: Chars)
    requires ch.Valid() && forall i :: 0 <= i < |w| ==> ch.WordChar(w[i])
    ensures ch.Words(w + rest, current) == ch.Words(rest, current + w)
    decreases |w|
  {
    if w == [] {
      assert w + rest == rest && current + w == current;
    } else {
      assert (w + rest)[0] == w[0] && (w + rest)[1..] == w[1..] + rest;
      WordsReadWord(w[1..], rest, current + [w[0]], ch);
      assert current + [w[0]] + w[1..] == current + w;
    }
  }

  /** Splitting undoes joining. */
  lemma {:induction false} SplitJoin(ws: seq<Text>, ch: Chars)
    requires ch.Valid() && AreWords(ws, ch)
    ensures ch.Words(JoinWords(ws), []) == ws
  {
    if ws != [] {
      assert IsWord(ws[0], ch);
      if |ws| == 1 {
        WordsReadWord(ws[0], [], [], ch);
        assert ws[0] + [] == ws[0] && [] + ws[0] == ws[0];
      } else {
        SplitJoin(ws[1..], ch);
        var rest := [' '] + JoinWords(ws[1..]);
        assert JoinWords(ws) == ws[0] + rest;
        WordsReadWord(ws[0], rest, [], ch);
        assert [] + ws[0] == ws[0] && rest[1..] == JoinWords(ws[1..]);
      }
    }
  }

  lemma {:induction false} JoinEdges(ws: seq<Text>, ch: Chars)
    requires ch.Valid() && AreWords(ws, ch) && ws != []
    ensures var s := JoinWords(ws);
            && s != [] && !ch.whitespace(s[0]) && !ch.whitespace(s[|s| - 1])
            && forall i :: 0 <= i < |s| ==> ch.Kept(s[i])
  {
    assert IsWord(ws[0], ch);
    if |ws| > 1 {
      JoinEdges(ws[1..], ch);
    }
  }

  /** A normal query normalises to itself. */
  lemma {:induction false} NormalIsFixed(s: Text, ch: Chars)
    requires ch.Valid() && IsNormal(s, ch)
    ensures Normalized(Some(s), ch) == Some(s)
  {
    var ws :| NormalOf(ws, s, ch);
    JoinEdges(ws, ch);
    assert ch.Trim(s) == s;
    BalancingHasNoEffect(s, ch);
    assert ch.Clean(s) == s;
    SplitJoin(ws, ch);
    assert PlainAll(ws) == ws;
  }

  /** Normalising is idempotent. */
  lemma {:induction false} NormalizingTwiceIsOnce(raw: Option<Text>, ch: Chars)
    requires ch.Valid()
    ensures Normalized(Normalized(raw, ch), ch) == Normalized(raw, ch)
  {
    if Normalized(raw, ch).Some? {
      NormalizedIsNormal(raw, ch);
      NormalIsFixed(Normalized(raw, ch).value, ch);
    }
  }

  // ---------- token bounds, in UTF-8 bytes ----------

  /** The bytes of a character in UTF-8 (section 3 of RFC 3629). */
  function Utf8Len(c: char): (n: nat)
    ensures n == 1 <==> c as int <= 0x7f
    ensures n == 2 <==> 0x80 <= c as int <= 0x7ff
    ensures n == 3 <==> 0x800 <= c as int <= 0xffff
    ensures n == 4 <==> 0x1_0000 <= c as int
  {
    if c as int < 0x80 then 1 else if c as int < 0x800 then 2 else if c as int < 0x1_0000 then 3 else 4
  }

  function ByteLen(s: Text): nat {
    if s == [] then 0 else ByteLen(s[..|s| - 1]) + Utf8Len(s[|s| - 1])
  }

  lemma {:induction false} ByteLenMonotone(s: Text, i: nat, j: nat)
    requires i <= j <= |s|
    ensures ByteLen(s[..i]) <= ByteLen(s[..j])
    ensures i < j ==> ByteLen(s[..i]) < ByteLen(s[..j])
  {
    if i < j {
      ByteLenMonotone(s, i, j - 1);
      assert s[..j][..j - 1] == s[..j - 1];
    }
  }

  /** `[from, to)` counts characters and contains every alphanumeric of `s`. */
  ghost predicate Covers(s: Text, from: int, to: int, ch: Chars) {
    0 <= from <= to <= |s| && forall i :: 0 <= i < |s| && ch.alphanumeric(s[i]) ==> from <= i < to
  }

  /** `[from, to)` covers every alphanumeric and lies within every other covering slice. */
  ghost predicate Tightest(s: Text, from: int, to: int, ch: Chars) {
    && Covers(s, from, to, ch)
    && forall a, b :: Covers(s, a, b, ch) ==> a <= from && to <= b
  }

  /** The byte offsets of the smallest character-aligned slice that holds every alphanumeric; none if
      there is no alphanumeric. */
  method TokenTextBounds(value: Text, ch: Chars) returns (r: Option<(nat, nat)>, ghost from: nat, ghost to: nat)
    ensures r.None? <==> forall i :: 0 <= i < |value| ==> !ch.alphanumeric(value[i])
    ensures r.Some? ==>
              && from < to <= |value| && Tightest(value, from, to, ch)
              && r.value == (ByteLen(value[..from]), ByteLen(value[..to]))
              && r.value.0 < r.value.1 <= ByteLen(value)
  {
    var start: Option<nat> := None;
    var end: nat := 0;
    var index: nat := 0;
    from, to := 0, 0;
    for i := 0 to |value|
      invariant index == ByteLen(value[..i])
      invariant start.None? ==> forall k :: 0 <= k < i ==> !ch.alphanumeric(value[k])
      invariant start.Some? ==>
                  && from < to <= i && start.value == ByteLen(value[..from]) && end == ByteLen(value[..to])
                  && ch.alphanumeric(value[from]) && ch.alphanumeric(value[to - 1])
                  && forall k :: 0 <= k < i && ch.alphanumeric(value[k]) ==> from <= k < to
    {
      assert value[..i + 1][..i] == value[..i];
      if ch.alphanumeric(value[i]) {
        if start.None? {
          start := Some(index);
          from := i;
        }
        end := index + Utf8Len(value[i]);
        to := i + 1;
      }
      index := index + Utf8Len(value[i]);
    }
    if start.None? {
      return None, from, to;
    }
    assert value[..|value|] == value;
    ByteLenMonotone(value, from, to);
    ByteLenMonotone(value, to, |value|);
    return Some((start.value, end)), from, to;
  }

  /** The characters whose bytes lie between two byte offsets: what slicing a string by bytes yields. */
  function ByteSlice(s: Text, a: nat, b: nat): Text {
    if s == [] then []
    else
      var n := |s| - 1;
      ByteSlice(s[..n], a, b) + if a <= ByteLen(s[..n]) && ByteLen(s) <= b then [s[n]] else []
  }

  /** Byte offsets order the characters as their indices do. */
  lemma {:induction false} ByteLenOrders(s: Text, i: nat, j: nat)
    requires i <= |s| && j <= |s|
    ensures i <= j <==> ByteLen(s[..i]) <= ByteLen(s[..j])
  {
    if i <= j {
      ByteLenMonotone(s, i, j);
    } else {
      ByteLenMonotone(s, j, i);
    }
  }

  lemma {:induction false} ByteSlicePrefix(s: Text, m: nat, from: nat, to: nat)
    requires m <= |s| && from <= to <= |s|
    ensures ByteSlice(s[..m], ByteLen(s[..from]), ByteLen(s[..to]))
            == if m <= from then [] else s[from..Min(m, to)]
  {
    if m == 0 {
    } else {
      var n := m - 1;
      ByteSlicePrefix(s, n, from, to);
      assert s[..m][..n] == s[..n];
      ByteLenOrders(s, from, n);
      ByteLenOrders(s, m, to);
      assert from <= n && m <= to ==> s[from..m] == s[from..n] + [s[n]];
    }
  }

  /** Slicing at the byte offsets of two character boundaries yields the characters between them. */
  lemma {:induction false} ByteSliceAligned(s: Text, from: nat, to: nat)
    requires from <= to <= |s|
    ensures ByteSlice(s, ByteLen(s[..from]), ByteLen(s[..to])) == s[from..to]
  {
    ByteSlicePrefix(s, |s|, from, to);
    assert s[..|s|] == s;
  }

  // ---------- the prefix a query may be ----------

  function StripStart(s: Text, ch: Chars): Text {
    if s != [] && !ch.alphanumeric(s[0]) then StripStart(s[1..], ch) else s
  }

  function StripEnd(s: Text, ch: Chars): Text {
    if s != [] && !ch.alphanumeric(s[|s| - 1]) then StripEnd(s[..|s| - 1], ch) else s
  }

  /** What is left of a text when everything that is not alphanumeric is taken off both its ends. */
  function Core(s: Text, ch: Chars): Text {
    StripEnd(StripStart(s, ch), ch)
  }

  lemma {:induction false} StripStartIs(s: Text, from: nat, ch: Chars)
    requires from < |s| && ch.alphanumeric(s[from]) && forall i :: 0 <= i < from ==> !ch.alphanumeric(s[i])
    ensures StripStart(s, ch) == s[from..]
  {
    if from > 0 {
      StripStartIs(s[1..], from - 1, ch);
    }
  }

  lemma {:induction false} StripEndIs(s: Text, to: nat, ch: Chars)
    requires 0 < to <= |s| && ch.alphanumeric(s[to - 1]) && forall i :: to <= i < |s| ==> !ch.alphanumeric(s[i])
    ensures StripEnd(s, ch) == s[..to]
    decreases |s|
  {
    if to < |s| {
      StripEndIs(s[..|s| - 1], to, ch);
      assert s[..|s| - 1][..to] == s[..to];
    }
  }

  /** The tightest covering slice is the core. */
  lemma {:induction false} TightestIsCore(s: Text, from: nat, to: nat, ch: Chars)
    requires from < to && Tightest(s, from, to, ch)
    ensures Core(s, ch) == s[from..to]
  {
    assert !Covers(s, from + 1, to, ch) && !Covers(s, from, to - 1, ch);
    var first :| 0 <= first < |s| && ch.alphanumeric(s[first]) && !(from + 1 <= first < to);
    var last :| 0 <= last < |s| && ch.alphanumeric(s[last]) && !(from <= last < to - 1);
    assert first == from && last == to - 1;
    StripStartIs(s, from, ch);
    StripEndIs(s[from..], to - from, ch);
    assert s[from..][..to - from] == s[from..to];
  }

  function TrimAt(s: Text): Text {
    if s != [] && s[0] == '@' then TrimAt(s[1..]) else s
  }

  /** It takes off exactly the leading characters of that kind. */
  lemma {:induction false} TrimAtFacts(s: Text) returns (n: nat)
    ensures n <= |s| && TrimAt(s) == s[n..]
    ensures (forall i :: 0 <= i < n ==> s[i] == '@') && (n < |s| ==> s[n] != '@')
  {
    n := 0;
    if s != [] && s[0] == '@' {
      n := TrimAtFacts(s[1..]);
      n := n + 1;
    }
  }

  function Bare(s: Text, ch: Chars): Text {
    ch.Trim(TrimAt(ch.Trim(s)))
  }

  function Keyword(s: Text, ch: Chars): Text {
    ch.lowercase(Bare(s, ch))
  }

  ghost predicate HasAlphanumeric(s: Text, ch: Chars) {
    exists i :: 0 <= i < |s| && ch.alphanumeric(s[i])
  }

  /** The prefix a query stands for: the lower-cased core of its first 64 characters. */
  ghost function Prefix(raw: Text, ch: Chars): Option<Text> {
    var bare := Bare(raw, ch);
    var value := if |bare| > 64 then bare[..64] else bare;
    if !HasAlphanumeric(value, ch) || Keyword(Core(value, ch), ch) == [] then None
    else Some(Keyword(Core(value, ch), ch))
  }

  method NormalizedPrefixQuery(rawQuery: Text, ch: Chars) returns (r: Option<Text>)
    ensures r == Prefix(rawQuery, ch)
  {
    var raw := Bare(rawQuery, ch);
    if raw == [] {
      return None;
    }
    var value := Take(raw, MAX_PREFIX_CHARS);
    var bounds, from, to := TokenTextBounds(value, ch);
    if bounds.None? {
      return None;
    }
    var token := ByteSlice(value, bounds.value.0, bounds.value.1);
    ByteSliceAligned(value, from, to);
    TightestIsCore(value, from, to, ch);
    assert HasAlphanumeric(value, ch);
    var prefix := Keyword(token, ch);
    return if prefix == [] then None else Some(prefix);
  }
}
