/** Compiling a search request into a boolean query tree (server/src/search/mod.rs, lines 632 to 710
    and 818 to 854). */
module TweetQuery {
  import opened Prelude
  import opened QueryText

  datatype Field = IdField | AuthorIdField | RelationField | IdPrefixField | AuthorIdPrefixField

  datatype TermValue = Number(n: int) | Word(text: Text)

  datatype Occur = Should | Must

  datatype Query =
    | AllQuery
    | EmptyQuery
    | TermQuery(field: Field, value: TermValue)
    | ParsedQuery(text: Text)
    | BoostQuery(query: Query, factor: nat)
    | BooleanQuery(clauses: seq<Clause>)

  datatype Clause = Clause(occur: Occur, query: Query)

  /** An indexed tweet: the exact fields, the terms its prefix fields were tokenised into, and the
      normalised texts its body matches. */
  datatype Document = Document(
    id: int, authorId: int, relation: Text,
    idPrefixes: set<Text>, authorIdPrefixes: set<Text>, bodyMatches: set<Text>)

  predicate TermMatches(field: Field, value: TermValue, doc: Document) {
    match field
    case IdField => value == Number(doc.id)
    case AuthorIdField => value == Number(doc.authorId)
    case RelationField => value == Word(doc.relation)
    case IdPrefixField => value.Word? && value.text in doc.idPrefixes
    case AuthorIdPrefixField => value.Word? && value.text in doc.authorIdPrefixes
  }

  /** A boolean query needs all its `Must` clauses; without any, at least one `Should` clause. */
  predicate Matches(q: Query, doc: Document)
    decreases q
  {
    match q
    case AllQuery => true
    case EmptyQuery => false
    case TermQuery(field, value) => TermMatches(field, value, doc)
    case ParsedQuery(text) => text in doc.bodyMatches
    case BoostQuery(inner, _) => Matches(inner, doc)
    case BooleanQuery(clauses) =>
      && (forall c :: c in clauses && c.occur == Must ==> Matches(c.query, doc))
      && ((exists c :: c in clauses && c.occur == Must)
          || (exists c :: c in clauses && c.occur == Should && Matches(c.query, doc)))
  }

  datatype Filters = Filters(tweetIds: seq<int>, authorIds: seq<int>, authorId: Option<int>, relation: Option<Text>)

  function Authors(filters: Filters): seq<int> {
    (if filters.authorId.Some? then [filters.authorId.value] else []) + filters.authorIds
  }

  // ---------- the meaning of a request ----------

  /** Something other than whitespace was typed. */
  ghost predicate HasText(raw: Option<Text>, ch: Chars) {
    raw.Some? && ch.Trim(raw.value) != []
  }

  ghost predicate PrefixHit(raw: Option<Text>, doc: Document, ch: Chars) {
    raw.Some? && Prefix(raw.value, ch).Some?
    && (Prefix(raw.value, ch).value in doc.idPrefixes || Prefix(raw.value, ch).value in doc.authorIdPrefixes)
  }

  /** What the typed text asks of a document: that its body matches the normalised query or one of its
      prefix fields the prefix; no text asks nothing, and text of which nothing can be made is refused. */
  ghost predicate TextAccepts(raw: Option<Text>, doc: Document, ch: Chars) {
    HasText(raw, ch) ==>
      || (Normalized(raw, ch).Some? && Normalized(raw, ch).value in doc.bodyMatches)
      || PrefixHit(raw, doc, ch)
  }

  /** Each filter that is given: one of the ids, one of the authors, be it the single one or one of the list,
      and the relation, unless it is that of all tweets. */
  ghost predicate FiltersAccept(f: Filters, doc: Document) {
    && (f.tweetIds != [] ==> doc.id in f.tweetIds)
    && (f.authorId.Some? || f.authorIds != [] ==> f.authorId == Some(doc.authorId) || doc.authorId in f.authorIds)
    && (f.relation.Some? && f.relation.value != "all" ==> doc.relation == f.relation.value)
  }

  /** How the alternatives of a typed text weigh: a hit in the body three times, one by the id of the tweet a
      hundred times and one by that of its author fifty times. */
  ghost function Weighted(raw: Option<Text>, ch: Chars): seq<Clause> {
    (if Normalized(raw, ch).None? then []
     else [Clause(Should, BoostQuery(ParsedQuery(Normalized(raw, ch).value), 3))])
    + (if raw.None? || Prefix(raw.value, ch).None? then []
       else [Clause(Should, BoostQuery(TermQuery(IdPrefixField, Word(Prefix(raw.value, ch).value)), 100)),
             Clause(Should, BoostQuery(TermQuery(AuthorIdPrefixField, Word(Prefix(raw.value, ch).value)), 50))])
  }

  /** The query is that for the weighted alternatives, or requires it first of all. */
  ghost predicate Weighs(q: Query, alternatives: seq<Clause>) {
    q == BooleanQuery(alternatives)
    || (q.BooleanQuery? && q.clauses != [] && q.clauses[0] == Clause(Must, BooleanQuery(alternatives)))
  }

  // ---------- sorted, deduplicated id lists ----------

  predicate StrictlyAscending(s: seq<int>) {
    forall i, j :: 0 <= i < j < |s| ==> s[i] < s[j]
  }

  function InsertOnce(x: int, s: seq<int>): (r: seq<int>)
    requires StrictlyAscending(s)
    ensures StrictlyAscending(r)
    ensures forall y :: y in r <==> y == x || y in s
  {
    if s == [] then [x]
    else if x < s[0] then [x] + s
    else if x == s[0] then s
    else
      var rest := InsertOnce(x, s[1..]);
      assert forall y :: y in s <==> y == s[0] || y in s[1..];
      assert forall i :: 0 <= i < |rest| ==> rest[i] in rest;
      [s[0]] + rest
  }

  /** `sort_unstable` followed by `dedup`. */
  function SortDedup(values: seq<int>): (r: seq<int>)
    ensures StrictlyAscending(r) && forall i, j :: 0 <= i < j < |r| ==> r[i] < r[j]
    ensures forall y :: y in r <==> y in values
    ensures values != [] ==> r != []
  {
    if values == [] then []
    else
      assert forall y :: y in values <==> y == values[0] || y in values[1..];
      var r := InsertOnce(values[0], SortDedup(values[1..]));
      assert values[0] in r;
      r
  }

  // ---------- building ----------

  predicate IdFilterField(field: Field) {
    field == IdField || field == AuthorIdField
  }

  function FieldId(field: Field, doc: Document): int {
    if field == IdField then doc.id else doc.authorId
  }

  function IdTerm(field: Field, value: int): Clause {
    Clause(Should, TermQuery(field, Number(value)))
  }

  /** One clause stands for itself, several are alternatives. */
  function AnyOf(terms: seq<Clause>): Query
    requires terms != []
  {
    if |terms| == 1 then terms[0].query else BooleanQuery(terms)
  }

  lemma {:induction false} IdListMatches(terms: seq<Clause>, ids: seq<int>, field: Field, doc: Document)
    requires IdFilterField(field)
    requires ids != [] && |terms| == |ids| && forall k :: 0 <= k < |ids| ==> terms[k] == IdTerm(field, ids[k])
    ensures Matches(AnyOf(terms), doc) <==> FieldId(field, doc) in ids
  {
  }

  /** Adds one required clause that accepts exactly the listed ids, or nothing for an empty list. */
  method PushI64Filter(parts: seq<Clause>, field: Field, values: seq<int>) returns (r: seq<Clause>)
    requires IdFilterField(field)
    ensures values == [] ==> r == parts
    ensures parts <= r
    ensures values != [] ==> exists q :: r == parts + [Clause(Must, q)]
                                         && forall doc :: Matches(q, doc) <==> FieldId(field, doc) in values
  {
    if values == [] {
      return parts;
    }
    var ids := SortDedup(values);
    var terms: seq<Clause> := [];
    for i := 0 to |ids|
      invariant |terms| == i && forall k :: 0 <= k < i ==> terms[k] == IdTerm(field, ids[k])
    {
      terms := terms + [IdTerm(field, ids[i])];
    }
    var query := AnyOf(terms);
    forall doc
      ensures Matches(query, doc) <==> FieldId(field, doc) in values
    {
      IdListMatches(terms, ids, field, doc);
    }
    return parts + [Clause(Must, query)];
  }

  function PrefixClause(field: Field, prefix: Text, boost: nat): Clause {
    Clause(Should, BoostQuery(TermQuery(field, Word(prefix)), boost))
  }

  function BodyClause(text: Text): Clause {
    Clause(Should, BoostQuery(ParsedQuery(text), 3))
  }

  /** A query of alternatives only matches exactly when one of them does. */
  lemma {:induction false} AlternativesMatch(clauses: seq<Clause>, doc: Document)
    requires forall i :: 0 <= i < |clauses| ==> clauses[i].occur == Should
    ensures Matches(BooleanQuery(clauses), doc)
            <==> exists i :: 0 <= i < |clauses| && Matches(clauses[i].query, doc)
  {
  }

  function PrefixClauses(prefix: Option<Text>): seq<Clause> {
    if prefix.None? then []
    else [PrefixClause(IdPrefixField, prefix.value, 100), PrefixClause(AuthorIdPrefixField, prefix.value, 50)]
  }

  function BodyClauses(normalized: Option<Text>): seq<Clause> {
    if normalized.None? then [] else [BodyClause(normalized.value)]
  }

  lemma {:induction false} TextClausesMatch(normalized: Option<Text>, prefix: Option<Text>, doc: Document)
    ensures Matches(BooleanQuery(BodyClauses(normalized) + PrefixClauses(prefix)), doc)
            <==> || (normalized.Some? && normalized.value in doc.bodyMatches)
                 || (prefix.Some? && (prefix.value in doc.idPrefixes || prefix.value in doc.authorIdPrefixes))
  {
    var body, clauses := BodyClauses(normalized), BodyClauses(normalized) + PrefixClauses(prefix);
    AlternativesMatch(clauses, doc);
    if prefix.Some? {
      assert Matches(clauses[|body|].query, doc) <==> prefix.value in doc.idPrefixes;
      assert Matches(clauses[|body| + 1].query, doc) <==> prefix.value in doc.authorIdPrefixes;
    }
    if normalized.Some? {
      assert Matches(clauses[0].query, doc) <==> normalized.value in doc.bodyMatches;
    }
  }

  /** Builds the required clause for the typed text: no clause when none was typed, nothing at all
      (`r.None?`) when no document can match. Fails exactly when the parser refuses the normalised text. */
  method TextParts(raw: Option<Text>, ch: Chars, parses: Text -> bool) returns (ok: bool, r: Option<seq<Clause>>)
    ensures !ok <==> Normalized(raw, ch).Some? && !parses(Normalized(raw, ch).value)
    ensures ok && r.Some? ==> AllMust(r.value) && forall doc :: AllHold(r.value, doc) <==> TextAccepts(raw, doc, ch)
    ensures ok && r.None? ==> forall doc :: !TextAccepts(raw, doc, ch)
    ensures ok ==> r == if !HasText(raw, ch) then Some([]) else if Weighted(raw, ch) == [] then None
                        else Some([Clause(Must, BooleanQuery(Weighted(raw, ch)))])
  {
    var normalized := NormalizedQuery(raw, ch);
    var prefix := None;
    if raw.Some? {
      prefix := NormalizedPrefixQuery(raw.value, ch);
    }
    var clauses: seq<Clause> := [];
    if normalized.Some? {
      if !parses(normalized.value) {
        return false, None;
      }
      clauses := [BodyClause(normalized.value)];
    } else if raw.None? || ch.Trim(raw.value) == [] {
      return true, Some([]);
    } else if prefix.None? {
      return true, None;
    }
    if prefix.Some? {
      clauses := clauses + [PrefixClause(IdPrefixField, prefix.value, 100)];
      clauses := clauses + [PrefixClause(AuthorIdPrefixField, prefix.value, 50)];
    }
    assert clauses == BodyClauses(normalized) + PrefixClauses(prefix);
    var query := BooleanQuery(clauses);
    forall doc
      ensures AllHold([Clause(Must, query)], doc) <==> TextAccepts(raw, doc, ch)
    {
      TextClausesMatch(normalized, prefix, doc);
      HoldSnoc([], query, doc);
      assert [] + [Clause(Must, query)] == [Clause(Must, query)];
    }
    assert clauses == Weighted(raw, ch) && clauses != [];
    return true, Some([Clause(Must, query)]);
  }

  // ---------- joining the parts ----------

  /** All required clauses hold. */
  ghost predicate AllHold(parts: seq<Clause>, doc: Document) {
    forall i :: 0 <= i < |parts| ==> Matches(parts[i].query, doc)
  }

  ghost predicate AllMust(parts: seq<Clause>) {
    forall i :: 0 <= i < |parts| ==> parts[i].occur == Must
  }

  lemma {:induction false} HoldSnoc(parts: seq<Clause>, q: Query, doc: Document)
    ensures AllHold(parts + [Clause(Must, q)], doc) <==> AllHold(parts, doc) && Matches(q, doc)
  {
    var all := parts + [Clause(Must, q)];
    if AllHold(all, doc) {
      assert all[|parts|].query == q;
      forall i | 0 <= i < |parts|
        ensures Matches(parts[i].query, doc)
      {
        assert all[i] == parts[i];
      }
    }
  }

  /** No part means everything, one part stands for itself, several are joined. */
  function Collapse(parts: seq<Clause>): Query {
    if parts == [] then AllQuery else if |parts| == 1 then parts[0].query else BooleanQuery(parts)
  }

  lemma {:induction false} CollapseMatches(parts: seq<Clause>, doc: Document)
    requires AllMust(parts)
    ensures Matches(Collapse(parts), doc) <==> AllHold(parts, doc)
  {
    if |parts| > 1 {
      assert parts[0] in parts;
      if Matches(Collapse(parts), doc) {
        forall i | 0 <= i < |parts|
          ensures Matches(parts[i].query, doc)
        {
          assert parts[i] in parts;
        }
      }
    }
  }

  /** Adding an id filter narrows what the parts accept by exactly that filter. */
  method AddFilter(parts: seq<Clause>, field: Field, values: seq<int>) returns (r: seq<Clause>)
    requires IdFilterField(field) && AllMust(parts)
    ensures AllMust(r) && parts <= r
    ensures forall doc :: AllHold(r, doc) <==> AllHold(parts, doc) && (values != [] ==> FieldId(field, doc) in values)
  {
    r := PushI64Filter(parts, field, values);
    if values != [] {
      ghost var q :| r == parts + [Clause(Must, q)] && forall doc :: Matches(q, doc) <==> FieldId(field, doc) in values;
      forall doc
        ensures AllHold(r, doc) <==> AllHold(parts, doc) && FieldId(field, doc) in values
      {
        HoldSnoc(parts, q, doc);
      }
    }
  }

  /** Compiles a request; it fails exactly when the parser refuses the normalised text. For every
      document, the compiled query matches exactly when the text and each non-empty filter accept it. */
  method BuildTweetQuery(raw: Option<Text>, filters: Filters, ch: Chars, parses: Text -> bool)
    returns (r: Option<Query>)
    ensures r.None? <==> Normalized(raw, ch).Some? && !parses(Normalized(raw, ch).value)
    ensures r.Some? ==> forall doc ::
              Matches(r.value, doc) <==> TextAccepts(raw, doc, ch) && FiltersAccept(filters, doc)
    ensures r.Some? && HasText(raw, ch) && Weighted(raw, ch) != [] ==> Weighs(r.value, Weighted(raw, ch))
  {
    var ok, text := TextParts(raw, ch, parses);
    if !ok {
      return None;
    }
    if text.None? {
      return Some(EmptyQuery);
    }
    var parts := AddFilter(text.value, IdField, filters.tweetIds);
    parts := AddFilter(parts, AuthorIdField, Authors(filters));
    ghost var ids := parts;
    if filters.relation.Some? && filters.relation.value != "all" {
      parts := parts + [Clause(Must, TermQuery(RelationField, Word(filters.relation.value)))];
    }
    forall doc
      ensures Matches(Collapse(parts), doc) <==> TextAccepts(raw, doc, ch) && FiltersAccept(filters, doc)
    {
      CollapseMatches(parts, doc);
      if parts != ids {
        HoldSnoc(ids, TermQuery(RelationField, Word(filters.relation.value)), doc);
      }
    }
    return Some(Collapse(parts));
  }
}
