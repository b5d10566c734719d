/**
 The inverted index over tools (src/agent/ToolSearchIndex.ts) against scoring
 every tool by hand.
 */
module ToolIndex {
  import opened Prelude
  import opened ToolWords

  /** Lower-casing, whatever it does. */
  type Lower = string -> string

  /** `texts`: the name, the aliases, the category and the description. */
  datatype Tool = Tool(name: string, texts: seq<string>)

  datatype Entry = Entry(tool: Tool, tokens: seq<string>)

  // ------------------------------------------------------------ scoring by hand

  /** `w` is one of the tool's words of at least three characters. */
  ghost predicate HasToken(lower: Lower, t: Tool, w: string) {
    |w| > 2 && exists v :: v in t.texts && IsWordOf(lower(v), w)
  }

  /** The words of the query of at least two characters. */
  ghost function QuerySet(lower: Lower, query: string): set<string> {
    var s := lower(query);
    set i: nat, j: nat | i < j <= |s| && WordAt(s, i, j) && j - i > 1 :: s[i..j]
  }

  lemma InQuerySet(lower: Lower, query: string, w: string)
    ensures w in QuerySet(lower, query) <==> |w| > 1 && IsWordOf(lower(query), w)
  {
  }

  ghost function Shared(lower: Lower, query: string, t: Tool): set<string> {
    set w | w in QuerySet(lower, query) && HasToken(lower, t, w)
  }

  ghost predicate Partial(lower: Lower, query: string, t: Tool) {
    exists q, w :: q in QuerySet(lower, query) && HasToken(lower, t, w) && (Inside(q, w) || Inside(w, q))
  }

  ghost function Matched(lower: Lower, tools: seq<Tool>, query: string): set<Tool> {
    set t | t in tools && Shared(lower, query, t) != {}
  }

  /** 3 for each distinct shared word; else 1 for a match within words, but only
      while fewer than `limit` tools share a word. */
  ghost function Score(lower: Lower, tools: seq<Tool>, query: string, limit: int, t: Tool): nat {
    if Shared(lower, query, t) != {} then 3 * |Shared(lower, query, t)|
    else if |Matched(lower, tools, query)| < limit && Partial(lower, query, t) then 1
    else 0
  }

  /** Higher scores first, then names in collation order. */
  predicate Ahead(score: Tool -> nat, rank: string -> int, a: Tool, b: Tool) {
    score(a) > score(b) || (score(a) == score(b) && rank(a.name) < rank(b.name))
  }

  /** The `count` best tools that score at all, best first; tools with equal scores
      whose names collate equal may come in any order. */
  ghost predicate IsBest(tools: seq<Tool>, score: Tool -> nat, rank: string -> int, count: nat, r: seq<Tool>) {
    && |r| <= count && NoRepeats(r)
    && (forall i, j :: 0 <= i < j < |r| ==> !Ahead(score, rank, r[j], r[i]))
    && (forall t :: t in r ==> t in tools && score(t) > 0)
    && (forall t :: t in tools && score(t) > 0 && t !in r ==>
          |r| == count && forall b :: b in r ==> !Ahead(score, rank, t, b))
  }

  ghost predicate DistinctNames(tools: seq<Tool>) {
    forall i, j :: 0 <= i < j < |tools| ==> tools[i].name != tools[j].name
  }

  ghost predicate DistinctRanks(tools: seq<Tool>, rank: string -> int) {
    forall i, j :: 0 <= i < j < |tools| ==> rank(tools[i].name) != rank(tools[j].name)
  }

  /** The same when no two names collate equal. */
  ghost predicate IsStrictlyBest(tools: seq<Tool>, score: Tool -> nat, rank: string -> int, count: nat, r: seq<Tool>) {
    && |r| <= count
    && (forall i, j :: 0 <= i < j < |r| ==> Ahead(score, rank, r[i], r[j]))
    && (forall t :: t in r ==> t in tools && score(t) > 0)
    && (forall t :: t in tools && score(t) > 0 && t !in r ==>
          |r| == count && forall b :: b in r ==> Ahead(score, rank, b, t))
  }

  lemma AheadIsTotal(tools: seq<Tool>, score: Tool -> nat, rank: string -> int, a: Tool, b: Tool)
    requires DistinctRanks(tools, rank) && a in tools && b in tools && a != b
    ensures Ahead(score, rank, a, b) || Ahead(score, rank, b, a)
  {
    var i :| 0 <= i < |tools| && tools[i] == a;
    var j :| 0 <= j < |tools| && tools[j] == b;
    assert i != j;
  }

  lemma BestIsStrict(tools: seq<Tool>, score: Tool -> nat, rank: string -> int, count: nat, r: seq<Tool>)
    requires DistinctRanks(tools, rank) && IsBest(tools, score, rank, count, r)
    ensures IsStrictlyBest(tools, score, rank, count, r)
  {
    forall i, j | 0 <= i < j < |r| ensures Ahead(score, rank, r[i], r[j]) {
      assert r[i] in r && r[j] in r;
      AheadIsTotal(tools, score, rank, r[i], r[j]);
    }
    forall t, b | t in tools && score(t) > 0 && t !in r && b in r ensures Ahead(score, rank, b, t) {
      AheadIsTotal(tools, score, rank, b, t);
    }
  }

  lemma {:induction false} SameUpTo(tools: seq<Tool>, score: Tool -> nat, rank: string -> int, count: nat,
                                    a: seq<Tool>, b: seq<Tool>, n: nat)
    requires IsStrictlyBest(tools, score, rank, count, a) && IsStrictlyBest(tools, score, rank, count, b)
    requires |a| <= |b| && n <= |b|
    ensures n <= |a| && a[..n] == b[..n]
    decreases n
  {
    if n > 0 {
      var m := n - 1;
      SameUpTo(tools, score, rank, count, a, b, m);
      assert b[m] in b && a[..|a|] == a;
      if m < |a| {
        assert a[m] in a;
      }
    }
  }

  /** There is only one such list. */
  lemma BestIsUnique(tools: seq<Tool>, score: Tool -> nat, rank: string -> int, count: nat, a: seq<Tool>, b: seq<Tool>)
    requires DistinctRanks(tools, rank)
    requires IsBest(tools, score, rank, count, a) && IsBest(tools, score, rank, count, b)
    ensures a == b
  {
    BestIsStrict(tools, score, rank, count, a);
    BestIsStrict(tools, score, rank, count, b);
    if |a| <= |b| {
      SameUpTo(tools, score, rank, count, a, b, |b|);
      assert b[..|b|] == b && a[..|b|] == a;
    } else {
      SameUpTo(tools, score, rank, count, b, a, |a|);
    }
  }

  // ------------------------------------------------------------ building

  function IndicesWith(entries: seq<Entry>, w: string): seq<nat> {
    if entries == [] then []
    else
      var n := |entries| - 1;
      IndicesWith(entries[..n], w) + if w in entries[n].tokens then [n] else []
  }

  lemma {:induction false} IndicesWithMembers(entries: seq<Entry>, w: string)
    ensures forall i :: i in IndicesWith(entries, w) <==> 0 <= i < |entries| && w in entries[i].tokens
    ensures forall a, b :: 0 <= a < b < |IndicesWith(entries, w)| ==> IndicesWith(entries, w)[a] < IndicesWith(entries, w)[b]
  {
    if entries != [] {
      var n := |entries| - 1;
      IndicesWithMembers(entries[..n], w);
      assert forall i :: 0 <= i < n ==> entries[..n][i] == entries[i];
      var front := IndicesWith(entries[..n], w);
      forall i | i in IndicesWith(entries, w) ensures 0 <= i < |entries| && w in entries[i].tokens {
        assert i in front || i == n;
      }
      forall a, b | 0 <= a < b < |IndicesWith(entries, w)| ensures IndicesWith(entries, w)[a] < IndicesWith(entries, w)[b] {
        assert front[a] in front;
      }
    }
  }

  function Postings(inverted: map<string, seq<nat>>, w: string): seq<nat> {
    if w in inverted then inverted[w] else []
  }

  ghost predicate IndexesAll(inverted: map<string, seq<nat>>, entries: seq<Entry>) {
    forall w: string :: Postings(inverted, w) == IndicesWith(entries, w)
  }

  /** Adding to a JavaScript set, which keeps the order of insertion. */
  function Add<T(==)>(s: seq<T>, x: T): seq<T> {
    if x in s then s else s + [x]
  }

  ghost predicate NoRepeats<T>(s: seq<T>) {
    forall i, j :: 0 <= i < j < |s| ==> s[i] != s[j]
  }

  ghost predicate EntryOf(lower: Lower, t: Tool, e: Entry) {
    e.tool == t && NoRepeats(e.tokens) && forall w: string :: w in e.tokens <==> HasToken(lower, t, w)
  }

  class ToolSearchIndex {
    const lower: Lower
    var entries: seq<Entry>
    var inverted: map<string, seq<nat>>

    ghost predicate Holds(tools: seq<Tool>)
      reads this
    {
      && |entries| == |tools|
      && (forall i :: 0 <= i < |tools| ==> EntryOf(lower, tools[i], entries[i]))
      && IndexesAll(inverted, entries)
    }

    constructor (lower: Lower)
      ensures Holds([]) && this.lower == lower
    {
      this.lower := lower;
      entries, inverted := [], map[];
    }

    method Build(tools: seq<Tool>)
      modifies this
      ensures Holds(tools)
    {
      var built: seq<Entry> := [];
      for i := 0 to |tools|
        invariant |built| == i && forall k :: 0 <= k < i ==> EntryOf(lower, tools[k], built[k])
      {
        var tokens := TokensOf(lower, tools[i]);
        built := built + [Entry(tools[i], tokens)];
      }
      var postings: map<string, seq<nat>> := map[];
      for i := 0 to |built|
        invariant IndexesAll(postings, built[..i])
      {
        assert built[..i + 1][..i] == built[..i];
        postings := AddPostings(postings, built, i);
      }
      assert built[..|built|] == built;
      entries, inverted := built, postings;
    }

    /** The answer is the one that scoring every tool by hand gives. `rank` stands
        for the collation of names. */
    method Search(ghost tools: seq<Tool>, query: string, limit: int, rank: string -> int) returns (r: seq<Entry>)
      requires Holds(tools) && DistinctNames(tools)
      ensures IsBest(tools, t => Score(lower, tools, query, limit, t), rank, Max(1, limit), ToolsOf(r))
      ensures forall e :: e in r ==> e in entries
    {
      var queryTokens := QueryTokens(lower, query);
      if queryTokens == [] {
        NoQueryNoScore(lower, tools, query, limit);
        return [];
      }
      var scores: map<nat, nat> := ExactScores(queryTokens, |entries|);
      ScoresAreExact(lower, tools, entries, queryTokens, query, scores);
      MatchedCount(lower, tools, query, limit, scores);
      if |scores| < limit {
        scores := AddPartialScores(tools, query, limit, queryTokens, scores);
      }
      var best := RankedHits(tools, query, limit, rank, scores);
      var all := entries;
      r := seq(|best|, i requires 0 <= i < |best| => all[best[i]]);
      assert ToolsOf(r) == Picked(tools, best);
    }

    method AddPartialScores(ghost tools: seq<Tool>, ghost query: string, ghost limit: int, queryTokens: seq<string>,
                            before: map<nat, nat>) returns (scores: map<nat, nat>)
      requires Holds(tools) && forall w: string :: w in queryTokens <==> w in QuerySet(lower, query)
      requires |Matched(lower, tools, query)| < limit && PartlyScored(lower, tools, query, limit, before, 0)
      ensures PartlyScored(lower, tools, query, limit, scores, |tools|)
    {
      scores := before;
      for index := 0 to |entries|
        invariant PartlyScored(lower, tools, query, limit, scores, index)
      {
        if index !in scores {
          var partial := exists k, w :: 0 <= k < |queryTokens| && w in entries[index].tokens &&
                                        (Contains(w, queryTokens[k]) || Contains(queryTokens[k], w));
          PartialFound(lower, tools[index], entries[index], queryTokens, query);
          PartialStep(lower, tools, query, limit, scores, index);
          if partial { scores := scores[index := 1]; }
        } else {
          PartialSkip(lower, tools, query, limit, scores, index);
        }
      }
    }

    /** Sorts the scored entries and keeps the first. */
    method RankedHits(ghost tools: seq<Tool>, ghost query: string, limit: int, rank: string -> int, scores: map<nat, nat>)
      returns (best: seq<nat>)
      requires Holds(tools) && DistinctNames(tools) && PartlyScored(lower, tools, query, limit, scores, |tools|)
      ensures forall i :: 0 <= i < |best| ==> best[i] < |tools|
      ensures IsBest(tools, t => Score(lower, tools, query, limit, t), rank, Max(1, limit), Picked(tools, best))
    {
      var hits := ScoredIndices(scores, |entries|);
      var all := entries;
      var ranks := seq(|all|, i requires 0 <= i < |all| => rank(all[i].tool.name));
      SortByLaws(scores, ranks, hits);
      BestOfSorted(lower, tools, query, limit, rank, scores, ranks, hits);
      best := SortBy(scores, ranks, hits);
      best := best[..Min(|best|, Max(1, limit))];
    }

    method ExactScores(queryTokens: seq<string>, n: nat) returns (scores: map<nat, nat>)
      requires IndexesAll(inverted, entries) && n == |entries|
      ensures forall i :: 0 <= i < n ==> ScoreOf(scores, i) == 3 * CountIn(queryTokens, entries[i].tokens)
      ensures Positive(scores, n)
    {
      scores := map[];
      for k := 0 to |queryTokens|
        invariant forall i :: 0 <= i < n ==> ScoreOf(scores, i) == 3 * CountIn(queryTokens[..k], entries[i].tokens)
        invariant Positive(scores, n)
      {
        assert Postings(inverted, queryTokens[k]) == IndicesWith(entries, queryTokens[k]);
        IndicesWithMembers(entries, queryTokens[k]);
        scores := AddThree(scores, Postings(inverted, queryTokens[k]), n);
        forall i | 0 <= i < n
          ensures ScoreOf(scores, i) == 3 * CountIn(queryTokens[..k + 1], entries[i].tokens)
        {
          CountInNext(queryTokens, k, entries[i].tokens);
        }
      }
      assert queryTokens[..|queryTokens|] == queryTokens;
    }
  }

  method ScoredIndices(scores: map<nat, nat>, n: nat) returns (hits: seq<nat>)
    requires forall i :: i in scores ==> i < n
    ensures NoRepeats(hits) && forall i: nat :: i in hits <==> i in scores
    ensures forall k :: 0 <= k < |hits| ==> hits[k] < n
  {
    hits := [];
    for index := 0 to n
      invariant NoRepeats(hits) && forall i: nat :: i in hits <==> i in scores && i < index
      invariant forall k :: 0 <= k < |hits| ==> hits[k] < index
    {
      if index in scores { hits := hits + [index]; }
    }
  }

  ghost predicate Positive(scores: map<nat, nat>, n: nat) {
    forall i :: i in scores ==> i < n && scores[i] > 0
  }

  method AddThree(before: map<nat, nat>, matches: seq<nat>, n: nat) returns (scores: map<nat, nat>)
    requires Positive(before, n) && forall i :: i in matches ==> i < n
    requires forall a, b :: 0 <= a < b < |matches| ==> matches[a] < matches[b]
    ensures Positive(scores, n)
    ensures forall i: nat :: ScoreOf(scores, i) == ScoreOf(before, i) + if i in matches then 3 else 0
  {
    scores := before;
    for j := 0 to |matches|
      invariant forall i: nat :: ScoreOf(scores, i) == ScoreOf(before, i) + if i in matches[..j] then 3 else 0
      invariant Positive(scores, n)
    {
      assert matches[j] in matches && matches[..j + 1] == matches[..j] + [matches[j]];
      scores := scores[matches[j] := ScoreOf(scores, matches[j]) + 3];
    }
    assert matches[..|matches|] == matches;
  }

  lemma CountInNext(ws: seq<string>, k: nat, tokens: seq<string>)
    requires k < |ws|
    ensures CountIn(ws[..k + 1], tokens) == CountIn(ws[..k], tokens) + if ws[k] in tokens then 1 else 0
  {
    assert ws[..k + 1][..k] == ws[..k];
  }

  function ToolsOf(entries: seq<Entry>): seq<Tool> {
    seq(|entries|, i requires 0 <= i < |entries| => entries[i].tool)
  }

  function ScoreOf(scores: map<nat, nat>, i: nat): nat {
    if i in scores then scores[i] else 0
  }

  function CountIn(ws: seq<string>, tokens: seq<string>): nat {
    if ws == [] then 0
    else CountIn(ws[..|ws| - 1], tokens) + if ws[|ws| - 1] in tokens then 1 else 0
  }

  method TokensOf(lower: Lower, t: Tool) returns (tokens: seq<string>)
    ensures EntryOf(lower, t, Entry(t, tokens))
  {
    tokens := [];
    for i := 0 to |t.texts|
      invariant NoRepeats(tokens)
      invariant forall w: string :: w in tokens <==> HasToken(lower, Tool(t.name, t.texts[..i]), w)
    {
      var words := Words(lower(t.texts[i]));
      ghost var before := tokens;
      for k := 0 to |words|
        invariant NoRepeats(tokens)
        invariant forall w: string :: w in tokens <==> w in before || (|w| > 2 && w in words[..k])
      {
        if |words[k]| > 2 { tokens := Add(tokens, words[k]); }
      }
      assert words[..|words|] == words;
      forall w: string ensures w in tokens <==> HasToken(lower, Tool(t.name, t.texts[..i + 1]), w) {
        OneMoreText(lower, t, i, w);
      }
    }
    assert t.texts[..|t.texts|] == t.texts;
  }

  lemma OneMoreText(lower: Lower, t: Tool, i: nat, w: string)
    requires i < |t.texts|
    ensures HasToken(lower, Tool(t.name, t.texts[..i + 1]), w) <==>
            HasToken(lower, Tool(t.name, t.texts[..i]), w) || (|w| > 2 && w in Words(lower(t.texts[i])))
  {
    WordsExactly(lower(t.texts[i]));
    assert t.texts[..i + 1] == t.texts[..i] + [t.texts[i]];
  }

  /** Enters one tool under each of its tokens. */
  method AddPostings(before: map<string, seq<nat>>, entries: seq<Entry>, i: nat) returns (inverted: map<string, seq<nat>>)
    requires i < |entries| && IndexesAll(before, entries[..i]) && NoRepeats(entries[i].tokens)
    ensures IndexesAll(inverted, entries[..i + 1])
  {
    inverted := before;
    var tokens := entries[i].tokens;
    for k := 0 to |tokens|
      invariant EnteredTo(before, inverted, tokens[..k], i)
    {
      var w := tokens[k];
      assert tokens[..k + 1] == tokens[..k] + [w] && w !in tokens[..k];
      NotYet(before, entries, i, w);
      EnterOne(before, inverted, tokens[..k], w, i);
      inverted := inverted[w := Add(Postings(inverted, w), i)];
    }
    assert tokens[..|tokens|] == tokens;
    AllEntered(before, inverted, entries, i);
  }

  lemma EnterOne(before: map<string, seq<nat>>, inverted: map<string, seq<nat>>, done: seq<string>, w: string, i: nat)
    requires EnteredTo(before, inverted, done, i) && w !in done && i !in Postings(before, w)
    ensures EnteredTo(before, inverted[w := Add(Postings(inverted, w), i)], done + [w], i)
  {
  }

  lemma NotYet(before: map<string, seq<nat>>, entries: seq<Entry>, i: nat, w: string)
    requires i <= |entries| && IndexesAll(before, entries[..i])
    ensures i !in Postings(before, w)
  {
    assert Postings(before, w) == IndicesWith(entries[..i], w);
    IndicesWithMembers(entries[..i], w);
  }

  lemma AllEntered(before: map<string, seq<nat>>, inverted: map<string, seq<nat>>, entries: seq<Entry>, i: nat)
    requires i < |entries| && IndexesAll(before, entries[..i]) && EnteredTo(before, inverted, entries[i].tokens, i)
    ensures IndexesAll(inverted, entries[..i + 1])
  {
    assert entries[..i + 1][..i] == entries[..i];
    forall w: string ensures Postings(inverted, w) == IndicesWith(entries[..i + 1], w) {
      assert Postings(before, w) == IndicesWith(entries[..i], w);
    }
  }

  ghost predicate EnteredTo(before: map<string, seq<nat>>, inverted: map<string, seq<nat>>, done: seq<string>, i: nat) {
    forall w: string :: Postings(inverted, w) == Postings(before, w) + if w in done then [i] else []
  }

  // ------------------------------------------------------------ searching

  method QueryTokens(lower: Lower, query: string) returns (r: seq<string>)
    ensures NoRepeats(r) && forall w: string :: w in r <==> w in QuerySet(lower, query)
  {
    var words := Words(lower(query));
    r := [];
    for k := 0 to |words|
      invariant NoRepeats(r) && forall w: string :: w in r <==> |w| > 1 && w in words[..k]
    {
      if |words[k]| > 1 { r := Add(r, words[k]); }
    }
    assert words[..|words|] == words;
    WordsExactly(lower(query));
    forall w: string ensures w in r <==> w in QuerySet(lower, query) {
      InQuerySet(lower, query, w);
    }
  }

  lemma NoQueryNoScore(lower: Lower, tools: seq<Tool>, query: string, limit: int)
    requires QuerySet(lower, query) == {}
    ensures forall t :: Score(lower, tools, query, limit, t) == 0
  {
  }

  lemma {:induction false} CountInIsSize(ws: seq<string>, tokens: seq<string>)
    requires NoRepeats(ws)
    ensures CountIn(ws, tokens) == |set w | w in ws && w in tokens|
  {
    var all := set w | w in ws && w in tokens;
    if ws == [] {
      assert all == {};
    } else {
      var n := |ws| - 1;
      CountInIsSize(ws[..n], tokens);
      SharedWithLast(ws[..n], ws[n], tokens);
      assert ws == ws[..n] + [ws[n]];
    }
  }

  lemma SharedWithLast(front: seq<string>, last: string, tokens: seq<string>)
    requires last !in front
    ensures |set w | w in front + [last] && w in tokens| ==
            |set w | w in front && w in tokens| + if last in tokens then 1 else 0
  {
    var some := set w | w in front && w in tokens;
    assert (set w | w in front + [last] && w in tokens) == if last in tokens then some + {last} else some;
  }

  /** After the exact pass the map holds exactly the tools that share a word. */
  ghost predicate ExactlyScored(lower: Lower, tools: seq<Tool>, query: string, scores: map<nat, nat>) {
    forall i: nat :: (i in scores <==> i < |tools| && Shared(lower, query, tools[i]) != {}) &&
                     (i in scores ==> scores[i] == 3 * |Shared(lower, query, tools[i])|)
  }

  lemma ScoresAreExact(lower: Lower, tools: seq<Tool>, entries: seq<Entry>, qs: seq<string>, query: string, scores: map<nat, nat>)
    requires |entries| == |tools| && forall i :: 0 <= i < |tools| ==> EntryOf(lower, tools[i], entries[i])
    requires NoRepeats(qs) && forall w: string :: w in qs <==> w in QuerySet(lower, query)
    requires forall i :: 0 <= i < |tools| ==> ScoreOf(scores, i) == 3 * CountIn(qs, entries[i].tokens)
    requires Positive(scores, |tools|)
    ensures ExactlyScored(lower, tools, query, scores)
  {
    forall i: nat | i < |tools| ensures ScoreOf(scores, i) == 3 * |Shared(lower, query, tools[i])| {
      CountInIsSize(qs, entries[i].tokens);
      assert (set w | w in qs && w in entries[i].tokens) == Shared(lower, query, tools[i]);
    }
  }

  /** The pass over partial matches, done up to `index`. */
  ghost predicate PartlyScored(lower: Lower, tools: seq<Tool>, query: string, limit: int, scores: map<nat, nat>, index: nat) {
    forall i: nat ::
      && (i in scores ==> i < |tools| && scores[i] == Score(lower, tools, query, limit, tools[i]) > 0)
      && (i < |tools| && i < index && Score(lower, tools, query, limit, tools[i]) > 0 ==> i in scores)
      && (i < |tools| && Shared(lower, query, tools[i]) != {} ==> i in scores)
  }

  lemma PartialFound(lower: Lower, t: Tool, e: Entry, qs: seq<string>, query: string)
    requires EntryOf(lower, t, e) && forall w: string :: w in qs <==> w in QuerySet(lower, query)
    ensures Partial(lower, query, t) <==>
            exists k, w :: 0 <= k < |qs| && w in e.tokens && (Contains(w, qs[k]) || Contains(qs[k], w))
  {
    forall k, w | 0 <= k < |qs| && w in e.tokens && (Contains(w, qs[k]) || Contains(qs[k], w)) ensures Partial(lower, query, t) {
      ContainsMeans(w, qs[k]);
      ContainsMeans(qs[k], w);
      assert qs[k] in qs;
    }
    forall q, w | q in QuerySet(lower, query) && HasToken(lower, t, w) && (Inside(q, w) || Inside(w, q))
      ensures exists k, w :: 0 <= k < |qs| && w in e.tokens && (Contains(w, qs[k]) || Contains(qs[k], w))
    {
      ContainsMeans(w, q);
      ContainsMeans(q, w);
      var k :| 0 <= k < |qs| && qs[k] == q;
    }
  }

  lemma PartialStep(lower: Lower, tools: seq<Tool>, query: string, limit: int, scores: map<nat, nat>, index: nat)
    requires PartlyScored(lower, tools, query, limit, scores, index) && index < |tools| && index !in scores
    requires |Matched(lower, tools, query)| < limit
    ensures PartlyScored(lower, tools, query, limit, if Partial(lower, query, tools[index]) then scores[index := 1] else scores, index + 1)
  {
  }

  lemma PartialSkip(lower: Lower, tools: seq<Tool>, query: string, limit: int, scores: map<nat, nat>, index: nat)
    requires PartlyScored(lower, tools, query, limit, scores, index) && index in scores
    ensures PartlyScored(lower, tools, query, limit, scores, index + 1)
  {
  }

  /** The size of the score map is the number of tools that share a word. */
  lemma MatchedCount(lower: Lower, tools: seq<Tool>, query: string, limit: int, scores: map<nat, nat>)
    requires DistinctNames(tools) && ExactlyScored(lower, tools, query, scores)
    ensures |scores| == |Matched(lower, tools, query)|
    ensures PartlyScored(lower, tools, query, limit, scores, 0)
    ensures |scores| >= limit ==> PartlyScored(lower, tools, query, limit, scores, |tools|)
  {
    MatchedSize(lower, tools, query, scores);
  }

  lemma MatchedSize(lower: Lower, tools: seq<Tool>, query: string, scores: map<nat, nat>)
    requires DistinctNames(tools) && ExactlyScored(lower, tools, query, scores)
    ensures |scores| == |Matched(lower, tools, query)|
  {
    var keys := scores.Keys;
    forall i: nat | i in keys ensures i < |tools| && tools[i] in Matched(lower, tools, query) { }
    forall t | t in Matched(lower, tools, query) ensures exists i: nat :: i in keys && tools[i] == t {
      var i :| 0 <= i < |tools| && tools[i] == t;
      assert i in keys;
    }
    SameSize(keys, Matched(lower, tools, query), tools);
  }

  lemma {:induction false} SameSize(keys: set<nat>, ts: set<Tool>, tools: seq<Tool>)
    requires DistinctNames(tools) && forall i :: i in keys ==> i < |tools| && tools[i] in ts
    requires forall t :: t in ts ==> exists i: nat :: i in keys && tools[i] == t
    ensures |keys| == |ts|
    decreases |keys|
  {
    if keys == {} {
      assert ts == {};
    } else {
      var i :| i in keys;
      forall j: nat | j in keys && j != i ensures tools[j] != tools[i] { }
      forall t | t in ts - {tools[i]} ensures exists j: nat :: j in keys - {i} && tools[j] == t {
        var j: nat :| j in keys && tools[j] == t;
        assert j in keys - {i};
      }
      SameSize(keys - {i}, ts - {tools[i]}, tools);
    }
  }

  // ------------------------------------------------------------ sorting

  /** The comparison of two score entries, as indices into the tools. */
  predicate Before(scores: map<nat, nat>, ranks: seq<int>, a: nat, b: nat)
    requires a < |ranks| && b < |ranks|
  {
    ScoreOf(scores, a) > ScoreOf(scores, b) || (ScoreOf(scores, a) == ScoreOf(scores, b) && ranks[a] < ranks[b])
  }

  predicate InRange(ranks: seq<int>, s: seq<nat>) {
    forall i :: 0 <= i < |s| ==> s[i] < |ranks|
  }

  function Insert(scores: map<nat, nat>, ranks: seq<int>, x: nat, s: seq<nat>): (r: seq<nat>)
    requires x < |ranks| && InRange(ranks, s)
    ensures InRange(ranks, r) && forall i :: i in r <==> i == x || i in s
  {
    if s == [] then [x]
    else if !Before(scores, ranks, s[0], x) then [x] + s
    else
      assert InRange(ranks, s[1..]);
      assert s == [s[0]] + s[1..];
      [s[0]] + Insert(scores, ranks, x, s[1..])
  }

  function SortBy(scores: map<nat, nat>, ranks: seq<int>, s: seq<nat>): (r: seq<nat>)
    requires InRange(ranks, s)
    ensures InRange(ranks, r) && forall i :: i in r <==> i in s
  {
    if s == [] then []
    else
      assert s == [s[0]] + s[1..];
      Insert(scores, ranks, s[0], SortBy(scores, ranks, s[1..]))
  }

  ghost predicate InOrder(scores: map<nat, nat>, ranks: seq<int>, s: seq<nat>)
    requires InRange(ranks, s)
  {
    NoRepeats(s) && forall i, j :: 0 <= i < j < |s| ==> !Before(scores, ranks, s[j], s[i])
  }

  lemma {:induction false} InsertInOrder(scores: map<nat, nat>, ranks: seq<int>, x: nat, s: seq<nat>)
    requires x < |ranks| && InRange(ranks, s) && InOrder(scores, ranks, s) && x !in s
    ensures InOrder(scores, ranks, Insert(scores, ranks, x, s))
    decreases |s|
  {
    if s != [] && Before(scores, ranks, s[0], x) {
      InsertInOrder(scores, ranks, x, s[1..]);
      var rest := Insert(scores, ranks, x, s[1..]);
      forall y | y in rest ensures y != s[0] && !Before(scores, ranks, y, s[0]) {
      }
      ConsInOrder(scores, ranks, s[0], rest);
    }
  }

  lemma ConsInOrder(scores: map<nat, nat>, ranks: seq<int>, first: nat, s: seq<nat>)
    requires InRange(ranks, s) && first < |ranks| && InOrder(scores, ranks, s)
    requires forall y :: y in s ==> y != first && !Before(scores, ranks, y, first)
    ensures InRange(ranks, [first] + s) && InOrder(scores, ranks, [first] + s)
  {
    forall i | 0 <= i < |s| ensures s[i] != first && !Before(scores, ranks, s[i], first) {
      assert s[i] in s;
    }
  }

  lemma {:induction false} SortByLaws(scores: map<nat, nat>, ranks: seq<int>, s: seq<nat>)
    requires InRange(ranks, s) && NoRepeats(s)
    ensures InOrder(scores, ranks, SortBy(scores, ranks, s))
    decreases |s|
  {
    if s != [] {
      SortByLaws(scores, ranks, s[1..]);
      InsertInOrder(scores, ranks, s[0], SortBy(scores, ranks, s[1..]));
    }
  }

  function Picked(tools: seq<Tool>, s: seq<nat>): seq<Tool>
    requires forall i :: 0 <= i < |s| ==> s[i] < |tools|
  {
    seq(|s|, i requires 0 <= i < |s| => tools[s[i]])
  }

  /** A score map that agrees with scoring by hand, over the positive scores. */
  ghost predicate Agrees(tools: seq<Tool>, score: Tool -> nat, rank: string -> int, scores: map<nat, nat>, ranks: seq<int>) {
    && |ranks| == |tools|
    && (forall i :: 0 <= i < |tools| ==> ranks[i] == rank(tools[i].name))
    && (forall i: nat :: i < |tools| ==> ScoreOf(scores, i) == score(tools[i]))
    && (forall i: nat :: i in scores <==> i < |tools| && score(tools[i]) > 0)
  }

  lemma FirstAreBest(tools: seq<Tool>, score: Tool -> nat, rank: string -> int, scores: map<nat, nat>, ranks: seq<int>,
                     all: seq<nat>, count: nat)
    requires Agrees(tools, score, rank, scores, ranks) && InRange(ranks, all) && InOrder(scores, ranks, all)
    requires DistinctNames(tools) && forall i: nat :: i in all <==> i in scores
    ensures IsBest(tools, score, rank, count, Picked(tools, all[..Min(|all|, count)]))
  {
    var n := Min(|all|, count);
    var r := Picked(tools, all[..n]);
    forall i, j | 0 <= i < j < |r| ensures !Ahead(score, rank, r[j], r[i]) {
    }
    PickedDistinct(tools, all[..n]);
    assert forall k :: 0 <= k < n ==> all[..n][k] in all;
    forall t | t in tools && score(t) > 0 && t !in r
      ensures |r| == count && forall b :: b in r ==> !Ahead(score, rank, t, b)
    {
      LeftOut(tools, score, rank, scores, ranks, all, n, t);
    }
  }

  lemma PickedDistinct(tools: seq<Tool>, s: seq<nat>)
    requires (forall i :: 0 <= i < |s| ==> s[i] < |tools|) && NoRepeats(s) && DistinctNames(tools)
    ensures NoRepeats(Picked(tools, s))
  {
    forall i, j | 0 <= i < j < |s| ensures Picked(tools, s)[i] != Picked(tools, s)[j] {
      assert s[i] != s[j];
    }
  }

  lemma LeftOut(tools: seq<Tool>, score: Tool -> nat, rank: string -> int, scores: map<nat, nat>, ranks: seq<int>,
                all: seq<nat>, n: nat, t: Tool)
    requires Agrees(tools, score, rank, scores, ranks) && InRange(ranks, all) && InOrder(scores, ranks, all)
    requires (forall i: nat :: i in all <==> i in scores) && n <= |all|
    requires t in tools && score(t) > 0 && t !in Picked(tools, all[..n])
    ensures n < |all| && forall b :: b in Picked(tools, all[..n]) ==> !Ahead(score, rank, t, b)
  {
    var r := Picked(tools, all[..n]);
    assert forall k :: 0 <= k < n ==> r[k] == tools[all[k]] && r[k] in r;
    var i: nat :| i < |tools| && tools[i] == t;
    assert i in scores && i in all;
    var k :| 0 <= k < |all| && all[k] == i;
    assert k >= n;
    forall b | b in r ensures !Ahead(score, rank, t, b) {
      var j :| 0 <= j < |r| && r[j] == b;
      LaterIsNotAhead(tools, score, rank, scores, ranks, all, j, k);
    }
  }

  lemma LaterIsNotAhead(tools: seq<Tool>, score: Tool -> nat, rank: string -> int, scores: map<nat, nat>, ranks: seq<int>,
                        all: seq<nat>, j: nat, k: nat)
    requires Agrees(tools, score, rank, scores, ranks) && InRange(ranks, all) && InOrder(scores, ranks, all)
    requires j < k < |all|
    ensures !Ahead(score, rank, tools[all[k]], tools[all[j]])
  {
  }

  lemma BestOfSorted(lower: Lower, tools: seq<Tool>, query: string, limit: int, rank: string -> int, scores: map<nat, nat>,
                     ranks: seq<int>, hits: seq<nat>)
    requires DistinctNames(tools) && PartlyScored(lower, tools, query, limit, scores, |tools|)
    requires |ranks| == |tools| && forall i :: 0 <= i < |tools| ==> ranks[i] == rank(tools[i].name)
    requires InRange(ranks, hits) && forall i: nat :: i in hits <==> i in scores
    requires InOrder(scores, ranks, SortBy(scores, ranks, hits))
    ensures var all := SortBy(scores, ranks, hits);
            IsBest(tools, t => Score(lower, tools, query, limit, t), rank, Max(1, limit), Picked(tools, all[..Min(|all|, Max(1, limit))]))
  {
    var score := t => Score(lower, tools, query, limit, t);
    assert Agrees(tools, score, rank, scores, ranks);
    FirstAreBest(tools, score, rank, scores, ranks, SortBy(scores, ranks, hits), Max(1, limit));
  }
}
