/** AcoraSearch: the overlap resolution applied to what the Acora automaton
    reports. The automaton itself is not modelled: its answer for an input
    is a given sequence of (keyword, position) matches, in the order it
    reports them. */
module Acora {
  import opened Wrappers

  /** A match (word, position), compared as a Python tuple. */
  datatype Match = Match(word: string, pos: nat)

  // ---------------------------------------------------------------------
  // Python's ordering of strings and tuples

  /** str < str: lexicographic by character, a proper prefix first. */
  predicate StrLt(a: string, b: string)
    decreases |a|
  {
    |b| > 0 && (|a| == 0 || a[0] < b[0] || (a[0] == b[0] && StrLt(a[1..], b[1..])))
  }

  /** (word, pos) < (word', pos') */
  predicate MatchLt(x: Match, y: Match) {
    StrLt(x.word, y.word) || (x.word == y.word && x.pos < y.pos)
  }

  lemma {:induction false} StrLtIrreflexive(a: string)
    ensures !StrLt(a, a)
    decreases |a|
  {
    if |a| > 0 {
      StrLtIrreflexive(a[1..]);
    }
  }

  lemma {:induction false} StrLtTrans(a: string, b: string, c: string)
    requires StrLt(a, b) && StrLt(b, c)
    ensures StrLt(a, c)
    decreases |a|
  {
    if |a| > 0 && a[0] == b[0] && b[0] == c[0] {
      StrLtTrans(a[1..], b[1..], c[1..]);
    }
  }

  lemma {:induction false} StrLtTotal(a: string, b: string)
    ensures StrLt(a, b) || a == b || StrLt(b, a)
    decreases |a|
  {
    if |a| > 0 && |b| > 0 && a[0] == b[0] {
      StrLtTotal(a[1..], b[1..]);
      if a[1..] == b[1..] {
        assert a == [a[0]] + a[1..] && b == [b[0]] + b[1..];
      }
    }
  }

  /** A proper prefix sorts first. */
  lemma {:induction false} PrefixLt(a: string, b: string)
    requires |a| < |b| && b[..|a|] == a
    ensures StrLt(a, b)
    decreases |a|
  {
    if |a| > 0 {
      assert b[1..][..|a| - 1] == a[1..];
      PrefixLt(a[1..], b[1..]);
    }
  }

  /** Tuple order is a strict total order. */
  lemma {:induction false} MatchOrder(x: Match, y: Match, z: Match)
    ensures !MatchLt(x, x)
    ensures MatchLt(x, y) && MatchLt(y, z) ==> MatchLt(x, z)
    ensures MatchLt(x, y) || x == y || MatchLt(y, x)
  {
    StrLtIrreflexive(x.word);
    if StrLt(x.word, y.word) && StrLt(y.word, z.word) {
      StrLtTrans(x.word, y.word, z.word);
    }
    StrLtTotal(x.word, y.word);
  }

  // ---------------------------------------------------------------------
  // find_longest

  /** max() of a non-empty run: the first element no later one exceeds. */
  function MaxOf(run: seq<Match>): (m: Match)
    requires |run| > 0
  {
    if |run| == 1 then run[0]
    else
      var m := MaxOf(run[..|run| - 1]);
      if MatchLt(m, run[|run| - 1]) then run[|run| - 1] else m
  }

  /** max() returns a member of the run that no member exceeds. */
  lemma {:induction false} MaxOfIsMax(run: seq<Match>)
    requires |run| > 0
    ensures MaxOf(run) in run
    ensures forall x :: x in run ==> !MatchLt(MaxOf(run), x)
  {
    if |run| > 1 {
      var p := run[..|run| - 1];
      var last := run[|run| - 1];
      MaxOfIsMax(p);
      var m := MaxOf(p);
      assert run == p + [last];
      assert MaxOf(run) == if MatchLt(m, last) then last else m;
      forall x | x in run ensures !MatchLt(MaxOf(run), x) {
        assert x in p || x == last;
        MatchOrder(m, last, x);
        MatchOrder(last, last, last);
      }
    } else {
      MatchOrder(run[0], run[0], run[0]);
    }
  }

  /** How many matches at the front share the first one's position. */
  function RunLength(ms: seq<Match>): (n: nat)
    requires |ms| > 0
    ensures 1 <= n <= |ms|
    ensures forall i :: 0 <= i < n ==> ms[i].pos == ms[0].pos
    ensures n < |ms| ==> ms[n].pos != ms[0].pos
  {
    if |ms| == 1 || ms[1].pos != ms[0].pos then 1
    else 1 + RunLength(ms[1..])
  }

  /** groupby(matches, itemgetter(1)): the maximal runs of consecutive
      matches at the same position. */
  function Runs(ms: seq<Match>): (r: seq<seq<Match>>)
    ensures forall k :: 0 <= k < |r| ==> |r[k]| > 0
    decreases |ms|
  {
    if |ms| == 0 then []
    else
      var n := RunLength(ms);
      [ms[..n]] + Runs(ms[n..])
  }

  function FlattenRuns(rs: seq<seq<Match>>): seq<Match> {
    if |rs| == 0 then [] else rs[0] + FlattenRuns(rs[1..])
  }

  /** A run: non-empty, every member at one position. */
  predicate SamePos(run: seq<Match>) {
    |run| > 0 && forall i :: 0 <= i < |run| ==> run[i].pos == run[0].pos
  }

  /** Flattening a run in front of more runs puts it in front. */
  lemma {:induction false} FlattenCons(run: seq<Match>, rs: seq<seq<Match>>)
    ensures FlattenRuns([run] + rs) == run + FlattenRuns(rs)
  {
    assert ([run] + rs)[0] == run && ([run] + rs)[1..] == rs;
  }

  /** A sequence is its prefix followed by the rest. */
  lemma {:induction false} SplitJoin(ms: seq<Match>, n: nat)
    requires n <= |ms|
    ensures ms[..n] + ms[n..] == ms
  {
  }

  /** The runs split the matches without loss. */
  lemma {:induction false} RunsFlatten(ms: seq<Match>)
    ensures FlattenRuns(Runs(ms)) == ms
    decreases |ms|
  {
    if |ms| > 0 {
      var n := RunLength(ms);
      var rest := ms[n..];
      RunsFlatten(rest);
      assert Runs(ms) == [ms[..n]] + Runs(rest);
      FlattenCons(ms[..n], Runs(rest));
      SplitJoin(ms, n);
    }
  }

  /** Each run shares one position and neighbouring runs have different
      positions. */
  lemma {:induction false} RunsMaximal(ms: seq<Match>)
    ensures forall k :: 0 <= k < |Runs(ms)| ==> SamePos(Runs(ms)[k])
    ensures forall k :: 0 < k < |Runs(ms)| ==> Runs(ms)[k][0].pos != Runs(ms)[k - 1][0].pos
    decreases |ms|
  {
    if |ms| > 0 {
      var n := RunLength(ms);
      var rest := ms[n..];
      RunsMaximal(rest);
      var r := Runs(ms);
      var rr := Runs(rest);
      assert r == [ms[..n]] + rr;
      assert SamePos(r[0]);
      forall k | 0 < k < |r| ensures SamePos(r[k]) && r[k][0].pos != r[k - 1][0].pos {
        assert r[k] == rr[k - 1];
        if k == 1 {
          RunsHead(rest);
        } else {
          assert r[k - 1] == rr[k - 2];
        }
      }
    }
  }

  /** The first run starts with the first match. */
  lemma {:induction false} RunsHead(ms: seq<Match>)
    requires |ms| > 0
    ensures |Runs(ms)| > 0 && Runs(ms)[0][0] == ms[0]
  {
  }

  /** longest_match: one max() per run, in run order. */
  function LongestMatch(ms: seq<Match>): (r: seq<Match>)
  {
    var rs := Runs(ms);
    seq(|rs|, k requires 0 <= k < |rs| => MaxOf(rs[k]))
  }

  /** find_longest yields exactly one element per run, in run order, and
      each is a member of its run that no other member exceeds. */
  lemma {:induction false} LongestMatchPerRun(ms: seq<Match>)
    ensures |LongestMatch(ms)| == |Runs(ms)|
    ensures forall k :: 0 <= k < |Runs(ms)| ==>
      LongestMatch(ms)[k] in Runs(ms)[k] && forall x :: x in Runs(ms)[k] ==> !MatchLt(LongestMatch(ms)[k], x)
  {
    var rs := Runs(ms);
    forall k | 0 <= k < |rs|
      ensures LongestMatch(ms)[k] in rs[k] && forall x :: x in rs[k] ==> !MatchLt(LongestMatch(ms)[k], x)
    {
      MaxOfIsMax(rs[k]);
    }
  }

  /** Every member of a run is a real occurrence in the input at the run's
      position. */
  predicate OccursIn(run: seq<Match>, input: string) {
    forall x :: x in run ==> x.pos + |x.word| <= |input| && input[x.pos..x.pos + |x.word|] == x.word
  }

  /** For real occurrences at one position the shorter word is a prefix of
      the longer, so max() picks the longest one. */
  lemma {:induction false} LongestIsLongest(run: seq<Match>, input: string)
    requires SamePos(run) && OccursIn(run, input)
    ensures forall x :: x in run ==> |x.word| <= |MaxOf(run).word|
  {
    MaxOfIsMax(run);
    var m := MaxOf(run);
    forall x | x in run ensures |x.word| <= |m.word| {
      if |x.word| > |m.word| {
        var xi :| 0 <= xi < |run| && run[xi] == x;
        var mi :| 0 <= mi < |run| && run[mi] == m;
        assert x.pos == m.pos;
        var p := x.pos;
        assert x.word[..|m.word|] == input[p..p + |m.word|] == m.word;
        PrefixLt(m.word, x.word);
      }
    }
  }

  // ---------------------------------------------------------------------
  // find_max_match

  /** subset(a, b): the span of a lies inside the span of b. */
  predicate Subset(a: Match, b: Match) {
    a.pos >= b.pos && a.pos + |a.word| <= b.pos + |b.word|
  }

  /** The inner for/else of max_match lets x through exactly when no match
      of a different value covers its span. */
  predicate Survives(x: Match, ms: seq<Match>) {
    forall j :: j in ms ==> j == x || !Subset(x, j)
  }

  /** The matches of xs that survive among ms, in order. */
  function Keep(ms: seq<Match>, xs: seq<Match>): (r: seq<Match>)
    ensures forall x :: x in r <==> x in xs && Survives(x, ms)
  {
    if |xs| == 0 then []
    else
      var p := Keep(ms, xs[..|xs| - 1]);
      assert forall x :: x in xs <==> x in xs[..|xs| - 1] || x == xs[|xs| - 1];
      if Survives(xs[|xs| - 1], ms) then p + [xs[|xs| - 1]] else p
  }

  /** max_match: a list of at most one match is returned as it is; otherwise
      the surviving matches in input order. */
  function MaxMatchSpec(ms: seq<Match>): seq<Match> {
    if |ms| <= 1 then ms else Keep(ms, ms)
  }

  /** max_match with its nested loops. */
  method MaxMatch(matches: seq<Match>) returns (maxmatch: seq<Match>)
    ensures maxmatch == MaxMatchSpec(matches)
  {
    if |matches| <= 1 {
      return matches;
    }
    maxmatch := [];
    var a := 0;
    while a < |matches|
      invariant 0 <= a <= |matches|
      invariant maxmatch == Keep(matches, matches[..a])
    {
      var i := matches[a];
      var covered := false;
      var b := 0;
      while b < |matches| && !covered
        invariant 0 <= b <= |matches|
        invariant !covered ==> forall c :: 0 <= c < b ==> matches[c] == i || !Subset(i, matches[c])
        invariant covered ==> !Survives(i, matches)
      {
        var j := matches[b];
        if i == j {
        } else if Subset(i, j) {
          covered := true;
        }
        b := b + 1;
      }
      assert matches[..a + 1][..a] == matches[..a] && matches[..a + 1][a] == i;
      if !covered {
        maxmatch := maxmatch + [i];
      }
      a := a + 1;
    }
    assert matches[..|matches|] == matches;
  }

  /** xs is an order-preserving subsequence of ys. */
  predicate Subsequence(xs: seq<Match>, ys: seq<Match>)
    decreases |ys|
  {
    |xs| <= |ys| && (|xs| == 0 || (xs[|xs| - 1] == ys[|ys| - 1] && Subsequence(xs[..|xs| - 1], ys[..|ys| - 1]))
                                || Subsequence(xs, ys[..|ys| - 1]))
  }

  lemma {:induction false} KeepSubsequence(ms: seq<Match>, xs: seq<Match>)
    ensures Subsequence(Keep(ms, xs), xs)
  {
    if |xs| > 0 {
      var init := xs[..|xs| - 1];
      var last := xs[|xs| - 1];
      KeepSubsequence(ms, init);
      var p := Keep(ms, init);
      if Survives(last, ms) {
        var r := p + [last];
        assert Keep(ms, xs) == r;
        assert r[..|r| - 1] == p && r[|r| - 1] == last;
        assert Subsequence(r, xs);
      } else {
        assert Keep(ms, xs) == p;
        assert Subsequence(p, xs);
      }
    }
  }

  /** The output of max_match is an order-preserving subsequence of its
      input, and a match is in it exactly when it is in the input and no
      match of a different value covers its span. */
  lemma {:induction false} MaxMatchSurvivors(ms: seq<Match>)
    ensures Subsequence(MaxMatchSpec(ms), ms)
    ensures forall x :: x in MaxMatchSpec(ms) <==> x in ms && Survives(x, ms)
  {
    if |ms| <= 1 {
      SubsequenceRefl(ms);
    } else {
      KeepSubsequence(ms, ms);
    }
  }

  lemma {:induction false} SubsequenceRefl(xs: seq<Match>)
    ensures Subsequence(xs, xs)
  {
    if |xs| > 0 {
      SubsequenceRefl(xs[..|xs| - 1]);
    }
  }

  /** Value-equal duplicates do not remove each other: a surviving match is
      kept as many times as it occurs. */
  lemma {:induction false} KeepCounts(ms: seq<Match>, xs: seq<Match>, x: Match)
    requires Survives(x, ms)
    ensures multiset(Keep(ms, xs))[x] == multiset(xs)[x]
  {
    if |xs| > 0 {
      KeepCounts(ms, xs[..|xs| - 1], x);
      assert xs == xs[..|xs| - 1] + [xs[|xs| - 1]];
    }
  }

  lemma {:induction false} MaxMatchDuplicates(ms: seq<Match>, x: Match)
    requires Survives(x, ms)
    ensures multiset(MaxMatchSpec(ms))[x] == multiset(ms)[x]
  {
    if |ms| > 1 {
      KeepCounts(ms, ms, x);
    }
  }

  /** Two different matches over the same span (same position and length)
      remove each other. */
  lemma {:induction false} SameSpanEliminated(ms: seq<Match>, x: Match, y: Match)
    requires |ms| > 1 && x in ms && y in ms && x != y
    requires x.pos == y.pos && |x.word| == |y.word|
    ensures x !in MaxMatchSpec(ms) && y !in MaxMatchSpec(ms)
  {
    assert Subset(x, y) && Subset(y, x);
  }

  /** Survival among fewer competitors. */
  lemma {:induction false} SurvivesSub(x: Match, ms: seq<Match>, ns: seq<Match>)
    requires Survives(x, ms) && forall y :: y in ns ==> y in ms
    ensures Survives(x, ns)
  {
  }

  lemma {:induction false} KeepAll(ms: seq<Match>, xs: seq<Match>)
    requires forall x :: x in xs ==> Survives(x, ms)
    ensures Keep(ms, xs) == xs
  {
    if |xs| > 0 {
      assert xs[|xs| - 1] in xs;
      forall x | x in xs[..|xs| - 1] ensures Survives(x, ms) {
        assert x in xs;
      }
      KeepAll(ms, xs[..|xs| - 1]);
    }
  }

  /** max_match applied to its own output changes nothing. */
  lemma {:induction false} MaxMatchIdempotent(ms: seq<Match>)
    ensures MaxMatchSpec(MaxMatchSpec(ms)) == MaxMatchSpec(ms)
  {
    var r := MaxMatchSpec(ms);
    MaxMatchSurvivors(ms);
    if |r| > 1 {
      forall x | x in r ensures Survives(x, r) {
        SurvivesSub(x, ms, r);
      }
      KeepAll(r, r);
    }
  }

  // ---------------------------------------------------------------------
  // find

  /** What find returns: the automaton's (word, position) pairs, or with a
      vocabulary (word, word id, position) triples. */
  datatype Found = Pairs(pairs: seq<Match>) | Triples(triples: seq<(string, int, nat)>)

  /** find: without a vocabulary the matches as they are; with one, each
      word's id inserted between word and position. Unpacking zip(*result)
      into two names raises ValueError when there is no match. */
  function Find(result: seq<Match>, vocab: Option<string -> int>): (r: Result<Found>)
    ensures vocab.None? ==> r == Ok(Pairs(result))
    ensures vocab.Some? ==> (r.Err? <==> |result| == 0)
    ensures r.Err? ==> r.error == ValueError
  {
    match vocab
    case None => Ok(Pairs(result))
    case Some(word2id) =>
      if |result| == 0 then Err(ValueError)
      else Ok(Triples(seq(|result|, i requires 0 <= i < |result| => (result[i].word, word2id(result[i].word), result[i].pos))))
  }

  /** Dropping the ids from find's triples gives the automaton's matches
      back, and every id is the vocabulary's id of its word. */
  lemma {:induction false} FindTriplesRoundTrip(result: seq<Match>, word2id: string -> int)
    requires |result| > 0
    ensures var r := Find(result, Some(word2id));
      && r.Ok? && r.value.Triples?
      && |r.value.triples| == |result|
      && (forall i :: 0 <= i < |result| ==> r.value.triples[i].1 == word2id(r.value.triples[i].0))
      && seq(|result|, i requires 0 <= i < |result| => Match(r.value.triples[i].0, r.value.triples[i].2)) == result
  {
  }
}
