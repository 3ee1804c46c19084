/** NER_Base (nlptools/text/ner.py): the keyword tables it builds from the
    keyword files and the extraction methods get_keywords, get_regex,
    get_ner and get. The file system is a map from path to lines; the regex
    engine, the segmenter and the keyword index are passed in as functions. */
module Ner {
  import opened Wrappers
  import opened Text
  import Keywords
  import opened Passes

  /** The keys of a table held in dict order. */
  function KeysOf(table: seq<(string, string)>): (r: seq<string>)
    ensures |r| == |table| && forall i :: 0 <= i < |table| ==> r[i] == table[i].0
  {
    seq(|table|, i requires 0 <= i < |table| => table[i].0)
  }

  /** table[k], if k is a key. */
  function Lookup(table: seq<(string, string)>, k: string): (r: Option<string>)
    ensures r.Some? <==> HasKey(table, k)
    ensures r.Some? ==> exists i :: 0 <= i < |table| && table[i] == (k, r.value)
  {
    if |table| == 0 then None
    else if table[0].0 == k then Some(table[0].1)
    else
      var r := Lookup(table[1..], k);
      HasKeyTail(table, k);
      if r.Some? then
        var i :| 0 <= i < |table| - 1 && table[1..][i] == (k, r.value);
        assert table[i + 1] == (k, r.value);
        r
      else r
  }

  /** table[k] = v on a dict: an existing key keeps its place, a new one
      goes last. */
  function Put(table: seq<(string, string)>, k: string, v: string): (r: seq<(string, string)>)
    ensures KeysOf(r) == if HasKey(table, k) then KeysOf(table) else KeysOf(table) + [k]
    ensures |r| == |KeysOf(r)|
  {
    if |table| == 0 then [(k, v)]
    else if table[0].0 == k then
      assert HasKey(table, k);
      [(k, v)] + table[1..]
    else
      var t := Put(table[1..], k, v);
      HasKeyTail(table, k);
      KeysOfCons(table[0], t);
      KeysOfCons(table[0], table[1..]);
      assert [table[0]] + table[1..] == table;
      [table[0]] + t
  }

  /** A key other than the first is a key of the table iff of its tail. */
  lemma {:induction false} HasKeyTail(table: seq<(string, string)>, k: string)
    requires |table| > 0 && table[0].0 != k
    ensures HasKey(table, k) <==> HasKey(table[1..], k)
  {
    if HasKey(table, k) {
      var i :| 0 <= i < |table| && table[i].0 == k;
      assert table[1..][i - 1] == table[i];
    }
    if HasKey(table[1..], k) {
      var i :| 0 <= i < |table| - 1 && table[1..][i].0 == k;
      assert table[i + 1] == table[1..][i];
    }
  }

  lemma {:induction false} KeysOfCons(h: (string, string), t: seq<(string, string)>)
    ensures KeysOf([h] + t) == [h.0] + KeysOf(t)
  {
    assert |KeysOf([h] + t)| == |[h.0] + KeysOf(t)|;
  }

  lemma {:induction false} PutLookup(table: seq<(string, string)>, k: string, v: string, k': string)
    ensures Lookup(Put(table, k, v), k') == if k' == k then Some(v) else Lookup(table, k')
  {
    if |table| > 0 && table[0].0 != k {
      PutLookup(table[1..], k, v, k');
    }
  }

  lemma {:induction false} PutDistinct(table: seq<(string, string)>, k: string, v: string)
    requires DistinctKeys(table)
    ensures DistinctKeys(Put(table, k, v))
  {
    var r := Put(table, k, v);
    var ks, ks' := KeysOf(table), KeysOf(r);
    forall i, j | 0 <= i < j < |r| ensures r[i].0 != r[j].0 {
      assert ks'[i] == r[i].0 && ks'[j] == r[j].0;
      if j < |table| {
        assert ks[i] == table[i].0 && ks[j] == table[j].0;
      } else {
        assert ks[i] == table[i].0;
      }
    }
  }

  lemma {:induction false} HasKeyKeysOf(table: seq<(string, string)>, k: string)
    ensures HasKey(table, k) <==> k in KeysOf(table)
  {
    if k in KeysOf(table) {
      var i :| 0 <= i < |table| && KeysOf(table)[i] == k;
    }
  }

  /** The keys of a dict after assigning to each of `ns` in turn. */
  function AddKeys(ks: seq<string>, ns: seq<string>): seq<string> {
    if |ns| == 0 then ks
    else
      var p := AddKeys(ks, ns[..|ns| - 1]);
      if ns[|ns| - 1] in p then p else p + [ns[|ns| - 1]]
  }

  /** Assigning fresh, distinct keys appends them in order. */
  lemma {:induction false} AddFreshKeys(ks: seq<string>, ns: seq<string>)
    requires Keywords.NoDup(ns) && forall n :: n in ns ==> n !in ks
    ensures AddKeys(ks, ns) == ks + ns
  {
    if |ns| > 0 {
      var p := ns[..|ns| - 1];
      var n := ns[|ns| - 1];
      assert Keywords.NoDup(p);
      forall x | x in p ensures x in ns { var i :| 0 <= i < |p| && p[i] == x; assert ns[i] == x; }
      AddFreshKeys(ks, p);
      assert n !in p by {
        forall i | 0 <= i < |p| ensures p[i] != n { assert p[i] == ns[i]; }
      }
      assert ns == p + [n];
    }
  }

  /** The categories whose file exists are distinct when the categories
      are, and each is a category. */
  lemma {:induction false} ExistingDistinct(cats: seq<(string, string)>, files: map<string, seq<string>>)
    requires DistinctKeys(cats)
    ensures Keywords.NoDup(Keywords.Existing(cats, files))
    ensures forall x :: x in Keywords.Existing(cats, files) ==> HasKey(cats, x)
  {
    if |cats| > 0 {
      var p := cats[..|cats| - 1];
      var c := cats[|cats| - 1];
      assert DistinctKeys(p) by {
        forall a, b | 0 <= a < b < |p| ensures p[a].0 != p[b].0 { assert p[a] == cats[a] && p[b] == cats[b]; }
      }
      ExistingDistinct(p, files);
      var e := Keywords.Existing(p, files);
      forall x | x in e ensures HasKey(cats, x) && x != c.0 {
        var i :| 0 <= i < |p| && p[i].0 == x;
        assert cats[i] == p[i];
      }
      if c.1 in files {
        var e' := e + [c.0];
        forall a, b | 0 <= a < b < |e'| ensures e'[a] != e'[b] {
          if b < |e| { assert e'[a] == e[a] && e'[b] == e[b]; } else { assert e[a] in e; }
        }
      }
    }
  }

  /** NER_Base: the configuration given at construction and the tables the
      build methods fill. Tables that are Python dicts keep dict order as
      sequences of (key, value) pairs. */
  /** The inner loop of build_keywords_index for one category: every keyword
      of ks is mapped to the category, and the keywords not yet mapped are
      added to the index in order. */
  method IndexCategory(kw2e: map<string, string>, order: seq<string>, seen: seq<string>, k: string, ks: seq<string>)
    returns (kw2e': map<string, string>, order': seq<string>)
    requires order == Keywords.Distinct(seen)
    requires forall x :: x in kw2e <==> x in seen
    ensures kw2e' == Keywords.Assign(kw2e, ks, k)
    ensures order' == Keywords.Distinct(seen + ks)
    ensures forall x :: x in kw2e' <==> x in seen + ks
  {
    kw2e', order' := kw2e, order;
    assert seen + ks[..0] == seen;
    var j := 0;
    while j < |ks|
      invariant 0 <= j <= |ks|
      invariant kw2e' == Keywords.Assign(kw2e, ks[..j], k)
      invariant order' == Keywords.Distinct(seen + ks[..j])
      invariant forall x :: x in kw2e' <==> x in seen + ks[..j]
    {
      var kw := ks[j];
      ghost var m0, o0 := kw2e', order';
      if kw !in kw2e' {
        order' := order' + [kw];
      }
      kw2e' := kw2e'[kw := k];
      IndexStep(kw2e, m0, o0, kw2e', order', seen, k, ks, j);
      j := j + 1;
    }
    assert ks[..|ks|] == ks;
  }

  /** One keyword of IndexCategory's loop keeps its invariants. */
  lemma {:induction false} IndexStep(kw2e: map<string, string>, m: map<string, string>, order: seq<string>,
                                     m': map<string, string>, order': seq<string>, seen: seq<string>,
                                     k: string, ks: seq<string>, j: nat)
    requires j < |ks|
    requires m == Keywords.Assign(kw2e, ks[..j], k)
    requires order == Keywords.Distinct(seen + ks[..j])
    requires forall x :: x in m <==> x in seen + ks[..j]
    requires m' == m[ks[j] := k]
    requires order' == if ks[j] in m then order else order + [ks[j]]
    ensures m' == Keywords.Assign(kw2e, ks[..j + 1], k)
    ensures order' == Keywords.Distinct(seen + ks[..j + 1])
    ensures forall x :: x in m' <==> x in seen + ks[..j + 1]
  {
    var kw := ks[j];
    assert ks[..j + 1] == ks[..j] + [kw];
    assert seen + ks[..j + 1] == (seen + ks[..j]) + [kw];
    Keywords.DistinctSnoc(seen + ks[..j], kw);
    Keywords.AssignSnoc(kw2e, ks[..j], kw, k);
  }

  /** The inner loop of get_regex: each match of one category, resolved
      through the replacement map, is appended under the category. */
  method RecordAll(entities: Entities, reg: string, ms: seq<string>, er: map<string, string>)
    returns (ents: Entities)
    ensures ents == RecordMatches(entities, reg, ms, er)
  {
    ents := entities;
    var j := 0;
    while j < |ms|
      invariant 0 <= j <= |ms|
      invariant ents == RecordMatches(entities, reg, ms[..j], er)
    {
      RecordMatchesSnoc(entities, reg, ms[..j], ms[j], er);
      assert ms[..j + 1] == ms[..j] + [ms[j]];
      ghost var before := ents;
      if reg !in ents {
        ents := ents[reg := []];
      }
      assert ents[reg] == Values(before, reg);
      var e := ms[j];
      var v := if e in er then er[e] else e;
      ents := ents[reg := ents[reg] + [v]];
      assert ents == Append(before, reg, Resolve(er, e));
      j := j + 1;
    }
    assert ms[..|ms|] == ms;
  }

  /** The outer loop of get_regex: each category in turn records its
      matches on the current text, then has them replaced by its placeholder. */
  method RegexLoop(table: seq<(string, string)>, sentence: string, entities: Entities, er: map<string, string>,
                   finditer: (string, string) -> seq<string>, sub: (string, string, string) -> string)
    returns (ents: Entities, replaced: string)
    ensures ents == RegexEntities(table, sentence, entities, er, finditer, sub)
    ensures replaced == RegexText(table, sentence, sub)
  {
    ents := entities;
    replaced := sentence;
    var c := 0;
    while c < |table|
      invariant 0 <= c <= |table|
      invariant ents == RegexEntities(table[..c], sentence, entities, er, finditer, sub)
      invariant replaced == RegexText(table[..c], sentence, sub)
    {
      var (reg, pat) := table[c];
      assert table[..c + 1][..c] == table[..c] && table[..c + 1][c] == table[c];
      ghost var p := table[..c + 1];
      var ms := finditer(pat, replaced);
      ents := RecordAll(ents, reg, ms, er);
      assert ents == RegexEntities(p, sentence, entities, er, finditer, sub);
      replaced := sub(pat, "$" + Upper(reg), replaced);
      assert replaced == RegexText(p, sentence, sub);
      c := c + 1;
    }
    assert table[..|table|] == table;
  }

  /** The first loop of get_ner: each token whose label is a known NER
      label, unless the token is blacklisted, is appended under the label. */
  method RecordNer(tokens: seq<string>, labels: seq<string>, entities: Entities, ner: seq<string>, blacklist: set<string>)
    returns (ents: Entities)
    requires |labels| <= |tokens|
    ensures ents == NerRecord(tokens, labels, |labels|, entities, ner, blacklist)
  {
    ents := entities;
    var i := 0;
    while i < |labels|
      invariant 0 <= i <= |labels|
      invariant ents == NerRecord(tokens, labels, i, entities, ner, blacklist)
    {
      var e := labels[i];
      ghost var ents0 := ents;
      if |e| > 0 && e in ner && tokens[i] !in blacklist {
        if e in ents {
          ents := ents[e := ents[e] + [tokens[i]]];
        } else {
          assert Values(ents0, e) + [tokens[i]] == [tokens[i]];
          ents := ents[e := [tokens[i]]];
        }
        assert ents == Append(ents0, e, tokens[i]);
      }
      assert ents == if Recordable(tokens, labels, ner, blacklist, i) then Append(ents0, e, tokens[i]) else ents0;
      i := i + 1;
    }
  }

  /** The second loop of get_ner: empty and bare '$' tokens are dropped,
      the others rewritten to their placeholder or kept. */
  method RewriteTokens(tokens: seq<string>, labels: seq<string>, ner: seq<string>) returns (replaced: seq<string>)
    requires |labels| <= |tokens|
    ensures replaced == Rewrite(tokens, labels, ner, |labels|)
  {
    replaced := [];
    var i := 0;
    while i < |labels|
      invariant 0 <= i <= |labels|
      invariant replaced == Rewrite(tokens, labels, ner, i)
    {
      var e := labels[i];
      ghost var r0 := replaced;
      if |tokens[i]| < 1 || tokens[i] == "$" {
      } else if i > 0 && i < |tokens| - 1 && tokens[i - 1] == "$" {
        replaced := replaced + ["$" + Upper(tokens[i])];
      } else if e !in ner || |e| < 1 {
        replaced := replaced + [tokens[i]];
      } else {
        replaced := replaced + ["$" + Upper(e)];
      }
      assert replaced == if Skipped(tokens[i]) then r0 else r0 + [RewriteAt(tokens, labels, ner, i)];
      i := i + 1;
    }
  }

  /** The line loop of __read_keywords over one keyword file: each keyword
      line's surface is collected, and the first replacement given for a
      surface is recorded. */
  method ReadLines(er: map<string, string>, lines: seq<string>) returns (er': map<string, string>, ks: seq<string>)
    ensures (er', ks) == Keywords.ReadEntries(er, Keywords.ParseLines(lines))
  {
    ghost var es := Keywords.ParseLines(lines);
    er', ks := er, [];
    var j := 0;
    while j < |lines|
      invariant 0 <= j <= |lines|
      invariant (er', ks) == Keywords.ReadEntries(er, es[..j])
    {
      assert es[..j + 1][..j] == es[..j];
      var l := Keywords.ParseLine(lines[j]);
      if l.Keyword? {
        ks := ks + [l.surface];
        if l.alias.Some? && l.surface !in er' {
          er' := er'[l.surface := l.alias.value];
        }
      }
      j := j + 1;
    }
    assert es[..|lines|] == es;
  }

  class NerBase {
    /** Category name to the path of its keyword file. */
    const keywords: seq<(string, string)>
    /** The NER labels kept. */
    const ner: seq<string>
    /** Category name to regular expression. */
    const regex: seq<(string, string)>
    /** Tokens get_ner never records: the names of all categories. */
    const replaceBlacklist: set<string>
    var customRegex: seq<(string, string)>
    var keywordsRegex: seq<(string, string)>
    var entityReplace: map<string, string>
    var keywordsKw2e: map<string, string>
    /** The keywords loaded into the index, once it is built. */
    var keywordsIndex: Option<seq<string>>

    /** Every table that is a dict has distinct keys. */
    predicate Valid()
      reads this
    {
      DistinctKeys(keywords) && DistinctKeys(regex) && DistinctKeys(customRegex) && DistinctKeys(keywordsRegex)
    }

    constructor (keywords: seq<(string, string)>, ner: seq<string>, regex: seq<(string, string)>,
                 files: map<string, seq<string>>)
      requires DistinctKeys(keywords) && DistinctKeys(regex)
      ensures Valid()
      ensures this.keywords == keywords && this.ner == ner && this.regex == regex
      ensures replaceBlacklist == (set i | 0 <= i < |keywords| :: keywords[i].0) + (set e | e in ner)
                                  + (set i | 0 <= i < |regex| :: regex[i].0)
      ensures customRegex == [] && keywordsIndex == None && keywordsKw2e == map[]
      ensures entityReplace == Keywords.ReadKeywords(map[], keywords, files).0
      ensures KeysOf(keywordsRegex) == Keywords.Existing(keywords, files)
      ensures var kws := Keywords.ReadKeywords(map[], keywords, files).1;
        forall i :: 0 <= i < |kws| ==>
          (Lookup(keywordsRegex, kws[i].0).Some? &&
           Keywords.PatternOf(Lookup(keywordsRegex, kws[i].0).value, kws[i].1, entityReplace))
    {
      this.keywords := keywords;
      this.ner := ner;
      this.regex := regex;
      replaceBlacklist := (set i | 0 <= i < |keywords| :: keywords[i].0) + (set e | e in ner)
                          + (set i | 0 <= i < |regex| :: regex[i].0);
      customRegex := [];
      keywordsRegex := [];
      entityReplace := map[];
      keywordsKw2e := map[];
      keywordsIndex := None;
      new;
      BuildKeywordsRegex(files);
      ExistingDistinct(keywords, files);
      AddFreshKeys([], Keywords.Existing(keywords, files));
    }

    /** __read_keywords: reads the file of every category whose file exists,
        records first-seen replacements in entityReplace, and returns each
        such category with its canonical keyword list. */
    method ReadKeywords(files: map<string, seq<string>>) returns (kws: seq<(string, seq<string>)>)
      modifies this`entityReplace
      ensures (entityReplace, kws) == Keywords.ReadKeywords(old(entityReplace), keywords, files)
    {
      kws := [];
      var c := 0;
      while c < |keywords|
        invariant 0 <= c <= |keywords|
        invariant (entityReplace, kws) == Keywords.ReadKeywords(old(entityReplace), keywords[..c], files)
      {
        assert keywords[..c + 1][..c] == keywords[..c];
        var (cat, path) := keywords[c];
        if path in files {
          var ks;
          entityReplace, ks := ReadLines(entityReplace, files[path]);
          kws := kws + [(cat, Keywords.CanonicalList(ks))];
        }
        c := c + 1;
      }
      assert keywords[..|keywords|] == keywords;
    }
  
    /** build_keywords_regex: reads the keyword files, then for each category
        read extends its list with alias targets, sorts it longest first and
        stores the alternation of its groups under the category. */
    method BuildKeywordsRegex(files: map<string, seq<string>>)
      requires Valid()
      modifies this`entityReplace, this`keywordsRegex
      ensures Valid()
      ensures entityReplace == Keywords.ReadKeywords(old(entityReplace), keywords, files).0
      ensures KeysOf(keywordsRegex) == AddKeys(KeysOf(old(keywordsRegex)), Keywords.Existing(keywords, files))
      ensures forall k :: k !in Keywords.Existing(keywords, files) ==> Lookup(keywordsRegex, k) == Lookup(old(keywordsRegex), k)
      ensures var kws := Keywords.ReadKeywords(old(entityReplace), keywords, files).1;
        forall i :: 0 <= i < |kws| ==>
          (Lookup(keywordsRegex, kws[i].0).Some? &&
           Keywords.PatternOf(Lookup(keywordsRegex, kws[i].0).value, kws[i].1, entityReplace))
    {
      var kws := ReadKeywords(files);
      Keywords.ReadKeywordsShape(old(entityReplace), keywords, files);
      ExistingDistinct(keywords, files);
      StorePatterns(kws);
    }

    /** The loop of build_keywords_regex over the categories read. */
    method StorePatterns(kws: seq<(string, seq<string>)>)
      requires DistinctKeys(keywordsRegex) && Keywords.NoDup(Keywords.Categories(kws))
      requires forall i :: 0 <= i < |kws| ==> Keywords.NoDup(kws[i].1)
      modifies this`keywordsRegex
      ensures DistinctKeys(keywordsRegex)
      ensures KeysOf(keywordsRegex) == AddKeys(KeysOf(old(keywordsRegex)), Keywords.Categories(kws))
      ensures forall k :: k !in Keywords.Categories(kws) ==> Lookup(keywordsRegex, k) == Lookup(old(keywordsRegex), k)
      ensures forall i :: 0 <= i < |kws| ==>
        (Lookup(keywordsRegex, kws[i].0).Some? &&
         Keywords.PatternOf(Lookup(keywordsRegex, kws[i].0).value, kws[i].1, entityReplace))
    {
      ghost var cats := Keywords.Categories(kws);
      var c := 0;
      while c < |kws|
        invariant 0 <= c <= |kws|
        invariant DistinctKeys(keywordsRegex)
        invariant KeysOf(keywordsRegex) == AddKeys(KeysOf(old(keywordsRegex)), cats[..c])
        invariant forall k :: k !in cats[..c] ==> Lookup(keywordsRegex, k) == Lookup(old(keywordsRegex), k)
        invariant forall i :: 0 <= i < c ==> Stored(keywordsRegex, kws[i].0, kws[i].1, entityReplace)
      {
        var (k, ks) := kws[c];
        var temp := Keywords.CloseAliases(ks, entityReplace);
        Keywords.SortClosed(ks, temp, entityReplace);
        temp := Keywords.SortByLength(temp);
        var pattern := Keywords.Alternation(temp);
        assert Keywords.PatternOf(pattern, ks, entityReplace);
        StoreStepKeys(keywordsRegex, old(keywordsRegex), cats, c, pattern);
        StoreStepEntries(keywordsRegex, old(keywordsRegex), kws, c, pattern, entityReplace);
        keywordsRegex := Put(keywordsRegex, k, pattern);
        c := c + 1;
      }
      assert cats[..|kws|] == cats;
      forall i | 0 <= i < |kws|
        ensures Lookup(keywordsRegex, kws[i].0).Some? &&
                Keywords.PatternOf(Lookup(keywordsRegex, kws[i].0).value, kws[i].1, entityReplace)
      {
        assert Stored(keywordsRegex, kws[i].0, kws[i].1, entityReplace);
      }
    }

    /** build_keywords_index: reads the keyword files again, maps every
        keyword to its category (a later category wins), and loads the
        mapped keywords, longest first, into the index. */
    method BuildKeywordsIndex(files: map<string, seq<string>>)
      modifies this`entityReplace, this`keywordsKw2e, this`keywordsIndex
      ensures var (er, kws) := Keywords.ReadKeywords(old(entityReplace), keywords, files);
        && entityReplace == er
        && keywordsKw2e == Keywords.Kw2e(kws)
        && keywordsIndex == Some(Keywords.IndexSurfaces(kws))
    {
      var kws := ReadKeywords(files);
      ghost var er := entityReplace;
      var kw2e: map<string, string> := map[];
      // the keys of kw2e in insertion order
      var order: seq<string> := [];
      var c := 0;
      while c < |kws|
        invariant 0 <= c <= |kws| && entityReplace == er
        invariant kw2e == Keywords.Kw2e(kws[..c])
        invariant order == Keywords.Distinct(Keywords.Flatten(kws[..c]))
        invariant forall x :: x in kw2e <==> x in Keywords.Flatten(kws[..c])
      {
        var (k, ks) := kws[c];
        assert kws[..c + 1][..c] == kws[..c];
        kw2e, order := IndexCategory(kw2e, order, Keywords.Flatten(kws[..c]), k, ks);
        c := c + 1;
      }
      assert kws[..|kws|] == kws;
      keywordsKw2e := kw2e;
      keywordsIndex := Some(Keywords.SortByLength(order));
    }

    /** get_keywords on a token list: `found` is what the index reports for
        the tokens. The entities given are extended and returned; with
        `replace` the tokens are rewritten in place. */
    method GetKeywords(tokens: array<string>, found: seq<(string, nat)>, replace: bool, entities: Entities)
      returns (r: Result<Entities>)
      requires keywordsIndex.Some? ==> Reported(tokens[..], found, keywordsKw2e)
      modifies tokens
      ensures r.Err? <==> keywordsIndex.None?
      ensures r.Err? ==> r.error == AttributeError && tokens[..] == old(tokens[..])
      ensures r.Ok? ==> KwState(tokens[..], r.value) == KeywordPass(old(tokens[..]), entities, found, replace, keywordsKw2e, entityReplace)
    {
      if keywordsIndex.None? {
        return Err(AttributeError);
      }
      ghost var t0 := tokens[..];
      var ents := entities;
      var j := 0;
      while j < |found|
        invariant 0 <= j <= |found|
        invariant KwState(tokens[..], ents) == KeywordPass(t0, entities, found[..j], replace, keywordsKw2e, entityReplace)
      {
        KeywordPassSnoc(t0, entities, found, j, replace, keywordsKw2e, entityReplace);
        ents := KeywordAt(tokens, found[j], replace, ents);
        j := j + 1;
      }
      assert found[..|found|] == found;
      return Ok(ents);
    }

    /** The body of the loop of get_keywords for one occurrence. */
    method KeywordAt(tokens: array<string>, o: (string, nat), replace: bool, entities: Entities)
      returns (ents: Entities)
      requires o.1 < tokens.Length && tokens[o.1] != "" && o.0 in keywordsKw2e
      modifies tokens
      ensures KwState(tokens[..], ents) == KeywordStep(KwState(old(tokens[..]), entities), o, replace, keywordsKw2e, entityReplace)
    {
      var (surface, il) := o;
      ents := entities;
      if tokens[il][0] != '$' {
        var k := keywordsKw2e[surface];
        if k !in ents {
          ents := ents[k := []];
        }
        var v := if surface in entityReplace then entityReplace[surface] else surface;
        ents := ents[k := ents[k] + [v]];
        assert ents == Append(entities, k, Resolve(entityReplace, surface));
        if replace {
          tokens[il] := "$" + Upper(k);
          assert tokens[..] == old(tokens[..])[il := Placeholder(k)];
        }
      }
    }

    /** The merged regex table, in the order get_regex scans it. */
    function RegexTable(): seq<(string, string)>
      reads this
    {
      regex + customRegex + keywordsRegex
    }

    /** get_regex: the tables are merged (a name repeated across them raises
        TypeError), then each category in turn records its matches on the
        current text and has them replaced by its placeholder. Both the
        entities and the rewritten text are returned. */
    method GetRegex(sentence: string, entities: Entities,
                    finditer: (string, string) -> seq<string>, sub: (string, string, string) -> string)
      returns (r: Result<(Entities, string)>)
      ensures r.Err? <==> !DistinctKeys(RegexTable())
      ensures r.Err? ==> r.error == TypeError
      ensures r.Ok? ==> r.value == (RegexEntities(RegexTable(), sentence, entities, entityReplace, finditer, sub),
                                    RegexText(RegexTable(), sentence, sub))
    {
      var table := regex + customRegex + keywordsRegex;
      if !DistinctKeys(table) {
        return Err(TypeError);
      }
      var ents, replaced := RegexLoop(table, sentence, entities, entityReplace, finditer, sub);
      return Ok((ents, replaced));
    }

    /** get: the regex pass, segmentation of the rewritten text by `seg`
        (tokens and NER labels), the keyword pass over the tokens when an
        index was built (`find` stands for the index's lookup), then the NER
        pass; entities and the rewritten tokens are returned. */
    method Get(sentence: string, entities: Entities,
               seg: string -> (seq<string>, seq<string>), find: seq<string> -> seq<(string, nat)>,
               finditer: (string, string) -> seq<string>, sub: (string, string, string) -> string)
      returns (r: Result<(Entities, seq<string>)>)
      requires forall s :: |seg(s).1| <= |seg(s).0|
      requires keywordsIndex.Some? ==> forall ts :: Reported(ts, find(ts), keywordsKw2e)
      ensures r.Err? <==> !DistinctKeys(RegexTable())
      ensures r.Err? ==> r.error == TypeError
      ensures r.Ok? ==> r.value == Pipeline(RegexTable(), sentence, entities, entityReplace, keywordsKw2e,
                                            keywordsIndex.Some?, ner, replaceBlacklist, seg, find, finditer, sub)
    {
      var g := GetRegex(sentence, entities, finditer, sub);
      if g.Err? {
        return Err(g.error);
      }
      var (ents, text) := g.value;
      var (toks, labels) := seg(text);
      var tokens := toks;
      if keywordsIndex.Some? {
        var a := new string[|toks|](i requires 0 <= i < |toks| => toks[i]);
        assert a[..] == toks;
        var k := GetKeywords(a, find(toks), true, ents);
        ents := k.value;
        tokens := a[..];
      }
      var replaced;
      ents, replaced := GetNer(tokens, labels, ents);
      return Ok((ents, replaced));
    }

    /** The names get_ner never records a token as: the names already in
        the entities and the category names given at construction. */
    function Blacklist(entities: Entities): set<string>
      reads this
    {
      entities.Keys + replaceBlacklist
    }

    /** get_ner on segmenter output (parallel token and label lists): records
        tokens under their NER labels, then rewrites the tokens and collapses
        adjacent duplicates with a backward loop. */
    method GetNer(tokens: seq<string>, labels: seq<string>, entities: Entities)
      returns (ents: Entities, replaced: seq<string>)
      requires |labels| <= |tokens|
      ensures ents == NerRecord(tokens, labels, |labels|, entities, ner, Blacklist(entities))
      ensures replaced == Dedup(Rewrite(tokens, labels, ner, |labels|))
    {
      ents := RecordNer(tokens, labels, entities, ner, entities.Keys + replaceBlacklist);
      replaced := RewriteTokens(tokens, labels, ner);
      replaced := CollapseRuns(replaced);
    }
  }

  /** The backward loop at the end of get_ner: from the last index down to
      1, an element equal to its left neighbour is deleted. */
  method CollapseRuns(s: seq<string>) returns (r: seq<string>)
    ensures r == Dedup(s)
  {
    r := s;
    if |s| == 0 {
      return;
    }
    var i := |s|;
    while i > 1
      invariant 1 <= i <= |s|
      invariant r == s[..i] + DedupFrom(s, i)
    {
      i := i - 1;
      assert r[i] == s[i] && r[i - 1] == s[i - 1];
      if r[i] == r[i - 1] {
        r := r[..i] + r[i + 1..];
      }
      assert s[..i + 1] == s[..i] + [s[i]];
    }
    assert s[..1] == [s[0]];
  }

  /** One round of the loop of build_keywords_regex keeps the keys of the
      table distinct and in assignment order. */
  lemma {:induction false} StoreStepKeys(before: seq<(string, string)>, t0: seq<(string, string)>, cats: seq<string>, c: nat,
                      pattern: string)
    requires c < |cats| && DistinctKeys(before)
    requires KeysOf(before) == AddKeys(KeysOf(t0), cats[..c])
    ensures var after := Put(before, cats[c], pattern);
      && DistinctKeys(after)
      && KeysOf(after) == AddKeys(KeysOf(t0), cats[..c + 1])
  {
    var k := cats[c];
    PutDistinct(before, k, pattern);
    HasKeyKeysOf(before, k);
    var p := AddKeys(KeysOf(t0), cats[..c]);
    assert AddKeys(KeysOf(t0), cats[..c + 1]) == if k in p then p else p + [k] by {
      assert cats[..c + 1][..c] == cats[..c];
    }
  }

  /** One round of the loop of build_keywords_regex stores the pattern of
      its category and leaves every other category's entry alone. */
  lemma {:induction false} StoreStepEntries(before: seq<(string, string)>, t0: seq<(string, string)>, kws: seq<(string, seq<string>)>, c: nat,
                         pattern: string, er: map<string, string>)
    requires c < |kws| && Keywords.NoDup(Keywords.Categories(kws))
    requires forall k :: k !in Keywords.Categories(kws)[..c] ==> Lookup(before, k) == Lookup(t0, k)
    requires forall i :: 0 <= i < c ==> Stored(before, kws[i].0, kws[i].1, er)
    requires Keywords.PatternOf(pattern, kws[c].1, er)
    ensures var after := Put(before, kws[c].0, pattern);
      && (forall k :: k !in Keywords.Categories(kws)[..c + 1] ==> Lookup(after, k) == Lookup(t0, k))
      && (forall i :: 0 <= i < c + 1 ==> Stored(after, kws[i].0, kws[i].1, er))
  {
    StoreStepOthers(before, t0, Keywords.Categories(kws), c, pattern);
    StoreStepStored(before, kws, c, pattern, er);
  }

  lemma {:induction false} StoreStepOthers(before: seq<(string, string)>, t0: seq<(string, string)>, cats: seq<string>, c: nat,
                                           pattern: string)
    requires c < |cats|
    requires forall k :: k !in cats[..c] ==> Lookup(before, k) == Lookup(t0, k)
    ensures forall k :: k !in cats[..c + 1] ==> Lookup(Put(before, cats[c], pattern), k) == Lookup(t0, k)
  {
    assert cats[..c + 1] == cats[..c] + [cats[c]];
    forall k' | k' !in cats[..c + 1] ensures Lookup(Put(before, cats[c], pattern), k') == Lookup(t0, k') {
      assert k' != cats[c] && k' !in cats[..c];
      PutLookup(before, cats[c], pattern, k');
    }
  }

  lemma {:induction false} StoreStepStored(before: seq<(string, string)>, kws: seq<(string, seq<string>)>, c: nat,
                                           pattern: string, er: map<string, string>)
    requires c < |kws| && Keywords.NoDup(Keywords.Categories(kws))
    requires forall i :: 0 <= i < c ==> Stored(before, kws[i].0, kws[i].1, er)
    requires Keywords.PatternOf(pattern, kws[c].1, er)
    ensures forall i :: 0 <= i < c + 1 ==> Stored(Put(before, kws[c].0, pattern), kws[i].0, kws[i].1, er)
  {
    forall i | 0 <= i <= c ensures Stored(Put(before, kws[c].0, pattern), kws[i].0, kws[i].1, er) {
      StoredStepAt(before, kws, c, pattern, er, i);
    }
  }

  /** The same for the category at i. */
  lemma {:induction false} StoredStepAt(before: seq<(string, string)>, kws: seq<(string, seq<string>)>, c: nat,
                                        pattern: string, er: map<string, string>, i: nat)
    requires i <= c < |kws| && Keywords.NoDup(Keywords.Categories(kws))
    requires i < c ==> Stored(before, kws[i].0, kws[i].1, er)
    requires Keywords.PatternOf(pattern, kws[c].1, er)
    ensures Stored(Put(before, kws[c].0, pattern), kws[i].0, kws[i].1, er)
  {
    if i < c {
      CategoriesDiffer(kws, i, c);
      StoredAfterPut(before, kws[c].0, pattern, kws[i].0, kws[i].1, er);
    } else {
      StoredPut(before, kws[c].0, pattern, kws[c].1, er);
    }
  }

  /** Two configured categories at different places have different names. */
  lemma {:induction false} CategoriesDiffer(kws: seq<(string, seq<string>)>, i: nat, c: nat)
    requires i < c < |kws| && Keywords.NoDup(Keywords.Categories(kws))
    ensures kws[i].0 != kws[c].0
  {
    var cats := Keywords.Categories(kws);
    assert cats[i] == kws[i].0 && cats[c] == kws[c].0;
  }

  /** Storing a pattern under a category makes it that category's pattern. */
  lemma {:induction false} StoredPut(before: seq<(string, string)>, k: string, pattern: string,
                                     ks: seq<string>, er: map<string, string>)
    requires Keywords.PatternOf(pattern, ks, er)
    ensures Stored(Put(before, k, pattern), k, ks, er)
  {
    PutLookup(before, k, pattern, k);
  }

  /** Storing under one category keeps another category's pattern. */
  lemma {:induction false} StoredAfterPut(before: seq<(string, string)>, k: string, pattern: string,
                                          k2: string, ks: seq<string>, er: map<string, string>)
    requires k2 != k && Stored(before, k2, ks, er)
    ensures Stored(Put(before, k, pattern), k2, ks, er)
  {
    PutLookup(before, k, pattern, k2);
  }

  /** The table holds, under category k, a pattern for the keywords `ks`. */
  ghost predicate Stored(table: seq<(string, string)>, k: string, ks: seq<string>, er: map<string, string>) {
    Lookup(table, k).Some? && Keywords.PatternOf(Lookup(table, k).value, ks, er)
  }
}
