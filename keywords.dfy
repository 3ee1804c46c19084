/** Keyword compilation of NER_Base (nlptools/text/ner.py): parsing keyword
    file lines, the first-wins alias map `entity_replace`, the canonical
    per-category keyword lists, the alternation pattern of
    build_keywords_regex and the keyword-to-category map of
    build_keywords_index. */
module Keywords {
  import opened Wrappers
  import opened Text

  /** What one line of a keyword file contributes. */
  datatype Line = Ignored | Keyword(surface: string, alias: Option<string>)

  /** One line as __read_keywords reads it: stripped; blank and `#` lines are
      ignored; otherwise split at the first ':', each piece stripped, empty
      pieces dropped, the rest lower-cased. The first piece left is the
      surface, a second one its replacement. */
  function ParseLine(line: string): (r: Line)
    ensures r.Keyword? ==> r.surface != "" && IsLower(r.surface)
    ensures r.Keyword? && r.alias.Some? ==> r.alias.value != "" && IsLower(r.alias.value)
    ensures Strip(line) == "" || Strip(line)[0] == '#' ==> r == Ignored
  {
    ParseStripped(Strip(line))
  }

  /** The same on the stripped line l. */
  function ParseStripped(l: string): (r: Line)
    ensures r.Keyword? ==> r.surface != "" && IsLower(r.surface)
    ensures r.Keyword? && r.alias.Some? ==> r.alias.value != "" && IsLower(r.alias.value)
  {
    if |l| < 1 || l[0] == '#' then Ignored
    else if ':' !in l then
      // the only piece is `l` itself, which is already stripped
      Keyword(Lower(l), None)
    else
      SplitAt(l, IndexOf(l, ':'))
  }

  /** The line l split at index i, each side stripped. */
  function SplitAt(l: string, i: nat): (r: Line)
    requires i < |l|
    ensures r.Keyword? ==> r.surface != "" && IsLower(r.surface)
    ensures r.Keyword? && r.alias.Some? ==> r.alias.value != "" && IsLower(r.alias.value)
  {
    Pieces(Strip(l[..i]), Strip(l[i + 1..]))
  }

  /** The stripped pieces a and b around the first ':': empty ones are
      dropped and the rest lower-cased. */
  function Pieces(a: string, b: string): (r: Line)
    ensures r.Keyword? ==> r.surface != "" && IsLower(r.surface)
    ensures r.Keyword? && r.alias.Some? ==> r.alias.value != "" && IsLower(r.alias.value)
  {
    if a != "" && b != "" then Keyword(Lower(a), Some(Lower(b)))
    else if a != "" then Keyword(Lower(a), None)
    else if b != "" then Keyword(Lower(b), None)
    else Ignored
  }

  /** The line a keyword file holds for a surface and its optional
      replacement. */
  function FormatLine(surface: string, alias: Option<string>): string {
    match alias
    case None => surface
    case Some(a) => surface + ": " + a
  }

  /** A non-empty lower-case string without a blank at either end. */
  predicate Canonical1(s: string) {
    s != "" && IsLower(s) && !IsSpace(s[0]) && !IsSpace(s[|s| - 1])
  }

  /** Reading back a written entry gives the entry. */
  lemma {:induction false} ParseFormatLine(surface: string, alias: Option<string>)
    requires Canonical1(surface) && ':' !in surface && surface[0] != '#'
    requires alias.Some? ==> Canonical1(alias.value)
    ensures ParseLine(FormatLine(surface, alias)) == Keyword(surface, alias)
  {
    LowerProperties(surface);
    StripStripped(surface);
    if alias.Some? {
      ParseAliasedLine(surface, alias.value);
    }
  }

  lemma {:induction false} ParseAliasedLine(surface: string, a: string)
    requires Canonical1(surface) && ':' !in surface && surface[0] != '#'
    requires Canonical1(a)
    ensures ParseLine(surface + ": " + a) == Keyword(surface, Some(a))
  {
    var line := surface + ": " + a;
    var i := |surface|;
    assert line[i] == ':' && line[..i] == surface && line[i + 1..] == [' '] + a
        && line[0] == surface[0] && line[|line| - 1] == a[|a| - 1] by {
      assert line == surface + [':'] + ([' '] + a);
    }
    StripStripped(line);
    StripStripped(surface);
    StripLeadingBlank(a);
    ParseSplitLine(line, i, surface, a);
    assert ParseLine(line) == ParseStripped(line);
    LowerProperties(surface);
    LowerProperties(a);
  }

  /** A stripped line split at its first ':' into two non-empty pieces. */
  lemma {:induction false} ParseSplitLine(l: string, i: nat, a: string, b: string)
    requires |l| >= 1 && l[0] != '#'
    requires i < |l| && l[i] == ':' && ':' !in l[..i]
    requires Strip(l[..i]) == a && Strip(l[i + 1..]) == b && a != "" && b != ""
    ensures ParseStripped(l) == Keyword(Lower(a), Some(Lower(b)))
  {
    IndexOfFirst(l, ':', i);
    assert ParseStripped(l) == SplitAt(l, i);
  }

  /** entity_replace after one line: a surface keeps the first replacement
      ever recorded for it. */
  function RecordAlias(er: map<string, string>, l: Line): map<string, string> {
    if l.Keyword? && l.alias.Some? && l.surface !in er then er[l.surface := l.alias.value] else er
  }

  /** Every line of a file, parsed. */
  function ParseLines(lines: seq<string>): (r: seq<Line>)
    ensures |r| == |lines|
  {
    seq(|lines|, i requires 0 <= i < |lines| => ParseLine(lines[i]))
  }

  /** The inner loop of __read_keywords over the parsed lines of one file:
      the alias map afterwards and the surfaces in reading order. */
  function ReadEntries(er: map<string, string>, es: seq<Line>): (r: (map<string, string>, seq<string>))
  {
    if |es| == 0 then (er, [])
    else
      var (er', kws) := ReadEntries(er, es[..|es| - 1]);
      var l := es[|es| - 1];
      if l.Keyword? then (RecordAlias(er', l), kws + [l.surface]) else (er', kws)
  }

  /** The replacement on the first `surface: replacement` line for `s`. */
  function FirstAlias(es: seq<Line>, s: string): Option<string> {
    if |es| == 0 then None
    else
      var earlier := FirstAlias(es[..|es| - 1], s);
      var l := es[|es| - 1];
      if earlier.Some? then earlier
      else if l.Keyword? && l.surface == s && l.alias.Some? then l.alias
      else None
  }

  /** First wins: a surface already in the alias map keeps its replacement;
      a new one gets the replacement of its first aliased line, and only if
      such a line exists. */
  lemma {:induction false} ReadEntriesAliases(er: map<string, string>, es: seq<Line>, s: string)
    ensures var er' := ReadEntries(er, es).0;
      && (s in er ==> s in er' && er'[s] == er[s])
      && (s !in er ==> (s in er' <==> FirstAlias(es, s).Some?))
      && (s !in er && s in er' ==> er'[s] == FirstAlias(es, s).value)
  {
    if |es| > 0 {
      ReadEntriesAliases(er, es[..|es| - 1], s);
    }
  }

  /** The surfaces read are exactly those of the keyword lines. */
  lemma {:induction false} ReadEntriesSurfaces(er: map<string, string>, es: seq<Line>, x: string)
    ensures x in ReadEntries(er, es).1 <==> exists k :: 0 <= k < |es| && es[k].Keyword? && es[k].surface == x
  {
    if |es| > 0 {
      var p := es[..|es| - 1];
      ReadEntriesSurfaces(er, p, x);
      if exists k :: 0 <= k < |p| && p[k].Keyword? && p[k].surface == x {
        var k :| 0 <= k < |p| && p[k].Keyword? && p[k].surface == x;
        assert es[k] == p[k];
      }
      if exists k :: 0 <= k < |es| && es[k].Keyword? && es[k].surface == x {
        var k :| 0 <= k < |es| && es[k].Keyword? && es[k].surface == x;
        if k < |p| { assert p[k] == es[k]; }
      }
    }
  }

  /** The surfaces read do not depend on the alias map. */
  lemma {:induction false} ReadEntriesSurfacesOnly(er1: map<string, string>, er2: map<string, string>, es: seq<Line>)
    ensures ReadEntries(er1, es).1 == ReadEntries(er2, es).1
  {
    if |es| > 0 {
      ReadEntriesSurfacesOnly(er1, er2, es[..|es| - 1]);
    }
  }

  /** Every surface that has an aliased line in `es` is a key of `m`. */
  predicate AliasesKnown(es: seq<Line>, m: map<string, string>) {
    forall k :: 0 <= k < |es| && es[k].Keyword? && es[k].alias.Some? ==> es[k].surface in m
  }

  /** Reading lines whose aliased surfaces are all known changes nothing. */
  lemma {:induction false} ReadEntriesKnown(er: map<string, string>, es: seq<Line>)
    requires AliasesKnown(es, er)
    ensures ReadEntries(er, es).0 == er
  {
    if |es| > 0 {
      var p := es[..|es| - 1];
      assert AliasesKnown(p, er) by {
        forall k | 0 <= k < |p| ensures p[k] == es[k] { }
      }
      ReadEntriesKnown(er, p);
    }
  }

  /** After reading, every aliased surface read is known, and every surface
      known before is still known. */
  lemma {:induction false} ReadEntriesRecords(er: map<string, string>, es: seq<Line>)
    ensures AliasesKnown(es, ReadEntries(er, es).0)
    ensures er.Keys <= ReadEntries(er, es).0.Keys
  {
    if |es| > 0 {
      var p := es[..|es| - 1];
      ReadEntriesRecords(er, p);
      var er' := ReadEntries(er, p).0;
      var er'' := ReadEntries(er, es).0;
      assert er'.Keys <= er''.Keys;
      forall k | 0 <= k < |es| && es[k].Keyword? && es[k].alias.Some?
        ensures es[k].surface in er''
      {
        if k < |p| { assert p[k] == es[k]; }
      }
    }
  }

  predicate NoDup(s: seq<string>) {
    forall i, j :: 0 <= i < j < |s| ==> s[i] != s[j]
  }

  /** Ordered by non-increasing length. */
  predicate LongestFirst(s: seq<string>) {
    forall i, j :: 0 <= i < j < |s| ==> |s[i]| >= |s[j]|
  }

  lemma {:induction false} LongestFirstHead(s: seq<string>)
    requires LongestFirst(s) && |s| > 0
    ensures forall y :: y in s ==> |s[0]| >= |y|
  {
    forall y | y in s ensures |s[0]| >= |y| {
      var j :| 0 <= j < |s| && s[j] == y;
    }
  }

  /** The distinct elements, in order of first occurrence. */
  function Distinct(s: seq<string>): (r: seq<string>)
    ensures NoDup(r) && forall x :: x in r <==> x in s
  {
    if |s| == 0 then []
    else
      var p := Distinct(s[..|s| - 1]);
      assert forall x :: x in s <==> x in s[..|s| - 1] || x == s[|s| - 1];
      if s[|s| - 1] in p then p else p + [s[|s| - 1]]
  }

  /** One more element is kept exactly when it is new. */
  lemma {:induction false} DistinctSnoc(s: seq<string>, x: string)
    ensures Distinct(s + [x]) == if x in s then Distinct(s) else Distinct(s) + [x]
  {
    assert (s + [x])[..|s|] == s;
  }

  /** Inserts x into a longest-first list ahead of every element that is not
      longer: the step of a stable sort by descending length. */
  function Insert(x: string, s: seq<string>): (r: seq<string>)
    requires LongestFirst(s)
    ensures LongestFirst(r) && multiset(r) == multiset(s) + multiset{x}
    ensures forall y :: y in r <==> y == x || y in s
  {
    if s == [] then [x]
    else if |s[0]| <= |x| then
      LongestFirstCons(x, s);
      [x] + s
    else
      assert s == [s[0]] + s[1..];
      LongestFirstTail(s);
      var t := Insert(x, s[1..]);
      LongestFirstCons(s[0], t);
      [s[0]] + t
  }

  lemma {:induction false} LongestFirstTail(s: seq<string>)
    requires LongestFirst(s) && |s| > 0
    ensures LongestFirst(s[1..])
    ensures forall y :: y in s[1..] ==> |y| <= |s[0]|
  {
    forall y | y in s[1..] ensures |y| <= |s[0]| {
      var k :| 0 <= k < |s| - 1 && s[1..][k] == y;
      assert s[k + 1] == y;
    }
  }

  lemma {:induction false} LongestFirstCons(a: string, t: seq<string>)
    requires LongestFirst(t) && forall y :: y in t ==> |y| <= |a|
    ensures LongestFirst([a] + t)
  {
    forall i, j | 0 <= i < j < |[a] + t| ensures |([a] + t)[i]| >= |([a] + t)[j]| {
      assert ([a] + t)[j] == t[j - 1];
      assert t[j - 1] in t;
      if i > 0 { assert ([a] + t)[i] == t[i - 1]; }
    }
  }

  lemma {:induction false} NoDupCons(a: string, t: seq<string>)
    requires NoDup(t) && a !in t
    ensures NoDup([a] + t)
  {
    forall i, j | 0 <= i < j < |[a] + t| ensures ([a] + t)[i] != ([a] + t)[j] {
      if i == 0 {
        assert ([a] + t)[j] == t[j - 1];
        assert t[j - 1] in t;
      } else {
        assert ([a] + t)[i] == t[i - 1] && ([a] + t)[j] == t[j - 1];
      }
    }
  }

  lemma {:induction false} NoDupTail(s: seq<string>)
    requires NoDup(s) && |s| > 0
    ensures NoDup(s[1..]) && s[0] !in s[1..]
  {
    forall i, j | 0 <= i < j < |s[1..]| ensures s[1..][i] != s[1..][j] {
      assert s[1..][i] == s[i + 1];
    }
    forall k | 0 <= k < |s| - 1 ensures s[1..][k] != s[0] {
      assert s[1..][k] == s[k + 1];
    }
  }

  lemma {:induction false} InsertNoDup(x: string, s: seq<string>)
    requires LongestFirst(s) && NoDup(s) && x !in s
    ensures NoDup(Insert(x, s))
  {
    if s == [] {
    } else if |s[0]| <= |x| {
      NoDupCons(x, s);
    } else {
      NoDupTail(s);
      InsertNoDup(x, s[1..]);
      NoDupCons(s[0], Insert(x, s[1..]));
    }
  }

  /** list.sort(key=len, reverse=True). */
  function SortByLength(s: seq<string>): (r: seq<string>)
    ensures LongestFirst(r) && multiset(r) == multiset(s)
    ensures forall y :: y in r <==> y in s
  {
    if s == [] then []
    else
      assert s == [s[0]] + s[1..];
      Insert(s[0], SortByLength(s[1..]))
  }

  lemma {:induction false} SortNoDup(s: seq<string>)
    requires NoDup(s)
    ensures NoDup(SortByLength(s))
  {
    if s != [] {
      NoDupTail(s);
      SortNoDup(s[1..]);
      InsertNoDup(s[0], SortByLength(s[1..]));
    }
  }

  /** `list(set(kws))` sorted by descending length: duplicate-free, longest
      first, and holding exactly the keywords given. */
  function CanonicalList(kws: seq<string>): (r: seq<string>)
    ensures NoDup(r) && LongestFirst(r)
    ensures forall x :: x in r <==> x in kws
  {
    SortNoDup(Distinct(kws));
    SortByLength(Distinct(kws))
  }

  /** The categories, in order, whose keyword file exists. */
  function Existing(cats: seq<(string, string)>, files: map<string, seq<string>>): seq<string> {
    if |cats| == 0 then []
    else Existing(cats[..|cats| - 1], files) + (if cats[|cats| - 1].1 in files then [cats[|cats| - 1].0] else [])
  }

  function Categories(kws: seq<(string, seq<string>)>): seq<string> {
    seq(|kws|, i requires 0 <= i < |kws| => kws[i].0)
  }

  /** __read_keywords over the categories in order: the alias map afterwards
      and one (category, keywords) pair per category whose file exists. */
  function ReadKeywords(er: map<string, string>, cats: seq<(string, string)>, files: map<string, seq<string>>)
    : (r: (map<string, string>, seq<(string, seq<string>)>))
  {
    if |cats| == 0 then (er, [])
    else
      var (er', kws) := ReadKeywords(er, cats[..|cats| - 1], files);
      var (cat, path) := cats[|cats| - 1];
      if path !in files then (er', kws)
      else
        var (er'', ks) := ReadEntries(er', ParseLines(files[path]));
        (er'', kws + [(cat, CanonicalList(ks))])
  }

  /** A category is present exactly when its file exists, in the order of the
      configuration, and its list is duplicate-free, longest first and holds
      exactly the surfaces of the file's keyword lines. */
  lemma {:induction false} ReadKeywordsShape(er: map<string, string>, cats: seq<(string, string)>, files: map<string, seq<string>>)
    ensures var kws := ReadKeywords(er, cats, files).1;
      && Categories(kws) == Existing(cats, files)
      && (forall i :: 0 <= i < |kws| ==> NoDup(kws[i].1) && LongestFirst(kws[i].1))
  {
    if |cats| > 0 {
      var p := cats[..|cats| - 1];
      ReadKeywordsShape(er, p, files);
      var (er', kws) := ReadKeywords(er, p, files);
      var (cat, path) := cats[|cats| - 1];
      if path in files {
        var (er'', ks) := ReadEntries(er', ParseLines(files[path]));
        assert ReadKeywords(er, cats, files).1 == kws + [(cat, CanonicalList(ks))];
        CategoriesSnoc(kws, (cat, CanonicalList(ks)));
      } else {
        assert ReadKeywords(er, cats, files).1 == kws;
      }
    }
  }

  /** The categories of a list with one more pair. */
  lemma {:induction false} CategoriesSnoc(kws: seq<(string, seq<string>)>, x: (string, seq<string>))
    ensures Categories(kws + [x]) == Categories(kws) + [x.0]
  {
    assert forall i :: 0 <= i < |kws| ==> (kws + [x])[i] == kws[i];
  }

  /** Every aliased surface of every existing file is known to `m`. */
  predicate AllAliasesKnown(cats: seq<(string, string)>, files: map<string, seq<string>>, m: map<string, string>) {
    forall c :: c in cats && c.1 in files ==> AliasesKnown(ParseLines(files[c.1]), m)
  }

  lemma {:induction false} ReadKeywordsRecords(er: map<string, string>, cats: seq<(string, string)>, files: map<string, seq<string>>)
    ensures AllAliasesKnown(cats, files, ReadKeywords(er, cats, files).0)
    ensures er.Keys <= ReadKeywords(er, cats, files).0.Keys
  {
    if |cats| > 0 {
      var p := cats[..|cats| - 1];
      ReadKeywordsRecords(er, p, files);
      var er' := ReadKeywords(er, p, files).0;
      var (cat, path) := cats[|cats| - 1];
      var er'' := ReadKeywords(er, cats, files).0;
      if path in files {
        ReadEntriesRecords(er', ParseLines(files[path]));
      }
      assert er'.Keys <= er''.Keys;
      forall c | c in cats && c.1 in files ensures AliasesKnown(ParseLines(files[c.1]), er'') {
        if c in p {
          var es := ParseLines(files[c.1]);
          assert AliasesKnown(es, er');
          forall k | 0 <= k < |es| && es[k].Keyword? && es[k].alias.Some? ensures es[k].surface in er'' { }
        } else {
          assert c == (cat, path);
        }
      }
    }
  }

  lemma {:induction false} ReadKeywordsKnown(er: map<string, string>, cats: seq<(string, string)>, files: map<string, seq<string>>)
    requires AllAliasesKnown(cats, files, er)
    ensures ReadKeywords(er, cats, files).0 == er
  {
    if |cats| > 0 {
      var p := cats[..|cats| - 1];
      assert AllAliasesKnown(p, files, er);
      ReadKeywordsKnown(er, p, files);
      var (cat, path) := cats[|cats| - 1];
      if path in files {
        assert cats[|cats| - 1] in cats;
        ReadEntriesKnown(er, ParseLines(files[path]));
      }
    }
  }

  lemma {:induction false} ReadKeywordsListsOnly(er1: map<string, string>, er2: map<string, string>,
                                                  cats: seq<(string, string)>, files: map<string, seq<string>>)
    ensures ReadKeywords(er1, cats, files).1 == ReadKeywords(er2, cats, files).1
  {
    if |cats| > 0 {
      var p := cats[..|cats| - 1];
      ReadKeywordsListsOnly(er1, er2, p, files);
      var path := cats[|cats| - 1].1;
      if path in files {
        ReadEntriesSurfacesOnly(ReadKeywords(er1, p, files).0, ReadKeywords(er2, p, files).0, ParseLines(files[path]));
      }
    }
  }

  /** Reading the keyword files a second time, as build_keywords_index does
      after build_keywords_regex, leaves the alias map as it was and yields
      the same lists. */
  lemma {:induction false} ReadKeywordsTwice(er: map<string, string>, cats: seq<(string, string)>, files: map<string, seq<string>>)
    ensures var first := ReadKeywords(er, cats, files);
      ReadKeywords(first.0, cats, files) == first
  {
    var first := ReadKeywords(er, cats, files);
    ReadKeywordsRecords(er, cats, files);
    ReadKeywordsKnown(first.0, cats, files);
    ReadKeywordsListsOnly(first.0, er, cats, files);
  }

  /** The inner loop of build_keywords_regex, which appends to the list it
      walks: the alias target of every visited keyword that is not yet in the
      list is appended, and appended targets are visited in turn. */
  method CloseAliases(kws: seq<string>, er: map<string, string>) returns (r: seq<string>)
    requires NoDup(kws)
    ensures NoDup(r) && |kws| <= |r| && r[..|kws|] == kws
    ensures forall x :: x in r && x in er ==> er[x] in r
    ensures forall k :: |kws| <= k < |r| ==> AliasTarget(r, er, k)
  {
    r := kws;
    // r[k] was appended as the alias target of r[src[k]]
    ghost var src: seq<nat> := seq(|r|, k => 0);
    // the alias targets not yet in r
    ghost var todo: set<string> := set x | x in er.Values && x !in r;
    var i := 0;
    while i < |r|
      invariant 0 <= i <= |r| && |src| == |r|
      invariant NoDup(r) && |kws| <= |r| && r[..|kws|] == kws
      invariant forall x :: x in todo <==> x in er.Values && x !in r
      invariant forall j :: 0 <= j < i ==> TargetIn(r, er, j)
      invariant forall k :: |kws| <= k < |r| ==> AliasOf(r, er, src[k], k)
      decreases |todo|, |r| - i
    {
      var kwd := r[i];
      if kwd in er && er[kwd] !in r {
        var v := er[kwd];
        assert v in er.Values;
        NoDupSnoc(r, v);
        AppendTarget(kws, r, src, er, i, v);
        r := r + [v];
        src := src + [i];
        assert TargetIn(r, er, i);
        ShrinkBy(todo, v);
        todo := todo - {v};
      } else {
        assert TargetIn(r, er, i);
      }
      i := i + 1;
    }
    forall x | x in r && x in er ensures er[x] in r {
      var j :| 0 <= j < |r| && r[j] == x;
      assert TargetIn(r, er, j);
    }
    forall k | |kws| <= k < |r| ensures AliasTarget(r, er, k) {
      assert AliasOf(r, er, src[k], k);
    }
  }

  /** The alias target of r[j], if any, is in r. */
  predicate TargetIn(r: seq<string>, er: map<string, string>, j: nat) {
    j < |r| && (r[j] in er ==> er[r[j]] in r)
  }

  /** r[k] is the alias target of the earlier r[j]. */
  predicate AliasOf(r: seq<string>, er: map<string, string>, j: nat, k: nat) {
    j < k < |r| && r[j] in er && er[r[j]] == r[k]
  }

  /** Appending the alias target v of r[i] keeps the loop's bookkeeping:
      the targets of the visited keywords stay in the list, and every
      appended keyword, v included, is the target of its source. */
  lemma {:induction false} AppendTarget(kws: seq<string>, r: seq<string>, src: seq<nat>, er: map<string, string>,
                                        i: nat, v: string)
    requires i < |r| == |src| && |kws| <= |r| && r[i] in er && er[r[i]] == v
    requires forall j :: 0 <= j < i ==> TargetIn(r, er, j)
    requires forall k :: |kws| <= k < |r| ==> AliasOf(r, er, src[k], k)
    ensures (r + [v])[..|kws|] == r[..|kws|]
    ensures forall j :: 0 <= j < i ==> TargetIn(r + [v], er, j)
    ensures forall k :: |kws| <= k < |r| + 1 ==> AliasOf(r + [v], er, (src + [i])[k], k)
  {
    var r', src' := r + [v], src + [i];
    forall j | 0 <= j < i ensures TargetIn(r', er, j) {
      assert TargetIn(r, er, j);
      assert r'[j] == r[j];
      if r[j] in er {
        var k :| 0 <= k < |r| && r[k] == er[r[j]];
        assert r'[k] == r[k];
      }
    }
    forall k | |kws| <= k < |r'| ensures AliasOf(r', er, src'[k], k) {
      if k < |r| {
        assert AliasOf(r, er, src[k], k);
        assert r'[k] == r[k] && r'[src'[k]] == r[src[k]];
      }
    }
  }

  lemma {:induction false} ShrinkBy<T>(a: set<T>, v: T)
    requires v in a
    ensures |a - {v}| < |a|
  {
    assert a == (a - {v}) + {v};
  }

  /** r[k] is the alias target of some earlier element of r. */
  predicate AliasTarget(r: seq<string>, er: map<string, string>, k: nat)
    requires k < |r|
  {
    exists j :: 0 <= j < k && r[j] in er && er[r[j]] == r[k]
  }

  lemma {:induction false} NoDupSnoc(t: seq<string>, a: string)
    requires NoDup(t) && a !in t
    ensures NoDup(t + [a])
  {
    forall i, j | 0 <= i < j < |t + [a]| ensures (t + [a])[i] != (t + [a])[j] {
      assert (t + [a])[i] == t[i];
      if j < |t| { assert (t + [a])[j] == t[j]; } else { assert t[i] in t; }
    }
  }

  /** r starts with the keywords read, and every later member is the alias
      target of an earlier one: the order in which CloseAliases reaches them. */
  predicate Reached(kws: seq<string>, r: seq<string>, er: map<string, string>) {
    |kws| <= |r| && r[..|kws|] == kws && forall k :: |kws| <= k < |r| ==> AliasTarget(r, er, k)
  }

  /** A category's list as build_keywords_regex leaves it: duplicate-free,
      longest first, holding every keyword read and the alias target of
      every member, and a reordering of a list that reaches each of its
      members from the keywords read through the alias map. */
  ghost predicate AliasClosed(kws: seq<string>, l: seq<string>, er: map<string, string>) {
    && NoDup(l) && LongestFirst(l)
    && (forall x :: x in kws ==> x in l)
    && (forall x :: x in l && x in er ==> er[x] in l)
    && exists r :: multiset(r) == multiset(l) && Reached(kws, r, er)
  }

  /** Sorting the list CloseAliases returns gives an alias-closed list. */
  lemma {:induction false} SortClosed(kws: seq<string>, r: seq<string>, er: map<string, string>)
    requires NoDup(r) && |kws| <= |r| && r[..|kws|] == kws
    requires forall x :: x in r && x in er ==> er[x] in r
    requires forall k :: |kws| <= k < |r| ==> AliasTarget(r, er, k)
    ensures AliasClosed(kws, SortByLength(r), er)
  {
    SortNoDup(r);
    forall x | x in kws ensures x in r {
      var i :| 0 <= i < |kws| && kws[i] == x;
      assert r[i] == r[..|kws|][i];
    }
    assert multiset(r) == multiset(SortByLength(r)) && Reached(kws, r, er);
  }

  /** The members of an alias-closed list lie within every list that holds
      the keywords read and the alias target of each of its members: the
      list is the least alias closure of the keywords. */
  lemma {:induction false} ClosureLeast(kws: seq<string>, l: seq<string>, l': seq<string>, er: map<string, string>)
    requires AliasClosed(kws, l, er)
    requires forall x :: x in kws ==> x in l'
    requires forall x :: x in l' && x in er ==> er[x] in l'
    ensures forall x :: x in l ==> x in l'
  {
    var r :| multiset(r) == multiset(l) && Reached(kws, r, er);
    forall x | x in l ensures x in l' {
      assert x in multiset(r);
      var k :| 0 <= k < |r| && r[k] == x;
      ReachedWithin(kws, r, l', er, k);
    }
  }

  /** Each member of a reaching list is in every alias-closed superset of
      the keywords. */
  lemma {:induction false} ReachedWithin(kws: seq<string>, r: seq<string>, l': seq<string>, er: map<string, string>, k: nat)
    requires Reached(kws, r, er) && k < |r|
    requires forall x :: x in kws ==> x in l'
    requires forall x :: x in l' && x in er ==> er[x] in l'
    ensures r[k] in l'
    decreases k
  {
    if k < |kws| {
      assert r[k] == r[..|kws|][k] && kws[k] in kws;
    } else {
      assert AliasTarget(r, er, k);
      var j :| 0 <= j < k && r[j] in er && er[r[j]] == r[k];
      ReachedWithin(kws, r, l', er, j);
    }
  }

  /** Two alias-closed lists for the same keywords and alias map hold the
      same members; they differ at most in the order of keywords of equal
      length. */
  lemma {:induction false} AliasClosedSame(kws: seq<string>, l1: seq<string>, l2: seq<string>, er: map<string, string>)
    requires AliasClosed(kws, l1, er) && AliasClosed(kws, l2, er)
    ensures forall x :: x in l1 <==> x in l2
  {
    ClosureLeast(kws, l1, l2, er);
    ClosureLeast(kws, l2, l1, er);
  }

  /** An alias cycle that no keyword read reaches stays out of the list:
      with `x: y` and `y: x` recorded elsewhere, a category read as `a`
      holds neither x nor y. */
  lemma {:induction false} UnreachedCycleExcluded(l: seq<string>)
    requires AliasClosed(["a"], l, map["x" := "y", "y" := "x"])
    ensures "x" !in l && "y" !in l
  {
    ClosureLeast(["a"], l, ["a"], map["x" := "y", "y" := "x"]);
  }

  /** A pattern build_keywords_regex may produce for a category read as
      `kws`: the alternation over some alias-closed list. */
  ghost predicate PatternOf(p: string, kws: seq<string>, er: map<string, string>) {
    exists l :: p == Alternation(l) && AliasClosed(kws, l, er)
  }

  /** The group "(k)" of each keyword, unescaped. */
  function Groups(kws: seq<string>): seq<string> {
    seq(|kws|, i requires 0 <= i < |kws| => "(" + kws[i] + ")")
  }

  /** '|'.join('(' + k + ')' for k in kws) */
  function Alternation(kws: seq<string>): string {
    Join("|", Groups(kws))
  }

  /** The alternation lists one group per keyword in list order: splitting
      it at '|' gives back "(" + k + ")" for each keyword k, provided no
      keyword contains '|'. */
  lemma {:induction false} AlternationGroups(kws: seq<string>)
    requires |kws| >= 1
    requires forall k :: k in kws ==> '|' !in k
    ensures Split(Alternation(kws), '|') == Groups(kws)
  {
    var g := Groups(kws);
    forall p | p in g ensures '|' !in p {
      var i :| 0 <= i < |g| && g[i] == p;
      assert kws[i] in kws;
    }
    SplitJoin('|', g);
  }

  /** A category whose file exists but holds no keyword gets the empty
      pattern. */
  lemma {:induction false} EmptyAlternation()
    ensures Alternation([]) == ""
  {
  }

  /** All keyword lists, one after the other. */
  function Flatten(kws: seq<(string, seq<string>)>): seq<string> {
    if |kws| == 0 then [] else Flatten(kws[..|kws| - 1]) + kws[|kws| - 1].1
  }

  /** `m[kw] = cat` for each kw of ks in turn. */
  function Assign(m: map<string, string>, ks: seq<string>, cat: string): map<string, string> {
    if |ks| == 0 then m else Assign(m, ks[..|ks| - 1], cat)[ks[|ks| - 1] := cat]
  }

  /** After the assignments every kw of ks maps to cat and every other key
      keeps its value. */
  lemma {:induction false} AssignSnoc(m: map<string, string>, ks: seq<string>, kw: string, cat: string)
    ensures Assign(m, ks + [kw], cat) == Assign(m, ks, cat)[kw := cat]
  {
    assert (ks + [kw])[..|ks|] == ks;
  }

  lemma {:induction false} AssignValues(m: map<string, string>, ks: seq<string>, cat: string, kw: string)
    ensures kw in Assign(m, ks, cat) <==> kw in m || kw in ks
    ensures kw in ks ==> Assign(m, ks, cat)[kw] == cat
    ensures kw !in ks && kw in m ==> Assign(m, ks, cat)[kw] == m[kw]
  {
    if |ks| > 0 {
      var p := ks[..|ks| - 1];
      AssignValues(m, p, cat, kw);
      assert ks == p + [ks[|ks| - 1]];
    }
  }

  /** keywords_kw2e as build_keywords_index fills it: every keyword of every
      list in turn is mapped to the list's category. */
  function Kw2e(kws: seq<(string, seq<string>)>): map<string, string> {
    if |kws| == 0 then map[]
    else Assign(Kw2e(kws[..|kws| - 1]), kws[|kws| - 1].1, kws[|kws| - 1].0)
  }

  /** Last wins: a keyword is mapped exactly when some list holds it, and to
      the category of the last such list. */
  lemma {:induction false} Kw2eLastWins(kws: seq<(string, seq<string>)>, kw: string)
    ensures kw in Kw2e(kws) <==> exists j :: 0 <= j < |kws| && kw in kws[j].1
    ensures kw in Kw2e(kws) ==>
      exists j :: 0 <= j < |kws| && kw in kws[j].1 && Kw2e(kws)[kw] == kws[j].0 &&
        forall j' :: j < j' < |kws| ==> kw !in kws[j'].1
  {
    if |kws| > 0 {
      var p := kws[..|kws| - 1];
      Kw2eLastWins(p, kw);
      var n := |kws| - 1;
      AssignValues(Kw2e(p), kws[n].1, kws[n].0, kw);
      if kw in kws[n].1 {
      } else if kw in Kw2e(p) {
        var j :| 0 <= j < |p| && kw in p[j].1 && Kw2e(p)[kw] == p[j].0 &&
          forall j' :: j < j' < |p| ==> kw !in p[j'].1;
        assert kws[j] == p[j];
        assert forall j' :: j < j' < |kws| ==> kw !in kws[j'].1 by {
          forall j' | j < j' < |kws| ensures kw !in kws[j'].1 {
            if j' < n { assert kws[j'] == p[j']; }
          }
        }
      } else {
        forall j | 0 <= j < |kws| ensures kw !in kws[j].1 {
          if j < n { assert kws[j] == p[j]; }
        }
      }
      if exists j :: 0 <= j < |kws| && kw in kws[j].1 {
        var j :| 0 <= j < |kws| && kw in kws[j].1;
        if j < n { assert p[j] == kws[j]; }
      }
    }
  }

  /** The keywords loaded into the index: the keys of keywords_kw2e in
      insertion order, sorted longest first. */
  function IndexSurfaces(kws: seq<(string, seq<string>)>): (r: seq<string>)
    ensures NoDup(r) && LongestFirst(r)
  {
    CanonicalList(Flatten(kws))
  }

  lemma {:induction false} FlattenKeys(kws: seq<(string, seq<string>)>)
    ensures forall x :: x in Flatten(kws) <==> x in Kw2e(kws)
  {
    if |kws| > 0 {
      var p := kws[..|kws| - 1];
      FlattenKeys(p);
      forall x ensures x in Flatten(kws) <==> x in Kw2e(kws) {
        AssignValues(Kw2e(p), kws[|kws| - 1].1, kws[|kws| - 1].0, x);
      }
    }
  }

  /** The index is loaded with each mapped keyword exactly once, longest
      first. */
  lemma {:induction false} IndexSurfacesAreKeys(kws: seq<(string, seq<string>)>)
    ensures NoDup(IndexSurfaces(kws)) && LongestFirst(IndexSurfaces(kws))
    ensures forall x :: x in IndexSurfaces(kws) <==> x in Kw2e(kws)
  {
    FlattenKeys(kws);
  }
}
