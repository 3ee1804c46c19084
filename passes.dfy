/** The entity-extraction passes of NER_Base (nlptools/text/ner.py) as
    functions of their inputs: the keyword pass of get_keywords, the regex
    pass of get_regex, the recording and rewriting of get_ner, and the
    collapse of adjacent duplicates that ends get_ner. The imperative
    methods of NerBase are proved against these. */
module Passes {
  import opened Wrappers
  import opened Text

  /** The entities dictionary: entity name to the values found, in order. */
  type Entities = map<string, seq<string>>

  /** The replacement of a found value, or the value itself. */
  function Resolve(er: map<string, string>, e: string): string {
    if e in er then er[e] else e
  }

  /** A token that names an entity instead of holding a value. */
  predicate IsPlaceholder(t: string) {
    |t| > 0 && t[0] == '$'
  }

  /** '$' + name.upper() */
  function Placeholder(name: string): (r: string)
    ensures IsPlaceholder(r) && |r| == |name| + 1
  {
    "$" + Upper(name)
  }

  /** The values recorded under k so far. */
  function Values(ents: Entities, k: string): seq<string> {
    if k in ents then ents[k] else []
  }

  /** `if not k in entities: entities[k] = []` then `entities[k].append(v)`. */
  function Append(ents: Entities, k: string, v: string): (r: Entities)
    ensures r.Keys == ents.Keys + {k} && r[k] == Values(ents, k) + [v]
    ensures forall k' :: k' in ents && k' != k ==> r[k'] == ents[k']
  {
    ents[k := Values(ents, k) + [v]]
  }

  /** Every name of `a` is in `b`, whose values extend those of `a`. */
  predicate Extends(a: Entities, b: Entities) {
    forall k :: k in a ==> k in b && |a[k]| <= |b[k]| && b[k][..|a[k]|] == a[k]
  }

  lemma {:induction false} ExtendsTrans(a: Entities, b: Entities, c: Entities)
    requires Extends(a, b) && Extends(b, c)
    ensures Extends(a, c)
  {
    forall k | k in a ensures k in c && |a[k]| <= |c[k]| && c[k][..|a[k]|] == a[k] {
      assert c[k][..|a[k]|] == c[k][..|b[k]|][..|a[k]|];
    }
  }

  lemma {:induction false} AppendExtends(ents: Entities, k: string, v: string)
    ensures Extends(ents, Append(ents, k, v))
  {
    var r := Append(ents, k, v);
    if k in ents {
      assert r[k][..|ents[k]|] == ents[k];
    }
  }

  // ---------------------------------------------------------------- keywords

  /** What the keyword pass works on: the token list and the entities. */
  datatype KwState = KwState(tokens: seq<string>, entities: Entities)

  /** The occurrences (surface, token index) reported by the keyword index
      point into the token list, at non-empty tokens, with a known surface. */
  predicate Reported(tokens: seq<string>, found: seq<(string, nat)>, kw2e: map<string, string>) {
    forall o :: o in found ==> o.1 < |tokens| && tokens[o.1] != "" && o.0 in kw2e
  }

  /** One occurrence: skipped when its token is already a placeholder;
      otherwise the replacement of the surface (or the surface) is recorded
      under the surface's category and, with `replace`, the token becomes the
      category's placeholder. */
  function KeywordStep(s: KwState, o: (string, nat), replace: bool, kw2e: map<string, string>,
                       er: map<string, string>): KwState
    requires o.1 < |s.tokens| && s.tokens[o.1] != "" && o.0 in kw2e
  {
    if s.tokens[o.1][0] == '$' then s
    else
      var k := kw2e[o.0];
      KwState(if replace then s.tokens[o.1 := Placeholder(k)] else s.tokens,
              Append(s.entities, k, Resolve(er, o.0)))
  }

  /** The loop of get_keywords over the occurrences in order. */
  function KeywordPass(tokens: seq<string>, ents: Entities, found: seq<(string, nat)>, replace: bool,
                       kw2e: map<string, string>, er: map<string, string>): (r: KwState)
    requires Reported(tokens, found, kw2e)
    ensures |r.tokens| == |tokens|
    ensures forall i :: 0 <= i < |tokens| ==> r.tokens[i] == tokens[i] || IsPlaceholder(r.tokens[i])
  {
    if |found| == 0 then KwState(tokens, ents)
    else
      var o := found[|found| - 1];
      assert o in found;
      var s := KeywordPass(tokens, ents, found[..|found| - 1], replace, kw2e, er);
      KeywordStep(s, o, replace, kw2e, er)
  }

  /** The pass over one more occurrence is one more step. */
  lemma {:induction false} KeywordPassSnoc(tokens: seq<string>, ents: Entities, found: seq<(string, nat)>, j: nat, replace: bool,
                        kw2e: map<string, string>, er: map<string, string>)
    requires Reported(tokens, found, kw2e) && j < |found|
    ensures Reported(tokens, found[..j], kw2e) && Reported(tokens, found[..j + 1], kw2e)
    ensures var s := KeywordPass(tokens, ents, found[..j], replace, kw2e, er);
      && found[j].1 < |s.tokens| && s.tokens[found[j].1] != "" && found[j].0 in kw2e
      && KeywordPass(tokens, ents, found[..j + 1], replace, kw2e, er) == KeywordStep(s, found[j], replace, kw2e, er)
  {
    forall o | o in found[..j + 1] ensures o in found {
      var i :| 0 <= i < j + 1 && found[..j + 1][i] == o;
      assert found[i] == o;
    }
    assert found[..j + 1][..j] == found[..j] && found[..j + 1][j] == found[j];
    assert found[j] in found;
  }

  /** The surface of the first occurrence at token index i. */
  function FirstAt(found: seq<(string, nat)>, i: nat): Option<string> {
    if |found| == 0 then None
    else
      var earlier := FirstAt(found[..|found| - 1], i);
      if earlier.Some? then earlier
      else if found[|found| - 1].1 == i then Some(found[|found| - 1].0)
      else None
  }

  /** Token i after the pass with `replace`: a placeholder, or a token no
      occurrence points at, is kept; any other token becomes the placeholder
      of the category of the first occurrence pointing at it. */
  function KeywordToken(tokens: seq<string>, found: seq<(string, nat)>, kw2e: map<string, string>, i: nat): string
    requires i < |tokens| && Reported(tokens, found, kw2e)
  {
    if IsPlaceholder(tokens[i]) then tokens[i]
    else match FirstAt(found, i)
      case None => tokens[i]
      case Some(s) => FirstAtReported(found, i, tokens, kw2e); Placeholder(kw2e[s])
  }

  lemma {:induction false} FirstAtReported(found: seq<(string, nat)>, i: nat, tokens: seq<string>, kw2e: map<string, string>)
    requires Reported(tokens, found, kw2e)
    ensures FirstAt(found, i).Some? ==> FirstAt(found, i).value in kw2e
  {
    if |found| > 0 {
      assert found[|found| - 1] in found;
      FirstAtReported(found[..|found| - 1], i, tokens, kw2e);
    }
  }

  /** Only the token of the first occurrence at each index changes, and only
      with `replace`; without it the tokens are untouched. */
  lemma {:induction false} KeywordPassTokens(tokens: seq<string>, ents: Entities, found: seq<(string, nat)>, replace: bool,
                                             kw2e: map<string, string>, er: map<string, string>)
    requires Reported(tokens, found, kw2e)
    ensures var r := KeywordPass(tokens, ents, found, replace, kw2e, er);
      forall i :: 0 <= i < |tokens| ==> r.tokens[i] == if replace then KeywordToken(tokens, found, kw2e, i) else tokens[i]
  {
    if |found| > 0 {
      var p := found[..|found| - 1];
      var o := found[|found| - 1];
      KeywordPassTokens(tokens, ents, p, replace, kw2e, er);
      var s := KeywordPass(tokens, ents, p, replace, kw2e, er);
      var r := KeywordPass(tokens, ents, found, replace, kw2e, er);
      forall i | 0 <= i < |tokens|
        ensures r.tokens[i] == if replace then KeywordToken(tokens, found, kw2e, i) else tokens[i]
      {
        FirstAtReported(p, i, tokens, kw2e);
        FirstAtReported(found, i, tokens, kw2e);
      }
    }
  }

  /** Whether the occurrence after `earlier` records a value: its token is
      not a placeholder to begin with, and with `replace` no earlier
      occurrence has already rewritten it. */
  predicate Live(tokens: seq<string>, earlier: seq<(string, nat)>, o: (string, nat), replace: bool)
    requires o.1 < |tokens|
  {
    !IsPlaceholder(tokens[o.1]) && (!replace || FirstAt(earlier, o.1).None?)
  }

  /** The values the pass appends under category k, in order: the resolved
      surface of every live occurrence whose surface belongs to k. */
  function KeywordValues(tokens: seq<string>, found: seq<(string, nat)>, replace: bool,
                         kw2e: map<string, string>, er: map<string, string>, k: string): seq<string>
    requires Reported(tokens, found, kw2e)
  {
    if |found| == 0 then []
    else
      var p := found[..|found| - 1];
      var o := found[|found| - 1];
      assert o in found;
      KeywordValues(tokens, p, replace, kw2e, er, k)
        + if Live(tokens, p, o, replace) && kw2e[o.0] == k then [Resolve(er, o.0)] else []
  }

  /** The entities after the pass: a category is present exactly when it was
      before or a live occurrence belongs to it, and its values are the old
      ones followed by KeywordValues. Nothing else changes. */
  lemma {:induction false} KeywordPassEntities(tokens: seq<string>, ents: Entities, found: seq<(string, nat)>, replace: bool,
                                               kw2e: map<string, string>, er: map<string, string>, k: string)
    requires Reported(tokens, found, kw2e)
    ensures var r := KeywordPass(tokens, ents, found, replace, kw2e, er).entities;
      var vs := KeywordValues(tokens, found, replace, kw2e, er, k);
      && (k in r <==> k in ents || vs != [])
      && Values(r, k) == Values(ents, k) + vs
  {
    if |found| > 0 {
      var n := |found| - 1;
      KeywordPassSnoc(tokens, ents, found, n, replace, kw2e, er);
      assert found[..n + 1] == found;
      var p, o := found[..n], found[n];
      KeywordPassEntities(tokens, ents, p, replace, kw2e, er, k);
      var s := KeywordPass(tokens, ents, p, replace, kw2e, er);
      var vs := KeywordValues(tokens, p, replace, kw2e, er, k);
      var x := if Live(tokens, p, o, replace) && kw2e[o.0] == k then [Resolve(er, o.0)] else [];
      assert KeywordValues(tokens, found, replace, kw2e, er, k) == vs + x;
      var r := KeywordPass(tokens, ents, found, replace, kw2e, er).entities;
      assert (k in r <==> k in s.entities || x != []) && Values(r, k) == Values(s.entities, k) + x by {
        LiveStep(tokens, ents, p, o, replace, kw2e, er);
        if Live(tokens, p, o, replace) {
          AppendValues(s.entities, kw2e[o.0], Resolve(er, o.0), k);
        } else {
          assert Values(s.entities, k) + x == Values(s.entities, k);
        }
      }
      AppendAssoc(Values(ents, k), vs, x);
    }
  }

  lemma {:induction false} AppendAssoc(a: seq<string>, b: seq<string>, c: seq<string>)
    ensures a + b + c == a + (b + c)
  {
  }

  /** Appending under k' changes the values of k only when k == k'. */
  lemma {:induction false} AppendValues(ents: Entities, k': string, v: string, k: string)
    ensures k in Append(ents, k', v) <==> k in ents || k == k'
    ensures Values(Append(ents, k', v), k) == Values(ents, k) + if k == k' then [v] else []
  {
  }

  /** The step for occurrence o records a value exactly when o is live. */
  lemma {:induction false} LiveStep(tokens: seq<string>, ents: Entities, p: seq<(string, nat)>, o: (string, nat), replace: bool,
                                    kw2e: map<string, string>, er: map<string, string>)
    requires Reported(tokens, p, kw2e) && o.1 < |tokens| && tokens[o.1] != "" && o.0 in kw2e
    ensures var s := KeywordPass(tokens, ents, p, replace, kw2e, er);
      KeywordStep(s, o, replace, kw2e, er).entities ==
        if Live(tokens, p, o, replace) then Append(s.entities, kw2e[o.0], Resolve(er, o.0)) else s.entities
  {
    var s := KeywordPass(tokens, ents, p, replace, kw2e, er);
    KeywordPassTokens(tokens, ents, p, replace, kw2e, er);
    FirstAtReported(p, o.1, tokens, kw2e);
    assert s.tokens[o.1] == if replace then KeywordToken(tokens, p, kw2e, o.1) else tokens[o.1];
  }

  /** The entities only grow: no name disappears and no value is lost. */
  lemma {:induction false} KeywordPassExtends(tokens: seq<string>, ents: Entities, found: seq<(string, nat)>, replace: bool,
                                              kw2e: map<string, string>, er: map<string, string>)
    requires Reported(tokens, found, kw2e)
    ensures Extends(ents, KeywordPass(tokens, ents, found, replace, kw2e, er).entities)
  {
    if |found| > 0 {
      var p := found[..|found| - 1];
      var o := found[|found| - 1];
      assert o in found;
      KeywordPassExtends(tokens, ents, p, replace, kw2e, er);
      var s := KeywordPass(tokens, ents, p, replace, kw2e, er);
      if s.tokens[o.1][0] != '$' {
        AppendExtends(s.entities, kw2e[o.0], Resolve(er, o.0));
        ExtendsTrans(ents, s.entities, Append(s.entities, kw2e[o.0], Resolve(er, o.0)));
      }
    }
  }

  /** When every occurrence points at a placeholder, the pass does nothing. */
  lemma {:induction false} KeywordPassInert(tokens: seq<string>, ents: Entities, found: seq<(string, nat)>, replace: bool,
                                            kw2e: map<string, string>, er: map<string, string>)
    requires Reported(tokens, found, kw2e)
    requires forall o :: o in found ==> IsPlaceholder(tokens[o.1])
    ensures KeywordPass(tokens, ents, found, replace, kw2e, er) == KwState(tokens, ents)
  {
    if |found| > 0 {
      assert found[|found| - 1] in found;
      KeywordPassInert(tokens, ents, found[..|found| - 1], replace, kw2e, er);
    }
  }

  lemma {:induction false} FirstAtFound(found: seq<(string, nat)>, o: (string, nat))
    requires o in found
    ensures FirstAt(found, o.1).Some?
  {
    var p := found[..|found| - 1];
    if o != found[|found| - 1] {
      assert o in p;
      FirstAtFound(p, o);
    }
  }

  /** Running the replacing pass again on its own output with the same
      occurrences changes neither the tokens nor the entities. */
  lemma {:induction false} KeywordPassTwice(tokens: seq<string>, ents: Entities, found: seq<(string, nat)>,
                         kw2e: map<string, string>, er: map<string, string>)
    requires Reported(tokens, found, kw2e)
    ensures var r := KeywordPass(tokens, ents, found, true, kw2e, er);
      Reported(r.tokens, found, kw2e) && KeywordPass(r.tokens, r.entities, found, true, kw2e, er) == r
  {
    var r := KeywordPass(tokens, ents, found, true, kw2e, er);
    KeywordPassTokens(tokens, ents, found, true, kw2e, er);
    forall o | o in found ensures IsPlaceholder(r.tokens[o.1]) {
      FirstAtFound(found, o);
    }
    KeywordPassInert(r.tokens, r.entities, found, true, kw2e, er);
  }

  // ------------------------------------------------------------------- regex

  /** The matches with each replaced by its recorded replacement. */
  function ResolveAll(er: map<string, string>, ms: seq<string>): (r: seq<string>)
    ensures |r| == |ms| && forall i :: 0 <= i < |ms| ==> r[i] == Resolve(er, ms[i])
  {
    seq(|ms|, i requires 0 <= i < |ms| => Resolve(er, ms[i]))
  }

  /** The matches of one category recorded under its name: the name is
      created only when there is a match. */
  function RecordMatches(ents: Entities, reg: string, ms: seq<string>, er: map<string, string>): Entities {
    if |ms| == 0 then ents else ents[reg := Values(ents, reg) + ResolveAll(er, ms)]
  }

  /** Recording the matches one at a time, as the inner loop of get_regex
      does, is recording them all at once. */
  lemma {:induction false} RecordMatchesSnoc(ents: Entities, reg: string, ms: seq<string>, m: string, er: map<string, string>)
    ensures RecordMatches(ents, reg, ms + [m], er) == Append(RecordMatches(ents, reg, ms, er), reg, Resolve(er, m))
  {
    var ra := ResolveAll(er, ms + [m]);
    assert ra == ResolveAll(er, ms) + [Resolve(er, m)];
    if |ms| > 0 {
      assert Values(ents, reg) + ra == (Values(ents, reg) + ResolveAll(er, ms)) + [Resolve(er, m)];
    } else {
      assert ra == [Resolve(er, m)];
    }
  }

  /** The text each category is matched against: the sentence after the
      earlier categories' matches were replaced by their placeholders. */
  function RegexText(table: seq<(string, string)>, text: string,
                     sub: (string, string, string) -> string): string
  {
    if |table| == 0 then text
    else
      var (reg, pat) := table[|table| - 1];
      sub(pat, Placeholder(reg), RegexText(table[..|table| - 1], text, sub))
  }

  /** The entities after get_regex has matched every category in order. */
  function RegexEntities(table: seq<(string, string)>, text: string, ents: Entities, er: map<string, string>,
                         finditer: (string, string) -> seq<string>,
                         sub: (string, string, string) -> string): Entities
  {
    if |table| == 0 then ents
    else
      var p := table[..|table| - 1];
      var (reg, pat) := table[|table| - 1];
      RecordMatches(RegexEntities(p, text, ents, er, finditer, sub), reg, finditer(pat, RegexText(p, text, sub)), er)
  }

  predicate DistinctKeys(table: seq<(string, string)>) {
    forall i, j :: 0 <= i < j < |table| ==> table[i].0 != table[j].0
  }

  predicate HasKey(table: seq<(string, string)>, k: string) {
    exists i :: 0 <= i < |table| && table[i].0 == k
  }

  /** A name that is not a category of the table is left as it was. */
  lemma {:induction false} RegexEntitiesOther(table: seq<(string, string)>, text: string, ents: Entities, er: map<string, string>,
                                              finditer: (string, string) -> seq<string>,
                                              sub: (string, string, string) -> string, k: string)
    requires !HasKey(table, k)
    ensures var r := RegexEntities(table, text, ents, er, finditer, sub);
      (k in r <==> k in ents) && (k in r ==> r[k] == ents[k])
  {
    if |table| > 0 {
      var p := table[..|table| - 1];
      assert !HasKey(p, k) by {
        forall j | 0 <= j < |p| ensures p[j].0 != k {
          assert p[j] == table[j];
        }
      }
      RegexEntitiesOther(p, text, ents, er, finditer, sub, k);
    }
  }

  /** With distinct category names, category i records exactly its own
      matches, resolved, on the text left by the categories before it; it
      is created only when it has a match. */
  lemma {:induction false} RegexEntitiesCategory(table: seq<(string, string)>, text: string, ents: Entities,
                                                 er: map<string, string>, finditer: (string, string) -> seq<string>,
                                                 sub: (string, string, string) -> string, i: nat)
    requires DistinctKeys(table) && i < |table|
    ensures var r := RegexEntities(table, text, ents, er, finditer, sub);
      var reg := table[i].0;
      var ms := finditer(table[i].1, RegexText(table[..i], text, sub));
      && (reg in r <==> reg in ents || ms != [])
      && (reg in r ==> r[reg] == Values(ents, reg) + ResolveAll(er, ms))
  {
    var p := table[..|table| - 1];
    var reg := table[i].0;
    if i == |table| - 1 {
      assert !HasKey(p, reg) by {
        forall j | 0 <= j < |p| ensures p[j].0 != reg {
          assert p[j] == table[j];
        }
      }
      RegexEntitiesOther(p, text, ents, er, finditer, sub, reg);
    } else {
      assert p[..i] == table[..i] && p[i] == table[i];
      assert DistinctKeys(p) by {
        forall a, b | 0 <= a < b < |p| ensures p[a].0 != p[b].0 {
          assert p[a] == table[a] && p[b] == table[b];
        }
      }
      RegexEntitiesCategory(p, text, ents, er, finditer, sub, i);
    }
  }

  lemma {:induction false} RegexEntitiesExtends(table: seq<(string, string)>, text: string, ents: Entities,
                                                er: map<string, string>, finditer: (string, string) -> seq<string>,
                                                sub: (string, string, string) -> string)
    ensures Extends(ents, RegexEntities(table, text, ents, er, finditer, sub))
  {
    if |table| > 0 {
      var p := table[..|table| - 1];
      var (reg, pat) := table[|table| - 1];
      var m := RegexEntities(p, text, ents, er, finditer, sub);
      var ms := finditer(pat, RegexText(p, text, sub));
      RegexEntitiesExtends(p, text, ents, er, finditer, sub);
      var r := RecordMatches(m, reg, ms, er);
      assert Extends(m, r) by {
        if reg in m && |ms| > 0 {
          assert r[reg][..|m[reg]|] == m[reg];
        }
      }
      ExtendsTrans(ents, m, r);
    }
  }

  // --------------------------------------------------------------------- ner

  /** Whether token i is recorded under its label: the label is non-empty
      and one of the NER names, and the token is not blacklisted. */
  predicate Recordable(tokens: seq<string>, labels: seq<string>, ner: seq<string>, blacklist: set<string>, i: nat)
    requires i < |labels| <= |tokens|
  {
    labels[i] != "" && labels[i] in ner && tokens[i] !in blacklist
  }

  /** The first loop of get_ner over the first n labels. */
  function NerRecord(tokens: seq<string>, labels: seq<string>, n: nat, ents: Entities,
                     ner: seq<string>, blacklist: set<string>): Entities
    requires n <= |labels| <= |tokens|
  {
    if n == 0 then ents
    else
      var r := NerRecord(tokens, labels, n - 1, ents, ner, blacklist);
      if Recordable(tokens, labels, ner, blacklist, n - 1) then Append(r, labels[n - 1], tokens[n - 1]) else r
  }

  /** The recordable tokens among the first n labelled e, in order. */
  function Picked(tokens: seq<string>, labels: seq<string>, n: nat, ner: seq<string>, blacklist: set<string>, e: string)
    : (r: seq<string>)
    requires n <= |labels| <= |tokens|
    ensures forall x :: x in r <==>
      exists i :: 0 <= i < n && Recordable(tokens, labels, ner, blacklist, i) && labels[i] == e && tokens[i] == x
  {
    if n == 0 then []
    else
      var p := Picked(tokens, labels, n - 1, ner, blacklist, e);
      if Recordable(tokens, labels, ner, blacklist, n - 1) && labels[n - 1] == e then p + [tokens[n - 1]] else p
  }

  /** Under each label the recording loop appends exactly the picked tokens,
      and creates the label only when one is picked. */
  lemma {:induction false} NerRecordValues(tokens: seq<string>, labels: seq<string>, n: nat, ents: Entities,
                                           ner: seq<string>, blacklist: set<string>, e: string)
    requires n <= |labels| <= |tokens|
    ensures var r := NerRecord(tokens, labels, n, ents, ner, blacklist);
      var vs := Picked(tokens, labels, n, ner, blacklist, e);
      && (e in r <==> e in ents || vs != [])
      && (e in r ==> r[e] == Values(ents, e) + vs)
  {
    if n > 0 {
      NerRecordValues(tokens, labels, n - 1, ents, ner, blacklist, e);
    }
  }

  lemma {:induction false} NerRecordExtends(tokens: seq<string>, labels: seq<string>, n: nat, ents: Entities,
                                            ner: seq<string>, blacklist: set<string>)
    requires n <= |labels| <= |tokens|
    ensures Extends(ents, NerRecord(tokens, labels, n, ents, ner, blacklist))
  {
    if n > 0 {
      var r := NerRecord(tokens, labels, n - 1, ents, ner, blacklist);
      NerRecordExtends(tokens, labels, n - 1, ents, ner, blacklist);
      if Recordable(tokens, labels, ner, blacklist, n - 1) {
        AppendExtends(r, labels[n - 1], tokens[n - 1]);
        ExtendsTrans(ents, r, Append(r, labels[n - 1], tokens[n - 1]));
      }
    }
  }

  /** Tokens the rewriting loop drops: the empty token and a bare '$'. */
  predicate Skipped(t: string) {
    t == "" || t == "$"
  }

  /** The token rewriting loop of get_ner at a kept index i: a token right
      after a bare '$', unless it is the last token, becomes its own
      placeholder; a token with an NER label becomes the label's
      placeholder; any other token is kept. */
  function RewriteAt(tokens: seq<string>, labels: seq<string>, ner: seq<string>, i: nat): (r: string)
    requires i < |labels| <= |tokens| && !Skipped(tokens[i])
    ensures !Skipped(r)
  {
    if i > 0 && i < |tokens| - 1 && tokens[i - 1] == "$" then Placeholder(tokens[i])
    else if labels[i] !in ner || labels[i] == "" then tokens[i]
    else Placeholder(labels[i])
  }

  /** The rewritten list over the first n labels. */
  function Rewrite(tokens: seq<string>, labels: seq<string>, ner: seq<string>, n: nat): (r: seq<string>)
    requires n <= |labels| <= |tokens|
    ensures forall t :: t in r ==> !Skipped(t)
  {
    if n == 0 then []
    else
      var p := Rewrite(tokens, labels, ner, n - 1);
      if Skipped(tokens[n - 1]) then p else p + [RewriteAt(tokens, labels, ner, n - 1)]
  }

  /** The indices below n whose token is not dropped, in increasing order. */
  function Kept(tokens: seq<string>, n: nat): (r: seq<nat>)
    requires n <= |tokens|
    ensures forall i :: i in r <==> 0 <= i < n && !Skipped(tokens[i])
    ensures forall a, b :: 0 <= a < b < |r| ==> r[a] < r[b]
  {
    if n == 0 then []
    else
      var p := Kept(tokens, n - 1);
      if Skipped(tokens[n - 1]) then p
      else
        assert forall a :: 0 <= a < |p| ==> p[a] in p;
        p + [n - 1]
  }

  /** One output per kept token, in order, each rewritten by RewriteAt. */
  lemma {:induction false} RewriteKept(tokens: seq<string>, labels: seq<string>, ner: seq<string>, n: nat)
    requires n <= |labels| <= |tokens|
    ensures var k := Kept(tokens, n);
      var r := Rewrite(tokens, labels, ner, n);
      && |r| == |k|
      && forall j :: 0 <= j < |k| ==>
           (k[j] < |labels| && !Skipped(tokens[k[j]]) && r[j] == RewriteAt(tokens, labels, ner, k[j]))
  {
    if n > 0 {
      RewriteKept(tokens, labels, ner, n - 1);
      var k := Kept(tokens, n);
      var kp := Kept(tokens, n - 1);
      var r := Rewrite(tokens, labels, ner, n);
      var rp := Rewrite(tokens, labels, ner, n - 1);
      if Skipped(tokens[n - 1]) {
        assert k == kp && r == rp;
      } else {
        assert k == kp + [n - 1] && r == rp + [RewriteAt(tokens, labels, ner, n - 1)];
        forall j | 0 <= j < |k|
          ensures k[j] < |labels| && !Skipped(tokens[k[j]]) && r[j] == RewriteAt(tokens, labels, ner, k[j])
        {
          if j < |kp| { assert k[j] == kp[j] && r[j] == rp[j]; }
        }
      }
    }
  }

  // ------------------------------------------------------------------ dedup

  predicate NoAdjacentDup(s: seq<string>) {
    forall i :: 0 < i < |s| ==> s[i] != s[i - 1]
  }

  /** The elements s[k], i <= k, that differ from their left neighbour. */
  function DedupFrom(s: seq<string>, i: nat): seq<string>
    requires 1 <= i <= |s|
    decreases |s| - i
  {
    if i == |s| then []
    else (if s[i] == s[i - 1] then [] else [s[i]]) + DedupFrom(s, i + 1)
  }

  /** Each run of equal neighbours collapsed to its first element. */
  function Dedup(s: seq<string>): seq<string> {
    if |s| == 0 then [] else [s[0]] + DedupFrom(s, 1)
  }

  lemma {:induction false} DedupFromSound(s: seq<string>, i: nat)
    requires 1 <= i <= |s|
    ensures NoAdjacentDup([s[i - 1]] + DedupFrom(s, i))
    decreases |s| - i
  {
    if i < |s| {
      DedupFromSound(s, i + 1);
      var t := [s[i]] + DedupFrom(s, i + 1);
      if s[i] != s[i - 1] {
        assert DedupFrom(s, i) == t;
        NoAdjacentDupCons(s[i - 1], t);
      } else {
        assert DedupFrom(s, i) == [] + DedupFrom(s, i + 1);
        assert [] + DedupFrom(s, i + 1) == DedupFrom(s, i + 1);
        assert [s[i - 1]] + DedupFrom(s, i) == t;
      }
    }
  }

  lemma {:induction false} NoAdjacentDupCons(a: string, t: seq<string>)
    requires NoAdjacentDup(t) && (|t| > 0 ==> t[0] != a)
    ensures NoAdjacentDup([a] + t)
  {
    var u := [a] + t;
    forall j | 0 < j < |u| ensures u[j] != u[j - 1] {
      assert u[j] == t[j - 1];
      if j > 1 { assert u[j - 1] == t[j - 2]; }
    }
  }

  lemma {:induction false} DedupFromMembers(s: seq<string>, i: nat, x: string)
    requires 1 <= i <= |s|
    ensures x in [s[i - 1]] + DedupFrom(s, i) <==> x in s[i - 1..]
    decreases |s| - i
  {
    if i < |s| {
      DedupFromMembers(s, i + 1, x);
      assert s[i - 1..] == [s[i - 1]] + s[i..];
    }
  }

  lemma {:induction false} DedupFromFixed(s: seq<string>, i: nat)
    requires 1 <= i <= |s| && NoAdjacentDup(s)
    ensures DedupFrom(s, i) == s[i..]
    decreases |s| - i
  {
    if i < |s| {
      DedupFromFixed(s, i + 1);
      assert s[i..] == [s[i]] + s[i + 1..];
    }
  }

  /** The collapse leaves no equal neighbours, keeps every element and the
      first one, and changes a list exactly when it has equal neighbours. */
  lemma {:induction false} DedupProperties(s: seq<string>)
    ensures NoAdjacentDup(Dedup(s))
    ensures forall x :: x in Dedup(s) <==> x in s
    ensures |s| > 0 ==> |Dedup(s)| > 0 && Dedup(s)[0] == s[0]
    ensures Dedup(s) == s <==> NoAdjacentDup(s)
  {
    if |s| > 0 {
      DedupFromSound(s, 1);
      forall x ensures x in Dedup(s) <==> x in s {
        DedupFromMembers(s, 1, x);
        assert s[0..] == s;
      }
      if NoAdjacentDup(s) {
        DedupFromFixed(s, 1);
        assert s == [s[0]] + s[1..];
      }
    }
  }

  /** Collapsing twice is collapsing once. */
  lemma {:induction false} DedupIdempotent(s: seq<string>)
    ensures Dedup(Dedup(s)) == Dedup(s)
  {
    DedupProperties(s);
    DedupProperties(Dedup(s));
  }

  /** get: the regex pass with replacement, segmentation of the rewritten
      text, the keyword pass with replacement when an index was built, and
      the NER pass with replacement, whose blacklist takes the names present
      at that point. */
  function Pipeline(table: seq<(string, string)>, sentence: string, ents: Entities,
                    er: map<string, string>, kw2e: map<string, string>, indexed: bool,
                    ner: seq<string>, names: set<string>,
                    seg: string -> (seq<string>, seq<string>), find: seq<string> -> seq<(string, nat)>,
                    finditer: (string, string) -> seq<string>, sub: (string, string, string) -> string)
    : (r: (Entities, seq<string>))
    requires forall s :: |seg(s).1| <= |seg(s).0|
    requires indexed ==> forall ts :: Reported(ts, find(ts), kw2e)
    ensures forall t :: t in r.1 ==> !Skipped(t)
  {
    var e1 := RegexEntities(table, sentence, ents, er, finditer, sub);
    var (toks, labels) := seg(RegexText(table, sentence, sub));
    var st := if indexed then KeywordPass(toks, e1, find(toks), true, kw2e, er) else KwState(toks, e1);
    var bl := st.entities.Keys + names;
    var rw := Rewrite(st.tokens, labels, ner, |labels|);
    DedupProperties(rw);
    (NerRecord(st.tokens, labels, |labels|, st.entities, ner, bl), Dedup(rw))
  }

  /** What get promises: the entities given are only extended, and the
      returned tokens hold no empty or bare '$' token and no two equal
      neighbours. */
  lemma {:induction false} PipelineProperties(table: seq<(string, string)>, sentence: string, ents: Entities,
                           er: map<string, string>, kw2e: map<string, string>, indexed: bool,
                           ner: seq<string>, names: set<string>,
                           seg: string -> (seq<string>, seq<string>), find: seq<string> -> seq<(string, nat)>,
                           finditer: (string, string) -> seq<string>, sub: (string, string, string) -> string)
    requires forall s :: |seg(s).1| <= |seg(s).0|
    requires indexed ==> forall ts :: Reported(ts, find(ts), kw2e)
    ensures var r := Pipeline(table, sentence, ents, er, kw2e, indexed, ner, names, seg, find, finditer, sub);
      Extends(ents, r.0) && NoAdjacentDup(r.1) && forall t :: t in r.1 ==> !Skipped(t)
  {
    var e1 := RegexEntities(table, sentence, ents, er, finditer, sub);
    RegexEntitiesExtends(table, sentence, ents, er, finditer, sub);
    var (toks, labels) := seg(RegexText(table, sentence, sub));
    var st := if indexed then KeywordPass(toks, e1, find(toks), true, kw2e, er) else KwState(toks, e1);
    if indexed {
      KeywordPassExtends(toks, e1, find(toks), true, kw2e, er);
    }
    ExtendsTrans(ents, e1, st.entities);
    var bl := st.entities.Keys + names;
    NerRecordExtends(st.tokens, labels, |labels|, st.entities, ner, bl);
    ExtendsTrans(ents, st.entities, NerRecord(st.tokens, labels, |labels|, st.entities, ner, bl));
    DedupProperties(Rewrite(st.tokens, labels, ner, |labels|));
  }
}
