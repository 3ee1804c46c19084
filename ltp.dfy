/** The list processing of Tokenizer_LTP.seg (nlptools/text/tokenizer.py):
    merging the labels of several named-entity recognisers into one list,
    then one pass over the words that drops stopwords and filtered words
    and, with `entityjoin`, glues the words of one B-/I-/E- entity run into
    a single word. The segmenter, tagger and recognisers are given as
    their output lists. */
module Ltp {
  import opened Wrappers
  import opened Text
  import Tokenizer
  import Predeal

  // ---------------------------------------------------------------------
  // Merging the recognisers' labels
  // ---------------------------------------------------------------------

  /** The label at index i after the recognisers' lists have been applied
      in order: the last one that is not O, else O. */
  function Merged(lists: seq<seq<string>>, i: nat): string {
    if |lists| == 0 then "O"
    else
      var l := lists[|lists| - 1];
      if i < |l| && l[i] != "O" then l[i] else Merged(lists[..|lists| - 1], i)
  }

  /** O exactly when every recogniser said O at i; otherwise the label of
      the last recogniser that did not. */
  lemma {:induction false} MergedIsLastNonO(lists: seq<seq<string>>, i: nat)
    ensures Merged(lists, i) == "O" <==> forall k :: 0 <= k < |lists| && i < |lists[k]| ==> lists[k][i] == "O"
    ensures Merged(lists, i) != "O" ==>
      exists k :: 0 <= k < |lists| && i < |lists[k]| && lists[k][i] == Merged(lists, i) &&
        forall k' :: k < k' < |lists| && i < |lists[k']| ==> lists[k'][i] == "O"
    decreases |lists|
  {
    if |lists| > 0 {
      var init := lists[..|lists| - 1];
      var n := |lists| - 1;
      MergedIsLastNonO(init, i);
      assert forall k :: 0 <= k < n ==> init[k] == lists[k];
      if i < |lists[n]| && lists[n][i] != "O" {
        assert lists[n][i] == Merged(lists, i);
      } else if Merged(init, i) != "O" {
        var k :| 0 <= k < n && i < |init[k]| && init[k][i] == Merged(init, i) &&
          forall k' :: k < k' < n && i < |init[k']| ==> init[k'][i] == "O";
        assert lists[k][i] == Merged(lists, i);
      } else {
        assert Merged(lists, i) == Merged(init, i);
      }
    }
  }

  /** One recogniser's pass: every label that is not O overwrites. */
  method ApplyLabels(merged: array<string>, labels: seq<string>)
    requires |labels| <= merged.Length
    modifies merged
    ensures forall j :: 0 <= j < merged.Length ==>
      merged[j] == if j < |labels| && labels[j] != "O" then labels[j] else old(merged[j])
  {
    for i := 0 to |labels|
      invariant forall j :: 0 <= j < merged.Length ==>
        merged[j] == if j < i && labels[j] != "O" then labels[j] else old(merged[j])
    {
      if labels[i] != "O" {
        merged[i] := labels[i];
      }
    }
  }

  /** The merge loop: `first` is the first recogniser's list, which the
      source overwrites in place; the loop runs over that list itself and
      then the others. A list longer than the first is not allowed, since
      the source would index past the end. */
  method MergeLabels(first: array<string>, others: seq<seq<string>>)
    requires forall k :: 0 <= k < |others| ==> |others[k]| <= first.Length
    modifies first
    ensures forall i :: 0 <= i < first.Length ==> first[i] == Merged([old(first[..])] + others, i)
  {
    var lists := [first[..]] + others;
    for k := 0 to |lists|
      invariant forall i :: 0 <= i < first.Length ==>
        first[i] == if k == 0 then lists[0][i] else Merged(lists[..k], i)
    {
      assert lists[..k + 1][..k] == lists[..k];
      ApplyLabels(first, lists[k]);
    }
    assert lists[..|lists|] == lists;
  }

  // ---------------------------------------------------------------------
  // The pass over the words
  // ---------------------------------------------------------------------

  /** The three output lists. */
  datatype Out = Out(words: seq<string>, tags: seq<string>, entities: seq<string>)

  /** The entity run being joined: word_tmp, postag_tmp and entity_tmp. */
  datatype Pending = Pending(word: string, tags: seq<string>, entities: seq<string>)

  datatype JoinState = JoinState(out: Out, pending: Pending)

  /** The arguments of seg that steer the pass, and the tokenizer's
      stopwords and ner_name_replace. */
  datatype Options = Options(
    removeStopwords: bool,
    stopwords: set<string>,
    tagsFilter: Option<set<string>>,
    entitiesFilter: Option<set<string>>,
    entityJoin: bool,
    rename: map<string, string>)

  const Empty := JoinState(Out([], [], []), Pending("", [], []))

  /** Every pending word has its tag and entity, and the flushes only
      ever read the first of them when there is one. */
  predicate Good(st: JoinState) {
    |st.out.tags| == |st.out.words| && |st.out.entities| == |st.out.words| &&
    |st.pending.tags| == |st.pending.entities| &&
    (|st.pending.word| > 0 ==> |st.pending.entities| > 0)
  }

  /** re.split('-', label): the position part and the entity name, or O
      and O when the label holds no dash. */
  function SplitLabel(lbl: string): (string, string) {
    var parts := Split(lbl, '-');
    if |parts| > 1 then (parts[0], parts[1]) else ("O", "O")
  }

  /** The pending run becomes one output word with its first tag and
      entity. */
  function Flush(st: JoinState): (r: JoinState)
    requires Good(st) && |st.pending.entities| > 0
    ensures Good(r)
  {
    JoinState(
      Out(st.out.words + [st.pending.word], st.out.tags + [st.pending.tags[0]], st.out.entities + [st.pending.entities[0]]),
      Pending("", [], []))
  }

  function Emit(st: JoinState, w: string, tag: string, entity: string): (r: JoinState)
    requires Good(st)
    ensures Good(r)
  {
    st.(out := Out(st.out.words + [w], st.out.tags + [tag], st.out.entities + [entity]))
  }

  /** The entity-joining branch for one kept word. */
  function JoinStep(st: JoinState, w: string, tag: string, loc: string, entity: string): (r: JoinState)
    requires Good(st)
    ensures Good(r)
  {
    var s1 := if loc != "I" && loc != "E" && |st.pending.word| > 0 then Flush(st) else st;
    if loc == "B" || loc == "I" || loc == "E" then Extend(s1, w, tag, loc, entity)
    else Emit(s1, w, tag, entity)
  }

  /** The B/I/E branch after the first flush: a change of entity closes
      the run, the word joins the run, and an E- word closes it. */
  function Extend(s1: JoinState, w: string, tag: string, loc: string, entity: string): (r: JoinState)
    requires Good(s1)
    ensures Good(r)
  {
    var s2 := if |s1.pending.entities| > 0 && entity != s1.pending.entities[|s1.pending.entities| - 1] then Flush(s1) else s1;
    var s3 := s2.(pending := Pending(s2.pending.word + w, s2.pending.tags + [tag], s2.pending.entities + [entity]));
    if loc == "E" then Flush(s3) else s3
  }

  /** The label of a kept word without entity joining. */
  function PlainLabel(loc: string, entity: string): string {
    if loc == "O" then "O" else loc + "-" + entity
  }

  /** A word is dropped as a stopword or by the tag or entity filter; the
      entity filter sees the renamed entity. */
  predicate Kept(w: string, tag: string, lbl: string, opts: Options) {
    !(opts.removeStopwords && w in opts.stopwords) &&
    (opts.tagsFilter.Some? ==> tag in opts.tagsFilter.value) &&
    (opts.entitiesFilter.Some? ==> Tokenizer.Rename(opts.rename, SplitLabel(lbl).1) in opts.entitiesFilter.value)
  }

  /** One iteration of the loop. */
  function Step(st: JoinState, w: string, tag: string, lbl: string, opts: Options): (r: JoinState)
    requires Good(st)
    ensures Good(r)
  {
    if !Kept(w, tag, lbl, opts) then st
    else
      var loc := SplitLabel(lbl).0;
      var entity := Tokenizer.Rename(opts.rename, SplitLabel(lbl).1);
      if opts.entityJoin then JoinStep(st, w, tag, loc, entity)
      else Emit(st, w, tag, PlainLabel(loc, entity))
  }

  /** The loop over the words from state st. */
  function Run(st: JoinState, words: seq<string>, tags: seq<string>, labels: seq<string>, opts: Options): (r: JoinState)
    requires Good(st) && |tags| == |words| && |labels| == |words|
    ensures Good(r)
  {
    if |words| == 0 then st
    else
      var n := |words| - 1;
      Step(Run(st, words[..n], tags[..n], labels[..n], opts), words[n], tags[n], labels[n], opts)
  }

  /** What seg returns: the output lists; a run still pending is dropped. */
  function Seg(words: seq<string>, tags: seq<string>, labels: seq<string>, opts: Options): (r: Out)
    requires |tags| == |words| && |labels| == |words|
    ensures |r.tags| == |r.words| && |r.entities| == |r.words|
  {
    Run(Empty, words, tags, labels, opts).out
  }

  /** The loop body for word i, on the source's six variables. */
  method SegAt(words: seq<string>, postags: seq<string>, labels: seq<string>, i: nat, opts: Options, st: JoinState)
    returns (st': JoinState)
    requires i < |words| && |postags| == |words| && |labels| == |words| && Good(st)
    ensures st' == Step(st, words[i], postags[i], labels[i], opts)
  {
    var w := words[i];
    var ws, ps, es := st.out.words, st.out.tags, st.out.entities;
    var wordTmp, postagTmp, entityTmp := st.pending.word, st.pending.tags, st.pending.entities;
    if opts.removeStopwords && w in opts.stopwords {
      return st;
    }
    var parts := Split(labels[i], '-');
    var loc, entity;
    if |parts| > 1 {
      loc, entity := parts[0], parts[1];
    } else {
      loc, entity := "O", "O";
    }
    if entity in opts.rename {
      entity := opts.rename[entity];
    }
    assert (loc, entity) == (SplitLabel(labels[i]).0, Tokenizer.Rename(opts.rename, SplitLabel(labels[i]).1));
    if opts.tagsFilter.Some? && postags[i] !in opts.tagsFilter.value {
      return st;
    }
    if opts.entitiesFilter.Some? && entity !in opts.entitiesFilter.value {
      return st;
    }
    if opts.entityJoin {
      st' := JoinAt(st, w, postags[i], loc, entity);
    } else {
      ws, ps := ws + [w], ps + [postags[i]];
      if loc == "O" {
        es := es + ["O"];
      } else {
        es := es + [loc + "-" + entity];
      }
      st' := JoinState(Out(ws, ps, es), Pending(wordTmp, postagTmp, entityTmp));
    }
  }

  /** The entity-joining part of the loop body, on the six variables. */
  method JoinAt(st: JoinState, w: string, tag: string, loc: string, entity: string) returns (st': JoinState)
    requires Good(st)
    ensures st' == JoinStep(st, w, tag, loc, entity)
  {
    var ws, ps, es := st.out.words, st.out.tags, st.out.entities;
    var wordTmp, postagTmp, entityTmp := st.pending.word, st.pending.tags, st.pending.entities;
    if loc != "I" && loc != "E" && |wordTmp| > 0 {
      ws, ps, es := ws + [wordTmp], ps + [postagTmp[0]], es + [entityTmp[0]];
      wordTmp, postagTmp, entityTmp := "", [], [];
    }
    ghost var s1 := JoinState(Out(ws, ps, es), Pending(wordTmp, postagTmp, entityTmp));
    assert s1 == if loc != "I" && loc != "E" && |st.pending.word| > 0 then Flush(st) else st;
    if loc == "B" || loc == "I" || loc == "E" {
      if |entityTmp| > 0 && entity != entityTmp[|entityTmp| - 1] {
        ws, ps, es := ws + [wordTmp], ps + [postagTmp[0]], es + [entityTmp[0]];
        wordTmp, postagTmp, entityTmp := "", [], [];
      }
      wordTmp := wordTmp + w;
      postagTmp := postagTmp + [tag];
      entityTmp := entityTmp + [entity];
      if loc == "E" {
        ws, ps, es := ws + [wordTmp], ps + [postagTmp[0]], es + [entityTmp[0]];
        wordTmp, postagTmp, entityTmp := "", [], [];
      }
      st' := JoinState(Out(ws, ps, es), Pending(wordTmp, postagTmp, entityTmp));
      assert st' == Extend(s1, w, tag, loc, entity);
    } else {
      st' := JoinState(Out(ws + [w], ps + [tag], es + [entity]), Pending(wordTmp, postagTmp, entityTmp));
    }
  }

  /** Tokenizer_LTP.seg after the engines have run: the segmented words,
      their tags and the merged labels, one per word. */
  method LtpSeg(words: seq<string>, postags: seq<string>, labels: seq<string>, opts: Options) returns (out: Out)
    requires |postags| == |words| && |labels| == |words|
    ensures out == Seg(words, postags, labels, opts)
  {
    var st := Empty;
    for i := 0 to |words|
      invariant Good(st)
      invariant st == Run(Empty, words[..i], postags[..i], labels[..i], opts)
    {
      assert words[..i + 1][..i] == words[..i];
      assert postags[..i + 1][..i] == postags[..i];
      assert labels[..i + 1][..i] == labels[..i];
      st := SegAt(words, postags, labels, i, opts, st);
    }
    assert words[..|words|] == words && postags[..|words|] == postags && labels[..|words|] == labels;
    out := st.out;
  }

  // ---------------------------------------------------------------------
  // Properties of the pass
  // ---------------------------------------------------------------------

  /** The kept words, in order. */
  function KeptWords(words: seq<string>, tags: seq<string>, labels: seq<string>, opts: Options): seq<string>
    requires |tags| == |words| && |labels| == |words|
  {
    if |words| == 0 then []
    else
      var n := |words| - 1;
      KeptWords(words[..n], tags[..n], labels[..n], opts) + if Kept(words[n], tags[n], labels[n], opts) then [words[n]] else []
  }

  /** The kept words with their tags and plain labels, in order. */
  function PlainOut(words: seq<string>, tags: seq<string>, labels: seq<string>, opts: Options): Out
    requires |tags| == |words| && |labels| == |words|
  {
    if |words| == 0 then Out([], [], [])
    else
      var n := |words| - 1;
      var prev := PlainOut(words[..n], tags[..n], labels[..n], opts);
      if Kept(words[n], tags[n], labels[n], opts) then
        var (loc, e) := SplitLabel(labels[n]);
        Out(prev.words + [words[n]], prev.tags + [tags[n]], prev.entities + [PlainLabel(loc, Tokenizer.Rename(opts.rename, e))])
      else prev
  }

  /** Without entity joining there is one output per kept word, carrying
      its tag and the lbl O or position-entity, and nothing is pending. */
  lemma {:induction false} SegWithoutJoin(words: seq<string>, tags: seq<string>, labels: seq<string>, opts: Options)
    requires |tags| == |words| && |labels| == |words| && !opts.entityJoin
    ensures Run(Empty, words, tags, labels, opts) == JoinState(PlainOut(words, tags, labels, opts), Pending("", [], []))
    ensures PlainOut(words, tags, labels, opts).words == KeptWords(words, tags, labels, opts)
    decreases |words|
  {
    if |words| > 0 {
      var n := |words| - 1;
      SegWithoutJoin(words[..n], tags[..n], labels[..n], opts);
    }
  }

  /** Nothing is lost or invented: the output words followed by the
      pending run spell out the kept words. So a run still open at the end
      of the sentence is exactly what seg drops. */
  lemma {:induction false} RunSpellsKept(words: seq<string>, tags: seq<string>, labels: seq<string>, opts: Options)
    requires |tags| == |words| && |labels| == |words|
    ensures var st := Run(Empty, words, tags, labels, opts);
      Concat(st.out.words) + st.pending.word == Concat(KeptWords(words, tags, labels, opts)) &&
      (!opts.entityJoin ==> st.pending.word == "")
    decreases |words|
  {
    if |words| > 0 {
      var n := |words| - 1;
      RunSpellsKept(words[..n], tags[..n], labels[..n], opts);
      var st := Run(Empty, words[..n], tags[..n], labels[..n], opts);
      var kept := KeptWords(words[..n], tags[..n], labels[..n], opts);
      assert Run(Empty, words, tags, labels, opts) == Step(st, words[n], tags[n], labels[n], opts);
      if Kept(words[n], tags[n], labels[n], opts) {
        assert KeptWords(words, tags, labels, opts) == kept + [words[n]];
        StepSpells(st, words[n], tags[n], labels[n], opts);
        Tokenizer.ConcatSnoc(kept, words[n]);
      } else {
        assert KeptWords(words, tags, labels, opts) == kept;
      }
    }
  }

  /** One step adds the kept word's characters to output plus pending. */
  lemma {:induction false} StepSpells(st: JoinState, w: string, tag: string, lbl: string, opts: Options)
    requires Good(st) && Kept(w, tag, lbl, opts)
    requires !opts.entityJoin ==> st.pending.word == ""
    ensures var r := Step(st, w, tag, lbl, opts);
      Concat(r.out.words) + r.pending.word == Concat(st.out.words) + st.pending.word + w &&
      (!opts.entityJoin ==> r.pending.word == "")
  {
    var loc := SplitLabel(lbl).0;
    var entity := Tokenizer.Rename(opts.rename, SplitLabel(lbl).1);
    if opts.entityJoin {
      JoinStepSpells(st, w, tag, loc, entity);
      assert Step(st, w, tag, lbl, opts) == JoinStep(st, w, tag, loc, entity);
    } else {
      Tokenizer.ConcatSnoc(st.out.words, w);
    }
  }

  /** The characters held by a state: its output words, then the run. */
  function Spelled(st: JoinState): string {
    Concat(st.out.words) + st.pending.word
  }

  lemma {:induction false} JoinStepSpells(st: JoinState, w: string, tag: string, loc: string, entity: string)
    requires Good(st)
    ensures Spelled(JoinStep(st, w, tag, loc, entity)) == Spelled(st) + w
  {
    var s1 := if loc != "I" && loc != "E" && |st.pending.word| > 0 then Flush(st) else st;
    assert Spelled(s1) == Spelled(st) by {
      if loc != "I" && loc != "E" && |st.pending.word| > 0 {
        FlushSpells(st);
      }
    }
    if loc == "B" || loc == "I" || loc == "E" {
      assert JoinStep(st, w, tag, loc, entity) == Extend(s1, w, tag, loc, entity);
      ExtendSpells(s1, w, tag, loc, entity);
    } else {
      assert JoinStep(st, w, tag, loc, entity) == Emit(s1, w, tag, entity);
      assert s1.pending.word == "";
      Tokenizer.ConcatSnoc(s1.out.words, w);
    }
  }

  lemma {:induction false} ExtendSpells(s1: JoinState, w: string, tag: string, loc: string, entity: string)
    requires Good(s1)
    ensures Spelled(Extend(s1, w, tag, loc, entity)) == Spelled(s1) + w
  {
    var s2 := if |s1.pending.entities| > 0 && entity != s1.pending.entities[|s1.pending.entities| - 1] then Flush(s1) else s1;
    assert Spelled(s2) == Spelled(s1) by {
      if |s1.pending.entities| > 0 && entity != s1.pending.entities[|s1.pending.entities| - 1] {
        FlushSpells(s1);
      }
    }
    var s3 := s2.(pending := Pending(s2.pending.word + w, s2.pending.tags + [tag], s2.pending.entities + [entity]));
    assert Spelled(s3) == Spelled(s2) + w;
    if loc == "E" {
      FlushSpells(s3);
    }
  }

  lemma {:induction false} FlushSpells(st: JoinState)
    requires Good(st) && |st.pending.entities| > 0
    ensures Spelled(Flush(st)) == Spelled(st)
  {
    Tokenizer.ConcatSnoc(st.out.words, st.pending.word);
  }

  /** seg's output spells a prefix of the kept words, and all of them
      exactly when no run is left open. */
  lemma {:induction false} SegDropsOpenRun(words: seq<string>, tags: seq<string>, labels: seq<string>, opts: Options)
    requires |tags| == |words| && |labels| == |words|
    ensures var out := Concat(Seg(words, tags, labels, opts).words);
      var all := Concat(KeptWords(words, tags, labels, opts));
      |out| <= |all| && out == all[..|out|] &&
      (out == all <==> Run(Empty, words, tags, labels, opts).pending.word == "")
  {
    RunSpellsKept(words, tags, labels, opts);
    var st := Run(Empty, words, tags, labels, opts);
    var o := Concat(st.out.words);
    var all := Concat(KeptWords(words, tags, labels, opts));
    assert Concat(Seg(words, tags, labels, opts).words) == o;
    assert all == o + st.pending.word;
    assert all[..|o|] == o;
    assert |all| == |o| + |st.pending.word|;
  }

  /** A sentence ending in a B- word: the word is held back and never
      emitted. */
  lemma {:induction false} OpenRunDropped(w: string, tag: string, x: string, opts: Options)
    requires opts.entityJoin && '-' !in x && w != ""
    requires Kept(w, tag, "B-" + x, opts)
    ensures Seg([w], [tag], ["B-" + x], opts) == Out([], [], [])
    ensures Run(Empty, [w], [tag], ["B-" + x], opts).pending.word == w
  {
    LabelParts("B", x);
    assert [w][..0] == [] && [tag][..0] == [] && ["B-" + x][..0] == [];
    var e := Tokenizer.Rename(opts.rename, x);
    assert Run(Empty, [w], [tag], ["B-" + x], opts) == Step(Empty, w, tag, "B-" + x, opts);
    assert "" + w == w;
    assert Step(Empty, w, tag, "B-" + x, opts) == JoinState(Out([], [], []), Pending(w, [tag], [e]));
  }

  /** "B-x" splits into B and x when x holds no dash. */
  lemma {:induction false} LabelParts(loc: string, x: string)
    requires '-' !in loc && '-' !in x
    ensures SplitLabel(loc + "-" + x) == (loc, x)
  {
    IndexOfAfter(loc, '-', x);
    var s := loc + "-" + x;
    assert s == loc + ['-'] + x;
    assert s[..|loc|] == loc;
    assert s[|loc| + 1..] == x;
    assert Split(x, '-') == [x];
    assert Split(s, '-') == [loc, x];
  }

  /** A pending run is flushed before a word whose position is not I or E,
      and before a B/I/E word of another entity. */
  lemma {:induction false} EarlyFlush(st: JoinState, w: string, tag: string, lbl: string, opts: Options)
    requires Good(st) && opts.entityJoin && Kept(w, tag, lbl, opts)
    requires |st.pending.word| > 0
    ensures var loc := SplitLabel(lbl).0;
      var entity := Tokenizer.Rename(opts.rename, SplitLabel(lbl).1);
      var r := Step(st, w, tag, lbl, opts);
      (loc != "I" && loc != "E") || entity != st.pending.entities[|st.pending.entities| - 1] ==>
        |r.out.words| > |st.out.words| &&
        r.out.words[|st.out.words|] == st.pending.word &&
        r.out.tags[|st.out.words|] == st.pending.tags[0] &&
        r.out.entities[|st.out.words|] == st.pending.entities[0]
  {
  }

  /** The pending run after the first m words of an entity run that
      started from nothing pending. */
  function Joined(out: Out, ws: seq<string>, ts: seq<string>, entity: string, m: nat): JoinState
    requires 0 < m <= |ws| && |ts| == |ws|
  {
    JoinState(out, Pending(Concat(ws[..m]), ts[..m], seq(m, _ => entity)))
  }

  /** The words of a B-, I-..., E- run of one entity are glued into one
      output word carrying the first word's tag and the entity; a single
      S- word is emitted as it is. These are exactly the lbl chunks
      train_predeal writes for a span, so a trained span comes back as
      one word. */
  lemma {:induction false} JoinChunk(out: Out, ws: seq<string>, ts: seq<string>, x: string, opts: Options)
    requires |ws| > 0 && |ts| == |ws| && opts.entityJoin && '-' !in x
    requires |out.tags| == |out.words| && |out.entities| == |out.words|
    requires forall i :: 0 <= i < |ws| ==> Kept(ws[i], ts[i], Predeal.SpanLabels(x, |ws|)[i], opts)
    ensures Run(JoinState(out, Pending("", [], [])), ws, ts, Predeal.SpanLabels(x, |ws|), opts) ==
      JoinState(Out(out.words + [Concat(ws)], out.tags + [ts[0]], out.entities + [Tokenizer.Rename(opts.rename, x)]), Pending("", [], []))
  {
    if |ws| == 1 {
      JoinSingle(out, ws, ts, x, opts);
    } else {
      JoinRun(out, ws, ts, x, opts);
    }
  }

  lemma {:induction false} JoinSingle(out: Out, ws: seq<string>, ts: seq<string>, x: string, opts: Options)
    requires |ws| == 1 && |ts| == 1 && opts.entityJoin && '-' !in x
    requires |out.tags| == |out.words| && |out.entities| == |out.words|
    requires Kept(ws[0], ts[0], "S-" + x, opts)
    ensures Run(JoinState(out, Pending("", [], [])), ws, ts, Predeal.SpanLabels(x, 1), opts) ==
      JoinState(Out(out.words + [Concat(ws)], out.tags + [ts[0]], out.entities + [Tokenizer.Rename(opts.rename, x)]), Pending("", [], []))
  {
    var st := JoinState(out, Pending("", [], []));
    var labels := Predeal.SpanLabels(x, 1);
    assert labels == ["S-" + x];
    assert ws[..0] == [] && ts[..0] == [] && labels[..0] == [];
    assert Run(st, ws, ts, labels, opts) == Step(st, ws[0], ts[0], labels[0], opts);
    StepS(out, ws[0], ts[0], x, opts);
    ConcatLast(ws);
    assert Concat(ws) == ws[0];
  }

  lemma {:induction false} JoinRun(out: Out, ws: seq<string>, ts: seq<string>, x: string, opts: Options)
    requires |ws| > 1 && |ts| == |ws| && opts.entityJoin && '-' !in x
    requires |out.tags| == |out.words| && |out.entities| == |out.words|
    requires forall i :: 0 <= i < |ws| ==> Kept(ws[i], ts[i], Predeal.SpanLabels(x, |ws|)[i], opts)
    ensures Run(JoinState(out, Pending("", [], [])), ws, ts, Predeal.SpanLabels(x, |ws|), opts) ==
      JoinState(Out(out.words + [Concat(ws)], out.tags + [ts[0]], out.entities + [Tokenizer.Rename(opts.rename, x)]), Pending("", [], []))
  {
    var st := JoinState(out, Pending("", [], []));
    var e := Tokenizer.Rename(opts.rename, x);
    var labels := Predeal.SpanLabels(x, |ws|);
    var n := |ws|;
    RunPrefix(out, ws, ts, x, opts, n - 1);
    var prev := Joined(out, ws, ts, e, n - 1);
    assert labels[n - 1] == "E-" + x;
    assert Kept(ws[n - 1], ts[n - 1], labels[n - 1], opts);
    RunSnoc(st, ws, ts, labels, opts, n);
    assert ws[..n] == ws && ts[..n] == ts && labels[..n] == labels;
    StepE(out, prev.pending, ws[n - 1], ts[n - 1], x, opts);
    ConcatLast(ws);
    assert prev.pending.tags[0] == ts[0];
    assert prev.pending.entities[0] == e;
  }

  /** An S- word is emitted at once when nothing is pending. */
  lemma {:induction false} StepS(out: Out, w: string, t: string, x: string, opts: Options)
    requires opts.entityJoin && '-' !in x && Kept(w, t, "S-" + x, opts)
    requires |out.tags| == |out.words| && |out.entities| == |out.words|
    ensures Step(JoinState(out, Pending("", [], [])), w, t, "S-" + x, opts) ==
      JoinState(Out(out.words + [w], out.tags + [t], out.entities + [Tokenizer.Rename(opts.rename, x)]), Pending("", [], []))
  {
    LabelParts("S", x);
  }

  /** A B- word starts a run when nothing is pending. */
  lemma {:induction false} StepB(out: Out, w: string, t: string, x: string, opts: Options)
    requires opts.entityJoin && '-' !in x && Kept(w, t, "B-" + x, opts)
    requires |out.tags| == |out.words| && |out.entities| == |out.words|
    ensures Step(JoinState(out, Pending("", [], [])), w, t, "B-" + x, opts) ==
      JoinState(out, Pending(w, [t], [Tokenizer.Rename(opts.rename, x)]))
  {
    LabelParts("B", x);
    assert "" + w == w;
  }

  /** An I- word of the pending entity extends the run. */
  lemma {:induction false} StepI(out: Out, p: Pending, w: string, t: string, x: string, opts: Options)
    requires opts.entityJoin && '-' !in x && Kept(w, t, "I-" + x, opts)
    requires |out.tags| == |out.words| && |out.entities| == |out.words|
    requires |p.tags| == |p.entities| > 0 && p.entities[|p.entities| - 1] == Tokenizer.Rename(opts.rename, x)
    ensures Step(JoinState(out, p), w, t, "I-" + x, opts) ==
      JoinState(out, Pending(p.word + w, p.tags + [t], p.entities + [Tokenizer.Rename(opts.rename, x)]))
  {
    LabelParts("I", x);
  }

  /** An E- word of the pending entity closes the run and emits it. */
  lemma {:induction false} StepE(out: Out, p: Pending, w: string, t: string, x: string, opts: Options)
    requires opts.entityJoin && '-' !in x && Kept(w, t, "E-" + x, opts)
    requires |out.tags| == |out.words| && |out.entities| == |out.words|
    requires |p.tags| == |p.entities| > 0 && p.entities[|p.entities| - 1] == Tokenizer.Rename(opts.rename, x)
    ensures Step(JoinState(out, p), w, t, "E-" + x, opts) ==
      JoinState(Out(out.words + [p.word + w], out.tags + [p.tags[0]], out.entities + [p.entities[0]]), Pending("", [], []))
  {
    LabelParts("E", x);
  }

  /** The first word of a run of at least two words is held pending. */
  lemma {:induction false} RunFirst(out: Out, ws: seq<string>, ts: seq<string>, x: string, opts: Options)
    requires 2 <= |ws| && |ts| == |ws| && opts.entityJoin && '-' !in x
    requires |out.tags| == |out.words| && |out.entities| == |out.words|
    requires Kept(ws[0], ts[0], Predeal.SpanLabels(x, |ws|)[0], opts)
    ensures var labels := Predeal.SpanLabels(x, |ws|);
      Run(JoinState(out, Pending("", [], [])), ws[..1], ts[..1], labels[..1], opts) ==
        Joined(out, ws, ts, Tokenizer.Rename(opts.rename, x), 1)
  {
    var st := JoinState(out, Pending("", [], []));
    var e := Tokenizer.Rename(opts.rename, x);
    var labels := Predeal.SpanLabels(x, |ws|);
    assert labels[0] == "B-" + x;
    assert ws[..1][..0] == [] && ts[..1][..0] == [] && labels[..1][..0] == [];
    assert Run(st, ws[..1], ts[..1], labels[..1], opts) == Step(st, ws[0], ts[0], labels[0], opts);
    StepB(out, ws[0], ts[0], x, opts);
    assert Concat(ws[..1]) == Concat(ws[..1][..0]) + ws[0];
    assert ts[..1] == [ts[0]];
    assert seq(1, _ => e) == [e];
  }

  /** The first m < n words of an n-word run leave everything pending. */
  lemma {:induction false} RunPrefix(out: Out, ws: seq<string>, ts: seq<string>, x: string, opts: Options, m: nat)
    requires 2 <= |ws| && |ts| == |ws| && opts.entityJoin && '-' !in x && 0 < m < |ws|
    requires |out.tags| == |out.words| && |out.entities| == |out.words|
    requires forall i :: 0 <= i < |ws| ==> Kept(ws[i], ts[i], Predeal.SpanLabels(x, |ws|)[i], opts)
    ensures var labels := Predeal.SpanLabels(x, |ws|);
      Run(JoinState(out, Pending("", [], [])), ws[..m], ts[..m], labels[..m], opts) ==
        Joined(out, ws, ts, Tokenizer.Rename(opts.rename, x), m)
    decreases m
  {
    var labels := Predeal.SpanLabels(x, |ws|);
    if m == 1 {
      RunFirst(out, ws, ts, x, opts);
    } else {
      RunPrefix(out, ws, ts, x, opts, m - 1);
      RunNext(out, ws, ts, x, opts, m);
    }
  }

  /** One more I- word extends the pending run. */
  lemma {:induction false} RunNext(out: Out, ws: seq<string>, ts: seq<string>, x: string, opts: Options, m: nat)
    requires 2 <= |ws| && |ts| == |ws| && opts.entityJoin && '-' !in x && 1 < m < |ws|
    requires |out.tags| == |out.words| && |out.entities| == |out.words|
    requires Kept(ws[m - 1], ts[m - 1], Predeal.SpanLabels(x, |ws|)[m - 1], opts)
    requires var labels := Predeal.SpanLabels(x, |ws|);
      Run(JoinState(out, Pending("", [], [])), ws[..m - 1], ts[..m - 1], labels[..m - 1], opts) ==
        Joined(out, ws, ts, Tokenizer.Rename(opts.rename, x), m - 1)
    ensures var labels := Predeal.SpanLabels(x, |ws|);
      Run(JoinState(out, Pending("", [], [])), ws[..m], ts[..m], labels[..m], opts) ==
        Joined(out, ws, ts, Tokenizer.Rename(opts.rename, x), m)
  {
    var st := JoinState(out, Pending("", [], []));
    var e := Tokenizer.Rename(opts.rename, x);
    var labels := Predeal.SpanLabels(x, |ws|);
    var prev := Joined(out, ws, ts, e, m - 1);
    assert labels[m - 1] == "I-" + x;
    RunSnoc(st, ws, ts, labels, opts, m);
    StepI(out, prev.pending, ws[m - 1], ts[m - 1], x, opts);
    JoinedNext(out, ws, ts, e, m);
  }

  /** Run over the first m items is one step after the first m - 1. */
  lemma {:induction false} RunSnoc(st: JoinState, ws: seq<string>, ts: seq<string>, labels: seq<string>, opts: Options, m: nat)
    requires Good(st) && |ts| == |ws| && |labels| == |ws| && 0 < m <= |ws|
    ensures Run(st, ws[..m], ts[..m], labels[..m], opts) ==
      Step(Run(st, ws[..m - 1], ts[..m - 1], labels[..m - 1], opts), ws[m - 1], ts[m - 1], labels[m - 1], opts)
  {
    assert ws[..m][..m - 1] == ws[..m - 1];
    assert ts[..m][..m - 1] == ts[..m - 1];
    assert labels[..m][..m - 1] == labels[..m - 1];
  }

  lemma {:induction false} JoinedNext(out: Out, ws: seq<string>, ts: seq<string>, e: string, m: nat)
    requires 1 < m <= |ws| && |ts| == |ws|
    ensures var p := Joined(out, ws, ts, e, m - 1).pending;
      Joined(out, ws, ts, e, m) == JoinState(out, Pending(p.word + ws[m - 1], p.tags + [ts[m - 1]], p.entities + [e]))
  {
    assert ws[..m][..m - 1] == ws[..m - 1];
    assert Concat(ws[..m]) == Concat(ws[..m - 1]) + ws[m - 1];
    assert ts[..m] == ts[..m - 1] + [ts[m - 1]];
    assert seq(m, _ => e) == seq(m - 1, _ => e) + [e];
  }
}
