/** NER_LTP.train_predeal: turns a text with entity spans (start, end,
    name) into LTP's training line of `word/tag#label` triples. The text
    between spans and each span are segmented by `seg` (LTP without entity
    joining, given here as a function); words between spans keep the
    segmenter's labels and the words of a span get S- or B-, I-..., E-
    labels of the span's entity name. */
module Predeal {
  import opened Text

  /** The segmenter's answer for one piece of text: parallel word, tag and
      label lists. */
  datatype Words = Words(tokens: seq<string>, tags: seq<string>, entities: seq<string>)

  datatype Span = Span(start: nat, end: nat, entity: string)

  /** The running state of the loop: the cursor `point`, the three output
      lists, and the pieces of text the loop has looked at, in order. */
  datatype Acc = Acc(point: nat, tokens: seq<string>, tags: seq<string>, labels: seq<string>, pieces: seq<string>)

  /** A segmenter whose three lists always have equal length. */
  ghost predicate Aligned(seg: string -> Words) {
    forall s :: |seg(s).tags| == |seg(s).tokens| && |seg(s).entities| == |seg(s).tokens|
  }

  /** The labels of a span of n words: one S- label when n < 2, otherwise
      B-, n - 2 I- and E-. */
  function SpanLabels(entity: string, n: nat): (r: seq<string>)
    ensures |r| == if n < 2 then 1 else n
  {
    if n < 2 then ["S-" + entity]
    else seq(n, i requires 0 <= i < n => if i == 0 then "B-" + entity else if i == n - 1 then "E-" + entity else "I-" + entity)
  }

  /** A BIOES chunk of one entity: a single S- label, or B-, any number of
      I- and a closing E-. */
  predicate Chunk(labels: seq<string>, entity: string) {
    (|labels| == 1 && labels[0] == "S-" + entity) ||
    (|labels| >= 2 && labels[0] == "B-" + entity && labels[|labels| - 1] == "E-" + entity &&
     forall i :: 0 < i < |labels| - 1 ==> labels[i] == "I-" + entity)
  }

  /** Every span is labelled as one chunk; a span of one word gets S-. */
  lemma {:induction false} SpanLabelsChunk(entity: string, n: nat)
    ensures Chunk(SpanLabels(entity, n), entity)
    ensures n <= 1 <==> SpanLabels(entity, n) == ["S-" + entity]
  {
    if n >= 2 {
      assert SpanLabels(entity, n)[0] == "B-" + entity;
      assert SpanLabels(entity, n) != ["S-" + entity];
    }
  }

  /** Text between spans: looked at, and segmented with the segmenter's own
      labels when it is not blank. */
  function Plain(acc: Acc, piece: string, seg: string -> Words): Acc {
    var a := acc.(pieces := acc.pieces + [piece]);
    if !Blank(piece) then
      var w := seg(piece);
      a.(tokens := a.tokens + w.tokens, tags := a.tags + w.tags, labels := a.labels + w.entities)
    else a
  }

  /** One span: the text since the cursor, then the span itself under its
      (renamed) entity. With `advanceOnBlank` false this is the loop as
      written, where a blank span leaves the cursor where it was; with it
      true a blank span moves the cursor past itself like any other. */
  function Step(acc: Acc, sp: Span, text: string, rename: map<string, string>, seg: string -> Words,
                advanceOnBlank: bool): Acc
  {
    var a := if sp.start > acc.point then Plain(acc, Slice(text, acc.point, sp.start), seg) else acc;
    var name := if sp.entity in rename then rename[sp.entity] else sp.entity;
    var piece := Slice(text, sp.start, sp.end);
    var b := a.(pieces := a.pieces + [piece]);
    if Blank(piece) then
      if advanceOnBlank then b.(point := sp.end) else b
    else
      var w := seg(piece);
      Acc(sp.end, b.tokens + w.tokens, b.tags + w.tags, b.labels + SpanLabels(name, |w.tokens|), b.pieces)
  }

  /** The loop over the spans in order. */
  function Fold(spans: seq<Span>, text: string, rename: map<string, string>, seg: string -> Words,
                advanceOnBlank: bool): Acc
  {
    if |spans| == 0 then Acc(0, [], [], [], [])
    else Step(Fold(spans[..|spans| - 1], text, rename, seg, advanceOnBlank), spans[|spans| - 1], text, rename, seg,
              advanceOnBlank)
  }

  /** The text after the cursor, once the spans are done. */
  function Finish(acc: Acc, text: string, seg: string -> Words): Acc {
    if acc.point < |text| then Plain(acc, Slice(text, acc.point, |text|), seg) else acc
  }

  /** train_predeal as written. */
  function PredealAsWritten(text: string, spans: seq<Span>, rename: map<string, string>, seg: string -> Words): Acc {
    Finish(Fold(spans, text, rename, seg, false), text, seg)
  }

  /** train_predeal with the cursor moved past blank spans too. */
  function Predeal(text: string, spans: seq<Span>, rename: map<string, string>, seg: string -> Words): Acc {
    Finish(Fold(spans, text, rename, seg, true), text, seg)
  }

  /** The parallel lists stay usable: as many tags as words, and at least as
      many labels (a span of no word still gets its S- label). */
  predicate Usable(acc: Acc) {
    |acc.tags| == |acc.tokens| <= |acc.labels|
  }

  /** The `word/tag#label` triples of the final loop. */
  function Triples(tokens: seq<string>, tags: seq<string>, labels: seq<string>): (r: seq<string>)
    requires |tags| == |tokens| <= |labels|
    ensures |r| == |tokens|
  {
    seq(|tokens|, i requires 0 <= i < |tokens| => tokens[i] + "/" + tags[i] + "#" + labels[i])
  }

  /** A segmenter that finds a word in every non-blank piece. */
  ghost predicate NonEmpty(seg: string -> Words) {
    forall s :: !Blank(s) ==> |seg(s).tokens| > 0
  }

  /** What one piece of plain text does to the state. */
  lemma {:induction false} PlainFacts(acc: Acc, piece: string, seg: string -> Words)
    ensures var a := Plain(acc, piece, seg);
      a.point == acc.point && a.pieces == acc.pieces + [piece]
    ensures Aligned(seg) && Usable(acc) ==> Usable(Plain(acc, piece, seg))
    ensures Aligned(seg) && NonEmpty(seg) && |acc.labels| == |acc.tokens| ==>
      |Plain(acc, piece, seg).labels| == |Plain(acc, piece, seg).tokens|
  {
  }

  /** What one span does to the state. */
  lemma {:induction false} StepFacts(acc: Acc, sp: Span, text: string, rename: map<string, string>, seg: string -> Words,
                  advanceOnBlank: bool)
    ensures var a := Step(acc, sp, text, rename, seg, advanceOnBlank);
      && a.pieces == acc.pieces + (if sp.start > acc.point then [Slice(text, acc.point, sp.start)] else [])
                     + [Slice(text, sp.start, sp.end)]
      && (advanceOnBlank ==> a.point == sp.end)
    ensures Aligned(seg) && Usable(acc) ==> Usable(Step(acc, sp, text, rename, seg, advanceOnBlank))
    ensures Aligned(seg) && NonEmpty(seg) && |acc.labels| == |acc.tokens| ==>
      |Step(acc, sp, text, rename, seg, advanceOnBlank).labels| == |Step(acc, sp, text, rename, seg, advanceOnBlank).tokens|
  {
    var gap := Slice(text, acc.point, sp.start);
    PlainFacts(acc, gap, seg);
  }

  lemma {:induction false} FoldUsable(spans: seq<Span>, text: string, rename: map<string, string>, seg: string -> Words,
                                      advanceOnBlank: bool)
    requires Aligned(seg)
    ensures Usable(Fold(spans, text, rename, seg, advanceOnBlank))
    ensures Usable(Finish(Fold(spans, text, rename, seg, advanceOnBlank), text, seg))
  {
    if |spans| > 0 {
      var p := spans[..|spans| - 1];
      FoldUsable(p, text, rename, seg, advanceOnBlank);
      StepFacts(Fold(p, text, rename, seg, advanceOnBlank), spans[|spans| - 1], text, rename, seg, advanceOnBlank);
    }
    var acc := Fold(spans, text, rename, seg, advanceOnBlank);
    PlainFacts(acc, Slice(text, acc.point, |text|), seg);
  }

  /** With a segmenter that finds a word in every non-blank piece, every
      word gets exactly one label. */
  lemma {:induction false} FoldLabelled(spans: seq<Span>, text: string, rename: map<string, string>, seg: string -> Words,
                                        advanceOnBlank: bool)
    requires Aligned(seg) && NonEmpty(seg)
    ensures var acc := Fold(spans, text, rename, seg, advanceOnBlank);
      |acc.labels| == |acc.tokens| && |Finish(acc, text, seg).labels| == |Finish(acc, text, seg).tokens|
  {
    if |spans| > 0 {
      var p := spans[..|spans| - 1];
      FoldLabelled(p, text, rename, seg, advanceOnBlank);
      StepFacts(Fold(p, text, rename, seg, advanceOnBlank), spans[|spans| - 1], text, rename, seg, advanceOnBlank);
    }
    var acc := Fold(spans, text, rename, seg, advanceOnBlank);
    PlainFacts(acc, Slice(text, acc.point, |text|), seg);
  }

  /** Spans in text order, none overlapping the next, all inside the text. */
  predicate Ordered(spans: seq<Span>, n: nat) {
    (forall i :: 0 <= i < |spans| ==> spans[i].start <= spans[i].end <= n) &&
    (forall i :: 0 < i < |spans| ==> spans[i - 1].end <= spans[i].start)
  }

  /** The loop over one more span is one more step. */
  lemma {:induction false} FoldSnoc(spans: seq<Span>, j: nat, text: string, rename: map<string, string>, seg: string -> Words)
    requires j < |spans|
    ensures Fold(spans[..j + 1], text, rename, seg, true) == Step(Fold(spans[..j], text, rename, seg, true), spans[j], text, rename, seg, true)
  {
    assert spans[..j + 1][..j] == spans[..j];
  }

  /** The cursor after the spans: where the last one ends. */
  function LastEnd(spans: seq<Span>): nat {
    if |spans| == 0 then 0 else spans[|spans| - 1].end
  }

  lemma {:induction false} PrefixJoin(s: string, a: nat, b: nat)
    requires a <= b <= |s|
    ensures s[..a] + s[a..b] == s[..b]
  {
  }

  lemma {:induction false} SliceIsRange(text: string, a: nat, b: nat)
    requires a <= b <= |text|
    ensures Slice(text, a, b) == text[a..b]
  {
  }

  /** With the cursor moved past every span, the pieces looked at are the
      text up to the cursor, each character once. */
  lemma {:induction false} FoldTiles(spans: seq<Span>, text: string, rename: map<string, string>, seg: string -> Words)
    requires Ordered(spans, |text|)
    ensures var acc := Fold(spans, text, rename, seg, true);
      acc.point == LastEnd(spans) && Concat(acc.pieces) == text[..acc.point]
  {
    if |spans| > 0 {
      var p := spans[..|spans| - 1];
      var sp := spans[|spans| - 1];
      assert Ordered(p, |text|);
      FoldTiles(p, text, rename, seg);
      var acc := Fold(p, text, rename, seg, true);
      assert acc.point <= sp.start by {
        if |p| > 0 {
          assert spans[|spans| - 2] == p[|p| - 1];
        }
      }
      StepFacts(acc, sp, text, rename, seg, true);
      SliceIsRange(text, sp.start, sp.end);
      var mid := if sp.start > acc.point then [text[acc.point..sp.start]] else [];
      if sp.start > acc.point {
        SliceIsRange(text, acc.point, sp.start);
      }
      ConcatAppend(acc.pieces, mid);
      ConcatAppend(acc.pieces + mid, [text[sp.start..sp.end]]);
      assert Concat(acc.pieces + mid) == text[..sp.start] by {
        if sp.start > acc.point {
          assert Concat(mid) == text[acc.point..sp.start];
          PrefixJoin(text, acc.point, sp.start);
        } else {
          assert acc.pieces + mid == acc.pieces;
        }
      }
      PrefixJoin(text, sp.start, sp.end);
    }
  }

  /** The intended property of train_predeal: for ordered spans, the pieces
      handed to the segmenter (or dropped as blank) are the whole text, each
      character once. */
  lemma {:induction false} PredealTiles(text: string, spans: seq<Span>, rename: map<string, string>, seg: string -> Words)
    requires Ordered(spans, |text|)
    ensures Concat(Predeal(text, spans, rename, seg).pieces) == text
  {
    FoldTiles(spans, text, rename, seg);
    var acc := Fold(spans, text, rename, seg, true);
    if acc.point < |text| {
      PlainFacts(acc, Slice(text, acc.point, |text|), seg);
      SliceIsRange(text, acc.point, |text|);
      ConcatAppend(acc.pieces, [text[acc.point..|text|]]);
      PrefixJoin(text, acc.point, |text|);
      assert text[..|text|] == text;
    } else {
      assert text[..acc.point] == text;
    }
  }

  /** As written, a blank span leaves the cursor behind it, so the text
      before it is looked at (and segmented) a second time: for "a b" and
      the blank span (1, 2), the pieces are "a", " " and "a b". */
  lemma {:induction false} BlankSpanRepeatsText(text: string, k: nat, e: nat, rename: map<string, string>, seg: string -> Words)
    requires 0 < k <= e <= |text| && Blank(text[k..e])
    ensures Ordered([Span(k, e, "X")], |text|)
    ensures PredealAsWritten(text, [Span(k, e, "X")], rename, seg).pieces == [text[..k], text[k..e], text]
    ensures |Concat(PredealAsWritten(text, [Span(k, e, "X")], rename, seg).pieces)| == |text| + e
  {
    BlankSpanPieces(text, k, e, rename, seg);
    ConcatAppend([text[..k]], [text[k..e]]);
    ConcatAppend([text[..k], text[k..e]], [text]);
    assert [text[..k]] + [text[k..e]] == [text[..k], text[k..e]];
    assert [text[..k], text[k..e]] + [text] == [text[..k], text[k..e], text];
    assert Concat([text[..k]]) == text[..k] && Concat([text[k..e]]) == text[k..e] && Concat([text]) == text;
  }

  lemma {:induction false} BlankSpanPieces(text: string, k: nat, e: nat, rename: map<string, string>, seg: string -> Words)
    requires 0 < k <= e <= |text| && Blank(text[k..e])
    ensures PredealAsWritten(text, [Span(k, e, "X")], rename, seg).pieces == [text[..k], text[k..e], text]
  {
    var spans := [Span(k, e, "X")];
    var acc0 := Acc(0, [], [], [], []);
    assert Fold(spans[..0], text, rename, seg, false) == acc0;
    assert spans[..|spans| - 1] == spans[..0];
    SliceIsRange(text, 0, k);
    SliceIsRange(text, k, e);
    StepFacts(acc0, spans[0], text, rename, seg, false);
    var acc := Fold(spans, text, rename, seg, false);
    assert acc == Step(acc0, spans[0], text, rename, seg, false);
    assert text[0..k] == text[..k];
    assert acc.point == 0 && acc.pieces == [text[..k], text[k..e]];
    PlainFacts(acc, Slice(text, 0, |text|), seg);
    SliceIsRange(text, 0, |text|);
    assert text[0..|text|] == text;
    assert PredealAsWritten(text, spans, rename, seg) == Plain(acc, text, seg);
  }

  /** train_predeal, with the cursor moved past blank spans. The result is
      the space-joined triples of the segmented text. */
  method TrainPredeal(text: string, spans: seq<Span>, rename: map<string, string>, seg: string -> Words)
    returns (r: string)
    requires Aligned(seg)
    ensures Usable(Predeal(text, spans, rename, seg))
    ensures var acc := Predeal(text, spans, rename, seg);
      r == Join(" ", Triples(acc.tokens, acc.tags, acc.labels))
  {
    var point: nat := 0;
    var tokens: seq<string> := [];
    var tags: seq<string> := [];
    var labels: seq<string> := [];
    ghost var pieces: seq<string> := [];
    var j := 0;
    while j < |spans|
      invariant 0 <= j <= |spans|
      invariant Acc(point, tokens, tags, labels, pieces) == Fold(spans[..j], text, rename, seg, true)
    {
      var sp := spans[j];
      FoldSnoc(spans, j, text, rename, seg);
      point, tokens, tags, labels, pieces := TakeSpan(point, tokens, tags, labels, pieces, sp, text, rename, seg);
      j := j + 1;
    }
    assert spans[..|spans|] == spans;
    point, tokens, tags, labels, pieces := TakeRest(point, tokens, tags, labels, pieces, text, seg);
    FoldUsable(spans, text, rename, seg, true);
    var triples := FormatTriples(tokens, tags, labels);
    r := Join(" ", triples);
  }

  /** The body of the loop over the spans, for one span. */
  method TakeSpan(point: nat, tokens: seq<string>, tags: seq<string>, labels: seq<string>, ghost pieces: seq<string>,
                  sp: Span, text: string, rename: map<string, string>, seg: string -> Words)
    returns (point': nat, tokens': seq<string>, tags': seq<string>, labels': seq<string>, ghost pieces': seq<string>)
    ensures Acc(point', tokens', tags', labels', pieces') == Step(Acc(point, tokens, tags, labels, pieces), sp, text, rename, seg, true)
  {
    point', tokens', tags', labels', pieces' := point, tokens, tags, labels, pieces;
    if sp.start > point {
      var gap := Slice(text, point, sp.start);
      pieces' := pieces' + [gap];
      StripEmpty(gap);
      if |Strip(gap)| > 0 {
        var w := seg(gap);
        tokens' := tokens' + w.tokens;
        tags' := tags' + w.tags;
        labels' := labels' + w.entities;
      }
    }
    var name := sp.entity;
    if name in rename {
      name := rename[name];
    }
    var piece := Slice(text, sp.start, sp.end);
    pieces' := pieces' + [piece];
    StripEmpty(piece);
    if |Strip(piece)| < 1 {
      point' := sp.end;
    } else {
      var w := seg(piece);
      tokens' := tokens' + w.tokens;
      tags' := tags' + w.tags;
      var n := |w.tokens|;
      if n < 2 {
        labels' := labels' + ["S-" + name];
      } else {
        var chunk := SpanChunk(name, n);
        labels' := labels' + chunk;
      }
      point' := sp.end;
    }
  }

  /** The text after the last span. */
  method TakeRest(point: nat, tokens: seq<string>, tags: seq<string>, labels: seq<string>, ghost pieces: seq<string>,
                  text: string, seg: string -> Words)
    returns (point': nat, tokens': seq<string>, tags': seq<string>, labels': seq<string>, ghost pieces': seq<string>)
    ensures Acc(point', tokens', tags', labels', pieces') == Finish(Acc(point, tokens, tags, labels, pieces), text, seg)
  {
    point', tokens', tags', labels', pieces' := point, tokens, tags, labels, pieces;
    if point < |text| {
      var rest := Slice(text, point, |text|);
      pieces' := pieces' + [rest];
      StripEmpty(rest);
      if |Strip(rest)| > 0 {
        var w := seg(rest);
        tokens' := tokens' + w.tokens;
        tags' := tags' + w.tags;
        labels' := labels' + w.entities;
      }
    }
  }

  /** The final loop of train_predeal: one `word/tag#label` per word. */
  method FormatTriples(tokens: seq<string>, tags: seq<string>, labels: seq<string>) returns (triples: seq<string>)
    requires |tags| == |tokens| <= |labels|
    ensures triples == Triples(tokens, tags, labels)
  {
    triples := [];
    var i := 0;
    while i < |tokens|
      invariant 0 <= i <= |tokens|
      invariant triples == Triples(tokens, tags, labels)[..i]
    {
      triples := triples + [tokens[i] + "/" + tags[i] + "#" + labels[i]];
      i := i + 1;
    }
  }

  /** The loop that labels a span of n >= 2 words. */
  method SpanChunk(name: string, n: nat) returns (chunk: seq<string>)
    requires n >= 2
    ensures chunk == SpanLabels(name, n)
  {
    chunk := [];
    var i := 0;
    while i < n
      invariant 0 <= i <= n
      invariant chunk == SpanLabels(name, n)[..i]
    {
      if i == 0 {
        chunk := chunk + ["B-" + name];
      } else if i == n - 1 {
        chunk := chunk + ["E-" + name];
      } else {
        chunk := chunk + ["I-" + name];
      }
      i := i + 1;
    }
  }
}
