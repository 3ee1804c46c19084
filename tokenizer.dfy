/** The backend-independent part of nlptools/text/tokenizer.py: the fixed
    width id/mask layout of format_sentence, joining tokens back into a
    sentence (plain and WordPiece), the character, regex and REST
    segmenters' list processing, and the choice of backend by name. The
    segmenters themselves (the tokenizer callable, vocab.words2id, the
    regex split, the REST call) are given as functions or values. */
module Tokenizer {
  import opened Wrappers
  import opened Text

  // ---------------------------------------------------------------------
  // format_sentence
  // ---------------------------------------------------------------------

  /** What format_sentence accepts as `sentence`: a string to tokenize, a
      list of tokens, or a list of token ids. */
  datatype Sentence = Str(text: string) | TokenList(tokens: seq<string>) | IdList(ids: seq<int>)

  /** The vocabulary: the words2id lookup and the two sentinel ids. */
  datatype Vocab = Vocab(words2id: seq<string> -> seq<int>, bos: int, eos: int)

  /** A token whose last character is in string.punctuation. */
  predicate EndsInPunct(t: string) {
    |t| > 0 && IsPunctuation(t[|t| - 1])
  }

  /** The while loop that pops trailing tokens while the last one ends in
      punctuation; reading the last character of an empty token raises
      IndexError. */
  function PopPunct(ts: seq<string>): Result<seq<string>>
    decreases |ts|
  {
    if |ts| == 0 then Ok([])
    else
      var last := ts[|ts| - 1];
      if |last| == 0 then Err(IndexError)
      else if IsPunctuation(last[|last| - 1]) then PopPunct(ts[..|ts| - 1])
      else Ok(ts)
  }

  /** The popping stops at the longest prefix whose last token does not
      end in punctuation, however many tokens that removes; it fails
      exactly when an empty token is reached first. */
  lemma {:induction false} PopPunctProperties(ts: seq<string>)
    ensures PopPunct(ts).Ok? ==>
      var r := PopPunct(ts).value;
      |r| <= |ts| && r == ts[..|r|] &&
      (r == [] || (|r[|r| - 1]| > 0 && !EndsInPunct(r[|r| - 1]))) &&
      forall k :: |r| <= k < |ts| ==> EndsInPunct(ts[k])
    ensures PopPunct(ts).Err? ==> PopPunct(ts).error == IndexError
    ensures PopPunct(ts).Err? <==>
      exists k :: 0 <= k < |ts| && ts[k] == "" && forall j :: k < j < |ts| ==> EndsInPunct(ts[j])
    decreases |ts|
  {
    if |ts| > 0 {
      var last := ts[|ts| - 1];
      if |last| > 0 && IsPunctuation(last[|last| - 1]) {
        var init := ts[..|ts| - 1];
        PopPunctProperties(init);
        assert forall k :: 0 <= k < |init| ==> init[k] == ts[k];
        if PopPunct(ts).Ok? {
          var r := PopPunct(ts).value;
          assert init[..|r|] == ts[..|r|];
        } else {
          var k :| 0 <= k < |init| && init[k] == "" && forall j :: k < j < |init| ==> EndsInPunct(init[j]);
          assert ts[k] == "" && forall j :: k < j < |ts| ==> EndsInPunct(ts[j]);
        }
        if exists k :: 0 <= k < |ts| && ts[k] == "" && forall j :: k < j < |ts| ==> EndsInPunct(ts[j]) {
          var k :| 0 <= k < |ts| && ts[k] == "" && forall j :: k < j < |ts| ==> EndsInPunct(ts[j]);
          assert k < |init| && init[k] == "" && forall j :: k < j < |init| ==> EndsInPunct(init[j]);
        }
      } else if |last| > 0 {
        assert !EndsInPunct(ts[|ts| - 1]);
        forall k | 0 <= k < |ts| && ts[k] == ""
          ensures !(forall j :: k < j < |ts| ==> EndsInPunct(ts[j]))
        {
          assert k < |ts| - 1;
        }
      } else {
        assert ts[|ts| - 1] == "";
      }
    }
  }

  /** tokens.pop() in a while loop, as format_sentence does. */
  method PopTrailingPunctuation(ts: seq<string>) returns (r: Result<seq<string>>)
    ensures r == PopPunct(ts)
  {
    var tokens := ts;
    while |tokens| > 0
      invariant PopPunct(tokens) == PopPunct(ts)
      decreases |tokens|
    {
      var last := tokens[|tokens| - 1];
      if |last| == 0 {
        return Err(IndexError);
      }
      if !IsPunctuation(last[|last| - 1]) {
        return Ok(tokens);
      }
      tokens := tokens[..|tokens| - 1];
    }
    return Ok(tokens);
  }

  /** The trimming step: only when there are more than maxLen - 2 tokens,
      pop the trailing punctuation tokens, and keep the original list if
      nothing would be left. */
  function Trimmed(ts: seq<string>, maxLen: nat): Result<seq<string>> {
    if |ts| > maxLen - 2 then
      match PopPunct(ts)
      case Err(e) => Err(e)
      case Ok(r) => Ok(if |r| < 1 then ts else r)
    else Ok(ts)
  }

  /** Python's xs[:n] for n >= 0. */
  function Take(xs: seq<int>, n: nat): (r: seq<int>)
    ensures |r| == (if |xs| <= n then |xs| else n) && r == xs[..|r|]
  {
    if |xs| <= n then xs else xs[..n]
  }

  /** Ids of a non-empty token list: trimmed, looked up, cut to fit. */
  function WordIds(ts: seq<string>, vocab: Vocab, maxLen: nat): Result<Option<seq<int>>>
    requires maxLen >= 2
  {
    match Trimmed(ts, maxLen)
    case Err(e) => Err(e)
    case Ok(t) => Ok(Some(Take(vocab.words2id(t), maxLen - 2)))
  }

  /** The token ids format_sentence lays out, or None when a string
      tokenizes to nothing. Without a tokenizer the ids are taken as given
      and are not cut. With a tokenizer, `sentence[0]` is read (IndexError
      on an empty input) to tell token lists from id lists. `asWritten`
      selects the source's id-list branch, which reads `token_ids` before
      any assignment (NameError); otherwise the ids are used as given. */
  function TokenIds(s: Sentence, tokenizer: Option<string -> seq<string>>, vocab: Vocab, maxLen: nat, asWritten: bool): Result<Option<seq<int>>>
    requires maxLen >= 2
    requires tokenizer.None? ==> s.IdList?
  {
    match tokenizer
    case None => Ok(Some(s.ids))
    case Some(tok) =>
      match s
      case Str(text) =>
        var ts := tok(text);
        if |ts| < 1 then Ok(None)
        else if |text| == 0 then Err(IndexError)
        else WordIds(ts, vocab, maxLen)
      case TokenList(ts) =>
        if |ts| == 0 then Err(IndexError) else WordIds(ts, vocab, maxLen)
      case IdList(ids) =>
        if |ids| == 0 then Err(IndexError)
        else if asWritten then Err(NameError)
        else Ok(Some(Take(ids, maxLen - 2)))
  }

  /** The id array: BOS, the ids, EOS, then zeros, index by index. */
  function Framed(ids: seq<int>, maxLen: nat, bos: int, eos: int): seq<int>
    requires |ids| + 2 <= maxLen
  {
    seq(maxLen, i requires 0 <= i < maxLen =>
      if i == 0 then bos else if i <= |ids| then ids[i - 1] else if i == |ids| + 1 then eos else 0)
  }

  /** The mask array: 1 on the first n positions, 0 after. */
  function Mask(n: nat, maxLen: nat): seq<int> {
    seq(maxLen, i requires 0 <= i < maxLen => if i < n then 1 else 0)
  }

  function Zeros(n: nat): seq<int> {
    seq(n, _ => 0)
  }

  function Sum(xs: seq<int>): int {
    if |xs| == 0 then 0 else Sum(xs[..|xs| - 1]) + xs[|xs| - 1]
  }

  /** The layout as a concatenation: [BOS] + ids + [EOS] + zeros, and the
      mask as ones then zeros. */
  lemma {:induction false} FramedShape(ids: seq<int>, maxLen: nat, bos: int, eos: int)
    requires |ids| + 2 <= maxLen
    ensures Framed(ids, maxLen, bos, eos) == [bos] + ids + [eos] + Zeros(maxLen - |ids| - 2)
    ensures Mask(|ids| + 2, maxLen) == seq(|ids| + 2, _ => 1) + Zeros(maxLen - |ids| - 2)
  {
  }

  /** The mask counts n ones. */
  lemma {:induction false} MaskSum(n: nat, maxLen: nat)
    requires n <= maxLen
    ensures Sum(Mask(n, maxLen)) == n
    decreases maxLen
  {
    if maxLen > 0 {
      var m := Mask(n, maxLen);
      if n == maxLen {
        MaskSum(n - 1, maxLen - 1);
        assert m[..maxLen - 1] == Mask(n - 1, maxLen - 1);
      } else {
        MaskSum(n, maxLen - 1);
        assert m[..maxLen - 1] == Mask(n, maxLen - 1);
      }
    }
  }

  /** Reading the layout back: the ids sit between position 0 and the last
      position the mask covers. */
  lemma {:induction false} Unframe(ids: seq<int>, maxLen: nat, bos: int, eos: int)
    requires |ids| + 2 <= maxLen
    ensures var n := Sum(Mask(|ids| + 2, maxLen));
      2 <= n <= maxLen && Framed(ids, maxLen, bos, eos)[1..n - 1] == ids &&
      Framed(ids, maxLen, bos, eos)[0] == bos && Framed(ids, maxLen, bos, eos)[n - 1] == eos
  {
    MaskSum(|ids| + 2, maxLen);
  }

  /** The two arrays format_sentence returns, or None, or the error. */
  function Format(s: Sentence, tokenizer: Option<string -> seq<string>>, vocab: Vocab, maxLen: nat, asWritten: bool): Result<Option<(seq<int>, seq<int>)>>
    requires maxLen >= 2
    requires tokenizer.None? ==> s.IdList?
  {
    match TokenIds(s, tokenizer, vocab, maxLen, asWritten)
    case Err(e) => Err(e)
    case Ok(None) => Ok(None)
    case Ok(Some(ids)) =>
      if |ids| + 2 <= maxLen then Ok(Some((Framed(ids, maxLen, vocab.bos, vocab.eos), Mask(|ids| + 2, maxLen))))
      // the slice assignment fits but writing EOS at index maxLen fails
      else if |ids| + 1 == maxLen then Err(IndexError)
      // the ids do not fit into sentence[1:]
      else Err(ValueError)
  }

  /** The promises of format_sentence with a tokenizer: None exactly when
      a string tokenizes to nothing; otherwise both arrays have maxLen
      entries, the ids are the first maxLen - 2 ids of the trimmed tokens,
      framed by BOS and EOS, and the mask covers exactly them and the two
      sentinels. */
  lemma {:induction false} FormatWithTokenizer(s: Sentence, tok: string -> seq<string>, vocab: Vocab, maxLen: nat)
    requires maxLen >= 2
    ensures var f := Format(s, Some(tok), vocab, maxLen, false);
      (f == Ok(None) <==> s.Str? && tok(s.text) == []) &&
      (f.Err? ==> f.error == IndexError)
    ensures var f := Format(s, Some(tok), vocab, maxLen, false);
      f.Ok? && f.value.Some? ==>
        var ids := TokenIds(s, Some(tok), vocab, maxLen, false).value.value;
        |ids| <= maxLen - 2 &&
        |f.value.value.0| == maxLen && |f.value.value.1| == maxLen &&
        f.value.value.0 == [vocab.bos] + ids + [vocab.eos] + Zeros(maxLen - |ids| - 2) &&
        (forall i :: 0 <= i < maxLen ==> (f.value.value.1[i] == 1 <==> i < |ids| + 2)) &&
        (forall i :: 0 <= i < maxLen ==> f.value.value.1[i] in {0, 1})
    ensures s.TokenList? && |s.tokens| > 0 && Trimmed(s.tokens, maxLen).Ok? ==>
      TokenIds(s, Some(tok), vocab, maxLen, false) ==
        Ok(Some(Take(vocab.words2id(Trimmed(s.tokens, maxLen).value), maxLen - 2)))
    ensures s.IdList? && |s.ids| > 0 ==>
      TokenIds(s, Some(tok), vocab, maxLen, false) == Ok(Some(Take(s.ids, maxLen - 2)))
  {
    match s {
      case Str(text) => PopPunctProperties(tok(text));
      case TokenList(ts) => PopPunctProperties(ts);
      case IdList(_) =>
    }
    var t := TokenIds(s, Some(tok), vocab, maxLen, false);
    if t.Ok? && t.value.Some? {
      FramedShape(t.value.value, maxLen, vocab.bos, vocab.eos);
    }
  }

  /** As written, an id list with a tokenizer never gets its ids laid out. */
  lemma {:induction false} IdListWithTokenizerFails(ids: seq<int>, tok: string -> seq<string>, vocab: Vocab, maxLen: nat)
    requires maxLen >= 2 && |ids| > 0
    ensures Format(IdList(ids), Some(tok), vocab, maxLen, true) == Err(NameError)
    ensures Format(IdList(ids), Some(tok), vocab, maxLen, false).Ok?
  {
  }

  /** numpy.zeros followed by the element and slice assignments. */
  method Layout(ids: seq<int>, maxLen: nat, bos: int, eos: int) returns (sentence: array<int>, mask: array<int>)
    requires |ids| + 2 <= maxLen
    ensures sentence[..] == Framed(ids, maxLen, bos, eos)
    ensures mask[..] == Mask(|ids| + 2, maxLen)
  {
    sentence := new int[maxLen](_ => 0);
    mask := new int[maxLen](_ => 0);
    var seqLen := |ids| + 2;
    sentence[0] := bos;
    for k := 0 to |ids|
      invariant sentence[0] == bos
      invariant forall i :: 1 <= i <= k ==> sentence[i] == ids[i - 1]
      invariant forall i :: k < i < maxLen ==> sentence[i] == 0
      invariant forall i :: 0 <= i < maxLen ==> mask[i] == 0
    {
      sentence[k + 1] := ids[k];
    }
    sentence[seqLen - 1] := eos;
    assert sentence[..] == Framed(ids, maxLen, bos, eos);
    for k := 0 to seqLen
      invariant sentence[..] == Framed(ids, maxLen, bos, eos)
      invariant forall i :: 0 <= i < k ==> mask[i] == 1
      invariant forall i :: k <= i < maxLen ==> mask[i] == 0
    {
      mask[k] := 1;
    }
    assert mask[..] == Mask(seqLen, maxLen);
  }

  /** The contents of what FormatSentence returns. */
  function Contents(r: Result<Option<(array<int>, array<int>)>>): Result<Option<(seq<int>, seq<int>)>>
    reads if r.Ok? && r.value.Some? then {r.value.value.0, r.value.value.1} else {}
  {
    match r
    case Err(e) => Err(e)
    case Ok(None) => Ok(None)
    case Ok(Some((a, m))) => Ok(Some((a[..], m[..])))
  }

  /** format_sentence, with id lists handled the way the source evidently
      means them to be. */
  method FormatSentence(s: Sentence, tokenizer: Option<string -> seq<string>>, vocab: Vocab, maxLen: nat)
    returns (r: Result<Option<(array<int>, array<int>)>>)
    requires maxLen >= 2
    requires tokenizer.None? ==> s.IdList?
    ensures Contents(r) == Format(s, tokenizer, vocab, maxLen, false)
  {
    var ids: seq<int>;
    if tokenizer.None? {
      ids := s.ids;
    } else {
      var tokens: seq<string>;
      if s.Str? {
        tokens := tokenizer.value(s.text);
        if |tokens| < 1 {
          return Ok(None);
        }
        if |s.text| == 0 {
          return Err(IndexError);
        }
      } else if s.TokenList? {
        tokens := s.tokens;
        if |tokens| == 0 {
          return Err(IndexError);
        }
      } else {
        if |s.ids| == 0 {
          return Err(IndexError);
        }
        tokens := [];
      }
      if !s.IdList? {
        if |tokens| > maxLen - 2 {
          var popped := PopTrailingPunctuation(tokens);
          if popped.Err? {
            return Err(popped.error);
          }
          if |popped.value| >= 1 {
            tokens := popped.value;
          }
        }
        ids := vocab.words2id(tokens);
      } else {
        ids := s.ids;
      }
      ids := Take(ids, maxLen - 2);
    }
    if |ids| + 2 > maxLen {
      return if |ids| + 1 == maxLen then Err(IndexError) else Err(ValueError);
    }
    var sentence, mask := Layout(ids, maxLen, vocab.bos, vocab.eos);
    return Ok(Some((sentence, mask)));
  }

  // ---------------------------------------------------------------------
  // Tokenizer_Base.tokens2sentence and Tokenizer_BERT.tokens2sentence
  // ---------------------------------------------------------------------

  /** " ".join(tokens) */
  function Tokens2Sentence(tokens: seq<string>): string {
    Join(" ", tokens)
  }

  /** Splitting the sentence at blanks gives the tokens back when no token
      holds a blank. */
  lemma {:induction false} Tokens2SentenceSplit(tokens: seq<string>)
    requires |tokens| >= 1
    requires forall t :: t in tokens ==> ' ' !in t
    ensures Split(Tokens2Sentence(tokens), ' ') == tokens
  {
    SplitJoin(' ', tokens);
  }

  /** A WordPiece continuation: a token after the first that starts with ##. */
  predicate Continues(tokens: seq<string>, i: nat)
    requires i < |tokens|
  {
    i > 0 && StartsWith(tokens[i], "##")
  }

  /** The words the BERT join builds before joining them by blanks: a
      continuation piece, minus its ##, extends the previous word, any
      other token starts a new word. */
  function Words(tokens: seq<string>): (r: seq<string>)
    ensures |tokens| > 0 ==> |r| > 0
  {
    if |tokens| == 0 then []
    else
      var prev := Words(tokens[..|tokens| - 1]);
      var t := tokens[|tokens| - 1];
      if |tokens| > 1 && StartsWith(t, "##") then prev[..|prev| - 1] + [prev[|prev| - 1] + t[2..]]
      else prev + [t]
  }

  /** Each token with the ## of a continuation removed. */
  function Pieces(tokens: seq<string>): seq<string> {
    seq(|tokens|, i requires 0 <= i < |tokens| => if Continues(tokens, i) then tokens[i][2..] else tokens[i])
  }

  /** The number of tokens that start a word. */
  function Starts(tokens: seq<string>): nat {
    if |tokens| == 0 then 0
    else Starts(tokens[..|tokens| - 1]) + if Continues(tokens, |tokens| - 1) then 0 else 1
  }

  lemma {:induction false} ConcatSnoc(parts: seq<string>, p: string)
    ensures Concat(parts + [p]) == Concat(parts) + p
  {
    assert (parts + [p])[..|parts|] == parts;
  }

  lemma {:induction false} PiecesSnoc(tokens: seq<string>)
    requires |tokens| > 0
    ensures Pieces(tokens) == Pieces(tokens[..|tokens| - 1]) + [Pieces(tokens)[|tokens| - 1]]
  {
    var init := tokens[..|tokens| - 1];
    forall i | 0 <= i < |init|
      ensures Pieces(tokens)[i] == Pieces(init)[i]
    {
      assert Continues(tokens, i) == Continues(init, i);
    }
  }

  /** No character is lost or added: the words spell out the pieces. */
  lemma {:induction false} WordsSpellPieces(tokens: seq<string>)
    ensures Concat(Words(tokens)) == Concat(Pieces(tokens))
    decreases |tokens|
  {
    if |tokens| > 0 {
      var init := tokens[..|tokens| - 1];
      WordsSpellPieces(init);
      var t := tokens[|tokens| - 1];
      PiecesSnoc(tokens);
      ConcatSnoc(Pieces(init), Pieces(tokens)[|tokens| - 1]);
      if |tokens| > 1 && StartsWith(t, "##") {
        ConcatMergeLast(Words(init), t[2..]);
      } else {
        ConcatSnoc(Words(init), t);
      }
    }
  }

  /** Appending to the last part appends to the concatenation. */
  lemma {:induction false} ConcatMergeLast(parts: seq<string>, x: string)
    requires |parts| > 0
    ensures Concat(parts[..|parts| - 1] + [parts[|parts| - 1] + x]) == Concat(parts) + x
  {
    var front, last := parts[..|parts| - 1], parts[|parts| - 1];
    var merged := front + [last + x];
    var c := Concat(front);
    assert Concat(merged) == c + (last + x) by {
      assert merged[..|merged| - 1] == front;
    }
    assert Concat(parts) == c + last;
    assert c + (last + x) == (c + last) + x;
  }

  lemma {:induction false} WordsCount(tokens: seq<string>)
    ensures |Words(tokens)| == Starts(tokens)
    decreases |tokens|
  {
    if |tokens| > 0 {
      WordsCount(tokens[..|tokens| - 1]);
    }
  }

  /** The WordPiece form of one word given as its pieces: the first piece
      as it is, the others behind ##. */
  function WordTokens(p: seq<string>): seq<string>
    requires |p| > 0
  {
    [p[0]] + seq(|p| - 1, k requires 0 <= k < |p| - 1 => "##" + p[k + 1])
  }

  function Encode(words: seq<seq<string>>): seq<string>
    requires forall w :: w in words ==> |w| > 0
  {
    if |words| == 0 then [] else Encode(words[..|words| - 1]) + WordTokens(words[|words| - 1])
  }

  lemma {:induction false} WordsExtend(ts: seq<string>, p: seq<string>, m: nat)
    requires 1 <= m <= |p|
    requires !StartsWith(p[0], "##")
    ensures Words(ts + WordTokens(p)[..m]) == Words(ts) + [Concat(p[..m])]
    decreases m
  {
    var wt := WordTokens(p);
    if m == 1 {
      var tokens := ts + wt[..1];
      assert tokens == ts + [p[0]];
      assert tokens[..|tokens| - 1] == ts;
      assert tokens[|tokens| - 1] == p[0];
      assert Words(tokens) == Words(ts) + [p[0]];
      assert p[..1] == [] + [p[0]];
      ConcatSnoc([], p[0]);
      assert Concat(p[..1]) == p[0];
    } else {
      WordsExtend(ts, p, m - 1);
      var full := ts + wt[..m];
      assert full[..|full| - 1] == ts + wt[..m - 1];
      assert full[|full| - 1] == "##" + p[m - 1];
      assert ("##" + p[m - 1])[..2] == "##";
      assert ("##" + p[m - 1])[2..] == p[m - 1];
      assert p[..m][..m - 1] == p[..m - 1];
    }
  }

  /** Round trip: words cut into WordPiece tokens and joined back by
      tokens2sentence give the words joined by blanks. */
  lemma {:induction false} WordsDecode(words: seq<seq<string>>)
    requires forall w :: w in words ==> |w| > 0 && !StartsWith(w[0], "##")
    ensures |Words(Encode(words))| == |words|
    ensures forall i :: 0 <= i < |words| ==> Words(Encode(words))[i] == Concat(words[i])
    decreases |words|
  {
    if |words| > 0 {
      var init := words[..|words| - 1];
      var w := words[|words| - 1];
      var prev := Words(Encode(init));
      assert |prev| == |init| && forall i :: 0 <= i < |init| ==> prev[i] == Concat(init[i]) by {
        assert forall v :: v in init ==> v in words;
        WordsDecode(init);
      }
      assert Words(Encode(words)) == prev + [Concat(w)] by {
        assert Encode(words) == Encode(init) + WordTokens(w);
        WordsExtend(Encode(init), w, |w|);
        assert WordTokens(w)[..|w|] == WordTokens(w);
        assert w[..|w|] == w;
      }
      SpelledSnoc(Words(Encode(words)), prev, words);
    }
  }

  /** The pointwise spelling of words extends by its last word. */
  lemma {:induction false} SpelledSnoc(r: seq<string>, prev: seq<string>, words: seq<seq<string>>)
    requires |words| > 0 && |prev| == |words| - 1
    requires forall i :: 0 <= i < |prev| ==> prev[i] == Concat(words[..|words| - 1][i])
    requires r == prev + [Concat(words[|words| - 1])]
    ensures |r| == |words|
    ensures forall i :: 0 <= i < |words| ==> r[i] == Concat(words[i])
  {
    forall i | 0 <= i < |words|
      ensures r[i] == Concat(words[i])
    {
      if i < |prev| {
        assert r[i] == prev[i];
        assert words[..|words| - 1][i] == words[i];
      }
    }
  }

  /** Without continuation pieces the BERT join is the plain join. */
  lemma {:induction false} WordsPlain(tokens: seq<string>)
    requires forall i :: 0 < i < |tokens| ==> !StartsWith(tokens[i], "##")
    ensures Words(tokens) == tokens
    decreases |tokens|
  {
    if |tokens| > 0 {
      WordsPlain(tokens[..|tokens| - 1]);
    }
  }

  /** Tokenizer_BERT.tokens2sentence: new_tokens grows by append or by
      extending its last word. */
  method BertTokens2Sentence(tokens: seq<string>) returns (r: string)
    ensures r == Tokens2Sentence(Words(tokens))
  {
    var newTokens: seq<string> := [];
    for i := 0 to |tokens|
      invariant newTokens == Words(tokens[..i])
    {
      var t := tokens[i];
      assert tokens[..i + 1][..i] == tokens[..i];
      if i > 0 && StartsWith(t, "##") {
        newTokens := newTokens[|newTokens| - 1 := newTokens[|newTokens| - 1] + t[2..]];
      } else {
        newTokens := newTokens + [t];
      }
    }
    assert tokens[..|tokens|] == tokens;
    r := Join(" ", newTokens);
  }

  // ---------------------------------------------------------------------
  // Tokenizer_Char.seg
  // ---------------------------------------------------------------------

  /** What s.strip().lower() leaves of one character: nothing for a
      blank, else the character lower-cased. */
  function CharPiece(c: char): string {
    if IsSpace(c) then [] else [LowerChar(c)]
  }

  lemma {:induction false} CharPieceShape(c: char)
    ensures Lower(Strip([c])) == CharPiece(c)
  {
    if IsSpace(c) {
      StripEmpty([c]);
    } else {
      StripStripped([c]);
    }
  }

  /** The characters of a sentence kept by the character segmenter. */
  function CharTokens(s: string, stopwords: set<string>, removeStopwords: bool): seq<string> {
    if |s| == 0 then []
    else
      var prev := CharTokens(s[..|s| - 1], stopwords, removeStopwords);
      var piece := CharPiece(s[|s| - 1]);
      if |piece| < 1 || (removeStopwords && piece in stopwords) then prev else prev + [piece]
  }

  /** The non-blank characters of s. */
  function NonBlank(s: string): string {
    if |s| == 0 then []
    else NonBlank(s[..|s| - 1]) + if IsSpace(s[|s| - 1]) then [] else [s[|s| - 1]]
  }

  lemma {:induction false} LowerSnoc(s: string, c: char)
    ensures Lower(s + [c]) == Lower(s) + [LowerChar(c)]
  {
  }

  /** Every token is one lower-case non-blank character, never a stopword
      when stopwords are removed. */
  lemma {:induction false} CharTokensShape(s: string, stopwords: set<string>, removeStopwords: bool)
    ensures forall t :: t in CharTokens(s, stopwords, removeStopwords) ==>
      (|t| == 1 && !IsSpace(t[0]) && IsLower(t) && (removeStopwords ==> t !in stopwords))
    decreases |s|
  {
    if |s| > 0 {
      CharTokensShape(s[..|s| - 1], stopwords, removeStopwords);
      LowerProperties([s[|s| - 1]]);
    }
  }

  /** Without stopword removal there is one token per non-blank
      character. */
  lemma {:induction false} CharTokensCount(s: string, stopwords: set<string>)
    ensures |CharTokens(s, stopwords, false)| == |NonBlank(s)|
    decreases |s|
  {
    if |s| > 0 {
      var init := s[..|s| - 1];
      CharTokensCount(init, stopwords);
    }
  }

  /** Without stopword removal the tokens spell out the lower-cased
      non-blank characters. */
  lemma {:induction false} CharTokensSpell(s: string, stopwords: set<string>)
    ensures Concat(CharTokens(s, stopwords, false)) == Lower(NonBlank(s))
    decreases |s|
  {
    if |s| > 0 {
      var init := s[..|s| - 1];
      var c := s[|s| - 1];
      CharTokensSpell(init, stopwords);
      var prev := CharTokens(init, stopwords, false);
      if !IsSpace(c) {
        assert CharTokens(s, stopwords, false) == prev + [[LowerChar(c)]];
        assert NonBlank(s) == NonBlank(init) + [c];
        ConcatSnoc(prev, [LowerChar(c)]);
        LowerSnoc(NonBlank(init), c);
      } else {
        assert CharTokens(s, stopwords, false) == prev;
        assert NonBlank(s) == NonBlank(init);
      }
    }
  }

  /** Tokenizer_Char.seg: one pass over the characters, appending. */
  method CharSeg(sentence: string, stopwords: set<string>, removeStopwords: bool) returns (tokens: seq<string>)
    ensures tokens == CharTokens(sentence, stopwords, removeStopwords)
  {
    tokens := [];
    for i := 0 to |sentence|
      invariant tokens == CharTokens(sentence[..i], stopwords, removeStopwords)
    {
      assert sentence[..i + 1][..i] == sentence[..i];
      var s := Lower(Strip([sentence[i]]));
      CharPieceShape(sentence[i]);
      if |s| < 1 {
        continue;
      }
      if removeStopwords && s in stopwords {
        continue;
      }
      tokens := tokens + [s];
    }
    assert sentence[..|sentence|] == sentence;
  }

  // ---------------------------------------------------------------------
  // Tokenizer_Simple.seg
  // ---------------------------------------------------------------------

  /** [s.lower() for s in pieces if len(s) > 0] */
  function LowerPieces(pieces: seq<string>): seq<string> {
    if |pieces| == 0 then []
    else
      var prev := LowerPieces(pieces[..|pieces| - 1]);
      var p := pieces[|pieces| - 1];
      if |p| > 0 then prev + [Lower(p)] else prev
  }

  /** [s for s in tokens if s not in stopwords] */
  function Unstopped(tokens: seq<string>, stopwords: set<string>): seq<string> {
    if |tokens| == 0 then []
    else
      var prev := Unstopped(tokens[..|tokens| - 1], stopwords);
      var t := tokens[|tokens| - 1];
      if t !in stopwords then prev + [t] else prev
  }

  /** The tokens of the regex segmenter, given the pieces re.split cuts
      the sentence into. */
  function SimpleTokens(pieces: seq<string>, stopwords: set<string>, removeStopwords: bool): seq<string> {
    var tokens := LowerPieces(pieces);
    if removeStopwords then Unstopped(tokens, stopwords) else tokens
  }

  /** Every token is a non-empty lower-case string, the lowering of some
      piece. */
  lemma {:induction false} LowerPiecesShape(pieces: seq<string>)
    ensures forall t :: t in LowerPieces(pieces) ==> |t| > 0 && IsLower(t) && exists p :: p in pieces && Lower(p) == t
    decreases |pieces|
  {
    if |pieces| > 0 {
      var init := pieces[..|pieces| - 1];
      var p := pieces[|pieces| - 1];
      LowerPiecesShape(init);
      forall t | t in LowerPieces(pieces)
        ensures |t| > 0 && IsLower(t) && exists q :: q in pieces && Lower(q) == t
      {
        if t in LowerPieces(init) {
          var q :| q in init && Lower(q) == t;
          assert q in pieces;
        } else {
          assert t == Lower(p) && p in pieces;
        }
      }
    }
  }

  /** No more tokens than pieces. */
  lemma {:induction false} LowerPiecesCount(pieces: seq<string>)
    ensures |LowerPieces(pieces)| <= |pieces|
    decreases |pieces|
  {
    if |pieces| > 0 {
      LowerPiecesCount(pieces[..|pieces| - 1]);
    }
  }

  /** Pieces that are already non-empty and lower-case pass unchanged. */
  lemma {:induction false} LowerPiecesFixed(pieces: seq<string>)
    requires forall p :: p in pieces ==> |p| > 0 && IsLower(p)
    ensures LowerPieces(pieces) == pieces
    decreases |pieces|
  {
    if |pieces| > 0 {
      var init := pieces[..|pieces| - 1];
      var p := pieces[|pieces| - 1];
      assert forall q :: q in init ==> q in pieces;
      LowerPiecesFixed(init);
      LowerProperties(p);
      assert pieces == init + [p];
    }
  }

  lemma {:induction false} UnstoppedProperties(tokens: seq<string>, stopwords: set<string>)
    ensures forall t :: t in Unstopped(tokens, stopwords) <==> t in tokens && t !in stopwords
    ensures (forall t :: t in tokens ==> t !in stopwords) ==> Unstopped(tokens, stopwords) == tokens
    decreases |tokens|
  {
    if |tokens| > 0 {
      UnstoppedProperties(tokens[..|tokens| - 1], stopwords);
      assert tokens == tokens[..|tokens| - 1] + [tokens[|tokens| - 1]];
    }
  }

  /** Every token is a non-empty lower-cased piece, never a stopword when
      stopwords are removed; segmenting the tokens once more changes
      nothing. */
  lemma {:induction false} SimpleTokensProperties(pieces: seq<string>, stopwords: set<string>, removeStopwords: bool)
    ensures var r := SimpleTokens(pieces, stopwords, removeStopwords);
      forall t :: t in r ==> (|t| > 0 && IsLower(t) && (removeStopwords ==> t !in stopwords) &&
        exists p :: p in pieces && Lower(p) == t)
    ensures var r := SimpleTokens(pieces, stopwords, removeStopwords);
      SimpleTokens(r, stopwords, removeStopwords) == r
  {
    var lowered := LowerPieces(pieces);
    LowerPiecesShape(pieces);
    UnstoppedProperties(lowered, stopwords);
    var r := SimpleTokens(pieces, stopwords, removeStopwords);
    assert forall t :: t in r ==> t in lowered;
    LowerPiecesFixed(r);
    UnstoppedProperties(r, stopwords);
  }

  // ---------------------------------------------------------------------
  // Tokenizer_Rest.seg
  // ---------------------------------------------------------------------

  /** The optional filters of Tokenizer_Rest.seg. */
  datatype RestFilters = RestFilters(
    removeStopwords: bool,
    tags: Option<set<string>>,
    entities: Option<set<string>>,
    pos: Option<set<string>>,
    dep: Option<set<string>>)

  /** ner_name_replace applied to one entity name. */
  function Rename(rename: map<string, string>, e: string): string {
    if e in rename then rename[e] else e
  }

  /** The REST answer lists every key in parallel with its tokens. */
  predicate Parallel(data: map<string, seq<string>>) {
    "tokens" in data && forall k :: k in data ==> |data[k]| >= |data["tokens"]|
  }

  /** A filter on `key` lets index i through: it is unset or the key is
      absent, or the value at i is allowed. */
  predicate Passes(data: map<string, seq<string>>, key: string, filter: Option<set<string>>, i: nat)
    requires Parallel(data) && i < |data["tokens"]|
  {
    filter.None? || key !in data || data[key][i] in filter.value
  }

  /** Index i of the REST answer is kept: not a stopword, and through the
      tag, part-of-speech, dependency and (renamed) entity filters. */
  predicate Keep(data: map<string, seq<string>>, stopwords: set<string>, rename: map<string, string>, f: RestFilters, i: nat)
    requires Parallel(data) && i < |data["tokens"]|
  {
    !(f.removeStopwords && data["tokens"][i] in stopwords) &&
    Passes(data, "tags", f.tags, i) && Passes(data, "pos", f.pos, i) && Passes(data, "dep", f.dep, i) &&
    ("entities" in data && f.entities.Some? ==> Rename(rename, data["entities"][i]) in f.entities.value)
  }

  /** What is appended for key k at index i: the entity name after
      renaming, any other value as it is. */
  function Value(data: map<string, seq<string>>, rename: map<string, string>, k: string, i: nat): string
    requires Parallel(data) && k in data && i < |data["tokens"]|
  {
    if k == "entities" then Rename(rename, data[k][i]) else data[k][i]
  }

  /** One kept index: each key's list gets that key's value at i. */
  function AppendRow(m: map<string, seq<string>>, data: map<string, seq<string>>, rename: map<string, string>, i: nat): (r: map<string, seq<string>>)
    requires Parallel(data) && i < |data["tokens"]| && m.Keys == data.Keys
    ensures r.Keys == m.Keys
  {
    map k | k in m :: m[k] + [Value(data, rename, k, i)]
  }

  /** filtereddata after the first n indices. */
  function RestUpTo(data: map<string, seq<string>>, stopwords: set<string>, rename: map<string, string>, f: RestFilters, n: nat): (r: map<string, seq<string>>)
    requires Parallel(data) && n <= |data["tokens"]|
    ensures r.Keys == data.Keys
  {
    if n == 0 then map k | k in data :: []
    else
      var prev := RestUpTo(data, stopwords, rename, f, n - 1);
      if Keep(data, stopwords, rename, f, n - 1) then AppendRow(prev, data, rename, n - 1) else prev
  }

  /** The kept indices below n, in order. */
  function Kept(data: map<string, seq<string>>, stopwords: set<string>, rename: map<string, string>, f: RestFilters, n: nat): (r: seq<nat>)
    requires Parallel(data) && n <= |data["tokens"]|
    ensures forall j :: 0 <= j < |r| ==> r[j] < n
  {
    if n == 0 then []
    else Kept(data, stopwords, rename, f, n - 1) + if Keep(data, stopwords, rename, f, n - 1) then [n - 1] else []
  }

  /** The kept indices are increasing, and i is among them exactly when
      it passes every filter. */
  lemma {:induction false} KeptIndices(data: map<string, seq<string>>, stopwords: set<string>, rename: map<string, string>, f: RestFilters, n: nat)
    requires Parallel(data) && n <= |data["tokens"]|
    ensures var r := Kept(data, stopwords, rename, f, n);
      (forall a, b :: 0 <= a < b < |r| ==> r[a] < r[b]) &&
      forall i :: 0 <= i < n ==> (i in r <==> Keep(data, stopwords, rename, f, i))
    decreases n
  {
    if n > 0 {
      KeptIndices(data, stopwords, rename, f, n - 1);
    }
  }

  /** Each key's list holds that key's values at the given indices. */
  predicate Rows(r: map<string, seq<string>>, data: map<string, seq<string>>, rename: map<string, string>, kept: seq<nat>)
    requires Parallel(data) && forall j :: 0 <= j < |kept| ==> kept[j] < |data["tokens"]|
  {
    r.Keys == data.Keys &&
    forall k :: k in r ==> (|r[k]| == |kept| &&
      forall j :: 0 <= j < |kept| ==> r[k][j] == Value(data, rename, k, kept[j]))
  }

  /** Every key's output list holds that key's (renamed) values at exactly
      the kept indices, so all output lists have the same length. */
  lemma {:induction false} RestUpToKept(data: map<string, seq<string>>, stopwords: set<string>, rename: map<string, string>, f: RestFilters, n: nat)
    requires Parallel(data) && n <= |data["tokens"]|
    ensures Rows(RestUpTo(data, stopwords, rename, f, n), data, rename, Kept(data, stopwords, rename, f, n))
    decreases n
  {
    if n > 0 {
      RestUpToKept(data, stopwords, rename, f, n - 1);
      var prev := RestUpTo(data, stopwords, rename, f, n - 1);
      var keptPrev := Kept(data, stopwords, rename, f, n - 1);
      var r := RestUpTo(data, stopwords, rename, f, n);
      var kept := Kept(data, stopwords, rename, f, n);
      if Keep(data, stopwords, rename, f, n - 1) {
        assert kept == keptPrev + [n - 1];
        forall k | k in r
          ensures |r[k]| == |kept| && forall j :: 0 <= j < |kept| ==> r[k][j] == Value(data, rename, k, kept[j])
        {
          assert r[k] == prev[k] + [Value(data, rename, k, n - 1)];
          assert |prev[k]| == |keptPrev|;
          forall j | 0 <= j < |kept|
            ensures r[k][j] == Value(data, rename, k, kept[j])
          {
            if j < |keptPrev| {
              assert r[k][j] == prev[k][j];
            }
          }
        }
      } else {
        assert kept == keptPrev && r == prev;
      }
    }
  }

  /** The skip conditions of one index, tested in the source's order. */
  method KeepAt(data: map<string, seq<string>>, stopwords: set<string>, rename: map<string, string>, f: RestFilters, i: nat)
    returns (keep: bool)
    requires Parallel(data) && i < |data["tokens"]|
    ensures keep == Keep(data, stopwords, rename, f, i)
  {
    if f.removeStopwords && data["tokens"][i] in stopwords {
      return false;
    }
    if f.tags.Some? && "tags" in data && data["tags"][i] !in f.tags.value {
      return false;
    }
    if f.pos.Some? && "pos" in data && data["pos"][i] !in f.pos.value {
      return false;
    }
    if f.dep.Some? && "dep" in data && data["dep"][i] !in f.dep.value {
      return false;
    }
    if "entities" in data {
      var entity := Rename(rename, data["entities"][i]);
      if f.entities.Some? && entity !in f.entities.value {
        return false;
      }
    }
    return true;
  }

  /** Tokenizer_Rest.seg on the REST answer `data`: KeyError without a
      token list, otherwise each kept index appends one value per key. */
  method RestSeg(data: map<string, seq<string>>, stopwords: set<string>, rename: map<string, string>, f: RestFilters)
    returns (r: Result<map<string, seq<string>>>)
    requires "tokens" in data ==> Parallel(data)
    ensures r.Err? <==> "tokens" !in data
    ensures r.Err? ==> r.error == KeyError
    ensures r.Ok? ==> r.value == RestUpTo(data, stopwords, rename, f, |data["tokens"]|)
  {
    var filtered: map<string, seq<string>> := map k | k in data :: [];
    if "tokens" !in data {
      return Err(KeyError);
    }
    var tokens := data["tokens"];
    for i := 0 to |tokens|
      invariant filtered == RestUpTo(data, stopwords, rename, f, i)
    {
      var keep := KeepAt(data, stopwords, rename, f, i);
      ghost var next := RestUpTo(data, stopwords, rename, f, i + 1);
      assert next == if keep then AppendRow(filtered, data, rename, i) else filtered;
      if keep {
        filtered := AppendRow(filtered, data, rename, i);
      }
    }
    return Ok(filtered);
  }

  // ---------------------------------------------------------------------
  // Tokenizer.__new__
  // ---------------------------------------------------------------------

  datatype Backend = CoreNLP | Spacy | Jieba | LTP | Mecab | Simple | Bert | GPT2 | Char | Rest(url: string)

  /** The table of backend names. */
  function Known(name: string): Option<Backend> {
    if name == "corenlp" then Some(CoreNLP)
    else if name == "spacy" then Some(Spacy)
    else if name == "jieba" then Some(Jieba)
    else if name == "ltp" then Some(LTP)
    else if name == "mecab" then Some(Mecab)
    else if name == "simple" then Some(Simple)
    else if name == "bert" then Some(Bert)
    else if name == "gpt2" then Some(GPT2)
    else if name == "char" then Some(Char)
    else None
  }

  /** The dispatch as written: the REST class is built without its URL,
      which its constructor requires, so every REST name fails. */
  function DispatchAsWritten(name: string): Result<Backend> {
    if Known(name).Some? then Ok(Known(name).value)
    else if Contains(name, "http") then Err(TypeError)
    else Ok(Simple)
  }

  /** The dispatch with the name handed to the REST class as its URL. */
  function Dispatch(name: string): Backend {
    if Known(name).Some? then Known(name).value
    else if Contains(name, "http") then Rest(name)
    else Simple
  }

  /** A known name selects its class, a REST name selects REST with that
      name as URL, and anything else falls back to the regex tokenizer;
      the written dispatch agrees except that it fails on REST names. */
  lemma {:induction false} DispatchProperties(name: string)
    ensures Known(name).Some? ==> Dispatch(name) == Known(name).value && !Dispatch(name).Rest?
    ensures Dispatch(name).Rest? <==> Known(name).None? && Contains(name, "http")
    ensures Dispatch(name).Rest? ==> Dispatch(name).url == name
    ensures Known(name).None? && !Contains(name, "http") ==> Dispatch(name) == Simple
    ensures DispatchAsWritten(name).Ok? ==> DispatchAsWritten(name).value == Dispatch(name)
    ensures DispatchAsWritten(name).Err? <==> Dispatch(name).Rest?
  {
  }

  /** A REST URL makes the written dispatch fail. */
  lemma {:induction false} RestNameFails()
    ensures DispatchAsWritten("http://localhost") == Err(TypeError)
    ensures Dispatch("http://localhost") == Rest("http://localhost")
  {
    assert StartsWith("http://localhost", "http");
  }
}
