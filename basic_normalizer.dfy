/**
 * The rule-based normalizer's preprocessing pipeline: optional lowercasing,
 * tone normalization, spacing around emoji, tokenization, splitting of
 * emoji-bearing tokens, and a join of the tokens that are not blank.
 */
module BasicNormalizer {
  import opened Preprocessing

  /**
   * What the pipeline takes from the regular-expression module: the tone
   * dictionary, the emoji list, the protected pattern, the emoji pattern,
   * and the edge-punctuation splitter; `lowerChar` is what `str.lower`
   * does to one character.
   */
  datatype Resources = Resources(
    lowerChar: char -> char,
    toneMap: ToneMap,
    emojis: seq<string>,
    protectedPattern: Pattern,
    emojiPattern: Pattern,
    edgePunct: string -> string)

  /** `text.lower()`, character by character. */
  function Lower(text: string, lowerChar: char -> char): (r: string)
    ensures |r| == |text|
    ensures forall i :: 0 <= i < |text| ==> r[i] == lowerChar(text[i])
  {
    seq(|text|, i requires 0 <= i < |text| => lowerChar(text[i]))
  }

  /** `filter(str.strip, tokens)`: the tokens that are not whitespace only, in order. */
  function Kept(tokens: seq<string>): (r: seq<string>)
    ensures |r| <= |tokens|
    ensures forall k :: 0 <= k < |r| ==> !IsBlank(r[k])
    decreases |tokens|
  {
    if tokens == [] then []
    else if IsBlank(tokens[0]) then Kept(tokens[1..])
    else [tokens[0]] + Kept(tokens[1..])
  }

  /** `' '.join(words)`. */
  function Join(words: seq<string>): string
    decreases |words|
  {
    if words == [] then ""
    else if |words| == 1 then words[0]
    else words[0] + " " + Join(words[1..])
  }

  /** The tokens before the final filter and join, one stage after the other. */
  function Tokens(text: string, lowercase: bool, res: Resources): seq<string> {
    var lowered := if lowercase then Lower(text, res.lowerChar) else text;
    var toned := ToneNormalized(lowered, res.toneMap);
    var spaced := SplitEmojiText(toned, res.emojis);
    var tokens := SimpleTokenized(spaced, [res.protectedPattern], res.emojiPattern, res.edgePunct);
    SplitEmojiWords(tokens, res.emojis)
  }

  /** `basic_preprocess`. */
  function BasicPreprocess(text: string, lowercase: bool, res: Resources): string {
    Join(Kept(Tokens(text, lowercase, res)))
  }

  // ---------------------------------------------------------------------
  // Filter and join
  // ---------------------------------------------------------------------

  /** The filter keeps exactly the tokens that are not blank. */
  lemma {:induction false} KeptIsEmptyIffAllBlank(tokens: seq<string>)
    ensures Kept(tokens) == [] <==> forall k :: 0 <= k < |tokens| ==> IsBlank(tokens[k])
    decreases |tokens|
  {
    if tokens != [] {
      KeptIsEmptyIffAllBlank(tokens[1..]);
      assert forall k :: 1 <= k < |tokens| ==> tokens[k] == tokens[1..][k - 1];
    }
  }

  /** Tokens that are none of them blank all pass the filter. */
  lemma {:induction false} KeptOfNonBlank(tokens: seq<string>)
    requires forall k :: 0 <= k < |tokens| ==> !IsBlank(tokens[k])
    ensures Kept(tokens) == tokens
    decreases |tokens|
  {
    if tokens != [] {
      assert !IsBlank(tokens[0]);
      KeptOfNonBlank(tokens[1..]);
    }
  }

  /** Joining non-blank tokens gives the empty string exactly when there are none. */
  lemma JoinIsEmptyIffNoWords(words: seq<string>)
    requires forall k :: 0 <= k < |words| ==> !IsBlank(words[k])
    ensures Join(words) == "" <==> words == []
  {
    if words != [] {
      assert words[0] != "";
      assert |Join(words)| >= |words[0]| by {
        if |words| > 1 {
          assert Join(words) == words[0] + " " + Join(words[1..]);
        }
      }
    }
  }

  /** Joining words without whitespace by single spaces and splitting again gives the words back. */
  lemma {:induction false} SplitOfJoin(words: seq<string>)
    requires AllWords(words)
    ensures Split(Join(words)) == words
    decreases |words|
  {
    if words == [] {
      assert LStrip("") == "";
    } else if |words| == 1 {
      SplitOneWord(words[0]);
    } else {
      var w := words[0];
      var rest := Join(words[1..]);
      SplitOfJoin(words[1..]);
      SplitAfterWord(w, rest);
    }
  }

  /** A word followed by a space splits off as the first piece. */
  lemma SplitAfterWord(w: string, rest: string)
    requires w != "" && NoSpace(w)
    ensures Split(w + " " + rest) == [w] + Split(rest)
  {
    var s := w + " " + rest;
    assert LStrip(s) == s;
    WordLengthBeforeSpace(w, " " + rest);
    assert s == w + (" " + rest);
    SliceOfAppend(w, " " + rest, |w|);
    assert w[..|w|] == w;
    assert (" " + rest)[1..] == rest;
    assert LStrip(" " + rest) == LStrip(rest);
  }

  lemma {:induction false} WordLengthBeforeSpace(w: string, t: string)
    requires NoSpace(w) && t != "" && IsSpace(t[0])
    ensures WordLength(w + t) == |w|
    decreases |w|
  {
    if w == "" {
      assert w + t == t;
    } else {
      assert (w + t)[1..] == w[1..] + t;
      WordLengthBeforeSpace(w[1..], t);
    }
  }

  // ---------------------------------------------------------------------
  // The pipeline
  // ---------------------------------------------------------------------

  /** Lowercasing, when asked for, is done to the raw text before every other stage. */
  lemma LowercaseComesFirst(text: string, res: Resources)
    ensures BasicPreprocess(text, true, res) == BasicPreprocess(Lower(text, res.lowerChar), false, res)
  {
  }

  /** Without lowercasing, what `str.lower` would do is irrelevant. */
  lemma NoLowercaseIgnoresLowerChar(text: string, res: Resources, other: char -> char)
    ensures BasicPreprocess(text, false, res) == BasicPreprocess(text, false, res.(lowerChar := other))
  {
  }

  /** The output is empty exactly when every token the stages produce is blank. */
  lemma OutputIsEmptyIffAllTokensBlank(text: string, lowercase: bool, res: Resources)
    ensures var tokens := Tokens(text, lowercase, res);
            BasicPreprocess(text, lowercase, res) == "" <==> forall k :: 0 <= k < |tokens| ==> IsBlank(tokens[k])
  {
    var tokens := Tokens(text, lowercase, res);
    KeptIsEmptyIffAllBlank(tokens);
    JoinIsEmptyIffNoWords(Kept(tokens));
  }

  /**
   * When no token holds whitespace, splitting the output on whitespace
   * gives back exactly the non-empty tokens, in order: the join uses single
   * spaces and nothing else.
   */
  lemma OutputSplitsIntoKeptTokens(text: string, lowercase: bool, res: Resources)
    requires var tokens := Tokens(text, lowercase, res);
             forall k :: 0 <= k < |tokens| ==> NoSpace(tokens[k])
    ensures Split(BasicPreprocess(text, lowercase, res)) == Kept(Tokens(text, lowercase, res))
  {
    var kept := Kept(Tokens(text, lowercase, res));
    KeptHasWords(Tokens(text, lowercase, res));
    SplitOfJoin(kept);
  }

  lemma {:induction false} KeptHasWords(tokens: seq<string>)
    requires forall k :: 0 <= k < |tokens| ==> NoSpace(tokens[k])
    ensures AllWords(Kept(tokens))
    decreases |tokens|
  {
    if tokens != [] {
      KeptHasWords(tokens[1..]);
      if !IsBlank(tokens[0]) {
        assert tokens[0] != "";
        WordsCons(tokens[0], Kept(tokens[1..]));
      }
    }
  }

  /**
   * The empty string normalizes to the empty string, whatever the patterns
   * report, as long as edge-punctuation splitting leaves it empty and no
   * tone replacement is keyed by the empty string.
   */
  lemma EmptyTextNormalizesToEmpty(lowercase: bool, res: Resources)
    requires res.edgePunct("") == ""
    requires forall k :: 0 <= k < |res.toneMap| ==> res.toneMap[k].1 != ""
    ensures BasicPreprocess("", lowercase, res) == ""
  {
    assert Lower("", res.lowerChar) == "";
    ToneNormalizedFixesCleanText("", res.toneMap);
    var spans := BadSpans([res.protectedPattern] + [res.emojiPattern], "");
    NothingFromEmptyText(spans, |spans|);
  }

  /**
   * With no emoji list, patterns that match nothing and an edge-punctuation
   * step that changes nothing, the pipeline only collapses whitespace: the
   * output is the tone-normalized text's words joined by single spaces.
   */
  lemma PlainTextIsWhitespaceNormalized(text: string, res: Resources)
    requires res.emojis == []
    requires forall t :: res.protectedPattern(t) == [] && res.emojiPattern(t) == [] && res.edgePunct(t) == t
    ensures BasicPreprocess(text, false, res) == Join(Split(ToneNormalized(text, res.toneMap)))
  {
    var toned := ToneNormalized(text, res.toneMap);
    SplitEmojiTextWithoutEmoji(toned, []);
    var patterns := [res.protectedPattern] + [res.emojiPattern];
    assert patterns[..1] == [res.protectedPattern] && patterns[1] == res.emojiPattern;
    assert [res.protectedPattern][..0] == [];
    assert NonZeroWidth(res.protectedPattern(toned)) == [] && NonZeroWidth(res.emojiPattern(toned)) == [];
    assert BadSpans([res.protectedPattern], toned) == [] + NonZeroWidth(res.protectedPattern(toned));
    assert BadSpans(patterns, toned) == BadSpans([res.protectedPattern], toned) + NonZeroWidth(res.emojiPattern(toned));
    NoBadSpansMeansWhitespaceSplit(toned);
    var words := Split(toned);
    SplitYieldsWords(toned);
    SplitEmojiWordsWithoutEmoji(words, []);
    KeptOfNonBlank(words);
  }

  // ---------------------------------------------------------------------
  // An emoji glued between two words
  // ---------------------------------------------------------------------

  /**
   * An emoji glued between a word and the text after it is set apart by
   * single spaces, as `"Hello😊World!"` becomes `"Hello 😊 World !"`: the
   * tone map leaves the text alone, the emoji pattern finds the emoji, the
   * protected pattern finds nothing, and edge-punctuation splitting turns
   * what follows the emoji into `tail`.
   */
  lemma EmojiBetweenWordsIsSpacedOut(before: string, emoji: char, after: string, tail: string, res: Resources)
    requires before != "" && NoSpace(before) && !HasEmoji(before, res.emojis)
    requires IsEmoji(emoji, res.emojis) && !IsSpace(emoji) && !HasEmoji(after, res.emojis)
    requires tail != "" && IsStripped(tail)
    requires forall k :: 0 <= k < |Split(tail)| ==> !HasEmoji(Split(tail)[k], res.emojis)
    requires ToneNormalized(before + [emoji] + after, res.toneMap) == before + [emoji] + after
    requires res.edgePunct(before + " " + [emoji] + " " + after) == before + " " + [emoji] + " " + tail
    requires var t := before + " " + [emoji] + " " + tail;
             res.protectedPattern(t) == [] && res.emojiPattern(t) == [Match(|before| + 1, |before| + 2)]
    ensures BasicPreprocess(before + [emoji] + after, false, res)
            == before + " " + [emoji] + " " + Join(Split(tail))
  {
    var t := before + " " + [emoji] + " " + tail;
    var spans := [Match(|before| + 1, |before| + 2)];
    EmojiIsSpaced(before, emoji, after, res.emojis);
    EmojiBadSpans(t, spans, res.protectedPattern, res.emojiPattern);
    EmojiTokens(before, emoji, tail, spans);
    var tokens := [before] + [[emoji]] + Split(tail);
    EmojiWordsSplit(before, emoji, tail, res.emojis);
    EmojiTokensJoin(before, emoji, tail);
  }

  lemma EmojiIsSpaced(before: string, emoji: char, after: string, emojis: seq<string>)
    requires !HasEmoji(before, emojis) && IsEmoji(emoji, emojis) && !HasEmoji(after, emojis)
    ensures SplitEmojiText(before + [emoji] + after, emojis) == before + " " + [emoji] + " " + after
  {
    SplitEmojiTextWithoutEmoji(before, emojis);
    SplitEmojiTextWithoutEmoji(after, emojis);
    SplitEmojiTextAt(before, emoji, after, emojis);
    assert [' ', emoji, ' '] == " " + [emoji] + " ";
    SpacedOutRegroups(before, emoji, after);
  }

  lemma SpacedOutRegroups(before: string, emoji: char, after: string)
    ensures before + (" " + [emoji] + " ") + after == before + " " + [emoji] + " " + after
  {
    assert before + (" " + [emoji] + " ") == before + " " + [emoji] + " ";
  }

  lemma EmojiBadSpans(t: string, spans: seq<Match>, protectedPattern: Pattern, emojiPattern: Pattern)
    requires |spans| == 1 && spans[0].start < spans[0].end
    requires protectedPattern(t) == [] && emojiPattern(t) == spans
    ensures BadSpans([protectedPattern] + [emojiPattern], t) == spans
  {
    var patterns := [protectedPattern] + [emojiPattern];
    assert patterns[..1] == [protectedPattern] && patterns[1] == emojiPattern;
    assert [protectedPattern][..0] == [];
    NonZeroWidthKeepsWide(spans);
    assert BadSpans([protectedPattern], t) == [] + NonZeroWidth(protectedPattern(t));
    assert BadSpans(patterns, t) == BadSpans([protectedPattern], t) + NonZeroWidth(emojiPattern(t));
  }

  /** The text before, at and after the emoji's match. */
  lemma EmojiPieces(before: string, emoji: char, tail: string, spans: seq<Match>)
    requires spans == [Match(|before| + 1, |before| + 2)]
    ensures var t := before + " " + [emoji] + " " + tail;
            && GoodText(t, spans, 0) == before + " "
            && BadText(t, spans, 0) == [emoji]
            && GoodText(t, spans, 1) == " " + tail
  {
    var t := before + " " + [emoji] + " " + tail;
    var n := |before|;
    SliceInRange(t, 0, n + 1);
    SliceInRange(t, n + 1, n + 2);
    SliceInRange(t, n + 2, |t|);
    assert t == (before + " ") + [emoji] + (" " + tail);
  }

  lemma EmojiTokens(before: string, emoji: char, tail: string, spans: seq<Match>)
    requires before != "" && NoSpace(before) && !IsSpace(emoji)
    requires tail != "" && IsStripped(tail)
    requires spans == [Match(|before| + 1, |before| + 2)]
    ensures Tokenized(before + " " + [emoji] + " " + tail, spans) == [before] + [[emoji]] + Split(tail)
  {
    EmojiGoods(before, emoji, tail, spans);
    TokensOfOneSpan(before + " " + [emoji] + " " + tail, spans);
  }

  lemma EmojiGoods(before: string, emoji: char, tail: string, spans: seq<Match>)
    requires before != "" && NoSpace(before) && !IsSpace(emoji)
    requires tail != "" && IsStripped(tail)
    requires spans == [Match(|before| + 1, |before| + 2)]
    ensures var t := before + " " + [emoji] + " " + tail;
            && NonEmptyStripped(Goods(t, spans, 0)) == [before]
            && NonEmptyStripped([BadText(t, spans, 0)]) == [[emoji]]
            && NonEmptyStripped(Goods(t, spans, 1)) == Split(tail)
  {
    EmojiPieces(before, emoji, tail, spans);
    OneWordGood(before + " ", before);
    NoSpaceIsStripped([emoji]);
    NonEmptyStrippedKeepsCleanItems([[emoji]]);
    StrippedAfterSpace(tail);
    SplitYieldsWords(tail);
    NonEmptyStrippedKeepsClean(Split(tail));
  }

  lemma StrippedAfterSpace(s: string)
    requires s != "" && IsStripped(s)
    ensures Strip(" " + s) == s
  {
    assert (" " + s)[1..] == s;
    assert LStrip(" " + s) == s;
  }

  lemma EmojiWordsSplit(before: string, emoji: char, tail: string, emojis: seq<string>)
    requires !HasEmoji(before, emojis) && IsEmoji(emoji, emojis)
    requires forall k :: 0 <= k < |Split(tail)| ==> !HasEmoji(Split(tail)[k], emojis)
    ensures SplitEmojiWords([before] + [[emoji]] + Split(tail), emojis) == [before] + [[emoji]] + Split(tail)
  {
    var head := [before] + [[emoji]];
    SplitEmojiWordsAppend(head, Split(tail), emojis);
    SplitEmojiWordsWithoutEmoji(Split(tail), emojis);
    SplitEmojiWordsWithoutEmoji([before], emojis);
    assert head[..1] == [before] && head[1] == [emoji];
    assert SplitEmojiWords(head, emojis) == SplitEmojiWords([before], emojis) + WordEntries([emoji], emojis);
    LoneEmojiEntries(emoji, emojis);
  }

  /** A word that is a single emoji yields just itself. */
  lemma LoneEmojiEntries(emoji: char, emojis: seq<string>)
    requires IsEmoji(emoji, emojis)
    ensures WordEntries([emoji], emojis) == [[emoji]]
  {
    assert IsEmoji([emoji][0], emojis);
    assert [emoji][..0] == [];
  }

  lemma EmojiTokensJoin(before: string, emoji: char, tail: string)
    requires before != "" && NoSpace(before) && !IsSpace(emoji)
    requires tail != "" && IsStripped(tail)
    ensures Join(Kept([before] + [[emoji]] + Split(tail))) == before + " " + [emoji] + " " + Join(Split(tail))
  {
    var tokens := [before] + [[emoji]] + Split(tail);
    EmojiTokensNotBlank(before, emoji, tail, tokens);
    KeptOfNonBlank(tokens);
    assert !IsBlank(tail);
    SplitStep(tail);
    JoinAfterTwo(before, [emoji], Split(tail));
  }

  lemma EmojiTokensNotBlank(before: string, emoji: char, tail: string, tokens: seq<string>)
    requires before != "" && NoSpace(before) && !IsSpace(emoji)
    requires tail != "" && IsStripped(tail)
    requires tokens == [before] + [[emoji]] + Split(tail)
    ensures forall k :: 0 <= k < |tokens| ==> !IsBlank(tokens[k])
  {
    var words := Split(tail);
    SplitYieldsWords(tail);
    forall k | 0 <= k < |tokens| ensures !IsBlank(tokens[k]) {
      if k >= 2 {
        assert tokens[k] == words[k - 2];
      }
      assert !IsSpace(tokens[k][0]);
    }
  }

  /** Joining two words and then some more puts a space after each of the two. */
  lemma JoinAfterTwo(a: string, b: string, words: seq<string>)
    requires words != []
    ensures Join([a] + [b] + words) == a + " " + b + " " + Join(words)
  {
    var tokens := [a] + [b] + words;
    assert tokens[1..] == [b] + words && ([b] + words)[1..] == words;
    var rest := Join(words);
    assert Join(tokens[1..]) == b + " " + rest;
    assert Join(tokens) == a + " " + (b + " " + rest);
    assert a + " " + (b + " " + rest) == a + " " + b + " " + rest;
  }
}
