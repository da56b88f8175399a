/**
 * The text helpers of the pre-processing pipeline: ordered tone
 * replacement, dot blanking, flattening, filtered appending, emoji spacing
 * and splitting, and the protected-span tokeniser.  Regular expressions are
 * given by their matches.
 */
module Preprocessing {

  // ---------------------------------------------------------------------
  // Whitespace, strip and split with the semantics of Python's str methods
  // ---------------------------------------------------------------------

  /** The characters for which Python's `str.isspace` holds. */
  predicate IsSpace(c: char) {
    || '\t' <= c <= '\r'
    || '\U{1C}' <= c <= ' '
    || c == '\U{85}' || c == '\U{A0}' || c == '\U{1680}'
    || '\U{2000}' <= c <= '\U{200A}'
    || c == '\U{2028}' || c == '\U{2029}' || c == '\U{202F}' || c == '\U{205F}' || c == '\U{3000}'
  }

  predicate NoSpace(w: string) {
    forall i :: 0 <= i < |w| ==> !IsSpace(w[i])
  }

  predicate IsBlank(w: string) {
    forall i :: 0 <= i < |w| ==> IsSpace(w[i])
  }

  /** Neither end of the string is whitespace. */
  predicate IsStripped(w: string) {
    w == "" || (!IsSpace(w[0]) && !IsSpace(w[|w| - 1]))
  }

  function LStrip(s: string): (r: string)
    ensures |r| <= |s|
    ensures r == "" || !IsSpace(r[0])
    decreases |s|
  {
    if |s| > 0 && IsSpace(s[0]) then LStrip(s[1..]) else s
  }

  function RStrip(s: string): (r: string)
    ensures |r| <= |s|
    ensures r == "" || !IsSpace(r[|r| - 1])
    decreases |s|
  {
    if |s| > 0 && IsSpace(s[|s| - 1]) then RStrip(s[..|s| - 1]) else s
  }

  /** `str.strip()`: a stripped middle part, empty exactly for a blank string. */
  function Strip(s: string): (r: string)
    ensures IsStripped(r)
    ensures |r| <= |s|
  {
    var l := LStrip(s);
    var r := RStrip(l);
    RStripIsPrefix(l);
    assert r != "" ==> r[0] == l[0];
    r
  }

  /** What is left after removing leading whitespace is a suffix. */
  lemma {:induction false} LStripIsSuffix(s: string)
    ensures LStrip(s) == s[|s| - |LStrip(s)|..]
    decreases |s|
  {
    if |s| > 0 && IsSpace(s[0]) {
      LStripIsSuffix(s[1..]);
      assert s[1..][|s[1..]| - |LStrip(s)|..] == s[|s| - |LStrip(s)|..];
    }
  }

  /** What is left after removing trailing whitespace is a prefix. */
  lemma {:induction false} RStripIsPrefix(s: string)
    ensures RStrip(s) == s[..|RStrip(s)|]
    decreases |s|
  {
    if |s| > 0 && IsSpace(s[|s| - 1]) {
      RStripIsPrefix(s[..|s| - 1]);
      assert s[..|s| - 1][..|RStrip(s)|] == s[..|RStrip(s)|];
    }
  }

  /** Only whitespace is removed from the front. */
  lemma {:induction false} LStripDropsSpaces(s: string)
    ensures forall i :: 0 <= i < |s| - |LStrip(s)| ==> IsSpace(s[i])
    decreases |s|
  {
    if |s| > 0 && IsSpace(s[0]) {
      LStripDropsSpaces(s[1..]);
      forall i | 0 < i < |s| - |LStrip(s)| ensures IsSpace(s[i]) {
        assert s[i] == s[1..][i - 1];
      }
    }
  }

  /** Only whitespace is removed from the back. */
  lemma {:induction false} RStripDropsSpaces(s: string)
    ensures forall i :: |RStrip(s)| <= i < |s| ==> IsSpace(s[i])
    decreases |s|
  {
    if |s| > 0 && IsSpace(s[|s| - 1]) {
      RStripDropsSpaces(s[..|s| - 1]);
      forall i | |RStrip(s)| <= i < |s| - 1 ensures IsSpace(s[i]) {
        assert s[i] == s[..|s| - 1][i];
      }
    }
  }

  /** Nothing is left of a string exactly when it is all whitespace. */
  lemma LStripEmptyIffBlank(s: string)
    ensures LStrip(s) == "" <==> IsBlank(s)
  {
    LStripDropsSpaces(s);
  }

  lemma StripEmptyIffBlank(s: string)
    ensures Strip(s) == "" <==> IsBlank(s)
  {
    LStripEmptyIffBlank(s);
    var l := LStrip(s);
    RStripDropsSpaces(l);
  }

  lemma StripKeepsStripped(s: string)
    requires IsStripped(s)
    ensures Strip(s) == s
  {
  }

  /** Length of the leading run of non-whitespace characters. */
  function WordLength(t: string): (n: nat)
    ensures n <= |t|
    ensures n < |t| ==> IsSpace(t[n])
    decreases |t|
  {
    if t == "" || IsSpace(t[0]) then 0 else 1 + WordLength(t[1..])
  }

  lemma {:induction false} WordHasNoSpace(t: string)
    ensures NoSpace(t[..WordLength(t)])
    decreases |t|
  {
    if t != "" && !IsSpace(t[0]) {
      WordHasNoSpace(t[1..]);
      assert t[..WordLength(t)] == [t[0]] + t[1..][..WordLength(t[1..])];
    }
  }

  /** `str.split()` without a separator: the maximal runs of non-whitespace, in order. */
  function Split(s: string): seq<string>
    decreases |s|
  {
    var t := LStrip(s);
    if t == "" then []
    else
      var n := WordLength(t);
      [t[..n]] + Split(t[n..])
  }

  /** The pieces of a split are non-empty and hold no whitespace. */
  lemma {:induction false} SplitYieldsWords(s: string)
    ensures AllWords(Split(s))
    decreases |s|
  {
    var t := LStrip(s);
    if t != "" {
      var n := WordLength(t);
      SplitYieldsWords(t[n..]);
      WordHasNoSpace(t);
      WordsCons(t[..n], Split(t[n..]));
    }
  }

  /** Non-empty strings without whitespace. */
  predicate AllWords(ws: seq<string>) {
    forall k :: 0 <= k < |ws| ==> ws[k] != "" && NoSpace(ws[k])
  }

  lemma WordsCons(w: string, ws: seq<string>)
    requires w != "" && NoSpace(w) && AllWords(ws)
    ensures AllWords([w] + ws)
  {
  }

  lemma {:induction false} SplitOfBlank(s: string)
    requires IsBlank(s)
    ensures Split(s) == []
  {
    LStripEmptyIffBlank(s);
  }

  lemma NoSpaceIsStripped(w: string)
    requires w != "" && NoSpace(w)
    ensures IsStripped(w)
  {
  }

  // ---------------------------------------------------------------------
  // tone_normalization
  // ---------------------------------------------------------------------

  predicate OccursAt(s: string, needle: string, i: nat) {
    i + |needle| <= |s| && s[i..i + |needle|] == needle
  }

  /** `sep` before, between and after every character (Python's replace of the empty string). */
  function Interspersed(s: string, sep: string): (r: string)
    ensures |r| == |s| + (|s| + 1) * |sep|
    decreases |s|
  {
    if s == "" then sep else sep + [s[0]] + Interspersed(s[1..], sep)
  }

  /** `str.replace`: every occurrence, scanning left to right without overlap. */
  function Replace(s: string, needle: string, replacement: string): string
    decreases |s|
  {
    if needle == "" then Interspersed(s, replacement)
    else if |s| < |needle| then s
    else if s[..|needle|] == needle then replacement + Replace(s[|needle|..], needle, replacement)
    else [s[0]] + Replace(s[1..], needle, replacement)
  }

  /** A string with no occurrence of a non-empty pattern is left alone. */
  lemma {:induction false} ReplaceWithoutOccurrence(s: string, needle: string, replacement: string)
    requires needle != ""
    requires forall i :: 0 <= i <= |s| ==> !OccursAt(s, needle, i)
    ensures Replace(s, needle, replacement) == s
    decreases |s|
  {
    if |s| >= |needle| {
      assert !OccursAt(s, needle, 0);
      forall i | 0 <= i <= |s[1..]| ensures !OccursAt(s[1..], needle, i) {
        assert !OccursAt(s, needle, i + 1);
        if i + |needle| <= |s[1..]| {
          assert s[1..][i..i + |needle|] == s[i + 1..i + 1 + |needle|];
        }
      }
      ReplaceWithoutOccurrence(s[1..], needle, replacement);
    }
  }

  lemma {:induction false} IntersperseNothing(s: string)
    ensures Interspersed(s, "") == s
    decreases |s|
  {
    if s != "" {
      IntersperseNothing(s[1..]);
    }
  }

  /** Replacing a pattern by itself changes nothing, the empty pattern included. */
  lemma {:induction false} ReplaceBySelf(s: string, needle: string)
    ensures Replace(s, needle, needle) == s
    decreases |s|
  {
    if needle == "" {
      IntersperseNothing(s);
    } else if |s| >= |needle| {
      if s[..|needle|] == needle {
        ReplaceBySelf(s[|needle|..], needle);
        assert s == s[..|needle|] + s[|needle|..];
      } else {
        ReplaceBySelf(s[1..], needle);
        assert s == [s[0]] + s[1..];
      }
    }
  }

  /** A tone map: `(original, replacement)` pairs in the order of the dictionary. */
  type ToneMap = seq<(string, string)>

  /** Each pair rewrites every `replacement` back to its `original`, pair after pair. */
  function ToneNormalized(text: string, toneMap: ToneMap): string
    decreases |toneMap|
  {
    if toneMap == [] then text
    else ToneNormalized(Replace(text, toneMap[0].1, toneMap[0].0), toneMap[1..])
  }

  /** The loop of `tone_normalization`, reassigning the text once per pair. */
  method ToneNormalization(text: string, toneMap: ToneMap) returns (r: string)
    ensures r == ToneNormalized(text, toneMap)
  {
    r := text;
    for i := 0 to |toneMap|
      invariant ToneNormalized(r, toneMap[i..]) == ToneNormalized(text, toneMap)
    {
      var (original, replacement) := toneMap[i];
      assert toneMap[i..][1..] == toneMap[i + 1..];
      r := Replace(r, replacement, original);
    }
    assert toneMap[|toneMap|..] == [];
  }

  /** Pairs apply in order: a map split in two is the second half applied after the first. */
  lemma {:induction false} ToneNormalizedSequential(text: string, first: ToneMap, second: ToneMap)
    ensures ToneNormalized(text, first + second) == ToneNormalized(ToneNormalized(text, first), second)
    decreases |first|
  {
    if first == [] {
      assert first + second == second;
    } else {
      assert (first + second)[1..] == first[1..] + second;
      ToneNormalizedSequential(Replace(text, first[0].1, first[0].0), first[1..], second);
    }
  }

  /** A text containing none of the (non-empty) replacement strings is already normalised. */
  lemma {:induction false} ToneNormalizedFixesCleanText(text: string, toneMap: ToneMap)
    requires forall k :: 0 <= k < |toneMap| ==> toneMap[k].1 != ""
    requires forall k, i :: 0 <= k < |toneMap| && 0 <= i <= |text| ==> !OccursAt(text, toneMap[k].1, i)
    ensures ToneNormalized(text, toneMap) == text
    decreases |toneMap|
  {
    if toneMap != [] {
      ReplaceWithoutOccurrence(text, toneMap[0].1, toneMap[0].0);
      ToneNormalizedFixesCleanText(text, toneMap[1..]);
    }
  }

  /** A pair whose two sides are equal has no effect. */
  lemma ToneNormalizedSkipsIdentityPair(text: string, toneMap: ToneMap, s: string)
    ensures ToneNormalized(text, [(s, s)] + toneMap) == ToneNormalized(text, toneMap)
  {
    ReplaceBySelf(text, s);
    assert ([(s, s)] + toneMap)[1..] == toneMap;
  }

  // ---------------------------------------------------------------------
  // remove_dot_not_end
  // ---------------------------------------------------------------------

  /**
   * The list after dot blanking: a `"."` becomes `""` unless it is the last
   * element or, away from the front, the next element is upper case.
   */
  function DotsRemoved(s: seq<string>, isUpper: string -> bool): (r: seq<string>)
    ensures |r| == |s|
    ensures forall i :: 0 <= i < |s| ==> r[i] == s[i] || (s[i] == "." && r[i] == "")
    ensures |s| > 0 ==> r[|s| - 1] == s[|s| - 1]
    ensures |s| > 1 && s[0] == "." ==> r[0] == ""
    ensures forall i :: 0 < i < |s| - 1 && s[i] == "." ==> (r[i] == "." <==> isUpper(s[i + 1]))
  {
    seq(|s|, i requires 0 <= i < |s| =>
      if s[i] == "." && i != |s| - 1 && (i == 0 || !isUpper(s[i + 1])) then "" else s[i])
  }

  /**
   * `remove_dot_not_end`, in place: the cell is blanked only after the next
   * cell has been read, and later cells are not yet changed, so the test
   * always sees the original list.
   */
  method RemoveDotNotEnd(lst: array<string>, isUpper: string -> bool)
    modifies lst
    ensures lst[..] == DotsRemoved(old(lst[..]), isUpper)
  {
    ghost var original := lst[..];
    for i := 0 to lst.Length
      invariant lst[..i] == DotsRemoved(original, isUpper)[..i]
      invariant lst[i..] == original[i..]
    {
      var elem := lst[i];
      assert elem == original[i];
      if elem == "." {
        if i != lst.Length - 1 && (i == 0 || !isUpper(lst[i + 1])) {
          assert i + 1 < lst.Length ==> lst[i + 1] == original[i + 1];
          lst[i] := "";
        }
      }
      assert lst[..i + 1] == DotsRemoved(original, isUpper)[..i + 1];
    }
    assert lst[..] == lst[..lst.Length];
  }

  // ---------------------------------------------------------------------
  // flatten
  // ---------------------------------------------------------------------

  /** A Python list element: a non-list value or a nested list. */
  datatype Nested<T> = Leaf(value: T) | List(items: seq<Nested<T>>)

  /** `flatten`: the non-list values, depth first, left to right. */
  function Flatten<T>(s: seq<Nested<T>>): seq<T>
    decreases s
  {
    if s == [] then []
    else
      (match s[0]
       case Leaf(v) => [v]
       case List(items) => Flatten(items))
      + Flatten(s[1..])
  }

  /** An element holds a value somewhere inside it. */
  ghost predicate Holds<T>(n: Nested<T>, x: T)
    decreases n
  {
    match n
    case Leaf(v) => v == x
    case List(items) => exists k :: 0 <= k < |items| && Holds(items[k], x)
  }

  /** Flattening a concatenation concatenates the flattened parts, so order is kept. */
  lemma {:induction false} FlattenAppend<T>(a: seq<Nested<T>>, b: seq<Nested<T>>)
    ensures Flatten(a + b) == Flatten(a) + Flatten(b)
    decreases |a|
  {
    if a == [] {
      assert a + b == b;
    } else {
      assert (a + b)[0] == a[0];
      assert (a + b)[1..] == a[1..] + b;
      FlattenAppend(a[1..], b);
    }
  }

  /** A list of plain values flattens to those values. */
  lemma {:induction false} FlattenOfLeaves<T>(xs: seq<T>)
    ensures Flatten(seq(|xs|, i requires 0 <= i < |xs| => Leaf(xs[i]))) == xs
    decreases |xs|
  {
    if xs != [] {
      var leaves := seq(|xs|, i requires 0 <= i < |xs| => Leaf(xs[i]));
      assert leaves[1..] == seq(|xs[1..]|, i requires 0 <= i < |xs[1..]| => Leaf(xs[1..][i]));
      FlattenOfLeaves(xs[1..]);
    }
  }

  /** Flattening is idempotent: the flat result, seen as a list of values, flattens to itself. */
  lemma FlattenIsIdempotent<T>(s: seq<Nested<T>>)
    ensures var flat := Flatten(s);
            Flatten(seq(|flat|, i requires 0 <= i < |flat| => Leaf(flat[i]))) == flat
  {
    FlattenOfLeaves(Flatten(s));
  }

  /** Every value in the result is held by some element of the input, and every held value appears. */
  lemma {:induction false} FlattenHoldsExactlyTheLeaves<T>(s: seq<Nested<T>>, x: T)
    ensures x in Flatten(s) <==> exists k :: 0 <= k < |s| && Holds(s[k], x)
    decreases s
  {
    if s != [] {
      var head := match s[0] case Leaf(v) => [v] case List(items) => Flatten(items);
      assert Flatten(s) == head + Flatten(s[1..]);
      match s[0] {
        case Leaf(v) =>
          assert x in head <==> Holds(s[0], x);
        case List(items) =>
          FlattenHoldsExactlyTheLeaves(items, x);
          assert x in head <==> Holds(s[0], x);
      }
      FlattenHoldsExactlyTheLeaves(s[1..], x);
      if exists k :: 0 <= k < |s| && Holds(s[k], x) {
        var k :| 0 <= k < |s| && Holds(s[k], x);
        if k > 0 {
          assert Holds(s[1..][k - 1], x);
        }
      }
      if exists k :: 0 <= k < |s[1..]| && Holds(s[1..][k], x) {
        var k :| 0 <= k < |s[1..]| && Holds(s[1..][k], x);
        assert Holds(s[k + 1], x);
      }
    }
  }

  // ---------------------------------------------------------------------
  // add_non_empty
  // ---------------------------------------------------------------------

  /** Every token is non-empty and has no whitespace at either end. */
  predicate AllClean(ws: seq<string>) {
    forall k :: 0 <= k < |ws| ==> ws[k] != "" && IsStripped(ws[k])
  }

  lemma CleanAppend(a: seq<string>, b: seq<string>)
    requires AllClean(a) && AllClean(b)
    ensures AllClean(a + b)
  {
  }

  /** The stripped forms of the items whose stripped form is non-empty, in order. */
  function NonEmptyStripped(source: seq<string>): (r: seq<string>)
    ensures |r| <= |source|
    ensures AllClean(r)
    decreases |source|
  {
    if source == [] then []
    else
      var init := NonEmptyStripped(source[..|source| - 1]);
      var t := Strip(source[|source| - 1]);
      if t != "" then init + [t] else init
  }

  lemma {:induction false} NonEmptyStrippedAppend(a: seq<string>, b: seq<string>)
    ensures NonEmptyStripped(a + b) == NonEmptyStripped(a) + NonEmptyStripped(b)
    decreases |b|
  {
    if b == [] {
      assert a + b == a;
    } else {
      assert (a + b)[..|a + b| - 1] == a + b[..|b| - 1];
      NonEmptyStrippedAppend(a, b[..|b| - 1]);
    }
  }

  /** Items that are already non-empty and stripped all pass, unchanged. */
  lemma {:induction false} NonEmptyStrippedKeepsCleanItems(source: seq<string>)
    requires forall k :: 0 <= k < |source| ==> source[k] != "" && IsStripped(source[k])
    ensures NonEmptyStripped(source) == source
    decreases |source|
  {
    if source != [] {
      var init := source[..|source| - 1];
      var last := source[|source| - 1];
      assert forall k :: 0 <= k < |init| ==> init[k] == source[k];
      NonEmptyStrippedKeepsCleanItems(init);
      StripKeepsStripped(last);
      assert NonEmptyStripped(source) == NonEmptyStripped(init) + [Strip(last)];
      assert source == init + [last];
    }
  }

  /**
   * `add_non_empty`: `target` stays a prefix and exactly the stripped,
   * non-empty items of `source` follow, in order.
   */
  method AddNonEmpty(target: seq<string>, source: seq<string>) returns (r: seq<string>)
    ensures r == target + NonEmptyStripped(source)
  {
    r := target;
    for i := 0 to |source|
      invariant r == target + NonEmptyStripped(source[..i])
    {
      var strippedItem := Strip(source[i]);
      assert source[..i + 1][..i] == source[..i];
      if strippedItem != "" {
        r := r + [strippedItem];
      }
    }
    assert source[..|source|] == source;
  }

  // ---------------------------------------------------------------------
  // split_emoji_text and split_emoji_emoji
  // ---------------------------------------------------------------------

  /** `char in emoji_list`: the one-character string is an entry of the list. */
  predicate IsEmoji(c: char, emojis: seq<string>) {
    [c] in emojis
  }

  predicate HasEmoji(w: string, emojis: seq<string>) {
    exists i :: 0 <= i < |w| && IsEmoji(w[i], emojis)
  }

  function Spaced(c: char, emojis: seq<string>): string {
    if IsEmoji(c, emojis) then [' ', c, ' '] else [c]
  }

  /** `split_emoji_text`: every emoji character surrounded by single spaces. */
  function SplitEmojiText(text: string, emojis: seq<string>): string
    decreases |text|
  {
    if text == "" then "" else Spaced(text[0], emojis) + SplitEmojiText(text[1..], emojis)
  }

  lemma {:induction false} SplitEmojiTextAppend(a: string, b: string, emojis: seq<string>)
    ensures SplitEmojiText(a + b, emojis) == SplitEmojiText(a, emojis) + SplitEmojiText(b, emojis)
    decreases |a|
  {
    if a == "" {
      assert a + b == b;
    } else {
      assert (a + b)[1..] == a[1..] + b;
      SplitEmojiTextAppend(a[1..], b, emojis);
    }
  }

  /** Each character is replaced where it stands: an emoji by `' ' + c + ' '`, anything else by itself. */
  lemma SplitEmojiTextAt(a: string, c: char, b: string, emojis: seq<string>)
    ensures SplitEmojiText(a + [c] + b, emojis)
            == SplitEmojiText(a, emojis) + (if IsEmoji(c, emojis) then [' ', c, ' '] else [c]) + SplitEmojiText(b, emojis)
  {
    SplitEmojiTextAppend(a + [c], b, emojis);
    SplitEmojiTextAppend(a, [c], emojis);
    assert [c][1..] == [];
    assert SplitEmojiText([c], emojis) == Spaced(c, emojis) + "";
  }

  /** A text without emoji characters is unchanged. */
  lemma {:induction false} SplitEmojiTextWithoutEmoji(text: string, emojis: seq<string>)
    requires !HasEmoji(text, emojis)
    ensures SplitEmojiText(text, emojis) == text
    decreases |text|
  {
    if text != "" {
      SplitEmojiTextWithoutEmoji(text[1..], emojis);
    }
  }

  /**
   * The entries a word yields for the characters `chars` of it: each emoji
   * character itself, every other character replaced by the whole word.
   */
  function WordParts(word: string, chars: string, emojis: seq<string>): (r: seq<string>)
    ensures |r| == |chars|
    decreases |chars|
  {
    if chars == [] then []
    else WordParts(word, chars[..|chars| - 1], emojis) + [if IsEmoji(chars[|chars| - 1], emojis) then [chars[|chars| - 1]] else word]
  }

  /** Entry `i` of the parts belongs to character `i`. */
  lemma {:induction false} WordPartsAt(word: string, chars: string, emojis: seq<string>)
    ensures forall i :: 0 <= i < |chars| ==> WordParts(word, chars, emojis)[i] == if IsEmoji(chars[i], emojis) then [chars[i]] else word
    decreases |chars|
  {
    if chars != [] {
      var init := chars[..|chars| - 1];
      WordPartsAt(word, init, emojis);
      forall i | 0 <= i < |chars|
        ensures WordParts(word, chars, emojis)[i] == if IsEmoji(chars[i], emojis) then [chars[i]] else word
      {
        if i < |init| {
          assert chars[i] == init[i];
        }
      }
    }
  }

  /** The entries one word contributes: its parts when it holds an emoji, itself otherwise. */
  function WordEntries(w: string, emojis: seq<string>): (r: seq<string>)
    ensures !HasEmoji(w, emojis) ==> r == [w]
    ensures HasEmoji(w, emojis) ==> |r| == |w|
  {
    if HasEmoji(w, emojis) then WordParts(w, w, emojis) else [w]
  }

  /** `split_emoji_emoji`: emoji-free words pass through; a word with an emoji yields its parts. */
  function SplitEmojiWords(words: seq<string>, emojis: seq<string>): seq<string>
    decreases |words|
  {
    if words == [] then []
    else SplitEmojiWords(words[..|words| - 1], emojis) + WordEntries(words[|words| - 1], emojis)
  }

  /** Extending the words by one extends the result by that word's entries. */
  lemma SplitEmojiWordsSnoc(words: seq<string>, k: nat, emojis: seq<string>)
    requires k < |words|
    ensures SplitEmojiWords(words[..k + 1], emojis) == SplitEmojiWords(words[..k], emojis) + WordEntries(words[k], emojis)
  {
    assert words[..k + 1][..k] == words[..k];
  }

  /** Extending the characters by one extends the parts by that character's entry. */
  lemma WordPartsSnoc(word: string, j: nat, emojis: seq<string>)
    requires j < |word|
    ensures WordParts(word, word[..j + 1], emojis) == WordParts(word, word[..j], emojis) + [if IsEmoji(word[j], emojis) then [word[j]] else word]
  {
    assert word[..j + 1][..j] == word[..j];
  }

  method SplitEmojiEmoji(textArray: seq<string>, emojis: seq<string>) returns (result: seq<string>)
    ensures result == SplitEmojiWords(textArray, emojis)
  {
    result := [];
    for k := 0 to |textArray|
      invariant result == SplitEmojiWords(textArray[..k], emojis)
    {
      var word := textArray[k];
      SplitEmojiWordsSnoc(textArray, k, emojis);
      if HasEmoji(word, emojis) {
        var parts := EmojiWordParts(word, emojis);
        result := result + parts;
      } else {
        result := result + [word];
      }
    }
    assert textArray[..|textArray|] == textArray;
  }

  /** The inner loop of `split_emoji_emoji`: one entry per character of a word. */
  method EmojiWordParts(word: string, emojis: seq<string>) returns (parts: seq<string>)
    ensures parts == WordParts(word, word, emojis)
  {
    parts := [];
    for j := 0 to |word|
      invariant parts == WordParts(word, word[..j], emojis)
    {
      WordPartsSnoc(word, j, emojis);
      parts := parts + [if IsEmoji(word[j], emojis) then [word[j]] else word];
    }
    assert word[..|word|] == word;
  }

  lemma {:induction false} SplitEmojiWordsAppend(a: seq<string>, b: seq<string>, emojis: seq<string>)
    ensures SplitEmojiWords(a + b, emojis) == SplitEmojiWords(a, emojis) + SplitEmojiWords(b, emojis)
    decreases |b|
  {
    if b == [] {
      assert a + b == a;
    } else {
      var init := b[..|b| - 1];
      var e := WordEntries(b[|b| - 1], emojis);
      assert (a + b)[..|a + b| - 1] == a + init;
      assert (a + b)[|a + b| - 1] == b[|b| - 1];
      assert SplitEmojiWords(a + b, emojis) == SplitEmojiWords(a + init, emojis) + e;
      assert SplitEmojiWords(b, emojis) == SplitEmojiWords(init, emojis) + e;
      SplitEmojiWordsAppend(a, init, emojis);
      assert (SplitEmojiWords(a, emojis) + SplitEmojiWords(init, emojis)) + e
          == SplitEmojiWords(a, emojis) + (SplitEmojiWords(init, emojis) + e);
    }
  }

  /** Words without emoji characters pass through unchanged. */
  lemma {:induction false} SplitEmojiWordsWithoutEmoji(words: seq<string>, emojis: seq<string>)
    requires forall k :: 0 <= k < |words| ==> !HasEmoji(words[k], emojis)
    ensures SplitEmojiWords(words, emojis) == words
    decreases |words|
  {
    if words != [] {
      SplitEmojiWordsWithoutEmoji(words[..|words| - 1], emojis);
    }
  }

  /** A word containing an emoji yields exactly one entry per character, in order. */
  lemma SplitEmojiWordOfEmojiWord(w: string, emojis: seq<string>)
    requires HasEmoji(w, emojis)
    ensures var r := SplitEmojiWords([w], emojis);
            && |r| == |w|
            && forall i :: 0 <= i < |w| ==> r[i] == if IsEmoji(w[i], emojis) then [w[i]] else w
  {
    assert [w][..0] == [];
    WordPartsAt(w, w, emojis);
  }

  // ---------------------------------------------------------------------
  // simple_tokenize
  // ---------------------------------------------------------------------

  /** A regular-expression match: `match.start()` and `match.end()`. */
  datatype Match = Match(start: nat, end: nat)

  /** A compiled pattern, known only through the matches `finditer` yields on a text. */
  type Pattern = string -> seq<Match>

  /** Python slicing `s[i:j]` with non-negative bounds: clamped, empty when `i >= j`. */
  function Slice(s: string, i: nat, j: nat): (r: string)
    ensures |r| <= |s|
  {
    var lo := if i <= |s| then i else |s|;
    var hi := if j <= |s| then j else |s|;
    if lo >= hi then "" else s[lo..hi]
  }

  /** The matches that are not zero-width, in order. */
  function NonZeroWidth(ms: seq<Match>): (r: seq<Match>)
    ensures |r| <= |ms|
    ensures forall k :: 0 <= k < |r| ==> r[k].start != r[k].end && r[k] in ms
    decreases |ms|
  {
    if ms == [] then []
    else
      var init := NonZeroWidth(ms[..|ms| - 1]);
      var m := ms[|ms| - 1];
      if m.start != m.end then init + [m] else init
  }

  lemma {:induction false} NonZeroWidthKeepsWide(ms: seq<Match>)
    requires forall k :: 0 <= k < |ms| ==> ms[k].start != ms[k].end
    ensures NonZeroWidth(ms) == ms
    decreases |ms|
  {
    if ms != [] {
      NonZeroWidthKeepsWide(ms[..|ms| - 1]);
      assert ms[..|ms| - 1] + [ms[|ms| - 1]] == ms;
    }
  }

  /** The bad spans: pattern by pattern, each pattern's non-empty matches in `finditer` order. */
  function BadSpans(patterns: seq<Pattern>, text: string): (r: seq<Match>)
    ensures forall k :: 0 <= k < |r| ==> r[k].start != r[k].end
    decreases |patterns|
  {
    if patterns == [] then []
    else BadSpans(patterns[..|patterns| - 1], text) + NonZeroWidth(patterns[|patterns| - 1](text))
  }

  /** The text of bad span `k`. */
  function BadText(text: string, spans: seq<Match>, k: nat): string
    requires k < |spans|
  {
    Slice(text, spans[k].start, spans[k].end)
  }

  /** The text before bad span `k` and after bad span `k - 1` (from the start, to the end). */
  function GoodText(text: string, spans: seq<Match>, k: nat): string
    requires k <= |spans|
  {
    Slice(text, if k == 0 then 0 else spans[k - 1].end, if k == |spans| then |text| else spans[k].start)
  }

  function Goods(text: string, spans: seq<Match>, k: nat): seq<string>
    requires k <= |spans|
  {
    Split(Strip(GoodText(text, spans, k)))
  }

  /** `goods_0, bad_0, …, goods_{n-1}, bad_{n-1}`, each through `add_non_empty`. */
  function Interleaved(text: string, spans: seq<Match>, n: nat): (r: seq<string>)
    requires n <= |spans|
    ensures AllClean(r)
    decreases n
  {
    if n == 0 then []
    else
      var prev := Interleaved(text, spans, n - 1);
      var goods := NonEmptyStripped(Goods(text, spans, n - 1));
      var bad := NonEmptyStripped([BadText(text, spans, n - 1)]);
      CleanAppend(prev, goods);
      CleanAppend(prev + goods, bad);
      prev + goods + bad
  }

  /** The tokens for a text and its bad spans: the interleaving, then the last goods. */
  function Tokenized(text: string, spans: seq<Match>): (r: seq<string>)
    ensures AllClean(r)
  {
    CleanAppend(Interleaved(text, spans, |spans|), NonEmptyStripped(Goods(text, spans, |spans|)));
    Interleaved(text, spans, |spans|) + NonEmptyStripped(Goods(text, spans, |spans|))
  }

  /** With one bad span: the goods before it, the span itself, the goods after it. */
  lemma TokensOfOneSpan(text: string, spans: seq<Match>)
    requires |spans| == 1
    ensures Tokenized(text, spans)
            == NonEmptyStripped(Goods(text, spans, 0)) + NonEmptyStripped([BadText(text, spans, 0)])
               + NonEmptyStripped(Goods(text, spans, 1))
  {
    var g0 := NonEmptyStripped(Goods(text, spans, 0));
    var b0 := NonEmptyStripped([BadText(text, spans, 0)]);
    assert Interleaved(text, spans, 1) == [] + g0 + b0;
    assert [] + g0 == g0;
  }

  /** `simple_tokenize`, with `split_edge_punctuation` given as `edgePunct`. */
  function SimpleTokenized(text: string, protectedPatterns: seq<Pattern>, emojiPattern: Pattern,
                           edgePunct: string -> string): seq<string>
  {
    var t := edgePunct(text);
    Tokenized(t, BadSpans(protectedPatterns + [emojiPattern], t))
  }

  method SimpleTokenize(text: string, protectedPatterns: seq<Pattern>, emojiPattern: Pattern,
                        edgePunct: string -> string) returns (result: seq<string>)
    ensures result == SimpleTokenized(text, protectedPatterns, emojiPattern, edgePunct)
  {
    var splitPunctText := edgePunct(text);
    var badSpans, bads := CollectBadSpans(protectedPatterns + [emojiPattern], splitPunctText);
    var indices := SpanIndices(badSpans, |splitPunctText|);
    var splitGoods := SplitGoods(splitPunctText, badSpans, indices);
    result := [];
    for k := 0 to |bads|
      invariant result == Interleaved(splitPunctText, badSpans, k)
    {
      result := AddNonEmpty(result, splitGoods[k]);
      result := AddNonEmpty(result, bads[k]);
    }
    result := AddNonEmpty(result, splitGoods[|splitGoods| - 1]);
  }

  /** The loop over the patterns and their matches that records the bad spans and their texts. */
  method CollectBadSpans(patterns: seq<Pattern>, splitPunctText: string)
    returns (badSpans: seq<Match>, bads: seq<seq<string>>)
    ensures badSpans == BadSpans(patterns, splitPunctText)
    ensures |bads| == |badSpans|
    ensures forall k :: 0 <= k < |bads| ==> bads[k] == [BadText(splitPunctText, badSpans, k)]
  {
    badSpans := [];
    bads := [];
    for p := 0 to |patterns|
      invariant badSpans == BadSpans(patterns[..p], splitPunctText)
      invariant |bads| == |badSpans|
      invariant forall k :: 0 <= k < |bads| ==> bads[k] == [BadText(splitPunctText, badSpans, k)]
    {
      var matches := patterns[p](splitPunctText);
      assert patterns[..p + 1][..p] == patterns[..p];
      for m := 0 to |matches|
        invariant badSpans == BadSpans(patterns[..p], splitPunctText) + NonZeroWidth(matches[..m])
        invariant |bads| == |badSpans|
        invariant forall k :: 0 <= k < |bads| ==> bads[k] == [BadText(splitPunctText, badSpans, k)]
      {
        assert matches[..m + 1][..m] == matches[..m];
        var match_ := matches[m];
        if match_.start != match_.end {
          bads := bads + [[Slice(splitPunctText, match_.start, match_.end)]];
          badSpans := badSpans + [match_];
        }
      }
      assert matches[..|matches|] == matches;
    }
    assert patterns[..|patterns|] == patterns;
  }

  /** `indices`: 0, then each span's start and end, then the text length. */
  method SpanIndices(spans: seq<Match>, n: nat) returns (indices: seq<nat>)
    ensures |indices| == 2 * |spans| + 2 && indices[0] == 0 && indices[2 * |spans| + 1] == n
    ensures forall j :: 0 <= j < |spans| ==> indices[2 * j + 1] == spans[j].start && indices[2 * j + 2] == spans[j].end
  {
    indices := [0];
    for k := 0 to |spans|
      invariant |indices| == 2 * k + 1 && indices[0] == 0
      invariant forall j :: 0 <= j < k ==> indices[2 * j + 1] == spans[j].start && indices[2 * j + 2] == spans[j].end
    {
      indices := indices + [spans[k].start, spans[k].end];
    }
    indices := indices + [n];
  }

  /** The goods of the first `n` gaps between bad spans. */
  function GoodsUpTo(text: string, spans: seq<Match>, n: nat): (r: seq<seq<string>>)
    requires n <= |spans| + 1
    ensures |r| == n && forall j :: 0 <= j < n ==> r[j] == Goods(text, spans, j)
  {
    if n == 0 then [] else GoodsUpTo(text, spans, n - 1) + [Goods(text, spans, n - 1)]
  }

  /** `split_goods`: the whitespace split of every slice between consecutive index pairs. */
  method SplitGoods(text: string, spans: seq<Match>, indices: seq<nat>) returns (splitGoods: seq<seq<string>>)
    requires |indices| == 2 * |spans| + 2 && indices[0] == 0 && indices[2 * |spans| + 1] == |text|
    requires forall j :: 0 <= j < |spans| ==> indices[2 * j + 1] == spans[j].start && indices[2 * j + 2] == spans[j].end
    ensures splitGoods == GoodsUpTo(text, spans, |spans| + 1)
  {
    splitGoods := [];
    for j := 0 to |spans| + 1
      invariant splitGoods == GoodsUpTo(text, spans, j)
    {
      var good := Slice(text, indices[2 * j], indices[2 * j + 1]);
      GapFromIndices(text, spans, indices, j);
      splitGoods := splitGoods + [Split(Strip(good))];
    }
  }

  lemma GapFromIndices(text: string, spans: seq<Match>, indices: seq<nat>, j: nat)
    requires |indices| == 2 * |spans| + 2 && indices[0] == 0 && indices[2 * |spans| + 1] == |text|
    requires forall j :: 0 <= j < |spans| ==> indices[2 * j + 1] == spans[j].start && indices[2 * j + 2] == spans[j].end
    requires j <= |spans|
    ensures Slice(text, indices[2 * j], indices[2 * j + 1]) == GoodText(text, spans, j)
  {
    if j > 0 {
      assert indices[2 * (j - 1) + 2] == spans[j - 1].end;
    }
  }

  /** With no bad span the tokens are the whitespace split of the text. */
  lemma NoBadSpansMeansWhitespaceSplit(text: string)
    ensures Tokenized(text, []) == Split(text)
  {
    var g := Goods(text, [], 0);
    assert GoodText(text, [], 0) == text;
    SplitYieldsWords(Strip(text));
    NonEmptyStrippedKeepsClean(g);
    SplitOfStripped(text);
  }

  lemma NonEmptyStrippedKeepsClean(ws: seq<string>)
    requires AllWords(ws)
    ensures NonEmptyStripped(ws) == ws
  {
    forall k | 0 <= k < |ws| ensures ws[k] != "" && IsStripped(ws[k]) {
      NoSpaceIsStripped(ws[k]);
    }
    NonEmptyStrippedKeepsCleanItems(ws);
  }

  /** Splitting ignores surrounding whitespace. */
  lemma SplitOfStripped(s: string)
    ensures Split(Strip(s)) == Split(s)
  {
    var l := LStrip(s);
    LStripIsIdempotent(s);
    assert Split(l) == Split(s);
    RStripSplitsOffBlank(l);
    SplitIgnoresTrailingBlank(RStrip(l), l[|RStrip(l)|..]);
  }

  lemma RStripSplitsOffBlank(s: string)
    ensures s == RStrip(s) + s[|RStrip(s)|..]
    ensures IsBlank(s[|RStrip(s)|..])
  {
    var u := RStrip(s);
    RStripDropsSpaces(s);
    var tail := s[|u|..];
    forall i | 0 <= i < |tail| ensures IsSpace(tail[i]) {
      assert tail[i] == s[|u| + i];
    }
  }

  lemma LStripIsIdempotent(s: string)
    ensures LStrip(LStrip(s)) == LStrip(s)
  {
  }

  lemma {:induction false} LStripAppend(s: string, w: string)
    requires !IsBlank(s)
    ensures LStrip(s + w) == LStrip(s) + w
    decreases |s|
  {
    if IsSpace(s[0]) {
      assert (s + w)[1..] == s[1..] + w;
      LStripAppend(s[1..], w);
    }
  }

  lemma {:induction false} WordLengthAppend(t: string, w: string)
    requires IsBlank(w)
    ensures WordLength(t + w) == WordLength(t)
    decreases |t|
  {
    if t != "" && !IsSpace(t[0]) {
      assert (t + w)[1..] == t[1..] + w;
      WordLengthAppend(t[1..], w);
    } else if t == "" {
      assert t + w == w;
    }
  }

  /** One step of the split of a string that is not all whitespace. */
  lemma SplitStep(s: string)
    requires !IsBlank(s)
    ensures var t := LStrip(s);
            var n := WordLength(t);
            0 < n <= |t| && Split(s) == [t[..n]] + Split(t[n..])
  {
    LStripEmptyIffBlank(s);
  }

  /** Whitespace at the end does not change the split. */
  lemma {:induction false} SplitIgnoresTrailingBlank(s: string, w: string)
    requires IsBlank(w)
    ensures Split(s + w) == Split(s)
    decreases |s|
  {
    if IsBlank(s) {
      BlankAppend(s, w);
      SplitOfBlank(s + w);
      SplitOfBlank(s);
    } else {
      var t := LStrip(s);
      var n := WordLength(t);
      SplitStep(s);
      LStripAppend(s, w);
      assert !IsBlank(s + w) by {
        var i :| 0 <= i < |s| && !IsSpace(s[i]);
        assert (s + w)[i] == s[i];
      }
      SplitStep(s + w);
      WordLengthAppend(t, w);
      assert LStrip(s + w) == t + w;
      assert WordLength(t + w) == n;
      SliceOfAppend(t, w, n);
      SplitIgnoresTrailingBlank(t[n..], w);
    }
  }

  lemma SliceOfAppend(a: string, b: string, n: nat)
    requires n <= |a|
    ensures (a + b)[..n] == a[..n] && (a + b)[n..] == a[n..] + b
  {
  }

  lemma BlankAppend(s: string, w: string)
    requires IsBlank(s) && IsBlank(w)
    ensures IsBlank(s + w)
  {
    forall i | 0 <= i < |s + w| ensures IsSpace((s + w)[i]) {
      if i < |s| {
        assert (s + w)[i] == s[i];
      } else {
        assert (s + w)[i] == w[i - |s|];
      }
    }
  }

  /** The tokens of the empty text are none, whatever spans the patterns report. */
  lemma {:induction false} NothingFromEmptyText(spans: seq<Match>, n: nat)
    requires n <= |spans|
    ensures Interleaved("", spans, n) == []
    ensures n == |spans| ==> Tokenized("", spans) == []
    decreases n
  {
    if n > 0 {
      NothingFromEmptyText(spans, n - 1);
      assert GoodText("", spans, n - 1) == "";
      assert Goods("", spans, n - 1) == [];
      assert BadText("", spans, n - 1) == "";
      assert NonEmptyStripped([""]) == [] by {
        assert [""][..0] == [];
      }
    }
    if n == |spans| {
      assert GoodText("", spans, n) == "";
      assert Goods("", spans, n) == [];
    }
  }

  lemma SliceInRange(s: string, i: nat, j: nat)
    requires i <= j <= |s|
    ensures Slice(s, i, j) == s[i..j]
  {
  }

  /** The bad spans lie inside a text of length `n`, in order and without overlap. */
  predicate Ordered(spans: seq<Match>, n: nat) {
    && (forall k :: 0 <= k < |spans| ==> spans[k].start <= spans[k].end <= n)
    && (forall k :: 0 <= k < |spans| - 1 ==> spans[k].end <= spans[k + 1].start)
  }

  /** `goods_0, bad_0, …, goods_{n-1}, bad_{n-1}` as text, before any splitting. */
  function Pieces(text: string, spans: seq<Match>, n: nat): string
    requires n <= |spans|
  {
    if n == 0 then "" else Pieces(text, spans, n - 1) + GoodText(text, spans, n - 1) + BadText(text, spans, n - 1)
  }

  lemma {:induction false} PiecesArePrefix(text: string, spans: seq<Match>, n: nat)
    requires Ordered(spans, |text|) && 0 < n <= |spans|
    ensures Pieces(text, spans, n) == text[..spans[n - 1].end]
    decreases n
  {
    var k := n - 1;
    var from := if k == 0 then 0 else spans[k - 1].end;
    var start := spans[k].start;
    var end := spans[k].end;
    assert from <= start <= end <= |text|;
    SliceInRange(text, from, start);
    SliceInRange(text, start, end);
    if k > 0 {
      PiecesArePrefix(text, spans, k);
    }
    PrefixSplitsInThree(text, from, start, end);
  }

  lemma PrefixSplitsInThree(s: string, i: nat, j: nat, k: nat)
    requires i <= j <= k <= |s|
    ensures s[..k] == s[..i] + s[i..j] + s[j..k]
  {
  }

  /** For spans in order, the goods are exactly the texts between consecutive matches. */
  lemma OrderedGoodsLieBetweenMatches(text: string, spans: seq<Match>)
    requires Ordered(spans, |text|)
    ensures forall k :: 0 < k < |spans| ==> GoodText(text, spans, k) == text[spans[k - 1].end..spans[k].start]
  {
    forall k | 0 < k < |spans| ensures GoodText(text, spans, k) == text[spans[k - 1].end..spans[k].start] {
      SliceInRange(text, spans[k - 1].end, spans[k].start);
    }
  }

  /** For spans in order, goods and bads put back together give the text again. */
  lemma {:induction false} OrderedSpansPartitionText(text: string, spans: seq<Match>)
    requires Ordered(spans, |text|)
    ensures Pieces(text, spans, |spans|) + GoodText(text, spans, |spans|) == text
  {
    if spans == [] {
      SliceInRange(text, 0, |text|);
    } else {
      var last := spans[|spans| - 1].end;
      PiecesArePrefix(text, spans, |spans|);
      SliceInRange(text, last, |text|);
      assert GoodText(text, spans, |spans|) == text[last..];
      assert text == text[..last] + text[last..];
    }
  }

  lemma {:induction false} UnorderedMatchesRepeatText(protectedPattern: Pattern, emojiPattern: Pattern, edgePunct: string -> string)
    requires edgePunct("ab cd") == "ab cd"
    requires protectedPattern("ab cd") == [Match(3, 5)] && emojiPattern("ab cd") == [Match(0, 2)]
    ensures SimpleTokenized("ab cd", [protectedPattern], emojiPattern, edgePunct) == ["ab", "cd", "ab", "cd"]
  {
    var spans := [Match(3, 5), Match(0, 2)];
    ExampleBadSpans(protectedPattern, emojiPattern);
    ExampleGoods(spans);
    ExampleTokens(spans);
  }

  lemma ExampleBadSpans(protectedPattern: Pattern, emojiPattern: Pattern)
    requires protectedPattern("ab cd") == [Match(3, 5)] && emojiPattern("ab cd") == [Match(0, 2)]
    ensures BadSpans([protectedPattern] + [emojiPattern], "ab cd") == [Match(3, 5), Match(0, 2)]
  {
    var patterns := [protectedPattern] + [emojiPattern];
    NonZeroWidthKeepsWide([Match(3, 5)]);
    NonZeroWidthKeepsWide([Match(0, 2)]);
    assert patterns[..1] == [protectedPattern] && patterns[1] == emojiPattern;
    assert [protectedPattern][..0] == [];
    assert BadSpans([protectedPattern], "ab cd") == [] + NonZeroWidth(protectedPattern("ab cd"));
    assert BadSpans(patterns, "ab cd") == BadSpans([protectedPattern], "ab cd") + NonZeroWidth(emojiPattern("ab cd"));
  }

  /** A single word, with or without one space beside it, comes out of the tokenizer's goods step as itself. */
  lemma OneWordGood(s: string, w: string)
    requires w != "" && NoSpace(w)
    requires s == w || s == w + " " || s == " " + w
    ensures NonEmptyStripped(Split(Strip(s))) == [w]
  {
    if s == w {
      NoSpaceIsStripped(w);
      StripKeepsStripped(w);
    } else {
      StripExample(s, w);
    }
    SplitOneWord(w);
    NoSpaceIsStripped(w);
    NonEmptyStrippedKeepsCleanItems([w]);
  }

  lemma ExampleGoods(spans: seq<Match>)
    requires spans == [Match(3, 5), Match(0, 2)]
    ensures NonEmptyStripped(Goods("ab cd", spans, 0)) == ["ab"]
    ensures NonEmptyStripped(Goods("ab cd", spans, 1)) == []
    ensures NonEmptyStripped(Goods("ab cd", spans, 2)) == ["cd"]
    ensures NonEmptyStripped([BadText("ab cd", spans, 0)]) == ["cd"]
    ensures NonEmptyStripped([BadText("ab cd", spans, 1)]) == ["ab"]
  {
    ExampleFirstGoods(spans);
    ExampleMiddleGoods(spans);
    ExampleLastGoods(spans);
    ExampleBads(spans);
  }

  lemma ExampleFirstGoods(spans: seq<Match>)
    requires spans == [Match(3, 5), Match(0, 2)]
    ensures NonEmptyStripped(Goods("ab cd", spans, 0)) == ["ab"]
  {
    assert GoodText("ab cd", spans, 0) == "ab cd"[0..3] == "ab ";
    OneWordGood("ab ", "ab");
  }

  /** The second match ends before the first one starts: the text between them is empty. */
  lemma ExampleMiddleGoods(spans: seq<Match>)
    requires spans == [Match(3, 5), Match(0, 2)]
    ensures NonEmptyStripped(Goods("ab cd", spans, 1)) == []
  {
    assert GoodText("ab cd", spans, 1) == "";
    assert Goods("ab cd", spans, 1) == Split(Strip("")) == [];
  }

  lemma ExampleLastGoods(spans: seq<Match>)
    requires spans == [Match(3, 5), Match(0, 2)]
    ensures NonEmptyStripped(Goods("ab cd", spans, 2)) == ["cd"]
  {
    assert GoodText("ab cd", spans, 2) == "ab cd"[2..5] == " cd";
    OneWordGood(" cd", "cd");
  }


  lemma ExampleBads(spans: seq<Match>)
    requires spans == [Match(3, 5), Match(0, 2)]
    ensures NonEmptyStripped([BadText("ab cd", spans, 0)]) == ["cd"]
    ensures NonEmptyStripped([BadText("ab cd", spans, 1)]) == ["ab"]
  {
    assert BadText("ab cd", spans, 0) == "cd";
    assert BadText("ab cd", spans, 1) == "ab";
    NoSpaceIsStripped("ab");
    NoSpaceIsStripped("cd");
    NonEmptyStrippedKeepsCleanItems(["ab"]);
    NonEmptyStrippedKeepsCleanItems(["cd"]);
  }

  lemma ExampleTokens(spans: seq<Match>)
    requires spans == [Match(3, 5), Match(0, 2)]
    requires NonEmptyStripped(Goods("ab cd", spans, 0)) == ["ab"]
    requires NonEmptyStripped(Goods("ab cd", spans, 1)) == []
    requires NonEmptyStripped(Goods("ab cd", spans, 2)) == ["cd"]
    requires NonEmptyStripped([BadText("ab cd", spans, 0)]) == ["cd"]
    requires NonEmptyStripped([BadText("ab cd", spans, 1)]) == ["ab"]
    ensures Tokenized("ab cd", spans) == ["ab", "cd", "ab", "cd"]
  {
    var t := "ab cd";
    assert Interleaved(t, spans, 1) == [] + ["ab"] + ["cd"];
    assert [] + ["ab"] + ["cd"] == ["ab", "cd"];
    assert Interleaved(t, spans, 2) == ["ab", "cd"] + [] + ["ab"];
    assert ["ab", "cd"] + [] + ["ab"] == ["ab", "cd", "ab"];
    assert Tokenized(t, spans) == ["ab", "cd", "ab"] + ["cd"];
  }

  lemma StripExample(s: string, r: string)
    requires r != "" && NoSpace(r)
    requires s == r + " " || s == " " + r
    ensures Strip(s) == r
  {
    if s == r + " " {
      assert LStrip(s) == s;
      assert s[..|s| - 1] == r;
      assert RStrip(s) == RStrip(r);
    } else {
      assert s[1..] == r;
      assert LStrip(s) == LStrip(r);
    }
  }

  lemma SplitOneWord(w: string)
    requires w != "" && NoSpace(w)
    ensures Split(w) == [w]
  {
    assert LStrip(w) == w;
    WordLengthOfWord(w);
    assert w[..|w|] == w;
    assert w[|w|..] == "";
    assert Split("") == [];
  }

  lemma {:induction false} WordLengthOfWord(w: string)
    requires NoSpace(w)
    ensures WordLength(w) == |w|
    decreases |w|
  {
    if w != "" {
      WordLengthOfWord(w[1..]);
    }
  }
}
