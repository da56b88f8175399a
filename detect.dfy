/**
 * NSW detection: aligning the per-token labels of the Student's output with
 * character offsets, merging adjacent spans, and the detector's load state.
 */
module Detect {
  import opened Wrappers
  import opened Collaborators

  /**
   * A detected non-standard word: the token position, the character range
   * `[start, end)` and the detokenised text.  `prediction` and `confidence`
   * are the keys the normaliser adds later.
   */
  datatype Span = Span(
    index: nat,
    start: nat,
    end: nat,
    nsw: string,
    prediction: Option<string>,
    confidence: Option<real>)

  /** A span whose character range is exactly as long as its non-empty text. */
  predicate WellFormed(s: Span) {
    s.end == s.start + |s.nsw| && |s.nsw| > 0
  }

  // ---------------------------------------------------------------------
  // The cursor fold of `detect_nsw`

  /** `convert_tokens_to_string([tokens[i]])`: the text of token `i` on its own. */
  function CurrentText(tk: Tokenizer, tokens: seq<Token>, i: nat): string
    requires i < |tokens|
  {
    tk.tokensToString([tokens[i]])
  }

  /** `convert_tokens_to_string(tokens[:i+1])`: the text of the first `i + 1` tokens. */
  function FullText(tk: Tokenizer, tokens: seq<Token>, i: nat): string
    requires i < |tokens|
  {
    tk.tokensToString(tokens[..i + 1])
  }

  /** The cursor `end_index` once the first `n` tokens have been processed. */
  function CursorAfter(tk: Tokenizer, tokens: seq<Token>, n: nat): nat
    requires n <= |tokens|
  {
    if n == 0 then 0
    else if CurrentText(tk, tokens, n - 1) != "" then |FullText(tk, tokens, n - 1)|
    else |FullText(tk, tokens, n - 1)| + 1
  }

  /** The cursor when token `i` is looked at: one further on when the token starts a word. */
  function StartOf(tk: Tokenizer, tokens: seq<Token>, i: nat): nat
    requires i < |tokens|
  {
    CursorAfter(tk, tokens, i) + (if StartsWithMarker(tokens[i]) then 1 else 0)
  }

  /** Token `i` yields a span exactly when it is labelled NSW and renders to some text. */
  predicate Emits(tk: Tokenizer, tokens: seq<Token>, isNsw: seq<int>, i: nat)
    requires i < |tokens| && |isNsw| == |tokens|
  {
    isNsw[i] == 1 && CurrentText(tk, tokens, i) != ""
  }

  /** The span that token `i` yields. */
  function SpanOf(tk: Tokenizer, tokens: seq<Token>, i: nat): (s: Span)
    requires i < |tokens|
    ensures s.index == i && s.start == StartOf(tk, tokens, i) && s.nsw == CurrentText(tk, tokens, i)
    ensures s.end - s.start == |s.nsw|
    ensures s.prediction.None? && s.confidence.None?
  {
    var text := CurrentText(tk, tokens, i);
    var start := StartOf(tk, tokens, i);
    Span(i, start, start + |text|, text, None, None)
  }

  /** The spans the fold has emitted after the first `n` tokens. */
  function AlignedSpans(tk: Tokenizer, tokens: seq<Token>, isNsw: seq<int>, n: nat): (r: seq<Span>)
    requires n <= |tokens| && |isNsw| == |tokens|
    ensures |r| <= n
    ensures forall k :: 0 <= k < |r| ==>
      r[k].index < n && Emits(tk, tokens, isNsw, r[k].index) && r[k] == SpanOf(tk, tokens, r[k].index)
    ensures forall k :: 0 <= k < |r| ==> WellFormed(r[k])
    ensures forall j, k :: 0 <= j < k < |r| ==> r[j].index < r[k].index
    decreases n
  {
    if n == 0 then []
    else
      AlignedSpans(tk, tokens, isNsw, n - 1)
      + (if Emits(tk, tokens, isNsw, n - 1) then [SpanOf(tk, tokens, n - 1)] else [])
  }

  /** Some span of `spans` comes from token `i`. */
  predicate HasSpanFor(spans: seq<Span>, i: nat) {
    exists k :: 0 <= k < |spans| && spans[k].index == i
  }

  /** Every token that is labelled NSW and renders to some text has its span. */
  lemma {:induction false} AlignedSpansComplete(tk: Tokenizer, tokens: seq<Token>, isNsw: seq<int>, n: nat)
    requires n <= |tokens| && |isNsw| == |tokens|
    ensures forall i :: 0 <= i < n && Emits(tk, tokens, isNsw, i) ==> HasSpanFor(AlignedSpans(tk, tokens, isNsw, n), i)
    decreases n
  {
    if n > 0 {
      AlignedSpansComplete(tk, tokens, isNsw, n - 1);
      var prev := AlignedSpans(tk, tokens, isNsw, n - 1);
      var r := AlignedSpans(tk, tokens, isNsw, n);
      assert r[..|prev|] == prev;
      forall i | 0 <= i < n && Emits(tk, tokens, isNsw, i)
        ensures HasSpanFor(r, i)
      {
        if i < n - 1 {
          assert HasSpanFor(prev, i);
          var k :| 0 <= k < |prev| && prev[k].index == i;
          assert r[k] == prev[k];
        } else {
          assert r[|r| - 1].index == i;
        }
      }
    }
  }

  /**
   * The loop of `detect_nsw` over the de-specialised tokens: the cursor is
   * bumped for a word-boundary token, a span is emitted for an NSW token with
   * text, and the cursor then jumps to the length of the detokenised prefix
   * (one past it when the token rendered to nothing).
   */
  method AlignSpans(tk: Tokenizer, tokens: seq<Token>, isNsw: seq<int>) returns (spans: seq<Span>)
    requires |isNsw| == |tokens|
    ensures spans == AlignedSpans(tk, tokens, isNsw, |tokens|)
    ensures forall k :: 0 <= k < |spans| ==> WellFormed(spans[k]) && isNsw[spans[k].index] == 1
  {
    spans := [];
    var endIndex := 0;
    var i := 0;
    while i < |tokens|
      invariant 0 <= i <= |tokens|
      invariant endIndex == CursorAfter(tk, tokens, i)
      invariant spans == AlignedSpans(tk, tokens, isNsw, i)
    {
      if StartsWithMarker(tokens[i]) {
        endIndex := endIndex + 1;
      }
      var currentText := tk.tokensToString([tokens[i]]);
      var fullText := tk.tokensToString(tokens[..i + 1]);
      assert endIndex == StartOf(tk, tokens, i) && currentText == CurrentText(tk, tokens, i);
      if isNsw[i] == 1 {
        if currentText != "" {
          spans := spans + [Span(i, endIndex, endIndex + |currentText|, currentText, None, None)];
        }
      }
      assert spans == AlignedSpans(tk, tokens, isNsw, i + 1);
      endIndex := if currentText != "" then |fullText| else |fullText| + 1;
      i := i + 1;
    }
  }

  // ---------------------------------------------------------------------
  // Offsets against a detokeniser that renders a boundary marker as one space

  function Separator(t: Token): string {
    if StartsWithMarker(t) then " " else ""
  }

  /** The text of the first `i` tokens. */
  function Prefix(tk: Tokenizer, tokens: seq<Token>, i: nat): string
    requires i <= |tokens|
  {
    tk.tokensToString(tokens[..i])
  }

  /**
   * A detokeniser that builds the text token by token: each token adds one
   * space when it starts a word, then its own text.
   */
  ghost predicate ConcatenatingDetokenizer(tk: Tokenizer, tokens: seq<Token>) {
    && tk.tokensToString([]) == ""
    && forall i :: 0 <= i < |tokens| ==>
         Prefix(tk, tokens, i + 1) == Prefix(tk, tokens, i) + Separator(tokens[i]) + CurrentText(tk, tokens, i)
  }

  ghost predicate NoEmptyPieces(tk: Tokenizer, tokens: seq<Token>) {
    forall i :: 0 <= i < |tokens| ==> CurrentText(tk, tokens, i) != ""
  }

  lemma {:induction false} PrefixGrows(tk: Tokenizer, tokens: seq<Token>, i: nat, j: nat)
    requires ConcatenatingDetokenizer(tk, tokens)
    requires i <= j <= |tokens|
    ensures |Prefix(tk, tokens, i)| <= |Prefix(tk, tokens, j)|
    ensures Prefix(tk, tokens, j)[..|Prefix(tk, tokens, i)|] == Prefix(tk, tokens, i)
    decreases j - i
  {
    if i < j {
      PrefixGrows(tk, tokens, i + 1, j);
      var a := Prefix(tk, tokens, i);
      var b := Prefix(tk, tokens, i + 1);
      var c := Prefix(tk, tokens, j);
      assert b == a + Separator(tokens[i]) + CurrentText(tk, tokens, i);
      assert c[..|b|] == b;
      assert b[..|a|] == a;
      assert c[..|a|] == c[..|b|][..|a|];
    }
  }

  lemma CursorIsPrefixLength(tk: Tokenizer, tokens: seq<Token>, i: nat)
    requires ConcatenatingDetokenizer(tk, tokens) && NoEmptyPieces(tk, tokens)
    requires i <= |tokens|
    ensures CursorAfter(tk, tokens, i) == |Prefix(tk, tokens, i)|
  {
    if i == 0 {
      assert tokens[..0] == [];
    } else {
      assert FullText(tk, tokens, i - 1) == Prefix(tk, tokens, i);
    }
  }

  /**
   * With a concatenating detokeniser and no token that renders to nothing,
   * every span's range picks its own text out of the detokenised sentence,
   * and the spans are ascending and do not overlap.
   */
  lemma {:induction false} OffsetsMatchDetokenizedText(tk: Tokenizer, tokens: seq<Token>, isNsw: seq<int>)
    requires |isNsw| == |tokens|
    requires ConcatenatingDetokenizer(tk, tokens) && NoEmptyPieces(tk, tokens)
    ensures var spans := AlignedSpans(tk, tokens, isNsw, |tokens|);
            var text := tk.tokensToString(tokens);
            && (forall k :: 0 <= k < |spans| ==>
                  spans[k].start <= spans[k].end <= |text| && text[spans[k].start..spans[k].end] == spans[k].nsw)
            && (forall j, k :: 0 <= j < k < |spans| ==> spans[j].end <= spans[k].start)
  {
    var spans := AlignedSpans(tk, tokens, isNsw, |tokens|);
    var text := tk.tokensToString(tokens);
    assert tokens[..|tokens|] == tokens;
    assert text == Prefix(tk, tokens, |tokens|);
    forall k | 0 <= k < |spans|
      ensures spans[k].start <= spans[k].end <= |text| && text[spans[k].start..spans[k].end] == spans[k].nsw
    {
      var i := spans[k].index;
      CursorIsPrefixLength(tk, tokens, i);
      PrefixGrows(tk, tokens, i + 1, |tokens|);
      var a := Prefix(tk, tokens, i);
      var b := Prefix(tk, tokens, i + 1);
      assert b == a + Separator(tokens[i]) + CurrentText(tk, tokens, i);
      assert spans[k].start == |a| + |Separator(tokens[i])|;
      assert spans[k].end == |b|;
      assert text[..|b|] == b;
      assert text[spans[k].start..spans[k].end] == b[spans[k].start..];
    }
    forall j, k | 0 <= j < k < |spans|
      ensures spans[j].end <= spans[k].start
    {
      var x := spans[j].index;
      var y := spans[k].index;
      CursorIsPrefixLength(tk, tokens, x);
      CursorIsPrefixLength(tk, tokens, y);
      var a := Prefix(tk, tokens, x);
      var b := Prefix(tk, tokens, x + 1);
      assert b == a + Separator(tokens[x]) + CurrentText(tk, tokens, x);
      PrefixGrows(tk, tokens, x + 1, y);
    }
  }

  // ---------------------------------------------------------------------
  // `concatenate_nsw_spans`

  /** Two spans that touch: the first ends where the second starts. */
  predicate Adjacent(a: Span, b: Span) {
    a.end == b.start
  }

  /** The earlier span absorbs the later one: its text grows and it ends where the later one ends. */
  function Fuse(a: Span, b: Span): Span {
    a.(nsw := a.nsw + b.nsw, end := b.end)
  }

  predicate NoAdjacentNeighbours(spans: seq<Span>) {
    forall k :: 0 <= k < |spans| - 1 ==> !Adjacent(spans[k], spans[k + 1])
  }

  /** The merged list, built the way the loop builds it, one input span at a time. */
  function Merged(spans: seq<Span>): (r: seq<Span>)
    requires |spans| > 0
    ensures 1 <= |r| <= |spans|
    ensures r[0].index == spans[0].index && r[0].start == spans[0].start
    ensures r[|r| - 1].end == spans[|spans| - 1].end
    decreases |spans|
  {
    if |spans| == 1 then spans
    else Absorb(Merged(spans[..|spans| - 1]), spans[|spans| - 1])
  }

  /** One step of the merge: the last merged span absorbs `next` when they touch, else `next` is appended. */
  function Absorb(m: seq<Span>, next: Span): (r: seq<Span>)
    requires |m| > 0
    ensures |m| <= |r| <= |m| + 1
    ensures r[0].index == m[0].index && r[0].start == m[0].start
    ensures r[|r| - 1].end == next.end
    ensures Adjacent(m[|m| - 1], next) ==> |r| == |m|
    ensures !Adjacent(m[|m| - 1], next) ==> r == m + [next]
  {
    var last := m[|m| - 1];
    if Adjacent(last, next) then m[..|m| - 1] + [Fuse(last, next)] else m + [next]
  }

  lemma MergedSnoc(spans: seq<Span>, i: nat)
    requires 0 < i < |spans|
    ensures var m := Merged(spans[..i]);
            Merged(spans[..i + 1]) ==
              if Adjacent(m[|m| - 1], spans[i]) then m[..|m| - 1] + [Fuse(m[|m| - 1], spans[i])]
              else m + [spans[i]]
  {
    assert spans[..i + 1][..i] == spans[..i];
  }

  /** One pass of the loop: the open span either absorbs the next one or is closed. */
  lemma MergedStep(spans: seq<Span>, i: nat, closed: seq<Span>, open: Span)
    requires 0 < i < |spans| && closed + [open] == Merged(spans[..i])
    ensures Adjacent(open, spans[i]) ==> closed + [Fuse(open, spans[i])] == Merged(spans[..i + 1])
    ensures !Adjacent(open, spans[i]) ==> (closed + [open]) + [spans[i]] == Merged(spans[..i + 1])
  {
    MergedSnoc(spans, i);
    var m := Merged(spans[..i]);
    assert m[|m| - 1] == open && m[..|m| - 1] == closed;
  }

  /** `concatenate_nsw_spans`; on an empty list it fails at `nsw_spans[0]`. */
  method ConcatenateNswSpans(spans: seq<Span>) returns (r: Result<seq<Span>>)
    ensures |spans| == 0 ==> r == Err(IndexError)
    ensures |spans| > 0 ==> r == Ok(Merged(spans))
  {
    if |spans| == 0 {
      return Err(IndexError);
    }
    var result := [];
    var current := spans[0];
    assert spans[..1] == [current];
    for i := 1 to |spans|
      invariant result + [current] == Merged(spans[..i])
    {
      var next := spans[i];
      MergedStep(spans, i, result, current);
      if current.end == next.start {
        current := current.(nsw := current.nsw + next.nsw, end := next.end);
      } else {
        result := result + [current];
        current := next;
      }
    }
    assert spans[..|spans|] == spans;
    result := result + [current];
    return Ok(result);
  }

  /** The concatenation of the spans' texts. */
  function Texts(spans: seq<Span>): string {
    if |spans| == 0 then "" else Texts(spans[..|spans| - 1]) + spans[|spans| - 1].nsw
  }

  lemma TextsSnoc(a: seq<Span>, x: Span)
    ensures Texts(a + [x]) == Texts(a) + x.nsw
  {
    assert (a + [x])[..|a|] == a;
  }

  /** Absorbing a span adds exactly its text at the end. */
  lemma AbsorbPreservesText(m: seq<Span>, next: Span)
    requires |m| > 0
    ensures Texts(Absorb(m, next)) == Texts(m) + next.nsw
  {
    var last := m[|m| - 1];
    if Adjacent(last, next) {
      var front := m[..|m| - 1];
      assert Absorb(m, next) == front + [Fuse(last, next)];
      assert Texts(m) == Texts(front) + last.nsw;
      FusedText(front, last, next);
    } else {
      TextsSnoc(m, next);
    }
  }

  /** Replacing the last span by its fusion with the next one appends the next one's text. */
  lemma FusedText(front: seq<Span>, last: Span, next: Span)
    ensures Texts(front + [Fuse(last, next)]) == (Texts(front) + last.nsw) + next.nsw
  {
    TextsSnoc(front, Fuse(last, next));
    assert Texts(front) + (last.nsw + next.nsw) == (Texts(front) + last.nsw) + next.nsw;
  }

  /** Merging never loses or reorders text: the merged texts spell the input texts. */
  lemma {:induction false} MergedPreservesText(spans: seq<Span>)
    requires |spans| > 0
    ensures Texts(Merged(spans)) == Texts(spans)
    decreases |spans|
  {
    if |spans| > 1 {
      var init := spans[..|spans| - 1];
      MergedPreservesText(init);
      AbsorbPreservesText(Merged(init), spans[|spans| - 1]);
      assert Texts(spans) == Texts(init) + spans[|spans| - 1].nsw;
    }
  }



  /** A list with no touching neighbours is left as it is. */
  lemma {:induction false} MergedUnadjacentIsIdentity(spans: seq<Span>)
    requires |spans| > 0 && NoAdjacentNeighbours(spans)
    ensures Merged(spans) == spans
    decreases |spans|
  {
    if |spans| > 1 {
      var init := spans[..|spans| - 1];
      assert NoAdjacentNeighbours(init);
      MergedUnadjacentIsIdentity(init);
      assert !Adjacent(spans[|spans| - 2], spans[|spans| - 1]);
      assert spans == init + [spans[|spans| - 1]];
    }
  }

  /** No two neighbours of the merged list touch: every run of touching spans became one span. */
  lemma {:induction false} MergedHasNoAdjacentNeighbours(spans: seq<Span>)
    requires |spans| > 0
    ensures NoAdjacentNeighbours(Merged(spans))
    decreases |spans|
  {
    if |spans| > 1 {
      var init := spans[..|spans| - 1];
      MergedHasNoAdjacentNeighbours(init);
      var m := Merged(init);
      var last := m[|m| - 1];
      var next := spans[|spans| - 1];
      var r := Merged(spans);
      if Adjacent(last, next) {
        assert r == m[..|m| - 1] + [Fuse(last, next)];
        forall k | 0 <= k < |r| - 1
          ensures !Adjacent(r[k], r[k + 1])
        {
          assert r[k] == m[k];
          if k + 1 < |m| - 1 {
            assert r[k + 1] == m[k + 1];
          } else {
            assert !Adjacent(m[k], m[k + 1]);
          }
        }
      } else {
        assert r == m + [next];
        forall k | 0 <= k < |r| - 1
          ensures !Adjacent(r[k], r[k + 1])
        {
          if k + 1 < |m| {
            assert !Adjacent(m[k], m[k + 1]);
          }
        }
      }
    }
  }

  /** Merging twice is merging once. */
  lemma MergedIsIdempotent(spans: seq<Span>)
    requires |spans| > 0
    ensures Merged(Merged(spans)) == Merged(spans)
  {
    MergedHasNoAdjacentNeighbours(spans);
    MergedUnadjacentIsIdentity(Merged(spans));
  }

  /** Fusing keeps the length of every range equal to the length of its text. */
  lemma {:induction false} MergedKeepsWellFormed(spans: seq<Span>)
    requires |spans| > 0
    requires forall k :: 0 <= k < |spans| ==> WellFormed(spans[k])
    ensures forall k :: 0 <= k < |Merged(spans)| ==> WellFormed(Merged(spans)[k])
    decreases |spans|
  {
    if |spans| > 1 {
      MergedKeepsWellFormed(spans[..|spans| - 1]);
    }
  }

  // ---------------------------------------------------------------------
  // The whole of `detect_nsw` once the Student's output is known

  /**
   * Special tokens are removed, `is_nsw` is filtered by the same positions,
   * the fold runs, and the spans are merged only when an input string was
   * given.
   */
  function Detection(tk: Tokenizer, out: InferenceOutput, merge: bool): Result<seq<Span>> {
    var (kept, keep) := DeleteSpecialTokens(out.sourceTokens);
    match SelectAt(out.isNsw, keep)
    case None => Err(IndexError)
    case Some(flags) =>
      var spans := AlignedSpans(tk, kept, flags, |kept|);
      if !merge then Ok(spans)
      else if |spans| == 0 then Err(IndexError)
      else Ok(Merged(spans))
  }

  /** The surviving tokens and their labels are parallel and come from the same positions. */
  lemma FilteredLabelsStayParallel(out: InferenceOutput)
    ensures var (kept, keep) := DeleteSpecialTokens(out.sourceTokens);
            var flags := SelectAt(out.isNsw, keep);
            && (flags.Some? <==> forall j :: 0 <= j < |keep| ==> keep[j] < |out.isNsw|)
            && (flags.Some? ==>
                  && |flags.value| == |kept|
                  && forall j :: 0 <= j < |kept| ==>
                       kept[j] == out.sourceTokens[keep[j]] && flags.value[j] == out.isNsw[keep[j]])
  {
  }

  /**
   * Without an input string the raw per-token spans come back; with one, the
   * merged spans, and a sentence with no NSW token fails in the merge.
   */
  lemma DetectionShape(tk: Tokenizer, out: InferenceOutput)
    ensures var (kept, keep) := DeleteSpecialTokens(out.sourceTokens);
            var flags := SelectAt(out.isNsw, keep);
            && (flags.None? ==> Detection(tk, out, false) == Err(IndexError) == Detection(tk, out, true))
            && (flags.Some? ==>
                  var spans := AlignedSpans(tk, kept, flags.value, |kept|);
                  && Detection(tk, out, false) == Ok(spans)
                  && (|spans| == 0 <==> Detection(tk, out, true) == Err(IndexError))
                  && (|spans| > 0 ==>
                        && Detection(tk, out, true) == Ok(Merged(spans))
                        && |Merged(spans)| <= |spans|
                        && Texts(Merged(spans)) == Texts(spans)))
  {
    var (kept, keep) := DeleteSpecialTokens(out.sourceTokens);
    var flags := SelectAt(out.isNsw, keep);
    if flags.Some? {
      var spans := AlignedSpans(tk, kept, flags.value, |kept|);
      if |spans| > 0 {
        MergedPreservesText(spans);
      }
    }
  }

  // ---------------------------------------------------------------------
  // The detector object

  class NswDetector {
    const tokenizer: Tokenizer
    const normalizer: Student
    var loaded: bool

    /**
     * A detector built without a Student creates one, loads `student_best`
     * into it and starts loaded; one handed a Student starts unloaded.
     * `pretrained` is the tokenizer looked up by the student's name.
     */
    constructor (tokenizer: Option<Tokenizer>, pretrained: Tokenizer, normalizer: Option<Student>,
                 studentModel: (Option<Checkpoint>, string) -> InferenceOutput)
      ensures loaded == normalizer.None?
      ensures this.tokenizer == if tokenizer.Some? then tokenizer.value else pretrained
      ensures normalizer.Some? ==> this.normalizer == normalizer.value
      ensures normalizer.None? ==>
        && fresh(this.normalizer) && this.normalizer.model == studentModel
        && this.normalizer.checkpoint == Some(StudentBest) && this.normalizer.loads == [StudentBest]
        && this.normalizer.inferenceCalls == 0
    {
      loaded := normalizer.None?;
      this.tokenizer := if tokenizer.Some? then tokenizer.value else pretrained;
      if normalizer.None? {
        var student := new Student(studentModel);
        student.Load(StudentBest);
        this.normalizer := student;
      } else {
        this.normalizer := normalizer.value;
      }
    }

    /** Loads `student_last` or `student_best` once; on a loaded detector it only logs. */
    method Load(last: bool)
      modifies this, normalizer
      ensures loaded
      ensures old(loaded) ==> unchanged(normalizer)
      ensures !old(loaded) ==>
        && normalizer.checkpoint == Some(if last then StudentLast else StudentBest)
        && normalizer.loads == old(normalizer.loads) + [if last then StudentLast else StudentBest]
        && normalizer.inferenceCalls == old(normalizer.inferenceCalls)
    {
      if !loaded {
        if last {
          normalizer.Load(StudentLast);
        } else {
          normalizer.Load(StudentBest);
        }
        loaded := true;
      }
    }

    /**
     * `detect_nsw(input_str, normalizer_output)`: loads when unloaded, runs
     * inference only when no output was handed in (which needs an input
     * string), then aligns and, given an input string, merges.
     */
    method DetectNsw(inputStr: Option<string>, normalizerOutput: Option<InferenceOutput>)
      returns (r: Result<seq<Span>>)
      modifies this, normalizer
      ensures loaded
      ensures normalizer.checkpoint == if old(loaded) then old(normalizer.checkpoint) else Some(StudentBest)
      ensures normalizer.loads == old(normalizer.loads) + (if old(loaded) then [] else [StudentBest])
      ensures normalizerOutput.Some? ==>
        && normalizer.inferenceCalls == old(normalizer.inferenceCalls)
        && r == Detection(tokenizer, normalizerOutput.value, inputStr.Some?)
      ensures normalizerOutput.None? && inputStr.None? ==>
        && normalizer.inferenceCalls == old(normalizer.inferenceCalls)
        && r == Err(AssertionError)
      ensures normalizerOutput.None? && inputStr.Some? ==>
        && normalizer.inferenceCalls == old(normalizer.inferenceCalls) + 1
        && r == Detection(tokenizer, normalizer.model(normalizer.checkpoint, inputStr.value), true)
    {
      if !loaded {
        Load(false);
      }
      var output: InferenceOutput;
      if normalizerOutput.None? {
        if inputStr.None? {
          return Err(AssertionError);
        }
        output := normalizer.Inference(inputStr.value);
      } else {
        output := normalizerOutput.value;
      }
      var (sourceTokens, keepIndices) := DeleteSpecialTokens(output.sourceTokens);
      var isNsw := SelectAt(output.isNsw, keepIndices);
      if isNsw.None? {
        return Err(IndexError);
      }
      var nswSpans := AlignSpans(tokenizer, sourceTokens, isNsw.value);
      if inputStr.Some? {
        r := ConcatenateNswSpans(nswSpans);
      } else {
        r := Ok(nswSpans);
      }
    }
  }
}

/** A concrete run of the fold showing what a token that renders to nothing does. */
module DetectExamples {
  import opened Wrappers
  import opened Collaborators
  import opened Detect

  /** A detokeniser that glues the tokens together. */
  function Glue(ts: seq<Token>): string {
    if |ts| == 0 then "" else Glue(ts[..|ts| - 1]) + ts[|ts| - 1]
  }

  lemma GlueOfExample()
    ensures Glue([]) == "" && Glue([""]) == "" && Glue(["", "ab"]) == "ab" && Glue(["", "ab", "c"]) == "abc"
    ensures Glue([""]) == "" && Glue(["ab"]) == "ab" && Glue(["c"]) == "c"
  {
    assert ["", "ab"][..1] == [""];
    assert ["", "ab", "c"][..2] == ["", "ab"];
    assert [""][..0] == [] && ["ab"][..0] == [] && ["c"][..0] == [];
  }

  lemma ExampleIsConcatenating()
    ensures ConcatenatingDetokenizer(Tokenizer(Glue, ids => []), ["", "ab", "c"])
  {
    var tk := Tokenizer(Glue, ids => []);
    var tokens: seq<Token> := ["", "ab", "c"];
    GlueOfExample();
    assert tokens[..0] == [] && tokens[..1] == [""] && tokens[..2] == ["", "ab"] && tokens[..3] == tokens;
    forall i | 0 <= i < |tokens|
      ensures Prefix(tk, tokens, i + 1) == Prefix(tk, tokens, i) + Separator(tokens[i]) + CurrentText(tk, tokens, i)
    {
      assert Separator(tokens[i]) == "";
    }
  }

  /**
   * Tokens `""`, `"ab"`, `"c"` with the last two labelled NSW: the empty
   * token pushes the cursor one past the text, so the span of `"ab"` is
   * `[1, 3)` although `"ab"` sits at `[0, 2)` of `"abc"`, and it overlaps the
   * span of `"c"`.
   */
  lemma EmptyPieceShiftsNextSpan()
    ensures ConcatenatingDetokenizer(Tokenizer(Glue, ids => []), ["", "ab", "c"])
    ensures Glue(["", "ab", "c"]) == "abc"
    ensures AlignedSpans(Tokenizer(Glue, ids => []), ["", "ab", "c"], [0, 1, 1], 3)
            == [Span(1, 1, 3, "ab", None, None), Span(2, 2, 3, "c", None, None)]
  {
    var tk := Tokenizer(Glue, ids => []);
    var tokens: seq<Token> := ["", "ab", "c"];
    ExampleIsConcatenating();
    GlueOfExample();
    assert tokens[..1] == [""] && tokens[..2] == ["", "ab"] && tokens[..3] == tokens;
    assert CursorAfter(tk, tokens, 1) == 1;
    assert CursorAfter(tk, tokens, 2) == 2;
    assert !Emits(tk, tokens, [0, 1, 1], 0);
    assert AlignedSpans(tk, tokens, [0, 1, 1], 1) == [];
    assert AlignedSpans(tk, tokens, [0, 1, 1], 2) == [Span(1, 1, 3, "ab", None, None)];
  }

  /** A detokeniser that renders a lone word-initial token without its leading space. */
  function TrimLead(ts: seq<Token>): string {
    if |ts| == 1 && StartsWithMarker(ts[0]) then ts[0][1..] else Glue(ts)
  }

  /**
   * The single NSW token `"\U{2581}ab"` under a detokeniser that drops the
   * leading space: the text is `"ab"`, at `[0, 2)`, but the cursor still
   * steps over the marker, so the span is `[1, 3)` and runs past the text.
   */
  lemma TrimmedFirstTokenShiftsSpan()
    ensures TrimLead(["\U{2581}ab"]) == "ab"
    ensures AlignedSpans(Tokenizer(TrimLead, ids => []), ["\U{2581}ab"], [1], 1)
            == [Span(0, 1, 3, "ab", None, None)]
    ensures 3 > |TrimLead(["\U{2581}ab"])|
  {
  }
}
