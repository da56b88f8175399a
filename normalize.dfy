/**
 * The Student-backed normaliser: one forward pass, the NSW spans of that same
 * output annotated with the predicted replacement, and the normalised text.
 */
module Normalize {
  import opened Wrappers
  import opened Collaborators
  import opened Detect

  /** `(nsw_spans, pred_str)` when detection is asked for, otherwise `pred_str` alone. */
  datatype Normalized = WithSpans(spans: seq<Span>, text: string) | TextOnly(text: string)

  /** Every span's `index + 1` is a position of both the predicted tokens and the probabilities. */
  predicate Annotatable(spans: seq<Span>, decodedPred: seq<Token>, proba: seq<real>) {
    forall k :: 0 <= k < |spans| ==> spans[k].index + 1 < |decodedPred| && spans[k].index + 1 < |proba|
  }

  /** The span with its `prediction` and `confidence_score` keys filled in. */
  function Annotate(tk: Tokenizer, s: Span, decodedPred: seq<Token>, proba: seq<real>): Span
    requires s.index + 1 < |decodedPred| && s.index + 1 < |proba|
  {
    s.(prediction := Some(tk.tokensToString([decodedPred[s.index + 1]])), confidence := Some(proba[s.index + 1]))
  }

  /**
   * The loop of `normalize_sentence` that writes a prediction and a
   * confidence into each span, reading the predicted token one position
   * after the span's token.
   */
  method AnnotateSpans(tk: Tokenizer, spans: seq<Span>, decodedPred: seq<Token>, proba: seq<real>)
    returns (r: Result<seq<Span>>)
    ensures r.Ok? <==> Annotatable(spans, decodedPred, proba)
    ensures r.Err? ==> r.error == IndexError
    ensures r.Ok? ==>
      && |r.value| == |spans|
      && forall k :: 0 <= k < |spans| ==>
           && r.value[k] == Annotate(tk, spans[k], decodedPred, proba)
           && r.value[k].(prediction := None, confidence := None) == spans[k].(prediction := None, confidence := None)
  {
    var annotated := spans;
    for i := 0 to |spans|
      invariant |annotated| == |spans|
      invariant forall k :: 0 <= k < i ==>
        spans[k].index + 1 < |decodedPred| && spans[k].index + 1 < |proba|
      invariant forall k :: 0 <= k < i ==> annotated[k] == Annotate(tk, spans[k], decodedPred, proba)
      invariant forall k :: i <= k < |spans| ==> annotated[k] == spans[k]
    {
      var nswIdx := annotated[i].index;
      if nswIdx + 1 >= |decodedPred| || nswIdx + 1 >= |proba| {
        return Err(IndexError);
      }
      var prediction := tk.tokensToString([decodedPred[nswIdx + 1]]);
      annotated := annotated[i := annotated[i].(prediction := Some(prediction), confidence := Some(proba[nswIdx + 1]))];
    }
    return Ok(annotated);
  }

  /**
   * What `normalize_sentence` returns for the Student's output `out`.  The
   * detection branch detokenises the prediction with special tokens removed,
   * the other branch detokenises all of it; in the detection branch the spans
   * are merged on a copy that is thrown away, so an empty span list fails.
   */
  function NormalizedOutput(tk: Tokenizer, postProcess: string -> string, out: InferenceOutput, detectNsw: bool)
    : Result<Normalized>
  {
    var decodedPred := tk.idsToTokens(out.pred);
    if !detectNsw then Ok(TextOnly(postProcess(tk.tokensToString(decodedPred))))
    else match Detection(tk, out, false)
      case Err(e) => Err(e)
      case Ok(spans) => WithPredictions(tk, postProcess, spans, decodedPred, out.proba)
  }

  /** The detection branch once the per-token spans are known. */
  function WithPredictions(tk: Tokenizer, postProcess: string -> string, spans: seq<Span>,
                           decodedPred: seq<Token>, proba: seq<real>): Result<Normalized>
  {
    if !Annotatable(spans, decodedPred, proba) then Err(IndexError)
    else
      var annotated := seq(|spans|, k requires 0 <= k < |spans| => Annotate(tk, spans[k], decodedPred, proba));
      var (predTokens, keep) := DeleteSpecialTokens(decodedPred);
      if SelectAt(proba, keep).None? then Err(IndexError)
      else if |annotated| == 0 then Err(IndexError)
      else Ok(WithSpans(annotated, postProcess(tk.tokensToString(predTokens))))
  }

  /** The steps of the detection branch that follow the detector's call. */
  method FinishWithPredictions(tk: Tokenizer, postProcess: string -> string, detected: seq<Span>,
                               decodedPred: seq<Token>, proba: seq<real>) returns (r: Result<Normalized>)
    ensures r == WithPredictions(tk, postProcess, detected, decodedPred, proba)
  {
    var nswSpans := AnnotateSpans(tk, detected, decodedPred, proba);
    if nswSpans.Err? {
      return Err(nswSpans.error);
    }
    var spans := nswSpans.value;
    assert spans == seq(|detected|, k requires 0 <= k < |detected| => Annotate(tk, detected[k], decodedPred, proba));
    var (predTokens, keepIndices) := DeleteSpecialTokens(decodedPred);
    var keptProba := SelectAt(proba, keepIndices);
    if keptProba.None? {
      return Err(IndexError);
    }
    var predStr := tk.tokensToString(predTokens);
    predStr := postProcess(predStr);
    var concatNswSpans := ConcatenateNswSpans(spans);
    if concatNswSpans.Err? {
      return Err(concatNswSpans.error);
    }
    return Ok(WithSpans(spans, predStr));
  }

  /** The shape of the result follows the flag; the plain branch never fails. */
  lemma ResultShapeFollowsFlag(tk: Tokenizer, postProcess: string -> string, out: InferenceOutput, detectNsw: bool)
    ensures var r := NormalizedOutput(tk, postProcess, out, detectNsw);
            && (!detectNsw ==> r.Ok?)
            && (r.Ok? ==> (r.value.WithSpans? <==> detectNsw))
  {
  }

  /**
   * The spans returned with the normalised text are the per-token spans of
   * the detector, unmerged, each given the prediction and the confidence at `index + 1`; the
   * other span fields are those the detector produced.
   */
  lemma ReturnedSpansAreUnmerged(tk: Tokenizer, postProcess: string -> string, out: InferenceOutput)
    requires NormalizedOutput(tk, postProcess, out, true).Ok?
    ensures Detection(tk, out, false).Ok?
    ensures var raw := Detection(tk, out, false).value;
            var returned := NormalizedOutput(tk, postProcess, out, true).value.spans;
            var decodedPred := tk.idsToTokens(out.pred);
            && |raw| > 0 && |returned| == |raw|
            && forall k :: 0 <= k < |raw| ==>
                 && returned[k].(prediction := None, confidence := None) == raw[k]
                 && raw[k].index + 1 < |decodedPred| && raw[k].index + 1 < |out.proba|
                 && returned[k].prediction == Some(tk.tokensToString([decodedPred[raw[k].index + 1]]))
                 && returned[k].confidence == Some(out.proba[raw[k].index + 1])
  {
    var raw := Detection(tk, out, false).value;
    UnmergedSpansAreBare(tk, out);
    var decodedPred := tk.idsToTokens(out.pred);
    assert NormalizedOutput(tk, postProcess, out, true) == WithPredictions(tk, postProcess, raw, decodedPred, out.proba);
    WithPredictionsAnnotates(tk, postProcess, raw, decodedPred, out.proba);
  }

  /** The detector's unmerged spans carry neither prediction nor confidence. */
  lemma UnmergedSpansAreBare(tk: Tokenizer, out: InferenceOutput)
    ensures Detection(tk, out, false).Ok? ==>
      forall k :: 0 <= k < |Detection(tk, out, false).value| ==>
        Detection(tk, out, false).value[k].prediction.None? && Detection(tk, out, false).value[k].confidence.None?
  {
    var (kept, keep) := DeleteSpecialTokens(out.sourceTokens);
    var flags := SelectAt(out.isNsw, keep);
    if flags.Some? {
      var raw := AlignedSpans(tk, kept, flags.value, |kept|);
      assert Detection(tk, out, false) == Ok(raw);
    }
  }

  lemma WithPredictionsAnnotates(tk: Tokenizer, postProcess: string -> string, spans: seq<Span>,
                                 decodedPred: seq<Token>, proba: seq<real>)
    requires WithPredictions(tk, postProcess, spans, decodedPred, proba).Ok?
    requires forall k :: 0 <= k < |spans| ==> spans[k].prediction.None? && spans[k].confidence.None?
    ensures var returned := WithPredictions(tk, postProcess, spans, decodedPred, proba).value.spans;
            && |spans| > 0 && |returned| == |spans|
            && forall k :: 0 <= k < |spans| ==>
                 && returned[k].(prediction := None, confidence := None) == spans[k]
                 && spans[k].index + 1 < |decodedPred| && spans[k].index + 1 < |proba|
                 && returned[k].prediction == Some(tk.tokensToString([decodedPred[spans[k].index + 1]]))
                 && returned[k].confidence == Some(proba[spans[k].index + 1])
  {
  }

  lemma {:induction false} MergedFullLengthIsIdentity(spans: seq<Span>)
    requires |spans| > 0 && |Merged(spans)| == |spans|
    ensures Merged(spans) == spans
    decreases |spans|
  {
    if |spans| > 1 {
      var init := spans[..|spans| - 1];
      var m := Merged(init);
      var next := spans[|spans| - 1];
      assert Merged(spans) == Absorb(m, next);
      // fusing would leave the list shorter than the input
      assert !Adjacent(m[|m| - 1], next);
      MergedFullLengthIsIdentity(init);
      assert spans == init + [next];
    }
  }

  /** Touching spans are fused by the detector's merge, so merging shortens such a list. */
  lemma MergeShortensTouchingSpans(spans: seq<Span>, k: nat)
    requires k + 1 < |spans| && Adjacent(spans[k], spans[k + 1])
    ensures |Merged(spans)| < |spans|
  {
    if |Merged(spans)| == |spans| {
      MergedFullLengthIsIdentity(spans);
    }
  }

  /**
   * The normaliser keeps touching per-token spans apart (as in `ch`, `ệ`,
   * `u`): it returns more spans than the detector's merged result holds.
   */
  lemma NormalizerKeepsTouchingSpansApart(tk: Tokenizer, postProcess: string -> string, out: InferenceOutput, k: nat)
    requires NormalizedOutput(tk, postProcess, out, true).Ok?
    requires Detection(tk, out, false).Ok?
    requires var raw := Detection(tk, out, false).value;
             k + 1 < |raw| && Adjacent(raw[k], raw[k + 1])
    ensures Detection(tk, out, true).Ok?
    ensures |NormalizedOutput(tk, postProcess, out, true).value.spans| > |Detection(tk, out, true).value|
  {
    ReturnedSpansAreUnmerged(tk, postProcess, out);
    var raw := Detection(tk, out, false).value;
    DetectionShape(tk, out);
    MergeShortensTouchingSpans(raw, k);
  }

  /** Asking for spans on a sentence with no NSW token fails in the discarded merge. */
  lemma NoSpansFailsInDetectMode(tk: Tokenizer, postProcess: string -> string, out: InferenceOutput)
    requires Detection(tk, out, false) == Ok([])
    ensures NormalizedOutput(tk, postProcess, out, true) == Err(IndexError)
  {
  }

  lemma {:induction false} KeepIndicesWithoutSpecials(tokens: seq<Token>)
    requires forall i :: 0 <= i < |tokens| ==> !IsSpecial(tokens[i])
    ensures |KeepIndices(tokens)| == |tokens|
    ensures forall j :: 0 <= j < |tokens| ==> KeepIndices(tokens)[j] == j
    decreases |tokens|
  {
    if |tokens| > 0 {
      KeepIndicesWithoutSpecials(tokens[..|tokens| - 1]);
    }
  }

  /**
   * The two branches detokenise differently only through special tokens:
   * with none among the predicted tokens, both give the same text.
   */
  lemma BranchesAgreeWithoutSpecialTokens(tk: Tokenizer, postProcess: string -> string, out: InferenceOutput)
    requires forall i :: 0 <= i < |tk.idsToTokens(out.pred)| ==> !IsSpecial(tk.idsToTokens(out.pred)[i])
    requires NormalizedOutput(tk, postProcess, out, true).Ok?
    ensures NormalizedOutput(tk, postProcess, out, true).value.text
            == NormalizedOutput(tk, postProcess, out, false).value.text
  {
    var decodedPred := tk.idsToTokens(out.pred);
    KeepIndicesWithoutSpecials(decodedPred);
    var (predTokens, keep) := DeleteSpecialTokens(decodedPred);
    assert predTokens == decodedPred;
  }

  class ViSoLexNormalizer {
    const tokenizer: Tokenizer
    const normalizer: Student
    const inferenceModel: string
    const postProcess: string -> string
    var loaded: bool
    var nswDetector: NswDetector?

    /** A fresh, unloaded Student over the tokenizer looked up by the student's name. */
    constructor (pretrained: Tokenizer, studentModel: (Option<Checkpoint>, string) -> InferenceOutput,
                 inferenceModel: string, postProcess: string -> string)
      ensures tokenizer == pretrained && this.inferenceModel == inferenceModel && this.postProcess == postProcess
      ensures fresh(normalizer) && normalizer.model == studentModel
      ensures normalizer.checkpoint == None && normalizer.loads == [] && normalizer.inferenceCalls == 0
      ensures !loaded && nswDetector == null
    {
      tokenizer := pretrained;
      normalizer := new Student(studentModel);
      this.inferenceModel := inferenceModel;
      this.postProcess := postProcess;
      loaded := false;
      nswDetector := null;
    }

    /**
     * Loads `student_last` or `student_best` and marks the normaliser loaded;
     * a request for the teacher only prints a notice and loads the Student.
     */
    method Load(last: bool)
      modifies this, normalizer
      ensures loaded && nswDetector == old(nswDetector)
      ensures normalizer.checkpoint == Some(if last then StudentLast else StudentBest)
      ensures normalizer.loads == old(normalizer.loads) + [if last then StudentLast else StudentBest]
      ensures normalizer.inferenceCalls == old(normalizer.inferenceCalls)
    {
      if last {
        normalizer.Load(StudentLast);
      } else {
        normalizer.Load(StudentBest);
      }
      loaded := true;
    }

    /**
     * `normalize_sentence`: loads when needed, makes exactly one forward pass,
     * and in the detection branch hands that same output to a new detector
     * built over the shared Student.  That detector starts unloaded, so it
     * loads `student_best` into the Student before aligning.
     */
    method NormalizeSentence(inputStr: string, detectNsw: bool) returns (r: Result<Normalized>)
      modifies this, normalizer
      ensures loaded
      ensures normalizer.inferenceCalls == old(normalizer.inferenceCalls) + 1
      ensures var used := if old(loaded) then old(normalizer.checkpoint) else Some(StudentBest);
              && r == NormalizedOutput(tokenizer, postProcess, normalizer.model(used, inputStr), detectNsw)
              && normalizer.checkpoint == (if detectNsw then Some(StudentBest) else used)
      ensures normalizer.loads ==
        old(normalizer.loads) + (if old(loaded) then [] else [StudentBest]) + (if detectNsw then [StudentBest] else [])
      ensures detectNsw ==>
        && nswDetector != null && fresh(nswDetector) && nswDetector.loaded
        && nswDetector.normalizer == normalizer && nswDetector.tokenizer == tokenizer
      ensures !detectNsw ==> nswDetector == old(nswDetector)
    {
      if !loaded {
        Load(false);
      }
      var output := normalizer.Inference(inputStr);
      var pred := output.pred;
      var proba := output.proba;
      var decodedPred := tokenizer.idsToTokens(pred);
      if detectNsw {
        var detector := new NswDetector(Some(tokenizer), tokenizer, Some(normalizer), normalizer.model);
        nswDetector := detector;
        var detected := detector.DetectNsw(None, Some(output));
        if detected.Err? {
          return Err(detected.error);
        }
        r := FinishWithPredictions(tokenizer, postProcess, detected.value, decodedPred, proba);
      } else {
        var predStr := tokenizer.tokensToString(decodedPred);
        predStr := postProcess(predStr);
        return Ok(TextOnly(predStr));
      }
    }
  }
}
