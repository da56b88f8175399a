/**
 * The external collaborators of the lexical-normalisation core: the subword
 * tokenizer, the special-token filter of the utilities package, and the
 * Student model wrapper.  The tokenizer's detokenizer and id-to-token map are
 * uninterpreted: they are carried as function values, so every property proved
 * about the core holds for every tokenizer.
 */
module Collaborators {
  import opened Wrappers

  type Token = string

  /** The SentencePiece word-boundary marker U+2581 that subword tokens start with. */
  const WordBoundaryMarker: char := '\U{2581}'

  predicate StartsWithMarker(t: Token) {
    |t| > 0 && t[0] == WordBoundaryMarker
  }

  /** SPECIAL_TOKEN_LS: the null-space, mask, sentence-start, sentence-end and unknown tokens. */
  const SpecialTokens: seq<string> := ["<space>", "<mask>", "<s>", "</s>", "<unk>"]

  predicate IsSpecial(t: Token) {
    t in SpecialTokens
  }

  /** The ascending positions of the tokens that are not special. */
  function KeepIndices(tokens: seq<Token>): (r: seq<nat>)
    ensures |r| <= |tokens|
    ensures forall j :: 0 <= j < |r| ==> r[j] < |tokens| && !IsSpecial(tokens[r[j]])
    ensures forall j, k :: 0 <= j < k < |r| ==> r[j] < r[k]
    ensures forall i :: 0 <= i < |tokens| && !IsSpecial(tokens[i]) ==> i in r
    decreases |tokens|
  {
    if |tokens| == 0 then []
    else
      var init := tokens[..|tokens| - 1];
      KeepIndices(init) + (if IsSpecial(tokens[|tokens| - 1]) then [] else [|tokens| - 1])
  }

  /** `delete_special_tokens(tokens)`: the surviving tokens and the positions they came from. */
  function DeleteSpecialTokens(tokens: seq<Token>): (r: (seq<Token>, seq<nat>))
    ensures r.1 == KeepIndices(tokens)
    ensures |r.0| == |r.1|
    ensures forall j :: 0 <= j < |r.0| ==> r.1[j] < |tokens| && r.0[j] == tokens[r.1[j]]
    ensures forall j :: 0 <= j < |r.0| ==> !IsSpecial(r.0[j])
  {
    var keep := KeepIndices(tokens);
    (seq(|keep|, j requires 0 <= j < |keep| => tokens[keep[j]]), keep)
  }

  /** The comprehension `[s[i] for i in idx]`, which raises IndexError on an index past the end. */
  function SelectAt<T>(s: seq<T>, idx: seq<nat>): (r: Option<seq<T>>)
    ensures r.Some? <==> forall j :: 0 <= j < |idx| ==> idx[j] < |s|
    ensures r.Some? ==> |r.value| == |idx| && forall j :: 0 <= j < |idx| ==> r.value[j] == s[idx[j]]
    decreases |idx|
  {
    if |idx| == 0 then Some([])
    else if idx[0] >= |s| then None
    else match SelectAt(s, idx[1..])
      case None => None
      case Some(rest) => Some([s[idx[0]]] + rest)
  }

  /**
   * The tokenizer's capabilities: `convert_tokens_to_string` (detokenisation)
   * and `convert_ids_to_tokens`.
   */
  datatype Tokenizer = Tokenizer(
    tokensToString: seq<Token> -> string,
    idsToTokens: seq<int> -> seq<Token>)

  /** What one forward pass of the Student returns for a sentence. */
  datatype InferenceOutput = InferenceOutput(
    sourceTokens: seq<Token>,
    isNsw: seq<int>,
    pred: seq<int>,
    proba: seq<real>)

  /** The checkpoint names under which models are saved and loaded. */
  datatype Checkpoint = StudentLast | StudentBest | TeacherLast | TeacherBest

  /**
   * The Student model wrapper, reduced to what the core observes: which
   * checkpoint it holds, the checkpoints it was asked to load, and how many
   * forward passes it made.  Its network is the function `model` of the
   * loaded checkpoint and the input sentence.
   */
  class Student {
    const model: (Option<Checkpoint>, string) -> InferenceOutput
    var checkpoint: Option<Checkpoint>
    var loads: seq<Checkpoint>
    var inferenceCalls: nat

    constructor (model: (Option<Checkpoint>, string) -> InferenceOutput)
      ensures this.model == model
      ensures checkpoint == None && loads == [] && inferenceCalls == 0
    {
      this.model := model;
      checkpoint := None;
      loads := [];
      inferenceCalls := 0;
    }

    method Load(name: Checkpoint)
      modifies this
      ensures checkpoint == Some(name)
      ensures loads == old(loads) + [name]
      ensures inferenceCalls == old(inferenceCalls)
    {
      checkpoint := Some(name);
      loads := loads + [name];
    }

    method Inference(userInput: string) returns (out: InferenceOutput)
      modifies this
      ensures out == model(checkpoint, userInput)
      ensures checkpoint == old(checkpoint) && loads == old(loads)
      ensures inferenceCalls == old(inferenceCalls) + 1
    {
      out := model(checkpoint, userInput);
      inferenceCalls := inferenceCalls + 1;
    }
  }
}
