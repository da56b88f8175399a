/**
 * The self-training bookkeeping of the trainer: a supervised warm-up, then
 * `numIter` rounds of pseudo-labelling (by the Student in semi-supervised
 * mode, by the Teacher in weakly-supervised mode), with the result histories,
 * the promotion of the best checkpoints and the final best-epoch selection.
 *
 * Everything neural (training, prediction, evaluation) is an oracle of the
 * round number: the round of the warm-up is 0 and round `r` is the one in
 * which the dev history holds `r` records before the append.
 */
module Trainer {
  import opened Wrappers
  import opened Collaborators

  datatype Mode = Supervised | SemiSupervised | WeaklySupervised | OtherMode(name: string)

  /** What `evaluate` reports; `perf` is the figure the trainer compares. */
  datatype Record = Record(precision: real, recall: real, f1Score: real, accuracy: real, perf: real)

  /** The all-zero record the Teacher histories are seeded with. */
  const ZeroRecord: Record := Record(0.0, 0.0, 0.0, 0.0, 0.0)

  /** A predicted class distribution: never empty. */
  type Distribution = s: seq<real> | |s| > 0 witness [1.0]

  /** One row of a predictor's output on the unlabeled data. */
  datatype Prediction = Prediction(id: int, inputIds: seq<int>, isNsw: seq<int>, alignIndex: seq<int>,
                                   pred: int, proba: Distribution)

  /** One row of a pseudo-dataset partition. */
  datatype Row = Row(id: int, inputIds: seq<int>, isNsw: seq<int>, alignIndex: seq<int>,
                     labels: int, proba: seq<real>, weight: real)

  /**
   * The pseudo-dataset: the rows built from the unlabeled data, the current
   * downsample of them, and the Student and Teacher partitions.
   */
  datatype PseudoDataset = PseudoDataset(source: seq<Row>, sample: seq<Row>,
                                         studentData: seq<Row>, teacherData: seq<Row>)

  /** The three ways the Student is trained, and the data each call receives. */
  datatype TrainKind = TrainLabeled | TrainPseudo | Finetune
  datatype TrainData = LabeledData | PseudoRows(rows: seq<Row>)
  datatype TrainCall = TrainCall(kind: TrainKind, data: TrainData)

  /** A value of the `results` dictionary: one record or a history. */
  datatype Entry = One(record: Record) | History(records: seq<Record>)

  /** The neural collaborators, as functions of the round. */
  datatype Oracles = Oracles(
    studentTrain: (nat, TrainCall) -> Record,
    studentDev: nat -> Record,
    studentTest: nat -> Record,
    studentTestPredictions: nat -> seq<Prediction>,
    studentPredict: (nat, seq<Row>) -> seq<Prediction>,
    teacherPredict: (nat, seq<Row>) -> seq<Prediction>,
    teacherDev: nat -> Record,
    teacherTest: nat -> Record,
    sampleMask: nat -> seq<bool>,
    hiddenSize: int,
    dModel: int)

  /** The training arguments and collaborators the trainer is built with. */
  datatype Config = Config(mode: Mode, numIter: nat, sampleSize: nat, studentName: string,
                           unlabeled: Option<seq<Row>>, oracles: Oracles)

  /** Everything the trainer holds, field by field. */
  datatype State = State(
    pseudo: Option<PseudoDataset>,
    downsamples: nat,
    teacherTrainRes: seq<Record>,
    teacherDevRes: seq<Record>,
    teacherTestRes: seq<Record>,
    trainRes: seq<Record>,
    devRes: seq<Record>,
    testRes: seq<Record>,
    studentPreds: seq<seq<Prediction>>,
    results: map<string, Entry>,
    trainCalls: seq<TrainCall>,
    saves: seq<Checkpoint>,
    teacherXdim: Option<int>)

  /** What `train` reports besides its state: the two best epochs and the predictions it writes. */
  datatype Outcome = Outcome(bestDevEpoch: nat, bestTestEpoch: nat, written: Option<seq<Prediction>>)

  // ---------------------------------------------------------------------
  // Maxima and arg-maxima
  // ---------------------------------------------------------------------

  function Perfs(rs: seq<Record>): (r: seq<real>)
    ensures |r| == |rs|
    ensures forall i :: 0 <= i < |rs| ==> r[i] == rs[i].perf
  {
    seq(|rs|, i requires 0 <= i < |rs| => rs[i].perf)
  }

  lemma PerfsSnoc(rs: seq<Record>, x: Record)
    ensures Perfs(rs + [x]) == Perfs(rs) + [x.perf]
  {
  }

  /** `max(s)` (and `np.max`): an element of `s` that no element exceeds. */
  function Max(s: seq<real>): (m: real)
    requires |s| > 0
    ensures m in s
    ensures forall i :: 0 <= i < |s| ==> s[i] <= m
    decreases |s|
  {
    if |s| == 1 then s[0]
    else
      var m := Max(s[..|s| - 1]);
      assert forall i :: 0 <= i < |s| - 1 ==> s[i] == s[..|s| - 1][i];
      if s[|s| - 1] > m then s[|s| - 1] else m
  }

  /** The maximum is the only element of `s` that bounds every element. */
  lemma MaxIsUnique(s: seq<real>, m: real)
    requires |s| > 0 && m in s && forall i :: 0 <= i < |s| ==> s[i] <= m
    ensures Max(s) == m
  {
  }

  /** `np.argmax(s)`: the first position holding the maximum. */
  function FirstArgMax(s: seq<real>): (k: nat)
    requires |s| > 0
    ensures k < |s| && s[k] == Max(s)
    ensures forall j :: 0 <= j < k ==> s[j] < s[k]
    decreases |s|
  {
    if |s| == 1 then 0
    else
      var k := FirstArgMax(s[..|s| - 1]);
      assert forall j :: 0 <= j < |s| - 1 ==> s[j] == s[..|s| - 1][j];
      if s[|s| - 1] > s[k] then |s| - 1 else k
  }

  /** `s[::-1]`. */
  function Reverse(s: seq<real>): (r: seq<real>)
    ensures |r| == |s|
    ensures forall i :: 0 <= i < |s| ==> r[i] == s[|s| - 1 - i]
  {
    seq(|s|, i requires 0 <= i < |s| => s[|s| - 1 - i])
  }

  /** `len(s) - np.argmax(s[::-1]) - 1`, as the trainer writes it. */
  function LastArgMax(s: seq<real>): int
    requires |s| > 0
  {
    |s| - FirstArgMax(Reverse(s)) - 1
  }

  /** The trainer's formula picks the last position holding the maximum: ties go to the latest epoch. */
  lemma LastArgMaxIsLastMaximum(s: seq<real>)
    requires |s| > 0
    ensures 0 <= LastArgMax(s) < |s|
    ensures s[LastArgMax(s)] == Max(s)
    ensures forall j :: LastArgMax(s) < j < |s| ==> s[j] < s[LastArgMax(s)]
  {
    var r := Reverse(s);
    var k := FirstArgMax(r);
    var m := Max(r);
    assert m in s by {
      assert r[k] == s[|s| - 1 - k];
    }
    forall i | 0 <= i < |s| ensures s[i] <= m {
      assert s[i] == r[|s| - 1 - i];
    }
    MaxIsUnique(s, m);
    forall j | |s| - k - 1 < j < |s| ensures s[j] < s[|s| - k - 1] {
      assert s[j] == r[|s| - 1 - j];
    }
  }

  // ---------------------------------------------------------------------
  // Promotion of the best checkpoints
  // ---------------------------------------------------------------------

  /** Round `k` is saved as best: its dev figure beats the maximum of all earlier ones. */
  predicate Promoted(perfs: seq<real>, k: nat)
    requires 1 <= k < |perfs|
  {
    perfs[k] > Max(perfs[..k])
  }

  /** The saves of the promotions in rounds `from` to the last, `best` for each. */
  function Promotions(perfs: seq<real>, from: nat, best: seq<Checkpoint>): seq<Checkpoint>
    requires 1 <= from <= |perfs|
    decreases |perfs|
  {
    if |perfs| == from then []
    else Promotions(perfs[..|perfs| - 1], from, best) + (if Promoted(perfs, |perfs| - 1) then best else [])
  }

  /** A round is promoted exactly when it beats every earlier round: a strict new running maximum. */
  lemma PromotedIffStrictNewMaximum(perfs: seq<real>, k: nat)
    requires 1 <= k < |perfs|
    ensures Promoted(perfs, k) <==> forall j :: 0 <= j < k ==> perfs[j] < perfs[k]
  {
    var before := perfs[..k];
    assert forall j :: 0 <= j < k ==> perfs[j] == before[j];
  }

  lemma PromotionsSnoc(perfs: seq<real>, x: real, from: nat, best: seq<Checkpoint>)
    requires 1 <= from <= |perfs|
    ensures Promotions(perfs + [x], from, best) == Promotions(perfs, from, best) + (if x > Max(perfs) then best else [])
  {
    assert (perfs + [x])[..|perfs|] == perfs;
  }

  lemma AppendAssociates<T>(a: seq<T>, b: seq<T>, c: seq<T>)
    ensures (a + b) + c == a + (b + c)
  {
  }

  lemma AppendEmpty<T>(a: seq<T>)
    ensures [] + a == a + []
  {
    assert [] + a == a;
  }

  /** The promotions from round `from` on: that round's, then those of the later rounds. */
  lemma {:induction false} PromotionsCons(perfs: seq<real>, from: nat, best: seq<Checkpoint>)
    requires 1 <= from < |perfs|
    ensures Promotions(perfs, from, best)
            == (if Promoted(perfs, from) then best else []) + Promotions(perfs, from + 1, best)
    decreases |perfs|
  {
    var init := perfs[..|perfs| - 1];
    var head := if Promoted(perfs, from) then best else [];
    var last := if Promoted(perfs, |perfs| - 1) then best else [];
    if |perfs| > from + 1 {
      PromotionsCons(init, from, best);
      assert init[..from] == perfs[..from];
      assert Promoted(init, from) == Promoted(perfs, from);
      AppendAssociates(head, Promotions(init, from + 1, best), last);
    } else {
      assert init == perfs[..from];
      AppendEmpty(head);
    }
  }

  /**
   * The saves of rounds `|pre|` onwards of a dev history that continues
   * `pre` with `x`: the save of the round that appended `x`, then those of
   * the later rounds.
   */
  lemma SavesAfterRound(rs: seq<Record>, pre: seq<Record>, x: Record, best: seq<Checkpoint>,
                        before: seq<Checkpoint>, after: seq<Checkpoint>, final: seq<Checkpoint>)
    requires |pre| > 0 && |rs| > |pre| && rs[..|pre| + 1] == pre + [x]
    requires after == before + (if x.perf > Max(Perfs(pre)) then best else [])
    requires final == after + Promotions(Perfs(rs), |pre| + 1, best)
    ensures rs[..|pre|] == pre
    ensures final == before + Promotions(Perfs(rs), |pre|, best)
  {
    PromotedAtNextRound(rs, pre, x);
    var ps := Perfs(rs);
    var head := if x.perf > Max(Perfs(pre)) then best else [];
    var rest := Promotions(ps, |pre| + 1, best);
    PromotionsCons(ps, |pre|, best);
    assert Promotions(ps, |pre|, best) == head + rest;
    AppendAssociates(before, head, rest);
  }

  /** Round `|pre|` of a history that extends `pre` by `x` is a promotion exactly when `x` beats `pre`. */
  lemma PromotedAtNextRound(rs: seq<Record>, pre: seq<Record>, x: Record)
    requires |pre| > 0 && |rs| > |pre| && rs[..|pre| + 1] == pre + [x]
    ensures rs[..|pre|] == pre
    ensures Promoted(Perfs(rs), |pre|) == (x.perf > Max(Perfs(pre)))
  {
    assert rs[..|pre|] == rs[..|pre| + 1][..|pre|];
    assert (pre + [x])[..|pre|] == pre;
    assert rs[|pre|] == (pre + [x])[|pre|];
    PerfsPrefix(rs, |pre|);
  }

  /** The performances of a prefix are the prefix of the performances. */
  lemma PerfsPrefix(rs: seq<Record>, k: nat)
    requires k <= |rs|
    ensures Perfs(rs)[..k] == Perfs(rs[..k])
  {
  }


  /** After a promoted round `k`, the running maximum is the figure of round `k` until a later promotion. */
  lemma {:induction false} RunningMaximumAfterPromotion(perfs: seq<real>, k: nat, j: nat)
    requires 1 <= k < j <= |perfs| && Promoted(perfs, k)
    requires forall i :: k < i < j ==> !Promoted(perfs, i)
    ensures Max(perfs[..j]) == perfs[k]
    decreases j
  {
    assert perfs[..j] == perfs[..j - 1] + [perfs[j - 1]];
    MaxSnoc(perfs[..j - 1], perfs[j - 1]);
    if j > k + 1 {
      RunningMaximumAfterPromotion(perfs, k, j - 1);
      assert !Promoted(perfs, j - 1);
    }
  }

  lemma MaxSnoc(s: seq<real>, x: real)
    requires |s| > 0
    ensures Max(s + [x]) == if x > Max(s) then x else Max(s)
  {
    assert (s + [x])[..|s|] == s;
  }

  /**
   * The last promotion happens at the first round that reaches the overall
   * maximum, so the saved best checkpoint is the earliest best round.
   */
  lemma LastPromotionIsFirstMaximum(perfs: seq<real>, k: nat)
    requires 1 <= k < |perfs| && Promoted(perfs, k)
    requires forall i :: k < i < |perfs| ==> !Promoted(perfs, i)
    ensures FirstArgMax(perfs) == k
  {
    RunningMaximumAfterPromotion(perfs, k, |perfs|);
    assert perfs[..|perfs|] == perfs;
    PromotedIffStrictNewMaximum(perfs, k);
  }

  /** No round is ever promoted exactly when the warm-up already holds the maximum. */
  lemma NoPromotionIffWarmUpIsBest(perfs: seq<real>)
    requires |perfs| > 0
    ensures (forall k :: 1 <= k < |perfs| ==> !Promoted(perfs, k)) <==> FirstArgMax(perfs) == 0
  {
    if forall k :: 1 <= k < |perfs| ==> !Promoted(perfs, k) {
      forall j | 0 <= j < |perfs| ensures perfs[j] <= perfs[0] {
        if j > 0 {
          NoPromotionKeepsWarmUpMaximum(perfs, j + 1);
          assert perfs[..j + 1][j] == perfs[j];
        }
      }
      MaxIsUnique(perfs, perfs[0]);
    } else {
      var k :| 1 <= k < |perfs| && Promoted(perfs, k);
      PromotedIffStrictNewMaximum(perfs, k);
    }
  }

  lemma {:induction false} NoPromotionKeepsWarmUpMaximum(perfs: seq<real>, j: nat)
    requires 1 <= j <= |perfs|
    requires forall k :: 1 <= k < |perfs| ==> !Promoted(perfs, k)
    ensures Max(perfs[..j]) == perfs[0]
    decreases j
  {
    if j > 1 {
      NoPromotionKeepsWarmUpMaximum(perfs, j - 1);
      assert perfs[..j] == perfs[..j - 1] + [perfs[j - 1]];
      MaxSnoc(perfs[..j - 1], perfs[j - 1]);
      assert !Promoted(perfs, j - 1);
    }
  }

  /**
   * With the dev figures 1, 5, 5 the best checkpoint is saved in round 1
   * only, while the results report round 2: on a tie the saved model is
   * not the one whose figures are reported.
   */
  lemma TiedMaximumSplitsSavedAndReportedRound()
    ensures Promotions([1.0, 5.0, 5.0], 1, [StudentBest]) == [StudentBest]
    ensures Promoted([1.0, 5.0, 5.0], 1) && !Promoted([1.0, 5.0, 5.0], 2)
    ensures LastArgMax([1.0, 5.0, 5.0]) == 2
  {
    var s := [1.0, 5.0, 5.0];
    assert s[..1] == [1.0] && s[..2] == [1.0, 5.0];
    assert Max([1.0, 5.0]) == 5.0 by {
      MaxIsUnique([1.0, 5.0], 5.0);
    }
    assert Promotions([1.0, 5.0], 1, [StudentBest]) == [StudentBest] by {
      assert [1.0, 5.0][..1] == [1.0];
    }
    LastArgMaxIsLastMaximum(s);
  }

  // ---------------------------------------------------------------------
  // Downsampling and pseudo-labels
  // ---------------------------------------------------------------------

  /** The rows a random draw `mask` selects, in order, at most `n` of them. */
  function Sampled(rows: seq<Row>, mask: seq<bool>, n: nat): (r: seq<Row>)
    ensures |r| <= n && |r| <= |rows|
    decreases |rows|
  {
    if rows == [] || n == 0 then []
    else if |mask| > 0 && mask[0] then [rows[0]] + Sampled(rows[1..], mask[1..], n - 1)
    else Sampled(rows[1..], if |mask| > 0 then mask[1..] else [], n)
  }

  /** A downsample draws rows of the pseudo-dataset, each at most as often as it is there. */
  lemma {:induction false} SampledIsSubMultiset(rows: seq<Row>, mask: seq<bool>, n: nat)
    ensures multiset(Sampled(rows, mask, n)) <= multiset(rows)
    decreases |rows|
  {
    if rows != [] && n > 0 {
      assert rows == [rows[0]] + rows[1..];
      if |mask| > 0 && mask[0] {
        SampledIsSubMultiset(rows[1..], mask[1..], n - 1);
      } else {
        SampledIsSubMultiset(rows[1..], if |mask| > 0 then mask[1..] else [], n);
      }
    }
  }

  /** One written row: the prediction's columns, its class as the label and its top probability as the weight. */
  function Labelled(p: Prediction): Row {
    Row(p.id, p.inputIds, p.isNsw, p.alignIndex, p.pred, p.proba, Max(p.proba))
  }

  /** `drop(col='labels', value=v)`: the rows whose label is not `v`, in order. */
  function Dropped(rows: seq<Row>, v: int): (r: seq<Row>)
    ensures forall i :: 0 <= i < |r| ==> r[i].labels != v && r[i] in rows
    decreases |rows|
  {
    if rows == [] then []
    else
      var init := Dropped(rows[..|rows| - 1], v);
      var last := rows[|rows| - 1];
      if last.labels == v then init else init + [last]
  }

  /** Dropping keeps every row with another label. */
  lemma {:induction false} DroppedKeepsOtherLabels(rows: seq<Row>, v: int)
    ensures forall i :: 0 <= i < |rows| && rows[i].labels != v ==> rows[i] in Dropped(rows, v)
    decreases |rows|
  {
    if rows != [] {
      var init := rows[..|rows| - 1];
      DroppedKeepsOtherLabels(init, v);
      forall i | 0 <= i < |rows| - 1 && rows[i].labels != v ensures rows[i] in Dropped(rows, v) {
        assert rows[i] == init[i];
      }
    }
  }

  /** The rows a pseudo-label write leaves in its partition. */
  function PseudoLabelled(preds: seq<Prediction>): seq<Row> {
    Dropped(seq(|preds|, i requires 0 <= i < |preds| => Labelled(preds[i])), -1)
  }

  /**
   * Every row left by a pseudo-label write carries a real label, is weighted
   * by its top probability, and comes from a prediction; every prediction
   * with a real label is kept.
   */
  lemma PseudoLabelsAreWeightedAndFiltered(preds: seq<Prediction>)
    ensures forall r :: r in PseudoLabelled(preds) ==>
              r.labels != -1 && |r.proba| > 0 && r.weight == Max(r.proba)
              && (forall i :: 0 <= i < |r.proba| ==> r.proba[i] <= r.weight)
              && exists i :: 0 <= i < |preds| && r == Labelled(preds[i])
    ensures forall i :: 0 <= i < |preds| && preds[i].pred != -1 ==> Labelled(preds[i]) in PseudoLabelled(preds)
  {
    var written := seq(|preds|, i requires 0 <= i < |preds| => Labelled(preds[i]));
    DroppedKeepsOtherLabels(written, -1);
    forall r | r in PseudoLabelled(preds)
      ensures exists i :: 0 <= i < |preds| && r == Labelled(preds[i])
    {
      var i :| 0 <= i < |written| && written[i] == r;
      assert r == Labelled(preds[i]);
    }
    forall i | 0 <= i < |preds| && preds[i].pred != -1 ensures Labelled(preds[i]) in PseudoLabelled(preds) {
      assert written[i] == Labelled(preds[i]);
    }
  }

  /** `train_pseudo` trains on the Teacher partition in weakly-supervised mode and on the Student partition otherwise. */
  function PseudoPartition(mode: Mode, p: PseudoDataset): seq<Row> {
    if mode.WeaklySupervised? then p.teacherData else p.studentData
  }

  // ---------------------------------------------------------------------
  // The steps of training, on the whole state
  // ---------------------------------------------------------------------

  /** `create_pseudodataset(unlabeled)`: every part starts as the rows of the unlabeled data. */
  function Created(unlabeled: Option<seq<Row>>): PseudoDataset {
    var rows := if unlabeled.Some? then unlabeled.value else [];
    PseudoDataset(rows, rows, rows, rows)
  }

  /** `pseudodataset.downsample(sample_size)`, with the draw numbered by the downsamples so far. */
  function Downsampled(cfg: Config, st: State): State
    requires st.pseudo.Some?
  {
    var p := st.pseudo.value;
    var sample := Sampled(p.source, cfg.oracles.sampleMask(st.downsamples), cfg.sampleSize);
    st.(pseudo := Some(p.(sample := sample)), downsamples := st.downsamples + 1)
  }

  /** The state right after `__init__` passed its assertion. */
  function Initial(cfg: Config): (st: State)
    ensures Consistent(cfg, st)
  {
    var empty := State(None, 0, [], [], [], [], [], [], [], map[], [], [], None);
    if cfg.mode.Supervised? then empty
    else Downsampled(cfg, empty.(pseudo := Some(Created(cfg.unlabeled))))
  }

  /** `__init__`: weakly-supervised training without unlabeled data fails the assertion. */
  function Init(cfg: Config): Result<State> {
    if cfg.mode.WeaklySupervised? && cfg.unlabeled.None? then Err(AssertionError) else Ok(Initial(cfg))
  }

  /** `supervised_training`, the warm-up: one train, dev and test record, and a save in supervised mode. */
  function WarmUp(cfg: Config, st: State): State {
    var round := |st.devRes|;
    var call := TrainCall(TrainLabeled, LabeledData);
    var trained := cfg.oracles.studentTrain(round, call);
    var dev := cfg.oracles.studentDev(round);
    var test := cfg.oracles.studentTest(round);
    st.(trainCalls := st.trainCalls + [call],
        trainRes := st.trainRes + [trained],
        saves := st.saves + (if cfg.mode.Supervised? then [StudentBest] else []),
        devRes := st.devRes + [dev],
        testRes := st.testRes + [test],
        studentPreds := st.studentPreds + [cfg.oracles.studentTestPredictions(round)],
        results := st.results["student_train" := One(trained)]
                             ["supervised_student_dev" := One(dev)]
                             ["supervised_student_test" := One(test)])
  }

  /**
   * The Student half of a round, once the pseudo-labels are written: train
   * on the pseudo partition, fine-tune on the labeled data, evaluate, save
   * `best` on a strict improvement, and append the records.
   */
  function StudentRound(cfg: Config, st: State, best: seq<Checkpoint>): State
    requires st.pseudo.Some? && |st.devRes| > 0
  {
    var round := |st.devRes|;
    var pseudoCall := TrainCall(TrainPseudo, PseudoRows(PseudoPartition(cfg.mode, st.pseudo.value)));
    var fineCall := TrainCall(Finetune, LabeledData);
    var trained := cfg.oracles.studentTrain(round, fineCall);
    var dev := cfg.oracles.studentDev(round);
    var test := cfg.oracles.studentTest(round);
    st.(trainCalls := st.trainCalls + [pseudoCall, fineCall],
        trainRes := st.trainRes + [trained],
        saves := st.saves + (if dev.perf > Max(Perfs(st.devRes)) then best else []),
        devRes := st.devRes + [dev],
        testRes := st.testRes + [test],
        studentPreds := st.studentPreds + [cfg.oracles.studentTestPredictions(round)])
  }

  /** One round of `semi_supervised_training`: the Student labels the downsample for itself. */
  function SemiRound(cfg: Config, st: State): (r: State)
    requires st.pseudo.Some? && |st.devRes| > 0
    ensures r.pseudo.Some? && |r.devRes| == |st.devRes| + 1
  {
    var sampled := Downsampled(cfg, st);
    var p := sampled.pseudo.value;
    var preds := cfg.oracles.studentPredict(|st.devRes|, p.sample);
    StudentRound(cfg, sampled.(pseudo := Some(p.(studentData := PseudoLabelled(preds)))), [StudentBest])
  }

  /** One round of `weakly_supervised_training`: the Teacher labels the downsample and is evaluated. */
  function WeaklyRound(cfg: Config, st: State): (r: State)
    requires st.pseudo.Some? && |st.devRes| > 0
    ensures r.pseudo.Some? && |r.devRes| == |st.devRes| + 1
  {
    var round := |st.devRes|;
    var sampled := Downsampled(cfg, st);
    var p := sampled.pseudo.value;
    var preds := cfg.oracles.teacherPredict(round, p.sample);
    var labelled := sampled.(pseudo := Some(p.(teacherData := PseudoLabelled(preds))),
                             teacherDevRes := st.teacherDevRes + [cfg.oracles.teacherDev(round)],
                             teacherTestRes := st.teacherTestRes + [cfg.oracles.teacherTest(round)]);
    StudentRound(cfg, labelled, [StudentBest, TeacherBest])
  }

  function SemiRounds(cfg: Config, st: State, n: nat): (r: State)
    requires st.pseudo.Some? && |st.devRes| > 0
    ensures r.pseudo.Some? && |r.devRes| == |st.devRes| + n
    ensures |r.trainRes| == |st.trainRes| + n && |r.testRes| == |st.testRes| + n
    ensures |r.studentPreds| == |st.studentPreds| + n && r.downsamples == st.downsamples + n
    ensures r.teacherTrainRes == st.teacherTrainRes && r.teacherDevRes == st.teacherDevRes
    ensures r.teacherTestRes == st.teacherTestRes
    ensures r.devRes[..|st.devRes|] == st.devRes
    ensures r.saves == st.saves + Promotions(Perfs(r.devRes), |st.devRes|, [StudentBest])
    decreases n
  {
    if n == 0 then
      assert st.devRes[..|st.devRes|] == st.devRes;
      st
    else
      SemiRoundStep(cfg, st);
      var r := SemiRounds(cfg, SemiRound(cfg, st), n - 1);
      SavesAfterRound(r.devRes, st.devRes, cfg.oracles.studentDev(|st.devRes|), [StudentBest],
                      st.saves, SemiRound(cfg, st).saves, r.saves);
      r
  }

  function WeaklyRounds(cfg: Config, st: State, n: nat): (r: State)
    requires st.pseudo.Some? && |st.devRes| > 0
    ensures r.pseudo.Some? && |r.devRes| == |st.devRes| + n
    ensures |r.trainRes| == |st.trainRes| + n && |r.testRes| == |st.testRes| + n
    ensures |r.studentPreds| == |st.studentPreds| + n && r.downsamples == st.downsamples + n
    ensures r.teacherTrainRes == st.teacherTrainRes
    ensures |r.teacherDevRes| == |st.teacherDevRes| + n && |r.teacherTestRes| == |st.teacherTestRes| + n
    ensures r.devRes[..|st.devRes|] == st.devRes
    ensures r.saves == st.saves + Promotions(Perfs(r.devRes), |st.devRes|, [StudentBest, TeacherBest])
    decreases n
  {
    if n == 0 then
      assert st.devRes[..|st.devRes|] == st.devRes;
      st
    else
      WeaklyRoundStep(cfg, st);
      var r := WeaklyRounds(cfg, WeaklyRound(cfg, st), n - 1);
      SavesAfterRound(r.devRes, st.devRes, cfg.oracles.studentDev(|st.devRes|), [StudentBest, TeacherBest],
                      st.saves, WeaklyRound(cfg, st).saves, r.saves);
      r
  }

  /** Building the Teacher: its input width, the all-zero results, and one zero record per Teacher history. */
  function TeacherSetup(cfg: Config, st: State): State {
    var xdim := if cfg.studentName in ["visobert", "phobert"] then cfg.oracles.hiddenSize else cfg.oracles.dModel;
    st.(teacherXdim := Some(xdim),
        results := st.results["teacher_train" := One(ZeroRecord)]
                             ["teacher_dev" := One(ZeroRecord)]
                             ["teacher_test" := One(ZeroRecord)],
        teacherTrainRes := st.teacherTrainRes + [ZeroRecord],
        teacherDevRes := st.teacherDevRes + [ZeroRecord],
        teacherTestRes := st.teacherTestRes + [ZeroRecord])
  }

  /** A trainer whose mode needs a pseudo-dataset has one. */
  predicate Consistent(cfg: Config, st: State) {
    cfg.mode.Supervised? || st.pseudo.Some?
  }

  /** The training part of `train`, by mode; an unknown mode trains nothing. */
  function Trained(cfg: Config, st: State): State
    requires Consistent(cfg, st)
  {
    match cfg.mode
    case Supervised => WarmUp(cfg, st)
    case SemiSupervised => SemiRounds(cfg, WarmUp(cfg, st), cfg.numIter)
    case WeaklySupervised => WeaklyRounds(cfg, TeacherSetup(cfg, WarmUp(cfg, st)), cfg.numIter)
    case OtherMode(_) => st
  }

  /**
   * The reporting part of `train`: the performance tables, the best epochs,
   * the results dictionary and the final saves.  It returns the state as it
   * stands when reporting ends, normally or by an exception: the results
   * dictionary is written entry by entry, so an index error on a Teacher
   * history or on the predictions leaves the entries written before it.
   */
  function Finished(cfg: Config, st: State, writePred: bool): (State, Result<Outcome>) {
    var weakly := cfg.mode.WeaklySupervised?;
    if weakly && |st.teacherTestRes| < |st.teacherDevRes| then (st, Err(IndexError))
    else if |st.testRes| < |st.devRes| then (st, Err(IndexError))
    else if |st.devRes| == 0 then (st, Err(ValueError))
    else
      var bestDev := LastArgMax(Perfs(st.devRes));
      var bestTest := LastArgMax(Perfs(st.testRes));
      LastArgMaxIsLastMaximum(Perfs(st.devRes));
      LastArgMaxIsLastMaximum(Perfs(st.testRes));
      Reporting(cfg, st, bestDev, bestTest, writePred)
  }

  /**
   * The reporting half of `train`, once the best development epoch `k` and the best test epoch `t`
   * are known: the results dictionary, the optional prediction file, the final checkpoints.
   * Returns the state reached when an exception is raised, as the Python object keeps it.
   */
  function Reporting(cfg: Config, st: State, k: nat, t: nat, writePred: bool): (State, Result<Outcome>)
    requires k < |st.devRes| <= |st.testRes|
    requires cfg.mode.WeaklySupervised? ==> |st.teacherDevRes| <= |st.teacherTestRes|
  {
    var weakly := cfg.mode.WeaklySupervised?;
    if weakly && k >= |st.teacherDevRes| then (st.(results := StudentReported(cfg, st, k)), Err(IndexError))
    else
      var reported := st.(results := Reported(cfg, st, k));
      if writePred && k >= |st.studentPreds| then (reported, Err(IndexError))
      else
        var saves := st.saves + [StudentLast] + (if weakly then [TeacherLast] else []);
        (reported.(saves := saves),
         Ok(Outcome(k, t, if writePred then Some(st.studentPreds[k]) else None)))
  }

  /** The results dictionary with the Teacher histories, written only in weakly-supervised mode. */
  function TeacherHistories(cfg: Config, st: State): map<string, Entry> {
    if cfg.mode.WeaklySupervised?
    then st.results["teacher_train_iter" := History(st.teacherTrainRes)]
                   ["teacher_dev_iter" := History(st.teacherDevRes)]
                   ["teacher_test_iter" := History(st.teacherTestRes)]
    else st.results
  }

  /** The results dictionary up to the Student's final records, taken at epoch `k`. */
  function StudentReported(cfg: Config, st: State, k: nat): map<string, Entry>
    requires k < |st.devRes| && k < |st.testRes|
  {
    TeacherHistories(cfg, st)["student_train_iter" := History(st.trainRes)]
                ["student_dev_iter" := History(st.devRes)]
                ["student_test_iter" := History(st.testRes)]
                ["student_dev" := One(st.devRes[k])]
                ["student_test" := One(st.testRes[k])]
  }

  /** The whole results dictionary of `train`, with the final records taken at epoch `k`. */
  function Reported(cfg: Config, st: State, k: nat): map<string, Entry>
    requires k < |st.devRes| && k < |st.testRes|
    requires cfg.mode.WeaklySupervised? ==> k < |st.teacherDevRes| && k < |st.teacherTestRes|
  {
    if cfg.mode.WeaklySupervised?
    then StudentReported(cfg, st, k)["teacher_dev" := One(st.teacherDevRes[k])]
                                    ["teacher_test" := One(st.teacherTestRes[k])]
    else StudentReported(cfg, st, k)
  }

  /** `train`: the mode's training, then the reporting. */
  function TrainRun(cfg: Config, st: State, writePred: bool): (State, Result<Outcome>)
    requires Consistent(cfg, st)
  {
    Finished(cfg, Trained(cfg, st), writePred)
  }

  // ---------------------------------------------------------------------
  // Properties of the steps
  // ---------------------------------------------------------------------

  /** Construction fails, with an assertion error, exactly in weakly-supervised mode without unlabeled data. */
  lemma InitFailsOnlyForWeaklyWithoutUnlabeled(cfg: Config)
    ensures Init(cfg).Err? <==> cfg.mode.WeaklySupervised? && cfg.unlabeled.None?
    ensures Init(cfg).Err? ==> Init(cfg).error == AssertionError
  {
  }

  /**
   * A pseudo-dataset exists exactly when the mode is not supervised; it is
   * then downsampled once, to at most `sampleSize` rows drawn from the
   * unlabeled data.  The histories start empty and nothing is saved.
   */
  lemma InitialStateByMode(cfg: Config)
    ensures var st := Initial(cfg);
            && (st.pseudo.Some? <==> !cfg.mode.Supervised?)
            && st.downsamples == (if cfg.mode.Supervised? then 0 else 1)
            && (st.pseudo.Some? ==> |st.pseudo.value.sample| <= cfg.sampleSize
                                    && multiset(st.pseudo.value.sample) <= multiset(st.pseudo.value.source))
            && st.devRes == [] && st.testRes == [] && st.trainRes == [] && st.saves == []
            && Consistent(cfg, st)
  {
    if !cfg.mode.Supervised? {
      var rows := Created(cfg.unlabeled).source;
      SampledIsSubMultiset(rows, cfg.oracles.sampleMask(0), cfg.sampleSize);
    }
  }

  /** The warm-up appends exactly one record to each Student history and saves the best Student only in supervised mode. */
  lemma WarmUpAppendsOneRecordEach(cfg: Config, st: State)
    ensures var w := WarmUp(cfg, st);
            && |w.trainRes| == |st.trainRes| + 1 && |w.devRes| == |st.devRes| + 1
            && |w.testRes| == |st.testRes| + 1 && |w.studentPreds| == |st.studentPreds| + 1
            && w.saves == st.saves + (if cfg.mode.Supervised? then [StudentBest] else [])
            && w.pseudo == st.pseudo && w.downsamples == st.downsamples
            && w.teacherDevRes == st.teacherDevRes && w.teacherTestRes == st.teacherTestRes
  {
  }

  /**
   * A semi-supervised round writes the Student partition, as the pseudo-labels
   * of the Student's predictions on the fresh downsample, and leaves the
   * Teacher partition alone; a weakly-supervised round does the converse with
   * the Teacher's predictions.
   */
  lemma RoundsWriteTheirOwnPartition(cfg: Config, st: State)
    requires st.pseudo.Some? && |st.devRes| > 0
    ensures var p := Downsampled(cfg, st).pseudo.value;
            var round := |st.devRes|;
            && SemiRound(cfg, st).pseudo.value.studentData == PseudoLabelled(cfg.oracles.studentPredict(round, p.sample))
            && SemiRound(cfg, st).pseudo.value.teacherData == st.pseudo.value.teacherData
            && WeaklyRound(cfg, st).pseudo.value.teacherData == PseudoLabelled(cfg.oracles.teacherPredict(round, p.sample))
            && WeaklyRound(cfg, st).pseudo.value.studentData == st.pseudo.value.studentData
  {
  }

  /**
   * The pseudo-trained call of a round gets the partition its mode just
   * wrote: the Student's in semi-supervised mode, the Teacher's in
   * weakly-supervised mode.
   */
  lemma PseudoTrainingUsesFreshLabels(cfg: Config, st: State)
    requires st.pseudo.Some? && |st.devRes| > 0
    ensures var p := Downsampled(cfg, st).pseudo.value;
            var round := |st.devRes|;
            && (cfg.mode.SemiSupervised? ==>
                  SemiRound(cfg, st).trainCalls == st.trainCalls
                    + [TrainCall(TrainPseudo, PseudoRows(PseudoLabelled(cfg.oracles.studentPredict(round, p.sample)))),
                       TrainCall(Finetune, LabeledData)])
            && (cfg.mode.WeaklySupervised? ==>
                  WeaklyRound(cfg, st).trainCalls == st.trainCalls
                    + [TrainCall(TrainPseudo, PseudoRows(PseudoLabelled(cfg.oracles.teacherPredict(round, p.sample)))),
                       TrainCall(Finetune, LabeledData)])
  {
  }

  /** The Student half of a round appends one record to each Student history and saves `best` on a strict new maximum. */
  lemma StudentRoundStep(cfg: Config, st: State, best: seq<Checkpoint>)
    requires st.pseudo.Some? && |st.devRes| > 0
    ensures var r := StudentRound(cfg, st, best);
            var dev := cfg.oracles.studentDev(|st.devRes|);
            && r.devRes == st.devRes + [dev]
            && |r.trainRes| == |st.trainRes| + 1 && |r.testRes| == |st.testRes| + 1
            && |r.studentPreds| == |st.studentPreds| + 1
            && r.saves == st.saves + (if dev.perf > Max(Perfs(st.devRes)) then best else [])
            && r.downsamples == st.downsamples && r.pseudo == st.pseudo
            && r.teacherTrainRes == st.teacherTrainRes && r.teacherDevRes == st.teacherDevRes
            && r.teacherTestRes == st.teacherTestRes
  {
  }

  /** One semi-supervised round: one more downsample, and the Teacher histories stay as they are. */
  lemma SemiRoundStep(cfg: Config, st: State)
    requires st.pseudo.Some? && |st.devRes| > 0
    ensures var r := SemiRound(cfg, st);
            var dev := cfg.oracles.studentDev(|st.devRes|);
            && r.devRes == st.devRes + [dev]
            && |r.trainRes| == |st.trainRes| + 1 && |r.testRes| == |st.testRes| + 1
            && |r.studentPreds| == |st.studentPreds| + 1
            && r.saves == st.saves + (if dev.perf > Max(Perfs(st.devRes)) then [StudentBest] else [])
            && r.downsamples == st.downsamples + 1
            && r.teacherTrainRes == st.teacherTrainRes && r.teacherDevRes == st.teacherDevRes
            && r.teacherTestRes == st.teacherTestRes
  {
    var sampled := Downsampled(cfg, st);
    var p := sampled.pseudo.value;
    var preds := cfg.oracles.studentPredict(|st.devRes|, p.sample);
    StudentRoundStep(cfg, sampled.(pseudo := Some(p.(studentData := PseudoLabelled(preds)))), [StudentBest]);
  }

  /** One weakly-supervised round: one more downsample, one more Teacher dev and test record, the Teacher train history as it is. */
  lemma WeaklyRoundStep(cfg: Config, st: State)
    requires st.pseudo.Some? && |st.devRes| > 0
    ensures var r := WeaklyRound(cfg, st);
            var dev := cfg.oracles.studentDev(|st.devRes|);
            && r.devRes == st.devRes + [dev]
            && |r.trainRes| == |st.trainRes| + 1 && |r.testRes| == |st.testRes| + 1
            && |r.studentPreds| == |st.studentPreds| + 1
            && r.saves == st.saves + (if dev.perf > Max(Perfs(st.devRes)) then [StudentBest, TeacherBest] else [])
            && r.downsamples == st.downsamples + 1
            && r.teacherTrainRes == st.teacherTrainRes
            && |r.teacherDevRes| == |st.teacherDevRes| + 1 && |r.teacherTestRes| == |st.teacherTestRes| + 1
  {
    var round := |st.devRes|;
    var sampled := Downsampled(cfg, st);
    var p := sampled.pseudo.value;
    var preds := cfg.oracles.teacherPredict(round, p.sample);
    var labelled := sampled.(pseudo := Some(p.(teacherData := PseudoLabelled(preds))),
                             teacherDevRes := st.teacherDevRes + [cfg.oracles.teacherDev(round)],
                             teacherTestRes := st.teacherTestRes + [cfg.oracles.teacherTest(round)]);
    StudentRoundStep(cfg, labelled, [StudentBest, TeacherBest]);
  }

  /** The Teacher setup seeds each Teacher history with one zero record and touches no Student history. */
  lemma TeacherSetupSeedsZeroRecords(cfg: Config, st: State)
    ensures var t := TeacherSetup(cfg, st);
            && t.teacherTrainRes == st.teacherTrainRes + [ZeroRecord]
            && t.teacherDevRes == st.teacherDevRes + [ZeroRecord]
            && t.teacherTestRes == st.teacherTestRes + [ZeroRecord]
            && t.teacherXdim == Some(if cfg.studentName in ["visobert", "phobert"] then cfg.oracles.hiddenSize else cfg.oracles.dModel)
            && t.devRes == st.devRes && t.testRes == st.testRes && t.trainRes == st.trainRes
            && t.studentPreds == st.studentPreds && t.saves == st.saves && t.pseudo == st.pseudo
            && t.downsamples == st.downsamples
  {
  }

  /**
   * From a freshly built trainer, training leaves `numIter + 1` records in
   * every Student history (one in supervised mode) and, in weakly-supervised
   * mode, as many in the Teacher dev and test histories and one in the
   * Teacher train history; the pseudo-dataset is downsampled once more per
   * round.
   */
  lemma TrainedHistoryLengths(cfg: Config)
    requires !cfg.mode.OtherMode?
    ensures var r := Trained(cfg, Initial(cfg));
            var n := if cfg.mode.Supervised? then 1 else cfg.numIter + 1;
            && |r.trainRes| == n && |r.devRes| == n && |r.testRes| == n && |r.studentPreds| == n
            && (!cfg.mode.Supervised? ==> r.downsamples == cfg.numIter + 1)
            && (cfg.mode.WeaklySupervised? ==>
                  |r.teacherDevRes| == n && |r.teacherTestRes| == n && |r.teacherTrainRes| == 1)
            && (!cfg.mode.WeaklySupervised? ==> r.teacherDevRes == [] && r.teacherTestRes == [])
  {
    InitialStateByMode(cfg);
    var w := WarmUp(cfg, Initial(cfg));
    WarmUpAppendsOneRecordEach(cfg, Initial(cfg));
    if cfg.mode.WeaklySupervised? {
      TeacherSetupSeedsZeroRecords(cfg, w);
    }
  }

  /**
   * From a freshly built trainer, the best checkpoints are saved exactly at
   * the strict new maxima of the dev figure after the warm-up (the warm-up
   * itself saves only in supervised mode).
   */
  lemma TrainedSaves(cfg: Config)
    requires !cfg.mode.OtherMode?
    ensures var r := Trained(cfg, Initial(cfg));
            && |r.devRes| >= 1
            && r.saves == match cfg.mode
                          case SemiSupervised => Promotions(Perfs(r.devRes), 1, [StudentBest])
                          case WeaklySupervised => Promotions(Perfs(r.devRes), 1, [StudentBest, TeacherBest])
                          case _ => [StudentBest]
  {
    InitialStateByMode(cfg);
    var w := WarmUp(cfg, Initial(cfg));
    WarmUpAppendsOneRecordEach(cfg, Initial(cfg));
    if cfg.mode.WeaklySupervised? {
      TeacherSetupSeedsZeroRecords(cfg, w);
    }
  }

  /**
   * The results dictionary holds the whole histories and the final records
   * taken at the given epoch; the Teacher entries are written only in
   * weakly-supervised mode, and every other entry is kept.
   */
  lemma ReportedAtEpoch(cfg: Config, st: State, k: nat)
    requires k < |st.devRes| && k < |st.testRes|
    requires cfg.mode.WeaklySupervised? ==> k < |st.teacherDevRes| && k < |st.teacherTestRes|
    ensures var m := Reported(cfg, st, k);
            && m["student_dev"] == One(st.devRes[k]) && m["student_test"] == One(st.testRes[k])
            && m["student_train_iter"] == History(st.trainRes)
            && m["student_dev_iter"] == History(st.devRes) && m["student_test_iter"] == History(st.testRes)
            && (cfg.mode.WeaklySupervised? ==>
                  && m["teacher_dev"] == One(st.teacherDevRes[k]) && m["teacher_test"] == One(st.teacherTestRes[k])
                  && m["teacher_train_iter"] == History(st.teacherTrainRes)
                  && m["teacher_dev_iter"] == History(st.teacherDevRes)
                  && m["teacher_test_iter"] == History(st.teacherTestRes))
            && (!cfg.mode.WeaklySupervised? ==>
                  forall key :: key in st.results && key !in StudentKeys ==> key in m && m[key] == st.results[key])
  {
  }

  /** The keys the reporting writes in every mode. */
  const StudentKeys: set<string> :=
    {"student_train_iter", "student_dev_iter", "student_test_iter", "student_dev", "student_test"}

  /**
   * When reporting succeeds, the reported dev epoch is the last one holding
   * the best dev figure, the reported test epoch is the last one holding the best test figure,
   * the last checkpoints are saved after everything else, and the
   * predictions written are those of the reported dev epoch.
   */
  lemma FinishedReportsLastBestEpoch(cfg: Config, st: State, writePred: bool)
    requires Finished(cfg, st, writePred).1.Ok?
    ensures var r := Finished(cfg, st, writePred).0;
            var out := Finished(cfg, st, writePred).1.value;
            var k := out.bestDevEpoch;
            && k < |st.devRes| && k < |st.testRes|
            && st.devRes[k].perf == Max(Perfs(st.devRes))
            && (forall j :: k < j < |st.devRes| ==> st.devRes[j].perf < st.devRes[k].perf)
            && out.bestTestEpoch < |st.testRes| && st.testRes[out.bestTestEpoch].perf == Max(Perfs(st.testRes))
            && (forall j :: out.bestTestEpoch < j < |st.testRes| ==> st.testRes[j].perf < st.testRes[out.bestTestEpoch].perf)
            && (cfg.mode.WeaklySupervised? ==> k < |st.teacherDevRes| && k < |st.teacherTestRes|)
            && r.results == Reported(cfg, st, k)
            && r.saves == st.saves + [StudentLast] + (if cfg.mode.WeaklySupervised? then [TeacherLast] else [])
            && (writePred <==> out.written.Some?)
            && (writePred ==> k < |st.studentPreds| && out.written.value == st.studentPreds[k])
  {
    var k := LastArgMax(Perfs(st.devRes));
    var t := LastArgMax(Perfs(st.testRes));
    LastArgMaxIsLastMaximum(Perfs(st.devRes));
    LastArgMaxIsLastMaximum(Perfs(st.testRes));
    assert Finished(cfg, st, writePred) == Reporting(cfg, st, k, t, writePred);
    ReportingAtEpochs(cfg, st, k, t, writePred);
  }

  /** A successful report keeps the epochs it is given and saves the last checkpoints. */
  lemma ReportingAtEpochs(cfg: Config, st: State, k: nat, t: nat, writePred: bool)
    requires k < |st.devRes| <= |st.testRes|
    requires cfg.mode.WeaklySupervised? ==> |st.teacherDevRes| <= |st.teacherTestRes|
    requires Reporting(cfg, st, k, t, writePred).1.Ok?
    ensures var r := Reporting(cfg, st, k, t, writePred).0;
            var out := Reporting(cfg, st, k, t, writePred).1.value;
            && out.bestDevEpoch == k && out.bestTestEpoch == t
            && (cfg.mode.WeaklySupervised? ==> k < |st.teacherDevRes| && k < |st.teacherTestRes|)
            && r.results == Reported(cfg, st, k)
            && r.saves == st.saves + [StudentLast] + (if cfg.mode.WeaklySupervised? then [TeacherLast] else [])
            && (writePred <==> out.written.Some?)
            && (writePred ==> k < |st.studentPreds| && out.written.value == st.studentPreds[k])
  {
  }

  /**
   * Reporting raises before writing anything on a Teacher test history shorter
   * than the Teacher dev history, on a test history shorter than the dev
   * history, and on an empty dev history; any other failure is an index
   * error, and a failed reporting never saves a checkpoint.
   */
  lemma FinishedFailures(cfg: Config, st: State, writePred: bool)
    ensures (cfg.mode.WeaklySupervised? && |st.teacherTestRes| < |st.teacherDevRes|)
            ==> Finished(cfg, st, writePred) == (st, Err(IndexError))
    ensures |st.testRes| < |st.devRes| ==> Finished(cfg, st, writePred) == (st, Err(IndexError))
    ensures (|st.devRes| == 0 && !(cfg.mode.WeaklySupervised? && |st.teacherTestRes| < |st.teacherDevRes|))
            ==> Finished(cfg, st, writePred) == (st, Err(ValueError))
    ensures Finished(cfg, st, writePred).1.Err? && |st.devRes| > 0 ==> Finished(cfg, st, writePred).1.error == IndexError
    ensures Finished(cfg, st, writePred).1.Err? ==> Finished(cfg, st, writePred).0.saves == st.saves
  {
  }

  /** Reporting succeeds on histories of one length, whichever the mode. */
  lemma FinishedSucceedsOnFullHistories(cfg: Config, st: State, writePred: bool)
    requires |st.devRes| > 0 && |st.testRes| == |st.devRes| && |st.studentPreds| == |st.devRes|
    requires cfg.mode.WeaklySupervised? ==> |st.teacherDevRes| == |st.devRes| && |st.teacherTestRes| == |st.devRes|
    ensures Finished(cfg, st, writePred).1.Ok?
  {
    LastArgMaxIsLastMaximum(Perfs(st.devRes));
  }

  /**
   * Training a freshly built trainer fails only in an unknown mode, where no
   * history is filled and `argmax` of the empty dev history raises.
   */
  lemma TrainFailsOnlyForUnknownMode(cfg: Config, writePred: bool)
    ensures TrainRun(cfg, Initial(cfg), writePred).1.Ok? <==> !cfg.mode.OtherMode?
    ensures cfg.mode.OtherMode? ==> TrainRun(cfg, Initial(cfg), writePred) == (Initial(cfg), Err(ValueError))
  {
    if !cfg.mode.OtherMode? {
      TrainedHistoryLengths(cfg);
      FinishedSucceedsOnFullHistories(cfg, Trained(cfg, Initial(cfg)), writePred);
    }
  }

  // ---------------------------------------------------------------------
  // The trainer object
  // ---------------------------------------------------------------------

  /**
   * `ViSoLexTrainer`: the object whose methods run the training, updating
   * its pseudo-dataset, its result histories and its results dictionary in
   * place.  Each method is specified by the step function above that it
   * carries out on the whole state.
   */
  class ViSoLexTrainer {
    const cfg: Config
    var pseudo: Option<PseudoDataset>
    var downsamples: nat
    var teacherTrainRes: seq<Record>
    var teacherDevRes: seq<Record>
    var teacherTestRes: seq<Record>
    var trainRes: seq<Record>
    var devRes: seq<Record>
    var testRes: seq<Record>
    var studentPreds: seq<seq<Prediction>>
    var results: map<string, Entry>
    var trainCalls: seq<TrainCall>
    var saves: seq<Checkpoint>
    var teacherXdim: Option<int>

    /** The trainer's fields as one value. */
    function Snapshot(): State
      reads this
    {
      State(pseudo, downsamples, teacherTrainRes, teacherDevRes, teacherTestRes,
            trainRes, devRes, testRes, studentPreds, results, trainCalls, saves, teacherXdim)
    }

    /** `__init__`, once its assertion has passed. */
    constructor(cfg: Config)
      requires !(cfg.mode.WeaklySupervised? && cfg.unlabeled.None?)
      ensures this.cfg == cfg && Snapshot() == Initial(cfg)
    {
      this.cfg := cfg;
      pseudo := if cfg.mode.Supervised? then None else Some(Created(cfg.unlabeled));
      downsamples := 0;
      teacherDevRes := [];
      teacherTestRes := [];
      teacherTrainRes := [];
      devRes := [];
      testRes := [];
      trainRes := [];
      results := map[];
      studentPreds := [];
      trainCalls := [];
      saves := [];
      teacherXdim := None;
      new;
      if !cfg.mode.Supervised? {
        DownsamplePseudo();
      }
    }

    /** `__init__` with its assertion: weakly-supervised training needs unlabeled data. */
    static method New(cfg: Config) returns (r: Result<ViSoLexTrainer>)
      ensures r.Err? <==> Init(cfg).Err?
      ensures r.Err? ==> r.error == AssertionError
      ensures r.Ok? ==> fresh(r.value) && r.value.cfg == cfg && r.value.Snapshot() == Initial(cfg)
    {
      if cfg.mode.WeaklySupervised? && cfg.unlabeled.None? {
        return Err(AssertionError);
      }
      var t := new ViSoLexTrainer(cfg);
      return Ok(t);
    }

    /** `pseudodataset.downsample(sample_size)`. */
    method DownsamplePseudo()
      requires pseudo.Some?
      modifies this
      ensures Snapshot() == Downsampled(cfg, old(Snapshot()))
    {
      var p := pseudo.value;
      pseudo := Some(p.(sample := Sampled(p.source, cfg.oracles.sampleMask(downsamples), cfg.sampleSize)));
      downsamples := downsamples + 1;
    }

    /** `supervised_training`. */
    method SupervisedTraining()
      modifies this
      ensures Snapshot() == WarmUp(cfg, old(Snapshot()))
    {
      var st := Snapshot();
      var round := |st.devRes|;
      var call := TrainCall(TrainLabeled, LabeledData);
      var trained := cfg.oracles.studentTrain(round, call);
      var m := st.results["student_train" := One(trained)];
      // only the supervised mode checkpoints the warm-up model
      var newSaves := st.saves + (if cfg.mode.Supervised? then [StudentBest] else []);
      var dev := cfg.oracles.studentDev(round);
      m := m["supervised_student_dev" := One(dev)];
      var test := cfg.oracles.studentTest(round);
      m := m["supervised_student_test" := One(test)];
      trainCalls, trainRes, saves, devRes, testRes, studentPreds, results :=
        st.trainCalls + [call], st.trainRes + [trained], newSaves, st.devRes + [dev], st.testRes + [test],
        st.studentPreds + [cfg.oracles.studentTestPredictions(round)], m;
      assert Snapshot() == WarmUp(cfg, st);
    }

    /** The Student half of a round: pseudo-training, fine-tuning, evaluation and the promotion check. */
    method StudentIteration(best: seq<Checkpoint>)
      requires pseudo.Some? && |devRes| > 0
      modifies this
      ensures Snapshot() == StudentRound(cfg, old(Snapshot()), best)
    {
      ghost var st := Snapshot();
      var round := |devRes|;
      var pseudoCall := TrainCall(TrainPseudo, PseudoRows(PseudoPartition(cfg.mode, pseudo.value)));
      var fineCall := TrainCall(Finetune, LabeledData);
      var trained := cfg.oracles.studentTrain(round, fineCall);
      var dev := cfg.oracles.studentDev(round);
      var test := cfg.oracles.studentTest(round);
      var newSaves := saves;
      if dev.perf > Max(Perfs(devRes)) {
        newSaves := saves + best;
      } else {
        assert newSaves == saves + [];
      }
      trainCalls, trainRes, saves, devRes, testRes, studentPreds :=
        trainCalls + [pseudoCall, fineCall], trainRes + [trained], newSaves, devRes + [dev], testRes + [test],
        studentPreds + [cfg.oracles.studentTestPredictions(round)];
      assert Snapshot() == StudentRound(cfg, st, best);
    }

    /** One round of `semi_supervised_training`. */
    method SemiIteration()
      requires pseudo.Some? && |devRes| > 0
      modifies this
      ensures Snapshot() == SemiRound(cfg, old(Snapshot()))
    {
      DownsamplePseudo();
      var p := pseudo.value;
      var preds := cfg.oracles.studentPredict(|devRes|, p.sample);
      pseudo := Some(p.(studentData := PseudoLabelled(preds)));
      StudentIteration([StudentBest]);
    }

    /** One round of `weakly_supervised_training`. */
    method WeaklyIteration()
      requires pseudo.Some? && |devRes| > 0
      modifies this
      ensures Snapshot() == WeaklyRound(cfg, old(Snapshot()))
    {
      DownsamplePseudo();
      var round := |devRes|;
      var p := pseudo.value;
      var preds := cfg.oracles.teacherPredict(round, p.sample);
      teacherDevRes := teacherDevRes + [cfg.oracles.teacherDev(round)];
      teacherTestRes := teacherTestRes + [cfg.oracles.teacherTest(round)];
      pseudo := Some(p.(teacherData := PseudoLabelled(preds)));
      StudentIteration([StudentBest, TeacherBest]);
    }

    /** `semi_supervised_training`: the warm-up, then `numIter` rounds. */
    method SemiSupervisedTraining()
      requires pseudo.Some?
      modifies this
      ensures Snapshot() == SemiRounds(cfg, WarmUp(cfg, old(Snapshot())), cfg.numIter)
    {
      ghost var st := Snapshot();
      SupervisedTraining();
      WarmUpAppendsOneRecordEach(cfg, st);
      ghost var start := Snapshot();
      assert start == WarmUp(cfg, st);
      ghost var goal := SemiRounds(cfg, start, cfg.numIter);
      for i := 0 to cfg.numIter
        invariant pseudo.Some? && |devRes| > 0
        invariant SemiRounds(cfg, Snapshot(), cfg.numIter - i) == goal
      {
        SemiIteration();
      }
      assert Snapshot() == goal;
    }

    /** Building the Teacher and seeding its histories. */
    method BuildTeacher()
      modifies this
      ensures Snapshot() == TeacherSetup(cfg, old(Snapshot()))
    {
      ghost var st := Snapshot();
      var xdim := cfg.oracles.dModel;
      if cfg.studentName in ["visobert", "phobert"] {
        xdim := cfg.oracles.hiddenSize;
      }
      var m := results["teacher_train" := One(ZeroRecord)];
      m := m["teacher_dev" := One(ZeroRecord)];
      m := m["teacher_test" := One(ZeroRecord)];
      teacherXdim, results, teacherTrainRes, teacherDevRes, teacherTestRes :=
        Some(xdim), m, teacherTrainRes + [ZeroRecord], teacherDevRes + [ZeroRecord], teacherTestRes + [ZeroRecord];
      assert Snapshot() == TeacherSetup(cfg, st);
    }

    /** `weakly_supervised_training`: the warm-up, the Teacher, then `numIter` rounds. */
    method WeaklySupervisedTraining()
      requires pseudo.Some?
      modifies this
      ensures Snapshot() == WeaklyRounds(cfg, TeacherSetup(cfg, WarmUp(cfg, old(Snapshot()))), cfg.numIter)
    {
      ghost var st := Snapshot();
      SupervisedTraining();
      WarmUpAppendsOneRecordEach(cfg, st);
      BuildTeacher();
      TeacherSetupSeedsZeroRecords(cfg, WarmUp(cfg, st));
      ghost var start := Snapshot();
      assert start == TeacherSetup(cfg, WarmUp(cfg, st));
      ghost var goal := WeaklyRounds(cfg, start, cfg.numIter);
      for i := 0 to cfg.numIter
        invariant pseudo.Some? && |devRes| > 0
        invariant WeaklyRounds(cfg, Snapshot(), cfg.numIter - i) == goal
      {
        WeaklyIteration();
      }
      assert Snapshot() == goal;
    }

    /** The reporting part of `train`. */
    method Finish(writePred: bool) returns (r: Result<Outcome>)
      modifies this
      ensures (Snapshot(), r) == Finished(cfg, old(Snapshot()), writePred)
    {
      var weakly := cfg.mode.WeaklySupervised?;
      if weakly && |teacherTestRes| < |teacherDevRes| {
        return Err(IndexError);
      }
      if |testRes| < |devRes| {
        return Err(IndexError);
      }
      if |devRes| == 0 {
        return Err(ValueError);
      }
      var bestDev := LastArgMax(Perfs(devRes));
      var bestTest := LastArgMax(Perfs(testRes));
      LastArgMaxIsLastMaximum(Perfs(devRes));
      LastArgMaxIsLastMaximum(Perfs(testRes));
      r := Report(bestDev, bestTest, writePred);
    }

    /** The reporting half of `train`, at the best epochs `k` (development) and `t` (test). */
    method Report(k: nat, t: nat, writePred: bool) returns (r: Result<Outcome>)
      requires k < |devRes| <= |testRes|
      requires cfg.mode.WeaklySupervised? ==> |teacherDevRes| <= |teacherTestRes|
      modifies this
      ensures (Snapshot(), r) == Reporting(cfg, old(Snapshot()), k, t, writePred)
    {
      var weakly := cfg.mode.WeaklySupervised?;
      var st := Snapshot();
      if weakly && k >= |teacherDevRes| {
        results := StudentReported(cfg, st, k);
        return Err(IndexError);
      }
      results := Reported(cfg, st, k);
      var written := None;
      if writePred {
        if k >= |studentPreds| {
          return Err(IndexError);
        }
        written := Some(studentPreds[k]);
      }
      var newSaves := saves + [StudentLast];
      if weakly {
        newSaves := newSaves + [TeacherLast];
      } else {
        assert newSaves == newSaves + [];
      }
      saves := newSaves;
      r := Ok(Outcome(k, t, written));
      assert (Snapshot(), r) == Reporting(cfg, st, k, t, writePred);
    }

    /** `train`: the training of the configured mode, then the reporting. */
    method Train(writePred: bool) returns (r: Result<Outcome>)
      requires Consistent(cfg, Snapshot())
      modifies this
      ensures (Snapshot(), r) == TrainRun(cfg, old(Snapshot()), writePred)
    {
      match cfg.mode {
        case Supervised => SupervisedTraining();
        case SemiSupervised => SemiSupervisedTraining();
        case WeaklySupervised => WeaklySupervisedTraining();
        case OtherMode(_) =>
      }
      r := Finish(writePred);
    }
  }
}
