/** The real-time recognition loop: a sliding window of recent
    predictions, most-frequent (plurality) smoothing, the message it
    spells, and the camera-index search. The classifier and the camera
    are oracles. */
module Recognition {
  import opened Wrappers

  /** A class name from the label encoder (usually one letter). */
  type Label = string

  /** `deque(maxlen=10)`. */
  const HistorySize: nat := 10
  /** 21 hand landmarks times three coordinates. */
  const FeatureCount: nat := 63
  /** `range(3)` in `find_camera`. */
  const CameraSlots: nat := 3

  // ---------------------------------------------------------------------
  // Prediction window
  // ---------------------------------------------------------------------

  /** `history.append(p)` on a bounded deque: the oldest entry falls off
      once the window is full. */
  function Push(h: seq<Label>, p: Label): (r: seq<Label>)
    ensures |r| <= HistorySize
    ensures |h| < HistorySize ==> r == h + [p]
    ensures |r| > 0 && r[|r| - 1] == p
    ensures r == (h + [p])[|h| + 1 - |r|..]
  {
    var w := h + [p];
    if |w| > HistorySize then w[|w| - HistorySize..] else w
  }

  /** The window after feeding `ps` one by one into an empty deque. */
  function Window(ps: seq<Label>): seq<Label>
    decreases |ps|
  {
    if |ps| == 0 then [] else Push(Window(ps[..|ps| - 1]), ps[|ps| - 1])
  }

  function Min(a: nat, b: nat): nat { if a <= b then a else b }

  /** The window is always the most recent (at most ten) predictions, in
      the order they arrived. */
  lemma {:induction false} WindowKeepsLatest(ps: seq<Label>)
    ensures Window(ps) == ps[|ps| - Min(|ps|, HistorySize)..]
    decreases |ps|
  {
    if |ps| > 0 {
      var init := ps[..|ps| - 1];
      calc {
        Window(ps);
        Push(Window(init), ps[|ps| - 1]);
        { WindowKeepsLatest(init); }
        Push(init[|ps| - 1 - Min(|ps| - 1, HistorySize)..], ps[|ps| - 1]);
        { PushLatest(ps); }
        ps[|ps| - Min(|ps|, HistorySize)..];
      }
    }
  }

  /** Pushing the newest prediction onto the latest part of the earlier
      ones gives the latest part of the whole stream. */
  lemma PushLatest(ps: seq<Label>)
    requires |ps| > 0
    ensures Push(ps[..|ps| - 1][|ps| - 1 - Min(|ps| - 1, HistorySize)..], ps[|ps| - 1])
            == ps[|ps| - Min(|ps|, HistorySize)..]
  {
    var n := |ps|;
    if n - 1 < HistorySize {
      assert ps[..n - 1][n - 1 - Min(n - 1, HistorySize)..] == ps[..n - 1];
      PushShort(ps);
    } else {
      assert ps[..n - 1][n - 1 - Min(n - 1, HistorySize)..] == ps[n - 1 - HistorySize..n - 1];
      PushFull(ps);
    }
  }

  /** Before the window fills, a push keeps every earlier prediction. */
  lemma PushShort(ps: seq<Label>)
    requires 0 < |ps| <= HistorySize
    ensures Push(ps[..|ps| - 1], ps[|ps| - 1]) == ps
  {
    assert ps[..|ps| - 1] + [ps[|ps| - 1]] == ps;
  }

  /** Once the window is full, a push drops exactly the oldest entry. */
  lemma PushFull(ps: seq<Label>)
    requires |ps| > HistorySize
    ensures Push(ps[|ps| - 1 - HistorySize..|ps| - 1], ps[|ps| - 1]) == ps[|ps| - HistorySize..]
  {
    var n := |ps|;
    assert (ps[n - 1 - HistorySize..n - 1] + [ps[n - 1]])[1..] == ps[n - HistorySize..];
  }

  function Count(h: seq<Label>, x: Label): nat {
    multiset(h)[x]
  }

  /** The label among the first `k` window entries with the highest count
      over the whole window; earlier entries win ties. */
  function BestAmong(h: seq<Label>, k: nat): (r: Label)
    requires 0 < k <= |h|
    ensures r in h[..k]
    ensures forall j :: 0 <= j < k ==> Count(h, h[j]) <= Count(h, r)
  {
    if k == 1 then h[0]
    else
      var b := BestAmong(h, k - 1);
      assert h[..k] == h[..k - 1] + [h[k - 1]];
      if Count(h, h[k - 1]) > Count(h, b) then h[k - 1] else b
  }

  /** `max(set(history), key=history.count)`: a most frequent label. */
  function MostFrequent(h: seq<Label>): (r: Label)
    requires |h| > 0
    ensures r in h
    ensures forall x :: x in h ==> Count(h, x) <= Count(h, r)
  {
    var r := BestAmong(h, |h|);
    assert h[..|h|] == h;
    r
  }

  /** `get_stable_prediction`: push the new label, then return the window's
      most frequent label. */
  function StablePrediction(h: seq<Label>, p: Label): (r: (seq<Label>, Label))
    ensures r.0 == Push(h, p)
    ensures r.1 in r.0 && Count(r.0, r.1) >= Count(r.0, p) >= 1
    ensures forall x :: x in r.0 ==> Count(r.0, x) <= Count(r.0, r.1)
  {
    var w := Push(h, p);
    (w, MostFrequent(w))
  }

  /** A window holding a single label smooths to that label. */
  lemma UniformWindowIsStable(h: seq<Label>, p: Label)
    requires forall i :: 0 <= i < |h| ==> h[i] == p
    ensures StablePrediction(h, p).1 == p
  {
  }

  /** A label that holds a strict majority of the window is the one reported. */
  lemma MajorityIsStable(h: seq<Label>, p: Label, m: Label)
    requires 2 * Count(Push(h, p), m) > |Push(h, p)|
    ensures StablePrediction(h, p).1 == m
  {
    var w := Push(h, p);
    var r := StablePrediction(h, p).1;
    if r != m {
      assert m in w;
      MultisetDisjointCounts(w, r, m);
    }
  }

  lemma MultisetDisjointCounts(w: seq<Label>, a: Label, b: Label)
    requires a != b
    ensures Count(w, a) + Count(w, b) <= |w|
  {
    if |w| > 0 {
      MultisetDisjointCounts(w[1..], a, b);
      assert w == [w[0]] + w[1..];
      assert multiset(w) == multiset([w[0]]) + multiset(w[1..]);
    }
  }

  // ---------------------------------------------------------------------
  // Message
  // ---------------------------------------------------------------------

  /** The message grows by the smoothed label unless it already ends with
      that label; `message[-1] != sign` compares one character with the
      whole label. */
  function AppendSign(message: string, sign: Label): (r: string)
    ensures r == message || r == message + sign
    ensures r == message + sign <==>
              (|message| == 0 || [message[|message| - 1]] != sign || sign == "")
  {
    if |message| == 0 || [message[|message| - 1]] != sign then message + sign else message
  }

  /** No character of `s` repeats its predecessor. */
  predicate NoAdjacentRepeats(s: string) {
    forall i :: 0 < i < |s| ==> s[i - 1] != s[i]
  }

  /** With one-letter labels the message never holds a doubled letter. */
  lemma AppendKeepsNoRepeats(message: string, sign: Label)
    requires |sign| == 1
    requires NoAdjacentRepeats(message)
    ensures NoAdjacentRepeats(AppendSign(message, sign))
  {
  }

  // ---------------------------------------------------------------------
  // One hand, one frame
  // ---------------------------------------------------------------------

  /** The loop's mutable state: the deque and the spelled message. */
  datatype Recogniser = Recogniser(history: seq<Label>, message: string)

  const Start := Recogniser([], "")

  predicate Valid(s: Recogniser) {
    |s.history| <= HistorySize
  }

  /** Every label in the window is one letter and the message has no
      doubled letter. */
  predicate Spelled(s: Recogniser) {
    (forall i :: 0 <= i < |s.history| ==> |s.history[i]| == 1) && NoAdjacentRepeats(s.message)
  }

  /** The body of the per-hand loop: only a 63-feature vector reaches the
      classifier; its label is smoothed and maybe appended. */
  function HandStep(s: Recogniser, features: seq<real>, predict: seq<real> -> Label): (r: Recogniser)
    ensures Valid(s) ==> Valid(r)
    ensures |features| != FeatureCount ==> r == s
    ensures |features| == FeatureCount ==>
              r.history == Push(s.history, predict(features))
              && r.message == AppendSign(s.message, MostFrequent(r.history))
  {
    if |features| != FeatureCount then s
    else
      var (w, sign) := StablePrediction(s.history, predict(features));
      Recogniser(w, AppendSign(s.message, sign))
  }

  /** All detected hands of one frame, in the order MediaPipe reports them. */
  function FrameStep(s: Recogniser, hands: seq<seq<real>>, predict: seq<real> -> Label): (r: Recogniser)
    ensures Valid(s) ==> Valid(r)
    ensures s.message <= r.message
    ensures |hands| == 0 ==> r == s
    decreases |hands|
  {
    if |hands| == 0 then s else FrameStep(HandStep(s, hands[0], predict), hands[1..], predict)
  }

  /** One hand keeps the window bounded and the old message as a prefix,
      and with one-letter labels it never doubles a letter. */
  lemma HandStepInvariant(s: Recogniser, features: seq<real>, predict: seq<real> -> Label)
    requires Valid(s)
    ensures Valid(HandStep(s, features, predict))
    ensures s.message <= HandStep(s, features, predict).message
    ensures OneLetterLabels(predict) && Spelled(s) ==> Spelled(HandStep(s, features, predict))
  {
    if OneLetterLabels(predict) && Spelled(s) && |features| == FeatureCount {
      var p := predict(features);
      var w := Push(s.history, p);
      var sign := MostFrequent(w);
      assert HandStep(s, features, predict) == Recogniser(w, AppendSign(s.message, sign));
      PushKeepsLetters(s.history, p);
      AppendKeepsNoRepeats(s.message, sign);
    }
  }

  lemma PushKeepsLetters(h: seq<Label>, p: Label)
    requires forall i :: 0 <= i < |h| ==> |h[i]| == 1
    requires |p| == 1
    ensures forall x :: x in Push(h, p) ==> |x| == 1
  {
  }

  /** The classifier only ever yields one-letter labels. */
  ghost predicate OneLetterLabels(predict: seq<real> -> Label) {
    forall f :: |predict(f)| == 1
  }

  /** Across any frame the window stays bounded, the message only grows
      (the old message stays its prefix), and with one-letter labels no
      letter is ever doubled. */
  lemma {:induction false} FrameStepInvariant(s: Recogniser, hands: seq<seq<real>>, predict: seq<real> -> Label)
    requires Valid(s)
    ensures Valid(FrameStep(s, hands, predict))
    ensures s.message <= FrameStep(s, hands, predict).message
    ensures OneLetterLabels(predict) && Spelled(s) ==> Spelled(FrameStep(s, hands, predict))
    decreases |hands|
  {
    if |hands| > 0 {
      var t := HandStep(s, hands[0], predict);
      HandStepInvariant(s, hands[0], predict);
      FrameStepInvariant(t, hands[1..], predict);
    }
  }

  /** A frame whose hands all have the wrong feature count changes nothing. */
  lemma {:induction false} MalformedHandsIgnored(s: Recogniser, hands: seq<seq<real>>, predict: seq<real> -> Label)
    requires forall i :: 0 <= i < |hands| ==> |hands[i]| != FeatureCount
    ensures FrameStep(s, hands, predict) == s
    decreases |hands|
  {
    if |hands| > 0 {
      MalformedHandsIgnored(s, hands[1..], predict);
    }
  }

  // ---------------------------------------------------------------------
  // Camera search
  // ---------------------------------------------------------------------

  /** `find_camera`: the lowest index in 0..2 whose capture opens, or None.
      `opens(i)` stands for `cv2.VideoCapture(i).isOpened()`. */
  method FindCamera(opens: nat -> bool) returns (r: Option<nat>)
    ensures r.Some? ==> r.value < CameraSlots && opens(r.value)
    ensures r.Some? ==> forall j :: 0 <= j < r.value ==> !opens(j)
    ensures r.None? <==> forall j :: 0 <= j < CameraSlots ==> !opens(j)
  {
    var i := 0;
    while i < CameraSlots
      invariant i <= CameraSlots
      invariant forall j :: 0 <= j < i ==> !opens(j)
    {
      if opens(i) {
        return Some(i);
      }
      i := i + 1;
    }
    return None;
  }
}
