/**
 * The live recognizer: the camera loop that feeds frames to the recognition model and stops the
 * pipeline on a failed read, and the model's per-frame callback that forwards the frame for
 * display and enqueues the confident gesture detections.
 */
module GestureRecognizer {
  import opened Pipeline
  import opened GestureHandler

  const GestureScoreThreshold: real := 0.6

  /** The category name the model gives a hand that shows no known gesture. */
  const NoGesture: string := "None"

  /** One ranked category of a detection (`category_name`, `score`). */
  datatype Category = Category(categoryName: string, score: real)

  /** The per-frame result: for detected hand `i`, its ranked gestures and its ranked handedness. */
  datatype RecognizerResult = RecognizerResult(gestures: seq<seq<Category>>, handedness: seq<seq<Category>>)

  /** The annotated frame put on the display queue, represented by its timestamp. */
  datatype Frame = Frame(timestampMs: int)

  /** What handle_result indexes: a handedness entry for every gesture entry, and a top category in each. */
  predicate WellFormedResult(r: RecognizerResult) {
    && |r.handedness| >= |r.gestures|
    && forall i :: 0 <= i < |r.gestures| ==> |r.gestures[i]| > 0 && |r.handedness[i]| > 0
  }

  /** The filter on the top gesture of a hand: a real gesture, scored at least the threshold. */
  predicate Accepted(top: Category) {
    top.categoryName != NoGesture && top.score >= GestureScoreThreshold
  }

  /** The event enqueued for hand `i`: its top gesture's name, its top handedness label, the frame's timestamp. */
  function EventOf(r: RecognizerResult, i: nat, timestampMs: int): GestureEvent
    requires WellFormedResult(r) && i < |r.gestures|
  {
    GestureEvent(r.handedness[i][0].categoryName, r.gestures[i][0].categoryName, timestampMs)
  }

  /** The indices below `n` whose top gesture passes the filter, in increasing order. */
  function AcceptedIndices(r: RecognizerResult, n: nat): seq<nat>
    requires WellFormedResult(r) && n <= |r.gestures|
  {
    if n == 0 then []
    else AcceptedIndices(r, n - 1) + (if Accepted(r.gestures[n - 1][0]) then [n - 1] else [])
  }

  /** The events of the first `n` detected hands, in index order. */
  function Detections(r: RecognizerResult, timestampMs: int, n: nat): seq<GestureEvent>
    requires WellFormedResult(r) && n <= |r.gestures|
  {
    if n == 0 then []
    else Detections(r, timestampMs, n - 1) + (if Accepted(r.gestures[n - 1][0]) then [EventOf(r, n - 1, timestampMs)] else [])
  }

  lemma {:induction false} AcceptedIndicesSpec(r: RecognizerResult, n: nat)
    requires WellFormedResult(r) && n <= |r.gestures|
    ensures forall k :: 0 <= k < |AcceptedIndices(r, n)| ==> AcceptedIndices(r, n)[k] < n
    ensures forall k, l :: 0 <= k < l < |AcceptedIndices(r, n)| ==> AcceptedIndices(r, n)[k] < AcceptedIndices(r, n)[l]
    ensures forall i :: 0 <= i < n ==> (i in AcceptedIndices(r, n) <==> Accepted(r.gestures[i][0]))
    decreases n
  {
    if n > 0 {
      AcceptedIndicesSpec(r, n - 1);
    }
  }

  /** Event `k` of the first `n` hands is the event of the `k`-th accepted index. */
  lemma {:induction false} DetectionsFollowIndices(r: RecognizerResult, timestampMs: int, n: nat)
    requires WellFormedResult(r) && n <= |r.gestures|
    ensures |Detections(r, timestampMs, n)| == |AcceptedIndices(r, n)|
    ensures forall k :: 0 <= k < |AcceptedIndices(r, n)| ==>
              AcceptedIndices(r, n)[k] < n && Detections(r, timestampMs, n)[k] == EventOf(r, AcceptedIndices(r, n)[k], timestampMs)
    decreases n
  {
    if n > 0 {
      DetectionsFollowIndices(r, timestampMs, n - 1);
    }
  }

  /**
   * The gesture events of one callback: event `k` is the event of the `k`-th accepted hand in
   * index order, so every event carries the frame's timestamp, a gesture other than "None" scored at
   * least 0.6 and its hand's label; every accepted hand gives exactly one event, and no other
   * hand gives one.
   */
  lemma DetectionsAreTheAcceptedHands(r: RecognizerResult, timestampMs: int)
    requires WellFormedResult(r)
    ensures |Detections(r, timestampMs, |r.gestures|)| == |AcceptedIndices(r, |r.gestures|)| <= |r.gestures|
    ensures forall k :: 0 <= k < |Detections(r, timestampMs, |r.gestures|)| ==>
              var i := AcceptedIndices(r, |r.gestures|)[k];
              && i < |r.gestures|
              && Accepted(r.gestures[i][0])
              && Detections(r, timestampMs, |r.gestures|)[k] == EventOf(r, i, timestampMs)
              && Detections(r, timestampMs, |r.gestures|)[k].timestamp == timestampMs
              && Detections(r, timestampMs, |r.gestures|)[k].name != NoGesture
    ensures forall i :: 0 <= i < |r.gestures| ==>
              (Accepted(r.gestures[i][0]) <==> i in AcceptedIndices(r, |r.gestures|))
  {
    var n := |r.gestures|;
    AcceptedIndicesSpec(r, n);
    DetectionsFollowIndices(r, timestampMs, n);
    var idx := AcceptedIndices(r, n);
    // strictly increasing indices below n: at most n of them
    IncreasingBounded(idx, n);
  }

  lemma {:induction false} IncreasingBounded(idx: seq<nat>, n: nat)
    requires forall k :: 0 <= k < |idx| ==> idx[k] < n
    requires forall k, l :: 0 <= k < l < |idx| ==> idx[k] < idx[l]
    ensures |idx| <= n
    decreases n
  {
    if idx != [] {
      var last := idx[|idx| - 1];
      var p := idx[..|idx| - 1];
      assert forall k :: 0 <= k < |p| ==> p[k] == idx[k] && p[k] < last;
      IncreasingBounded(p, last);
    }
  }

  /** The threshold is inclusive, and the "None" category is dropped whatever its score. */
  lemma FilterExamples()
    ensures Accepted(Category("Thumb_Up", 0.6))
    ensures !Accepted(Category("Thumb_Up", 0.59))
    ensures !Accepted(Category("None", 1.0))
  {
  }

  // ---------------------------------------------------------------------------------------------
  // The camera loop
  // ---------------------------------------------------------------------------------------------

  /** One `cam.read()`: a frame, stamped with the clock read just after it, or a failure. */
  datatype CameraRead = Captured(timestampMs: int) | ReadFailed

  predicate HasFailure(cam: seq<CameraRead>) {
    exists i :: 0 <= i < |cam| && cam[i].ReadFailed?
  }

  /** The timestamps of the frames sent to the model: the captured cam before the first failure. */
  function Submissions(cam: seq<CameraRead>): seq<int> {
    if cam == [] then []
    else
      var p := cam[..|cam| - 1];
      if HasFailure(p) || cam[|cam| - 1].ReadFailed? then Submissions(p)
      else Submissions(p) + [cam[|cam| - 1].timestampMs]
  }

  lemma PrefixHasFailure(cam: seq<CameraRead>, i: nat, j: nat)
    requires i <= j <= |cam| && HasFailure(cam[..i])
    ensures HasFailure(cam[..j])
  {
    var k :| 0 <= k < i && cam[..i][k].ReadFailed?;
    assert cam[..j][k] == cam[..i][k];
  }

  /** Nothing read after a failed read is sent to the model. */
  lemma {:induction false} NothingAfterFailure(cam: seq<CameraRead>, i: nat)
    requires i <= |cam| && HasFailure(cam[..i])
    ensures Submissions(cam) == Submissions(cam[..i])
    decreases |cam| - i
  {
    if i < |cam| {
      var p := cam[..|cam| - 1];
      assert p[..i] == cam[..i];
      NothingAfterFailure(p, i);
      PrefixHasFailure(cam, i, |cam| - 1);
      assert HasFailure(p) by { assert cam[..|cam| - 1] == p; }
    } else {
      assert cam[..i] == cam;
    }
  }

  /** With no failed read, every captured frame is sent, in order. */
  lemma {:induction false} AllSentWithoutFailure(cam: seq<CameraRead>)
    requires !HasFailure(cam)
    ensures |Submissions(cam)| == |cam|
    ensures forall i :: 0 <= i < |cam| ==> Submissions(cam)[i] == cam[i].timestampMs
    decreases |cam|
  {
    if cam != [] {
      var p := cam[..|cam| - 1];
      AllSentWithoutFailure(p);
      assert !cam[|cam| - 1].ReadFailed?;
    }
  }

  /** LiveRecognizer: the camera thread and the model's result callback. */
  class LiveRecognizer {
    const stopRecognizer: StopSignal
    const frameQueue: Fifo<Frame>
    const gestureQueue: Fifo<GestureEvent>

    /** The timestamps of the frames handed to `recognize_async`, in order. */
    var submitted: seq<int>

    constructor (stopRecognizer: StopSignal, frameQueue: Fifo<Frame>, gestureQueue: Fifo<GestureEvent>)
      ensures this.stopRecognizer == stopRecognizer && this.frameQueue == frameQueue
      ensures this.gestureQueue == gestureQueue && submitted == []
    {
      this.stopRecognizer := stopRecognizer;
      this.frameQueue := frameQueue;
      this.gestureQueue := gestureQueue;
      submitted := [];
    }

    /** run(): read the camera until the stop flag is set; a failed read sets it. */
    method Run(cam: seq<CameraRead>)
      modifies this`submitted, stopRecognizer
      ensures old(stopRecognizer.isSet) ==> stopRecognizer.isSet && submitted == old(submitted)
      ensures !old(stopRecognizer.isSet) ==>
        && (stopRecognizer.isSet <==> HasFailure(cam))
        && submitted == old(submitted) + Submissions(cam)
    {
      var i := 0;
      while !stopRecognizer.isSet && i < |cam|
        invariant 0 <= i <= |cam|
        invariant old(stopRecognizer.isSet) ==> i == 0 && stopRecognizer.isSet && submitted == old(submitted)
        invariant !old(stopRecognizer.isSet) ==>
          && (stopRecognizer.isSet <==> HasFailure(cam[..i]))
          && submitted == old(submitted) + Submissions(cam[..i])
      {
        assert cam[..i + 1][..i] == cam[..i];
        if cam[i].Captured? {
          submitted := submitted + [cam[i].timestampMs];
        } else {
          stopRecognizer.Set();
        }
        assert cam[..i + 1][i] == cam[i];
        i := i + 1;
      }
      if !old(stopRecognizer.isSet) {
        if i < |cam| {
          NothingAfterFailure(cam, i);
          PrefixHasFailure(cam, i, |cam|);
        }
        assert cam[..|cam|] == cam;
      }
    }

    /** handle_result(result, output_image, timestamp_ms) */
    method HandleResult(result: RecognizerResult, timestampMs: int)
      requires WellFormedResult(result)
      modifies frameQueue, gestureQueue
      ensures frameQueue.items == old(frameQueue.items) + [Frame(timestampMs)]
      ensures gestureQueue.items == old(gestureQueue.items) + Detections(result, timestampMs, |result.gestures|)
    {
      frameQueue.Put(Frame(timestampMs));
      var i := 0;
      while i < |result.gestures|
        invariant 0 <= i <= |result.gestures|
        invariant frameQueue.items == old(frameQueue.items) + [Frame(timestampMs)]
        invariant gestureQueue.items == old(gestureQueue.items) + Detections(result, timestampMs, i)
      {
        var gesture := result.gestures[i][0];
        var hand := result.handedness[i][0];
        if gesture.categoryName != NoGesture && gesture.score >= GestureScoreThreshold {
          gestureQueue.Put(GestureEvent(hand.categoryName, gesture.categoryName, timestampMs));
        }
        i := i + 1;
      }
    }
  }
}
