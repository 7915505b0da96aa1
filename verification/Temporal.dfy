/** Source frames and the contiguity rules for realtime and recorded clips. */
module Temporal {
  /** A depth frame's identity: its source sequence number and host time.  Sequence 0
      stands for "no frame yet". */
  datatype Frame = Frame(sequence: nat, time: int)

  const MAXIMUM_CLIP_FRAME_GAP_NS := 125_000_000
  const MAXIMUM_RECORDED_CLIP_FRAME_GAP_NS := 75_000_000

  predicate RealtimeContiguous(previous: Frame, current: Frame, maximumGap: int) {
    previous.sequence == 0 ||
    (previous.sequence < current.sequence && 0 < current.time - previous.time <= maximumGap)
  }

  predicate RecordedContiguous(previous: Frame, current: Frame) {
    previous.sequence == 0 ||
    (&& current.sequence == previous.sequence + 1
     && RealtimeContiguous(previous, current, MAXIMUM_RECORDED_CLIP_FRAME_GAP_NS))
  }
}
