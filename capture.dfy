/** The two ways a camera tool waits for frames outside the cache: the one-shot
    future of a snapshot, and the list of per-frame futures a clip recording
    fills. Every wait is modelled by the frames that arrive before it times out. */
module Capture {
  import opened Outcomes
  import opened Frames

  /** The future get_camera_snapshot awaits, with the decode callback that sets it. */
  class OneShot {
    var result: Option<Frame>

    constructor ()
      ensures result == None
    {
      result := None;
    }

    /** The callback: a future that is already done ignores the frame. */
    method Deliver(f: Frame)
      modifies this
      ensures old(result).Some? ==> result == old(result)
      ensures old(result).None? ==> result == Some(f)
    {
      if result.Some? {
        return;
      }
      result := Some(f);
    }
  }

  /** Deliver every arriving frame to a fresh future and read it when the wait
      ends: the future holds the first frame, and the wait timed out when no
      frame came. */
  method AwaitOne(arrivals: seq<Frame>) returns (r: Option<Frame>)
    ensures arrivals == [] ==> r == None
    ensures arrivals != [] ==> r == Some(arrivals[0])
  {
    var future := new OneShot();
    for i := 0 to |arrivals|
      invariant future.result == if i == 0 then None else Some(arrivals[0])
    {
      future.Deliver(arrivals[i]);
    }
    r := future.result;
  }

  /** `max(1, int(duration * fps))`, once both have been checked positive. */
  function FrameCount(duration: int, fps: int): (n: int)
    requires duration > 0 && fps > 0
    ensures n == duration * fps && n >= fps && n >= duration
  {
    var product := duration * fps;
    assert product >= fps && product >= duration by {
      assert (duration - 1) * fps >= 0;
      assert duration * (fps - 1) >= 0;
    }
    if product < 1 then 1 else product
  }

  /** The position of the first future that is not done yet. */
  function FirstUnfilled(slots: seq<Option<Frame>>): (k: Option<nat>)
    ensures k.Some? ==> k.value < |slots| && slots[k.value].None?
    ensures k.Some? ==> forall j :: 0 <= j < k.value ==> slots[j].Some?
    ensures k.None? ==> forall j :: 0 <= j < |slots| ==> slots[j].Some?
  {
    if slots == [] then None
    else if slots[0].None? then Some(0)
    else match FirstUnfilled(slots[1..])
      case None => None
      case Some(j) => Some(j + 1)
  }

  /** The clip's callback: the frame goes to the first future not yet done;
      with every future done it is dropped. */
  function Fill(slots: seq<Option<Frame>>, f: Frame): seq<Option<Frame>> {
    match FirstUnfilled(slots)
    case None => slots
    case Some(k) => slots[k := Some(f)]
  }

  method FillFirstUnfilled(slots: array<Option<Frame>>, f: Frame)
    modifies slots
    ensures slots[..] == Fill(old(slots[..]), f)
  {
    for i := 0 to slots.Length
      invariant slots[..] == old(slots[..])
      invariant forall j :: 0 <= j < i ==> slots[j].Some?
    {
      if slots[i].None? {
        assert FirstUnfilled(slots[..]) == Some(i) by {
          var k := FirstUnfilled(slots[..]);
          assert k.Some? by {
            if k.None? {
              assert slots[..][i].Some?;
            }
          }
        }
        slots[i] := Some(f);
        return;
      }
    }
  }

  /** The n slots after the frames xs arrived in order: the first |xs| slots
      hold them, the others are still waiting. */
  function PrefixFilled(xs: seq<Frame>, n: nat): (slots: seq<Option<Frame>>)
    ensures |slots| == n
  {
    seq(n, i requires 0 <= i < n => if i < |xs| then Some(xs[i]) else None)
  }

  /** Filling the first unfilled slot keeps the filled slots a prefix, in
      arrival order: the k-th frame to arrive lands in slot k. */
  lemma FillKeepsArrivalOrder(xs: seq<Frame>, f: Frame, n: nat)
    ensures Fill(PrefixFilled(xs, n), f) == PrefixFilled(xs + [f], n)
  {
    var slots := PrefixFilled(xs, n);
    var k := FirstUnfilled(slots);
    if |xs| < n {
      assert slots[|xs|].None?;
      assert k == Some(|xs|);
    } else {
      assert k.None?;
    }
  }

  /** record_camera_clip's capture: allocate frame_count futures, let every
      arriving frame fill the first unfilled one, then await them in order; the
      first future still unfilled ends the recording with a timeout. */
  method CaptureFrames(n: nat, arrivals: seq<Frame>) returns (r: Result<seq<Frame>>)
    ensures |arrivals| >= n ==> r == Ok(arrivals[..n])
    ensures |arrivals| < n ==> r == Err(RecordTimeout)
  {
    var slots := new Option<Frame>[n](_ => None);
    assert slots[..] == PrefixFilled([], n);
    for i := 0 to |arrivals|
      invariant slots[..] == PrefixFilled(arrivals[..i], n)
    {
      FillFirstUnfilled(slots, arrivals[i]);
      FillKeepsArrivalOrder(arrivals[..i], arrivals[i], n);
      assert arrivals[..i] + [arrivals[i]] == arrivals[..i + 1];
    }
    assert arrivals[..|arrivals|] == arrivals;
    var written: seq<Frame> := [];
    for idx := 0 to n
      invariant idx <= |arrivals|
      invariant written == arrivals[..idx]
    {
      if slots[idx].None? {
        return Err(RecordTimeout);
      }
      written := written + [slots[idx].value];
    }
    return Ok(written);
  }
}
