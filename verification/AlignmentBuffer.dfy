/** The sliding buffers of `VecSVOEnv`: the last positions of each environment, for aligning the
    trajectory when the reward is computed, and the newest few, for the scale. */
module AlignmentBuffer {
  import opened Basics

  datatype Point = Point(x: real, y: real, z: real)

  const ORIGIN := Point(0.0, 0.0, 0.0)

  /** `reward_scale_nr_points` */
  const SCALE_POINTS: nat := 4

  /** What one tracked frame contributes: the estimated position and the true one */
  datatype Frame = Frame(position: Point, truth: Point)

  /** What the buffers hold for one environment */
  datatype Row = Row(steps: nat, positions: seq<Point>, truths: seq<Point>,
                     scalePositions: seq<Point>, scaleTruths: seq<Point>)

  // ------------------------------------------------- what the buffers mean

  /** The last `length` points, oldest first, from slot 0 on; unused slots hold zeros. */
  function Window(h: seq<Point>, length: nat): (w: seq<Point>)
    ensures |w| == length
  {
    seq(length, k requires 0 <= k < length =>
      if |h| > length then h[|h| - length + k] else if k < |h| then h[k] else ORIGIN)
  }

  /** The last `length` points, newest first; unused slots hold zeros. */
  function Newest(h: seq<Point>, length: nat): (w: seq<Point>)
    ensures |w| == length
  {
    seq(length, k requires 0 <= k < length => if k < |h| then h[|h| - 1 - k] else ORIGIN)
  }

  function Positions(frames: seq<Frame>): (r: seq<Point>)
    ensures |r| == |frames|
  {
    seq(|frames|, k requires 0 <= k < |frames| => frames[k].position)
  }

  function Truths(frames: seq<Frame>): (r: seq<Point>)
    ensures |r| == |frames|
  {
    seq(|frames|, k requires 0 <= k < |frames| => frames[k].truth)
  }

  /** The row that stands for the tracked frames `h` */
  function RowFor(h: seq<Frame>, length: nat): (r: Row)
    ensures Shaped(r, length)
  {
    Row(|h|, Window(Positions(h), length), Window(Truths(h), length),
        Newest(Positions(h), SCALE_POINTS), Newest(Truths(h), SCALE_POINTS))
  }

  // ------------------------------------------------ what happens to a row

  datatype Event = Tracked(frame: Frame) | Skipped | Cleared

  /** `[:-1] = [1:]` if the window is full, then the new point goes into the next free slot. */
  function Stored(w: seq<Point>, steps: nat, p: Point): (r: seq<Point>)
    requires |w| > 0
    ensures |r| == |w|
  {
    var v := if steps >= |w| then w[1..] + [w[|w| - 1]] else w;
    v[Min(steps, |w| - 1) := p]
  }

  /** `[1:] = [:-1]`, then the new point goes into slot 0. */
  function Pushed(w: seq<Point>, p: Point): (r: seq<Point>)
    requires |w| > 0
    ensures |r| == |w|
  {
    [p] + w[..|w| - 1]
  }

  function Zeros(length: nat): (r: seq<Point>)
    ensures |r| == length
  {
    seq(length, _ => ORIGIN)
  }

  predicate Shaped(row: Row, length: nat) {
    |row.positions| == |row.truths| == length && |row.scalePositions| == |row.scaleTruths| == SCALE_POINTS
  }

  function Apply(row: Row, ev: Event, length: nat): (r: Row)
    requires length > 0 && Shaped(row, length)
    ensures Shaped(r, length)
  {
    match ev
    case Skipped => row
    case Cleared => Row(0, Zeros(length), Zeros(length), Zeros(SCALE_POINTS), Zeros(SCALE_POINTS))
    case Tracked(f) =>
      Row(row.steps + 1,
          Stored(row.positions, row.steps, f.position), Stored(row.truths, row.steps, f.truth),
          Pushed(row.scalePositions, f.position), Pushed(row.scaleTruths, f.truth))
  }

  function Run(row: Row, events: seq<Event>, length: nat): (r: Row)
    requires length > 0 && Shaped(row, length)
    ensures Shaped(r, length)
  {
    if events == [] then row
    else Apply(Run(row, events[..|events| - 1], length), events[|events| - 1], length)
  }

  // ------------------------------------------------------ after any history

  /** How many events there are up to and including the last reset */
  function LastReset(events: seq<Event>): (n: nat)
    ensures n <= |events| && (n > 0 ==> events[n - 1].Cleared?)
    ensures forall k :: n <= k < |events| ==> !events[k].Cleared?
  {
    if events == [] then 0
    else if events[|events| - 1].Cleared? then |events|
    else LastReset(events[..|events| - 1])
  }

  function FramesOf(events: seq<Event>): seq<Frame> {
    if events == [] then []
    else FramesOf(events[..|events| - 1]) + match events[|events| - 1] case Tracked(f) => [f] case _ => []
  }

  /** The frames tracked since the last reset */
  function History(events: seq<Event>): seq<Frame> {
    FramesOf(events[LastReset(events)..])
  }

  lemma StoredKeepsWindow(h: seq<Point>, length: nat, p: Point)
    requires length > 0
    ensures Stored(Window(h, length), |h|, p) == Window(h + [p], length)
  {
    var l, r := Stored(Window(h, length), |h|, p), Window(h + [p], length);
    forall k | 0 <= k < length
      ensures l[k] == r[k]
    {
    }
  }

  lemma PushedKeepsNewest(h: seq<Point>, length: nat, p: Point)
    requires length > 0
    ensures Pushed(Newest(h, length), p) == Newest(h + [p], length)
  {
    var l, r := Pushed(Newest(h, length), p), Newest(h + [p], length);
    forall k | 0 <= k < length
      ensures l[k] == r[k]
    {
    }
  }

  lemma TrackedExtends(h: seq<Frame>, f: Frame, length: nat)
    requires length > 0
    ensures Apply(RowFor(h, length), Tracked(f), length) == RowFor(h + [f], length)
  {
    assert Positions(h + [f]) == Positions(h) + [f.position];
    assert Truths(h + [f]) == Truths(h) + [f.truth];
    StoredKeepsWindow(Positions(h), length, f.position);
    StoredKeepsWindow(Truths(h), length, f.truth);
    PushedKeepsNewest(Positions(h), SCALE_POINTS, f.position);
    PushedKeepsNewest(Truths(h), SCALE_POINTS, f.truth);
    hide Stored, Pushed, Window, Newest, Positions, Truths;
  }

  lemma ClearedIsEmpty(row: Row, length: nat)
    requires length > 0 && Shaped(row, length)
    ensures Apply(row, Cleared, length) == RowFor([], length)
  {
    assert Zeros(length) == Window([], length) && Zeros(SCALE_POINTS) == Newest([], SCALE_POINTS);
    assert Positions([]) == [] && Truths([]) == [];
  }

  /** Whatever the interleaving of tracked frames, skipped frames and resets: the row is the one
      that stands for the frames tracked since the last reset. */
  lemma {:induction false} RowIsHistory(events: seq<Event>, length: nat)
    requires length > 0
    ensures Run(RowFor([], length), events, length) == RowFor(History(events), length)
  {
    hide RowFor, Apply;
    if events != [] {
      var front, last := events[..|events| - 1], events[|events| - 1];
      RowIsHistory(front, length);
      var row := Run(RowFor([], length), front, length);
      if last.Cleared? {
        ClearedIsEmpty(row, length);
        assert History(events) == [];
      } else {
        var n := LastReset(front);
        assert LastReset(events) == n && events[n..][..|events| - n - 1] == front[n..];
        if last.Tracked? {
          TrackedExtends(History(front), last.frame, length);
          assert History(events) == History(front) + [last.frame];
        } else {
          SkippedKeeps(row, length);
          assert History(events) == History(front);
        }
      }
    }
  }

  lemma SkippedKeeps(row: Row, length: nat)
    requires length > 0 && Shaped(row, length)
    ensures Apply(row, Skipped, length) == row
  {
  }

  /** The first slots, read slot by slot: the last min(n, L) tracked points since the reset,
      oldest first; the scale buffers, newest first. */
  lemma SlotsHoldHistory(events: seq<Event>, length: nat)
    requires length > 0
    ensures var h, row := History(events), Run(RowFor([], length), events, length);
      row.steps == |h| &&
      row.positions[..Min(|h|, length)] == Positions(h)[|h| - Min(|h|, length)..] &&
      row.truths[..Min(|h|, length)] == Truths(h)[|h| - Min(|h|, length)..] &&
      (forall k :: 0 <= k < Min(|h|, SCALE_POINTS) ==>
        row.scalePositions[k] == h[|h| - 1 - k].position && row.scaleTruths[k] == h[|h| - 1 - k].truth)
  {
    RowIsHistory(events, length);
    hide Run, History;
  }

  /** The alignment reads `[:nrAlign]`, which is cut off at the end of the window. When the guard
      of the position reward holds, it reads written slots only: the oldest points the window still has. */
  lemma AlignmentReadsWrittenSlots(events: seq<Event>, length: nat, nrAlign: nat)
    requires length > 0 && Run(RowFor([], length), events, length).steps > nrAlign
    ensures var h, row, m := History(events), Run(RowFor([], length), events, length), Min(nrAlign, length);
      m <= Min(|h|, length) &&
      row.positions[..m] == Positions(h)[|h| - Min(|h|, length)..][..m] &&
      row.truths[..m] == Truths(h)[|h| - Min(|h|, length)..][..m]
  {
    SlotsHoldHistory(events, length);
    var h, row, m := History(events), Run(RowFor([], length), events, length), Min(nrAlign, length);
    assert row.positions[..m] == row.positions[..Min(|h|, length)][..m];
    assert row.truths[..m] == row.truths[..Min(|h|, length)][..m];
    hide Run, History;
  }

  /** Runs compose, so that what each `step` does adds up to what a whole run does. */
  lemma {:induction false} RunAppends(row: Row, a: seq<Event>, b: seq<Event>, length: nat)
    requires length > 0 && Shaped(row, length)
    ensures Run(row, a + b, length) == Run(Run(row, a, length), b, length)
  {
    hide Apply;
    if b == [] {
      assert a + b == a;
    } else {
      RunAppends(row, a, b[..|b| - 1], length);
      assert (a + b)[..|a + b| - 1] == a + b[..|b| - 1];
    }
  }

  /** What one `step` does to the row of one environment */
  function StepEvents(newSeq: bool, svoDone: bool, tracking: bool, frame: Frame): seq<Event> {
    (if newSeq then [Cleared] else []) + (if svoDone then [Cleared] else []) +
    [if tracking then Tracked(frame) else Skipped]
  }

  lemma StepInOrder(row: Row, newSeq: bool, svoDone: bool, tracking: bool, frame: Frame, length: nat)
    requires length > 0 && Shaped(row, length)
    ensures
      var cleared := if newSeq then Apply(row, Cleared, length) else row;
      var again := if svoDone then Apply(cleared, Cleared, length) else cleared;
      Run(row, StepEvents(newSeq, svoDone, tracking, frame), length) ==
        Apply(again, if tracking then Tracked(frame) else Skipped, length)
  {
    hide Apply;
    var first := if newSeq then [Cleared] else [];
    var second := if svoDone then [Cleared] else [];
    var third := [if tracking then Tracked(frame) else Skipped];
    RunAppends(row, first + second, third, length);
    RunAppends(row, first, second, length);
  }

  // --------------------------------------------------------- the buffers

  class AlignmentBuffers {
    const numEnvs: nat
    const trajLength: nat
    const nrAlign: nat
    var envSteps: seq<nat>
    var positions: seq<seq<Point>>
    var gtPositions: seq<seq<Point>>
    var positionsScale: seq<seq<Point>>
    var gtPositionsScale: seq<seq<Point>>

    ghost predicate Valid()
      reads this
    {
      trajLength > 0 && |envSteps| == numEnvs && |positions| == |gtPositions| == numEnvs &&
      |positionsScale| == |gtPositionsScale| == numEnvs &&
      (forall e :: 0 <= e < numEnvs ==> |positions[e]| == |gtPositions[e]| == trajLength) &&
      forall e :: 0 <= e < numEnvs ==> |positionsScale[e]| == |gtPositionsScale[e]| == SCALE_POINTS
    }

    function RowOf(e: nat): (r: Row)
      requires Valid() && e < numEnvs
      reads this
      ensures Shaped(r, trajLength)
    {
      Row(envSteps[e], positions[e], gtPositions[e], positionsScale[e], gtPositionsScale[e])
    }

    constructor (numEnvs: nat, trajLength: nat, nrAlign: nat)
      requires trajLength > 0
      ensures Valid() && this.numEnvs == numEnvs && this.trajLength == trajLength && this.nrAlign == nrAlign
      ensures forall e :: 0 <= e < numEnvs ==> RowOf(e) == RowFor([], trajLength)
    {
      this.numEnvs, this.trajLength, this.nrAlign := numEnvs, trajLength, nrAlign;
      envSteps := seq(numEnvs, _ => 0);
      positions := seq(numEnvs, _ => Zeros(trajLength));
      gtPositions := seq(numEnvs, _ => Zeros(trajLength));
      positionsScale := seq(numEnvs, _ => Zeros(SCALE_POINTS));
      gtPositionsScale := seq(numEnvs, _ => Zeros(SCALE_POINTS));
      new;
      assert Zeros(trajLength) == Window([], trajLength) && Zeros(SCALE_POINTS) == Newest([], SCALE_POINTS);
      assert Positions([]) == [] && Truths([]) == [];
    }

    /** What `reset_dones` and `reset_new_seq` do to the buffers */
    method ClearRows(mask: seq<bool>)
      requires Valid() && |mask| == numEnvs
      modifies this
      ensures Valid()
      ensures forall e :: 0 <= e < numEnvs ==>
        RowOf(e) == if mask[e] then Apply(old(RowOf(e)), Cleared, trajLength) else old(RowOf(e))
    {
      var e := 0;
      while e < numEnvs
        invariant 0 <= e <= numEnvs && Valid()
        invariant forall k :: 0 <= k < e ==>
          RowOf(k) == if mask[k] then Apply(old(RowOf(k)), Cleared, trajLength) else old(RowOf(k))
        invariant forall k :: e <= k < numEnvs ==> RowOf(k) == old(RowOf(k))
      {
        if mask[e] {
          envSteps := envSteps[e := 0];
          positions := positions[e := Zeros(trajLength)];
          gtPositions := gtPositions[e := Zeros(trajLength)];
          positionsScale := positionsScale[e := Zeros(SCALE_POINTS)];
          gtPositionsScale := gtPositionsScale[e := Zeros(SCALE_POINTS)];
        }
        e := e + 1;
      }
    }

    /** `update_alignment_buffer` */
    method UpdateAlignmentBuffer(posSvoMask: seq<bool>, frames: seq<Frame>)
      requires Valid() && |posSvoMask| == |frames| == numEnvs
      modifies this
      ensures Valid()
      ensures forall e :: 0 <= e < numEnvs ==>
        RowOf(e) == Apply(old(RowOf(e)), if posSvoMask[e] then Tracked(frames[e]) else Skipped, trajLength)
    {
      var e := 0;
      while e < numEnvs
        invariant 0 <= e <= numEnvs && Valid()
        invariant forall k :: 0 <= k < e ==>
          RowOf(k) == Apply(old(RowOf(k)), if posSvoMask[k] then Tracked(frames[k]) else Skipped, trajLength)
        invariant forall k :: e <= k < numEnvs ==> RowOf(k) == old(RowOf(k))
      {
        if posSvoMask[e] {
          StoreFrame(e, frames[e]);
        }
        e := e + 1;
      }
    }

    method StoreFrame(e: nat, f: Frame)
      requires Valid() && e < numEnvs
      modifies this
      ensures Valid() && RowOf(e) == Apply(old(RowOf(e)), Tracked(f), trajLength)
      ensures forall k :: 0 <= k < numEnvs && k != e ==> RowOf(k) == old(RowOf(k))
    {
      var w, gt := positions[e], gtPositions[e];
      if envSteps[e] >= trajLength {
        w := w[1..] + [w[trajLength - 1]];
        gt := gt[1..] + [gt[trajLength - 1]];
      }
      var bufferIdx := Min(envSteps[e], trajLength - 1);
      positions := positions[e := w[bufferIdx := f.position]];
      gtPositions := gtPositions[e := gt[bufferIdx := f.truth]];
      envSteps := envSteps[e := envSteps[e] + 1];

      positionsScale := positionsScale[e := [f.position] + positionsScale[e][..SCALE_POINTS - 1]];
      gtPositionsScale := gtPositionsScale[e := [f.truth] + gtPositionsScale[e][..SCALE_POINTS - 1]];
    }

    /** What `compute_reward` hands to the alignment for each environment that earns a position
        reward: the true positions and the estimated ones */
    method AlignmentInput(dones: seq<bool>) returns (input: seq<Option<(seq<Point>, seq<Point>)>>)
      requires Valid() && |dones| == numEnvs
      ensures |input| == numEnvs
      ensures forall e :: 0 <= e < numEnvs ==>
        (input[e].Some? <==> !dones[e] && RowOf(e).steps > nrAlign) &&
        (input[e].Some? ==> input[e].value == (RowOf(e).truths[..Min(nrAlign, trajLength)], RowOf(e).positions[..Min(nrAlign, trajLength)]))
    {
      input := [];
      for e := 0 to numEnvs
        invariant |input| == e
        invariant forall k :: 0 <= k < e ==>
          (input[k].Some? <==> !dones[k] && RowOf(k).steps > nrAlign) &&
          (input[k].Some? ==> input[k].value == (RowOf(k).truths[..Min(nrAlign, trajLength)], RowOf(k).positions[..Min(nrAlign, trajLength)]))
      {
        var stop := Min(nrAlign, trajLength);
        var item := if !dones[e] && envSteps[e] > nrAlign then Some((gtPositions[e][..stop], positions[e][..stop])) else None;
        input := input + [item];
      }
    }

    /** What one `step` does to the buffers: new sequences and lost tracks are cleared first, then
        the frame is stored, then the reward is computed, never for an environment just cleared. */
    method Step(newSeq: seq<bool>, svoDones: seq<bool>, tracking: seq<bool>, frames: seq<Frame>)
      returns (input: seq<Option<(seq<Point>, seq<Point>)>>)
      requires Valid() && |newSeq| == |svoDones| == |tracking| == |frames| == numEnvs
      modifies this
      ensures Valid() && |input| == numEnvs
      ensures forall e :: 0 <= e < numEnvs ==>
        RowOf(e) == Run(old(RowOf(e)), StepEvents(newSeq[e], svoDones[e], tracking[e], frames[e]), trajLength)
      ensures forall e :: 0 <= e < numEnvs ==>
        (input[e].Some? <==> !newSeq[e] && !svoDones[e] && RowOf(e).steps > nrAlign) &&
        (input[e].Some? ==> input[e].value == (RowOf(e).truths[..Min(nrAlign, trajLength)], RowOf(e).positions[..Min(nrAlign, trajLength)]))
    {
      hide Apply, Run, StepEvents;
      ghost var before := seq(numEnvs, e requires 0 <= e < numEnvs && Valid() reads this => RowOf(e));
      ClearRows(newSeq);
      ClearRows(svoDones);
      UpdateAlignmentBuffer(tracking, frames);
      var dones := seq(numEnvs, e requires 0 <= e < numEnvs => svoDones[e] || newSeq[e]);
      input := AlignmentInput(dones);
      forall e | 0 <= e < numEnvs
        ensures RowOf(e) == Run(before[e], StepEvents(newSeq[e], svoDones[e], tracking[e], frames[e]), trajLength)
      {
        StepInOrder(before[e], newSeq[e], svoDones[e], tracking[e], frames[e], trajLength);
      }
    }

    /** What `reset` does to the buffers */
    method Reset()
      requires Valid()
      modifies this
      ensures Valid() && forall e :: 0 <= e < numEnvs ==> RowOf(e) == Apply(old(RowOf(e)), Cleared, trajLength)
    {
      ClearRows(seq(numEnvs, _ => true));
    }
  }
}
