/** The running indices of the data loaders: which frame of which trajectory each environment gets
    at each call. `TartanLoader` counts before every call, `EurocLoader` before every call but the
    first; both turn out to step through the same cursor. Which trajectory a training environment
    gets next is drawn at random: the draws are parameters. */
module LoaderCounters {
  import opened Basics

  /** Where one environment is: before its first frame, or at frame `time` of trajectory `traj` */
  datatype Cursor = Unstarted(traj: nat) | At(traj: nat, time: nat)

  datatype Item = Item(traj: nat, time: nat, newSequence: bool)

  /** The next frame: the following one while there is one, else frame 0 of the trajectory drawn,
      or of the same one if none is drawn */
  function Next(c: Cursor, draw: Option<nat>, lengths: seq<nat>): (r: Item)
    requires c.traj < |lengths|
    ensures c.At? && c.time + 1 < lengths[c.traj] ==> r == Item(c.traj, c.time + 1, false)
    ensures c.Unstarted? || c.time + 1 >= lengths[c.traj] ==>
      r == Item(if draw.Some? then draw.value else c.traj, 0, true)
  {
    if c.Unstarted? || c.time + 1 >= lengths[c.traj] then Item(if draw.Some? then draw.value else c.traj, 0, true)
    else Item(c.traj, c.time + 1, false)
  }

  /** An item follows a cursor: frame 0 starts a sequence and nothing else does, a started
      sequence stays in its trajectory and grows by one, and only a trajectory without any frame
      is read past its end. */
  ghost predicate Follows(i: Item, c: Cursor, lengths: seq<nat>)
    requires c.traj < |lengths|
  {
    (i.newSequence <==> i.time == 0) &&
    (!i.newSequence ==> c.At? && i.traj == c.traj && i.time == c.time + 1) &&
    (i.newSequence ==> c.Unstarted? || c.time + 1 >= lengths[c.traj]) &&
    i.traj < |lengths| && (i.time < lengths[i.traj] <==> lengths[i.traj] > 0)
  }

  lemma NextFollows(c: Cursor, draw: Option<nat>, lengths: seq<nat>)
    requires c.traj < |lengths| && (draw.Some? ==> draw.value < |lengths|)
    ensures Follows(Next(c, draw, lengths), c, lengths)
  {
  }

  /** The second pose is that of the next frame, or of the same one at the end of the trajectory. */
  ghost predicate PoseAfter(i: Item, pose: int, lengths: seq<nat>) {
    i.traj < |lengths| &&
    (i.time + 1 < lengths[i.traj] ==> pose == i.time + 1) &&
    (i.time + 1 == lengths[i.traj] ==> pose == i.time)
  }

  // -------------------------------------------------- fixed assignment

  function CursorAfter(i: Item): Cursor {
    At(i.traj, i.time)
  }

  /** The item of call `k`, counting from 0, of an environment that keeps its trajectory */
  function ItemAt(traj: nat, k: nat, lengths: seq<nat>): (r: Item)
    requires traj < |lengths|
    ensures r.traj == traj
  {
    Next(if k == 0 then Unstarted(traj) else CursorAfter(ItemAt(traj, k - 1, lengths)), None, lengths)
  }

  lemma ModuloStep(k: nat, n: nat)
    requires n > 0
    ensures (k + 1) % n == if k % n + 1 == n then 0 else k % n + 1
  {
    var q, r := k / n, k % n;
    assert k + 1 == q * n + (r + 1);
    if r + 1 == n {
      assert k + 1 == (q + 1) * n;
      DivisionIsUnique(k + 1, n, q + 1, 0);
    } else {
      DivisionIsUnique(k + 1, n, q, r + 1);
    }
  }

  /** In closed form: call `k` reads frame `k` modulo the length of the trajectory, and starts a
      sequence whenever that is 0; a trajectory without frames is started at every call. */
  lemma {:induction false} ItemIsModulo(traj: nat, k: nat, lengths: seq<nat>)
    requires traj < |lengths|
    ensures var n := lengths[traj];
      ItemAt(traj, k, lengths) == if n == 0 then Item(traj, 0, true) else Item(traj, k % n, k % n == 0)
  {
    if k > 0 {
      ItemIsModulo(traj, k - 1, lengths);
      if lengths[traj] > 0 {
        ModuloStep(k - 1, lengths[traj]);
      }
    }
  }

  // ----------------------------------------------------------- the loaders

  class TartanLoader {
    const training: bool
    const numEnvs: nat
    const nrSamplesPerTraj: seq<nat>
    var trajIdx: seq<nat>
    var startDataloaderIdx: seq<nat>
    var selectNewTraj: seq<bool>
    var internalIdx: nat

    ghost predicate Valid()
      reads this
    {
      |trajIdx| == |startDataloaderIdx| == |selectNewTraj| == numEnvs &&
      forall e :: 0 <= e < numEnvs ==> trajIdx[e] < |nrSamplesPerTraj| && startDataloaderIdx[e] <= internalIdx
    }

    function CursorOf(e: nat): (c: Cursor)
      requires Valid() && e < numEnvs
      reads this
      ensures c.traj < |nrSamplesPerTraj|
    {
      if selectNewTraj[e] then Unstarted(trajIdx[e]) else At(trajIdx[e], internalIdx - startDataloaderIdx[e])
    }

    /** `set_up_running_indices`. With more environments than trajectories the first call would
        look up a trajectory that does not exist. */
    constructor (training: bool, numEnvs: nat, nrSamplesPerTraj: seq<nat>)
      requires numEnvs <= |nrSamplesPerTraj|
      ensures Valid() && this.training == training && this.numEnvs == numEnvs && this.nrSamplesPerTraj == nrSamplesPerTraj
      ensures forall e :: 0 <= e < numEnvs ==> CursorOf(e) == Unstarted(e)
    {
      this.training, this.numEnvs, this.nrSamplesPerTraj := training, numEnvs, nrSamplesPerTraj;
      trajIdx := seq(numEnvs, e => e);
      startDataloaderIdx := seq(numEnvs, _ => 0);
      selectNewTraj := seq(numEnvs, _ => true);
      internalIdx := 0;
    }

    /** `__getitem__`: `draws[e]` is what `torch.randint` yields for environment `e`. The second
        result is the frame that the next pose is taken from. */
    method GetItem(draws: seq<nat>) returns (items: seq<Item>, nextPose: seq<int>)
      requires Valid() && |draws| == numEnvs && forall e :: 0 <= e < numEnvs ==> draws[e] < |nrSamplesPerTraj|
      modifies this
      ensures Valid() && |items| == |nextPose| == numEnvs
      ensures forall e :: 0 <= e < numEnvs ==>
        items[e] == Next(old(CursorOf(e)), if training then Some(draws[e]) else None, nrSamplesPerTraj)
      ensures forall e :: 0 <= e < numEnvs ==> Follows(items[e], old(CursorOf(e)), nrSamplesPerTraj) && CursorOf(e) == CursorAfter(items[e])
      ensures forall e :: 0 <= e < numEnvs ==> PoseAfter(items[e], nextPose[e], nrSamplesPerTraj)
    {
      internalIdx := internalIdx + 1;
      items, nextPose := [], [];
      for e := 0 to numEnvs
        invariant Valid() && |items| == |nextPose| == e && internalIdx == old(internalIdx) + 1
        invariant forall k :: e <= k < numEnvs ==>
          trajIdx[k] == old(trajIdx)[k] && startDataloaderIdx[k] == old(startDataloaderIdx)[k] && selectNewTraj[k] == old(selectNewTraj)[k]
        invariant forall k :: 0 <= k < e ==>
          items[k] == Next(old(CursorOf(k)), if training then Some(draws[k]) else None, nrSamplesPerTraj) &&
          Follows(items[k], old(CursorOf(k)), nrSamplesPerTraj) && CursorOf(k) == CursorAfter(items[k])
        invariant forall k :: 0 <= k < e ==> PoseAfter(items[k], nextPose[k], nrSamplesPerTraj)
      {
        NextFollows(old(CursorOf(e)), if training then Some(draws[e]) else None, nrSamplesPerTraj);
        var item, pose := Advance(e, draws[e]);
        items, nextPose := items + [item], nextPose + [pose];
      }
    }

    /** What `__getitem__` does for one environment, after the count */
    method Advance(e: nat, draw: nat) returns (item: Item, nextPose: int)
      requires Valid() && e < numEnvs && draw < |nrSamplesPerTraj| && startDataloaderIdx[e] < internalIdx
      modifies this`trajIdx, this`startDataloaderIdx, this`selectNewTraj
      ensures Valid() && CursorOf(e) == CursorAfter(item)
      ensures item == Next(
        if old(selectNewTraj)[e] then Unstarted(old(trajIdx)[e]) else At(old(trajIdx)[e], internalIdx - 1 - old(startDataloaderIdx)[e]),
        if training then Some(draw) else None, nrSamplesPerTraj)
      ensures nextPose == if item.time + 1 < nrSamplesPerTraj[item.traj] then item.time + 1 else nrSamplesPerTraj[item.traj] as int - 1
      ensures forall k :: 0 <= k < numEnvs && k != e ==>
        trajIdx[k] == old(trajIdx)[k] && startDataloaderIdx[k] == old(startDataloaderIdx)[k] && selectNewTraj[k] == old(selectNewTraj)[k]
    {
      var trajTimeIdx := internalIdx - startDataloaderIdx[e];
      selectNewTraj := selectNewTraj[e := trajTimeIdx >= nrSamplesPerTraj[trajIdx[e]] || selectNewTraj[e]];
      if training && selectNewTraj[e] {
        trajIdx := trajIdx[e := draw];
      }
      if selectNewTraj[e] {
        startDataloaderIdx := startDataloaderIdx[e := internalIdx];
      }
      var newSequence := selectNewTraj[e];
      selectNewTraj := selectNewTraj[e := false];
      trajTimeIdx := internalIdx - startDataloaderIdx[e];
      var last: int := nrSamplesPerTraj[trajIdx[e]] as int - 1;
      nextPose := if trajTimeIdx + 1 < last then trajTimeIdx + 1 else last;
      item := Item(trajIdx[e], trajTimeIdx, newSequence);
    }
  }

  class EurocLoader {
    const numEnvs: nat
    const nrSamplesPerTraj: seq<nat>
    var trajIdx: seq<nat>
    var startDataloaderIdx: seq<nat>
    var selectNewTraj: seq<bool>
    var internalIdx: nat
    var firstCall: bool

    ghost predicate Valid()
      reads this
    {
      |trajIdx| == |startDataloaderIdx| == |selectNewTraj| == numEnvs &&
      (firstCall ==> forall e :: 0 <= e < numEnvs ==> selectNewTraj[e]) &&
      forall e :: 0 <= e < numEnvs ==> trajIdx[e] < |nrSamplesPerTraj| && startDataloaderIdx[e] <= internalIdx
    }

    function CursorOf(e: nat): (c: Cursor)
      requires Valid() && e < numEnvs
      reads this
      ensures c.traj < |nrSamplesPerTraj|
    {
      if selectNewTraj[e] then Unstarted(trajIdx[e]) else At(trajIdx[e], internalIdx - startDataloaderIdx[e])
    }

    /** `set_up_running_indices` */
    constructor (numEnvs: nat, nrSamplesPerTraj: seq<nat>)
      requires numEnvs <= |nrSamplesPerTraj|
      ensures Valid() && this.numEnvs == numEnvs && this.nrSamplesPerTraj == nrSamplesPerTraj
      ensures forall e :: 0 <= e < numEnvs ==> CursorOf(e) == Unstarted(e)
    {
      this.numEnvs, this.nrSamplesPerTraj := numEnvs, nrSamplesPerTraj;
      trajIdx := seq(numEnvs, e => e);
      startDataloaderIdx := seq(numEnvs, _ => 0);
      selectNewTraj := seq(numEnvs, _ => true);
      internalIdx := 0;
      firstCall := true;
    }

    /** `__getitem__` */
    method GetItem() returns (items: seq<Item>)
      requires Valid()
      modifies this
      ensures Valid() && |items| == numEnvs
      ensures forall e :: 0 <= e < numEnvs ==> items[e] == Next(old(CursorOf(e)), None, nrSamplesPerTraj)
      ensures forall e :: 0 <= e < numEnvs ==> Follows(items[e], old(CursorOf(e)), nrSamplesPerTraj) && CursorOf(e) == CursorAfter(items[e])
    {
      if firstCall {
        firstCall := false;
      } else {
        internalIdx := internalIdx + 1;
      }
      items := [];
      for e := 0 to numEnvs
        invariant Valid() && |items| == e && !firstCall
        invariant internalIdx == old(internalIdx) + if old(firstCall) then 0 else 1
        invariant trajIdx == old(trajIdx)
        invariant forall k :: e <= k < numEnvs ==>
          startDataloaderIdx[k] == old(startDataloaderIdx)[k] && selectNewTraj[k] == old(selectNewTraj)[k]
        invariant forall k :: 0 <= k < e ==>
          items[k] == Next(old(CursorOf(k)), None, nrSamplesPerTraj) &&
          Follows(items[k], old(CursorOf(k)), nrSamplesPerTraj) && CursorOf(k) == CursorAfter(items[k])
      {
        NextFollows(old(CursorOf(e)), None, nrSamplesPerTraj);
        var item := Advance(e);
        items := items + [item];
      }
    }

    /** What `__getitem__` does for one environment, after the count */
    method Advance(e: nat) returns (item: Item)
      requires Valid() && e < numEnvs && !firstCall
      modifies this`startDataloaderIdx, this`selectNewTraj
      ensures Valid() && CursorOf(e) == CursorAfter(item)
      ensures var elapsed := internalIdx - old(startDataloaderIdx)[e];
        item == if old(selectNewTraj)[e] || elapsed >= nrSamplesPerTraj[trajIdx[e]] then Item(trajIdx[e], 0, true)
                else Item(trajIdx[e], elapsed, false)
      ensures forall k :: 0 <= k < numEnvs && k != e ==>
        startDataloaderIdx[k] == old(startDataloaderIdx)[k] && selectNewTraj[k] == old(selectNewTraj)[k]
    {
      var trajTimeIdx := internalIdx - startDataloaderIdx[e];
      selectNewTraj := selectNewTraj[e := trajTimeIdx >= nrSamplesPerTraj[trajIdx[e]] || selectNewTraj[e]];
      if selectNewTraj[e] {
        startDataloaderIdx := startDataloaderIdx[e := internalIdx];
      }
      var newSequence := selectNewTraj[e];
      selectNewTraj := selectNewTraj[e := false];
      trajTimeIdx := internalIdx - startDataloaderIdx[e];
      item := Item(trajIdx[e], trajTimeIdx, newSequence);
    }
  }

  // --------------------------------------------------------- whole runs

  /** Both loaders, freshly set up for evaluation on the same trajectories: at every call they
      hand out the same items, those of the closed form. */
  method ReadBoth(numEnvs: nat, lengths: seq<nat>, calls: nat) returns (tartan: seq<seq<Item>>, euroc: seq<seq<Item>>)
    requires numEnvs <= |lengths|
    ensures tartan == euroc && |tartan| == calls
    ensures forall k :: 0 <= k < calls ==> |tartan[k]| == numEnvs
    ensures forall k, e :: 0 <= k < calls && 0 <= e < numEnvs ==> tartan[k][e] == ItemAt(e, k, lengths)
  {
    hide TartanLoader.CursorOf, TartanLoader.Valid, EurocLoader.CursorOf, EurocLoader.Valid, ItemAt, Next;
    var t := new TartanLoader(false, numEnvs, lengths);
    var u := new EurocLoader(numEnvs, lengths);
    tartan, euroc := [], [];
    for k := 0 to calls
      invariant t.Valid() && u.Valid() && fresh(t) && fresh(u) && InStep(t, u, numEnvs, lengths, k)
      invariant tartan == euroc && |tartan| == k
      invariant forall j :: 0 <= j < k ==> |tartan[j]| == numEnvs
      invariant forall j, e :: 0 <= j < k && 0 <= e < numEnvs ==> tartan[j][e] == ItemAt(e, j, lengths)
    {
      var a, b := CallBoth(t, u, numEnvs, lengths, k);
      tartan, euroc := tartan + [a], euroc + [b];
    }
  }

  /** Both loaders are about to hand out the items of call `k`. */
  ghost predicate InStep(t: TartanLoader, u: EurocLoader, numEnvs: nat, lengths: seq<nat>, k: nat)
    requires t.Valid() && u.Valid()
    reads t, u
  {
    !t.training && t.numEnvs == u.numEnvs == numEnvs && t.nrSamplesPerTraj == u.nrSamplesPerTraj == lengths &&
    numEnvs <= |lengths| &&
    forall e :: 0 <= e < numEnvs ==>
      t.CursorOf(e) == u.CursorOf(e) == if k == 0 then Unstarted(e) else CursorAfter(ItemAt(e, k - 1, lengths))
  }

  method CallBoth(t: TartanLoader, u: EurocLoader, numEnvs: nat, lengths: seq<nat>, k: nat) returns (a: seq<Item>, b: seq<Item>)
    requires t.Valid() && u.Valid() && InStep(t, u, numEnvs, lengths, k)
    modifies t, u
    ensures t.Valid() && u.Valid() && InStep(t, u, numEnvs, lengths, k + 1)
    ensures a == b && |a| == numEnvs && forall e :: 0 <= e < numEnvs ==> a[e] == ItemAt(e, k, lengths)
  {
    hide TartanLoader.CursorOf, TartanLoader.Valid, EurocLoader.CursorOf, EurocLoader.Valid, Next, Follows, PoseAfter;
    var poses;
    a, poses := t.GetItem(seq(numEnvs, e => e));
    b := u.GetItem();
  }

  /** `test_dataloader`: compares every batch with the one before. On a loader freshly set up it
      reports no discrepancy, whatever is drawn. */
  method TestDataloader(loader: TartanLoader, draws: seq<seq<nat>>) returns (discrepancies: seq<string>)
    requires loader.Valid() && forall e :: 0 <= e < loader.numEnvs ==> loader.CursorOf(e).Unstarted?
    requires forall k :: 0 <= k < |draws| ==> |draws[k]| == loader.numEnvs
    requires forall k, e :: 0 <= k < |draws| && 0 <= e < loader.numEnvs ==> draws[k][e] < |loader.nrSamplesPerTraj|
    modifies loader
    ensures loader.Valid() && discrepancies == []
  {
    discrepancies := [];
    var testTraj: seq<nat> := seq(loader.numEnvs, _ => 0);
    var testTime: seq<nat> := seq(loader.numEnvs, _ => 0);
    for k := 0 to |draws|
      invariant loader.Valid() && discrepancies == [] && |testTraj| == |testTime| == loader.numEnvs
      invariant forall e :: 0 <= e < loader.numEnvs ==>
        loader.CursorOf(e).Unstarted? || loader.CursorOf(e) == At(testTraj[e], testTime[e])
    {
      var items, _ := loader.GetItem(draws[k]);
      for e := 0 to loader.numEnvs
        invariant discrepancies == []
      {
        if !items[e].newSequence && testTraj[e] != items[e].traj {
          discrepancies := discrepancies + ["Discrepancy detected: 1"];
        }
        if !items[e].newSequence && testTime[e] + 1 != items[e].time {
          discrepancies := discrepancies + ["Discrepancy detected: 2"];
        }
        if items[e].newSequence && items[e].time != 0 {
          discrepancies := discrepancies + ["Discrepancy detected: 3"];
        }
      }
      testTraj := seq(loader.numEnvs, e requires 0 <= e < |items| => items[e].traj);
      testTime := seq(loader.numEnvs, e requires 0 <= e < |items| => items[e].time);
    }
  }
}
