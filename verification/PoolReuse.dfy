/** What a living pool is for: objects come back, in the order they were returned, and none
    is allocated while one is waiting. */
module PoolReuse {
  import Collections
  import opened Pool

  /** Holds an object. */
  predicate Live(h: Handle)
  {
    h.InUse? || h.Asking? || h.Locked?
  }

  function One(h: Handle): nat
  {
    if Live(h) then 1 else 0
  }

  /** How many objects are with handles. */
  function InHands(st: State): nat
  {
    Collections.Total(st.handles, One)
  }

  predicate Refuses(step: Step)
  {
    step.Push? && step.full
  }

  predicate NoneRefused(steps: seq<Step>)
  {
    forall i | 0 <= i < |steps| :: !Refuses(steps[i])
  }

  /** Nothing was deleted or is about to be, and every object is pooled or in hands. */
  ghost predicate Intact(st: State)
  {
    && st.deleted == []
    && (forall j | 0 <= j < |st.handles| :: !st.handles[j].Doomed?)
    && st.created == |st.queue| + InHands(st)
  }

  lemma {:induction false} TotalAppend(hs: seq<Handle>, h: Handle)
    ensures Collections.Total(hs + [h], One) == Collections.Total(hs, One) + One(h)
  {
    if hs == [] {
      assert hs + [h] == [h];
      assert Collections.Total([h], One) == One(h) + Collections.Total([], One);
    } else {
      assert (hs + [h])[1..] == hs[1..] + [h];
      TotalAppend(hs[1..], h);
    }
  }

  lemma IntactStep(st: State, step: Step)
    requires Intact(st) && Enabled(st, step) && !Refuses(step) && Refs(st) > 0
    ensures Intact(Apply(st, step))
  {
    var st' := Apply(st, step);
    match step
    case Construct => TotalAppend(st.handles, st'.handles[|st.handles|]);
    case Copy =>
    case Drop =>
    case Drain =>
    case Release(j) => Collections.TotalUpdate(st.handles, j, st'.handles[j], One);
    case Lock(j) => Collections.TotalUpdate(st.handles, j, st'.handles[j], One);
    case Push(j, _) => Collections.TotalUpdate(st.handles, j, st'.handles[j], One);
    case Unlock(j) => Collections.TotalUpdate(st.handles, j, st'.handles[j], One);
    case Delete(j) =>
  }

  /** The pool never comes back, so as long as it is there it has always been there. */
  lemma {:induction false} AliveBefore(st: State, steps: seq<Step>)
    requires Legal(st, steps) && Refs(After(st, steps)) > 0
    ensures Refs(st) > 0
    decreases |steps|
  {
    if steps != [] {
      AliveBefore(Apply(st, steps[0]), steps[1..]);
      if Refs(st) == 0 {
        GoneForGood(st, steps[0]);
      }
    }
  }

  lemma {:induction false} IntactAlong(st: State, steps: seq<Step>)
    requires Intact(st) && Legal(st, steps) && NoneRefused(steps) && Refs(After(st, steps)) > 0
    ensures Intact(After(st, steps))
    decreases |steps|
  {
    if steps != [] {
      var st' := Apply(st, steps[0]);
      AliveBefore(st, steps);
      assert !Refuses(steps[0]);
      assert forall i | 0 <= i < |steps| - 1 :: steps[1..][i] == steps[i + 1];
      hide Intact, Apply, Enabled, Refs, Refuses;
      IntactStep(st, steps[0]);
      IntactAlong(st', steps[1..]);
    }
  }

  /** Over every run that refuses no object: while the pool is there (an owner or a deleter
      holds it) nothing has been deleted, and each object allocated is in the queue or with
      one handle that has not given it back. */
  lemma KeptWhileAlive(steps: seq<Step>)
    requires Legal(INITIAL, steps) && NoneRefused(steps) && Refs(After(INITIAL, steps)) > 0
    ensures var now := After(INITIAL, steps);
      && now.deleted == [] && now.created == |now.queue| + InHands(now)
      && forall p: nat :: multiset(now.queue)[p] + Objects(now.handles)[p] == if p < now.created then 1 else 0
  {
    IntactAlong(INITIAL, steps);
    hide Legal, Objects;
    forall p: nat
      ensures multiset(After(INITIAL, steps).queue)[p] + Objects(After(INITIAL, steps).handles)[p]
           == if p < After(INITIAL, steps).created then 1 else 0
    {
      ExactlyOneOwner(steps, p);
    }
  }

  // ----- how many objects there are -----

  /** The largest number of objects in hands at one moment of a run. */
  function Peak(st: State, steps: seq<Step>): nat
    requires Legal(st, steps)
    decreases |steps|
  {
    if steps == [] then InHands(st)
    else
      var later := Peak(Apply(st, steps[0]), steps[1..]);
      if later > InHands(st) then later else InHands(st)
  }

  /** Only a construction that finds the queue empty allocates. */
  lemma Allocates(st: State, step: Step)
    requires Enabled(st, step)
    ensures Apply(st, step).created == st.created + if step.Construct? && st.queue == [] then 1 else 0
  {
  }

  lemma {:induction false} CreatedBelow(st: State, steps: seq<Step>, bound: nat)
    requires Intact(st) && Legal(st, steps) && NoneRefused(steps) && Refs(After(st, steps)) > 0
    requires st.created <= bound
    ensures After(st, steps).created <= bound || After(st, steps).created <= Peak(st, steps)
    decreases |steps|
  {
    if steps != [] {
      var st' := Apply(st, steps[0]);
      AliveBefore(st, steps);
      assert !Refuses(steps[0]);
      assert forall i | 0 <= i < |steps| - 1 :: steps[1..][i] == steps[i + 1];
      IntactStep(st, steps[0]);
      Allocates(st, steps[0]);
      assert st'.created == |st'.queue| + InHands(st');
      assert st'.created > st.created ==> st'.queue == [];
      PeakNow(st', steps[1..]);
      hide Intact, Apply, Enabled, Refs, Refuses, InHands;
      CreatedBelow(st', steps[1..], if st'.created > bound then st'.created else bound);
    }
  }

  lemma PeakNow(st: State, steps: seq<Step>)
    requires Legal(st, steps)
    ensures InHands(st) <= Peak(st, steps)
  {
  }

  /** A living pool that refuses nothing never allocates more objects than were ever in
      hands together. */
  lemma NoMoreThanNeeded(steps: seq<Step>)
    requires Legal(INITIAL, steps) && NoneRefused(steps) && Refs(After(INITIAL, steps)) > 0
    ensures After(INITIAL, steps).created <= Peak(INITIAL, steps)
  {
    CreatedBelow(INITIAL, steps, 0);
  }

  // ----- first in, first out -----

  /** The objects given back, in order. */
  function Given(st: State, steps: seq<Step>): seq<nat>
    requires Legal(st, steps)
    decreases |steps|
  {
    if steps == [] then []
    else
      (if steps[0].Push? && !steps[0].full then [st.handles[steps[0].j].p] else [])
      + Given(Apply(st, steps[0]), steps[1..])
  }

  /** The objects handed out again, in order. */
  function Reused(st: State, steps: seq<Step>): seq<nat>
    requires Legal(st, steps)
    decreases |steps|
  {
    if steps == [] then []
    else
      var st' := Apply(st, steps[0]);
      (if steps[0].Construct? && st.queue != [] && |st'.handles| > 0 && st'.handles[|st'.handles| - 1].InUse?
       then [st'.handles[|st'.handles| - 1].p] else [])
      + Reused(st', steps[1..])
  }

  lemma FifoStep(st: State, step: Step)
    requires Enabled(st, step) && !step.Drain?
    ensures var st' := Apply(st, step);
      st.queue + (if step.Push? && !step.full then [st.handles[step.j].p] else [])
      == (if step.Construct? && st.queue != [] && |st'.handles| > 0 && st'.handles[|st'.handles| - 1].InUse?
          then [st'.handles[|st'.handles| - 1].p] else []) + st'.queue
  {
    if step.Construct? && st.queue != [] {
      assert st.queue == [st.queue[0]] + st.queue[1..];
    }
  }

  /** Objects are handed out again in the order they were given back, and those that were
      not are the queue. */
  lemma {:induction false} Fifo(st: State, steps: seq<Step>)
    requires Legal(st, steps) && forall i | 0 <= i < |steps| :: !steps[i].Drain?
    ensures st.queue + Given(st, steps) == Reused(st, steps) + After(st, steps).queue
    decreases |steps|
  {
    if steps == [] {
      assert st.queue + [] == [] + st.queue;
    } else {
      var st' := Apply(st, steps[0]);
      FifoStep(st, steps[0]);
      assert forall i | 0 <= i < |steps| - 1 :: steps[1..][i] == steps[i + 1];
      Fifo(st', steps[1..]);
      var given := if steps[0].Push? && !steps[0].full then [st.handles[steps[0].j].p] else [];
      var reused := if steps[0].Construct? && st.queue != [] && |st'.handles| > 0 && st'.handles[|st'.handles| - 1].InUse?
                    then [st'.handles[|st'.handles| - 1].p] else [];
      hide Apply, Enabled;
      Shuffle(st.queue, given, Given(st', steps[1..]), reused, st'.queue, Reused(st', steps[1..]), After(st', steps[1..]).queue);
    }
  }

  lemma Shuffle(q: seq<nat>, g: seq<nat>, gs: seq<nat>, r: seq<nat>, q': seq<nat>, rs: seq<nat>, last: seq<nat>)
    requires q + g == r + q' && q' + gs == rs + last
    ensures q + (g + gs) == (r + rs) + last
  {
    assert q + (g + gs) == (q + g) + gs == r + (q' + gs);
    assert r + (rs + last) == (r + rs) + last;
  }

  // ----- the end of the pool -----

  lemma {:induction false} NobodyHolds(hs: seq<Handle>)
    ensures Collections.Total(hs, Holds) == 0 <==> forall j | 0 <= j < |hs| :: !hs[j].Locked? && !hs[j].Pushed?
  {
    if hs != [] {
      NobodyHolds(hs[1..]);
      assert forall j | 0 < j < |hs| :: hs[j] == hs[1..][j - 1];
    }
  }

  /** The queue is taken down exactly when no owner is left and no deleter holds the pool. */
  lemma DrainsLast(st: State)
    ensures Enabled(st, Drain) <==>
      && st.queue != [] && st.owners == 0
      && forall j | 0 <= j < |st.handles| :: !st.handles[j].Locked? && !st.handles[j].Pushed?
  {
    NobodyHolds(st.handles);
  }

  // ----- owners -----

  function Count(steps: seq<Step>, step: Step): nat
  {
    if steps == [] then 0 else (if steps[0] == step then 1 else 0) + Count(steps[1..], step)
  }

  /** The owners are those there were, and the copies made, without those dropped; with one
      left a pool can be copied, dropped and asked for objects, with none it cannot. */
  lemma {:induction false} Owners(st: State, steps: seq<Step>)
    requires Legal(st, steps)
    ensures var now := After(st, steps);
      && now.owners + Count(steps, Drop) == st.owners + Count(steps, Copy)
      && forall step | step == Construct || step == Copy || step == Drop :: Enabled(now, step) <==> now.owners >= 1
    decreases |steps|
  {
    if steps != [] {
      Owners(Apply(st, steps[0]), steps[1..]);
    }
  }
}
