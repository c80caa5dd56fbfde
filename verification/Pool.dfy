/** Object pools whose objects go back by themselves when their last handle is dropped, in
    every interleaving with the end of the pool. */
module Pool {
  import Collections

  // ----- the queue -----

  /** Objects are numbered in the order they were allocated. */
  class ObjectPool {
    var queue: seq<nat>
    var created: nat
    var deleted: seq<nat>

    constructor ()
      ensures queue == [] && created == 0 && deleted == []
    {
      queue, created, deleted := [], 0, [];
    }

    method Construct() returns (p: nat)
      modifies this
      ensures (queue, created, p) == Taken(old(queue), old(created))
      ensures deleted == old(deleted)
    {
      if queue != [] {
        p, queue := queue[0], queue[1..];
      } else {
        p, created := created, created + 1;
      }
    }

    /** full: the lock-free queue could not take the object. */
    method Destruct(p: nat, full: bool)
      modifies this
      ensures (queue, deleted) == Returned(old(queue), old(deleted), p, full)
      ensures created == old(created)
    {
      if full {
        deleted := deleted + [p];
      } else {
        queue := queue + [p];
      }
    }

    /** The destructor. */
    method Close()
      modifies this
      ensures queue == [] && deleted == old(deleted) + old(queue) && created == old(created)
    {
      while queue != []
        invariant deleted + queue == old(deleted) + old(queue) && created == old(created)
        decreases |queue|
      {
        assert queue == [queue[0]] + queue[1..];
        deleted := deleted + [queue[0]];
        queue := queue[1..];
      }
      assert deleted + [] == deleted;
    }
  }

  function Taken(queue: seq<nat>, created: nat): (seq<nat>, nat, nat)
  {
    if queue != [] then (queue[1..], created, queue[0]) else ([], created + 1, created)
  }

  function Returned(queue: seq<nat>, deleted: seq<nat>, p: nat, full: bool): (seq<nat>, seq<nat>)
  {
    if full then (queue, deleted + [p]) else (queue + [p], deleted)
  }

  // ----- pools, handles and deleters -----

  /** The life of one shared pointer: in use; its deleter about to lock the weak pointer to
      the pool; holding the pool; too late for it; done with the object but still holding
      the pool; over. */
  datatype Handle = InUse(p: nat) | Asking(p: nat) | Locked(p: nat) | Doomed(p: nat) | Pushed | Over

  /** owners: the strong pools that share the queue. */
  datatype State = State(queue: seq<nat>, created: nat, deleted: seq<nat>, owners: nat, handles: seq<Handle>)

  const INITIAL := State([], 0, [], 1, [])

  datatype Step =
    | Construct
    | Copy
    | Drop
    | Release(j: nat)
    | Lock(j: nat)
    | Push(j: nat, full: bool)
    | Unlock(j: nat)
    | Delete(j: nat)
    | Drain

  function Holds(h: Handle): nat
  {
    if h.Locked? || h.Pushed? then 1 else 0
  }

  /** Strong references to the queue. */
  function Refs(st: State): nat
  {
    st.owners + Collections.Total(st.handles, Holds)
  }

  predicate Enabled(st: State, step: Step)
  {
    match step
    case Construct => st.owners > 0
    case Copy => st.owners > 0
    case Drop => st.owners > 0
    case Release(j) => j < |st.handles| && st.handles[j].InUse?
    case Lock(j) => j < |st.handles| && st.handles[j].Asking?
    case Push(j, _) => j < |st.handles| && st.handles[j].Locked?
    case Unlock(j) => j < |st.handles| && st.handles[j].Pushed?
    case Delete(j) => j < |st.handles| && st.handles[j].Doomed?
    case Drain => Refs(st) == 0 && st.queue != []
  }

  function Apply(st: State, step: Step): State
    requires Enabled(st, step)
  {
    match step
    case Construct =>
      var (queue, created, p) := Taken(st.queue, st.created);
      st.(queue := queue, created := created, handles := st.handles + [InUse(p)])
    case Copy => st.(owners := st.owners + 1)
    case Drop => st.(owners := st.owners - 1)
    case Release(j) => st.(handles := st.handles[j := Asking(st.handles[j].p)])
    case Lock(j) =>
      // a weak pointer can be locked while a strong one is left
      var p := st.handles[j].p;
      st.(handles := st.handles[j := if Refs(st) > 0 then Locked(p) else Doomed(p)])
    case Push(j, full) =>
      var (queue, deleted) := Returned(st.queue, st.deleted, st.handles[j].p, full);
      st.(queue := queue, deleted := deleted, handles := st.handles[j := Pushed])
    case Unlock(j) => st.(handles := st.handles[j := Over])
    case Delete(j) => st.(deleted := st.deleted + [st.handles[j].p], handles := st.handles[j := Over])
    case Drain => st.(queue := st.queue[1..], deleted := st.deleted + [st.queue[0]])
  }

  predicate Legal(st: State, steps: seq<Step>)
    decreases |steps|
  {
    steps == [] || (Enabled(st, steps[0]) && Legal(Apply(st, steps[0]), steps[1..]))
  }

  function After(st: State, steps: seq<Step>): State
    requires Legal(st, steps)
    decreases |steps|
  {
    if steps == [] then st else After(Apply(st, steps[0]), steps[1..])
  }

  // ----- one owner each -----

  function Object(h: Handle): multiset<nat>
  {
    match h
    case InUse(p) => multiset{p}
    case Asking(p) => multiset{p}
    case Locked(p) => multiset{p}
    case Doomed(p) => multiset{p}
    case _ => multiset{}
  }

  function Objects(hs: seq<Handle>): multiset<nat>
  {
    if hs == [] then multiset{} else Object(hs[0]) + Objects(hs[1..])
  }

  /** Pooled, with a handle, or deleted. */
  function Places(st: State): multiset<nat>
  {
    multiset(st.queue) + Objects(st.handles) + multiset(st.deleted)
  }

  ghost predicate OnePlace(st: State)
  {
    forall p: nat :: Places(st)[p] == if p < st.created then 1 else 0
  }

  lemma {:induction false} ObjectsUpdate(hs: seq<Handle>, j: nat, h: Handle)
    requires j < |hs|
    ensures Objects(hs[j := h]) + Object(hs[j]) == Objects(hs) + Object(h)
  {
    hide Object;
    if j == 0 {
      assert hs[j := h][1..] == hs[1..];
    } else {
      assert hs[j := h][1..] == hs[1..][j - 1 := h];
      ObjectsUpdate(hs[1..], j - 1, h);
      Collections.AddFront(Object(hs[0]), Objects(hs[1..][j - 1 := h]), Object(hs[j]), Objects(hs[1..]), Object(h));
    }
  }

  lemma {:induction false} ObjectsAppend(hs: seq<Handle>, h: Handle)
    ensures Objects(hs + [h]) == Objects(hs) + Object(h)
    ensures Collections.Total(hs + [h], Holds) == Collections.Total(hs, Holds) + Holds(h)
  {
    if hs == [] {
      assert hs + [h] == [h];
      assert Objects([h]) == Object(h) + Objects([]);
    } else {
      assert (hs + [h])[1..] == hs[1..] + [h];
      ObjectsAppend(hs[1..], h);
    }
  }

  function Fresh(st: State, step: Step): multiset<nat>
  {
    if step.Construct? && st.queue == [] then multiset{st.created} else multiset{}
  }

  /** No step loses an object or owns it twice; only an allocation adds one. */
  lemma Conserved(st: State, step: Step)
    requires Enabled(st, step)
    ensures Places(Apply(st, step)) == Places(st) + Fresh(st, step)
  {
    match step
    case Construct => ConstructConserves(st);
    case Copy =>
    case Drop =>
    case Drain => Collections.Head(st.queue);
    case Release(_) => HandleStepConserves(st, step, step.j);
    case Lock(_) => HandleStepConserves(st, step, step.j);
    case Unlock(_) => HandleStepConserves(st, step, step.j);
    case Push(_, _) => ObjectLeaves(st, step, step.j);
    case Delete(_) => ObjectLeaves(st, step, step.j);
  }

  lemma HandleStepConserves(st: State, step: Step, j: nat)
    requires Enabled(st, step) && (step == Release(j) || step == Lock(j) || step == Unlock(j))
    ensures Places(Apply(st, step)) == Places(st)
  {
    HandleConserves(st, j, Apply(st, step).handles[j]);
    hide Objects;
  }

  lemma ObjectLeaves(st: State, step: Step, j: nat)
    requires Enabled(st, step) && ((step.Push? && step.j == j) || step == Delete(j))
    ensures Places(Apply(st, step)) == Places(st)
  {
    var h := if step.Push? then Pushed else Over;
    ObjectsUpdate(st.handles, j, h);
    assert Object(h) == multiset{} && Object(st.handles[j]) == multiset{st.handles[j].p};
    hide Objects, Object;
    Moved(Objects(st.handles), Objects(st.handles[j := h]), multiset{st.handles[j].p}, multiset(st.queue), multiset(st.deleted));
  }

  lemma Moved(o: multiset<nat>, o': multiset<nat>, x: multiset<nat>, q: multiset<nat>, d: multiset<nat>)
    requires o' + x == o + multiset{}
    ensures (q + x) + o' + d == q + o + d && q + o' + (d + x) == q + o + d
  {
    assert o' + x == o;
    assert (q + x) + o' + d == q + (o' + x) + d && q + o' + (d + x) == q + (o' + x) + d;
  }

  lemma ConstructConserves(st: State)
    requires Enabled(st, Construct)
    ensures Places(Apply(st, Construct)) == Places(st) + Fresh(st, Construct)
  {
    ObjectsAppend(st.handles, InUse(Taken(st.queue, st.created).2));
    if st.queue != [] {
      Collections.Head(st.queue);
    }
    hide Objects;
  }

  lemma HandleConserves(st: State, j: nat, h: Handle)
    requires j < |st.handles| && Object(h) == Object(st.handles[j])
    ensures Objects(st.handles[j := h]) == Objects(st.handles)
  {
    ObjectsUpdate(st.handles, j, h);
    Collections.Same(Objects(st.handles[j := h]), Objects(st.handles), Object(h));
  }

  lemma CreatedStep(st: State, step: Step, p: nat)
    requires Enabled(st, step)
    ensures (if p < st.created then 1 else 0) + Fresh(st, step)[p] == if p < Apply(st, step).created then 1 else 0
  {
  }

  lemma InvariantStep(st: State, step: Step)
    requires OnePlace(st) && Enabled(st, step)
    ensures OnePlace(Apply(st, step))
  {
    var st' := Apply(st, step);
    Conserved(st, step);
    hide Places, Apply, Fresh, Enabled;
    forall p: nat
      ensures Places(st')[p] == if p < st'.created then 1 else 0
    {
      CreatedStep(st, step, p);
      assert Places(st)[p] == if p < st.created then 1 else 0;
    }
  }

  lemma {:induction false} Invariant(st: State, steps: seq<Step>)
    requires OnePlace(st) && Legal(st, steps)
    ensures OnePlace(After(st, steps))
    decreases |steps|
  {
    if steps != [] {
      InvariantStep(st, steps[0]);
      hide OnePlace;
      Invariant(Apply(st, steps[0]), steps[1..]);
    }
  }

  /** In every reachable state each allocated object is pooled, held by one handle, or
      deleted, and never two of these or twice the same. */
  lemma ExactlyOneOwner(steps: seq<Step>, p: nat)
    requires Legal(INITIAL, steps)
    ensures var now := After(INITIAL, steps);
      multiset(now.queue)[p] + Objects(now.handles)[p] + multiset(now.deleted)[p] == if p < now.created then 1 else 0
  {
    assert OnePlace(INITIAL);
    Invariant(INITIAL, steps);
    var now := After(INITIAL, steps);
    assert Places(now)[p] == if p < now.created then 1 else 0;
  }

  lemma {:induction false} HandleHas(hs: seq<Handle>, j: nat, p: nat)
    requires j < |hs|
    ensures Objects(hs)[p] >= Object(hs[j])[p]
  {
    if j > 0 {
      HandleHas(hs[1..], j - 1, p);
    }
  }

  lemma {:induction false} TwoHandles(hs: seq<Handle>, i: nat, j: nat, p: nat)
    requires i < j < |hs|
    ensures Objects(hs)[p] >= Object(hs[i])[p] + Object(hs[j])[p]
  {
    hide Object;
    var rest := hs[1..];
    assert rest[j - 1] == hs[j] && Objects(hs)[p] == Object(hs[0])[p] + Objects(rest)[p];
    if i == 0 {
      HandleHas(rest, j - 1, p);
    } else {
      assert rest[i - 1] == hs[i];
      TwoHandles(rest, i - 1, j - 1, p);
    }
  }

  /** No object is in two hands. */
  lemma NotShared(steps: seq<Step>, i: nat, j: nat)
    requires Legal(INITIAL, steps)
    requires var hs := After(INITIAL, steps).handles; i < j < |hs| && hs[i].InUse? && hs[j].InUse?
    ensures var hs := After(INITIAL, steps).handles; hs[i].p != hs[j].p
  {
    var hs := After(INITIAL, steps).handles;
    ExactlyOneOwner(steps, hs[i].p);
    TwoHandles(hs, i, j, hs[i].p);
    hide Objects, Legal;
  }

  // ----- the end -----

  /** The pool is gone for good once its last strong reference is. */
  lemma GoneForGood(st: State, step: Step)
    requires Enabled(st, step) && Refs(st) == 0
    ensures Refs(Apply(st, step)) == 0 && Apply(st, step).created == st.created
    ensures |Apply(st, step).queue| <= |st.queue|
  {
    NoLocks(st.handles);
    var st' := Apply(st, step);
    if st'.handles != st.handles {
      Collections.TotalUpdate(st.handles, step.j, st'.handles[step.j], Holds);
    }
    hide Collections.Total;
  }

  lemma {:induction false} NoLocks(hs: seq<Handle>)
    requires Collections.Total(hs, Holds) == 0
    ensures forall j | 0 <= j < |hs| :: Holds(hs[j]) == 0
  {
    if hs != [] {
      NoLocks(hs[1..]);
      assert forall j | 0 < j < |hs| :: hs[j] == hs[1..][j - 1];
    }
  }

  lemma {:induction false} AllOver(hs: seq<Handle>)
    requires forall j | 0 <= j < |hs| :: hs[j].Over?
    ensures Collections.Total(hs, Holds) == 0 && Objects(hs) == multiset{}
  {
    if hs != [] {
      AllOver(hs[1..]);
    }
  }

  /** The pools are dropped, every handle is released, and nothing is left to do. */
  ghost predicate Ended(st: State)
  {
    forall step :: !Enabled(st, step)
  }

  /** Then every object has been deleted exactly once, and none is left in the queue. */
  lemma AllDeleted(steps: seq<Step>, p: nat)
    requires Legal(INITIAL, steps) && Ended(After(INITIAL, steps))
    ensures var now := After(INITIAL, steps);
      now.queue == [] && multiset(now.deleted)[p] == if p < now.created then 1 else 0
  {
    var now := After(INITIAL, steps);
    ExactlyOneOwner(steps, p);
    hide Legal, Objects, Collections.Total;
    assert !Enabled(now, Copy);
    forall j | 0 <= j < |now.handles|
      ensures now.handles[j].Over?
    {
      assert !Enabled(now, Release(j)) && !Enabled(now, Lock(j)) && !Enabled(now, Push(j, false));
      assert !Enabled(now, Unlock(j)) && !Enabled(now, Delete(j));
    }
    AllOver(now.handles);
    assert !Enabled(now, Drain);
  }

  function Weight(h: Handle): nat
  {
    match h
    case InUse(_) => 5
    case Asking(_) => 4
    case Locked(_) => 3
    case Doomed(_) => 1
    case Pushed => 1
    case Over => 0
  }

  /** What is left to do when nobody constructs or copies any more. */
  function Measure(st: State): nat
  {
    Collections.Total(st.handles, Weight) + |st.queue| + st.owners
  }

  /** Every other step brings the end closer. */
  lemma Ends(st: State, step: Step)
    requires Enabled(st, step) && !step.Construct? && !step.Copy?
    ensures Measure(Apply(st, step)) < Measure(st)
  {
    var st' := Apply(st, step);
    if !step.Drop? && !step.Drain? {
      Collections.TotalUpdate(st.handles, step.j, st'.handles[step.j], Weight);
    }
    hide Collections.Total;
  }
}
