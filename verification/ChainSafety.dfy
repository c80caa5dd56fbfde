/** What every run of a chain keeps, under any scheduler: each handler is in one place and
    runs once, a barrier lets nothing through early, and every run ends. */
module ChainSafety {
  import Collections
  import opened Chain
  import I = ChainImpl

  // ----- runs -----

  ghost predicate Legal(cfg: Config, st: State, steps: seq<Step>)
    requires WellFormed(cfg) && Shape(cfg, st)
    decreases |steps|
  {
    steps == [] || (Enabled(cfg, st, steps[0]) && Legal(cfg, Apply(cfg, st, steps[0]), steps[1..]))
  }

  function After(cfg: Config, st: State, steps: seq<Step>): (st': State)
    requires WellFormed(cfg) && Shape(cfg, st) && Legal(cfg, st, steps)
    ensures Shape(cfg, st')
    decreases |steps|
  {
    if steps == [] then st else After(cfg, Apply(cfg, st, steps[0]), steps[1..])
  }

  // ----- one place at a time -----

  function Taken(st: State, step: Step): multiset<nat>
  {
    if step.Start? && step.j < |st.queue| then multiset{st.queue[step.j]} else multiset{}
  }

  lemma Four<T>(a: multiset<T>, b: multiset<T>, c: multiset<T>, d: multiset<T>,
                a': multiset<T>, b': multiset<T>, c': multiset<T>, d': multiset<T>, x: multiset<T>)
    requires a' + x == a && b' == b + x && c == c' && d == d'
    ensures a' + b' + c' + d' == a + b + c + d
  {
  }

  lemma ReleaseMoves(st: State, k: nat)
    requires k < |st.links|
    ensures Places(Release(st, k)) == Places(st)
  {
    var (l, hs) := I.Run(st.links[k]);
    LinkUpdate(st.links, k, l);
    FlatAppend(st.runs, [hs]);
    FlatOne(hs);
    hide Flat, Deferred, Locals;
    Four(Flat(Deferred(st.links)), Flat(st.runs), Flat(Locals(st.phases)), multiset(st.queue),
         Flat(Deferred(st.links[k := l])), Flat(st.runs + [hs]), Flat(Locals(st.phases)), multiset(st.queue), multiset(hs));
  }

  lemma CompleteMoves(cfg: Config, st: State, h: nat)
    requires WellFormed(cfg) && Shape(cfg, st) && Enabled(cfg, st, Complete(h))
    ensures Places(Apply(cfg, st, Complete(h))) == Places(st)
  {
    var k := cfg.handlers[h].to;
    var (l, hs) := I.Complete(st.links[k]);
    LinkUpdate(st.links, k, l);
    PhaseUpdate(st.phases, h, Posting(hs));
    hide Flat, Deferred, Locals;
    if hs == [] && l.deferred == st.links[k].deferred {
      Collections.Same(Flat(Deferred(st.links[k := l])), Flat(Deferred(st.links)), multiset(l.deferred));
    }
    Four(Flat(Deferred(st.links)), Flat(Locals(st.phases)), Flat(st.runs), multiset(st.queue),
         Flat(Deferred(st.links[k := l])), Flat(Locals(st.phases[h := Posting(hs)])), Flat(st.runs), multiset(st.queue), multiset(hs));
  }

  lemma Slide<T>(b: multiset<T>, b': multiset<T>, hs: multiset<T>, tl: multiset<T>, x: multiset<T>)
    requires b' + hs == b + tl && hs == x + tl
    ensures b' + x == b
  {
    forall e
      ensures (b' + x)[e] == b[e]
    {
      assert (b' + hs)[e] == (b + tl)[e];
    }
  }

  lemma PostMoves(cfg: Config, st: State, step: Step)
    requires WellFormed(cfg) && Shape(cfg, st) && Enabled(cfg, st, step) && (step.PostNext? || step.RunPost?)
    ensures Places(Apply(cfg, st, step)) == Places(st)
  {
    var hs := if step.PostNext? then st.phases[step.h].todo else st.runs[step.j];
    var x := multiset{hs[0]};
    Collections.Head(hs);
    if step.PostNext? {
      var phases' := st.phases[step.h := Posting(hs[1..])];
      PhaseUpdate(st.phases, step.h, Posting(hs[1..]));
      hide Flat, Deferred, Locals;
      Slide(Flat(Locals(st.phases)), Flat(Locals(phases')), multiset(hs), multiset(hs[1..]), x);
      Four(Flat(Locals(st.phases)), multiset(st.queue), Flat(Deferred(st.links)), Flat(st.runs),
           Flat(Locals(phases')), multiset(st.queue + [hs[0]]), Flat(Deferred(st.links)), Flat(st.runs), x);
    } else {
      var runs' := st.runs[step.j := hs[1..]];
      FlatUpdate(st.runs, step.j, hs[1..]);
      hide Flat, Deferred, Locals;
      Slide(Flat(st.runs), Flat(runs'), multiset(hs), multiset(hs[1..]), x);
      Four(Flat(st.runs), multiset(st.queue), Flat(Deferred(st.links)), Flat(Locals(st.phases)),
           Flat(runs'), multiset(st.queue + [hs[0]]), Flat(Deferred(st.links)), Flat(Locals(st.phases)), x);
    }
  }

  lemma IdlePhases(phases: seq<Phase>, h: nat, p: Phase)
    requires h < |phases| && Todo(phases[h]) == [] == Todo(p)
    ensures Flat(Locals(phases[h := p])) == Flat(Locals(phases))
  {
    PhaseUpdate(phases, h, p);
    hide Flat, Locals;
    Collections.Same(Flat(Locals(phases[h := p])), Flat(Locals(phases)), multiset([]));
  }

  lemma StartMoves(cfg: Config, st: State, j: nat)
    requires WellFormed(cfg) && Shape(cfg, st) && Enabled(cfg, st, Start(j)) && st.phases[st.queue[j]].Idle?
    ensures Places(Apply(cfg, st, Start(j))) + multiset{st.queue[j]} == Places(st)
  {
    IdlePhases(st.phases, st.queue[j], Body);
    QueueWithout(st.queue, j);
    hide Flat, Deferred, Locals, WellFormed, Without;
  }

  lemma PhaseMoves(cfg: Config, st: State, step: Step)
    requires WellFormed(cfg) && Shape(cfg, st) && Enabled(cfg, st, step) && (step.Execute? || step.Finish?)
    ensures Places(Apply(cfg, st, step)) == Places(st)
  {
    IdlePhases(st.phases, step.h, if step.Execute? then Ran else Done);
  }

  /** No step loses or doubles a handler: all but Start keep them, Start takes out one. */
  lemma Conserved(cfg: Config, st: State, step: Step)
    requires WellFormed(cfg) && Shape(cfg, st) && Enabled(cfg, st, step)
    requires step.Start? ==> st.phases[st.queue[step.j]].Idle?
    ensures Places(Apply(cfg, st, step)) + Taken(st, step) == Places(st)
  {
    hide WellFormed;
    match step
    case Start(j) => StartMoves(cfg, st, j);
    case Execute(_) => PhaseMoves(cfg, st, step);
    case Finish(_) => PhaseMoves(cfg, st, step);
    case Complete(h) => CompleteMoves(cfg, st, h);
    case PostNext(_) => PostMoves(cfg, st, step);
    case RunPost(_) => PostMoves(cfg, st, step);
    case RunRoot => ReleaseMoves(st, 0);
    case Destroy(k) => ReleaseMoves(st, k);
    case RunEnd(j) => FlatWithout(st.runs, j); hide Flat, Deferred, Locals;
    case Drop(_) =>
  }

  function Has(st: State, h: nat): nat
  {
    if h < |st.phases| && st.phases[h].Idle? then 1 else 0
  }

  function HasRun(st: State, h: nat): nat
  {
    if h < |st.phases| && !st.phases[h].Idle? && !st.phases[h].Body? then 1 else 0
  }

  /** A handler not yet taken is in one place; one taken is in none; ran lists it once its
      function has returned, once. */
  ghost predicate Once(st: State)
  {
    && (forall h: nat :: Places(st)[h] == Has(st, h))
    && (forall h: nat :: multiset(st.ran)[h] == HasRun(st, h))
  }

  lemma {:induction false} FlatHas(bs: seq<seq<nat>>, k: nat, x: nat)
    requires k < |bs|
    ensures Flat(bs)[x] >= multiset(bs[k])[x]
  {
    if k > 0 {
      FlatHas(bs[1..], k - 1, x);
    }
  }

  lemma QueuedIsIdle(st: State, j: nat)
    requires Once(st) && j < |st.queue|
    ensures st.queue[j] < |st.phases| && st.phases[st.queue[j]].Idle?
  {
    assert st.queue[j] in multiset(st.queue);
    hide Flat, Deferred, Locals;
    assert Has(st, st.queue[j]) >= 1;
  }

  lemma RanStep(cfg: Config, st: State, step: Step, h: nat)
    requires WellFormed(cfg) && Shape(cfg, st) && Enabled(cfg, st, step)
    requires step.Start? ==> st.phases[st.queue[step.j]].Idle?
    requires multiset(st.ran)[h] == HasRun(st, h)
    ensures multiset(Apply(cfg, st, step).ran)[h] == HasRun(Apply(cfg, st, step), h)
  {
    hide WellFormed;
    if !step.Execute? {
      assert Apply(cfg, st, step).ran == st.ran;
    }
  }

  lemma HasStep(cfg: Config, st: State, step: Step, h: nat)
    requires WellFormed(cfg) && Shape(cfg, st) && Enabled(cfg, st, step)
    requires step.Start? ==> st.phases[st.queue[step.j]].Idle?
    ensures Has(Apply(cfg, st, step), h) + Taken(st, step)[h] == Has(st, h)
  {
    hide WellFormed;
  }

  lemma OnceStep(cfg: Config, st: State, step: Step)
    requires WellFormed(cfg) && Shape(cfg, st) && Enabled(cfg, st, step) && Once(st)
    ensures Once(Apply(cfg, st, step))
  {
    if step.Start? {
      QueuedIsIdle(st, step.j);
    }
    Conserved(cfg, st, step);
    hide Places, WellFormed;
    var st' := Apply(cfg, st, step);
    forall h: nat
      ensures Places(st')[h] == Has(st', h) && multiset(st'.ran)[h] == HasRun(st', h)
    {
      RanStep(cfg, st, step, h);
      HasStep(cfg, st, step, h);
      hide Apply, Enabled, Has, HasRun, Taken;
      assert Places(st)[h] == Has(st, h);
      assert Places(st')[h] + Taken(st, step)[h] == Places(st)[h];
    }
  }

  // ----- one link -----

  ghost function Into(cfg: Config, k: nat): set<nat>
  {
    set h: nat | h < |cfg.handlers| && cfg.handlers[h].to == k
  }

  ghost predicate HasCompleted(p: Phase)
  {
    p.Posting? || p.Done?
  }

  /** The handlers wrapped with link k that have called its complete. */
  ghost function Completed(cfg: Config, phases: seq<Phase>, k: nat): set<nat>
    requires |phases| == |cfg.handlers|
  {
    set h: nat | h < |cfg.handlers| && cfg.handlers[h].to == k && HasCompleted(phases[h])
  }

  ghost predicate Met(cfg: Config, st: State, k: nat)
    requires Shape(cfg, st) && k < |st.links|
  {
    |Completed(cfg, st.phases, k)| >= 1 && |Completed(cfg, st.phases, k)| >= cfg.required[k]
  }

  ghost predicate Released(cfg: Config, st: State, k: nat)
    requires Shape(cfg, st) && k < |st.links|
  {
    Met(cfg, st, k) || (k == 0 && st.rootRun) || st.gone[k]
  }

  ghost predicate IntoDone(cfg: Config, st: State, k: nat)
    requires Shape(cfg, st)
  {
    forall h | 0 <= h < |st.phases| && cfg.handlers[h].to == k :: st.phases[h].Done?
  }

  ghost predicate Counted(cfg: Config, st: State, k: nat)
    requires Shape(cfg, st) && k < |st.links|
  {
    var n := |Completed(cfg, st.phases, k)|;
    st.links[k].required == if n >= cfg.required[k] then 0 else cfg.required[k] - n
  }

  /** The countdown counts completions; the list is full until the link is released, and
      empty from then on; a link is only destroyed once nothing wrapped with it is left. */
  ghost predicate LinkOk(cfg: Config, st: State, k: nat)
    requires Shape(cfg, st) && k < |st.links|
  {
    && Counted(cfg, st, k)
    && (Released(cfg, st, k) ==> st.links[k].deferred == [])
    && (!Released(cfg, st, k) ==>
          forall h | 0 <= h < |st.phases| && cfg.handlers[h].from == k :: h in st.links[k].deferred)
    && (st.gone[k] ==> IntoDone(cfg, st, k))
    && Home(cfg, st.links[k].deferred, k)
  }

  ghost predicate Home(cfg: Config, deferred: seq<nat>, k: nat)
  {
    forall i | 0 <= i < |deferred| :: deferred[i] < |cfg.handlers| && cfg.handlers[deferred[i]].from == k
  }

  lemma HasCompletedStep(cfg: Config, st: State, step: Step, h: nat)
    requires WellFormed(cfg) && Shape(cfg, st) && Enabled(cfg, st, step) && h < |st.phases|
    requires step.Start? ==> st.phases[st.queue[step.j]].Idle?
    ensures HasCompleted(Apply(cfg, st, step).phases[h]) == (HasCompleted(st.phases[h]) || step == Complete(h))
  {
    hide WellFormed;
  }

  lemma CompletedStep(cfg: Config, st: State, step: Step, k: nat)
    requires WellFormed(cfg) && Shape(cfg, st) && Enabled(cfg, st, step) && k < |st.links|
    requires step.Start? ==> st.phases[st.queue[step.j]].Idle?
    ensures |Completed(cfg, Apply(cfg, st, step).phases, k)|
         == |Completed(cfg, st.phases, k)| + if step.Complete? && cfg.handlers[step.h].to == k then 1 else 0
  {
    hide WellFormed;
    var st' := Apply(cfg, st, step);
    var was, now := Completed(cfg, st.phases, k), Completed(cfg, st'.phases, k);
    if step.Complete? && cfg.handlers[step.h].to == k {
      forall h: nat | h < |cfg.handlers| && cfg.handlers[h].to == k
        ensures h in now <==> h in was || h == step.h
      {
        HasCompletedStep(cfg, st, step, h);
      }
      assert now == was + {step.h};
    } else {
      forall h: nat | h < |cfg.handlers| && cfg.handlers[h].to == k
        ensures h in now <==> h in was
      {
        HasCompletedStep(cfg, st, step, h);
      }
      assert now == was;
    }
  }

  lemma IntoDoneStep(cfg: Config, st: State, step: Step, k: nat)
    requires WellFormed(cfg) && Shape(cfg, st) && Enabled(cfg, st, step) && k < |st.links|
    requires step.Start? ==> st.phases[st.queue[step.j]].Idle?
    requires IntoDone(cfg, st, k)
    ensures IntoDone(cfg, Apply(cfg, st, step), k)
  {
    hide WellFormed;
  }

  lemma LinkStep(cfg: Config, st: State, step: Step, k: nat)
    requires WellFormed(cfg) && Shape(cfg, st) && Enabled(cfg, st, step) && k < |st.links|
    requires step.Start? ==> st.phases[st.queue[step.j]].Idle?
    requires LinkOk(cfg, st, k)
    ensures LinkOk(cfg, Apply(cfg, st, step), k)
  {
    CompletedStep(cfg, st, step, k);
    if IntoDone(cfg, st, k) {
      IntoDoneStep(cfg, st, step, k);
    }
    assert step == Destroy(k) ==> IntoDone(cfg, st, k);
    hide WellFormed, Completed, IntoDone;
  }

  ghost predicate LinksOk(cfg: Config, st: State)
    requires Shape(cfg, st)
  {
    forall k | 0 <= k < |st.links| :: LinkOk(cfg, st, k)
  }

  // ----- the order of a run -----

  /** The handlers wrapped with link k that are among seen. */
  ghost function Among(cfg: Config, seen: seq<nat>, k: nat): set<nat>
  {
    set h: nat | h < |cfg.handlers| && h in seen && cfg.handlers[h].to == k
  }

  function Least(a: nat, b: nat): nat
  {
    if a < b then a else b
  }

  /** How many of the handlers before link k its own handlers wait for. */
  ghost function Barrier(cfg: Config, k: nat): nat
    requires k < |cfg.required|
  {
    Least(if cfg.required[k] == 0 then 1 else cfg.required[k], |Into(cfg, k)|)
  }

  ghost predicate After1(cfg: Config, seen: seq<nat>, h: nat)
    requires WellFormed(cfg) && h < |cfg.handlers|
  {
    var k := cfg.handlers[h].from;
    k > 0 ==> |Among(cfg, seen, k)| >= Barrier(cfg, k)
  }

  /** Whenever a handler ran, enough handlers had run before it. */
  ghost predicate Ordered(cfg: Config, ran: seq<nat>)
    requires WellFormed(cfg)
  {
    forall p | 0 <= p < |ran| && ran[p] < |cfg.handlers| :: After1(cfg, ran[..p], ran[p])
  }

  lemma RanHas(st: State, h: nat)
    requires Once(st)
    ensures h in st.ran <==> HasRun(st, h) == 1
  {
    hide Places;
    assert multiset(st.ran)[h] == HasRun(st, h);
    assert h in st.ran <==> h in multiset(st.ran);
  }

  /** A handler that has left the deferred list of its link came after the barrier. */
  lemma PastBarrier(cfg: Config, st: State, h: nat)
    requires WellFormed(cfg) && Shape(cfg, st) && Once(st) && LinksOk(cfg, st)
    requires h < |st.phases| && h !in st.links[cfg.handlers[h].from].deferred
    ensures After1(cfg, st.ran, h)
  {
    var k := cfg.handlers[h].from;
    assert LinkOk(cfg, st, k);
    forall g: nat | g < |cfg.handlers|
      ensures g in st.ran <==> HasRun(st, g) == 1
    {
      RanHas(st, g);
    }
    hide Once, Places, WellFormed;
    if st.gone[k] {
      assert Into(cfg, k) == Among(cfg, st.ran, k);
    } else if k > 0 {
      assert Completed(cfg, st.phases, k) <= Among(cfg, st.ran, k);
      Collections.Subset(Completed(cfg, st.phases, k), Among(cfg, st.ran, k));
    }
  }

  lemma {:induction false} DeferredPlace(links: seq<I.Link>, k: nat, h: nat)
    requires k < |links| && h in links[k].deferred
    ensures Flat(Deferred(links))[h] > 0
  {
    assert Deferred(links)[k] == links[k].deferred;
    FlatHas(Deferred(links), k, h);
  }

  lemma NotIdle(cfg: Config, st: State, h: nat)
    requires WellFormed(cfg) && Shape(cfg, st) && Once(st)
    requires h < |st.phases| && !st.phases[h].Idle?
    ensures h !in st.links[cfg.handlers[h].from].deferred
  {
    assert Places(st)[h] == Has(st, h);
    if h in st.links[cfg.handlers[h].from].deferred {
      DeferredPlace(st.links, cfg.handlers[h].from, h);
    }
  }

  lemma OrderedStep(cfg: Config, st: State, step: Step)
    requires WellFormed(cfg) && Shape(cfg, st) && Once(st) && LinksOk(cfg, st) && Enabled(cfg, st, step)
    requires Ordered(cfg, st.ran)
    ensures Ordered(cfg, Apply(cfg, st, step).ran)
  {
    if step.Execute? {
      NotIdle(cfg, st, step.h);
      PastBarrier(cfg, st, step.h);
      hide WellFormed, Once, LinksOk, After1;
      var ran := Apply(cfg, st, step).ran;
      forall p | 0 <= p < |ran| && ran[p] < |cfg.handlers|
        ensures After1(cfg, ran[..p], ran[p])
      {
        if p < |st.ran| {
          assert ran[..p] == st.ran[..p];
        } else {
          assert ran[..p] == st.ran;
        }
      }
    }
  }

  // ----- every run -----

  ghost predicate Inv(cfg: Config, st: State)
  {
    WellFormed(cfg) && Shape(cfg, st) && Once(st) && LinksOk(cfg, st) && Ordered(cfg, st.ran)
  }

  lemma InvStep(cfg: Config, st: State, step: Step)
    requires Inv(cfg, st) && Enabled(cfg, st, step)
    ensures Inv(cfg, Apply(cfg, st, step))
  {
    if step.Start? {
      QueuedIsIdle(st, step.j);
    }
    var st' := Apply(cfg, st, step);
    OnceStep(cfg, st, step);
    OrderedStep(cfg, st, step);
    hide WellFormed, Once, LinkOk, Ordered;
    forall k | 0 <= k < |st'.links|
      ensures LinkOk(cfg, st', k)
    {
      LinkStep(cfg, st, step, k);
    }
  }

  lemma {:induction false} FlatEmpty(bs: seq<seq<nat>>)
    requires forall k | 0 <= k < |bs| :: bs[k] == []
    ensures Flat(bs) == multiset{}
  {
    if bs != [] {
      FlatEmpty(bs[1..]);
    }
  }

  /** A handler posted once, into link k of those from i on, is there once. */
  lemma {:induction false} FlatPosted(cfg: Config, st: State, i: nat, h: nat)
    requires WellFormed(cfg) && Initial(cfg, st) && i <= |st.links|
    ensures Flat(Deferred(st.links)[i..])[h] == if h < |cfg.handlers| && i <= cfg.handlers[h].from then 1 else 0
    decreases |st.links| - i
  {
    var bs := Deferred(st.links);
    if i < |st.links| {
      FlatPosted(cfg, st, i + 1, h);
      assert bs[i..][1..] == bs[i + 1..] && bs[i..][0] == st.links[i].deferred;
      assert Posted(cfg, st, i, h);
    }
  }

  lemma InitialInv(cfg: Config, st: State)
    requires Initial(cfg, st)
    ensures Inv(cfg, st)
  {
    FlatEmpty(Locals(st.phases));
    forall h: nat
      ensures Places(st)[h] == Has(st, h) && multiset(st.ran)[h] == HasRun(st, h)
    {
      FlatPosted(cfg, st, 0, h);
      assert Deferred(st.links)[0..] == Deferred(st.links);
      hide Flat, Deferred, Locals, Posted;
    }
    forall k | 0 <= k < |st.links|
      ensures LinkOk(cfg, st, k)
    {
      hide Places, Flat;
      assert Completed(cfg, st.phases, k) == {};
      forall h | 0 <= h < |st.phases| && cfg.handlers[h].from == k
        ensures h in st.links[k].deferred
      {
        assert Posted(cfg, st, k, h);
      }
      forall i | 0 <= i < |st.links[k].deferred|
        ensures var h := st.links[k].deferred[i]; h < |cfg.handlers| && cfg.handlers[h].from == k
      {
        assert Posted(cfg, st, k, st.links[k].deferred[i]);
        assert st.links[k].deferred[i] in multiset(st.links[k].deferred);
      }
    }
  }

  lemma {:induction false} InvAlong(cfg: Config, st: State, steps: seq<Step>)
    requires Inv(cfg, st) && Legal(cfg, st, steps)
    ensures Inv(cfg, After(cfg, st, steps))
    decreases |steps|
  {
    if steps != [] {
      InvStep(cfg, st, steps[0]);
      InvAlong(cfg, Apply(cfg, st, steps[0]), steps[1..]);
    }
  }

  /** Conservation: in every reachable state each handler is either in exactly one place,
      once, and has not run, or is in none; and it has run at most once. */
  lemma ExactlyOnePlace(cfg: Config, st: State, steps: seq<Step>, h: nat)
    requires Initial(cfg, st) && Legal(cfg, st, steps) && h < |cfg.handlers|
    ensures var now := After(cfg, st, steps);
      && Places(now)[h] == (if now.phases[h].Idle? then 1 else 0)
      && multiset(now.ran)[h] == (if now.phases[h].Idle? || now.phases[h].Body? then 0 else 1)
  {
    InitialInv(cfg, st);
    InvAlong(cfg, st, steps);
    hide Places;
    assert Places(After(cfg, st, steps))[h] == Has(After(cfg, st, steps), h);
  }

  /** Barrier: over every run, a handler of link k > 0 has left the deferred list only after
      the barrier of link k, and ran only after it. */
  lemma BarrierHolds(cfg: Config, st: State, steps: seq<Step>)
    requires Initial(cfg, st) && Legal(cfg, st, steps)
    ensures var now := After(cfg, st, steps);
      && Ordered(cfg, now.ran)
      && forall h | 0 <= h < |cfg.handlers| && h !in now.links[cfg.handlers[h].from].deferred :: After1(cfg, now.ran, h)
  {
    InitialInv(cfg, st);
    InvAlong(cfg, st, steps);
    var now := After(cfg, st, steps);
    hide Once, LinksOk, After1, Legal, Initial;
    forall h | 0 <= h < |cfg.handlers| && h !in now.links[cfg.handlers[h].from].deferred
      ensures After1(cfg, now.ran, h)
    {
      PastBarrier(cfg, now, h);
    }
  }

  // ----- progress -----

  /** Nothing queued, nobody posting, nobody inside a handler. */
  ghost predicate Drained(st: State)
  {
    && st.queue == [] && st.runs == []
    && forall h | 0 <= h < |st.phases| :: st.phases[h].Idle? || st.phases[h].Done?
  }

  ghost predicate AllDone(st: State)
  {
    forall h | 0 <= h < |st.phases| :: st.phases[h].Done?
  }

  lemma {:induction false} FlatNot(bs: seq<seq<nat>>, h: nat)
    requires forall k | 0 <= k < |bs| :: h !in bs[k]
    ensures h !in Flat(bs)
  {
    if bs != [] {
      FlatNot(bs[1..], h);
    }
  }

  lemma Settled(cfg: Config, st: State, h: nat)
    requires Inv(cfg, st) && Drained(st) && h < |st.phases|
    requires Released(cfg, st, cfg.handlers[h].from)
    ensures st.phases[h].Done?
  {
    FlatEmpty(Locals(st.phases));
    FlatEmpty(st.runs);
    forall k | 0 <= k < |st.links|
      ensures h !in Deferred(st.links)[k]
    {
      assert LinkOk(cfg, st, k);
    }
    FlatNot(Deferred(st.links), h);
    hide Flat, Deferred, Locals, WellFormed, LinksOk, Ordered;
    assert Places(st)[h] == Has(st, h);
  }

  /** Every link with handlers of its own has enough wrapped handlers before it. */
  ghost predicate Feasible(cfg: Config)
    requires WellFormed(cfg)
  {
    forall h | 0 <= h < |cfg.handlers| && cfg.handlers[h].from > 0 :: Reachable(cfg, cfg.handlers[h].from)
  }

  ghost predicate Reachable(cfg: Config, k: nat)
    requires k < |cfg.required|
  {
    1 <= |Into(cfg, k)| && cfg.required[k] <= |Into(cfg, k)|
  }

  lemma {:induction false} DoneBefore(cfg: Config, st: State, n: nat)
    requires Inv(cfg, st) && Drained(st) && st.rootRun && Feasible(cfg)
    ensures forall h | 0 <= h < |st.phases| && cfg.handlers[h].from < n :: st.phases[h].Done?
  {
    if n > 0 {
      DoneBefore(cfg, st, n - 1);
      forall h | 0 <= h < |st.phases| && cfg.handlers[h].from == n - 1
        ensures st.phases[h].Done?
      {
        if n - 1 > 0 {
          assert Completed(cfg, st.phases, n - 1) == Into(cfg, n - 1);
        }
        Settled(cfg, st, h);
      }
    }
  }

  /** Once the root has run, the executor runs dry with everything executed exactly when
      every link's requirement can be met by the handlers before it; no destructor needed. */
  lemma Progress(cfg: Config, st: State, steps: seq<Step>)
    requires Initial(cfg, st) && Legal(cfg, st, steps)
    requires Drained(After(cfg, st, steps)) && After(cfg, st, steps).rootRun
    ensures Feasible(cfg) ==> AllDone(After(cfg, st, steps))
    ensures AllDone(After(cfg, st, steps)) && (forall k | 0 <= k < |cfg.required| :: !After(cfg, st, steps).gone[k]) ==> Feasible(cfg)
  {
    InitialInv(cfg, st);
    InvAlong(cfg, st, steps);
    var now := After(cfg, st, steps);
    if Feasible(cfg) {
      DoneBefore(cfg, now, |cfg.required|);
    }
    if AllDone(now) && forall k | 0 <= k < |cfg.required| :: !now.gone[k] {
      forall h | 0 <= h < |cfg.handlers| && cfg.handlers[h].from > 0
        ensures Reachable(cfg, cfg.handlers[h].from)
      {
        var k := cfg.handlers[h].from;
        NotIdle(cfg, now, h);
        assert LinkOk(cfg, now, k);
        Collections.Subset(Completed(cfg, now.phases, k), Into(cfg, k));
      }
    }
  }

  ghost predicate Stuck(cfg: Config, st: State)
    requires WellFormed(cfg) && Shape(cfg, st)
  {
    forall step :: !Enabled(cfg, st, step)
  }

  lemma StuckIsDrained(cfg: Config, st: State)
    requires Inv(cfg, st) && Stuck(cfg, st)
    ensures Drained(st) && forall k | 0 <= k < |st.handles| :: !st.handles[k]
  {
    if st.queue != [] {
      QueuedIsIdle(st, 0);
    }
    assert !Enabled(cfg, st, Start(0));
    assert !Enabled(cfg, st, RunPost(0)) && !Enabled(cfg, st, RunEnd(0));
    forall h | 0 <= h < |st.phases|
      ensures st.phases[h].Idle? || st.phases[h].Done?
    {
      assert !Enabled(cfg, st, Execute(h)) && !Enabled(cfg, st, Complete(h));
      assert !Enabled(cfg, st, PostNext(h)) && !Enabled(cfg, st, Finish(h));
    }
    forall k | 0 <= k < |st.handles|
      ensures !st.handles[k]
    {
      assert !Enabled(cfg, st, Drop(k));
    }
  }

  lemma {:induction false} GoneBefore(cfg: Config, st: State, n: nat)
    requires Inv(cfg, st) && Stuck(cfg, st) && n <= |st.links|
    ensures forall k | 0 <= k < n :: st.gone[k]
    ensures forall h | 0 <= h < |st.phases| && cfg.handlers[h].from < n :: st.phases[h].Done?
  {
    if n > 0 {
      GoneBefore(cfg, st, n - 1);
      StuckIsDrained(cfg, st);
      assert !Enabled(cfg, st, Destroy(n - 1));
      forall h | 0 <= h < |st.phases| && cfg.handlers[h].from == n - 1
        ensures st.phases[h].Done?
      {
        Settled(cfg, st, h);
      }
    }
  }

  /** Whatever is required, and whether or not the root was ever run: when no step is left,
      the destructors have seen to it that every handler ran, exactly once. */
  lemma EverythingRan(cfg: Config, st: State, steps: seq<Step>)
    requires Initial(cfg, st) && Legal(cfg, st, steps) && Stuck(cfg, After(cfg, st, steps))
    ensures var now := After(cfg, st, steps);
      && AllDone(now)
      && (forall k | 0 <= k < |now.gone| :: now.gone[k])
      && forall h: nat :: multiset(now.ran)[h] == if h < |cfg.handlers| then 1 else 0
  {
    InitialInv(cfg, st);
    InvAlong(cfg, st, steps);
    var now := After(cfg, st, steps);
    GoneBefore(cfg, now, |now.links|);
    forall h: nat
      ensures multiset(now.ran)[h] == if h < |cfg.handlers| then 1 else 0
    {
      assert multiset(now.ran)[h] == HasRun(now, h);
    }
  }

  // ----- termination -----

  function Weight(p: Phase): nat
  {
    match p
    case Idle => 0
    case Body => 3
    case Ran => 2
    case Posting(_) => 1
    case Done => 0
  }

  function Yes(flags: seq<bool>): nat
  {
    if flags == [] then 0 else (if flags[0] then 1 else 0) + Yes(flags[1..])
  }

  function No(flags: seq<bool>): nat
  {
    if flags == [] then 0 else (if flags[0] then 0 else 1) + No(flags[1..])
  }

  function Work(st: State): int
  {
    Collections.Total(st.phases, Weight) + |st.runs| + 2 * st.calls + Yes(st.handles) + 2 * No(st.gone) - |st.queue|
  }

  /** A handler weighs 5 until it is in the executor, 4 there, then what its phase weighs. */
  function Measure(st: State): nat
  {
    5 * |Places(st)| + Work(st)
  }

  lemma {:induction false} FlagUpdate(flags: seq<bool>, k: nat, b: bool)
    requires k < |flags| && flags[k] == !b
    ensures b ==> Yes(flags[k := b]) == Yes(flags) + 1 && No(flags[k := b]) + 1 == No(flags)
    ensures !b ==> Yes(flags[k := b]) + 1 == Yes(flags) && No(flags[k := b]) == No(flags) + 1
  {
    if k == 0 {
      assert flags[k := b][1..] == flags[1..];
    } else {
      assert flags[k := b][1..] == flags[1..][k - 1 := b];
      FlagUpdate(flags[1..], k - 1, b);
    }
  }

  lemma PhaseWork(cfg: Config, st: State, step: Step, h: nat)
    requires WellFormed(cfg) && Shape(cfg, st) && Enabled(cfg, st, step)
    requires step == Execute(h) || step == Complete(h) || step == PostNext(h) || step == Finish(h)
    ensures Work(Apply(cfg, st, step)) < Work(st)
  {
    Collections.TotalUpdate(st.phases, h, Apply(cfg, st, step).phases[h], Weight);
    hide WellFormed, Collections.Total, Yes, No;
  }

  lemma StartWork(cfg: Config, st: State, j: nat)
    requires WellFormed(cfg) && Shape(cfg, st) && Enabled(cfg, st, Start(j)) && st.phases[st.queue[j]].Idle?
    ensures Work(Apply(cfg, st, Start(j))) < Work(st) + 5
  {
    Collections.TotalUpdate(st.phases, st.queue[j], Body, Weight);
    hide WellFormed, Collections.Total, Yes, No;
  }

  lemma OtherWork(cfg: Config, st: State, step: Step)
    requires WellFormed(cfg) && Shape(cfg, st) && Enabled(cfg, st, step)
    requires step.RunRoot? || step.RunPost? || step.RunEnd? || step.Drop? || step.Destroy?
    ensures Work(Apply(cfg, st, step)) < Work(st)
  {
    if step.Drop? {
      FlagUpdate(st.handles, step.link, false);
    } else if step.Destroy? {
      FlagUpdate(st.gone, step.link, true);
    }
    hide WellFormed, Collections.Total, Yes, No;
  }

  /** Every step, whoever takes it, brings the end closer. */
  lemma MeasureStep(cfg: Config, st: State, step: Step)
    requires Inv(cfg, st) && Enabled(cfg, st, step)
    ensures Measure(Apply(cfg, st, step)) < Measure(st)
  {
    if step.Start? {
      QueuedIsIdle(st, step.j);
    }
    Conserved(cfg, st, step);
    hide Places, WellFormed, Once, LinksOk, Ordered, Work;
    var st' := Apply(cfg, st, step);
    assert |Places(st') + Taken(st, step)| == |Places(st)|;
    if step.Start? {
      StartWork(cfg, st, step.j);
    } else if step.Execute? || step.Complete? || step.PostNext? || step.Finish? {
      PhaseWork(cfg, st, step, step.h);
    } else {
      OtherWork(cfg, st, step);
    }
  }

  lemma {:induction false} MeasureAlong(cfg: Config, st: State, steps: seq<Step>)
    requires Inv(cfg, st) && Legal(cfg, st, steps)
    ensures |steps| + Measure(After(cfg, st, steps)) <= Measure(st)
    decreases |steps|
  {
    if steps != [] {
      InvStep(cfg, st, steps[0]);
      MeasureStep(cfg, st, steps[0]);
      MeasureAlong(cfg, Apply(cfg, st, steps[0]), steps[1..]);
    }
  }

  function UpTo(n: nat): (s: seq<nat>)
    ensures |s| == n && forall i | 0 <= i < n :: s[i] == i
  {
    seq(n, i => i)
  }

  lemma {:induction false} UpToOnce(n: nat, h: nat)
    ensures multiset(UpTo(n))[h] == if h < n then 1 else 0
  {
    if n > 0 {
      assert UpTo(n) == UpTo(n - 1) + [n - 1];
      UpToOnce(n - 1, h);
    }
  }

  lemma OnceEach(m: multiset<nat>, n: nat)
    requires forall h: nat :: m[h] == if h < n then 1 else 0
    ensures m == multiset(UpTo(n)) && |m| == n
  {
    forall h: nat
      ensures m[h] == multiset(UpTo(n))[h]
    {
      UpToOnce(n, h);
    }
    assert m == multiset(UpTo(n));
  }

  lemma {:induction false} FlagBounds(flags: seq<bool>)
    ensures Yes(flags) + No(flags) == |flags|
  {
    if flags != [] {
      FlagBounds(flags[1..]);
    }
  }

  /** Every scheduler finishes: five steps a handler, three a link, two a call of run. */
  lemma EveryRunEnds(cfg: Config, st: State, steps: seq<Step>)
    requires Initial(cfg, st) && Legal(cfg, st, steps)
    ensures |steps| <= 5 * |cfg.handlers| + 3 * |cfg.required| + 2 * st.calls
  {
    InitialInv(cfg, st);
    MeasureAlong(cfg, st, steps);
    Collections.TotalZero(st.phases, Weight);
    FlagBounds(st.handles);
    FlagBounds(st.gone);
    hide Places, Legal, LinksOk, Ordered;
    forall h: nat
      ensures Places(st)[h] == if h < |cfg.handlers| then 1 else 0
    {
      assert Places(st)[h] == Has(st, h);
    }
    OnceEach(Places(st), |cfg.handlers|);
  }

  // ----- then and all -----

  lemma SameSize<T>(a: set<T>, b: set<T>)
    requires a <= b && |b| <= |a|
    ensures a == b
  {
    if a != {} {
      var x :| x in a;
      SameSize(a - {x}, b - {x});
    } else {
      assert b == {};
    }
  }

  /** all: when as many are required as were wrapped, every one of them ran before. */
  lemma AllIsFullBarrier(cfg: Config, st: State, steps: seq<Step>, p: nat, g: nat)
    requires Initial(cfg, st) && Legal(cfg, st, steps) && p < |After(cfg, st, steps).ran|
    requires var h := After(cfg, st, steps).ran[p]; h < |cfg.handlers| ==>
      var k := cfg.handlers[h].from; k > 0 && g in Into(cfg, k) && cfg.required[k] == |Into(cfg, k)|
    ensures g in After(cfg, st, steps).ran[..p]
  {
    BarrierHolds(cfg, st, steps);
    var ran := After(cfg, st, steps).ran;
    RanExist(cfg, st, steps, p);
    var k := cfg.handlers[ran[p]].from;
    assert After1(cfg, ran[..p], ran[p]);
    SameSize(Among(cfg, ran[..p], k), Into(cfg, k));
  }

  lemma RanExist(cfg: Config, st: State, steps: seq<Step>, p: nat)
    requires Initial(cfg, st) && Legal(cfg, st, steps) && p < |After(cfg, st, steps).ran|
    ensures After(cfg, st, steps).ran[p] < |cfg.handlers|
    ensures After(cfg, st, steps).ran[p] !in After(cfg, st, steps).ran[..p]
  {
    InitialInv(cfg, st);
    InvAlong(cfg, st, steps);
    var now := After(cfg, st, steps);
    assert multiset(now.ran)[now.ran[p]] == HasRun(now, now.ran[p]);
    hide Legal, Initial, Inv, Places;
    OnceMeansNew(now.ran, p);
  }

  lemma OnceMeansNew(s: seq<nat>, p: nat)
    requires p < |s| && multiset(s)[s[p]] <= 1
    ensures s[p] !in s[..p]
  {
    assert s == s[..p] + [s[p]] + s[p + 1..];
    assert multiset(s) == multiset(s[..p]) + multiset{s[p]} + multiset(s[p + 1..]);
    assert multiset(s[..p])[s[p]] == 0;
  }

  /** chain(...).then(...)....then(...): handler i leads from link i to link i + 1. */
  ghost predicate ThenChain(cfg: Config)
  {
    && |cfg.required| == |cfg.handlers| + 1
    && (forall i | 0 <= i < |cfg.handlers| :: cfg.handlers[i] == Handler(i, i + 1))
    && forall k | 0 < k < |cfg.required| :: cfg.required[k] == 1
  }

  lemma ThenKeepsThenChain(cfg: Config, st: State)
    requires ThenChain(cfg) && Shape(cfg, st)
    ensures ThenChain(AddLink(cfg, st, Add(|cfg.handlers|, 1, 1)).0)
    ensures |AddLink(cfg, st, Add(|cfg.handlers|, 1, 1)).0.handlers| == |cfg.handlers| + 1
  {
    var parent, next := |cfg.handlers|, |cfg.required|;
    var cfg1 := cfg.(required := cfg.required + [1]);
    var cfg2 := cfg1.(handlers := cfg1.handlers + [Handler(parent, next)]);
    var st1 := st.(links := st.links + [I.Link(1, [])], handles := st.handles + [true], gone := st.gone + [false]);
    var st2 := st1.(links := st1.links[parent := I.Post(st1.links[parent], parent)], phases := st1.phases + [Idle]);
    assert PostAll(cfg1, st1, parent, next, 1) == PostAll(cfg2, st2, parent, next, 0);
  }

  /** A chain of then of any length executes strictly in order. */
  lemma {:induction false} ThenInOrder(cfg: Config, st: State, steps: seq<Step>, p: nat)
    requires Initial(cfg, st) && Legal(cfg, st, steps) && ThenChain(cfg) && p < |After(cfg, st, steps).ran|
    ensures After(cfg, st, steps).ran[p] == p
    decreases p
  {
    var ran := After(cfg, st, steps).ran;
    forall q: nat | q < p
      ensures ran[q] == q
    {
      ThenInOrder(cfg, st, steps, q);
    }
    RanExist(cfg, st, steps, p);
    if ran[p] > 0 {
      assert Into(cfg, ran[p]) == {ran[p] - 1};
      AllIsFullBarrier(cfg, st, steps, p, ran[p] - 1);
    }
    NextInOrder(ran, p);
  }

  lemma NextInOrder(ran: seq<nat>, p: nat)
    requires p < |ran| && ran[p] !in ran[..p]
    requires ran[p] > 0 ==> ran[p] - 1 in ran[..p]
    requires forall q: nat | q < p :: ran[q] == q
    ensures ran[p] == p
  {
    forall q: nat | q < p
      ensures q in ran[..p]
    {
      assert ran[..p][q] == q;
    }
    assert forall x | x in ran[..p] :: x < p;
  }

  /** chain(...), followed by n times then. */
  function Thens(n: nat, calls: nat): (r: (Config, State))
    ensures Initial(r.0, r.1) && ThenChain(r.0) && |r.0.handlers| == n
  {
    if n == 0 then
      NewIsInitial(calls);
      New(calls)
    else
      var (cfg, st) := Thens(n - 1, calls);
      AddLinkInitial(cfg, st, Add(n - 1, 1, 1));
      ThenKeepsThenChain(cfg, st);
      AddLink(cfg, st, Add(n - 1, 1, 1))
  }

  /** However many handlers a chain of then has, under any scheduler it executes them in
      order, and when no step is left it has executed each one. */
  lemma ThensRunInOrder(n: nat, calls: nat, steps: seq<Step>)
    requires Legal(Thens(n, calls).0, Thens(n, calls).1, steps)
    ensures var (cfg, st) := Thens(n, calls);
      var now := After(cfg, st, steps);
      && |now.ran| <= n && (forall p | 0 <= p < |now.ran| :: now.ran[p] == p)
      && (Stuck(cfg, now) ==> |now.ran| == n)
  {
    var (cfg, st) := Thens(n, calls);
    var now := After(cfg, st, steps);
    hide Thens, Initial, Legal, Stuck, ThenChain;
    forall p: nat | p < |now.ran|
      ensures now.ran[p] == p && now.ran[p] < n
    {
      ThenInOrder(cfg, st, steps, p);
      RanExist(cfg, st, steps, p);
    }
    if now.ran != [] {
      assert now.ran[|now.ran| - 1] < n;
    }
    if Stuck(cfg, now) && n > 0 {
      EverythingRan(cfg, st, steps);
      assert multiset(now.ran)[n - 1] == 1;
      assert n - 1 in now.ran;
    }
  }
}
