/** What building, releasing and holding mean for a chain. */
module ChainLaws {
  import Collections
  import opened Chain
  import opened ChainSafety
  import I = ChainImpl

  // ----- building -----

  function Handlers(parent: nat, next: nat, count: nat): (hs: seq<Handler>)
    ensures |hs| == count && forall i | 0 <= i < count :: hs[i] == Handler(parent, next)
  {
    seq(count, _ => Handler(parent, next))
  }

  /** The numbers from n on. */
  function From(n: nat, count: nat): (s: seq<nat>)
    ensures |s| == count && forall i | 0 <= i < count :: s[i] == n + i
  {
    seq(count, i => n + i)
  }

  lemma {:induction false} PostAllShape(cfg: Config, st: State, parent: nat, next: nat, count: nat)
    requires Shape(cfg, st) && parent < |st.links|
    ensures var (cfg', st') := PostAll(cfg, st, parent, next, count);
      && cfg' == cfg.(handlers := cfg.handlers + Handlers(parent, next, count))
      && st'.links == st.links[parent := I.Link(st.links[parent].required, st.links[parent].deferred + From(|cfg.handlers|, count))]
      && |st'.phases| == |st.phases| + count
    decreases count
  {
    if count == 0 {
      assert cfg.handlers + [] == cfg.handlers && st.links[parent].deferred + [] == st.links[parent].deferred;
    } else {
      var h := |cfg.handlers|;
      var cfg1 := cfg.(handlers := cfg.handlers + [Handler(parent, next)]);
      var st1 := st.(links := st.links[parent := I.Post(st.links[parent], h)], phases := st.phases + [Idle]);
      PostAllShape(cfg1, st1, parent, next, count - 1);
      assert cfg.handlers + Handlers(parent, next, count)
          == (cfg.handlers + [Handler(parent, next)]) + Handlers(parent, next, count - 1);
      var d := st.links[parent].deferred;
      assert d + From(h, count) == (d + [h]) + From(h + 1, count - 1);
    }
  }

  /** any, all and then hang one link with its requirement behind the parent: count handlers
      wrapped with it are deferred in the parent, behind those already there, in order. */
  lemma AddLinkShape(cfg: Config, st: State, a: Add)
    requires CanAdd(cfg, st, a)
    ensures var (cfg', st') := AddLink(cfg, st, a);
      var n := |cfg.required|;
      && cfg'.required == cfg.required + [a.required]
      && cfg'.handlers == cfg.handlers + Handlers(a.parent, n, a.count)
      && |st'.links| == n + 1 && st'.links[n] == I.Link(a.required, [])
      && st'.links[a.parent] == I.Link(st.links[a.parent].required, st.links[a.parent].deferred + From(|cfg.handlers|, a.count))
      && forall k | 0 <= k < n && k != a.parent :: st'.links[k] == st.links[k]
  {
    var cfg1 := cfg.(required := cfg.required + [a.required]);
    var st1 := st.(links := st.links + [I.Link(a.required, [])], handles := st.handles + [true], gone := st.gone + [false]);
    PostAllShape(cfg1, st1, a.parent, |cfg.required|, a.count);
  }

  // ----- releasing -----

  /** A completion counts down; the one that makes it zero, and any later one, takes the
      whole list; no other takes anything. */
  lemma CompleteReleases(cfg: Config, st: State, h: nat)
    requires WellFormed(cfg) && Shape(cfg, st) && Enabled(cfg, st, Complete(h))
    ensures var k, st' := cfg.handlers[h].to, Apply(cfg, st, Complete(h));
      var l := st.links[k];
      && st'.phases[h] == Posting(if l.required <= 1 then l.deferred else [])
      && st'.links[k] == (if l.required <= 1 then I.Link(0, []) else I.Link(l.required - 1, l.deferred))
  {
  }

  /** The steps of one thread that posts what it has taken. */
  function PostSteps(h: nat, n: nat): seq<Step>
  {
    if n == 0 then [] else [PostNext(h)] + PostSteps(h, n - 1)
  }

  /** Left alone, a thread posts all it has taken, in order. */
  lemma {:induction false} PostsInOrder(cfg: Config, st: State, h: nat, hs: seq<nat>)
    requires WellFormed(cfg) && Shape(cfg, st) && h < |st.phases| && st.phases[h] == Posting(hs)
    ensures Legal(cfg, st, PostSteps(h, |hs|))
    ensures After(cfg, st, PostSteps(h, |hs|)) == st.(queue := st.queue + hs, phases := st.phases[h := Posting([])])
    decreases |hs|
  {
    if hs == [] {
      assert st.queue + [] == st.queue && st.phases[h := Posting([])] == st.phases;
    } else {
      var st' := Apply(cfg, st, PostNext(h));
      PostsInOrder(cfg, st', h, hs[1..]);
      assert PostSteps(h, |hs|)[1..] == PostSteps(h, |hs[1..]|);
      assert (st.queue + [hs[0]]) + hs[1..] == st.queue + hs;
      assert st'.phases[h := Posting([])] == st.phases[h := Posting([])];
    }
  }

  function RunPostSteps(j: nat, n: nat): seq<Step>
  {
    if n == 0 then [] else [RunPost(j)] + RunPostSteps(j, n - 1)
  }

  lemma {:induction false} RunPostsInOrder(cfg: Config, st: State, j: nat, hs: seq<nat>)
    requires WellFormed(cfg) && Shape(cfg, st) && j < |st.runs| && st.runs[j] == hs
    ensures Legal(cfg, st, RunPostSteps(j, |hs|))
    ensures After(cfg, st, RunPostSteps(j, |hs|)) == st.(queue := st.queue + hs, runs := st.runs[j := []])
    decreases |hs|
  {
    if hs == [] {
      assert st.queue + [] == st.queue && st.runs[j := []] == st.runs;
    } else {
      var st' := Apply(cfg, st, RunPost(j));
      RunPostsInOrder(cfg, st', j, hs[1..]);
      assert RunPostSteps(j, |hs|)[1..] == RunPostSteps(j, |hs[1..]|);
      assert (st.queue + [hs[0]]) + hs[1..] == st.queue + hs;
      assert st'.runs[j := []] == st.runs[j := []];
    }
  }

  /** run, by the user or by a destructor, takes the whole list of its link, whatever is
      still required. */
  lemma RunReleases(cfg: Config, st: State, step: Step)
    requires WellFormed(cfg) && Shape(cfg, st) && Enabled(cfg, st, step) && (step.RunRoot? || step.Destroy?)
    ensures var k, st' := if step.RunRoot? then 0 else step.link, Apply(cfg, st, step);
      && st'.runs == st.runs + [st.links[k].deferred]
      && st'.links == st.links[k := I.Link(st.links[k].required, [])]
      && (step.RunRoot? ==> st'.gone == st.gone && st'.calls == st.calls - 1)
      && (step.Destroy? ==> st'.gone == st.gone[k := true] && st'.calls == st.calls)
  {
  }

  // ----- holding -----

  /** A destroyed link was not held any more: by no chain object of its own, nor, for the
      root, of any link, nor by a handler wrapped with it. */
  ghost predicate Unheld(cfg: Config, st: State, k: nat)
    requires Shape(cfg, st) && k < |st.links|
  {
    && !st.handles[k] && (k == 0 ==> forall i | 0 <= i < |st.handles| :: !st.handles[i])
    && IntoDone(cfg, st, k)
  }

  ghost predicate GoneUnheld(cfg: Config, st: State)
    requires Shape(cfg, st)
  {
    forall k | 0 <= k < |st.links| && st.gone[k] :: Unheld(cfg, st, k)
  }

  lemma GoneUnheldStep(cfg: Config, st: State, step: Step)
    requires Inv(cfg, st) && Enabled(cfg, st, step) && GoneUnheld(cfg, st)
    ensures GoneUnheld(cfg, Apply(cfg, st, step))
  {
    if step.Start? {
      QueuedIsIdle(st, step.j);
    }
    var st' := Apply(cfg, st, step);
    hide Once, LinksOk, Ordered, Places;
    forall k | 0 <= k < |st'.links| && st'.gone[k]
      ensures Unheld(cfg, st', k)
    {
      if st.gone[k] {
        assert Unheld(cfg, st, k);
      }
      assert IntoDone(cfg, st, k);
      IntoDoneStep(cfg, st, step, k);
    }
  }

  lemma {:induction false} GoneUnheldAlong(cfg: Config, st: State, steps: seq<Step>)
    requires Inv(cfg, st) && Legal(cfg, st, steps) && GoneUnheld(cfg, st)
    ensures GoneUnheld(cfg, After(cfg, st, steps))
    decreases |steps|
  {
    hide Once, LinksOk, Ordered, GoneUnheld, Apply, Enabled;
    if steps != [] {
      InvStep(cfg, st, steps[0]);
      GoneUnheldStep(cfg, st, steps[0]);
      GoneUnheldAlong(cfg, Apply(cfg, st, steps[0]), steps[1..]);
    }
  }

  /** In every reachable state a link is only gone when nobody holds it. */
  lemma HeldLinksLive(cfg: Config, st: State, steps: seq<Step>, k: nat)
    requires Initial(cfg, st) && Legal(cfg, st, steps) && k < |cfg.required| && After(cfg, st, steps).gone[k]
    ensures Unheld(cfg, After(cfg, st, steps), k)
  {
    InitialInv(cfg, st);
    GoneUnheldAlong(cfg, st, steps);
    hide Initial, Legal, Unheld;
  }

  /** Whoever has a chain object, of whatever link, can run the root. */
  lemma AnyHolderCanRun(cfg: Config, st: State, k: nat)
    requires WellFormed(cfg) && Shape(cfg, st) && k < |st.handles| && st.handles[k] && st.calls >= 1
    ensures Enabled(cfg, st, RunRoot)
  {
    assert exists i :: 0 <= i < |st.handles| && st.handles[i];
  }

  lemma NobodyElseCanRun(cfg: Config, st: State)
    requires WellFormed(cfg) && Shape(cfg, st) && Enabled(cfg, st, RunRoot)
    ensures st.calls >= 1 && exists k :: 0 <= k < |st.handles| && st.handles[k]
  {
  }
}
