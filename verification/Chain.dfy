/** Chains of links under an arbitrary scheduler: any number of threads take handlers from
    the executor, run them, complete the next link and post what it releases. */
module Chain {
  import Collections
  import I = ChainImpl

  /** Posted into link from, wrapped with link to. */
  datatype Handler = Handler(from: nat, to: nat)

  /** required: the completions each link was made with.  Link 0 is the root. */
  datatype Config = Config(handlers: seq<Handler>, required: seq<nat>)

  /** Body: inside the handler's own function.  Ran: the function has returned, complete
      has not got the lock yet.  Posting: the lock is released and the handlers swapped out
      are being posted.  Done: the wrapped handler is destroyed, and with it its hold on
      the next link. */
  datatype Phase = Idle | Body | Ran | Posting(todo: seq<nat>) | Done

  /** handles: whether the user still holds a chain object of the link; gone: whether the
      link was destroyed; runs: the lists that run calls outside handlers are posting;
      queue: the executor; ran: the handlers whose function has returned, in order;
      calls: how often the user will still call run. */
  datatype State = State(
    links: seq<I.Link>, handles: seq<bool>, gone: seq<bool>,
    phases: seq<Phase>, runs: seq<seq<nat>>, queue: seq<nat>,
    ran: seq<nat>, rootRun: bool, calls: nat)

  ghost predicate WellFormed(cfg: Config)
  {
    && |cfg.required| > 0
    && forall h | 0 <= h < |cfg.handlers| :: cfg.handlers[h].from < cfg.handlers[h].to < |cfg.required|
  }

  ghost predicate Shape(cfg: Config, st: State)
  {
    && |st.links| == |st.handles| == |st.gone| == |cfg.required|
    && |st.phases| == |cfg.handlers|
  }

  // ----- steps -----

  datatype Step =
    | Start(j: nat)
    | Execute(h: nat)
    | Complete(h: nat)
    | PostNext(h: nat)
    | Finish(h: nat)
    | RunRoot
    | RunPost(j: nat)
    | RunEnd(j: nat)
    | Drop(link: nat)
    | Destroy(link: nat)

  ghost predicate Enabled(cfg: Config, st: State, step: Step)
    requires WellFormed(cfg) && Shape(cfg, st)
  {
    match step
    case Start(j) => j < |st.queue| && st.queue[j] < |st.phases|
    case Execute(h) => h < |st.phases| && st.phases[h].Body?
    case Complete(h) => h < |st.phases| && st.phases[h].Ran?
    case PostNext(h) => h < |st.phases| && st.phases[h].Posting? && st.phases[h].todo != []
    case Finish(h) => h < |st.phases| && st.phases[h].Posting? && st.phases[h].todo == []
    case RunRoot => st.calls > 0 && exists k :: 0 <= k < |st.handles| && st.handles[k]
    case RunPost(j) => j < |st.runs| && st.runs[j] != []
    case RunEnd(j) => j < |st.runs| && st.runs[j] == []
    case Drop(k) => k < |st.handles| && st.handles[k]
    case Destroy(k) =>
      // every wrapped predecessor and the chain objects own the link; all chain objects own the root
      && k < |st.links| && !st.gone[k] && !st.handles[k]
      && (k == 0 ==> forall i | 0 <= i < |st.handles| :: !st.handles[i])
      && forall h | 0 <= h < |st.phases| && cfg.handlers[h].to == k :: st.phases[h].Done?
  }

  function Without<T>(s: seq<T>, j: nat): seq<T>
    requires j < |s|
  {
    s[..j] + s[j + 1..]
  }

  /** run on link k by nobody in particular: the user, or the destructor. */
  function Release(st: State, k: nat): State
    requires k < |st.links|
  {
    var (l, hs) := I.Run(st.links[k]);
    st.(links := st.links[k := l], runs := st.runs + [hs])
  }

  function Apply(cfg: Config, st: State, step: Step): (st': State)
    requires WellFormed(cfg) && Shape(cfg, st) && Enabled(cfg, st, step)
    ensures Shape(cfg, st')
  {
    match step
    case Start(j) => st.(queue := Without(st.queue, j), phases := st.phases[st.queue[j] := Body])
    case Execute(h) => st.(phases := st.phases[h := Ran], ran := st.ran + [h])
    case Complete(h) =>
      var k := cfg.handlers[h].to;
      var (l, hs) := I.Complete(st.links[k]);
      st.(links := st.links[k := l], phases := st.phases[h := Posting(hs)])
    case PostNext(h) =>
      var hs := st.phases[h].todo;
      st.(queue := st.queue + [hs[0]], phases := st.phases[h := Posting(hs[1..])])
    case Finish(h) => st.(phases := st.phases[h := Done])
    case RunRoot => Release(st, 0).(rootRun := true, calls := st.calls - 1)
    case RunPost(j) =>
      var hs := st.runs[j];
      st.(queue := st.queue + [hs[0]], runs := st.runs[j := hs[1..]])
    case RunEnd(j) => st.(runs := Without(st.runs, j))
    case Drop(k) => st.(handles := st.handles[k := false])
    case Destroy(k) => Release(st, k).(gone := st.gone[k := true])
  }

  // ----- building a chain -----

  /** A link hung behind parent by wrapping count handlers: then is (1, 1), all is (n, n),
      any is (n, required). */
  datatype Add = Add(parent: nat, count: nat, required: nat)

  function New(calls: nat): (Config, State)
  {
    (Config([], [0]), State([I.Link(0, [])], [true], [false], [], [], [], [], false, calls))
  }

  ghost predicate CanAdd(cfg: Config, st: State, a: Add)
  {
    a.parent < |cfg.required| && Shape(cfg, st)
  }

  /** wrap_and_post for each handler in turn. */
  function PostAll(cfg: Config, st: State, parent: nat, next: nat, count: nat): (r: (Config, State))
    requires parent < |st.links|
    ensures |r.1.links| == |st.links|
    decreases count
  {
    if count == 0 then (cfg, st)
    else
      var h := |cfg.handlers|;
      PostAll(cfg.(handlers := cfg.handlers + [Handler(parent, next)]),
              st.(links := st.links[parent := I.Post(st.links[parent], h)], phases := st.phases + [Idle]),
              parent, next, count - 1)
  }

  function AddLink(cfg: Config, st: State, a: Add): (r: (Config, State))
    requires a.parent < |st.links|
    ensures |r.1.links| == |st.links| + 1
  {
    PostAll(cfg.(required := cfg.required + [a.required]),
            st.(links := st.links + [I.Link(a.required, [])], handles := st.handles + [true], gone := st.gone + [false]),
            a.parent, |cfg.required|, a.count)
  }

  /** Before any run: everything is deferred, once, where it was posted. */
  ghost predicate Initial(cfg: Config, st: State)
  {
    && WellFormed(cfg) && Shape(cfg, st)
    && st.runs == [] && st.queue == [] && st.ran == [] && !st.rootRun
    && (forall h | 0 <= h < |st.phases| :: st.phases[h].Idle?)
    && (forall k | 0 <= k < |st.gone| :: !st.gone[k])
    && (forall k | 0 <= k < |st.links| :: st.links[k].required == cfg.required[k])
    && forall k, h: nat | 0 <= k < |st.links| :: Posted(cfg, st, k, h)
  }

  ghost predicate Posted(cfg: Config, st: State, k: nat, h: nat)
    requires k < |st.links|
  {
    multiset(st.links[k].deferred)[h] == if h < |cfg.handlers| && cfg.handlers[h].from == k then 1 else 0
  }

  lemma NewIsInitial(calls: nat)
    ensures Initial(New(calls).0, New(calls).1)
  {
  }

  lemma {:induction false} PostAllInitial(cfg: Config, st: State, parent: nat, next: nat, count: nat)
    requires Initial(cfg, st) && parent < next < |cfg.required|
    ensures Initial(PostAll(cfg, st, parent, next, count).0, PostAll(cfg, st, parent, next, count).1)
    decreases count
  {
    if count > 0 {
      var h := |cfg.handlers|;
      var cfg' := cfg.(handlers := cfg.handlers + [Handler(parent, next)]);
      var st' := st.(links := st.links[parent := I.Post(st.links[parent], h)], phases := st.phases + [Idle]);
      forall k, g: nat | 0 <= k < |st'.links|
        ensures Posted(cfg', st', k, g)
      {
        assert Posted(cfg, st, k, g);
      }
      PostAllInitial(cfg', st', parent, next, count - 1);
    }
  }

  /** However a chain is put together, it starts in an initial state. */
  lemma AddLinkInitial(cfg: Config, st: State, a: Add)
    requires Initial(cfg, st) && CanAdd(cfg, st, a)
    ensures Initial(AddLink(cfg, st, a).0, AddLink(cfg, st, a).1)
  {
    var cfg' := cfg.(required := cfg.required + [a.required]);
    var st' := st.(links := st.links + [I.Link(a.required, [])], handles := st.handles + [true], gone := st.gone + [false]);
    forall k, g: nat | 0 <= k < |st'.links|
      ensures Posted(cfg', st', k, g)
    {
      if k < |st.links| {
        assert Posted(cfg, st, k, g);
      }
    }
    PostAllInitial(cfg', st', a.parent, |cfg.required|, a.count);
  }

  // ----- where handlers are -----

  function Flat(bs: seq<seq<nat>>): multiset<nat>
  {
    if bs == [] then multiset{} else multiset(bs[0]) + Flat(bs[1..])
  }

  function Deferred(links: seq<I.Link>): seq<seq<nat>>
  {
    seq(|links|, k requires 0 <= k < |links| => links[k].deferred)
  }

  function Todo(p: Phase): seq<nat>
  {
    if p.Posting? then p.todo else []
  }

  function Locals(phases: seq<Phase>): seq<seq<nat>>
  {
    seq(|phases|, h requires 0 <= h < |phases| => Todo(phases[h]))
  }

  /** Deferred, swapped out, or in the executor. */
  function Places(st: State): multiset<nat>
  {
    Flat(Deferred(st.links)) + Flat(Locals(st.phases)) + Flat(st.runs) + multiset(st.queue)
  }

  lemma {:induction false} FlatUpdate(bs: seq<seq<nat>>, k: nat, b: seq<nat>)
    requires k < |bs|
    ensures Flat(bs[k := b]) + multiset(bs[k]) == Flat(bs) + multiset(b)
  {
    if k == 0 {
      assert bs[k := b][1..] == bs[1..];
    } else {
      assert bs[k := b][1..] == bs[1..][k - 1 := b];
      FlatUpdate(bs[1..], k - 1, b);
      Collections.AddFront(multiset(bs[0]), Flat(bs[1..][k - 1 := b]), multiset(bs[k]), Flat(bs[1..]), multiset(b));
    }
  }

  lemma {:induction false} FlatAppend(bs: seq<seq<nat>>, more: seq<seq<nat>>)
    ensures Flat(bs + more) == Flat(bs) + Flat(more)
  {
    if bs == [] {
      assert bs + more == more;
    } else {
      assert (bs + more)[1..] == bs[1..] + more;
      FlatAppend(bs[1..], more);
    }
  }

  lemma FlatOne(b: seq<nat>)
    ensures Flat([b]) == multiset(b)
  {
    assert Flat([b]) == multiset(b) + Flat([]);
  }

  lemma FlatWithout(bs: seq<seq<nat>>, j: nat)
    requires j < |bs|
    ensures Flat(bs) == Flat(Without(bs, j)) + multiset(bs[j])
  {
    hide Flat;
    var front, back := bs[..j], bs[j + 1..];
    FlatAppend(front, back);
    FlatAppend(front, [bs[j]] + back);
    FlatAppend([bs[j]], back);
    FlatOne(bs[j]);
    assert bs == front + ([bs[j]] + back);
    Rearranged(Flat(front), multiset(bs[j]), Flat(back));
  }

  lemma Rearranged(a: multiset<nat>, b: multiset<nat>, c: multiset<nat>)
    ensures a + (b + c) == (a + c) + b
  {
  }

  lemma QueueWithout(q: seq<nat>, j: nat)
    requires j < |q|
    ensures multiset(q) == multiset(Without(q, j)) + multiset{q[j]}
  {
    assert q == q[..j] + [q[j]] + q[j + 1..];
  }

  lemma LinkUpdate(links: seq<I.Link>, k: nat, l: I.Link)
    requires k < |links|
    ensures Flat(Deferred(links[k := l])) + multiset(links[k].deferred) == Flat(Deferred(links)) + multiset(l.deferred)
  {
    assert Deferred(links[k := l]) == Deferred(links)[k := l.deferred];
    FlatUpdate(Deferred(links), k, l.deferred);
  }

  lemma PhaseUpdate(phases: seq<Phase>, h: nat, p: Phase)
    requires h < |phases|
    ensures Flat(Locals(phases[h := p])) + multiset(Todo(phases[h])) == Flat(Locals(phases)) + multiset(Todo(p))
  {
    assert Locals(phases[h := p]) == Locals(phases)[h := Todo(p)];
    FlatUpdate(Locals(phases), h, Todo(p));
  }
}
