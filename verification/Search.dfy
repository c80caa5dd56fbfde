/** The search for the best plan: every move is pushed, applied, searched below, scored and
    popped again. */
module Search {

  datatype View<S, Op> = View(board: S, history: seq<Op>)

  /** moves: the operation lists an AI offers; step: what one operation does to the board;
      evaluate: the score of having made a move, from the best that can follow it. */
  datatype Game<!S, !Op> = Game(
    moves: View<S, Op> -> seq<seq<Op>>,
    step: (S, Op) -> S,
    evaluate: (View<S, Op>, seq<Op>, nat) -> nat)

  function Stepped<S, Op>(g: Game<S, Op>, board: S, ops: seq<Op>): S
  {
    if ops == [] then board else g.step(Stepped(g, board, ops[..|ops| - 1]), ops[|ops| - 1])
  }

  function Applied<S, Op>(g: Game<S, Op>, v: View<S, Op>, ops: seq<Op>): View<S, Op>
  {
    View(Stepped(g, v.board, ops), v.history + ops)
  }

  lemma {:induction false} SteppedFirst<S, Op>(g: Game<S, Op>, board: S, op: Op, rest: seq<Op>)
    ensures Stepped(g, board, [op] + rest) == Stepped(g, g.step(board, op), rest)
  {
    var ops := [op] + rest;
    if rest == [] {
      assert ops[..|ops| - 1] == [] && ops[|ops| - 1] == op;
    } else {
      assert ops[..|ops| - 1] == [op] + rest[..|rest| - 1] && ops[|ops| - 1] == rest[|rest| - 1];
      SteppedFirst(g, board, op, rest[..|rest| - 1]);
    }
  }

  /** Operations are applied one after the other, the first one first, and each is recorded
      in the history as it is. */
  lemma AppliedInOrder<S, Op>(g: Game<S, Op>, v: View<S, Op>, op: Op, rest: seq<Op>)
    ensures Applied(g, v, []) == v
    ensures Applied(g, v, [op] + rest) == Applied(g, View(g.step(v.board, op), v.history + [op]), rest)
  {
    SteppedFirst(g, v.board, op, rest);
    assert v.history + [] == v.history;
    assert v.history + ([op] + rest) == (v.history + [op]) + rest;
  }

  /** No plan from v has more than n moves. */
  ghost predicate Bounded<S, Op>(g: Game<S, Op>, v: View<S, Op>, n: nat)
    decreases n
  {
    forall i | 0 <= i < |g.moves(v)| :: n > 0 && Bounded(g, Applied(g, v, g.moves(v)[i]), n - 1)
  }

  // ----- the search -----

  /** What the search finds from v: the operations of the best plan and its score. */
  ghost function Best<S, Op>(g: Game<S, Op>, v: View<S, Op>, n: nat): (seq<Op>, nat)
    requires Bounded(g, v, n)
    decreases n, |g.moves(v)| + 1
  {
    BestOf(g, v, n, |g.moves(v)|)
  }

  /** The score of move i. */
  ghost function Scored<S, Op>(g: Game<S, Op>, v: View<S, Op>, n: nat, i: nat): nat
    requires Bounded(g, v, n) && i < |g.moves(v)|
    decreases n, i, 0
  {
    var after := Applied(g, v, g.moves(v)[i]);
    var below := Best(g, after, n - 1);
    g.evaluate(after, below.0, below.1)
  }

  /** The best of the first k moves. */
  ghost function BestOf<S, Op>(g: Game<S, Op>, v: View<S, Op>, n: nat, k: nat): (seq<Op>, nat)
    requires Bounded(g, v, n) && k <= |g.moves(v)|
    decreases n, k
  {
    if k == 0 then ([], 0)
    else
      var before := BestOf(g, v, n, k - 1);
      var op := g.moves(v)[k - 1];
      if Scored(g, v, n, k - 1) > before.1
      then (op + Best(g, Applied(g, v, op), n - 1).0, Scored(g, v, n, k - 1))
      else before
  }

  class Status<S, Op> {
    var board: S
    var history: seq<Op>
    var saved: seq<View<S, Op>>

    constructor (board: S)
      ensures Now() == View(board, []) && saved == []
    {
      this.board, history, saved := board, [], [];
    }

    function Now(): View<S, Op>
      reads this
    {
      View(board, history)
    }

    method Push()
      modifies this
      ensures Now() == old(Now()) && saved == old(saved) + [old(Now())]
    {
      saved := saved + [View(board, history)];
    }

    method Apply(g: Game<S, Op>, ops: seq<Op>)
      modifies this
      ensures Now() == Applied(g, old(Now()), ops) && saved == old(saved)
    {
      for i := 0 to |ops|
        invariant Now() == Applied(g, old(Now()), ops[..i]) && saved == old(saved)
      {
        assert ops[..i + 1][..i] == ops[..i];
        board := g.step(board, ops[i]);
        history := history + [ops[i]];
      }
      assert ops[..|ops|] == ops;
    }

    method Pop()
      requires saved != []
      modifies this
      ensures Now() == old(saved[|saved| - 1]) && saved == old(saved[..|saved| - 1])
    {
      board, history := saved[|saved| - 1].board, saved[|saved| - 1].history;
      saved := saved[..|saved| - 1];
    }
  }

  /** The status on return is the status on entry, at every level. */
  method CalculateBestOperation<S, Op>(g: Game<S, Op>, s: Status<S, Op>, ghost n: nat) returns (best: seq<Op>, maxScore: nat)
    requires Bounded(g, s.Now(), n)
    modifies s
    ensures s.Now() == old(s.Now()) && s.saved == old(s.saved)
    ensures (best, maxScore) == Best(g, old(s.Now()), n)
    decreases n
  {
    best, maxScore := [], 0;
    var ops := g.moves(s.Now());
    for i := 0 to |ops|
      invariant s.Now() == old(s.Now()) && s.saved == old(s.saved)
      invariant (best, maxScore) == BestOf(g, s.Now(), n, i)
    {
      ghost var v := s.Now();
      var op := ops[i];
      s.Push();
      s.Apply(g, op);

      var bestOp, score := CalculateBestOperation(g, s, n - 1);
      score := g.evaluate(s.Now(), bestOp, score);
      assert score == Scored(g, v, n, i);

      if score > maxScore {
        maxScore := score;
        op := op + bestOp;
        best := op;
      }
      s.Pop();
    }
  }

  // ----- against all plans -----

  function Flat<Op>(plan: seq<seq<Op>>): seq<Op>
  {
    if plan == [] then [] else plan[0] + Flat(plan[1..])
  }

  ghost predicate Plan<S, Op>(g: Game<S, Op>, v: View<S, Op>, plan: seq<seq<Op>>)
    decreases |plan|
  {
    plan == [] || (plan[0] in g.moves(v) && Plan(g, Applied(g, v, plan[0]), plan[1..]))
  }

  /** The empty plan scores 0; evaluate is folded over the others from the end. */
  ghost function Score<S, Op>(g: Game<S, Op>, v: View<S, Op>, plan: seq<seq<Op>>): nat
    decreases |plan|
  {
    if plan == [] then 0
    else
      var after := Applied(g, v, plan[0]);
      g.evaluate(after, Flat(plan[1..]), Score(g, after, plan[1..]))
  }

  /** evaluate depends on the status and the score alone, and never prefers a lower score. */
  ghost predicate Monotone<S(!new), Op(!new)>(g: Game<S, Op>)
  {
    forall v, a, b, x, y | x <= y :: g.evaluate(v, a, x) <= g.evaluate(v, b, y)
  }

  lemma {:induction false} BestOfIsMax<S, Op>(g: Game<S, Op>, v: View<S, Op>, n: nat, k: nat, i: nat)
    requires Bounded(g, v, n) && i < k <= |g.moves(v)|
    ensures Scored(g, v, n, i) <= BestOf(g, v, n, k).1
    decreases k
  {
    if i < k - 1 {
      BestOfIsMax(g, v, n, k - 1, i);
    }
  }

  /** Where a best plan comes from: the first of the moves with the highest score. */
  lemma {:induction false} BestOfIsFirst<S, Op>(g: Game<S, Op>, v: View<S, Op>, n: nat, k: nat) returns (i: nat)
    requires Bounded(g, v, n) && k <= |g.moves(v)| && BestOf(g, v, n, k).1 > 0
    ensures i < k && BestOf(g, v, n, k).1 == Scored(g, v, n, i)
    ensures BestOf(g, v, n, k).0 == g.moves(v)[i] + Best(g, Applied(g, v, g.moves(v)[i]), n - 1).0
    ensures forall j | 0 <= j < i :: Scored(g, v, n, j) < Scored(g, v, n, i)
    decreases k
  {
    var before := BestOf(g, v, n, k - 1);
    if Scored(g, v, n, k - 1) > before.1 {
      i := k - 1;
      forall j | 0 <= j < i
        ensures Scored(g, v, n, j) < Scored(g, v, n, i)
      {
        BestOfIsMax(g, v, n, k - 1, j);
      }
    } else {
      i := BestOfIsFirst(g, v, n, k - 1);
    }
  }

  lemma {:induction false} BestOfNothing<S, Op>(g: Game<S, Op>, v: View<S, Op>, n: nat, k: nat)
    requires Bounded(g, v, n) && k <= |g.moves(v)| && BestOf(g, v, n, k).1 == 0
    ensures BestOf(g, v, n, k).0 == []
    decreases k
  {
    if k > 0 {
      BestOfNothing(g, v, n, k - 1);
    }
  }

  /** Whatever evaluate does, the list returned is a legal plan with the score returned. */
  lemma {:induction false} Attained<S, Op>(g: Game<S, Op>, v: View<S, Op>, n: nat) returns (plan: seq<seq<Op>>)
    requires Bounded(g, v, n)
    ensures Plan(g, v, plan) && (Flat(plan), Score(g, v, plan)) == Best(g, v, n)
    decreases n
  {
    var k := |g.moves(v)|;
    if BestOf(g, v, n, k).1 == 0 {
      BestOfNothing(g, v, n, k);
      plan := [];
    } else {
      var i := BestOfIsFirst(g, v, n, k);
      var op := g.moves(v)[i];
      var rest := Attained(g, Applied(g, v, op), n - 1);
      plan := [op] + rest;
      assert plan[1..] == rest;
    }
  }

  /** No legal plan scores more, when evaluate is monotone. */
  lemma {:induction false} Optimal<S(!new), Op(!new)>(g: Game<S, Op>, v: View<S, Op>, n: nat, plan: seq<seq<Op>>)
    requires Bounded(g, v, n) && Monotone(g) && Plan(g, v, plan)
    ensures Score(g, v, plan) <= Best(g, v, n).1
    decreases |plan|
  {
    if plan != [] {
      var i :| 0 <= i < |g.moves(v)| && g.moves(v)[i] == plan[0];
      Optimal(g, Applied(g, v, plan[0]), n - 1, plan[1..]);
      BestOfIsMax(g, v, n, |g.moves(v)|, i);
    }
  }

  /** The fast search finds exactly the maximum over all plans. */
  lemma SearchIsExhaustive<S(!new), Op(!new)>(g: Game<S, Op>, v: View<S, Op>, n: nat, best: nat)
    requires Bounded(g, v, n) && Monotone(g)
    ensures best == Best(g, v, n).1 <==>
      && (exists plan :: Plan(g, v, plan) && Score(g, v, plan) == best)
      && (forall plan | Plan(g, v, plan) :: Score(g, v, plan) <= best)
  {
    var plan := Attained(g, v, n);
    forall p | Plan(g, v, p)
      ensures Score(g, v, p) <= Best(g, v, n).1
    {
      Optimal(g, v, n, p);
    }
  }

  /** The bound is only there to stop: any other one finds the same. */
  lemma {:induction false} BoundIsFree<S, Op>(g: Game<S, Op>, v: View<S, Op>, n: nat, m: nat, k: nat)
    requires Bounded(g, v, n) && Bounded(g, v, m) && k <= |g.moves(v)|
    ensures BestOf(g, v, n, k) == BestOf(g, v, m, k)
    decreases n, k
  {
    if k > 0 {
      BoundIsFree(g, v, n, m, k - 1);
      var after := Applied(g, v, g.moves(v)[k - 1]);
      BoundIsFree(g, after, n - 1, m - 1, |g.moves(after)|);
      assert Best(g, after, n - 1) == Best(g, after, m - 1);
      assert Scored(g, v, n, k - 1) == Scored(g, v, m, k - 1);
    }
  }

  /** One move from 0 to 1 and one from 1 to 2; at 1 it is better to stop. */
  function Stopper(): Game<int, int>
  {
    Game(
      (v: View<int, int>) => if v.board < 2 then [[v.board + 1]] else [],
      (board: int, op: int) => op,
      (v: View<int, int>, best: seq<int>, score: nat) => if v.board == 2 then 5 else if score > 0 then 1 else 9)
  }

  /** With an evaluate that is not monotone a plan can be missed. */
  lemma PlanMissed()
    ensures var g, v := Stopper(), View(0, []);
      Bounded(g, v, 2) && Best(g, v, 2).1 == 1 && Plan(g, v, [[1]]) && Score(g, v, [[1]]) == 9
  {
    var g, v := Stopper(), View(0, []);
    var v1 := Applied(g, v, [1]);
    var v2 := Applied(g, v1, [2]);
    assert v1.board == 1 && v2.board == 2;
    assert g.moves(v2) == [] && g.moves(v1) == [[2]] && g.moves(v) == [[1]];
    assert Bounded(g, v2, 0);
    assert Bounded(g, v1, 1);
    assert Best(g, v2, 0) == ([], 0);
    assert BestOf(g, v1, 1, 0) == ([], 0) && Scored(g, v1, 1, 0) == 5;
    assert Best(g, v1, 1) == BestOf(g, v1, 1, 1) == ([2] + [], 5);
    assert BestOf(g, v, 2, 0) == ([], 0) && Scored(g, v, 2, 0) == 1;
    assert Best(g, v, 2) == BestOf(g, v, 2, 1);
    assert [[1]][1..] == [];
  }
}
