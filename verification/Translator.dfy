/** Erlang tuples into Python ones, leaving string literals alone. */
module Translator {
  import Collections
  import opened Wrappers
  import opened TypedText

  // ----- one character at a time -----

  datatype Mode = Outside | Literal(end: char) | Escaped(end: char)

  function Next(m: Mode, c: char): Mode
  {
    match m
    case Outside => if IsQuote(c) then Literal(c) else Outside
    case Literal(end) => if c == end then Outside else if c == '\\' then Escaped(end) else m
    case Escaped(end) => Literal(end)
  }

  function Emit(m: Mode, c: char): (s: string)
    ensures s != []
  {
    if m.Outside? && c == '{' then "tuple(["
    else if m.Outside? && c == '}' then "])"
    else [c]
  }

  function End(m: Mode, s: string): Mode
  {
    if s == [] then m else Next(End(m, s[..|s| - 1]), s[|s| - 1])
  }

  function Output(m: Mode, s: string): string
  {
    if s == [] then "" else Output(m, s[..|s| - 1]) + Emit(End(m, s[..|s| - 1]), s[|s| - 1])
  }

  /** None when a literal is left open. */
  function Translate(s: string): Option<string>
  {
    if End(Outside, s) == Outside then Some(Output(Outside, s)) else None
  }

  lemma Last(m: Mode, s: string, c: char)
    ensures End(m, s + [c]) == Next(End(m, s), c)
    ensures Output(m, s + [c]) == Output(m, s) + Emit(End(m, s), c)
  {
    assert (s + [c])[..|s|] == s;
  }

  /** Translating distributes over concatenation, from the mode the first part ends in. */
  lemma {:induction false} Distributes(m: Mode, a: string, b: string)
    ensures End(m, a + b) == End(End(m, a), b)
    ensures Output(m, a + b) == Output(m, a) + Output(End(m, a), b)
  {
    if b == [] {
      assert a + b == a;
    } else {
      var c, x := b[..|b| - 1], b[|b| - 1];
      assert b == c + [x] && a + b == (a + c) + [x];
      Distributes(m, a, c);
      DistributesLast(m, a, c, x);
    }
  }

  lemma DistributesLast(m: Mode, a: string, c: string, x: char)
    requires End(m, a + c) == End(End(m, a), c)
    requires Output(m, a + c) == Output(m, a) + Output(End(m, a), c)
    ensures End(m, (a + c) + [x]) == End(End(m, a), c + [x])
    ensures Output(m, (a + c) + [x]) == Output(m, a) + Output(End(m, a), c + [x])
  {
    Last(m, a + c, x);
    Last(End(m, a), c, x);
    Collections.Associate(Output(m, a), Output(End(m, a), c), Emit(End(m, a + c), x));
    hide Output, End, Emit, Next;
  }

  lemma One(m: Mode, c: char)
    ensures End(m, [c]) == Next(m, c) && Output(m, [c]) == Emit(m, c)
  {
    assert [c][..0] == [];
    assert [] + Emit(m, c) == Emit(m, c);
  }

  lemma First(m: Mode, c: char, s: string)
    ensures End(m, [c] + s) == End(Next(m, c), s)
    ensures Output(m, [c] + s) == Emit(m, c) + Output(Next(m, c), s)
  {
    One(m, c);
    Distributes(m, [c], s);
  }

  lemma Emits(c: char)
    ensures Emit(Outside, c) == if c == '{' then "tuple([" else if c == '}' then "])" else [c]
    ensures Next(Outside, c) == if IsQuote(c) then Literal(c) else Outside
  {
  }

  lemma Prefix(m: Mode, s: string, i: nat)
    requires i < |s|
    ensures End(m, s[..i + 1]) == Next(End(m, s[..i]), s[i])
    ensures Output(m, s[..i + 1]) == Output(m, s[..i]) + Emit(End(m, s[..i]), s[i])
  {
    assert s[..i + 1][..i] == s[..i];
  }

  // ----- the loop -----

  function Join(lst: seq<string>): string
  {
    if lst == [] then "" else Join(lst[..|lst| - 1]) + lst[|lst| - 1]
  }

  lemma JoinTwo(lst: seq<string>, a: string, b: string)
    ensures Join(lst + [a, b]) == Join(lst) + a + b
    ensures Join(lst + [a]) == Join(lst) + a
  {
    assert (lst + [a, b])[..|lst| + 1] == lst + [a];
    assert (lst + [a])[..|lst|] == lst;
  }

  class Translator {
    /** Shared by all calls. */
    var lst: seq<string>

    /** What is joined so far and the segment not yet copied. */
    ghost predicate Upto(s: string, b: nat, i: nat)
      reads this
    {
      b <= i <= |s| && Join(lst) + s[b..i] == Output(Outside, s[..i])
    }

    method ErlangToPython(s: string) returns (r: Option<string>)
      modifies this
      ensures r == Translate(s)
    {
      lst := [];
      var b, i := 0, 0;
      assert Upto(s, b, i) && End(Outside, s[..i]) == Outside;
      hide Output, End, Join, Upto, Emit, Next;
      while i < |s|
        invariant b <= i <= |s| && Upto(s, b, i) && End(Outside, s[..i]) == Outside
      {
        Emits(s[i]);
        if s[i] == '{' {
          Cut(s, b, i, "tuple([");
          i := i + 1;
          b := i;
        } else if s[i] == '}' {
          Cut(s, b, i, "])");
          i := i + 1;
          b := i;
        } else if IsQuote(s[i]) {
          var end := s[i];
          Copied(s, b, i);
          i := i + 1;
          var after := CopyLiteral(s, b, i, end);
          if after.None? {
            return None;
          }
          i := after.value;
        } else {
          Copied(s, b, i);
          i := i + 1;
        }
      }
      Finished(s, b, i);
      lst := lst + [s[b..i]];
      r := Some(Join(lst));
    }

    lemma Finished(s: string, b: nat, i: nat)
      requires i >= |s| && Upto(s, b, i) && End(Outside, s[..|s|]) == Outside
      ensures b <= i == |s| && Translate(s) == Some(Join(lst + [s[b..i]]))
    {
      assert s[..|s|] == s;
      JoinTwo(lst, s[b..i], "");
    }

    /** A brace: the segment before it, and what stands for it. */
    method Cut(s: string, b: nat, i: nat, text: string)
      requires i < |s| && Upto(s, b, i) && End(Outside, s[..i]) == Outside
      requires Emit(Outside, s[i]) == text && Next(Outside, s[i]) == Outside
      modifies this
      ensures Upto(s, i + 1, i + 1) && End(Outside, s[..i + 1]) == Outside
    {
      Prefix(Outside, s, i);
      JoinTwo(lst, s[b..i], text);
      lst := lst + [s[b..i], text];
      assert s[i + 1..i + 1] == [];
    }

    /** A character that stands for itself joins the segment. */
    lemma Copied(s: string, b: nat, i: nat)
      requires i < |s| && Upto(s, b, i) && Emit(End(Outside, s[..i]), s[i]) == [s[i]]
      ensures Upto(s, b, i + 1) && End(Outside, s[..i + 1]) == Next(End(Outside, s[..i]), s[i])
    {
      Prefix(Outside, s, i);
      assert s[b..i + 1] == s[b..i] + [s[i]];
      hide Output, End, Join, Emit, Next;
    }

    method CopyLiteral(s: string, b: nat, start: nat, end: char) returns (r: Option<nat>)
      requires Upto(s, b, start) && End(Outside, s[..start]) == Literal(end)
      ensures lst == old(lst)
      ensures r.None? ==> End(Outside, s) != Outside
      ensures r.Some? ==> start < r.value && Upto(s, b, r.value) && End(Outside, s[..r.value]) == Outside
    {
      hide Output, End, Join;
      var i := start;
      while true
        invariant start <= i && Upto(s, b, i) && End(Outside, s[..i]) == Literal(end)
        decreases |s| - i
      {
        if i >= |s| {
          assert s[..i] == s;
          return None;
        }
        Copied(s, b, i);
        if s[i] == end {
          i := i + 1;
          return Some(i);
        } else if s[i] == '\\' {
          i := i + 1;
          if i >= |s| {
            assert s[..i] == s;
            return None;
          }
          Copied(s, b, i);
          i := i + 1;
        } else {
          i := i + 1;
        }
      }
    }
  }
}
