/**
 Back and forward over cross-link jumps: two capped stacks that never lose an
 entry to a move (src/app/history.rs:5-64).
 */
module TabHistory {
  import opened Wrappers

  const MAX_HISTORY := 20

  /** `push` on a stack, then drop the oldest when it has grown too long. */
  function Capped<E>(stack: seq<E>): seq<E> {
    if |stack| > MAX_HISTORY then stack[1..] else stack
  }

  datatype Stacks<E> = Stacks(back: seq<E>, forward: seq<E>)

  datatype Op<E> = Push(entry: E) | PopBack(current: E) | PopForward(current: E)

  function Step<E>(s: Stacks<E>, op: Op<E>): (Stacks<E>, Option<E>) {
    match op
    case Push(e) => (Stacks(Capped(s.back + [e]), []), None)
    case PopBack(current) =>
      if s.back == [] then (s, None)
      else (Stacks(s.back[..|s.back| - 1], Capped(s.forward + [current])), Some(s.back[|s.back| - 1]))
    case PopForward(current) =>
      if s.forward == [] then (s, None)
      else (Stacks(Capped(s.back + [current]), s.forward[..|s.forward| - 1]), Some(s.forward[|s.forward| - 1]))
  }

  function Run<E>(s: Stacks<E>, ops: seq<Op<E>>): Stacks<E>
    decreases |ops|
  {
    if ops == [] then s else Run(Step(s, ops[0]).0, ops[1..])
  }

  /** What no method checks, yet every reachable history satisfies. */
  predicate Fits<E>(s: Stacks<E>) {
    |s.back| + |s.forward| <= 20
  }

  function Reverse<E>(xs: seq<E>): (r: seq<E>)
    ensures |r| == |xs|
  {
    if xs == [] then [] else [xs[|xs| - 1]] + Reverse(xs[..|xs| - 1])
  }

  /** The line of entries the user walks along, with the current one in the middle. */
  function Line<E>(s: Stacks<E>, current: E): seq<E> {
    s.back + [current] + Reverse(s.forward)
  }

  /** From the empty history on, the two stacks together never outgrow the cap. */
  lemma {:induction false} RunKeepsFits<E>(s: Stacks<E>, ops: seq<Op<E>>)
    requires Fits(s)
    ensures Fits(Run(s, ops))
    decreases |ops|
  {
    if ops != [] {
      RunKeepsFits(Step(s, ops[0]).0, ops[1..]);
    }
  }

  /** Moving back and then forward restores everything exactly when the forward stack had room for one more. */
  lemma BackThenForward<E>(s: Stacks<E>, current: E)
    requires s.back != [] && |s.back| <= 20 && |s.forward| <= 20
    ensures var (t, entry) := Step(s, PopBack(current));
            entry.Some? && (Step(t, PopForward(entry.value)) == (s, Some(current)) <==> |s.forward| < 20)
  {
    var (t, entry) := Step(s, PopBack(current));
    assert s.back == s.back[..|s.back| - 1] + [entry.value];
    if |s.forward| < 20 {
      assert (s.forward + [current])[..|s.forward|] == s.forward;
    } else {
      assert |t.forward| == 20;
      assert |Step(t, PopForward(entry.value)).0.forward| == 20 - 1;
    }
  }

  /** Likewise for forward and then back. */
  lemma ForwardThenBack<E>(s: Stacks<E>, current: E)
    requires s.forward != [] && |s.back| <= 20 && |s.forward| <= 20
    ensures var (t, entry) := Step(s, PopForward(current));
            entry.Some? && (Step(t, PopBack(entry.value)) == (s, Some(current)) <==> |s.back| < 20)
  {
    var (t, entry) := Step(s, PopForward(current));
    assert s.forward == s.forward[..|s.forward| - 1] + [entry.value];
    if |s.back| < 20 {
      assert (s.back + [current])[..|s.back|] == s.back;
    } else {
      assert |t.back| == 20;
      assert |Step(t, PopBack(entry.value)).0.back| == 20 - 1;
    }
  }

  lemma BackKeepsTheLine<E>(s: Stacks<E>, current: E)
    requires Fits(s) && s.back != []
    ensures var (t, entry) := Step(s, PopBack(current));
            t.forward == s.forward + [current] && entry.Some? && Line(t, entry.value) == Line(s, current)
  {
    hide Reverse;
    var init, last := s.back[..|s.back| - 1], s.back[|s.back| - 1];
    ReverseOne(s.forward, current);
    Shift(init, last, current, Reverse(s.forward));
    assert s.back == init + [last];
  }

  lemma ReverseOne<E>(xs: seq<E>, x: E)
    ensures Reverse(xs + [x]) == [x] + Reverse(xs)
  {
    assert (xs + [x])[..|xs|] == xs;
  }

  lemma Shift<E>(a: seq<E>, x: E, y: E, b: seq<E>)
    ensures a + [x] + ([y] + b) == a + [x] + [y] + b
  {
  }

  lemma ForwardKeepsTheLine<E>(s: Stacks<E>, current: E)
    requires Fits(s) && s.forward != []
    ensures var (t, entry) := Step(s, PopForward(current));
            t.back == s.back + [current] && entry.Some? && Line(t, entry.value) == Line(s, current)
  {
    assert Reverse(s.forward) == [s.forward[|s.forward| - 1]] + Reverse(s.forward[..|s.forward| - 1]);
  }

  /**
   So after any use the trims inside the two moves never fire, a move only
   shifts the current entry along the line, and the opposite move undoes it.
   */
  lemma MovesAreExact<E>(ops: seq<Op<E>>, current: E)
    ensures var s := Run(Stacks([], []), ops);
            && (s.back != [] ==>
                  var (t, entry) := Step(s, PopBack(current));
                  && t.forward == s.forward + [current] && Line(t, entry.value) == Line(s, current)
                  && Step(t, PopForward(entry.value)) == (s, Some(current)))
            && (s.forward != [] ==>
                  var (t, entry) := Step(s, PopForward(current));
                  && t.back == s.back + [current] && Line(t, entry.value) == Line(s, current)
                  && Step(t, PopBack(entry.value)) == (s, Some(current)))
  {
    hide Step, Line;
    var s := Run(Stacks([], []), ops);
    RunKeepsFits(Stacks([], []), ops);
    if s.back != [] {
      BackKeepsTheLine(s, current);
      BackThenForward(s, current);
    }
    if s.forward != [] {
      ForwardKeepsTheLine(s, current);
      ForwardThenBack(s, current);
    }
  }

  class History<E> {
    var back: seq<E>
    var forward: seq<E>

    ghost function Contents(): Stacks<E>
      reads this
    {
      Stacks(back, forward)
    }

    constructor ()
      ensures Contents() == Stacks([], [])
    {
      back, forward := [], [];
    }

    method Push(entry: E)
      modifies this
      ensures Contents() == Step(old(Contents()), Op.Push(entry)).0
    {
      forward := [];
      back := back + [entry];
      if |back| > MAX_HISTORY {
        back := back[1..];
      }
    }

    method PopBack(current: E) returns (r: Option<E>)
      modifies this
      ensures (Contents(), r) == Step(old(Contents()), Op.PopBack(current))
    {
      if back == [] {
        return None;
      }
      r := Some(back[|back| - 1]);
      back := back[..|back| - 1];
      forward := forward + [current];
      if |forward| > MAX_HISTORY {
        forward := forward[1..];
      }
    }

    method PopForward(current: E) returns (r: Option<E>)
      modifies this
      ensures (Contents(), r) == Step(old(Contents()), Op.PopForward(current))
    {
      if forward == [] {
        return None;
      }
      r := Some(forward[|forward| - 1]);
      forward := forward[..|forward| - 1];
      back := back + [current];
      if |back| > MAX_HISTORY {
        back := back[1..];
      }
    }
  }
}
