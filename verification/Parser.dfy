/** The parser as it runs: a stack of nodes shifted onto and reduced in place, and a cursor into the tokens that
    the look-ahead itself moves over whitespace and comments. */
module Parser {
  import opened Options
  import opened Tokens
  import opened Grammar
  import opened ShiftReduce

  class Parser {
    var nodes: seq<Node>

    constructor ()
      ensures nodes == []
    {
      nodes := [];
    }

    /** match_rule: the place and the size of the reduction, size 0 for none. */
    method MatchRule(rhs: seq<Term>) returns (at: nat, size: nat)
      requires nodes != [] && rhs != []
      ensures size == 0 <==> Match(rhs, nodes).None?
      ensures size > 0 ==> Match(rhs, nodes) == Some(at) && size == |nodes| - at
    {
      hide TermEq;
      var prev: Option<Nt> := None;
      var term, st := |rhs|, |nodes|;
      var failed, more := false, true;
      while more
        invariant 0 <= term <= |rhs| && 0 <= st <= |nodes|
        invariant more ==> term > 0 && st > 0 && !failed
        invariant !more && !failed ==> term == 0 || st == 0
        invariant Scan(rhs, |rhs|, None, nodes, |nodes|) == if failed then None else Scan(rhs, term, prev, nodes, st)
        decreases st + term, more
      {
        var t, node := rhs[term - 1], nodes[st - 1];
        if TermEq(t, node) {
          prev := if t.M? then Some(t.nt) else None;
          term, st := term - 1, st - 1;
        } else if prev.Some? && TermEq(N(prev.value), node) {
          st := st - 1;
        } else if t.M? {
          prev := None;
          term := term - 1;
        } else {
          failed := true;
        }
        more := !failed && st > 0 && term > 0;
      }
      if failed || term > 0 {
        return 0, 0;
      }
      if prev.Some? {
        while st > 0 && TermEq(N(prev.value), nodes[st - 1])
          invariant 0 <= st <= |nodes|
          invariant Scan(rhs, |rhs|, None, nodes, |nodes|) == Some(Absorb(prev.value, nodes, st))
        {
          st := st - 1;
        }
      }
      return st, |nodes| - st;
    }

    method Shift(t: Token)
      modifies this
      ensures nodes == old(nodes) + [Leaf(t)]
    {
      nodes := nodes + [Leaf(t)];
    }

    /** The nodes from `at` on become the children of one new node in their place. */
    method Reduce(rule: nat, at: nat)
      requires rule < SIZE && at < |nodes|
      modifies this
      ensures nodes == Reduced(old(nodes), (rule, at))
    {
      nodes := nodes[..at] + [Branch(RuleAt(rule).lhs, nodes[at..])];
    }

    /** The look-ahead's own loop over whitespace and comments. */
    method Skip(tokens: seq<Token>, idx: nat) returns (next: nat)
      requires idx < |tokens| && Marked(tokens[idx..])
      ensures idx <= next < |tokens| && tokens[next..] == DropSkipped(tokens[idx..]) && !Skipped(tokens[next])
    {
      hide *;
      next := idx;
      DropKeepsMark(tokens[idx..]);
      SkipStep(tokens, next);
      while Skipped(tokens[next])
        invariant idx <= next < |tokens| && DropSkipped(tokens[idx..]) == DropSkipped(tokens[next..])
        invariant DropSkipped(tokens[next..]) != []
        decreases |tokens| - next
      {
        SkipStep(tokens, next);
        next := next + 1;
      }
      SkipStep(tokens, next);
    }

    /** One pass over the grammar: the first rule that matches is acted on.  `acted` is the jump back to
        try_reduce_again; the cursor never leaves the array. */
    method TryReduce(tokens: seq<Token>, idx: nat) returns (acted: bool, next: nat)
      requires idx <= |tokens| && Sane(nodes, tokens[idx..])
      modifies this
      ensures idx <= next <= |tokens| && Sane(nodes, tokens[next..])
      ensures Loop(nodes, tokens[next..]) == Loop(old(nodes), tokens[idx..])
      ensures !acted ==> nodes == old(nodes) && next == idx && FirstRule(nodes, 0).None?
      ensures acted ==> next > idx || Smaller(nodes, old(nodes))
    {
      hide RuleAt, Match, ShiftPre, ShiftPost, Rank, DropSkipped, Reduced, Marked;
      acted, next := false, idx;
      var i := 0;
      while i < SIZE
        invariant 0 <= i <= SIZE && nodes == old(nodes) && next == idx && !acted
        invariant FirstRule(nodes, 0) == FirstRule(nodes, i)
      {
        RuleNotEmpty(i);
        var at, size := MatchRule(RuleAt(i).rhs);
        if size > 0 {
          next := Act(tokens, idx, i, at);
          return true, next;
        }
        i := i + 1;
      }
    }

    /** What a matching rule leads to: shift first, or reduce, and perhaps shift then. */
    method Act(tokens: seq<Token>, idx: nat, rule: nat, at: nat) returns (next: nat)
      requires idx <= |tokens| && Sane(nodes, tokens[idx..]) && FirstRule(nodes, 0) == Some((rule, at))
      modifies this
      ensures idx <= next <= |tokens| && Sane(nodes, tokens[next..])
      ensures Loop(nodes, tokens[next..]) == Loop(old(nodes), tokens[idx..])
      ensures next > idx || Smaller(nodes, old(nodes))
    {
      hide RuleAt, Match, FirstRule, ShiftPre, ShiftPost, Rank, DropSkipped, Reduced, Marked;
      ghost var was := nodes;
      ReductionShrinks(nodes, (rule, at));
      LoopUnfolds(was, tokens[idx..], (rule, at));
      next := idx;
      if RuleAt(rule).lhs == Unit {
        Reduce(rule, at);
        return;
      }
      next := Skip(tokens, idx);
      assert tokens[next..][0] == tokens[next] && tokens[next..][1..] == tokens[next + 1..];
      var pre := ShiftPre(RuleAt(rule), tokens[next].tk);
      if !pre {
        Reduce(rule, at);
      }
      if pre || ShiftPost(RuleAt(rule), tokens[next].tk) {
        Shift(tokens[next]);
        next := next + 1;
      }
    }

    /** parse: the root of the tree, or nothing. */
    method Parse(tokens: seq<Token>) returns (root: Option<Node>)
      requires nodes == [] && Marked(tokens)
      modifies this
      ensures root == if Accepted(Outcome(tokens)) then Some(Outcome(tokens)[0]) else None
    {
      hide Loop, FirstRule, Rank, DropSkipped, Marked;
      var idx := 0;
      assert tokens[0..] == tokens;
      while idx < |tokens|
        invariant 0 <= idx <= |tokens| && Marked(tokens[idx..])
        invariant if nodes == [] then Outcome(tokens) == Outcome(tokens[idx..])
                  else Sane(nodes, tokens[idx..]) && FirstRule(nodes, 0).None? && Outcome(tokens) == Loop(nodes, tokens[idx..])
        decreases |tokens| - idx
      {
        ghost var was, rest := nodes, tokens[idx..];
        assert rest[0] == tokens[idx] && rest[1..] == tokens[idx + 1..];
        NextToken(was, rest);
        if Skipped(tokens[idx]) {
          idx := idx + 1;
          continue;
        }
        Shift(tokens[idx]);
        idx := idx + 1;
        var again := true;
        while again
          invariant 0 < idx <= |tokens| && |tokens| - idx < |rest|
          invariant Sane(nodes, tokens[idx..]) && Outcome(tokens) == Loop(nodes, tokens[idx..])
          invariant !again ==> FirstRule(nodes, 0).None?
          decreases |tokens| - idx, |nodes|, Rank(nodes[|nodes| - 1]), again
        {
          again, idx := TryReduce(tokens, idx);
        }
        SaneMarked(nodes, tokens[idx..]);
      }
      assert tokens[idx..] == [];
      if nodes != [] {
        LoopEnds(nodes);
      }
      root := if Accepted(nodes) then Some(nodes[0]) else None;
    }
  }

  /** What a reduction does to the measure of the loop. */
  predicate Smaller(s: seq<Node>, stack: seq<Node>) {
    s != [] && stack != [] &&
    (|s| < |stack| || (|s| == |stack| && Rank(s[|s| - 1]) < Rank(stack[|stack| - 1])))
  }

  lemma SaneMarked(stack: seq<Node>, rest: seq<Token>)
    requires Sane(stack, rest)
    ensures Marked(rest)
  {
  }

  lemma RuleNotEmpty(i: nat)
    requires i < SIZE
    ensures RuleAt(i).rhs != []
  {
    RuleShapes(i);
  }

  /** The outer loop: skipping a token, or shifting one when nothing matches. */
  lemma NextToken(stack: seq<Node>, rest: seq<Token>)
    requires rest != [] && Marked(rest) && (stack != [] ==> Sane(stack, rest) && FirstRule(stack, 0).None?)
    ensures Marked(rest[1..])
    ensures Skipped(rest[0]) ==> rest[1..] != []
    ensures Skipped(rest[0]) && stack == [] ==> Outcome(rest) == Outcome(rest[1..])
    ensures Skipped(rest[0]) && stack != [] ==> Sane(stack, rest[1..]) && Loop(stack, rest) == Loop(stack, rest[1..])
    ensures !Skipped(rest[0]) ==> Sane(stack + [Leaf(rest[0])], rest[1..])
    ensures !Skipped(rest[0]) && stack == [] ==> Outcome(rest) == Loop(stack + [Leaf(rest[0])], rest[1..])
    ensures !Skipped(rest[0]) && stack != [] ==> Loop(stack, rest) == Loop(stack + [Leaf(rest[0])], rest[1..])
  {
    hide FirstRule, Rank, Loop, DropSkipped, Marked;
    TailMarked(rest);
    DropStep(rest);
    DropKeepsMark(rest);
    if stack == [] {
      assert stack + [Leaf(rest[0])] == [Leaf(rest[0])];
    } else {
      LoopShifts(stack, rest);
    }
    if Skipped(rest[0]) {
      DropKeepsMark(rest[1..]);
      if stack != [] {
        LoopShifts(stack, rest[1..]);
      }
    }
  }

  lemma SkipStep(tokens: seq<Token>, next: nat)
    requires next < |tokens| && DropSkipped(tokens[next..]) != []
    ensures if Skipped(tokens[next])
            then next + 1 < |tokens| && DropSkipped(tokens[next..]) == DropSkipped(tokens[next + 1..])
            else DropSkipped(tokens[next..]) == tokens[next..]
  {
    hide DropSkipped, Skipped;
    assert tokens[next..][0] == tokens[next] && tokens[next..][1..] == tokens[next + 1..];
    DropStep(tokens[next..]);
  }

  lemma DropStep(rest: seq<Token>)
    requires rest != []
    ensures DropSkipped(rest) == if Skipped(rest[0]) then DropSkipped(rest[1..]) else rest
  {
  }
}
