/** The parser as a function of its stack and of the tokens ahead: which rule matches, whether to shift first,
    and what the loop makes of a whole file.  Accepted trees are derivations, and the loop ends. */
module ShiftReduce {
  import opened Options
  import opened Tokens
  import opened Grammar

  // ---------- matching a rule against the top of the stack ----------

  /** The rest of a run of the starred non-terminal that ended the match. */
  function Absorb(nt: Nt, stack: seq<Node>, i: nat): (r: nat)
    requires i <= |stack|
    ensures r <= i
    decreases i
  {
    if i > 0 && TermEq(N(nt), stack[i - 1]) then Absorb(nt, stack, i - 1) else i
  }

  /** match_rule from the right: j terms and i nodes to go, `prev` the starred term just passed. */
  function Scan(rhs: seq<Term>, j: nat, prev: Option<Nt>, stack: seq<Node>, i: nat): (r: Option<nat>)
    requires j <= |rhs| && i <= |stack|
    ensures r.Some? ==> r.value <= i
    decreases i + j
  {
    if j == 0 then Some(if prev.Some? then Absorb(prev.value, stack, i) else i)
    else if i == 0 then None
    else
      var term, node := rhs[j - 1], stack[i - 1];
      if TermEq(term, node) then Scan(rhs, j - 1, if term.M? then Some(term.nt) else None, stack, i - 1)
      else if prev.Some? && TermEq(N(prev.value), node) then Scan(rhs, j, prev, stack, i - 1)
      else if term.M? then Scan(rhs, j - 1, None, stack, i)
      else None
  }

  /** Where the match begins; None also when nothing would be reduced. */
  function Match(rhs: seq<Term>, stack: seq<Node>): (r: Option<nat>)
    ensures r.Some? ==> r.value < |stack|
  {
    var r := Scan(rhs, |rhs|, None, stack, |stack|);
    if r.Some? && r.value < |stack| then r else None
  }

  /** Whatever spells the first k terms spells, with the nodes already passed, the whole right-hand side. */
  ghost predicate Extends(rhs: seq<Term>, k: nat, stack: seq<Node>, i: nat)
    requires k <= |rhs| && i <= |stack|
  {
    forall x: seq<Node> :: Spells(rhs[..k], x) ==> Spells(rhs, x + stack[i..])
  }

  lemma Joined(x: seq<Node>, stack: seq<Node>, i: nat)
    requires 0 < i <= |stack|
    ensures (x + [stack[i - 1]]) + stack[i..] == x + stack[i - 1..]
    ensures |x + [stack[i - 1]]| > 0 && (x + [stack[i - 1]])[..|x|] == x
  {
  }

  /** Passing a node with the term, or with one more repetition of a starred term. */
  lemma ExtendsNode(rhs: seq<Term>, k: nat, stack: seq<Node>, i: nat)
    requires 0 < k <= |rhs| && 0 < i <= |stack| && Extends(rhs, k, stack, i) && TermEq(rhs[k - 1], stack[i - 1])
    ensures Extends(rhs, if rhs[k - 1].M? then k else k - 1, stack, i - 1)
  {
    var k' := if rhs[k - 1].M? then k else k - 1;
    forall x: seq<Node> | Spells(rhs[..k'], x) ensures Spells(rhs, x + stack[i - 1..]) {
      Joined(x, stack, i);
      var y := x + [stack[i - 1]];
      assert rhs[..k][..k - 1] == rhs[..k - 1];
      assert Spells(rhs[..k], y);
    }
  }

  /** A starred term may stand for nothing. */
  lemma ExtendsSkip(rhs: seq<Term>, k: nat, stack: seq<Node>, i: nat)
    requires 0 < k <= |rhs| && i <= |stack| && Extends(rhs, k, stack, i) && rhs[k - 1].M?
    ensures Extends(rhs, k - 1, stack, i)
  {
    assert rhs[..k][..k - 1] == rhs[..k - 1];
    forall x: seq<Node> | Spells(rhs[..k - 1], x) ensures Spells(rhs, x + stack[i..]) {
      assert Spells(rhs[..k], x);
    }
  }

  lemma {:induction false} AbsorbSound(rhs: seq<Term>, stack: seq<Node>, i: nat)
    requires rhs != [] && rhs[0].M? && i <= |stack| && Extends(rhs, 1, stack, i)
    ensures Extends(rhs, 1, stack, Absorb(rhs[0].nt, stack, i))
    decreases i
  {
    hide Extends;
    if i > 0 && TermEq(N(rhs[0].nt), stack[i - 1]) {
      ExtendsNode(rhs, 1, stack, i);
      AbsorbSound(rhs, stack, i - 1);
    }
  }

  lemma {:induction false} ScanSound(rhs: seq<Term>, j: nat, prev: Option<Nt>, stack: seq<Node>, i: nat)
    requires j <= |rhs| && i <= |stack|
    requires prev.Some? ==> j < |rhs| && rhs[j] == M(prev.value)
    requires Extends(rhs, if prev.Some? then j + 1 else j, stack, i)
    ensures var r := Scan(rhs, j, prev, stack, i);
      r.Some? ==> Extends(rhs, 0, stack, r.value)
    decreases i + j
  {
    hide Extends, Absorb;
    if j == 0 {
      if prev.Some? {
        AbsorbSound(rhs, stack, i);
        ExtendsSkip(rhs, 1, stack, Absorb(prev.value, stack, i));
      }
    } else if i > 0 {
      var term, node := rhs[j - 1], stack[i - 1];
      if TermEq(term, node) {
        if prev.Some? {
          ExtendsSkip(rhs, j + 1, stack, i);
        }
        ExtendsNode(rhs, j, stack, i);
        ScanSound(rhs, j - 1, if term.M? then Some(term.nt) else None, stack, i - 1);
      } else if prev.Some? && TermEq(N(prev.value), node) {
        ExtendsNode(rhs, j + 1, stack, i);
        ScanSound(rhs, j, prev, stack, i - 1);
      } else if term.M? {
        if prev.Some? {
          ExtendsSkip(rhs, j + 1, stack, i);
        }
        ExtendsSkip(rhs, j, stack, i);
        ScanSound(rhs, j - 1, None, stack, i);
      }
    }
  }

  /** What match_rule finds on top of the stack spells the rule, starred terms read as zero or more. */
  lemma MatchSound(rhs: seq<Term>, stack: seq<Node>)
    ensures Match(rhs, stack).Some? ==> Spells(rhs, stack[Match(rhs, stack).value..])
  {
    var n := |stack|;
    assert rhs[..|rhs|] == rhs;
    assert Extends(rhs, |rhs|, stack, n) by {
      forall x: seq<Node> | Spells(rhs, x) ensures Spells(rhs, x + stack[n..]) {
        assert x + stack[n..] == x;
      }
    }
    ScanSound(rhs, |rhs|, None, stack, n);
    var r := Scan(rhs, |rhs|, None, stack, n);
    if r.Some? {
      assert rhs[..0] == [];
      assert [] + stack[r.value..] == stack[r.value..];
      assert Spells(rhs[..0], []);
    }
  }

  /** The first rule of the table, from i on, that matches. */
  function FirstRule(stack: seq<Node>, i: nat): (m: Option<(nat, nat)>)
    requires i <= SIZE
    ensures m.Some? ==> i <= m.value.0 < SIZE && m.value.1 < |stack|
    decreases SIZE - i
  {
    if i == SIZE then None
    else
      var at := Match(RuleAt(i).rhs, stack);
      if at.Some? then Some((i, at.value)) else FirstRule(stack, i + 1)
  }

  lemma {:induction false} FirstRuleMatches(stack: seq<Node>, i: nat)
    requires i <= SIZE
    ensures var m := FirstRule(stack, i);
      m.Some? ==> Match(RuleAt(m.value.0).rhs, stack) == Some(m.value.1)
    decreases SIZE - i
  {
    hide RuleAt, Match;
    if i < SIZE && Match(RuleAt(i).rhs, stack).None? {
      FirstRuleMatches(stack, i + 1);
    }
  }

  // ---------- shift or reduce ----------

  function Precedence(tk: nat): nat {
    if tk <= ASOR then 14
    else if tk == COLN || tk == MEMB || tk == AROW then 1
    else if tk == SCOP then 0
    else if tk == ATSI || tk == CAST then 2
    else if tk == EQUL || tk == NEQL then 7
    else if LTHN <= tk <= GTEQ then 6
    else if tk == CONJ then 11
    else if tk == DISJ then 12
    else if tk == PLUS || tk == MINS then 4
    else if tk == MULT || tk == DIVI || tk == MODU then 3
    else if tk == LSHF || tk == RSHF then 5
    else if tk == AMPS then 8
    else if tk == CARE then 9
    else if tk == PIPE then 10
    else if tk == COMA then 15
    else 13
  }

  predicate RightAssociative(op: nat) {
    IsAssignment(op) || op == COLN || op == COMA || op == SCOP
  }

  /** Of two binary operators in a row, does the second one take the operand between them? */
  predicate Yields(op: nat, ahead: nat) {
    Precedence(op) > Precedence(ahead) || (Precedence(op) == Precedence(ahead) && RightAssociative(op))
  }

  /** should_shift_pre, given the next token that is not skipped. */
  predicate ShiftPre(rule: Rule, ahead: nat) {
    if rule.lhs == Bexp && |rule.rhs| >= 2 && rule.rhs[|rule.rhs| - 2].T? then
      var op := rule.rhs[|rule.rhs| - 2].tk;
      if ASSN <= ahead <= QUES then Yields(op, ahead)
      else if ahead == LPAR || ahead == LBRA || ahead == INCR || ahead == DECR then
        !(op == SCOP || op == MEMB || op == AROW)
      else false
    else if rule.lhs == Uexp then
      || ahead == LPAR || ahead == LBRA || ahead == SCOP || ahead == COLN || ahead == MEMB || ahead == AROW
      || ahead == ATSI || ahead == INCR || ahead == DECR
    else if rule.lhs == Texp then
      !(IsAssignment(ahead) || ahead == COMA || ahead == RPAR || ahead == RBRA || ahead == SCOL)
    else if rule.lhs == Stmt && rule.rhs != [] && rule.rhs[|rule.rhs| - 1] == T(RBRC) then ahead == WHIL
    else rule.lhs == Qual && rule.rhs != [] && rule.rhs[|rule.rhs| - 1] == T(EXPO) && ahead == TYPE
  }

  /** should_shift_post */
  predicate ShiftPost(rule: Rule, ahead: nat) {
    (rule.lhs == Cond || rule.lhs == Elif) && (ahead == ELIF || ahead == ELSE)
  }

  // ---------- the loop ----------

  function DropSkipped(rest: seq<Token>): (r: seq<Token>)
    ensures |r| <= |rest|
    ensures r != [] ==> !Skipped(r[0])
  {
    if rest != [] && Skipped(rest[0]) then DropSkipped(rest[1..]) else rest
  }

  /** The end marker comes last and only last. */
  predicate Marked(rest: seq<Token>) {
    rest != [] ==> rest[|rest| - 1].tk == FEND && forall k :: 0 <= k < |rest| - 1 ==> rest[k].tk != FEND
  }

  predicate Final(n: Node) {
    (n.Leaf? && n.token.tk == FEND) || (n.Branch? && n.nt == Unit)
  }

  predicate Sane(stack: seq<Node>, rest: seq<Token>) {
    stack != [] && Marked(rest) && (rest == [] ==> Final(stack[|stack| - 1]))
  }

  lemma {:induction false} DropKeepsMark(rest: seq<Token>)
    requires Marked(rest) && rest != []
    ensures DropSkipped(rest) != [] && Marked(DropSkipped(rest))
    ensures var r := DropSkipped(rest); Marked(r[1..]) && (r[1..] == [] ==> r[0].tk == FEND)
    decreases |rest|
  {
    if Skipped(rest[0]) {
      assert rest[1..] != [];
      DropKeepsMark(rest[1..]);
    }
  }

  lemma WholeFileRule()
    ensures RuleAt(0) == Rule(Unit, [T(FBEG), M(Stmt), T(FEND)])
  {
  }

  /** Only the rule for the whole file matches when the end has been shifted: nothing looks past it. */
  lemma NothingAfterTheEnd(stack: seq<Node>, m: (nat, nat))
    requires FirstRule(stack, 0) == Some(m) && stack != [] && Final(stack[|stack| - 1])
    ensures RuleAt(m.0).lhs == Unit
  {
    hide FirstRule, Match, RuleAt, Spells;
    WholeFileRule();
    FirstRuleMatches(stack, 0);
    MatchSound(RuleAt(m.0).rhs, stack);
    var nodes := stack[m.1..];
    var k := LastIsTerm(RuleAt(m.0).rhs, nodes);
    if m.0 > 0 {
      OnlyUnitEnds(m.0, k);
    }
  }

  function Reduced(stack: seq<Node>, m: (nat, nat)): (s: seq<Node>)
    requires m.0 < SIZE && m.1 < |stack|
    ensures |s| == m.1 + 1
  {
    stack[..m.1] + [Branch(RuleAt(m.0).lhs, stack[m.1..])]
  }

  /** A reduction makes the stack smaller, or its top strictly lower in rank. */
  lemma ReductionShrinks(stack: seq<Node>, m: (nat, nat))
    requires FirstRule(stack, 0) == Some(m) && stack != []
    ensures var s := Reduced(stack, m);
      |s| < |stack| || (|s| == |stack| && Rank(s[|s| - 1]) < Rank(stack[|stack| - 1]))
  {
    hide RuleAt;
    if m.1 == |stack| - 1 {
      FirstRuleMatches(stack, 0);
      MatchSound(RuleAt(m.0).rhs, stack);
      assert stack[m.1..] == [stack[m.1]];
      RenamingRanksDown(m.0, stack[m.1]);
    }
  }

  /** parse from `try_reduce_again` on. */
  function Loop(stack: seq<Node>, rest: seq<Token>): (s: seq<Node>)
    requires Sane(stack, rest)
    ensures s != []
    decreases |rest|, |stack|, Rank(stack[|stack| - 1])
  {
    match FirstRule(stack, 0)
    case None =>
      if rest == [] then stack
      else
        DropKeepsMark(rest);
        var ahead := DropSkipped(rest);
        Loop(stack + [Leaf(ahead[0])], ahead[1..])
    case Some(m) =>
      ReductionShrinks(stack, m);
      if RuleAt(m.0).lhs == Unit then Loop(Reduced(stack, m), rest)
      else
        if rest == [] then
          NothingAfterTheEnd(stack, m);
          stack
        else
          DropKeepsMark(rest);
          var ahead := DropSkipped(rest);
          var pre := ShiftPre(RuleAt(m.0), ahead[0].tk);
          var s := if pre then stack else Reduced(stack, m);
          if pre || ShiftPost(RuleAt(m.0), ahead[0].tk) then Loop(s + [Leaf(ahead[0])], ahead[1..])
          else Loop(s, ahead)
  }

  /** The stack the whole file leaves. */
  function Outcome(tokens: seq<Token>): seq<Node>
    requires Marked(tokens)
  {
    if tokens == [] then []
    else
      DropKeepsMark(tokens);
      var ahead := DropSkipped(tokens);
      Loop([Leaf(ahead[0])], ahead[1..])
  }

  predicate Accepted(stack: seq<Node>) {
    |stack| == 1 && stack[0].Branch? && stack[0].nt == Unit
  }

  // ---------- one step at a time ----------

  lemma ReducedLast(stack: seq<Node>, m: (nat, nat))
    requires FirstRule(stack, 0) == Some(m)
    ensures m.0 < SIZE && m.1 < |stack|
    ensures var s := Reduced(stack, m);
      s != [] && (RuleAt(m.0).lhs == Unit ==> Final(s[|s| - 1]))
  {
    hide RuleAt;
  }

  lemma LoopUnfolds(stack: seq<Node>, rest: seq<Token>, m: (nat, nat))
    requires Sane(stack, rest) && FirstRule(stack, 0) == Some(m)
    ensures RuleAt(m.0).lhs == Unit ==>
      Sane(Reduced(stack, m), rest) && Loop(stack, rest) == Loop(Reduced(stack, m), rest)
    ensures RuleAt(m.0).lhs != Unit ==> rest != [] && DropSkipped(rest) != [] && Marked(rest)
    ensures RuleAt(m.0).lhs != Unit ==>
      var ahead := DropSkipped(rest);
      var pre := ShiftPre(RuleAt(m.0), ahead[0].tk);
      var s := if pre then stack else Reduced(stack, m);
      if pre || ShiftPost(RuleAt(m.0), ahead[0].tk)
      then Sane(s + [Leaf(ahead[0])], ahead[1..]) && Loop(stack, rest) == Loop(s + [Leaf(ahead[0])], ahead[1..])
      else Sane(s, ahead) && Loop(stack, rest) == Loop(s, ahead)
  {
    hide RuleAt, FirstRule, ShiftPre, ShiftPost, Rank, DropSkipped, Marked, Reduced;
    ReducedLast(stack, m);
    if RuleAt(m.0).lhs != Unit {
      if rest == [] {
        NothingAfterTheEnd(stack, m);
      } else {
        DropKeepsMark(rest);
      }
    }
  }

  lemma LoopShifts(stack: seq<Node>, rest: seq<Token>)
    requires rest != [] && Sane(stack, rest) && FirstRule(stack, 0).None?
    ensures DropSkipped(rest) != []
    ensures var ahead := DropSkipped(rest);
      Sane(stack + [Leaf(ahead[0])], ahead[1..]) && Loop(stack, rest) == Loop(stack + [Leaf(ahead[0])], ahead[1..])
  {
    hide FirstRule, Rank, DropSkipped;
    DropKeepsMark(rest);
  }

  lemma LoopEnds(stack: seq<Node>)
    requires stack != [] && Sane(stack, []) && FirstRule(stack, 0).None?
    ensures Loop(stack, []) == stack
  {
    hide FirstRule;
  }

  // ---------- soundness ----------

  function Kept(ts: seq<Token>): seq<Token> {
    if ts == [] then [] else if Skipped(ts[0]) then Kept(ts[1..]) else [ts[0]] + Kept(ts[1..])
  }

  lemma {:induction false} KeptDrop(ts: seq<Token>)
    ensures Kept(DropSkipped(ts)) == Kept(ts)
  {
    if ts != [] && Skipped(ts[0]) {
      KeptDrop(ts[1..]);
    }
  }

  ghost predicate AllDerived(ns: seq<Node>) {
    forall k :: 0 <= k < |ns| ==> Derived(ns[k])
  }

  lemma ReducedDerived(stack: seq<Node>, m: (nat, nat))
    requires FirstRule(stack, 0) == Some(m) && AllDerived(stack)
    ensures AllDerived(Reduced(stack, m)) && LeavesOf(Reduced(stack, m)) == LeavesOf(stack)
  {
    FirstRuleMatches(stack, 0);
    MatchSound(RuleAt(m.0).rhs, stack);
    hide RuleAt, Match;
    var kids := stack[m.1..];
    var n := Branch(RuleAt(m.0).lhs, kids);
    assert Derived(n) by {
      assert RuleAt(m.0).lhs == n.nt && Spells(RuleAt(m.0).rhs, n.kids);
    }
    LeavesConcat(stack[..m.1], kids);
    LeavesConcat(stack[..m.1], [n]);
    assert stack == stack[..m.1] + kids;
    assert LeavesOf([n]) == Leaves(n) + LeavesOf([]);
  }

  lemma ShiftedLeaves(stack: seq<Node>, t: Token)
    requires AllDerived(stack)
    ensures LeavesOf(stack + [Leaf(t)]) == LeavesOf(stack) + [t] && AllDerived(stack + [Leaf(t)])
  {
    LeavesConcat(stack, [Leaf(t)]);
    assert LeavesOf([Leaf(t)]) == Leaves(Leaf(t)) + LeavesOf([]);
    assert Derived(Leaf(t));
  }

  /** Every step keeps the stack a sequence of derivations over exactly the tokens consumed. */
  lemma {:induction false} LoopSound(stack: seq<Node>, rest: seq<Token>)
    requires Sane(stack, rest) && AllDerived(stack)
    ensures AllDerived(Loop(stack, rest)) && LeavesOf(Loop(stack, rest)) == LeavesOf(stack) + Kept(rest)
    decreases |rest|, |stack|, Rank(stack[|stack| - 1])
  {
    hide FirstRule, RuleAt, AllDerived, ShiftPre, ShiftPost, Rank, Leaves, LeavesOf;
    match FirstRule(stack, 0)
    case None =>
      if rest == [] {
        assert LeavesOf(stack) + Kept(rest) == LeavesOf(stack);
      } else {
        ShiftSound(stack, stack, rest);
      }
    case Some(m) =>
      ReductionShrinks(stack, m);
      ReducedDerived(stack, m);
      if RuleAt(m.0).lhs == Unit {
        LoopSound(Reduced(stack, m), rest);
      } else if rest == [] {
        NothingAfterTheEnd(stack, m);
      } else {
        DropKeepsMark(rest);
        KeptDrop(rest);
        var ahead := DropSkipped(rest);
        var pre := ShiftPre(RuleAt(m.0), ahead[0].tk);
        var s := if pre then stack else Reduced(stack, m);
        if pre || ShiftPost(RuleAt(m.0), ahead[0].tk) {
          ShiftSound(stack, s, rest);
        } else {
          LoopSound(s, ahead);
        }
      }
  }

  lemma KeptFirst(ts: seq<Token>)
    requires ts != [] && !Skipped(ts[0])
    ensures Kept(ts) == [ts[0]] + Kept(ts[1..])
  {
  }

  lemma FinalLeaf(t: Token)
    ensures Final(Leaf(t)) <==> t.tk == FEND
  {
  }

  lemma LeavesOne(n: Node)
    ensures LeavesOf([n]) == Leaves(n)
  {
    assert LeavesOf([n]) == Leaves(n) + LeavesOf([]);
  }

  lemma LeafDerived(t: Token)
    ensures AllDerived([Leaf(t)]) && Leaves(Leaf(t)) == [t]
  {
  }

  lemma {:induction false} ShiftSound(stack: seq<Node>, s: seq<Node>, rest: seq<Token>)
    requires stack != [] && s != [] && rest != [] && Marked(rest) && AllDerived(s) && LeavesOf(s) == LeavesOf(stack)
    ensures DropSkipped(rest) != [] && Sane(s + [Leaf(DropSkipped(rest)[0])], DropSkipped(rest)[1..])
    ensures var ahead := DropSkipped(rest);
      var l := Loop(s + [Leaf(ahead[0])], ahead[1..]);
      AllDerived(l) && LeavesOf(l) == LeavesOf(stack) + Kept(rest)
    decreases |rest|, 0, 0
  {
    hide FirstRule, RuleAt, AllDerived, ShiftPre, ShiftPost, Rank, Leaves, LeavesOf, Loop, Kept, DropSkipped, Marked;
    DropKeepsMark(rest);
    KeptDrop(rest);
    var ahead := DropSkipped(rest);
    KeptFirst(ahead);
    FinalLeaf(ahead[0]);
    ShiftedLeaves(s, ahead[0]);
    LoopSound(s + [Leaf(ahead[0])], ahead[1..]);
    assert LeavesOf(s) + [ahead[0]] + Kept(ahead[1..]) == LeavesOf(s) + ([ahead[0]] + Kept(ahead[1..]));
  }

  /** Soundness: whatever is accepted is a derivation of a whole file, and its leaves are exactly the tokens that
      are not whitespace or comments, in order. */
  lemma ParserSound(tokens: seq<Token>)
    requires Marked(tokens) && Accepted(Outcome(tokens))
    ensures var root := Outcome(tokens)[0];
      root.Branch? && root.nt == Unit && Derived(root) && Leaves(root) == Kept(tokens)
  {
    hide Loop, Derived, AllDerived, Leaves, LeavesOf, Kept, DropSkipped, Marked;
    if tokens != [] {
      DropKeepsMark(tokens);
      KeptDrop(tokens);
      var ahead := DropSkipped(tokens);
      KeptFirst(ahead);
      FinalLeaf(ahead[0]);
      LeafDerived(ahead[0]);
      LeavesOne(Leaf(ahead[0]));
      LoopSound([Leaf(ahead[0])], ahead[1..]);
      var root := Outcome(tokens)[0];
      assert Outcome(tokens) == [root];
      LeavesOne(root);
      FirstDerived([root]);
    }
  }

  lemma FirstDerived(ns: seq<Node>)
    requires AllDerived(ns) && ns != []
    ensures Derived(ns[0])
  {
  }

  // ---------- whitespace and comments ----------

  lemma {:induction false} KeptElements(ts: seq<Token>)
    ensures forall k :: 0 <= k < |Kept(ts)| ==> !Skipped(Kept(ts)[k]) && Kept(ts)[k] in ts
  {
    hide Skipped;
    if ts != [] {
      KeptElements(ts[1..]);
    }
  }

  lemma MarkedTail(ts: seq<Token>, tail: seq<Token>)
    requires ts != [] && Marked(tail) && (tail == [] ==> ts[0].tk == FEND) && (tail != [] ==> ts[0].tk != FEND)
    ensures Marked([ts[0]] + tail)
  {
  }

  lemma EndMarked(ts: seq<Token>)
    requires Marked(ts) && ts != []
    ensures ts[1..] == [] <==> ts[0].tk == FEND
  {
  }

  lemma {:induction false} KeptMarked(ts: seq<Token>)
    requires Marked(ts)
    ensures Marked(Kept(ts)) && (Kept(ts) == [] <==> ts == [])
    ensures forall k :: 0 <= k < |Kept(ts)| ==> !Skipped(Kept(ts)[k]) && Kept(ts)[k] in ts
  {
    hide Skipped, Marked;
    KeptElements(ts);
    if ts != [] {
      TailMarked(ts);
      EndMarked(ts);
      KeptMarked(ts[1..]);
      MarkedTail(ts, Kept(ts[1..]));
    }
  }

  lemma TailMarked(rest: seq<Token>)
    requires Marked(rest) && rest != []
    ensures Marked(rest[1..]) && (rest[1..] == [] ==> rest[0].tk == FEND) && (Skipped(rest[0]) ==> rest[1..] != [])
  {
    if |rest| > 1 {
      assert rest[1..][|rest| - 2] == rest[|rest| - 1];
    }
  }

  lemma DropNothing(ts: seq<Token>)
    requires ts != [] && !Skipped(ts[0])
    ensures DropSkipped(ts) == ts
  {
  }

  /** The look-ahead over a whole text and over its kept tokens sees the same token. */
  lemma KeptAhead(rest: seq<Token>)
    requires rest != [] && Marked(rest)
    ensures var ahead, kept := DropSkipped(rest), Kept(rest);
      && ahead != [] && kept != [] && Marked(kept) && DropSkipped(kept) == kept
      && Kept(ahead) == kept && kept[0] == ahead[0] && kept[1..] == Kept(ahead[1..])
  {
    hide DropSkipped, Marked, Kept;
    DropKeepsMark(rest);
    KeptDrop(rest);
    KeptMarked(rest);
    KeptFirst(DropSkipped(rest));
    DropNothing(Kept(rest));
  }

  lemma SaneKept(stack: seq<Node>, rest: seq<Token>)
    requires Sane(stack, rest)
    ensures stack != [] && Marked(rest) && Sane(stack, Kept(rest)) && (Kept(rest) == [] <==> rest == [])
  {
    hide Marked, Kept;
    KeptMarked(rest);
  }

  /** Whitespace and comments make no difference to what the loop leaves. */
  lemma {:induction false} LoopKept(stack: seq<Node>, rest: seq<Token>)
    requires Sane(stack, rest)
    ensures Sane(stack, Kept(rest)) && Loop(stack, rest) == Loop(stack, Kept(rest))
    decreases |rest|, |stack|, Rank(stack[|stack| - 1])
  {
    hide *;
    SaneKept(stack, rest);
    match FirstRule(stack, 0)
    case None =>
      if rest == [] {
        assert Kept(rest) == [] == rest;
      } else {
        KeptAhead(rest);
        LoopShifts(stack, rest);
        LoopShifts(stack, Kept(rest));
        var ahead := DropSkipped(rest);
        LoopKept(stack + [Leaf(ahead[0])], ahead[1..]);
      }
    case Some(m) =>
      ReductionShrinks(stack, m);
      LoopUnfolds(stack, rest, m);
      LoopUnfolds(stack, Kept(rest), m);
      if RuleAt(m.0).lhs == Unit {
        LoopKept(Reduced(stack, m), rest);
      } else {
        KeptAhead(rest);
        var ahead := DropSkipped(rest);
        var pre := ShiftPre(RuleAt(m.0), ahead[0].tk);
        var s := if pre then stack else Reduced(stack, m);
        if pre || ShiftPost(RuleAt(m.0), ahead[0].tk) {
          LoopKept(s + [Leaf(ahead[0])], ahead[1..]);
        } else {
          LoopKept(s, ahead);
        }
      }
  }

  /** Two files that differ only in whitespace and comments parse alike. */
  lemma OutcomeKept(tokens: seq<Token>)
    requires Marked(tokens)
    ensures Marked(Kept(tokens)) && Outcome(tokens) == Outcome(Kept(tokens))
  {
    hide Loop, Kept, DropSkipped, Marked;
    KeptMarked(tokens);
    if tokens != [] {
      KeptAhead(tokens);
      DropKeepsMark(tokens);
      var ahead := DropSkipped(tokens);
      FinalLeaf(ahead[0]);
      LoopKept([Leaf(ahead[0])], ahead[1..]);
    }
  }
}
