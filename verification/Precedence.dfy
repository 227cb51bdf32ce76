/** Chains of operands and binary operators: the trees that respect precedence and associativity, why there is
    only one for each chain, and that the shift-reduce loop builds it. */
module Precedence {
  import opened Options
  import opened Tokens
  import opened Grammar
  import opened ShiftReduce

  datatype Tree = Operand(tok: Token) | Binary(l: Tree, op: Token, r: Tree)

  predicate IsOperand(t: Token) {
    t.tk == NAME || t.tk == NMBR || t.tk == STRL
  }

  predicate IsBinary(t: Token) {
    ASSN <= t.tk <= CAST
  }

  /** The tokens of a tree, left to right. */
  function Flat(t: Tree): (ts: seq<Token>)
    ensures |ts| % 2 == 1
  {
    match t
    case Operand(x) => [x]
    case Binary(l, op, r) => Flat(l) + [op] + Flat(r)
  }

  /** A left child's operator does not yield to its parent's: it binds tighter, or equally without associating to
      the right.  The parent's yields to a right child's. */
  predicate Fits(t: Tree) {
    t.Binary? ==>
      && Fits(t.l) && Fits(t.r)
      && (t.l.Binary? ==> !Yields(t.l.op.tk, t.op.tk))
      && (t.r.Binary? ==> Yields(t.op.tk, t.r.op.tk))
  }

  // ---------- only one tree fits ----------

  /** An operator that yields to the root of a fitting tree yields to every operator in it. */
  lemma {:induction false} YieldsToAll(p: nat, t: Tree)
    requires Fits(t) && (t.Binary? ==> Yields(p, t.op.tk))
    ensures forall k :: 0 <= k < |Flat(t)| && k % 2 == 1 ==> Yields(p, Flat(t)[k].tk)
    decreases t
  {
    hide Precedence, RightAssociative;
    if t.Binary? {
      if t.l.Binary? {
        assert Yields(p, t.l.op.tk);
      }
      if t.r.Binary? {
        assert Yields(p, t.r.op.tk);
      }
      YieldsToAll(p, t.l);
      YieldsToAll(p, t.r);
      var n := |Flat(t.l)|;
      forall k | 0 <= k < |Flat(t)| && k % 2 == 1 ensures Yields(p, Flat(t)[k].tk) {
        if k > n {
          assert Flat(t)[k] == Flat(t.r)[k - n - 1];
        }
      }
    }
  }

  /** When the root of a fitting tree does not yield to an operator, nothing in the tree does. */
  lemma {:induction false} NoneYields(t: Tree, p: nat)
    requires Fits(t) && (t.Binary? ==> !Yields(t.op.tk, p))
    ensures forall k :: 0 <= k < |Flat(t)| && k % 2 == 1 ==> !Yields(Flat(t)[k].tk, p)
    decreases t
  {
    hide Precedence, RightAssociative;
    if t.Binary? {
      if t.l.Binary? {
        assert !Yields(t.l.op.tk, p);
      }
      if t.r.Binary? {
        assert !Yields(t.r.op.tk, p);
      }
      NoneYields(t.l, p);
      NoneYields(t.r, p);
      var n := |Flat(t.l)|;
      forall k | 0 <= k < |Flat(t)| && k % 2 == 1 ensures !Yields(Flat(t)[k].tk, p) {
        if k > n {
          assert Flat(t)[k] == Flat(t.r)[k - n - 1];
        }
      }
    }
  }

  /** Where each part of a binary tree lies in its chain. */
  lemma FlatAt(t: Tree, k: nat)
    requires t.Binary? && k < |Flat(t)|
    ensures var n := |Flat(t.l)|;
      Flat(t)[k] == if k < n then Flat(t.l)[k] else if k == n then t.op else Flat(t.r)[k - n - 1]
  {
  }

  lemma SameSplit(a: Tree, b: Tree)
    requires a.Binary? && b.Binary? && Fits(a) && Fits(b) && Flat(a) == Flat(b)
    ensures |Flat(a.l)| >= |Flat(b.l)|
  {
    hide Yields, Flat;
    var i, j := |Flat(a.l)|, |Flat(b.l)|;
    if i < j {
      FlatLengths(a);
      FlatLengths(b);
      YieldsToAll(a.op.tk, a.r);
      NoneYields(b.l, b.op.tk);
      FlatAt(a, i);
      FlatAt(b, i);
      FlatAt(a, j);
      FlatAt(b, j);
    }
  }

  lemma FlatLengths(t: Tree)
    requires t.Binary?
    ensures |Flat(t)| == |Flat(t.l)| + 1 + |Flat(t.r)|
  {
  }

  /** Two fitting trees over the same chain are the same tree. */
  lemma {:induction false} FittingTreeIsUnique(a: Tree, b: Tree)
    requires Fits(a) && Fits(b) && Flat(a) == Flat(b)
    ensures a == b
    decreases a
  {
    hide Yields;
    if a.Binary? && b.Binary? {
      SameSplit(a, b);
      SameSplit(b, a);
      var n := |Flat(a.l)|;
      assert Flat(a)[..n] == Flat(a.l) && Flat(b)[..n] == Flat(b.l);
      assert Flat(a)[n] == a.op && Flat(b)[n] == b.op;
      assert Flat(a)[n + 1..] == Flat(a.r) && Flat(b)[n + 1..] == Flat(b.r);
      FittingTreeIsUnique(a.l, b.l);
      FittingTreeIsUnique(a.r, b.r);
    } else {
      assert |Flat(a)| == |Flat(b)|;
      assert a.Operand? ==> Flat(a)[0] == a.tok;
      assert b.Operand? ==> Flat(b)[0] == b.tok;
    }
  }

  // ---------- which rule matches ----------

  /** The last term of each rule. */
  function LastOf(i: nat): Term {
    if i == 0 then T(FEND)
    else if i <= 11 || i == 19 || i == 21 then T(SCOL)
    else if i == 12 then M(Elif) else if i == 13 then N(Else) else if i == 14 then N(Dowh) else if i == 15 then N(Whil)
    else if i <= 20 || (24 <= i <= 26) then T(RBRC)
    else if i == 22 then N(Ctrl) else if i == 23 then N(Func)
    else if i == 27 then T(CONS) else if i == 28 then T(EXPO) else if i == 29 then T(STAT)
    else if i == 30 then T(NAME) else if i == 31 then T(NMBR) else if i == 32 then T(STRL)
    else if i == 33 then N(Atom) else if i == 34 then N(Fexp) else if i == 35 then N(Pexp) else if i == 36 then N(Texp)
    else if i == 37 then N(Bexp) else if i == 38 then N(Uexp) else if i == 39 then N(Xexp) else if i == 40 then N(Wexp)
    else if i == 41 then N(Aexp)
    else if i <= 44 then T(RPAR)
    else if i <= 92 then N(Expr)
    else if i == 93 then T(INCR) else if i == 94 then T(DECR) else if i == 95 then T(WMSE) else if i == 96 then T(WSEC)
    else T(RBRA)
  }

  lemma LastTerm(i: nat)
    requires i < SIZE
    ensures RuleAt(i).rhs != [] && RuleAt(i).rhs[|RuleAt(i).rhs| - 1] == LastOf(i)
  {
    if i < 24 {
      StatementLast(i);
    } else if i < FIRST_BINARY {
      MiddleLast(i);
    } else if i > LAST_BINARY {
      UnaryLast(i);
    }
  }

  lemma StatementLast(i: nat)
    requires i < 24
    ensures StatementRule(i).rhs != [] && StatementRule(i).rhs[|StatementRule(i).rhs| - 1] == LastOf(i)
  {
  }

  lemma MiddleLast(i: nat)
    requires 24 <= i < FIRST_BINARY
    ensures MiddleRule(i).rhs != [] && MiddleRule(i).rhs[|MiddleRule(i).rhs| - 1] == LastOf(i)
  {
  }

  lemma UnaryLast(i: nat)
    requires LAST_BINARY < i < SIZE
    ensures UnaryRule(i).rhs != [] && UnaryRule(i).rhs[|UnaryRule(i).rhs| - 1] == LastOf(i)
  {
  }

  /** The operator token before the last operand of the rules that end in an expression. */
  lemma OperatorBefore(i: nat)
    requires 45 <= i <= 92
    ensures var rhs := RuleAt(i).rhs;
      && |rhs| >= 2 && rhs[|rhs| - 1] == N(Expr) && rhs[|rhs| - 2].T? && ASSN <= rhs[|rhs| - 2].tk <= ALOF
      && (i == 45 ==> rhs[|rhs| - 2].tk == COLN)
  {
  }

  /** The top of the stack is no instance of the rule's last term. */
  lemma WrongTop(i: nat, stack: seq<Node>)
    requires i < SIZE && i != 12 && stack != [] && !TermEq(LastOf(i), stack[|stack| - 1])
    ensures Match(RuleAt(i).rhs, stack).None?
  {
    LastTerm(i);
    LastIsPlain(i);
    hide RuleAt, LastOf;
  }

  lemma LastIsPlain(i: nat)
    requires i < SIZE && i != 12
    ensures !LastOf(i).M?
  {
  }

  lemma NoConditional(stack: seq<Node>)
    requires stack != [] && !TermEq(N(Cond), stack[|stack| - 1]) && !TermEq(N(Elif), stack[|stack| - 1])
    ensures Match(RuleAt(12).rhs, stack).None?
  {
    var rhs := RuleAt(12).rhs;
    assert rhs == [N(Cond), M(Elif)];
    assert Scan(rhs, 2, None, stack, |stack|) == Scan(rhs, 1, None, stack, |stack|);
  }

  /** All rules below k fail. */
  lemma {:induction false} FirstIs(stack: seq<Node>, i: nat, k: nat, at: nat)
    requires i <= k < SIZE && at < |stack| && Match(RuleAt(k).rhs, stack) == Some(at)
    requires forall j :: i <= j < k ==> Match(RuleAt(j).rhs, stack).None?
    ensures FirstRule(stack, i) == Some((k, at))
    decreases k - i
  {
    hide RuleAt, Match;
    if i < k {
      FirstIs(stack, i + 1, k, at);
    }
  }

  lemma {:induction false} NoneMatches(stack: seq<Node>, i: nat)
    requires i <= SIZE && forall j :: i <= j < SIZE ==> Match(RuleAt(j).rhs, stack).None?
    ensures FirstRule(stack, i) == None
    decreases SIZE - i
  {
    hide RuleAt, Match;
    if i < SIZE {
      NoneMatches(stack, i + 1);
    }
  }

  /** A rule of a single term matches the top alone. */
  lemma SingleMatch(i: nat, stack: seq<Node>)
    requires i < SIZE && stack != [] && |RuleAt(i).rhs| == 1 && !RuleAt(i).rhs[0].M? && TermEq(RuleAt(i).rhs[0], stack[|stack| - 1])
    ensures Match(RuleAt(i).rhs, stack) == Some(|stack| - 1)
  {
    var rhs := RuleAt(i).rhs;
    hide RuleAt;
    assert Scan(rhs, 1, None, stack, |stack|) == Scan(rhs, 0, None, stack, |stack| - 1);
  }

  /** The rule an operand, an atom or a binary expression is reduced by. */
  function RenameRule(n: Node): nat {
    match n
    case Leaf(t) => if t.tk == NAME then 30 else if t.tk == NMBR then 31 else 32
    case Branch(nt, _) => if nt == Atom then 33 else 37
  }

  predicate Renames(n: Node) {
    match n
    case Leaf(t) => IsOperand(t)
    case Branch(nt, _) => nt == Atom || nt == Bexp
  }

  lemma RenameRuleShape(n: Node)
    requires Renames(n)
    ensures RenameRule(n) < SIZE
    ensures var r := RuleAt(RenameRule(n));
      |r.rhs| == 1 && !r.rhs[0].M? && TermEq(r.rhs[0], n) && r.lhs == if n.Leaf? then Atom else Expr
  {
  }

  lemma EarlierRulesEnd(n: Node, j: nat)
    requires Renames(n) && j < RenameRule(n) && j != 12
    ensures !TermEq(LastOf(j), n)
  {
  }

  lemma FirstRenames(stack: seq<Node>)
    requires stack != [] && Renames(stack[|stack| - 1])
    ensures RenameRule(stack[|stack| - 1]) < SIZE
    ensures FirstRule(stack, 0) == Some((RenameRule(stack[|stack| - 1]), |stack| - 1))
    ensures RuleAt(RenameRule(stack[|stack| - 1])).lhs == if stack[|stack| - 1].Leaf? then Atom else Expr
  {
    hide RuleAt, Match, FirstRule, LastOf;
    var top := stack[|stack| - 1];
    var k := RenameRule(top);
    RenameRuleShape(top);
    SingleMatch(k, stack);
    forall j | 0 <= j < k ensures Match(RuleAt(j).rhs, stack).None? {
      if j == 12 {
        NoConditional(stack);
      } else {
        EarlierRulesEnd(top, j);
        WrongTop(j, stack);
      }
    }
    FirstIs(stack, 0, k, |stack| - 1);
  }

  /** Nothing matches with a binary operator on top. */
  lemma NoneOnOperator(stack: seq<Node>, op: Token)
    requires stack != [] && stack[|stack| - 1] == Leaf(op) && IsBinary(op)
    ensures FirstRule(stack, 0) == None
  {
    hide RuleAt, Match;
    forall j | 0 <= j < SIZE ensures Match(RuleAt(j).rhs, stack).None? {
      if j == 12 {
        NoConditional(stack);
      } else {
        WrongTop(j, stack);
      }
    }
    NoneMatches(stack, 0);
  }

  predicate IsExpr(n: Node) {
    n.Branch? && n.nt == Expr
  }

  /** What stands before the chain is no operator. */
  predicate Opens(base: seq<Node>) {
    base != [] && (base[|base| - 1].Leaf? ==> !(ASSN <= base[|base| - 1].token.tk <= ALOF))
  }

  /** A rule that ends in an expression does not match when something else precedes it. */
  lemma WrongOperator(i: nat, stack: seq<Node>)
    requires 45 <= i <= 92 && |stack| >= 2 && IsExpr(stack[|stack| - 1])
    requires RuleAt(i).rhs != [] && |RuleAt(i).rhs| >= 2 && !TermEq(RuleAt(i).rhs[|RuleAt(i).rhs| - 2], stack[|stack| - 2])
    ensures Match(RuleAt(i).rhs, stack).None?
  {
    OperatorBefore(i);
    var rhs := RuleAt(i).rhs;
    hide RuleAt;
    var n, m := |stack|, |rhs|;
    assert Scan(rhs, m, None, stack, n) == Scan(rhs, m - 1, None, stack, n - 1);
    assert Scan(rhs, m - 1, None, stack, n - 1) == None;
  }

  lemma NoneOnLoneExpr(base: seq<Node>, e: Node)
    requires Opens(base) && IsExpr(e)
    ensures FirstRule(base + [e], 0) == None
  {
    hide RuleAt, Match, FirstRule;
    var stack := base + [e];
    assert stack[|stack| - 2] == base[|base| - 1];
    forall j | 0 <= j < SIZE ensures Match(RuleAt(j).rhs, stack).None? {
      if j == 12 {
        NoConditional(stack);
      } else if 45 <= j <= 92 {
        OperatorBefore(j);
        WrongOperator(j, stack);
      } else {
        WrongTop(j, stack);
      }
    }
    NoneMatches(stack, 0);
  }

  lemma BinaryRuleAt(op: nat)
    requires ASSN <= op <= CAST
    ensures FIRST_BINARY + op - ASSN <= LAST_BINARY
    ensures RuleAt(FIRST_BINARY + op - ASSN) == Rule(Bexp, [N(Expr), T(op), N(Expr)])
  {
  }

  lemma BinaryMatch(op: nat, stack: seq<Node>)
    requires |stack| >= 3
    requires IsExpr(stack[|stack| - 1]) && TermEq(T(op), stack[|stack| - 2]) && IsExpr(stack[|stack| - 3])
    ensures Match([N(Expr), T(op), N(Expr)], stack) == Some(|stack| - 3)
  {
    var rhs := [N(Expr), T(op), N(Expr)];
    var n := |stack|;
    assert Scan(rhs, 3, None, stack, n) == Scan(rhs, 2, None, stack, n - 1);
    assert Scan(rhs, 2, None, stack, n - 1) == Scan(rhs, 1, None, stack, n - 2);
    assert Scan(rhs, 1, None, stack, n - 2) == Scan(rhs, 0, None, stack, n - 3);
  }

  lemma NoTernary(stack: seq<Node>)
    requires |stack| >= 4 && IsExpr(stack[|stack| - 1]) && stack[|stack| - 2].Leaf? && IsExpr(stack[|stack| - 3])
    requires !TermEq(T(QUES), stack[|stack| - 4])
    ensures Match(RuleAt(45).rhs, stack).None?
  {
    var rhs := RuleAt(45).rhs;
    assert rhs == [N(Expr), T(QUES), N(Expr), T(COLN), N(Expr)];
    hide RuleAt;
    var n := |stack|;
    assert Scan(rhs, 5, None, stack, n) == Scan(rhs, 4, None, stack, n - 1);
    if stack[n - 2].token.tk == COLN {
      assert Scan(rhs, 4, None, stack, n - 1) == Scan(rhs, 3, None, stack, n - 2);
      assert Scan(rhs, 3, None, stack, n - 2) == Scan(rhs, 2, None, stack, n - 3);
      assert Scan(rhs, 2, None, stack, n - 3) == None;
    } else {
      assert Scan(rhs, 4, None, stack, n - 1) == None;
    }
  }

  lemma EarlierBinary(op: nat, j: nat)
    requires ASSN <= op <= CAST && FIRST_BINARY <= j < FIRST_BINARY + op - ASSN
    ensures RuleAt(j).rhs == [N(Expr), T(j - FIRST_BINARY + ASSN), N(Expr)]
  {
    BinaryRuleAt(j - FIRST_BINARY + ASSN);
  }

  lemma PlainRulesEnd(e: Node, j: nat)
    requires IsExpr(e) && j < 45 && j != 12
    ensures !TermEq(LastOf(j), e)
  {
  }

  /** With two expressions and a binary operator on top, its own rule is the first to match. */
  lemma FirstBinary(stack: seq<Node>, op: Token)
    requires |stack| >= 4 && IsExpr(stack[|stack| - 1]) && stack[|stack| - 2] == Leaf(op) && IsBinary(op)
    requires IsExpr(stack[|stack| - 3]) && !TermEq(T(QUES), stack[|stack| - 4])
    ensures FirstRule(stack, 0) == Some((FIRST_BINARY + op.tk - ASSN, |stack| - 3))
  {
    hide RuleAt, Match, FirstRule, LastOf;
    var k := FIRST_BINARY + op.tk - ASSN;
    BinaryRuleAt(op.tk);
    BinaryMatch(op.tk, stack);
    forall j | 0 <= j < k ensures Match(RuleAt(j).rhs, stack).None? {
      if j == 12 {
        NoConditional(stack);
      } else if j == 45 {
        NoTernary(stack);
      } else if j > 45 {
        EarlierBinary(op.tk, j);
        WrongOperator(j, stack);
      } else {
        PlainRulesEnd(stack[|stack| - 1], j);
        WrongTop(j, stack);
      }
    }
    FirstIs(stack, 0, k, |stack| - 3);
  }

  // ---------- the loop on a chain ----------

  /** The node the grammar makes of a tree. */
  function ToNode(t: Tree): (n: Node)
    ensures IsExpr(n)
  {
    match t
    case Operand(x) => Branch(Expr, [Branch(Atom, [Leaf(x)])])
    case Binary(l, op, r) => Branch(Expr, [Branch(Bexp, [ToNode(l), Leaf(op), ToNode(r)])])
  }

  /** Operands are names, numbers or strings, and operators are binary ones. */
  predicate Lexical(t: Tree) {
    match t
    case Operand(x) => IsOperand(x)
    case Binary(l, op, r) => Lexical(l) && IsBinary(op) && Lexical(r)
  }

  /** Operands and binary operators in turn. */
  predicate IsChain(ts: seq<Token>) {
    |ts| % 2 == 1 && forall k :: 0 <= k < |ts| ==> if k % 2 == 0 then IsOperand(ts[k]) else IsBinary(ts[k])
  }

  /** The operators still waiting for their right operand, the last one outermost here. */
  datatype Pending = Bottom | Push(under: Pending, tree: Tree, op: Token)

  function Nodes(p: Pending): (ns: seq<Node>)
  {
    match p
    case Bottom => []
    case Push(under, tree, op) => Nodes(under) + [ToNode(tree), Leaf(op)]
  }

  function Passed(p: Pending): seq<Token> {
    match p
    case Bottom => []
    case Push(under, tree, op) => Passed(under) + (Flat(tree) + [op])
  }

  /** The operator below yields to the root of what lies above it. */
  predicate Above(p: Pending, t: Tree) {
    p.Push? && t.Binary? ==> Yields(p.op.tk, t.op.tk)
  }

  predicate Waiting(p: Pending) {
    p.Push? ==>
      && Waiting(p.under) && Fits(p.tree) && Lexical(p.tree) && IsBinary(p.op)
      && (p.tree.Binary? ==> !Yields(p.tree.op.tk, p.op.tk))
      && (p.under.Push? ==> Yields(p.under.op.tk, p.op.tk))
      && Above(p.under, p.tree)
  }

  /** A token after which a chain ends: no operator, nor anything that follows an operand directly. */
  predicate Stops(t: Token) {
    && !(ASSN <= t.tk <= QUES) && !Skipped(t)
    && t.tk != LPAR && t.tk != LBRA && t.tk != INCR && t.tk != DECR
  }

  /** After an operand the chain goes on with an operator and an operand, or stops. */
  predicate Onward(rest: seq<Token>, more: nat) {
    && 2 * more < |rest| && Marked(rest) && Stops(rest[2 * more])
    && forall k :: 0 <= k < 2 * more ==> if k % 2 == 0 then IsBinary(rest[k]) else IsOperand(rest[k])
  }

  /** No operator of the tree on top waits for the token ahead. */
  predicate Settled(t: Tree, ahead: Token) {
    t.Binary? && IsBinary(ahead) ==> !Yields(t.op.tk, ahead.tk)
  }

  lemma OpensOn(base: seq<Node>, p: Pending)
    requires Opens(base) && Waiting(p)
    ensures var s := base + Nodes(p);
      && s != [] && !TermEq(T(QUES), s[|s| - 1])
      && (p.Push? ==> s == base + Nodes(p.under) + [ToNode(p.tree), Leaf(p.op)])
  {
  }

  /** One operand token on the stack becomes an atom and then an expression, whatever is ahead. */
  lemma OperandStep(s: seq<Node>, x: Token, rest: seq<Token>)
    requires IsOperand(x) && rest != [] && Marked(rest) && !Skipped(rest[0])
    ensures Sane(s + [Leaf(x)], rest) && Sane(s + [ToNode(Operand(x))], rest)
    ensures Loop(s + [Leaf(x)], rest) == Loop(s + [ToNode(Operand(x))], rest)
  {
    hide *;
    var atom := Branch(Atom, [Leaf(x)]);
    OperandNodes(x);
    Renamed(s, Leaf(x), rest);
    Renamed(s, atom, rest);
  }

  lemma OperandNodes(x: Token)
    requires IsOperand(x)
    ensures Renames(Leaf(x)) && Renames(Branch(Atom, [Leaf(x)]))
    ensures ToNode(Operand(x)) == Branch(Expr, [Branch(Atom, [Leaf(x)])])
  {
  }

  lemma SaneBefore(s: seq<Node>, n: Node, rest: seq<Token>)
    requires rest != [] && Marked(rest)
    ensures Sane(s + [n], rest)
  {
  }

  /** A renaming is never put off. */
  lemma Renamed(s: seq<Node>, n: Node, rest: seq<Token>)
    requires Renames(n) && rest != [] && Marked(rest) && !Skipped(rest[0])
    ensures var up := Branch(if n.Leaf? then Atom else Expr, [n]);
      Sane(s + [n], rest) && Sane(s + [up], rest) && Loop(s + [n], rest) == Loop(s + [up], rest)
  {
    hide *;
    var stack := s + [n];
    SaneBefore(s, n, rest);
    FirstRenames(stack);
    RenameRuleShape(n);
    var m := (RenameRule(n), |stack| - 1);
    LoopUnfolds(stack, rest, m);
    DropNothing(rest);
    NeverPutOff(RuleAt(m.0), rest[0].tk);
    ReducedTop(s, n, m.0);
  }

  lemma NeverPutOff(rule: Rule, ahead: nat)
    requires rule.lhs == Atom || rule.lhs == Expr
    ensures !ShiftPre(rule, ahead) && !ShiftPost(rule, ahead) && rule.lhs != Unit
  {
  }

  lemma ReducedTop(s: seq<Node>, n: Node, i: nat)
    requires i < SIZE
    ensures Reduced(s + [n], (i, |s|)) == s + [Branch(RuleAt(i).lhs, [n])]
  {
    hide RuleAt;
    assert (s + [n])[..|s|] == s && (s + [n])[|s|..] == [n];
  }

  /** A binary expression on top: shift when its operator yields to the one ahead, else reduce. */
  lemma BinaryStep(s: seq<Node>, l: Tree, op: Token, r: Tree, rest: seq<Token>)
    requires s != [] && !TermEq(T(QUES), s[|s| - 1]) && IsBinary(op)
    requires rest != [] && Marked(rest) && (IsBinary(rest[0]) || Stops(rest[0]))
    ensures var stack, next := s + [ToNode(l), Leaf(op)] + [ToNode(r)], s + [ToNode(Binary(l, op, r))];
      && Sane(stack, rest) && Sane(next, rest) && Sane(stack + [Leaf(rest[0])], rest[1..])
      && Loop(stack, rest) == if IsBinary(rest[0]) && Yields(op.tk, rest[0].tk)
                              then Loop(stack + [Leaf(rest[0])], rest[1..])
                              else Loop(next, rest)
  {
    hide *;
    var stack := s + [ToNode(l), Leaf(op)] + [ToNode(r)];
    var bexp := Branch(Bexp, [ToNode(l), Leaf(op), ToNode(r)]);
    SaneBefore(s + [ToNode(l), Leaf(op)], ToNode(r), rest);
    TopThree(s, l, op, r);
    FirstBinary(stack, op);
    BinaryRuleOf(op);
    var m: (nat, nat) := (FIRST_BINARY + op.tk - ASSN, |stack| - 3);
    LoopUnfolds(stack, rest, m);
    NotSkipped(rest[0]);
    DropNothing(rest);
    PutOff(op, rest[0]);
    SaneAfter(stack, rest);
    SaneBefore(s, ToNode(Binary(l, op, r)), rest);
    if !(IsBinary(rest[0]) && Yields(op.tk, rest[0].tk)) {
      ReducedThree(s, stack, m.0);
      BexpRenames(l, op, r);
      Renamed(s, bexp, rest);
    }
  }

  lemma ReducedThree(s: seq<Node>, stack: seq<Node>, i: nat)
    requires i < SIZE && |stack| > |s| && stack[..|s|] == s
    ensures Reduced(stack, (i, |s|)) == s + [Branch(RuleAt(i).lhs, stack[|s|..])]
  {
    hide RuleAt;
  }

  lemma NotSkipped(t: Token)
    requires IsBinary(t) || Stops(t)
    ensures !Skipped(t)
  {
  }

  lemma SaneAfter(stack: seq<Node>, rest: seq<Token>)
    requires rest != [] && Marked(rest)
    ensures Sane(stack + [Leaf(rest[0])], rest[1..])
  {
    TailMarked(rest);
  }

  lemma BexpRenames(l: Tree, op: Token, r: Tree)
    ensures Renames(Branch(Bexp, [ToNode(l), Leaf(op), ToNode(r)]))
    ensures ToNode(Binary(l, op, r)) == Branch(Expr, [Branch(Bexp, [ToNode(l), Leaf(op), ToNode(r)])])
  {
  }

  lemma TopThree(s: seq<Node>, l: Tree, op: Token, r: Tree)
    requires s != [] && IsBinary(op)
    ensures var stack := s + [ToNode(l), Leaf(op)] + [ToNode(r)];
      && |stack| == |s| + 3 && stack[..|s|] == s && stack[|s|..] == [ToNode(l), Leaf(op), ToNode(r)]
      && IsExpr(stack[|stack| - 1]) && stack[|stack| - 2] == Leaf(op) && IsExpr(stack[|stack| - 3])
      && stack[|stack| - 4] == s[|s| - 1]
  {
    hide *;
    var x, y, z := ToNode(l), Leaf(op), ToNode(r);
    assert s + [x, y] + [z] == s + [x, y, z];
  }

  lemma BinaryRuleOf(op: Token)
    requires IsBinary(op)
    ensures 0 <= FIRST_BINARY + op.tk - ASSN < SIZE
    ensures RuleAt(FIRST_BINARY + op.tk - ASSN) == Rule(Bexp, [N(Expr), T(op.tk), N(Expr)])
  {
    BinaryRuleAt(op.tk);
  }

  lemma PutOff(op: Token, ahead: Token)
    requires IsBinary(op) && (IsBinary(ahead) || Stops(ahead))
    ensures var rule := Rule(Bexp, [N(Expr), T(op.tk), N(Expr)]);
      ShiftPre(rule, ahead.tk) == (IsBinary(ahead) && Yields(op.tk, ahead.tk)) && !ShiftPost(rule, ahead.tk)
  {
  }

  /** An operator and the operand after it are always shifted. */
  lemma NextOperand(s: seq<Node>, rest: seq<Token>)
    requires |rest| >= 3 && Marked(rest) && IsBinary(rest[0]) && IsOperand(rest[1]) && !Skipped(rest[2])
    ensures var stack, after := s + [Leaf(rest[0])], s + [Leaf(rest[0])] + [ToNode(Operand(rest[1]))];
      && Sane(stack, rest[1..]) && Sane(after, rest[2..]) && Loop(stack, rest[1..]) == Loop(after, rest[2..])
  {
    hide *;
    var stack := s + [Leaf(rest[0])];
    TailMarked(rest);
    TailMarked(rest[1..]);
    assert rest[1..][1..] == rest[2..];
    SaneBefore(s, Leaf(rest[0]), rest[1..]);
    NoneOnOperator(stack, rest[0]);
    OperandNotSkipped(rest[1]);
    DropNothing(rest[1..]);
    LoopShifts(stack, rest[1..]);
    OperandStep(stack, rest[1], rest[2..]);
  }

  lemma OperandNotSkipped(t: Token)
    requires IsOperand(t)
    ensures !Skipped(t)
  {
  }

  /** Both pending trees and the tree on top fit, so does what they are reduced to. */
  lemma Combine(p: Pending, top: Tree, ahead: Token)
    requires p.Push? && Waiting(p) && Fits(top) && Lexical(top) && Above(p, top)
    requires IsBinary(ahead) ==> !Yields(p.op.tk, ahead.tk)
    ensures var t := Binary(p.tree, p.op, top);
      && Waiting(p.under) && Fits(t) && Lexical(t) && Above(p.under, t) && Settled(t, ahead)
      && Passed(p.under) + Flat(t) == Passed(p) + Flat(top)
  {
    hide Yields;
    FlattenPush(Passed(p.under), Flat(p.tree), p.op, Flat(top));
  }

  lemma FlattenPush(a: seq<Token>, b: seq<Token>, op: Token, c: seq<Token>)
    ensures a + (b + [op] + c) == a + (b + [op]) + c
  {
  }

  /** The operator ahead takes the tree on top as its left operand. */
  lemma Defer(p: Pending, top: Tree, op: Token)
    requires Waiting(p) && Fits(top) && Lexical(top) && Above(p, top) && Settled(top, op) && IsBinary(op)
    requires p.Push? ==> Yields(p.op.tk, op.tk)
    ensures Waiting(Push(p, top, op))
  {
    hide Yields;
  }

  lemma Fresh(p: Pending, x: Token, ahead: Token)
    requires IsOperand(x)
    ensures var t := Operand(x);
      Fits(t) && Lexical(t) && Above(p, t) && Settled(t, ahead) && Flat(t) == [x]
  {
  }

  lemma OnwardStep(rest: seq<Token>, more: nat)
    requires Onward(rest, more)
    ensures Marked(rest) && rest != [] && |rest| > 2 * more
    ensures if more == 0 then Stops(rest[0]) && !IsBinary(rest[0]) else IsBinary(rest[0])
    ensures more > 0 ==> |rest| >= 3 && IsOperand(rest[1]) && Onward(rest[2..], more - 1)
    ensures more > 0 ==> !Skipped(rest[2]) && rest[2..][0] == rest[2]
  {
    if more > 0 {
      TailMarked(rest);
      TailMarked(rest[1..]);
      assert rest[1..][1..] == rest[2..];
      forall k | 0 <= k < 2 * (more - 1)
        ensures if k % 2 == 0 then IsBinary(rest[2..][k]) else IsOperand(rest[2..][k]) {
        assert rest[2..][k] == rest[k + 2];
      }
      assert rest[2..][2 * (more - 1)] == rest[2 * more];
      if more == 1 {
        NotSkipped(rest[2]);
      }
    }
  }

  lemma PushedNodes(base: seq<Node>, p: Pending, top: Tree, op: Token, n: Node)
    ensures base + Nodes(Push(p, top, op)) + [n] == base + Nodes(p) + [ToNode(top)] + [Leaf(op)] + [n]
  {
    assert Nodes(Push(p, top, op)) == Nodes(p) + ([ToNode(top)] + [Leaf(op)]);
  }

  /** The loop from an operand on: it ends the chain with one fitting tree over all of it. */
  lemma {:induction false} ChainLoop(base: seq<Node>, p: Pending, top: Tree, rest: seq<Token>, more: nat) returns (t: Tree)
    requires Opens(base) && Waiting(p) && Fits(top) && Lexical(top) && Above(p, top)
    requires Onward(rest, more) && Settled(top, rest[0])
    ensures Fits(t) && Lexical(t) && Flat(t) == Passed(p) + Flat(top) + rest[..2 * more]
    ensures Sane(base + Nodes(p) + [ToNode(top)], rest) && Sane(base + [ToNode(t)], rest[2 * more..])
    ensures Loop(base + Nodes(p) + [ToNode(top)], rest) == Loop(base + [ToNode(t)], rest[2 * more..])
    decreases more, p
  {
    hide *;
    OnwardStep(rest, more);
    var s := base + Nodes(p);
    OpensOn(base, p);
    SaneBefore(s, ToNode(top), rest);
    if p.Push? {
      var below := base + Nodes(p.under);
      WaitingUnder(p);
      OpensOn(base, p.under);
      BinaryStep(below, p.tree, p.op, top, rest);
      if !(IsBinary(rest[0]) && Yields(p.op.tk, rest[0].tk)) {
        Combine(p, top, rest[0]);
        t := ChainLoop(base, p.under, Binary(p.tree, p.op, top), rest, more);
        return;
      }
    } else {
      BottomNodes(base, p);
      if more == 0 {
        t := top;
        EmptyChain(p, top, rest);
        return;
      }
      NoneOnLoneExpr(base, ToNode(top));
      NotSkipped(rest[0]);
      DropNothing(rest);
      LoopShifts(s + [ToNode(top)], rest);
    }
    t := Continue(base, p, top, rest, more);
  }

  /** One operator shifted, the loop goes on with it pending and its operand on top. */
  lemma {:induction false} Continue(base: seq<Node>, p: Pending, top: Tree, rest: seq<Token>, more: nat) returns (t: Tree)
    requires Opens(base) && Waiting(p) && Fits(top) && Lexical(top) && Above(p, top)
    requires Onward(rest, more) && rest != [] && IsBinary(rest[0]) && Settled(top, rest[0])
    requires more > 0 && (p.Push? ==> Yields(p.op.tk, rest[0].tk))
    ensures Fits(t) && Lexical(t) && Flat(t) == Passed(p) + Flat(top) + rest[..2 * more] && |rest| > 2 * more
    ensures Sane(base + Nodes(p) + [ToNode(top)] + [Leaf(rest[0])], rest[1..]) && Sane(base + [ToNode(t)], rest[2 * more..])
    ensures Loop(base + Nodes(p) + [ToNode(top)] + [Leaf(rest[0])], rest[1..]) == Loop(base + [ToNode(t)], rest[2 * more..])
    decreases more, p, 0
  {
    hide *;
    OnwardStep(rest, more);
    var s := base + Nodes(p) + [ToNode(top)];
    NextOperand(s, rest);
    Defer(p, top, rest[0]);
    var q, x := Push(p, top, rest[0]), Operand(rest[1]);
    PushedNodes(base, p, top, rest[0], ToNode(x));
    Fresh(q, rest[1], rest[2]);
    t := ChainLoop(base, q, x, rest[2..], more - 1);
    assert rest[2..][2 * (more - 1)..] == rest[2 * more..];
    PassedPush(p, top, rest, more);
  }

  lemma PassedPush(p: Pending, top: Tree, rest: seq<Token>, more: nat)
    requires more > 0 && |rest| > 2 * more
    ensures Passed(Push(p, top, rest[0])) + [rest[1]] + rest[2..][..2 * (more - 1)] == Passed(p) + Flat(top) + rest[..2 * more]
  {
    assert rest[..2 * more] == [rest[0]] + [rest[1]] + rest[2..][..2 * (more - 1)];
  }

  lemma WaitingUnder(p: Pending)
    requires p.Push? && Waiting(p)
    ensures Waiting(p.under) && IsBinary(p.op)
  {
  }

  lemma BottomNodes(base: seq<Node>, p: Pending)
    requires p.Bottom?
    ensures base + Nodes(p) == base
  {
  }

  lemma EmptyChain(p: Pending, top: Tree, rest: seq<Token>)
    requires p.Bottom?
    ensures Flat(top) == Passed(p) + Flat(top) + rest[..0] && rest[0..] == rest
  {
  }

  lemma ChainNonempty(chain: seq<Token>)
    requires IsChain(chain)
    ensures |chain| > 0
  {
  }

  lemma ChainOnward(chain: seq<Token>, after: seq<Token>)
    requires IsChain(chain) && after != [] && Stops(after[0]) && Marked(chain[1..] + after)
    ensures Onward(chain[1..] + after, |chain| / 2) && (chain[1..] + after)[..2 * (|chain| / 2)] == chain[1..]
    ensures (chain[1..] + after)[2 * (|chain| / 2)..] == after && IsOperand(chain[0])
  {
    hide Marked, Stops;
    var rest := chain[1..] + after;
    forall k | 0 <= k < 2 * (|chain| / 2) ensures if k % 2 == 0 then IsBinary(rest[k]) else IsOperand(rest[k]) {
      assert rest[k] == chain[k + 1];
    }
  }

  /** Precedence: wherever a chain of operands and binary operators starts, with any whitespace and comments in it,
      the loop replaces it by one node, made of a tree over exactly the chain in which every left child binds
      tighter than its parent, or equally under a left-associative one, and every right child the other way. */
  lemma ChainBecomesTree(base: seq<Node>, chain: seq<Token>, text: seq<Token>, after: seq<Token>) returns (t: Tree)
    requires Opens(base) && IsChain(chain) && after != [] && Stops(after[0])
    requires Marked(text) && Kept(text) == chain[1..] + after
    ensures Fits(t) && Lexical(t) && Flat(t) == chain
    ensures Sane(base + [Leaf(chain[0])], text) && Sane(base + [ToNode(t)], after)
    ensures Loop(base + [Leaf(chain[0])], text) == Loop(base + [ToNode(t)], after)
  {
    hide *;
    ChainNonempty(chain);
    var rest := Kept(text);
    KeptMarked(text);
    ChainOnward(chain, after);
    var x, more := chain[0], |chain| / 2;
    SaneBefore(base, Leaf(x), text);
    LoopKept(base + [Leaf(x)], text);
    Fresh(Bottom, x, rest[0]);
    BottomNodes(base, Bottom);
    BottomWaits();
    OperandStep(base, x, rest);
    t := ChainLoop(base, Bottom, Operand(x), rest, more);
    assert [] + [x] + chain[1..] == chain;
  }

  lemma BottomWaits()
    ensures Waiting(Bottom) && Passed(Bottom) == []
  {
  }

  /** Every chain has one fitting tree, and only one. */
  lemma OneFittingTree(chain: seq<Token>) returns (t: Tree)
    requires IsChain(chain)
    ensures Fits(t) && Lexical(t) && Flat(t) == chain
    ensures forall u: Tree :: Fits(u) && Flat(u) == chain ==> u == t
  {
    var base, after := [Leaf(Token(FBEG, 0, 0))], [Token(SCOL, 0, 0), Token(FEND, 0, 0)];
    var text := chain[1..] + after;
    KeptAll(text);
    t := ChainBecomesTree(base, chain, text, after);
    forall u: Tree | Fits(u) && Flat(u) == chain ensures u == t {
      FittingTreeIsUnique(u, t);
    }
  }

  lemma {:induction false} KeptAll(ts: seq<Token>)
    requires forall k :: 0 <= k < |ts| ==> !Skipped(ts[k])
    ensures Kept(ts) == ts
    decreases |ts|
  {
    if ts != [] {
      KeptAll(ts[1..]);
    }
  }

  // ---------- a file of one expression statement ----------

  lemma WrongSecond(rhs: seq<Term>, stack: seq<Node>)
    requires |rhs| >= 2 && |stack| >= 2 && !rhs[|rhs| - 1].M? && TermEq(rhs[|rhs| - 1], stack[|stack| - 1])
    requires !rhs[|rhs| - 2].M? && !TermEq(rhs[|rhs| - 2], stack[|stack| - 2])
    ensures Match(rhs, stack).None?
  {
    var n, m := |stack|, |rhs|;
    assert Scan(rhs, m, None, stack, n) == Scan(rhs, m - 1, None, stack, n - 1);
  }

  lemma WrongThird(rhs: seq<Term>, stack: seq<Node>)
    requires |rhs| >= 3 && |stack| >= 3 && !rhs[|rhs| - 1].M? && !rhs[|rhs| - 2].M? && !rhs[|rhs| - 3].M?
    requires !TermEq(rhs[|rhs| - 3], stack[|stack| - 3])
    ensures Match(rhs, stack).None?
  {
    var n, m := |stack|, |rhs|;
    assert Scan(rhs, m, None, stack, n).Some? ==> Scan(rhs, m, None, stack, n) == Scan(rhs, m - 1, None, stack, n - 1);
    assert Scan(rhs, m - 1, None, stack, n - 1).Some? ==> Scan(rhs, m - 1, None, stack, n - 1) == Scan(rhs, m - 2, None, stack, n - 2);
  }

  /** Of the statements that end in a semicolon, all but the last require a keyword before the expression or after it. */
  lemma KeywordStatements(j: nat)
    requires 1 <= j <= 11 || j == 19
    ensures var rhs := RuleAt(j).rhs; var m := |rhs|;
      && m >= 2 && !rhs[m - 1].M? && !rhs[m - 2].M?
      && ((rhs[m - 2].T? && rhs[m - 1] == T(SCOL)) || (m >= 3 && rhs[m - 3].T? && rhs[m - 3].tk != FBEG))
  {
  }

  lemma OtherEnds(j: nat)
    requires j <= 21
    ensures LastOf(j) == T(SCOL) ==> 1 <= j <= 11 || j == 19 || j == 21
  {
  }

  lemma StatementMatch(beg: Token, e: Node, semi: Token)
    requires beg.tk == FBEG && semi.tk == SCOL && IsExpr(e)
    ensures RuleAt(21) == Rule(Stmt, [M(Qual), N(Expr), T(SCOL)])
    ensures Match(RuleAt(21).rhs, [Leaf(beg), e, Leaf(semi)]) == Some(1)
  {
    var rhs, stack := [M(Qual), N(Expr), T(SCOL)], [Leaf(beg), e, Leaf(semi)];
    assert RuleAt(21) == Rule(Stmt, rhs);
    hide RuleAt;
    assert Scan(rhs, 3, None, stack, 3) == Scan(rhs, 2, None, stack, 2);
    assert Scan(rhs, 2, None, stack, 2) == Scan(rhs, 1, None, stack, 1);
    assert Scan(rhs, 1, None, stack, 1) == Scan(rhs, 0, None, stack, 1);
  }

  lemma FirstStatement(beg: Token, e: Node, semi: Token)
    requires beg.tk == FBEG && semi.tk == SCOL && IsExpr(e)
    ensures FirstRule([Leaf(beg), e, Leaf(semi)], 0) == Some((21, 1))
  {
    hide RuleAt, Match, FirstRule, LastOf;
    var stack := [Leaf(beg), e, Leaf(semi)];
    StatementMatch(beg, e, semi);
    forall j | 0 <= j < 21 ensures Match(RuleAt(j).rhs, stack).None? {
      OtherEnds(j);
      if j == 12 {
        NoConditional(stack);
      } else if LastOf(j) != T(SCOL) {
        SemicolonTop(j, semi);
        WrongTop(j, stack);
      } else {
        KeywordStatements(j);
        var rhs := RuleAt(j).rhs;
        if rhs[|rhs| - 2].T? && rhs[|rhs| - 1] == T(SCOL) {
          WrongSecond(rhs, stack);
        } else {
          WrongThird(rhs, stack);
        }
      }
    }
    FirstIs(stack, 0, 21, 1);
  }

  lemma SemicolonTop(j: nat, semi: Token)
    requires semi.tk == SCOL && LastOf(j) != T(SCOL)
    ensures !TermEq(LastOf(j), Leaf(semi))
  {
    hide LastOf;
  }

  /** Nothing matches with the start of the file, a statement or the whole file on top. */
  lemma NoneOnClosed(stack: seq<Node>)
    requires stack != []
    requires var n := stack[|stack| - 1];
      (n.Leaf? && n.token.tk == FBEG) || (n.Branch? && (n.nt == Stmt || n.nt == Unit))
    ensures FirstRule(stack, 0) == None
  {
    hide RuleAt, Match, FirstRule;
    forall j | 0 <= j < SIZE ensures Match(RuleAt(j).rhs, stack).None? {
      if j == 12 {
        NoConditional(stack);
      } else {
        WrongTop(j, stack);
      }
    }
    NoneMatches(stack, 0);
  }

  lemma WholeFileMatch(beg: Token, st: Node, end: Token)
    requires beg.tk == FBEG && end.tk == FEND && st.Branch? && st.nt == Stmt
    ensures FirstRule([Leaf(beg), st, Leaf(end)], 0) == Some((0, 0))
  {
    var stack, rhs := [Leaf(beg), st, Leaf(end)], [T(FBEG), M(Stmt), T(FEND)];
    WholeFileRule();
    hide RuleAt;
    assert Scan(rhs, 3, None, stack, 3) == Scan(rhs, 2, None, stack, 2);
    assert Scan(rhs, 2, None, stack, 2) == Scan(rhs, 1, Some(Stmt), stack, 1);
    assert Scan(rhs, 1, Some(Stmt), stack, 1) == Scan(rhs, 0, None, stack, 0);
  }

  /** With no rule matching, the next token is shifted. */
  lemma Shifted(stack: seq<Node>, next: Token, rest: seq<Token>)
    requires FirstRule(stack, 0) == None && stack != [] && Marked([next] + rest) && !Skipped(next)
    ensures Sane(stack, [next] + rest) && Sane(stack + [Leaf(next)], rest)
    ensures Loop(stack, [next] + rest) == Loop(stack + [Leaf(next)], rest)
  {
    hide Loop, FirstRule, Marked, DropSkipped;
    var all := [next] + rest;
    assert all[1..] == rest;
    DropNothing(all);
    LoopShifts(stack, all);
  }

  lemma SemicolonSettles(ahead: nat)
    ensures var rule := Rule(Stmt, [M(Qual), N(Expr), T(SCOL)]); !ShiftPre(rule, ahead) && !ShiftPost(rule, ahead)
  {
  }

  /** The semicolon makes the expression a statement. */
  lemma StatementReduced(beg: Token, e: Node, semi: Token, end: Token)
    requires beg.tk == FBEG && semi.tk == SCOL && end.tk == FEND && IsExpr(e)
    ensures var s3, s2 := [Leaf(beg), e, Leaf(semi)], [Leaf(beg), Branch(Stmt, [e, Leaf(semi)])];
      Sane(s3, [end]) && Sane(s2, [end]) && Loop(s3, [end]) == Loop(s2, [end])
  {
    hide Loop, FirstRule, RuleAt, Rank, Match, ShiftPre, ShiftPost, Skipped;
    var s3 := [Leaf(beg), e, Leaf(semi)];
    TwoMarked(semi, end);
    FirstStatement(beg, e, semi);
    StatementMatch(beg, e, semi);
    SemicolonSettles(end.tk);
    LoopUnfolds(s3, [end], (21, 1));
    DropNothing([end]);
    assert s3[..1] + [Branch(Stmt, s3[1..])] == [Leaf(beg), Branch(Stmt, [e, Leaf(semi)])];
  }

  /** The end marker makes the statements the whole file. */
  lemma FileReduced(beg: Token, st: Node, end: Token)
    requires beg.tk == FBEG && end.tk == FEND && st.Branch? && st.nt == Stmt
    ensures var all := [Leaf(beg), st, Leaf(end)];
      Sane(all, []) && Loop(all, []) == [Branch(Unit, all)]
  {
    hide Loop, FirstRule, RuleAt, Rank, Match;
    var all := [Leaf(beg), st, Leaf(end)];
    WholeFileMatch(beg, st, end);
    WholeFileRule();
    LoopUnfolds(all, [], (0, 0));
    assert all[..0] + [Branch(Unit, all[0..])] == [Branch(Unit, all)];
    NoneOnClosed([Branch(Unit, all)]);
    LoopEnds([Branch(Unit, all)]);
  }

  lemma TwoMarked(semi: Token, end: Token)
    requires semi.tk == SCOL && end.tk == FEND
    ensures Marked([semi] + [end]) && [semi] + [end] == [semi, end] && Marked([end] + []) && [end] + [] == [end]
    ensures !Skipped(semi) && !Skipped(end)
  {
  }

  /** The end of the file: statement, then unit. */
  lemma FileEnds(beg: Token, e: Node, semi: Token, end: Token)
    requires beg.tk == FBEG && semi.tk == SCOL && end.tk == FEND && IsExpr(e)
    ensures Sane([Leaf(beg), e], [semi, end])
    ensures Loop([Leaf(beg), e], [semi, end]) == [Branch(Unit, [Leaf(beg), Branch(Stmt, [e, Leaf(semi)]), Leaf(end)])]
  {
    hide Loop, FirstRule, Rank, Marked, Skipped, Sane;
    TwoMarked(semi, end);
    NoneOnLoneExpr([Leaf(beg)], e);
    assert [Leaf(beg)] + [e] == [Leaf(beg), e];
    Shifted([Leaf(beg), e], semi, [end]);
    assert [Leaf(beg), e] + [Leaf(semi)] == [Leaf(beg), e, Leaf(semi)];
    StatementReduced(beg, e, semi, end);
    var st := Branch(Stmt, [e, Leaf(semi)]);
    NoneOnClosed([Leaf(beg), st]);
    Shifted([Leaf(beg), st], end, []);
    assert [Leaf(beg), st] + [Leaf(end)] == [Leaf(beg), st, Leaf(end)];
    FileReduced(beg, st, end);
  }

  lemma OutcomeStarts(tokens: seq<Token>)
    requires tokens != [] && Marked(tokens) && !Skipped(tokens[0])
    ensures Sane([Leaf(tokens[0])], tokens[1..])
    ensures Outcome(tokens) == Loop([Leaf(tokens[0])], tokens[1..])
  {
    hide Loop, DropSkipped, Marked, Skipped;
    DropNothing(tokens);
    TailMarked(tokens);
    FinalLeaf(tokens[0]);
  }

  lemma BeginNotSkipped(beg: Token)
    requires beg.tk == FBEG
    ensures !Skipped(beg)
  {
  }

  /** The start marker and the first token are shifted. */
  lemma FileStarts(kept: seq<Token>, beg: Token, x: Token, text: seq<Token>)
    requires beg.tk == FBEG && Marked(kept) && kept == [beg] + ([x] + text) && !Skipped(x)
    ensures Marked(text) && Sane([Leaf(beg)] + [Leaf(x)], text)
    ensures Outcome(kept) == Loop([Leaf(beg)] + [Leaf(x)], text)
  {
    hide *;
    BeginNotSkipped(beg);
    OutcomeStarts(kept);
    TailMarked(kept);
    assert kept[1..] == [x] + text;
    TailMarked([x] + text);
    assert ([x] + text)[1..] == text;
    NoneOnClosed([Leaf(beg)]);
    Shifted([Leaf(beg)], x, text);
  }

  lemma SplitFile(beg: Token, chain: seq<Token>, after: seq<Token>)
    requires chain != []
    ensures [beg] + chain + after == [beg] + ([chain[0]] + (chain[1..] + after))
    ensures forall k :: 0 <= k < |chain[1..] + after| ==> (chain[1..] + after)[k] == ([beg] + chain + after)[k + 2]
  {
  }

  /** Round trip: write any fitting tree out as a file, with whatever whitespace and comments, and the parser gives
      back that very tree. */
  lemma ParserReadsTheTree(tokens: seq<Token>, t: Tree, beg: Token, semi: Token, end: Token)
    requires Fits(t) && Lexical(t) && beg.tk == FBEG && semi.tk == SCOL && end.tk == FEND
    requires Marked(tokens) && Kept(tokens) == [beg] + Flat(t) + [semi, end]
    ensures Accepted(Outcome(tokens))
    ensures Outcome(tokens)[0] == Branch(Unit, [Leaf(beg), Branch(Stmt, [ToNode(t), Leaf(semi)]), Leaf(end)])
  {
    hide *;
    var chain, after := Flat(t), [semi, end];
    LexicalChain(t);
    ChainNonempty(chain);
    OutcomeKept(tokens);
    KeptMarked(tokens);
    SplitFile(beg, chain, after);
    var text := chain[1..] + after;
    assert Kept(tokens)[1] == chain[0];
    FileStarts(Kept(tokens), beg, chain[0], text);
    KeptAll(text);
    BaseOpens(beg, semi);
    var u := ChainBecomesTree([Leaf(beg)], chain, text, after);
    FittingTreeIsUnique(t, u);
    FileEnds(beg, ToNode(t), semi, end);
    assert [Leaf(beg)] + [ToNode(t)] == [Leaf(beg), ToNode(t)];
    UnitAccepted([Leaf(beg), Branch(Stmt, [ToNode(t), Leaf(semi)]), Leaf(end)]);
  }

  lemma BaseOpens(beg: Token, semi: Token)
    requires beg.tk == FBEG && semi.tk == SCOL
    ensures Opens([Leaf(beg)]) && Stops(semi)
  {
  }

  lemma UnitAccepted(kids: seq<Node>)
    ensures Accepted([Branch(Unit, kids)])
  {
  }

  lemma {:induction false} LexicalChain(t: Tree)
    requires Lexical(t)
    ensures IsChain(Flat(t))
  {
    if t.Binary? {
      LexicalChain(t.l);
      LexicalChain(t.r);
      forall k | 0 <= k < |Flat(t)| ensures if k % 2 == 0 then IsOperand(Flat(t)[k]) else IsBinary(Flat(t)[k]) {
        FlatAt(t, k);
      }
    }
  }
}
