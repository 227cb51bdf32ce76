/** The grammar table and the trees built from it. */
module Grammar {
  import opened Tokens

  datatype Nt = Unit | Stmt | Ctrl | Cond | Elif | Else | Dowh | Whil | Func | Qual | Atom | Expr | Fexp | Pexp | Texp | Bexp | Uexp | Xexp | Wexp | Aexp

  /** A term of a right-hand side: a token, a non-terminal, or a starred non-terminal. */
  datatype Term = T(tk: nat) | N(nt: Nt) | M(nt: Nt)

  datatype Rule = Rule(lhs: Nt, rhs: seq<Term>)

  const SIZE: nat := 99
  const FIRST_BINARY: nat := 46
  const LAST_BINARY: nat := 81

  /** The rules in table order; the binary operators' rules follow the order of their tokens. */
  function RuleAt(i: nat): Rule
    requires i < SIZE
  {
    if i < 24 then StatementRule(i)
    else if i < FIRST_BINARY then MiddleRule(i)
    else if i <= LAST_BINARY then Rule(Bexp, [N(Expr), T(ASSN + i - FIRST_BINARY), N(Expr)])
    else UnaryRule(i)
  }

  function StatementRule(i: nat): Rule {
    if i == 0 then Rule(Unit, [T(FBEG), M(Stmt), T(FEND)])
    else if i == 1 then Rule(Stmt, [T(WAIT), N(Expr), T(WFOR), N(Expr), T(SCOL)])
    else if i == 2 then Rule(Stmt, [T(WAIT), N(Expr), T(WFOR), N(Expr), T(WNOB), T(SCOL)])
    else if i == 3 then Rule(Stmt, [T(WAIT), N(Expr), T(WUNT), N(Expr), T(SCOL)])
    else if i == 4 then Rule(Stmt, [T(WAIT), N(Expr), T(WUNT), N(Expr), T(WNOB), T(SCOL)])
    else if i == 5 then Rule(Stmt, [T(WAIT), N(Expr), T(SCOL)])
    else if i == 6 then Rule(Stmt, [T(WAIT), N(Expr), T(WNOB), T(SCOL)])
    else if i == 7 then Rule(Stmt, [T(RETN), N(Expr), T(SCOL)])
    else if i == 8 then Rule(Stmt, [T(RETN), T(SCOL)])
    else if i == 9 then Rule(Stmt, [T(USEU), N(Expr), T(SCOL)])
    else if i == 10 then Rule(Stmt, [T(EXPO), T(TYPE), N(Expr), T(SCOL)])
    else if i == 11 then Rule(Stmt, [T(TYPE), N(Expr), T(SCOL)])
    else if i == 12 then Rule(Ctrl, [N(Cond), M(Elif)])
    else if i == 13 then Rule(Ctrl, [N(Cond), M(Elif), N(Else)])
    else if i == 14 then Rule(Ctrl, [N(Dowh)])
    else if i == 15 then Rule(Ctrl, [N(Whil)])
    else if i == 16 then Rule(Cond, [T(COND), N(Expr), T(LBRC), M(Stmt), T(RBRC)])
    else if i == 17 then Rule(Elif, [T(ELIF), N(Expr), T(LBRC), M(Stmt), T(RBRC)])
    else if i == 18 then Rule(Else, [T(ELSE), T(LBRC), M(Stmt), T(RBRC)])
    else if i == 19 then Rule(Dowh, [T(DOWH), T(LBRC), M(Stmt), T(RBRC), T(WHIL), N(Expr), T(SCOL)])
    else if i == 20 then Rule(Whil, [T(WHIL), N(Expr), T(LBRC), M(Stmt), T(RBRC)])
    else if i == 21 then Rule(Stmt, [M(Qual), N(Expr), T(SCOL)])
    else if i == 22 then Rule(Stmt, [N(Ctrl)])
    else Rule(Stmt, [N(Func)])
  }

  function MiddleRule(i: nat): Rule {
    if i == 24 then Rule(Func, [M(Qual), N(Expr), T(LBRC), M(Stmt), T(RBRC)])
    else if i == 25 then Rule(Stmt, [T(NOIN), T(LBRC), M(Stmt), T(RBRC)])
    else if i == 26 then Rule(Stmt, [T(LBRC), M(Stmt), T(RBRC)])
    else if i == 27 then Rule(Qual, [T(CONS)])
    else if i == 28 then Rule(Qual, [T(EXPO)])
    else if i == 29 then Rule(Qual, [T(STAT)])
    else if i == 30 then Rule(Atom, [T(NAME)])
    else if i == 31 then Rule(Atom, [T(NMBR)])
    else if i == 32 then Rule(Atom, [T(STRL)])
    else if i == 33 then Rule(Expr, [N(Atom)])
    else if i == 34 then Rule(Expr, [N(Fexp)])
    else if i == 35 then Rule(Expr, [N(Pexp)])
    else if i == 36 then Rule(Expr, [N(Texp)])
    else if i == 37 then Rule(Expr, [N(Bexp)])
    else if i == 38 then Rule(Expr, [N(Uexp)])
    else if i == 39 then Rule(Expr, [N(Xexp)])
    else if i == 40 then Rule(Expr, [N(Wexp)])
    else if i == 41 then Rule(Expr, [N(Aexp)])
    else if i == 42 then Rule(Fexp, [N(Expr), T(LPAR), N(Expr), T(RPAR)])
    else if i == 43 then Rule(Fexp, [N(Expr), T(LPAR), T(RPAR)])
    else if i == 44 then Rule(Pexp, [T(LPAR), N(Expr), T(RPAR)])
    else Rule(Texp, [N(Expr), T(QUES), N(Expr), T(COLN), N(Expr)])
  }

  function UnaryRule(i: nat): Rule {
    if i == 82 then Rule(Uexp, [T(PLUS), N(Expr)])
    else if i == 83 then Rule(Uexp, [T(MINS), N(Expr)])
    else if i == 84 then Rule(Uexp, [T(EXCL), N(Expr)])
    else if i == 85 then Rule(Uexp, [T(TILD), N(Expr)])
    else if i == 86 then Rule(Uexp, [T(MULT), N(Expr)])
    else if i == 87 then Rule(Uexp, [T(AMPS), N(Expr)])
    else if i == 88 then Rule(Uexp, [T(CARE), N(Expr)])
    else if i == 89 then Rule(Uexp, [T(INCR), N(Expr)])
    else if i == 90 then Rule(Uexp, [T(DECR), N(Expr)])
    else if i == 91 then Rule(Uexp, [T(SZOF), N(Expr)])
    else if i == 92 then Rule(Uexp, [T(ALOF), N(Expr)])
    else if i == 93 then Rule(Xexp, [N(Expr), T(INCR)])
    else if i == 94 then Rule(Xexp, [N(Expr), T(DECR)])
    else if i == 95 then Rule(Wexp, [N(Expr), T(WMSE)])
    else if i == 96 then Rule(Wexp, [N(Expr), T(WSEC)])
    else if i == 97 then Rule(Aexp, [N(Expr), T(LBRA), N(Expr), T(RBRA)])
    else Rule(Stmt, [T(LBRA), N(Expr), T(RBRA)])
  }

  /** A leaf holds its token; an inner node its non-terminal and its children. */
  datatype Node = Leaf(token: Token) | Branch(nt: Nt, kids: seq<Node>)

  /** term_eq_node */
  predicate TermEq(t: Term, n: Node) {
    match t
    case T(tk) => n.Leaf? && n.token.tk == tk
    case N(nt) => n.Branch? && n.nt == nt
    case M(nt) => n.Branch? && n.nt == nt
  }

  /** The nodes spell the terms, a starred term standing for any number of nodes. */
  predicate Spells(rhs: seq<Term>, nodes: seq<Node>)
    decreases |rhs| + |nodes|
  {
    if rhs == [] then nodes == []
    else
      var t := rhs[|rhs| - 1];
      if t.M? then
        || Spells(rhs[..|rhs| - 1], nodes)
        || (nodes != [] && TermEq(t, nodes[|nodes| - 1]) && Spells(rhs, nodes[..|nodes| - 1]))
      else
        nodes != [] && TermEq(t, nodes[|nodes| - 1]) && Spells(rhs[..|rhs| - 1], nodes[..|nodes| - 1])
  }

  /** Every inner node and its children are an instance of a rule. */
  ghost predicate Derived(n: Node)
    decreases n
  {
    n.Branch? ==>
      && n.kids != []
      && (exists i: nat :: i < SIZE && RuleAt(i).lhs == n.nt && Spells(RuleAt(i).rhs, n.kids))
      && forall k :: 0 <= k < |n.kids| ==> Derived(n.kids[k])
  }

  /** The tokens at the leaves, left to right. */
  function Leaves(n: Node): seq<Token>
    decreases n, 0
  {
    match n
    case Leaf(t) => [t]
    case Branch(_, kids) => LeavesOf(kids)
  }

  function LeavesOf(ns: seq<Node>): seq<Token>
    decreases ns, 1
  {
    if ns == [] then [] else Leaves(ns[0]) + LeavesOf(ns[1..])
  }

  lemma {:induction false} LeavesConcat(a: seq<Node>, b: seq<Node>)
    ensures LeavesOf(a + b) == LeavesOf(a) + LeavesOf(b)
    decreases |a|
  {
    if a == [] {
      assert a + b == b;
    } else {
      assert (a + b)[1..] == a[1..] + b;
      LeavesConcat(a[1..], b);
    }
  }

  // ---------- facts about the table ----------

  /** How far a node is from the goal symbol through rules that merely rename it. */
  function Rank(n: Node): nat {
    match n
    case Leaf(_) => 4
    case Branch(nt, _) =>
      match nt
      case Unit | Qual | Elif | Else => 0
      case Stmt => 1
      case Expr | Ctrl | Func => 2
      case _ => 3
  }

  function NtRank(nt: Nt): nat {
    Rank(Branch(nt, []))
  }

  /** At least two unstarred terms, near the end of the right-hand side. */
  predicate TwoPlain(rhs: seq<Term>) {
    var n := |rhs|;
    n >= 2 && !rhs[n - 1].M? && (!rhs[n - 2].M? || (n >= 3 && !rhs[n - 3].M?))
  }

  lemma PlainNeedsOne(rhs: seq<Term>, nodes: seq<Node>)
    requires Spells(rhs, nodes) && rhs != []
    requires !rhs[|rhs| - 1].M? || (|rhs| >= 2 && !rhs[|rhs| - 2].M?)
    ensures nodes != []
  {
    if |rhs| >= 2 {
      assert rhs[..|rhs| - 1][|rhs| - 2] == rhs[|rhs| - 2];
    }
  }

  lemma TwoPlainSpellsTwo(rhs: seq<Term>, nodes: seq<Node>)
    requires TwoPlain(rhs) && Spells(rhs, nodes)
    ensures |nodes| >= 2
  {
    PlainNeedsOne(rhs[..|rhs| - 1], nodes[..|nodes| - 1]);
  }

  /** Every rule has two unstarred terms, or renames a single node, or is the bare conditional. */
  lemma RuleShapes(i: nat)
    requires i < SIZE
    ensures var r := RuleAt(i);
      || TwoPlain(r.rhs)
      || (|r.rhs| == 1 && !r.rhs[0].M? && forall n: Node :: TermEq(r.rhs[0], n) ==> NtRank(r.lhs) < Rank(n))
      || r == Rule(Ctrl, [N(Cond), M(Elif)])
  {
    if i < 24 {
      StatementShapes(i);
    } else if i < FIRST_BINARY {
      MiddleShapes(i);
    }
  }

  lemma StatementShapes(i: nat)
    requires i < 24
    ensures var r := StatementRule(i);
      || TwoPlain(r.rhs)
      || (|r.rhs| == 1 && !r.rhs[0].M? && forall n: Node :: TermEq(r.rhs[0], n) ==> NtRank(r.lhs) < Rank(n))
      || r == Rule(Ctrl, [N(Cond), M(Elif)])
  {
  }

  lemma MiddleShapes(i: nat)
    requires 24 <= i < FIRST_BINARY
    ensures var r := MiddleRule(i);
      || TwoPlain(r.rhs)
      || (|r.rhs| == 1 && !r.rhs[0].M? && forall n: Node :: TermEq(r.rhs[0], n) ==> NtRank(r.lhs) < Rank(n))
  {
  }

  /** A single node reduced is strictly nearer the goal. */
  lemma RenamingRanksDown(i: nat, n: Node)
    requires i < SIZE && Spells(RuleAt(i).rhs, [n])
    ensures NtRank(RuleAt(i).lhs) < Rank(n)
  {
    RuleShapes(i);
    var rhs := RuleAt(i).rhs;
    hide RuleAt;
    if TwoPlain(rhs) {
      TwoPlainSpellsTwo(rhs, [n]);
    } else if |rhs| > 1 {
      BareConditional(n);
    }
  }

  lemma BareConditional(n: Node)
    requires Spells([N(Cond), M(Elif)], [n])
    ensures n.Branch? && n.nt == Cond
  {
    var rhs := [N(Cond), M(Elif)];
    assert rhs[..1] == [N(Cond)] && [n][..0] == [];
    assert !Spells([N(Cond)], []);
    assert !Spells(rhs, []);
  }

  /** Only the rule for the whole file speaks of its end or of itself. */
  lemma OnlyUnitEnds(i: nat, k: nat)
    requires 0 < i < SIZE && k < |RuleAt(i).rhs|
    ensures Inner(RuleAt(i).rhs[k]) && RuleAt(i).lhs != Unit
  {
    hide Inner;
    if i < 24 {
      StatementInner(i, k);
    } else if i < FIRST_BINARY {
      MiddleInner(i, k);
    } else if i <= LAST_BINARY {
      InnerTerms(ASSN + i - FIRST_BINARY);
    } else {
      UnaryInner(i, k);
    }
  }

  predicate Inner(t: Term) {
    t != T(FEND) && t != N(Unit) && t != M(Unit)
  }

  lemma InnerTerms(tk: nat)
    ensures Inner(N(Expr)) && (tk < COUNT ==> Inner(T(tk)))
  {
  }

  lemma StatementInner(i: nat, k: nat)
    requires 0 < i < 24 && k < |StatementRule(i).rhs|
    ensures Inner(StatementRule(i).rhs[k]) && StatementRule(i).lhs != Unit
  {
  }

  lemma MiddleInner(i: nat, k: nat)
    requires 24 <= i < FIRST_BINARY && k < |MiddleRule(i).rhs|
    ensures Inner(MiddleRule(i).rhs[k]) && MiddleRule(i).lhs != Unit
  {
  }

  lemma UnaryInner(i: nat, k: nat)
    requires LAST_BINARY < i < SIZE && k < |UnaryRule(i).rhs|
    ensures Inner(UnaryRule(i).rhs[k]) && UnaryRule(i).lhs != Unit
  {
  }

  /** The last node spelt is an instance of some term. */
  lemma {:induction false} LastIsTerm(rhs: seq<Term>, nodes: seq<Node>) returns (k: nat)
    requires Spells(rhs, nodes) && nodes != []
    ensures k < |rhs| && TermEq(rhs[k], nodes[|nodes| - 1])
    decreases |rhs|
  {
    k := |rhs| - 1;
    if rhs[k].M? && !(TermEq(rhs[k], nodes[|nodes| - 1])) {
      k := LastIsTerm(rhs[..k], nodes);
    }
  }
}
