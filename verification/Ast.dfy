/** The typed syntax of scalar function bodies that the code generator walks.

    Names are resolved: a variable is the index of its declaration in the function's table, a function
    the index of its definition, a wait label the (function, id) pair assigned to it. */
module Ast {
  import opened Options
  import opened Words

  /** A declared variable.  `ty` is None for arrays, structs and pointers: they take frame space, but no
      expression of the scalar fragment names them. */
  datatype VarDecl = VarDecl(ty: Option<Ty>, size: nat, align: nat, cons: bool)

  datatype Label = Label(func: nat, id: nat)

  /** The noint bit, with a history the original does not keep: how often INT has cleared it. */
  datatype Flag = Flag(on: bool, cleared: nat) {

    function Raised(): Flag {
      Flag(true, cleared)
    }

    function Lowered(): Flag {
      Flag(false, cleared + 1)
    }
  }

  datatype Expr =
    | Num(val: nat)
    | Bool(b: bool)
    | Name(x: nat)
    | Assign(x: nat, rhs: Expr)
    | AssignOp(op: ArithOp, x: nat, rhs: Expr)
    | Arith(op: ArithOp, l: Expr, r: Expr)
    | Cmp(cmp: CmpOp, l: Expr, r: Expr)
    | Conj(l: Expr, r: Expr)
    | Disj(l: Expr, r: Expr)
    | Comma(l: Expr, r: Expr)
    | Cast(e: Expr, to: Ty)
    | UPlus(e: Expr)
    | UMinus(e: Expr)
    | LNot(e: Expr)
    | BNot(e: Expr)
    | PreInc(up: bool, x: nat)
    | PostInc(up: bool, x: nat)
    | Tern(c: Expr, t: Expr, f: Expr)
    | Call(g: nat, args: Args)

  datatype Args = NoArgs | Arg(head: Expr, tail: Args)

  datatype Stmt =
    | Decl(names: seq<nat>, init: Option<Expr>)
    | ExprS(e: Expr)
    | Block(body: Stmts)
    | NoInt(body: Stmts)
    | If(branches: Else)
    | While(c: Expr, body: Stmts)
    | DoWhile(body: Stmts, c: Expr)
    | Return(val: Option<Expr>)
    | WLabel(lab: Label)

  datatype Stmts = Nil | Cons(head: Stmt, tail: Stmts)

  /** The branches of a conditional: an if or elif with what follows it, an else block, or nothing. */
  datatype Else = NoElse | ElseBlock(body: Stmts) | Elif(c: Expr, body: Stmts, els: Else)

  /** The first `params` variables are the parameters. */
  datatype Func = Func(params: nat, vars: seq<VarDecl>, ret: Option<Ty>, body: Stmts)

  type Program = seq<Func>

  /** What type_of_expr yields for an accepted scalar expression. */
  datatype ETy = TVoid | TInt(ty: Ty) | TErr

  predicate Scalar(f: Func, x: nat) {
    && x < |f.vars|
    && f.vars[x].ty.Some?
    && f.vars[x].size == f.vars[x].ty.value.Size()
    && f.vars[x].align == f.vars[x].ty.value.Size()
  }

  function NumTy(v: nat): Ty {
    if v <= 0xFF then U8 else if v <= 0xFFFF then U16 else if v <= 0xFFFFFFFF then U32 else U64
  }

  predicate SameWord(a: Ty, b: Ty) {
    a.Size() == b.Size() && a.Signed() == b.Signed()
  }

  predicate BinOk(op: ArithOp, a: ETy, b: ETy) {
    && a.TInt? && b.TInt? && SameWord(a.ty, b.ty)
    && (op.UnsignedOnly() ==> !a.ty.Signed())
  }

  /** The checks of type_from_expr for the scalar fragment, with the language's assumption that a ternary
      has values in both branches. */
  function TypeOf(p: Program, f: Func, e: Expr): ETy
    decreases e
  {
    match e
    case Num(v) => if v < 0x1_0000_0000_0000_0000 then TInt(NumTy(v)) else TErr
    case Bool(_) => TInt(U8)
    case Name(x) => if Scalar(f, x) && Declared(f, x) then TInt(f.vars[x].ty.value) else TErr
    case Assign(x, rhs) =>
      if Modifiable(f, x) && TypeOf(p, f, rhs) == TInt(f.vars[x].ty.value) then TypeOf(p, f, rhs) else TErr
    case AssignOp(op, x, rhs) =>
      if Modifiable(f, x) && BinOk(op, TInt(f.vars[x].ty.value), TypeOf(p, f, rhs))
      then TInt(f.vars[x].ty.value) else TErr
    case Arith(op, l, r) =>
      if BinOk(op, TypeOf(p, f, l), TypeOf(p, f, r)) then TypeOf(p, f, l) else TErr
    case Cmp(_, l, r) => if BinOk(Add, TypeOf(p, f, l), TypeOf(p, f, r)) then TInt(U8) else TErr
    case Conj(l, r) => if BinOk(Add, TypeOf(p, f, l), TypeOf(p, f, r)) then TInt(U8) else TErr
    case Disj(l, r) => if BinOk(Add, TypeOf(p, f, l), TypeOf(p, f, r)) then TInt(U8) else TErr
    case Comma(l, r) => if TypeOf(p, f, l).TErr? then TErr else TypeOf(p, f, r)
    case Cast(a, to) => if TypeOf(p, f, a).TInt? then TInt(to) else TErr
    case UPlus(a) => if TypeOf(p, f, a).TInt? then TypeOf(p, f, a) else TErr
    case UMinus(a) => if TypeOf(p, f, a).TInt? then TInt(TypeOf(p, f, a).ty.Negated()) else TErr
    case LNot(a) => if TypeOf(p, f, a).TInt? then TypeOf(p, f, a) else TErr
    case BNot(a) =>
      if TypeOf(p, f, a).TInt? && !TypeOf(p, f, a).ty.Signed() then TypeOf(p, f, a) else TErr
    case PreInc(_, x) => if Modifiable(f, x) then TInt(f.vars[x].ty.value) else TErr
    case PostInc(_, x) => if Modifiable(f, x) then TInt(f.vars[x].ty.value) else TErr
    case Tern(c, a, b) =>
      if TypeOf(p, f, c).TInt? && TypeOf(p, f, a).TInt? && TypeOf(p, f, a) == TypeOf(p, f, b)
      then TypeOf(p, f, a) else TErr
    case Call(g, args) =>
      if g < |p| && ArgsOk(p, f, args, p[g], 0)
      then (if p[g].ret.Some? then TInt(p[g].ret.value) else TVoid) else TErr
  }

  predicate ArgsOk(p: Program, f: Func, args: Args, g: Func, i: nat)
    decreases args
  {
    match args
    case NoArgs => i == g.params
    case Arg(a, rest) =>
      && i < g.params && Scalar(g, i) && TypeOf(p, f, a) == TInt(g.vars[i].ty.value)
      && ArgsOk(p, f, rest, g, i + 1)
  }

  /** expr_is_lvalue on a name, in the scalar fragment. */
  predicate Modifiable(f: Func, x: nat) {
    Scalar(f, x) && !f.vars[x].cons && Declared(f, x)
  }

  predicate StmtOk(p: Program, f: Func, s: Stmt)
    decreases s
  {
    match s
    case Decl(names, init) =>
      init.Some? ==> !TypeOf(p, f, init.value).TErr? && forall x :: x in names ==>
        Scalar(f, x) && Declared(f, x) && TypeOf(p, f, init.value) == TInt(f.vars[x].ty.value)
    case ExprS(e) => !TypeOf(p, f, e).TErr?
    case Block(b) => StmtsOk(p, f, b)
    case NoInt(b) => StmtsOk(p, f, b)
    case If(els) => els.Elif? && ElseOk(p, f, els)
    case While(c, b) => TypeOf(p, f, c).TInt? && StmtsOk(p, f, b)
    case DoWhile(b, c) => StmtsOk(p, f, b) && TypeOf(p, f, c).TInt?
    case Return(v) =>
      if v.Some? then f.ret.Some? && TypeOf(p, f, v.value) == TInt(f.ret.value) else f.ret.None?
    case WLabel(_) => true
  }

  predicate StmtsOk(p: Program, f: Func, ss: Stmts)
    decreases ss
  {
    ss.Cons? ==> StmtOk(p, f, ss.head) && StmtsOk(p, f, ss.tail)
  }

  predicate ElseOk(p: Program, f: Func, e: Else)
    decreases e
  {
    match e
    case NoElse => true
    case ElseBlock(b) => StmtsOk(p, f, b)
    case Elif(c, b, els) => TypeOf(p, f, c).TInt? && StmtsOk(p, f, b) && ElseOk(p, f, els)
  }

  /** The variables a statement declares, in the order create_frame_layout meets them. */
  function DeclIds(s: Stmt): seq<nat>
    decreases s
  {
    match s
    case Decl(names, _) => names
    case Block(b) => DeclIdsOf(b)
    case NoInt(b) => DeclIdsOf(b)
    case If(els) => DeclIdsElse(els)
    case While(_, b) => DeclIdsOf(b)
    case DoWhile(b, _) => DeclIdsOf(b)
    case _ => []
  }

  function DeclIdsOf(ss: Stmts): seq<nat>
    decreases ss
  {
    match ss
    case Nil => []
    case Cons(s, rest) => DeclIds(s) + DeclIdsOf(rest)
  }

  function DeclIdsElse(e: Else): seq<nat>
    decreases e
  {
    match e
    case NoElse => []
    case ElseBlock(b) => DeclIdsOf(b)
    case Elif(_, b, els) => DeclIdsOf(b) + DeclIdsElse(els)
  }

  predicate Declared(f: Func, x: nat) {
    x < f.params || x in DeclIdsOf(f.body)
  }

  predicate AlignOk(a: nat) {
    a == 1 || a == 2 || a == 4 || a == 8
  }

  /** Every variable is declared once, in range, with a power-of-two alignment. */
  predicate DeclsOk(f: Func) {
    && f.params <= |f.vars|
    && (forall x: nat :: x < |f.vars| ==> AlignOk(f.vars[x].align))
    && (forall k :: 0 <= k < |DeclIdsOf(f.body)| ==> f.params <= DeclIdsOf(f.body)[k] < |f.vars|)
    && Distinct(DeclIdsOf(f.body))
  }

  predicate Distinct(xs: seq<nat>) {
    forall i, j :: 0 <= i < j < |xs| ==> xs[i] != xs[j]
  }

  predicate FuncOk(p: Program, f: Func) {
    && DeclsOk(f)
    && (forall x: nat :: x < f.params ==> Scalar(f, x))
    && StmtsOk(p, f, f.body)
  }

  predicate ProgramOk(p: Program) {
    forall i :: 0 <= i < |p| ==> FuncOk(p, p[i])
  }
}
