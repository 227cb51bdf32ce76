/** One virtual machine stepping on its own: everything an instruction does that concerns no other
    machine.  Instructions that create, resume, inspect or reap another machine stop with `External`. */
module Machine {
  import opened Options
  import opened Bytes
  import opened Words
  import opened Ast
  import opened Insn

  /** The private state of a struct qvm; the head of `temps` is the current frame of temporaries. */
  datatype Local = Local(
    ip: nat, sp: nat, bp: nat, stack: Mem, temps: seq<Mem>,
    atStart: bool, noint: Flag, passed: Label)

  /** What one instruction leads to.  Illegal is a failed legality check, Fault an access the C code
      leaves undefined, Finished a return of the outermost frame with its value. */
  datatype Next =
    | Next(l: Local)
    | Finished(l: Local, size: nat, val: nat)
    | Illegal
    | Fault
    | External

  /** The unspecified contents of freshly allocated memory: any bytes, different at every allocation. */
  type Fill = (Local, nat) -> Byte

  predicate InBounds(l: Local, o: Opd) {
    && o.size > 0
    && match o
       case Imm(_, _, _) => true
       case Temp(_, off, size) => l.temps != [] && off + size <= |l.temps[0]|
       case Auto(_, off, size) => l.bp + off + size <= |l.stack|
  }

  predicate Writable(l: Local, o: Opd) {
    InBounds(l, o) && !o.Imm?
  }

  function Get(l: Local, o: Opd): (v: nat)
    requires InBounds(l, o)
    ensures v < Pow256(o.size)
  {
    match o
    case Imm(_, v, size) => v % Pow256(size)
    case Temp(_, off, size) => Read(l.temps[0], off, size)
    case Auto(_, off, size) => Read(l.stack, l.bp + off, size)
  }

  function Set(l: Local, o: Opd, v: nat): (l': Local)
    requires Writable(l, o)
    ensures |l'.stack| == |l.stack| && |l'.temps| == |l.temps|
  {
    match o
    case Temp(_, off, size) => l.(temps := [Write(l.temps[0], off, size, v)] + l.temps[1..])
    case Auto(_, off, size) => l.(stack := Write(l.stack, l.bp + off, size, v))
  }

  function Advance(l: Local): Local {
    l.(ip := l.ip + 1)
  }

  /** A handler that computes one word from its sources and stores it. */
  function Store(l: Local, legal: bool, dst: Opd, v: Option<nat>): Next {
    if !legal then Illegal
    else if v.None? || !Writable(l, dst) then Fault
    else Next(Advance(Set(l, dst, v.value)))
  }

  function Load(l: Local, o: Opd): (v: Option<nat>)
    ensures v.Some? ==> v.value < Pow256(o.size)
  {
    if InBounds(l, o) then Some(Get(l, o)) else None
  }

  function StepMov(l: Local, dst: Opd, src: Opd): Next {
    Store(l, dst.size == src.size, dst, Load(l, src))
  }

  function StepCast(l: Local, dst: Opd, src: Opd): Next {
    var v := Load(l, src);
    Store(l, true, dst, if v.Some? then Some(CastPat(src.size, dst.size, v.value)) else None)
  }

  function StepBin(l: Local, op: ArithOp, dst: Opd, a: Opd, b: Opd): Next {
    var x, y := Load(l, a), Load(l, b);
    Store(l, dst.signd == a.signd == b.signd && IsWord(dst.size) && dst.size == a.size == b.size, dst,
          if x.Some? && y.Some? then Alu(op, dst.signd, dst.size, x.value, y.value) else None)
  }

  function StepCmp(l: Local, op: CmpOp, dst: Opd, a: Opd, b: Opd): Next {
    var x, y := Load(l, a), Load(l, b);
    var legal := !dst.signd && dst.size == 1 && a.size == b.size
                 && (op.Equ? || op.Neq? || (a.signd == b.signd && IsWord(a.size)));
    Store(l, legal, dst,
          if x.Some? && y.Some? then Some(AluCmp(op, a.signd, a.size, x.value, y.value)) else None)
  }

  predicate UnLegal(op: UnOp, dst: Opd, src: Opd) {
    && IsWord(dst.size) && IsWord(src.size)
    && match op
       case NotOp => dst.signd == src.signd && dst.size == src.size
       case NegOp => dst.signd && dst.size == src.size
       case BnegOp => !dst.signd && !src.signd && dst.size == src.size
       case OzOp => !dst.signd && dst.size == 1
  }

  function AluUn(op: UnOp, src: Opd, p: nat): nat
    requires p < Pow256(src.size)
  {
    match op
    case NotOp => if p == 0 then 1 else 0
    case NegOp => FromInt(src.size, -ToInt(src.signd, src.size, p))
    case BnegOp => Pow256(src.size) - 1 - p
    case OzOp => if p == 0 then 0 else 1
  }

  function StepUn(l: Local, op: UnOp, dst: Opd, src: Opd): Next {
    var v := Load(l, src);
    Store(l, UnLegal(op, dst, src), dst, if v.Some? then Some(AluUn(op, src, v.value)) else None)
  }

  function Bump(up: bool, o: Opd, p: nat): nat {
    FromInt(o.size, ToInt(o.signd, o.size, p) + if up then 1 else -1)
  }

  function StepIncDec(l: Local, up: bool, dst: Opd): Next {
    var v := Load(l, dst);
    Store(l, IsWord(dst.size), dst, if v.Some? then Some(Bump(up, dst, v.value)) else None)
  }

  /** Postfix: the destination gets the old word, the source is bumped. */
  function StepIncDecP(l: Local, up: bool, dst: Opd, src: Opd): Next {
    if !(IsWord(dst.size) && dst.signd == src.signd && dst.size == src.size) then Illegal
    else if !Writable(l, src) || !Writable(l, dst) then Fault
    else
      var v := Get(l, src);
      Next(Advance(Set(Set(l, src, Bump(up, src, v)), dst, v)))
  }

  function StepCJmp(l: Local, cond: Opd, loc: nat, onZero: bool): Next {
    if cond.size == 0 then Illegal
    else if !InBounds(l, cond) then Fault
    else Next(if (Get(l, cond) == 0) == onZero then l.(ip := loc) else Advance(l))
  }

  predicate WordTemp(o: Opd) {
    o.Temp? && !o.signd && o.size == 8
  }

  /** Saves the return address and the base pointer, and the stack height after them in a temporary. */
  function StepPushR(l: Local, retip: nat, ssp: Opd): Next {
    if !(WordTemp(ssp) && l.sp % 8 == 0 && l.sp + 16 <= |l.stack|) then Illegal
    else if !Writable(l, ssp) then Fault
    else
      var s := Write(Write(l.stack, l.sp, 8, retip), l.sp + 8, 8, l.bp);
      Next(Advance(Set(l.(stack := s, sp := l.sp + 16), ssp, l.sp + 16)))
  }

  function Aligned8(n: nat): (r: nat)
    ensures n <= r < n + 8 && r % 8 == 0
  {
    if n % 8 == 0 then n else n + 8 - n % 8
  }

  function StepPush(l: Local, src: Opd): Next {
    if !(src.size > 0 && l.sp % 8 == 0 && l.sp + src.size <= |l.stack|) then Illegal
    else if !InBounds(l, src) then Fault
    else if Aligned8(l.sp + src.size) > |l.stack| then Illegal
    else Next(Advance(l.(stack := Write(l.stack, l.sp, src.size, Get(l, src)), sp := Aligned8(l.sp + src.size))))
  }

  function StepCall(l: Local, fn: Opd, base: Opd): Next {
    if !(!fn.signd && fn.size == 8 && WordTemp(base)) then Illegal
    else if !(InBounds(l, fn) && InBounds(l, base)) then Fault
    else Next(l.(ip := Get(l, fn), bp := Get(l, base)))
  }

  function Fresh(n: nat, fill: Fill, l: Local): (m: Mem)
    ensures |m| == n
  {
    seq(n, i requires 0 <= i < n => fill(l, i))
  }

  function StepIncSp(l: Local, addend: nat, tsize: nat, fill: Fill): Next {
    if !(addend % 8 == 0 && l.sp + addend <= |l.stack| && (l.sp + addend) % 8 == 0) then Illegal
    else Next(Advance(l.(atStart := false, sp := l.sp + addend, temps := [Fresh(tsize, fill, l)] + l.temps)))
  }

  /** RET and RETV, followed by the two branches of handle_return that stay inside the machine:
      the outermost frame finishes, an inner frame restores its caller and delivers the value. */
  function StepRet(code: seq<Insn>, l: Local, val: Option<Opd>, rsize: nat): Next {
    if !(l.sp % 8 == 0 && l.bp % 8 == 0 && l.sp >= rsize && l.temps != []) then Illegal
    else if val.Some? && !InBounds(l, val.value) then Fault
    else
      var size := if val.Some? then val.value.size else 0;
      var v := if val.Some? then Get(l, val.value) else 0;
      HandleReturn(code, l.(sp := l.sp - rsize), size, v)
  }

  function HandleReturn(code: seq<Insn>, l: Local, size: nat, v: nat): Next
    requires l.temps != []
  {
    if l.sp == 0 then Finished(l, size, v)
    else if l.sp + 16 > |l.stack| then Fault
    else
      var ip, bp := Read(l.stack, l.sp, 8), Read(l.stack, l.sp + 8, 8);
      var l1 := l.(ip := ip, bp := bp, temps := l.temps[1..]);
      if !(ip < |code| && bp <= |l.stack|) then Illegal
      else if size == 0 then Next(Advance(l1))
      else if !(code[ip].CallV? && code[ip].dst.size == size) then Illegal
      else if !Writable(l1, code[ip].dst) then Fault
      else Next(Advance(Set(l1, code[ip].dst, v)))
  }

  function StepGetSp(l: Local, dst: Opd): Next {
    Store(l, WordTemp(dst), dst, Some(l.sp))
  }

  function Step(code: seq<Insn>, l: Local, fill: Fill): Next {
    if l.ip >= |code| then Fault
    else
      match code[l.ip]
      case Nop => Next(Advance(l))
      case Mov(d, s) => StepMov(l, d, s)
      case CastI(d, s) => StepCast(l, d, s)
      case Bin(op, d, a, b) => StepBin(l, op, d, a, b)
      case CmpI(op, d, a, b) => StepCmp(l, op, d, a, b)
      case Un(op, d, s) => StepUn(l, op, d, s)
      case IncDec(up, d) => StepIncDec(l, up, d)
      case IncDecP(up, d, s) => StepIncDecP(l, up, d, s)
      case Jz(c, loc) => StepCJmp(l, c, loc, true)
      case Jnz(c, loc) => StepCJmp(l, c, loc, false)
      case Jmp(loc) => Next(l.(ip := loc))
      case PushR(r, ssp) => StepPushR(l, r, ssp)
      case Push(s) => StepPush(l, s)
      case CallI(fn, base) => StepCall(l, fn, base)
      case CallV(_, fn, base) => StepCall(l, fn, base)
      case IncSp(a, t) => StepIncSp(l, a, t, fill)
      case RetI(n) => StepRet(code, l, None, n)
      case RetV(s, n) => StepRet(code, l, Some(s), n)
      case WLab(lab) => Next(Advance(l.(passed := lab)))
      case GetSp(d) => StepGetSp(l, d)
      case NoIntI => Next(Advance(l.(noint := l.noint.Raised())))
      case IntI => Next(Advance(l.(noint := l.noint.Lowered())))
      case _ => External
  }

  /** k instructions; the first one that does not lead to a next state decides. */
  function Run(code: seq<Insn>, l: Local, k: nat, fill: Fill): Next
    decreases k
  {
    if k == 0 then Next(l)
    else
      match Step(code, l, fill)
      case Next(l1) => Run(code, l1, k - 1, fill)
      case o => o
  }

  lemma {:induction false} RunAdd(code: seq<Insn>, l: Local, i: nat, j: nat, fill: Fill)
    requires Run(code, l, i, fill).Next?
    ensures Run(code, l, i + j, fill) == Run(code, Run(code, l, i, fill).l, j, fill)
    decreases i
  {
    hide Step;
    if i > 0 {
      RunAdd(code, Step(code, l, fill).l, i - 1, j, fill);
    }
  }

  /** A machine that has stopped stays stopped, with the same outcome: execution is deterministic. */
  lemma {:induction false} RunStopped(code: seq<Insn>, l: Local, i: nat, j: nat, fill: Fill)
    requires i <= j && !Run(code, l, i, fill).Next?
    ensures Run(code, l, j, fill) == Run(code, l, i, fill)
    decreases i
  {
    hide Step;
    if i > 0 && Step(code, l, fill).Next? {
      RunStopped(code, Step(code, l, fill).l, i - 1, j - 1, fill);
    }
  }
}
