/** The instruction set: memory-to-memory instructions over immediate, temporary and frame operands. */
module Insn {
  import opened Words
  import opened Ast

  /** An operand.  An immediate of size 0 is a function reference that linking has not resolved yet. */
  datatype Opd =
    | Imm(signd: bool, val: nat, size: nat)
    | Temp(signd: bool, off: nat, size: nat)
    | Auto(signd: bool, off: nat, size: nat)

  datatype UnOp = NotOp | NegOp | BnegOp | OzOp

  datatype Insn =
    | Nop
    | Mov(dst: Opd, src: Opd)
    | CastI(dst: Opd, src: Opd)
    | Bin(op: ArithOp, dst: Opd, src1: Opd, src2: Opd)
    | CmpI(cmp: CmpOp, dst: Opd, src1: Opd, src2: Opd)
    | Un(un: UnOp, dst: Opd, src: Opd)
    | IncDec(up: bool, dst: Opd)
    | IncDecP(up: bool, dst: Opd, src: Opd)
    | Jz(cond: Opd, loc: nat)
    | Jnz(cond: Opd, loc: nat)
    | Jmp(loc: nat)
    | PushR(retip: nat, ssp: Opd)
    | Push(src: Opd)
    | CallI(fn: Opd, base: Opd)
    | CallV(dst: Opd, fn: Opd, base: Opd)
    | IncSp(addend: nat, tsize: nat)
    | RetI(rsize: nat)
    | RetV(src: Opd, rsize: nat)
    | Rte(quaint: Opd)
    | RteV(dst: Opd, quaint: Opd)
    | Qat(dst: Opd, quaint: Opd, lab: Label)
    | Wait(quaint: Opd, timeout: Opd, lab: Label, seconds: bool, timed: bool)
    | WLab(lab: Label)
    | GetSp(dst: Opd)
    | Qnt(dst: Opd, fn: Opd, base: Opd)
    | QntV(dst: Opd, src: Opd)
    | NoIntI
    | IntI
    | BFun
}
