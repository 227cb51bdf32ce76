/** The interpreter's handlers as the imperative code they are: one machine with its stack, its list of temporary
    frames and its registers, updated byte by byte in place.  Each is proved against the step function. */
module Interpreter {
  import opened Options
  import opened Bytes
  import opened Words
  import opened Ast
  import opened Insn
  import opened Machine

  /** What a handler reports: go on, the outermost frame has returned, or one of the ways to stop. */
  datatype Status = Running | Done(size: nat, val: nat) | IllegalInsn | Undefined | ForSystem

  ghost predicate Reports(st: Status, n: Next, l: Local) {
    match n
    case Next(l1) => st == Running && l == l1
    case Finished(l1, size, val) => st == Done(size, val) && l == l1
    case Illegal => st == IllegalInsn
    case Fault => st == Undefined
    case External => st == ForSystem
  }

  /** Freshly allocated memory holds whatever it holds. */
  ghost function Contents(junk: nat -> Byte): Fill {
    (l: Local, i: nat) => junk(i)
  }

  /** struct qvm.  The last group of fields concerns other machines: the handlers here leave it alone. */
  class Vm {
    /** Where calloc put it: what a pointer to it holds as a number. */
    const addr: nat
    var ip: nat
    var sp: nat
    var bp: nat
    var atStart: bool
    var noint: bool
    /** How often INT has been executed. */
    ghost var cleared: nat
    var passed: Label
    const stack: array<Byte>
    var temps: seq<Mem>

    var parent: Vm?
    var atEnd: bool
    var waiting: bool
    var waitingFor: bool
    var waitingUntil: bool
    var start: nat
    var interval: nat
    var until: Label

    ghost function View(): Local
      reads this, stack
    {
      Local(ip, sp, bp, stack[..], temps, atStart, Ast.Flag(noint, cleared), passed)
    }

    /** A machine in state l, without a parent and waiting for nothing. */
    constructor (addr: nat, l: Local)
      ensures this.addr == addr && View() == l && fresh(stack) && parent == null && !atEnd && !waiting
    {
      this.addr := addr;
      ip, sp, bp, atStart, noint, passed, temps := l.ip, l.sp, l.bp, l.atStart, l.noint.on, l.passed, l.temps;
      cleared := l.noint.cleared;
      stack := new Byte[|l.stack|](i requires 0 <= i < |l.stack| => l.stack[i]);
      parent, atEnd, waiting, waitingFor, waitingUntil := null, false, false, false, false;
      start, interval, until := 0, 0, Label(0, 0);
      new;
      assert stack[..] == l.stack;
    }

    /** Reading a word from the stack, low byte first. */
    method ReadWord(off: nat, n: nat) returns (v: nat)
      requires off + n <= stack.Length
      ensures v == Read(stack[..], off, n)
    {
      v := 0;
      var i := n;
      while i > 0
        invariant 0 <= i <= n && v == Dec(stack[off + i..off + n])
      {
        i := i - 1;
        assert stack[off + i..off + n] == [stack[off + i]] + stack[off + i + 1..off + n];
        v := stack[off + i] + 256 * v;
      }
      assert stack[off..off + n] == stack[..][off..off + n];
    }

    /** Writing a word to the stack, byte by byte in place. */
    method WriteWord(off: nat, n: nat, v: nat)
      requires off + n <= stack.Length
      modifies stack
      ensures stack[..] == Write(old(stack[..]), off, n, v)
    {
      ghost var was := stack[..];
      ghost var word := Enc(n, v);
      var i, x := 0, v;
      while i < n
        invariant 0 <= i <= n && word[i..] == Enc(n - i, x)
        invariant forall k :: 0 <= k < i ==> stack[off + k] == word[k]
        invariant forall k :: 0 <= k < off || off + i <= k < stack.Length ==> stack[k] == was[k]
      {
        EncTail(word, n, i, x);
        stack[off + i] := x % 256;
        x := x / 256;
        i := i + 1;
      }
      assert stack[..] == was[..off] + word + was[off + n..];
    }

    /** opd_val and the read through it. */
    method Fetch(o: Opd) returns (v: Option<nat>)
      ensures v == Load(View(), o)
    {
      hide Read;
      if o.size == 0 {
        return None;
      }
      match o {
        case Imm(_, val, size) => v := Some(val % Pow256(size));
        case Temp(_, off, size) =>
          if |temps| == 0 || off + size > |temps[0]| {
            return None;
          }
          v := Some(Read(temps[0], off, size));
        case Auto(_, off, size) =>
          if bp + off + size > stack.Length {
            return None;
          }
          var w := ReadWord(bp + off, size);
          v := Some(w);
      }
    }

    predicate CanWrite(o: Opd)
      reads this, stack
      ensures CanWrite(o) <==> Writable(View(), o)
    {
      && o.size > 0
      && match o
         case Imm(_, _, _) => false
         case Temp(_, off, size) => temps != [] && off + size <= |temps[0]|
         case Auto(_, off, size) => bp + off + size <= stack.Length
    }

    method Assign(o: Opd, v: nat)
      requires Writable(View(), o)
      modifies this`temps, stack
      ensures View() == Set(old(View()), o, v)
    {
      hide Write;
      match o {
        case Temp(_, off, size) => temps := [Write(temps[0], off, size, v)] + temps[1..];
        case Auto(_, off, size) => WriteWord(bp + off, size, v);
      }
    }

    /** The common tail of the handlers that compute one word. */
    method Finish(legal: bool, dst: Opd, v: Option<nat>) returns (st: Status)
      modifies this`ip, this`temps, stack
      ensures Reports(st, Store(old(View()), legal, dst, v), View())
    {
      if !legal {
        return IllegalInsn;
      }
      if v.None? || !CanWrite(dst) {
        return Undefined;
      }
      Assign(dst, v.value);
      ip := ip + 1;
      st := Running;
    }

    method Mov(dst: Opd, src: Opd) returns (st: Status)
      modifies this`ip, this`temps, stack
      ensures Reports(st, StepMov(old(View()), dst, src), View())
    {
      var v := Fetch(src);
      st := Finish(dst.size == src.size, dst, v);
    }

    method Cast(dst: Opd, src: Opd) returns (st: Status)
      modifies this`ip, this`temps, stack
      ensures Reports(st, StepCast(old(View()), dst, src), View())
    {
      var v := Fetch(src);
      st := Finish(true, dst, if v.Some? then Some(CastPat(src.size, dst.size, v.value)) else None);
    }

    method Arith(op: ArithOp, dst: Opd, a: Opd, b: Opd) returns (st: Status)
      modifies this`ip, this`temps, stack
      ensures Reports(st, StepBin(old(View()), op, dst, a, b), View())
    {
      hide Alu, Load, Store;
      var x := Fetch(a);
      var y := Fetch(b);
      st := Finish(dst.signd == a.signd == b.signd && IsWord(dst.size) && dst.size == a.size == b.size, dst,
                   if x.Some? && y.Some? then Alu(op, dst.signd, dst.size, x.value, y.value) else None);
    }

    method Compare(op: CmpOp, dst: Opd, a: Opd, b: Opd) returns (st: Status)
      modifies this`ip, this`temps, stack
      ensures Reports(st, StepCmp(old(View()), op, dst, a, b), View())
    {
      hide AluCmp, Load, Store;
      var x := Fetch(a);
      var y := Fetch(b);
      var legal := !dst.signd && dst.size == 1 && a.size == b.size
                   && (op.Equ? || op.Neq? || (a.signd == b.signd && IsWord(a.size)));
      st := Finish(legal, dst, if x.Some? && y.Some? then Some(AluCmp(op, a.signd, a.size, x.value, y.value)) else None);
    }

    method Unary(op: UnOp, dst: Opd, src: Opd) returns (st: Status)
      modifies this`ip, this`temps, stack
      ensures Reports(st, StepUn(old(View()), op, dst, src), View())
    {
      var v := Fetch(src);
      st := Finish(UnLegal(op, dst, src), dst, if v.Some? then Some(AluUn(op, src, v.value)) else None);
    }

    method IncDec(up: bool, dst: Opd) returns (st: Status)
      modifies this`ip, this`temps, stack
      ensures Reports(st, StepIncDec(old(View()), up, dst), View())
    {
      var v := Fetch(dst);
      st := Finish(IsWord(dst.size), dst, if v.Some? then Some(Bump(up, dst, v.value)) else None);
    }

    /** The source is bumped in place before the destination gets its old word. */
    method IncDecPost(up: bool, dst: Opd, src: Opd) returns (st: Status)
      modifies this`ip, this`temps, stack
      ensures Reports(st, StepIncDecP(old(View()), up, dst, src), View())
    {
      hide Bump, Write, Get;
      if !(IsWord(dst.size) && dst.signd == src.signd && dst.size == src.size) {
        return IllegalInsn;
      }
      if !CanWrite(src) || !CanWrite(dst) {
        return Undefined;
      }
      var v := Fetch(src);
      Assign(src, Bump(up, src, v.value));
      Assign(dst, v.value);
      ip := ip + 1;
      st := Running;
    }

    method CondJump(cond: Opd, loc: nat, onZero: bool) returns (st: Status)
      modifies this`ip
      ensures Reports(st, StepCJmp(old(View()), cond, loc, onZero), View())
    {
      var v := Fetch(cond);
      if cond.size == 0 {
        return IllegalInsn;
      }
      if v.None? {
        return Undefined;
      }
      ip := if (v.value == 0) == onZero then loc else ip + 1;
      st := Running;
    }

    method PushR(retip: nat, ssp: Opd) returns (st: Status)
      modifies this`ip, this`sp, this`temps, stack
      ensures Reports(st, StepPushR(old(View()), retip, ssp), View())
    {
      if !(WordTemp(ssp) && sp % 8 == 0 && sp + 16 <= stack.Length) {
        return IllegalInsn;
      }
      if !CanWrite(ssp) {
        return Undefined;
      }
      WriteWord(sp, 8, retip);
      WriteWord(sp + 8, 8, bp);
      sp := sp + 16;
      Assign(ssp, sp);
      ip := ip + 1;
      st := Running;
    }

    method Push(src: Opd) returns (st: Status)
      modifies this`ip, this`sp, stack
      ensures Reports(st, StepPush(old(View()), src), View())
    {
      hide Write, Get, InBounds, Aligned8;
      if !(src.size > 0 && sp % 8 == 0 && sp + src.size <= stack.Length) {
        return IllegalInsn;
      }
      var v := Fetch(src);
      if v.None? {
        return Undefined;
      }
      if Aligned8(sp + src.size) > stack.Length {
        return IllegalInsn;
      }
      WriteWord(sp, src.size, v.value);
      sp := Aligned8(sp + src.size);
      ip := ip + 1;
      st := Running;
    }

    method Call(fn: Opd, base: Opd) returns (st: Status)
      modifies this`ip, this`bp
      ensures Reports(st, StepCall(old(View()), fn, base), View())
    {
      if !(!fn.signd && fn.size == 8 && WordTemp(base)) {
        return IllegalInsn;
      }
      var loc := Fetch(fn);
      var b := Fetch(base);
      if loc.None? || b.None? {
        return Undefined;
      }
      ip, bp := loc.value, b.value;
      st := Running;
    }

    /** A new frame of temporaries on top of the list, its contents whatever malloc returned. */
    method IncSp(addend: nat, tsize: nat, junk: nat -> Byte) returns (st: Status)
      modifies this`ip, this`sp, this`atStart, this`temps
      ensures Reports(st, StepIncSp(old(View()), addend, tsize, Contents(junk)), View())
    {
      if !(addend % 8 == 0 && sp + addend <= stack.Length && (sp + addend) % 8 == 0) {
        return IllegalInsn;
      }
      ghost var was := View();
      var frame := seq(tsize, i requires 0 <= i < tsize => junk(i));
      assert frame == Fresh(tsize, Contents(junk), was);
      atStart := false;
      sp := sp + addend;
      temps := [frame] + temps;
      ip := ip + 1;
      st := Running;
    }

    /** insn_ret_retv */
    method Return(code: seq<Insn>, val: Option<Opd>, rsize: nat) returns (st: Status)
      modifies this`ip, this`sp, this`bp, this`temps, stack
      ensures Reports(st, StepRet(code, old(View()), val, rsize), View())
    {
      hide HandleReturn, Get, InBounds;
      if !(sp % 8 == 0 && bp % 8 == 0 && sp >= rsize && |temps| != 0) {
        return IllegalInsn;
      }
      var size, v := 0, 0;
      if val.Some? {
        var w := Fetch(val.value);
        if w.None? {
          return Undefined;
        }
        size, v := val.value.size, w.value;
      }
      sp := sp - rsize;
      st := Leave(code, size, v);
    }

    /** handle_return, for the branches that stay inside this machine. */
    method Leave(code: seq<Insn>, size: nat, v: nat) returns (st: Status)
      requires temps != []
      modifies this`ip, this`bp, this`temps, stack
      ensures Reports(st, HandleReturn(code, old(View()), size, v), View())
    {
      hide Read, Set;
      if sp == 0 {
        return Done(size, v);
      }
      if sp + 16 > stack.Length {
        return Undefined;
      }
      var rip := ReadWord(sp, 8);
      var rbp := ReadWord(sp + 8, 8);
      temps := temps[1..];
      ip, bp := rip, rbp;
      if !(ip < |code| && bp <= stack.Length) {
        return IllegalInsn;
      }
      if size != 0 {
        if !(code[ip].CallV? && code[ip].dst.size == size) {
          return IllegalInsn;
        }
        if !CanWrite(code[ip].dst) {
          return Undefined;
        }
        Assign(code[ip].dst, v);
      }
      ip := ip + 1;
      st := Running;
    }

    /** The instructions that touch only a register or a flag. */
    method Flag(code: seq<Insn>, junk: nat -> Byte) returns (st: Status)
      requires ip < |code|
      requires var i := code[ip]; i.Nop? || i.Jmp? || i.WLab? || i.NoIntI? || i.IntI?
      modifies this`ip, this`noint, this`cleared, this`passed
      ensures Reports(st, Step(code, old(View()), Contents(junk)), View())
    {
      hide StepMov, StepCast, StepBin, StepCmp, StepUn, StepIncDec, StepIncDecP, StepCJmp, StepPushR, StepPush, StepCall, StepIncSp, StepRet, StepGetSp;
      var i := code[ip];
      if i.WLab? {
        passed := i.lab;
      } else if i.NoIntI? || i.IntI? {
        noint := i.NoIntI?;
        cleared := cleared + if i.IntI? then 1 else 0;
      }
      ip := if i.Jmp? then i.loc else ip + 1;
      st := Running;
    }

    /** exec_insn for everything that concerns this machine alone. */
    method Execute(code: seq<Insn>, junk: nat -> Byte) returns (st: Status)
      modifies this`ip, this`sp, this`bp, this`atStart, this`noint, this`cleared, this`passed, this`temps, stack
      ensures Reports(st, Step(code, old(View()), Contents(junk)), View())
    {
      hide Reports, StepMov, StepCast, StepBin, StepCmp, StepUn, StepIncDec, StepIncDecP, StepCJmp, StepPushR, StepPush, StepCall, StepIncSp, StepRet;
      ghost var was := View();
      if ip >= |code| {
        UndefinedReport(was);
        return Undefined;
      }
      var i := code[ip];
      if i.Nop? || i.Jmp? || i.WLab? || i.NoIntI? || i.IntI? {
        st := Flag(code, junk);
        return;
      }
      match i {
        case Mov(d, s) => st := Mov(d, s);
        case CastI(d, s) => st := Cast(d, s);
        case Bin(op, d, a, b) => st := Arith(op, d, a, b);
        case CmpI(op, d, a, b) => st := Compare(op, d, a, b);
        case Un(op, d, s) => st := Unary(op, d, s);
        case IncDec(up, d) => st := IncDec(up, d);
        case IncDecP(up, d, s) => st := IncDecPost(up, d, s);
        case Jz(c, loc) => st := CondJump(c, loc, true);
        case Jnz(c, loc) => st := CondJump(c, loc, false);
        case PushR(r, ssp) => st := PushR(r, ssp);
        case Push(s) => st := Push(s);
        case CallI(fn, base) => st := Call(fn, base);
        case CallV(_, fn, base) => st := Call(fn, base);
        case IncSp(a, t) => st := IncSp(a, t, junk);
        case RetI(n) => st := Return(code, None, n);
        case RetV(s, n) => st := Return(code, Some(s), n);
        case GetSp(d) => st := Finish(WordTemp(d), d, Some(sp));
        case _ =>
          st := ForSystem;
          ExternalReport(was);
      }
    }

    /** The run loop: at most k instructions. */
    method RunFor(code: seq<Insn>, k: nat, junk: nat -> Byte) returns (st: Status)
      modifies this`ip, this`sp, this`bp, this`atStart, this`noint, this`cleared, this`passed, this`temps, stack
      ensures Reports(st, Run(code, old(View()), k, Contents(junk)), View())
    {
      hide Step;
      ghost var was := View();
      st := Running;
      var i := 0;
      while i < k && st == Running
        invariant 0 <= i <= k
        invariant Reports(st, Run(code, was, i, Contents(junk)), View())
      {
        ghost var before := View();
        st := Execute(code, junk);
        RunAdd(code, was, i, 1, Contents(junk));
        RunOnce(code, before, Contents(junk));
        i := i + 1;
      }
      if i < k {
        RunStopped(code, was, i, k, Contents(junk));
      }
    }
  }

  lemma UndefinedReport(l: Local)
    ensures Reports(Undefined, Fault, l)
  {
  }

  lemma ExternalReport(l: Local)
    ensures Reports(ForSystem, External, l)
  {
  }

  lemma EncTail(word: Mem, n: nat, i: nat, x: nat)
    requires |word| == n && i < n && word[i..] == Enc(n - i, x)
    ensures word[i] == x % 256 && word[i + 1..] == Enc(n - (i + 1), x / 256)
  {
    assert word[i] == word[i..][0];
    assert word[i + 1..] == word[i..][1..];
    assert Enc(n - i, x)[1..] == Enc(n - i - 1, x / 256);
  }

  lemma RunOnce(code: seq<Insn>, l: Local, fill: Fill)
    ensures Run(code, l, 1, fill) == Step(code, l, fill)
  {
    hide Step;
    var n := Step(code, l, fill);
    if n.Next? {
      assert Run(code, n.l, 0, fill) == n;
    }
  }
}
