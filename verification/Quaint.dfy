/** Resumable functions: virtual machines linked by `parent`, the instructions that create, resume, inspect
    and reap them, and the pre-emption check after every instruction.  The clock is an arbitrary input. */
module Quaint {
  import opened Options
  import opened Bytes
  import opened Words
  import opened Ast
  import opened Insn
  import opened Machine

  /** The bits waiting, waiting_for and waiting_until with what they qualify. */
  datatype Waiting = NotWaiting | Plain | For(start: nat, interval: nat) | Until(lab: Label)

  /** struct qvm */
  datatype Qvm = Qvm(local: Local, parent: Option<nat>, atEnd: bool, waiting: Waiting)

  /** Live machines by address, the running one, the cached clock and the cycle counter. */
  datatype Sys = Sys(vms: map<nat, Qvm>, cur: nat, now: nat, cycles: nat)

  /** What the outside contributes to one instruction: clock readings and the address calloc returns. */
  datatype Env = Env(waitClock: nat, checkClock: nat, addr: nat)

  /** Stuck is an illegal instruction or an access the C code leaves undefined. */
  datatype SysNext = Go(s: Sys) | Exit(size: nat, val: nat) | Stuck

  const WORD: nat := 0x1_0000_0000_0000_0000

  /** A handle operand: an unsigned word holding the address of a machine, or 0. */
  function Handle(l: Local, o: Opd): Option<nat> {
    if !o.signd && o.size == 8 && InBounds(l, o) then Some(Get(l, o)) else None
  }

  function InsnAt(code: seq<Insn>, l: Local): Insn {
    if l.ip < |code| then code[l.ip] else BFun
  }

  function Put(s: Sys, x: nat, v: Qvm): Sys {
    s.(vms := s.vms[x := v])
  }

  /** The running machine goes on with the next instruction in state l. */
  function Proceed(s: Sys, l: Local): SysNext
    requires s.cur in s.vms
  {
    Go(Put(s, s.cur, s.vms[s.cur].(local := Advance(l))))
  }

  /** The running machine suspends itself and control passes to h. */
  function Descend(s: Sys, h: nat, w: Waiting): Sys
    requires s.cur in s.vms && h in s.vms
  {
    var vms := s.vms[s.cur := s.vms[s.cur].(waiting := w)];
    s.(vms := vms[h := vms[h].(parent := Some(s.cur))], cur := h)
  }

  /** The timeout operand of a timed wait. */
  function TimeoutOf(l: Local, o: Opd): Option<nat> {
    if !o.signd && IsWord(o.size) && InBounds(l, o) then Some(Get(l, o)) else None
  }

  function ActWait(s: Sys, env: Env, i: Insn): SysNext
    requires i.Wait? && s.cur in s.vms
  {
    var l := s.vms[s.cur].local;
    var h := Handle(l, i.quaint);
    if h.None? then Stuck
    else if h.value == 0 then Proceed(s, l)
    else if h.value !in s.vms then Stuck
    else if s.vms[h.value].atEnd then Proceed(s, l)
    else if i.timed then
      var tm := TimeoutOf(l, i.timeout);
      if tm.None? then Stuck
      else if tm.value == 0 then Proceed(s, l)
      else
        var interval := (tm.value * if i.seconds then 1_000_000_000 else 1_000_000) % WORD;
        Go(Descend(s, h.value, For(env.waitClock % WORD, interval)).(now := env.waitClock % WORD))
    else Go(Descend(s, h.value, if i.lab.func != 0 then Until(i.lab) else Plain))
  }

  /** RTE and RTEV: nothing to reap, an ended machine to reap, or a running one to resume first. */
  function ActReap(s: Sys, dst: Option<Opd>, q: Opd): SysNext
    requires s.cur in s.vms
  {
    var l := s.vms[s.cur].local;
    var h := Handle(l, q);
    if h.None? || (dst.Some? && !Writable(l, dst.value)) then Stuck
    else if h.value == 0 then Proceed(s, if dst.Some? then Set(l, dst.value, 0) else l)
    else if h.value !in s.vms || h.value == s.cur then Stuck
    else if !s.vms[h.value].atEnd then Go(Descend(s, h.value, s.vms[s.cur].waiting))
    else
      var stack := s.vms[h.value].local.stack;
      if dst.Some? && dst.value.size > |stack| then Stuck
      else
        var l1 := if dst.Some? then Set(l, dst.value, Read(stack, 0, dst.value.size)) else l;
        if !Writable(l1, q) then Stuck
        else Proceed(s.(vms := s.vms - {h.value}), Set(l1, q, 0))
  }

  function ActQat(s: Sys, i: Insn): SysNext
    requires i.Qat? && s.cur in s.vms
  {
    var l := s.vms[s.cur].local;
    var h := Handle(l, i.quaint);
    if h.None? || i.dst.signd || i.dst.size != 1 || !Writable(l, i.dst) then Stuck
    else if h.value != 0 && h.value !in s.vms then Stuck
    else
      var at := h.value != 0 && (var q := s.vms[h.value];
        if i.lab == Label(0, 0) then q.local.atStart else if i.lab.func == 1 then q.atEnd else q.local.passed == i.lab);
      Proceed(s, Set(l, i.dst, if at then 1 else 0))
  }

  function Zeros(n: nat): (m: Mem)
    ensures |m| == n
  {
    seq(n, i requires 0 <= i < n => 0)
  }

  /** A fresh machine about to run the function at loc with the given pushed arguments. */
  function Spawned(cap: nat, loc: nat, args: Mem): (l: Local)
    requires 16 + |args| <= cap
    ensures |l.stack| == cap
  {
    Local(loc, 16 + |args|, 16, Zeros(16) + args + Zeros(cap - 16 - |args|), [], true, Flag(false, 0), Label(0, 0))
  }

  function ActQnt(s: Sys, env: Env, i: Insn): SysNext
    requires i.Qnt? && s.cur in s.vms
  {
    var l := s.vms[s.cur].local;
    if env.addr == 0 || i.dst.signd || i.dst.size != 8 || !Writable(l, i.dst) || i.fn.signd || i.fn.size != 8
       || !InBounds(l, i.fn) || !WordTemp(i.base) || !InBounds(l, i.base) then Stuck
    else
      var ssp := Get(l, i.base);
      if !(ssp <= l.sp <= |l.stack| && 16 + (l.sp - ssp) <= |l.stack|) then Stuck
      else
        var q := Qvm(Spawned(|l.stack|, Get(l, i.fn), l.stack[ssp..l.sp]), None, false, NotWaiting);
        Proceed(Put(s, env.addr, q), Set(l, i.dst, env.addr).(sp := ssp))
  }

  /** A quaint of a value that is already there. */
  function ActQntV(s: Sys, env: Env, i: Insn): SysNext
    requires i.QntV? && s.cur in s.vms
  {
    var l := s.vms[s.cur].local;
    if env.addr == 0 || i.dst.signd || i.dst.size != 8 || !Writable(l, i.dst) || !InBounds(l, i.src)
       || i.src.size > |l.stack| then Stuck
    else
      var stack := Write(Zeros(|l.stack|), 0, i.src.size, Get(l, i.src));
      var q := Qvm(Local(0, 0, 0, stack, [], true, Flag(false, 0), Label(0, 0)), None, true, NotWaiting);
      Proceed(Put(s, env.addr, q), Set(l, i.dst, env.addr))
  }

  /** The machine whose outermost frame has returned, kept for later reaping. */
  function Ended(v: Qvm, l: Local, size: nat, val: nat): Qvm
    requires size <= |l.stack|
  {
    v.(local := l.(stack := Write(l.stack, 0, size, val), temps := [], passed := Label(0, 0)), atEnd := true)
  }

  /** handle_return for an outermost frame: the parent's instruction says what becomes of the value. */
  function ActReturn(code: seq<Insn>, s: Sys, l: Local, size: nat, val: nat): SysNext
    requires s.cur in s.vms
  {
    match s.vms[s.cur].parent
    case None => Exit(size, val)
    case Some(p) =>
      if p !in s.vms || p == s.cur then Stuck
      else
        var pl := s.vms[p].local;
        match InsnAt(code, pl)
        case RteV(dst, q) =>
          if size == 0 || dst.size != size || !Writable(pl, dst) then Stuck
          else
            var l1 := Set(pl, dst, val);
            if !Writable(l1, q) then Stuck
            else Proceed(s.(vms := s.vms - {s.cur}, cur := p), Set(l1, q, 0))
        case Rte(q) =>
          if size != 0 || !Writable(pl, q) then Stuck
          else Proceed(s.(vms := s.vms - {s.cur}, cur := p), Set(pl, q, 0))
        case Wait(_, _, _, _, _) =>
          if size > |l.stack| then Stuck
          else
            var s1 := Put(s, s.cur, Ended(s.vms[s.cur], l, size, val));
            Proceed(Put(s1, p, s1.vms[p].(waiting := NotWaiting)).(cur := p), pl)
        case _ => Stuck
  }

  /** One instruction of the running machine. */
  function Act(code: seq<Insn>, s: Sys, env: Env, fill: Fill): SysNext {
    if s.cur !in s.vms then Stuck
    else
      var l := s.vms[s.cur].local;
      match Step(code, l, fill)
      case Next(l1) => Go(Put(s, s.cur, s.vms[s.cur].(local := l1)))
      case Finished(l1, size, val) => ActReturn(code, s, l1, size, val)
      case Illegal => Stuck
      case Fault => Stuck
      case External =>
        match InsnAt(code, l)
        case Wait(_, _, _, _, _) => ActWait(s, env, code[l.ip])
        case Rte(q) => ActReap(s, None, q)
        case RteV(dst, q) => ActReap(s, Some(dst), q)
        case Qat(_, _, _) => ActQat(s, code[l.ip])
        case Qnt(_, _, _) => ActQnt(s, env, code[l.ip])
        case QntV(_, _) => ActQntV(s, env, code[l.ip])
        case _ => Stuck
  }

  /** May x be resumed over its child now? */
  predicate Due(vms: map<nat, Qvm>, child: nat, x: nat, now: nat)
    requires child in vms && x in vms
  {
    match vms[x].waiting
    case For(start, interval) => (now - start) % WORD >= interval
    case Until(lab) => vms[child].local.passed == lab
    case _ => false
  }

  /** The nearest ancestor that may be resumed, looking no further than the first noint below it. */
  function Walk(vms: map<nat, Qvm>, child: nat, now: nat, fuel: nat): (r: Option<nat>)
    requires child in vms
    ensures r.Some? ==> r.value in vms
    decreases fuel
  {
    if fuel == 0 || vms[child].local.noint.on then None
    else
      match vms[child].parent
      case None => None
      case Some(x) =>
        if x !in vms then None
        else if Due(vms, child, x, now) then Some(x)
        else Walk(vms, x, now, fuel - 1)
  }

  /** check_and_eventually_split_vms */
  function Check(s: Sys, env: Env): Sys {
    if s.cur !in s.vms then s
    else
      var now := if s.cycles % 200 == 0 then env.checkClock % WORD else s.now;
      var s1 := s.(now := now, cycles := s.cycles + 1);
      match Walk(s.vms, s.cur, now, |s.vms|)
      case None => s1
      case Some(x) =>
        var v := s.vms[x];
        s1.(vms := s.vms[x := v.(waiting := NotWaiting, local := Advance(v.local))], cur := x)
  }

  function SysStep(code: seq<Insn>, s: Sys, env: Env, fill: Fill): SysNext {
    match Act(code, s, env, fill)
    case Go(s1) => Go(Check(s1, env))
    case o => o
  }
}
