/** The run loop over all machines, as objects: exec_insn with the global `vm`, `now` and cycle counter, machines that
    are allocated, linked by their `parent` pointers, updated in place and freed, and the walk up the parents after
    every instruction. */
module Runtime {
  import opened Options
  import opened Bytes
  import opened Words
  import opened Ast
  import opened Insn
  import opened Machine
  import opened Quaint
  import opened ActiveChain
  import opened Protocol
  import I = Interpreter

  /** How an instruction ended. */
  datatype Status = Running | Exited(size: nat, val: nat) | Stopped

  /** The flags of a machine and the union they qualify. */
  ghost function WaitingOf(v: I.Vm): Waiting
    reads v
  {
    if !v.waiting then NotWaiting
    else if v.waitingFor then For(v.start, v.interval)
    else if v.waitingUntil then Until(v.until)
    else Plain
  }

  /** The value of a machine; its parent by address. */
  ghost function Whole(v: I.Vm): Qvm
    reads v, v.stack
  {
    Qvm(v.View(), if v.parent == null then None else Some(v.parent.addr), v.atEnd, WaitingOf(v))
  }

  class Runtime {
    const code: seq<Insn>
    /** The live allocations: what the number in a handle points to. */
    var heap: map<nat, I.Vm>
    var vm: I.Vm
    var now: nat
    var cycles: nat

    ghost function Stacks(): set<object>
      reads this
    {
      set v | v in heap.Values :: v.stack
    }

    ghost function Repr(): set<object>
      reads this
    {
      {this} + heap.Values + Stacks()
    }

    /** Machines stand at their addresses, each with a stack of its own, and the running one is live. */
    ghost predicate Valid()
      reads this
    {
      && (forall a :: a in heap ==> heap[a].addr == a)
      && (forall a, b :: a in heap && b in heap && a != b ==> heap[a].stack != heap[b].stack)
      && vm.addr in heap && heap[vm.addr] == vm
    }

    ghost function Vms(): map<nat, Qvm>
      reads this, heap.Values, Stacks()
    {
      map a | a in heap :: Whole(heap[a])
    }

    ghost function State(): Sys
      reads this, heap.Values, Stacks()
    {
      Sys(Vms(), vm.addr, now, cycles)
    }

    /** Along the active chain the pointers point to live machines. */
    ghost predicate Linked(ch: seq<nat>)
      reads this, heap.Values
    {
      && (forall i :: 0 <= i < |ch| ==> ch[i] in heap)
      && (forall i :: 0 <= i < |ch| - 1 ==> heap[ch[i]].parent == heap[ch[i + 1]])
    }

    ghost predicate Matches(st: Status, n: SysNext)
      reads this, heap.Values, Stacks()
    {
      match n
      case Go(s) => st == Running && State() == s
      case Exit(size, val) => st == Exited(size, val)
      case Stuck => st == Stopped
    }

    /** An instruction moves no machine, allocates only new ones, and changes no parent pointer but that of a machine it
        enters; control stays, goes to a child, or goes back to the parent. */
    twostate predicate PointersKept()
      reads this, heap.Values, vm
    {
      && (forall a :: a in old(heap) && a in heap ==> heap[a] == old(heap[a]))
      && (forall a :: a in heap && a !in old(heap) ==> fresh(heap[a]) && fresh(heap[a].stack))
      && (forall a :: a in old(heap) && a in heap && heap[a].parent != old(heap[a].parent) ==>
            a == vm.addr && vm.parent == old(vm))
      && (vm == old(vm) || vm.parent == old(vm) || vm == old(vm.parent))
    }

    /** The world as exec sets it up: one machine, without a parent. */
    constructor (code: seq<Insn>, root: nat, l: Local)
      requires root != 0
      ensures this.code == code && Valid() && fresh(Repr()) && Linked([root]) && Inv(code, State(), [root])
      ensures State() == Sys(map[root := Qvm(l, None, false, NotWaiting)], root, 0, 0)
    {
      this.code := code;
      var v := new I.Vm(root, l);
      heap, vm, now, cycles := map[root := v], v, 0, 0;
      new;
      assert Vms() == map[root := Qvm(l, None, false, NotWaiting)];
      InitialInv(code, root, l, 0, 0);
    }

    /** Nothing has changed. */
    twostate lemma Still()
      requires heap == old(heap) && vm == old(vm) && now == old(now) && cycles == old(cycles)
      requires forall a :: a in heap ==> Whole(heap[a]) == old(Whole(heap[a]))
      ensures State() == old(State())
    {
      hide Whole;
      assert Vms() == old(Vms());
    }

    /** Only the running machine has changed. */
    twostate lemma OneChanged()
      requires old(Valid()) && heap == old(heap) && vm == old(vm)
      requires forall a :: a in heap && a != vm.addr ==> Whole(heap[a]) == old(Whole(heap[a])) && heap[a].parent == old(heap[a].parent)
      ensures Valid() && vm.addr in heap && Vms() == old(Vms())[vm.addr := Whole(vm)]
    {
      hide Whole;
    }

    /** An instruction that concerns the running machine alone. */
    method Private(junk: nat -> Byte) returns (st: Status)
      requires Valid()
      modifies vm, vm.stack
      ensures Valid()
      ensures heap == old(heap) && vm == old(vm) && now == old(now) && cycles == old(cycles) && vm.parent == old(vm.parent)
      ensures vm.atEnd == old(vm.atEnd) && WaitingOf(vm) == old(WaitingOf(vm))
      ensures match Step(code, old(vm.View()), I.Contents(junk))
              case Next(l) => st == Running && vm.View() == l
              case Finished(l, size, val) => st == Exited(size, val) && vm.View() == l
              case _ => st == Stopped
    {
      hide Step;
      var r := vm.Execute(code, junk);
      st := match r case Running => Running case Done(size, val) => Exited(size, val) case _ => Stopped;
    }

    method Pointer(o: Opd) returns (h: Option<nat>)
      ensures h == Handle(vm.View(), o)
    {
      if o.signd || o.size != 8 {
        return None;
      }
      h := vm.Fetch(o);
    }

    /** The instruction has done its work. */
    method Next() returns (st: Status)
      modifies vm`ip
      ensures heap == old(heap) && vm == old(vm)
      ensures st == Running && vm.View() == Advance(old(vm.View()))
    {
      vm.ip := vm.ip + 1;
      st := Running;
    }

    /** The running machine has changed in its private state, and nothing else has. */
    twostate lemma Stepped()
      requires old(Valid()) && heap == old(heap) && vm == old(vm) && now == old(now) && cycles == old(cycles)
      requires forall a :: a in heap && a != vm.addr ==> Whole(heap[a]) == old(Whole(heap[a])) && heap[a].parent == old(heap[a].parent)
      requires vm.parent == old(vm.parent) && vm.atEnd == old(vm.atEnd) && WaitingOf(vm) == old(WaitingOf(vm))
      ensures Valid() && PointersKept() && vm.addr in old(State()).vms
      ensures State() == Put(old(State()), vm.addr, old(State()).vms[vm.addr].(local := vm.View()))
    {
      hide I.Vm.View, WaitingOf;
      OneChanged();
    }

    /** The instruction has brought the running machine to state l, and nothing else has changed. */
    twostate lemma Proceeded(l: Local)
      requires old(Valid()) && heap == old(heap) && vm == old(vm) && now == old(now) && cycles == old(cycles)
      requires forall a :: a in heap && a != vm.addr ==> Whole(heap[a]) == old(Whole(heap[a])) && heap[a].parent == old(heap[a].parent)
      requires vm.View() == Advance(l) && vm.parent == old(vm.parent) && vm.atEnd == old(vm.atEnd)
      requires WaitingOf(vm) == old(WaitingOf(vm))
      ensures Valid() && Proceed(old(State()), l) == Go(State()) && PointersKept()
    {
      hide I.Vm.View, WaitingOf, Vms, Whole, PointersKept, Valid;
      Stepped();
    }

    /** What the abstract state says of the machines. */
    lemma Here()
      requires Valid()
      ensures State().cur == vm.addr && vm.addr in State().vms && State().vms[vm.addr] == Whole(vm)
      ensures Whole(vm).local == vm.View() && (Whole(vm).parent == if vm.parent == null then None else Some(vm.parent.addr))
      ensures State().now == now && State().cycles == cycles && vm.addr in heap && heap[vm.addr] == vm
      ensures forall a :: a in State().vms <==> a in heap
    {
      hide I.Vm.View, WaitingOf;
    }

    lemma Apart()
      requires Valid()
      ensures forall a :: a in heap && a != vm.addr ==> heap[a] != vm && heap[a].stack != vm.stack
    {
    }

    lemma ApartFrom(q: I.Vm)
      requires Valid() && q.addr in heap && heap[q.addr] == q
      ensures forall a :: a in heap && a != vm.addr && a != q.addr ==>
                heap[a] != vm && heap[a].stack != vm.stack && heap[a] != q && heap[a].stack != q.stack
      ensures vm.addr in heap && heap[vm.addr] == vm
    {
    }

    lemma There()
      requires Valid()
      ensures forall a :: a in heap ==> a in State().vms && heap[a].addr == a && State().vms[a] == Whole(heap[a])
    {
      hide I.Vm.View, WaitingOf;
    }

    lemma Fields(v: I.Vm)
      ensures var q := Whole(v);
        q.local == v.View() && q.atEnd == v.atEnd && q.waiting == WaitingOf(v) && q.parent == if v.parent == null then None else Some(v.parent.addr)
      ensures var l := v.View();
        l.atStart == v.atStart && l.noint.on == v.noint && l.passed == v.passed && l.sp == v.sp && l.ip == v.ip && l.stack == v.stack[..]
    {
    }

    /** The running machine stores a word and goes on. */
    method Deliver(o: Opd, v: nat) returns (st: Status)
      requires Valid() && Writable(vm.View(), o)
      modifies vm, vm.stack
      ensures st == Running && Proceed(old(State()), Set(old(vm.View()), o, v)) == Go(State())
      ensures Valid() && PointersKept()
    {
      hide Valid, State, Vms, Proceed, Whole, PointersKept, Set, Writable, I.Vm.View;
      Apart();
      vm.Assign(o, v);
      ghost var l := vm.View();
      st := Next();
      Proceeded(l);
    }

    /** The answer of insn_qat, or nothing when it is illegal. */
    method ExamineQat(i: Insn, ghost s: Sys) returns (at: Option<bool>)
      requires Valid() && i.Qat? && s == State() && s.cur in s.vms
      ensures at == QatVerdict(s, i)
    {
      hide Valid, State, Vms, Handle, I.Vm.View, Whole, Writable, I.Vm.CanWrite;
      Here();
      There();
      var h := Pointer(i.quaint);
      if h.None? || i.dst.signd || i.dst.size != 1 || !vm.CanWrite(i.dst) || (h.value != 0 && h.value !in heap) {
        return None;
      }
      if h.value == 0 {
        return Some(false);
      }
      var q := heap[h.value];
      Fields(q);
      at := Some(if i.lab == Label(0, 0) then q.atStart else if i.lab.func == 1 then q.atEnd else q.passed == i.lab);
    }

    /** insn_qat */
    method At(i: Insn) returns (st: Status)
      requires Valid() && i.Qat?
      modifies heap.Values, Stacks()
      ensures Matches(st, ActQat(old(State()), i))
      ensures st == Running ==> Valid() && PointersKept()
    {
      hide Valid, State, Vms, Matches, ActQat, QatVerdict, Proceed, Whole, WaitingOf, Handle, I.Vm.View, Writable, Set;
      ghost var s := State();
      Here();
      Live(vm.addr);
      QatDecided(s, i);
      var at := ExamineQat(i, s);
      Still();
      if at.None? {
        st := Stopped;
      } else {
        st := Deliver(i.dst, if at.value then 1 else 0);
      }
      Told(st, ActQat(s, i));
    }

    // ---------- waits ----------

    /** Control has passed to another machine, and nothing but these two has changed. */
    twostate lemma TwoChanged()
      requires old(Valid()) && heap == old(heap) && vm.addr in heap && heap[vm.addr] == vm
      requires forall a :: a in heap && a != vm.addr && a != old(vm).addr ==> Whole(heap[a]) == old(Whole(heap[a]))
      ensures Valid() && old(vm).addr in heap && heap[old(vm).addr] == old(vm)
      ensures Vms() == old(Vms())[old(vm).addr := Whole(old(vm))][vm.addr := Whole(vm)]
    {
      hide Whole;
      assert forall a :: a in heap ==> Vms()[a] == Whole(heap[a]);
    }

    /** Control has passed to a machine that knows the old one as its parent. */
    twostate lemma Entered(w: Waiting)
      requires old(Valid()) && heap == old(heap) && cycles == old(cycles) && vm.addr in heap && heap[vm.addr] == vm
      requires forall a :: a in heap && a != vm.addr && a != old(vm).addr ==>
                 Whole(heap[a]) == old(Whole(heap[a])) && heap[a].parent == old(heap[a].parent)
      requires var x := old(vm);
        && x.View() == old(x.View()) && x.atEnd == old(x.atEnd) && WaitingOf(x) == w
        && (vm != x ==> x.parent == old(x.parent))
      requires var q := vm;
        && q.View() == old(q.View()) && q.atEnd == old(q.atEnd) && q.parent == old(vm)
        && (q != old(vm) ==> WaitingOf(q) == old(WaitingOf(q)))
      ensures Valid() && State() == Descend(old(State()), vm.addr, w).(now := now) && PointersKept()
      ensures now == old(now) ==> State() == Descend(old(State()), vm.addr, w)
    {
      hide I.Vm.View, WaitingOf;
      TwoChanged();
      ghost var vms := Descend(old(State()), vm.addr, w).vms;
      assert vms[vm.addr] == Whole(vm);
      assert vms == old(Vms())[old(vm).addr := Whole(old(vm))][vm.addr := Whole(vm)];
    }

    method Timeout(o: Opd) returns (tm: Option<nat>)
      ensures tm == TimeoutOf(vm.View(), o)
    {
      if o.signd || !IsWord(o.size) {
        return None;
      }
      tm := vm.Fetch(o);
    }

    /** The checks of insn_wait. */
    method ExamineWait(i: Insn, ghost s: Sys) returns (v: Verdict)
      requires Valid() && i.Wait? && s == State() && s.cur in s.vms
      ensures v == WaitVerdict(s, i)
    {
      hide Valid, State, Vms, Handle, TimeoutOf, I.Vm.View, Whole;
      Here();
      There();
      var h := Pointer(i.quaint);
      if h.None? || (h.value != 0 && h.value !in heap) {
        return Fails;
      }
      if h.value == 0 {
        return Skips;
      }
      var q := heap[h.value];
      Fields(q);
      if q.atEnd {
        return Skips;
      }
      if !i.timed {
        return Enters(h.value, 0);
      }
      var tm := Timeout(i.timeout);
      if tm.None? {
        return Fails;
      }
      v := if tm.value == 0 then Skips
           else Enters(h.value, (tm.value * if i.seconds then 1_000_000_000 else 1_000_000) % WORD);
    }

    /** The running machine goes on unchanged. */
    method Skip() returns (st: Status)
      requires Valid()
      modifies vm`ip
      ensures st == Running && Proceed(old(State()), old(vm.View())) == Go(State())
      ensures Valid() && PointersKept() && Repr() == old(Repr())
    {
      hide State, Vms, I.Vm.View, Proceed, Whole, PointersKept;
      ghost var l := vm.View();
      Apart();
      st := Next();
      Proceeded(l);
    }

    /** The running machine notes what it waits for. */
    method Note(env: Env, i: Insn, interval: nat)
      requires i.Wait?
      modifies this`now, vm
      ensures WaitingOf(vm) == WaitKind(env, i, interval) && now == if i.timed then env.waitClock % WORD else old(now)
      ensures vm.View() == old(vm.View()) && vm.parent == old(vm.parent) && vm.atEnd == old(vm.atEnd)
    {
      vm.waiting, vm.waitingFor, vm.waitingUntil := true, false, false;
      if i.timed {
        vm.waitingFor := true;
        now := env.waitClock % WORD;
        vm.start, vm.interval := now, interval;
      } else if i.lab.func != 0 {
        vm.waitingUntil := true;
        vm.until := i.lab;
      }
    }

    /** `qvm->parent = vm;` */
    method Adopt(q: I.Vm)
      modifies q
      ensures q.parent == vm && q.View() == old(q.View()) && q.atEnd == old(q.atEnd) && WaitingOf(q) == old(WaitingOf(q))
    {
      q.parent := vm;
    }

    /** The running machine notes what it waits for, and control passes to q. */
    method Suspend(q: I.Vm, env: Env, i: Insn, interval: nat)
      requires Valid() && i.Wait? && q.addr in heap && heap[q.addr] == q
      modifies this`vm, this`now, vm, q
      ensures State() == Descend(old(State()), q.addr, WaitKind(env, i, interval)).(now := if i.timed then env.waitClock % WORD else old(now))
      ensures Valid() && PointersKept()
    {
      hide *;
      ApartFrom(q);
      Note(env, i, interval);
      Adopt(q);
      vm := q;
      Entered(WaitKind(env, i, interval));
    }

    /** insn_wait */
    method Wait(env: Env, i: Insn) returns (st: Status)
      requires Valid() && i.Wait?
      modifies this`vm, this`now, heap.Values
      ensures Matches(st, ActWait(old(State()), env, i))
      ensures st == Running ==> Valid() && PointersKept()
    {
      hide Valid, State, Vms, Matches, ActWait, WaitVerdict, Proceed, Descend, WaitKind, Whole, WaitingOf, Handle, I.Vm.View, TimeoutOf;
      ghost var s := State();
      Here();
      There();
      Live(vm.addr);
      WaitDecided(s, env, i);
      var v := ExamineWait(i, s);
      Still();
      match v {
        case Fails =>
          st := Stopped;
        case Skips =>
          st := Skip();
        case Enters(h, interval) =>
          Live(h);
          Suspend(heap[h], env, i, interval);
          st := Running;
      }
      Told(st, ActWait(s, env, i));
    }

    // ---------- reaping ----------

    /** The checks of insn_rte_rtev. */
    method ExamineReap(dst: Option<Opd>, q: Opd, ghost s: Sys) returns (v: Verdict)
      requires Valid() && s == State() && s.cur in s.vms
      ensures v == ReapVerdict(s, dst, q)
    {
      hide Valid, State, Vms, Handle, I.Vm.View, Whole, Writable, I.Vm.CanWrite;
      Here();
      There();
      var h := Pointer(q);
      if h.None? || (dst.Some? && !vm.CanWrite(dst.value)) {
        return Fails;
      }
      if h.value == 0 {
        return Skips;
      }
      if h.value !in heap || h.value == vm.addr {
        return Fails;
      }
      var x := heap[h.value];
      Fields(x);
      if !x.atEnd {
        return Enters(h.value, 0);
      }
      if (dst.Some? && dst.value.size > x.stack.Length) || !vm.CanWrite(q) {
        return Fails;
      }
      v := Frees(h.value);
    }

    /** The machine is resumed: control passes to it. */
    method Resume(q: I.Vm)
      requires Valid() && q.addr in heap && heap[q.addr] == q && q != vm
      modifies this`vm, q
      ensures State() == Descend(old(State()), q.addr, old(WaitingOf(vm)))
      ensures Valid() && PointersKept()
    {
      hide *;
      ApartFrom(q);
      Adopt(q);
      vm := q;
      Entered(old(WaitingOf(vm)));
    }

    /** The machine at h is gone, and of the others only the running one has changed, in its private state. */
    twostate lemma Freed(h: nat)
      requires old(Valid()) && heap == old(heap) - {h} && h != vm.addr && vm == old(vm) && now == old(now) && cycles == old(cycles)
      requires forall a :: a in heap && a != vm.addr ==> Whole(heap[a]) == old(Whole(heap[a])) && heap[a].parent == old(heap[a].parent)
      requires vm.parent == old(vm.parent) && vm.atEnd == old(vm.atEnd) && WaitingOf(vm) == old(WaitingOf(vm))
      ensures Valid() && PointersKept() && vm.addr in old(State()).vms
      ensures State() == var s := old(State());
        s.(vms := (s.vms - {h})[vm.addr := s.vms[vm.addr].(local := vm.View())])
    {
      hide I.Vm.View, WaitingOf;
      assert Vms() == (old(Vms()) - {h})[vm.addr := Whole(vm)];
    }

    /** The value left by the ended machine x is copied to the result operand. */
    method CopyValue(x: I.Vm, dst: Opd)
      requires Writable(vm.View(), dst) && dst.size <= x.stack.Length && x.stack != vm.stack
      modifies vm`temps, vm.stack
      ensures dst.size <= |old(x.View()).stack|
      ensures vm.View() == Set(old(vm.View()), dst, Read(old(x.View()).stack, 0, dst.size))
    {
      hide Set, Writable, Read, Write;
      var val := x.ReadWord(0, dst.size);
      Fields(x);
      vm.Assign(dst, val);
    }

    /** The machine at h is freed, its handle nulled. */
    method Release(h: nat, q: Opd) returns (st: Status)
      requires Valid() && h in heap && h != vm.addr && Writable(vm.View(), q)
      modifies this`heap, vm, vm.stack
      ensures st == Running && Valid() && PointersKept()
      ensures vm.addr in old(State()).vms
      ensures State() == var s := old(State());
        s.(vms := (s.vms - {h})[vm.addr := s.vms[vm.addr].(local := Advance(Set(old(vm.View()), q, 0)))])
    {
      hide Valid, State, Vms, Whole, PointersKept, Set, Writable, I.Vm.View, Advance;
      Apart();
      heap := heap - {h};
      vm.Assign(q, 0);
      st := Next();
      Freed(h);
    }

    /** The value left by the ended machine at h is delivered, the machine freed and the handle nulled. */
    method Free(h: nat, dst: Option<Opd>, q: Opd) returns (st: Status)
      requires Valid() && h in heap && h != vm.addr
      requires dst.Some? ==> Writable(vm.View(), dst.value) && dst.value.size <= heap[h].stack.Length
      requires Writable(vm.View(), q)
      modifies this`heap, vm, vm.stack
      ensures st == Running && Valid() && PointersKept()
      ensures dst.Some? ==> dst.value.size <= |old(heap[h].View()).stack|
      ensures var l := old(vm.View());
        var l1 := if dst.Some? then Set(l, dst.value, Read(old(heap[h].View()).stack, 0, dst.value.size)) else l;
        Writable(l1, q) && Proceed(old(State()).(vms := old(State()).vms - {h}), Set(l1, q, 0)) == Go(State())
    {
      hide Valid, State, Vms, Whole, Set, Writable, I.Vm.View, Read, Proceed, Put;
      Here();
      Apart();
      ghost var s, l := State(), vm.View();
      if dst.Some? {
        CopyValue(heap[h], dst.value);
        StillWritable(l, dst.value, Read(old(heap[h].View()).stack, 0, dst.value.size), q);
      }
      Stepped();
      ghost var l1 := vm.View();
      st := Release(h, q);
      Released(s, h, l1, Set(l1, q, 0));
    }

    /** Nothing to reap: the value is zero. */
    method ReapNothing(dst: Option<Opd>) returns (st: Status)
      requires Valid() && (dst.Some? ==> Writable(vm.View(), dst.value))
      modifies vm, vm.stack
      ensures st == Running && Valid() && PointersKept()
      ensures var l := old(vm.View());
        Proceed(old(State()), if dst.Some? then Set(l, dst.value, 0) else l) == Go(State())
    {
      hide *;
      if dst.Some? {
        st := Deliver(dst.value, 0);
      } else {
        st := Skip();
      }
    }

    /** What insn_rte_rtev does once it is decided. */
    method ReapAs(v: Verdict, dst: Option<Opd>, q: Opd) returns (st: Status)
      requires Valid() && vm.addr in State().vms && v == ReapVerdict(State(), dst, q)
      modifies this`heap, this`vm, heap.Values, Stacks()
      ensures Matches(st, ActReap(old(State()), dst, q))
      ensures st == Running ==> Valid() && PointersKept()
    {
      hide Valid, State, Vms, Matches, ActReap, ReapVerdict, Proceed, Descend, Whole, WaitingOf, Handle, I.Vm.View, Writable, Set, Read, PointersKept;
      ghost var s := State();
      Here();
      Fields(vm);
      Live(vm.addr);
      ReapDecided(s, dst, q);
      match v {
        case Fails =>
          st := Stopped;
        case Skips =>
          st := ReapNothing(dst);
        case Enters(h, _) =>
          Live(h);
          Resume(heap[h]);
          st := Running;
        case Frees(h) =>
          InVms(h);
          Fields(heap[h]);
          st := Free(h, dst, q);
      }
      Told(st, ActReap(s, dst, q));
    }

    /** insn_rte_rtev */
    method Reap(dst: Option<Opd>, q: Opd) returns (st: Status)
      requires Valid()
      modifies this`heap, this`vm, heap.Values, Stacks()
      ensures Matches(st, ActReap(old(State()), dst, q))
      ensures st == Running ==> Valid() && PointersKept()
    {
      hide Valid, State, Vms, Matches, ActReap, ReapVerdict, Whole, WaitingOf, I.Vm.View;
      Here();
      var v := ExamineReap(dst, q, State());
      Still();
      st := ReapAs(v, dst, q);
    }

    // ---------- the return of an outermost frame ----------

    /** The parent of the running machine is another live machine. */
    ghost predicate ParentLive()
      reads this, vm
    {
      vm.parent != null ==> vm.parent.addr in heap && heap[vm.parent.addr] == vm.parent && vm.parent != vm
    }

    /** What handle_return looks at when the outermost frame returns. */
    method ExamineReturn(size: nat, ghost s: Sys) returns (v: After)
      requires Valid() && ParentLive() && s == State() && s.cur in s.vms
      ensures v == ReturnVerdict(code, s, size)
    {
      hide Valid, State, Vms, I.Vm.View, Whole, Writable, I.Vm.CanWrite;
      Here();
      There();
      Fields(vm);
      if vm.parent == null {
        return Leaves;
      }
      var p := vm.parent;
      Fields(p);
      ParentInsn(p);
      var i := if p.ip < |code| then code[p.ip] else BFun;
      if i.Wait? {
        return if size <= vm.stack.Length then Keeps else Refuses;
      }
      if !(i.RteV? && size != 0 && i.dst.size == size && p.CanWrite(i.dst)) && !(i.Rte? && size == 0) {
        return Refuses;
      }
      v := if p.CanWrite(i.quaint) then Reaps else Refuses;
    }

    /** Control has gone back to the parent, and nothing but these two machines has changed. */
    twostate lemma BackToParent()
      requires old(Valid()) && old(ParentLive()) && old(vm.parent) != null && vm == old(vm.parent) && heap == old(heap)
      requires forall a :: a in heap && a != vm.addr && a != old(vm).addr ==>
                 Whole(heap[a]) == old(Whole(heap[a])) && heap[a].parent == old(heap[a].parent)
      requires old(vm).parent == old(vm.parent) && vm.parent == old(vm.parent.parent)
      ensures Valid() && PointersKept()
      ensures Vms() == old(Vms())[old(vm).addr := Whole(old(vm))][vm.addr := Whole(vm)]
    {
      hide Whole, Vms;
      TwoChanged();
    }

    /** The running machine is over: it keeps the value for whoever reaps it. */
    method Finish(size: nat, val: nat)
      requires size <= vm.stack.Length
      modifies vm, vm.stack
      ensures Whole(vm) == Ended(old(Whole(vm)), old(vm.View()), size, val) && vm.parent == old(vm.parent)
    {
      hide Write;
      vm.atEnd := true;
      vm.passed := Label(0, 0);
      vm.WriteWord(0, size, val);
      vm.temps := [];
    }

    /** A waiter goes on. */
    method Wake(p: I.Vm)
      modifies p
      ensures Whole(p) == old(Whole(p)).(waiting := NotWaiting, local := Advance(old(p.View()))) && p.parent == old(p.parent)
    {
      p.waiting, p.waitingFor, p.waitingUntil := false, false, false;
      p.ip := p.ip + 1;
    }

    method Keep(size: nat, val: nat)
      requires Valid() && ParentLive() && vm.parent != null && size <= vm.stack.Length
      modifies this`vm, vm, vm.stack, vm.parent
      ensures vm == old(vm.parent) && Valid() && PointersKept() && now == old(now) && cycles == old(cycles)
      ensures Vms() == old(Vms())[old(vm).addr := Ended(old(Whole(vm)), old(vm.View()), size, val)]
                       [vm.addr := old(Whole(vm.parent)).(waiting := NotWaiting, local := Advance(old(vm.parent.View())))]
    {
      hide Vms, I.Vm.View, Whole, WaitingOf, PointersKept, Ended, Advance, Valid;
      ghost var x := vm;
      Apart();
      var p := vm.parent;
      ApartFrom(p);
      Finish(size, val);
      vm := p;
      Wake(p);
      BackToParent();
    }

    /** The running machine is freed; control has gone back to its parent. */
    twostate lemma FreedSelf()
      requires old(Valid()) && old(ParentLive()) && old(vm.parent) != null && vm == old(vm.parent)
      requires heap == old(heap) - {old(vm).addr}
      requires forall a :: a in heap && a != vm.addr ==> Whole(heap[a]) == old(Whole(heap[a])) && heap[a].parent == old(heap[a].parent)
      requires vm.parent == old(vm.parent.parent) && vm.atEnd == old(vm.parent.atEnd) && WaitingOf(vm) == old(WaitingOf(vm.parent))
      ensures Valid() && PointersKept() && vm.addr in old(Vms())
      ensures Vms() == (old(Vms()) - {old(vm).addr})[vm.addr := old(Vms())[vm.addr].(local := vm.View())]
    {
      hide I.Vm.View, WaitingOf;
      assert Vms() == (old(Vms()) - {old(vm).addr})[vm.addr := Whole(vm)];
    }

    /** The value is delivered to the parent's instruction, the handle nulled, the machine freed. */
    method HandOver(dst: Option<Opd>, q: Opd, val: nat)
      requires Valid() && ParentLive() && vm.parent != null && Writable(vm.parent.View(), q)
      requires dst.Some? ==> Writable(vm.parent.View(), dst.value)
      modifies this`vm, this`heap, vm.parent, vm.parent.stack
      ensures vm == old(vm.parent) && Valid() && PointersKept() && now == old(now) && cycles == old(cycles)
      ensures vm.addr in old(Vms())
      ensures var pl := old(vm.parent.View());
        var l1 := if dst.Some? then Set(pl, dst.value, val) else pl;
        && Writable(l1, q)
        && Vms() == (old(Vms()) - {old(vm).addr})[vm.addr := old(Vms())[vm.addr].(local := Advance(Set(l1, q, 0)))]
    {
      hide Vms, I.Vm.View, Whole, PointersKept, Set, Writable, Valid, ParentLive;
      ghost var x := vm;
      Apart();
      ParentIs();
      var p := vm.parent;
      ApartFrom(p);
      if dst.Some? {
        StillWritable(p.View(), dst.value, val, q);
        p.Assign(dst.value, val);
      }
      heap := heap - {vm.addr};
      vm := p;
      vm.Assign(q, 0);
      var st := Next();
      FreedSelf();
    }

    lemma ParentIs()
      requires ParentLive() && vm.parent != null
      ensures vm.parent.addr in heap && heap[vm.parent.addr] == vm.parent && vm.parent != vm
    {
    }

    /** The parent waits: the value stays with the ended machine. */
    method ReturnKeeps(size: nat, val: nat)
      requires Valid() && ParentLive() && vm.addr in State().vms && ReturnVerdict(code, State(), size).Keeps?
      modifies this`vm, heap.Values, Stacks()
      ensures ActReturn(code, old(State()), old(vm.View()), size, val) == Go(State())
      ensures Valid() && PointersKept()
    {
      hide Valid, Vms, ActReturn, ReturnVerdict, Whole, WaitingOf, I.Vm.View, Advance, Ended, InsnAt, ParentLive, PointersKept;
      Here();
      ReturnDecided(code, State(), size, val);
      Fields(vm);
      ParentIs();
      InVms(vm.parent.addr);
      Live(vm.parent.addr);
      Fields(vm.parent);
      Keep(size, val);
    }

    /** The parent reaps: it gets the value, and the machine is freed. */
    method ReturnReaps(size: nat, val: nat)
      requires Valid() && ParentLive() && vm.addr in State().vms && ReturnVerdict(code, State(), size).Reaps?
      modifies this`vm, this`heap, heap.Values, Stacks()
      ensures ActReturn(code, old(State()), old(vm.View()), size, val) == Go(State())
      ensures Valid() && PointersKept()
    {
      hide Valid, Vms, ActReturn, ReturnVerdict, Whole, WaitingOf, I.Vm.View, Writable, Set, Advance, InsnAt, ParentLive, PointersKept;
      Here();
      ReturnDecided(code, State(), size, val);
      Fields(vm);
      ParentIs();
      InVms(vm.parent.addr);
      Live(vm.parent.addr);
      Fields(vm.parent);
      ParentInsn(vm.parent);
      IsReaper(code, vm.parent.View());
      var i := code[vm.parent.ip];
      HandOver(if i.RteV? then Some(i.dst) else None, i.quaint, val);
    }

    lemma InVms(a: nat)
      requires Valid() && a in heap
      ensures a in State().vms && State().vms[a] == Whole(heap[a])
    {
      hide Whole;
    }

    /** handle_return for an outermost frame. */
    method Return(size: nat, val: nat) returns (st: Status)
      requires Valid() && ParentLive()
      modifies this`vm, this`heap, heap.Values, Stacks()
      ensures Matches(st, ActReturn(code, old(State()), old(vm.View()), size, val))
      ensures st == Running ==> Valid() && PointersKept()
    {
      hide Valid, State, Vms, Matches, ActReturn, ReturnVerdict, Whole, WaitingOf, I.Vm.View, ParentLive;
      ghost var s, l := State(), vm.View();
      Here();
      ReturnDecided(code, s, size, val);
      var v := ExamineReturn(size, s);
      Still();
      match v {
        case Leaves =>
          st := Exited(size, val);
        case Refuses =>
          st := Stopped;
        case Keeps =>
          ReturnKeeps(size, val);
          st := Running;
        case Reaps =>
          ReturnReaps(size, val);
          st := Running;
      }
      Told(st, ActReturn(code, s, l, size, val));
    }

    lemma ParentInsn(p: I.Vm)
      ensures InsnAt(code, p.View()) == if p.ip < |code| then code[p.ip] else BFun
    {
    }

    // ---------- creating machines ----------

    /** A new machine stands at its address; of the others only the running one has changed, in its private state. */
    twostate lemma Created(addr: nat)
      requires old(Valid()) && addr !in old(heap) && addr in heap && heap == old(heap)[addr := heap[addr]]
      requires vm == old(vm) && now == old(now) && cycles == old(cycles)
      requires fresh(heap[addr]) && fresh(heap[addr].stack) && heap[addr].addr == addr
      requires forall a :: a in old(heap) ==> heap[a].stack != heap[addr].stack
      requires forall a :: a in old(heap) && a != vm.addr ==> Whole(heap[a]) == old(Whole(heap[a])) && heap[a].parent == old(heap[a].parent)
      requires vm.parent == old(vm.parent) && vm.atEnd == old(vm.atEnd) && WaitingOf(vm) == old(WaitingOf(vm))
      ensures Valid() && PointersKept() && vm.addr in old(State()).vms && vm.addr != addr
      ensures State() == var s := old(State());
        s.(vms := s.vms[addr := Whole(heap[addr])][vm.addr := s.vms[vm.addr].(local := vm.View())])
    {
      hide I.Vm.View, WaitingOf;
      assert Vms() == old(Vms())[addr := Whole(heap[addr])][vm.addr := Whole(vm)];
    }

    /** memcpy of the arguments, from the creator's stack to the bottom of the new one. */
    method CopyArguments(q: I.Vm, ssp: nat)
      requires ssp <= vm.sp <= vm.stack.Length && 16 + (vm.sp - ssp) <= q.stack.Length && q.stack != vm.stack
      requires q.stack[..] == Zeros(q.stack.Length)
      modifies q.stack
      ensures q.stack[..] == Zeros(16) + vm.stack[ssp..vm.sp] + Zeros(q.stack.Length - 16 - (vm.sp - ssp))
    {
      ghost var args := vm.stack[ssp..vm.sp];
      var i := 0;
      while i < vm.sp - ssp
        invariant 0 <= i <= |args| && vm.stack[ssp..vm.sp] == args
        invariant forall k :: 0 <= k < q.stack.Length ==> q.stack[k] == if 16 <= k < 16 + i then args[k - 16] else 0
      {
        q.stack[16 + i] := vm.stack[ssp + i];
        i := i + 1;
      }
      assert q.stack[..] == Zeros(16) + args + Zeros(q.stack.Length - 16 - |args|);
    }

    /** calloc and what insn_qnt puts into it: the function's address, and the arguments from the creator's stack. */
    method NewMachine(addr: nat, loc: nat, ssp: nat) returns (q: I.Vm)
      requires ssp <= vm.sp <= vm.stack.Length && 16 + (vm.sp - ssp) <= vm.stack.Length
      ensures fresh(q) && fresh(q.stack) && q.addr == addr && ssp <= vm.View().sp <= |vm.View().stack|
      ensures Whole(q) == Qvm(Spawned(vm.stack.Length, loc, vm.View().stack[ssp..vm.sp]), None, false, NotWaiting)
    {
      hide Zeros;
      ghost var args := vm.stack[ssp..vm.sp];
      q := new I.Vm(addr, Local(0, 0, 0, Zeros(vm.stack.Length), [], false, Flag(false, 0), Label(0, 0)));
      Fields(q);
      CopyArguments(q, ssp);
      q.ip, q.bp, q.sp, q.atStart := loc, 16, 16 + (vm.sp - ssp), true;
      assert vm.View().stack[ssp..vm.sp] == args;
    }

    /** The checks of insn_qnt: the function's address and the height of the stack below the arguments. */
    method ExamineQnt(i: Insn, addr: nat) returns (v: Option<(nat, nat)>)
      requires i.Qnt?
      ensures v == QntVerdict(vm.View(), i, addr)
    {
      hide I.Vm.View, Writable, I.Vm.CanWrite, InBounds, Get;
      if addr == 0 || i.dst.signd || i.dst.size != 8 || !vm.CanWrite(i.dst) || i.fn.signd || i.fn.size != 8 || !WordTemp(i.base) {
        return None;
      }
      var loc := vm.Fetch(i.fn);
      var ssp := vm.Fetch(i.base);
      Fields(vm);
      if loc.None? || ssp.None? || !(ssp.value <= vm.sp <= vm.stack.Length && 16 + (vm.sp - ssp.value) <= vm.stack.Length) {
        return None;
      }
      v := Some((loc.value, ssp.value));
    }

    /** The running machine stores the address, takes the arguments off its stack and goes on. */
    method Install(q: I.Vm, dst: Opd, ssp: nat) returns (st: Status)
      requires Valid() && q.addr !in heap && q.stack != vm.stack && q != vm && Writable(vm.View(), dst)
      modifies this`heap, vm, vm.stack
      ensures st == Running && vm == old(vm) && now == old(now) && cycles == old(cycles)
      ensures heap == old(heap)[q.addr := q]
      ensures vm.parent == old(vm.parent) && vm.atEnd == old(vm.atEnd) && WaitingOf(vm) == old(WaitingOf(vm))
      ensures vm.View() == Advance(Set(old(vm.View()), dst, q.addr).(sp := ssp))
    {
      hide Set, Writable, Valid;
      heap := heap[q.addr := q];
      vm.Assign(dst, q.addr);
      vm.sp := ssp;
      st := Next();
    }

    /** insn_qnt */
    method Spawn(env: Env, i: Insn) returns (st: Status)
      requires Valid() && i.Qnt? && env.addr !in heap
      modifies this`heap, heap.Values, Stacks()
      ensures Matches(st, ActQnt(old(State()), env, i))
      ensures st == Running ==> Valid() && PointersKept()
    {
      hide Valid, State, Vms, Matches, ActQnt, QntVerdict, Proceed, Whole, I.Vm.View, Writable, Set, Spawned, WaitingOf, PointersKept;
      ghost var s, l := State(), vm.View();
      Here();
      Fields(vm);
      Apart();
      Live(vm.addr);
      QntDecided(s, env, i);
      var v := ExamineQnt(i, env.addr);
      if v.None? {
        st := Stopped;
      } else {
        var q := NewMachine(env.addr, v.value.0, v.value.1);
        st := Install(q, i.dst, v.value.1);
        Created(env.addr);
        Installed(s, env.addr, Whole(q), Set(l, i.dst, env.addr).(sp := v.value.1));
      }
      Told(st, ActQnt(s, env, i));
    }

    /** insn_qntv */
    method SpawnValue(env: Env, i: Insn) returns (st: Status)
      requires Valid() && i.QntV? && env.addr !in heap
      modifies this`heap, heap.Values, Stacks()
      ensures Matches(st, ActQntV(old(State()), env, i))
      ensures st == Running ==> Valid() && PointersKept()
    {
      hide Valid, State, Vms, Matches, ActQntV, Proceed, Whole, I.Vm.View, I.Vm.CanWrite, Writable, Set, WaitingOf, PointersKept, InBounds, Get;
      ghost var s, l := State(), vm.View();
      Here();
      Fields(vm);
      Apart();
      Live(vm.addr);
      QntVDecided(s, env, i);
      var val := vm.Fetch(i.src);
      if env.addr == 0 || i.dst.signd || i.dst.size != 8 || !vm.CanWrite(i.dst) || val.None? || i.src.size > vm.stack.Length {
        st := Stopped;
      } else {
        var q := NewValue(env.addr, i.src.size, val.value);
        st := Install(q, i.dst, vm.sp);
        Created(env.addr);
        SameHeight(l, i.dst, env.addr);
        Installed(s, env.addr, Whole(q), Set(l, i.dst, env.addr));
      }
      Told(st, ActQntV(s, env, i));
    }

    /** calloc and what insn_qntv puts into it: an ended machine that holds a value. */
    method NewValue(addr: nat, size: nat, val: nat) returns (q: I.Vm)
      requires size <= vm.stack.Length
      ensures fresh(q) && fresh(q.stack) && q.addr == addr
      ensures Whole(q) == Qvm(Local(0, 0, 0, Write(Zeros(vm.stack.Length), 0, size, val), [], true, Flag(false, 0), Label(0, 0)),
                              None, true, NotWaiting)
    {
      hide Write;
      q := new I.Vm(addr, Local(0, 0, 0, Zeros(vm.stack.Length), [], true, Flag(false, 0), Label(0, 0)));
      q.atEnd := true;
      q.WriteWord(0, size, val);
    }

    // ---------- exec_insn ----------

    /** An instruction of the machine's own, and what follows when it was its last. */
    method Own(junk: nat -> Byte, env: Env, ghost fill: Fill) returns (st: Status)
      requires Valid() && ParentLive()
      requires forall i: nat :: junk(i) == fill(vm.View(), i)
      requires !ForOthers(InsnAt(code, vm.View()))
      modifies this`vm, this`heap, heap.Values, Stacks()
      ensures Matches(st, Act(code, old(State()), env, fill))
      ensures st == Running ==> Valid() && PointersKept()
    {
      hide Valid, State, Vms, Matches, Act, Whole, I.Vm.View, Step, InsnAt, ForOthers, Put, WaitingOf;
      ghost var s, l := State(), vm.View();
      Here();
      Fields(vm);
      Apart();
      Live(vm.addr);
      SameStep(code, l, fill, junk);
      OwnActs(code, s, env, fill);
      var r := Private(junk);
      match r {
        case Running =>
          Stepped();
          st := Running;
          Told(st, Act(code, s, env, fill));
        case Exited(size, val) =>
          Stepped();
          ghost var l1 := vm.View();
          ReturnSame(code, s, l1, size, val);
          st := Return(size, val);
        case Stopped =>
          st := Stopped;
          Told(st, Act(code, s, env, fill));
      }
    }

    /** exec_insn, before the check. */
    method Instruction(env: Env, junk: nat -> Byte, ghost fill: Fill) returns (st: Status)
      requires Valid() && ParentLive() && env.addr !in heap
      requires forall i: nat :: junk(i) == fill(vm.View(), i)
      modifies this`vm, this`heap, this`now, heap.Values, Stacks()
      ensures Matches(st, Act(code, old(State()), env, fill))
      ensures st == Running ==> Valid() && PointersKept()
    {
      hide Valid, State, Vms, Matches, Act, ActWait, ActReap, ActQat, ActQnt, ActQntV, Whole, I.Vm.View, PointersKept;
      Here();
      Fields(vm);
      Live(vm.addr);
      ParentInsn(vm);
      var i := if vm.ip < |code| then code[vm.ip] else BFun;
      if !ForOthers(i) {
        st := Own(junk, env, fill);
      } else {
        OthersAct(code, State(), env, fill);
        if i.Wait? {
          st := Wait(env, i);
        } else if i.Rte? {
          st := Reap(None, i.quaint);
        } else if i.RteV? {
          st := Reap(Some(i.dst), i.quaint);
        } else if i.Qat? {
          st := At(i);
        } else if i.Qnt? {
          st := Spawn(env, i);
        } else {
          st := SpawnValue(env, i);
        }
      }
    }

    // ---------- pre-emption ----------

    /** Control has passed to a machine whose private state and flags have changed; nothing else has. */
    twostate lemma SplitOff()
      requires old(Valid()) && heap == old(heap) && vm.addr in heap && heap[vm.addr] == vm
      requires forall a :: a in heap && a != vm.addr ==> Whole(heap[a]) == old(Whole(heap[a]))
      ensures Valid() && Vms() == old(Vms())[vm.addr := Whole(vm)]
    {
      hide Whole;
      assert forall a :: a in heap ==> Vms()[a] == Whole(heap[a]);
    }

    /** The condition of the walk for one machine and the one below it. */
    method Ready(child: I.Vm, x: I.Vm, ghost vms: map<nat, Qvm>) returns (split: bool)
      requires child.addr in vms && vms[child.addr] == Whole(child) && x.addr in vms && vms[x.addr] == Whole(x)
      ensures split == Due(vms, child.addr, x.addr, now)
    {
      split := false;
      if x.waiting {
        if x.waitingFor {
          split := (now - x.start) % WORD >= x.interval;
        } else if x.waitingUntil {
          split := child.passed == x.until;
        }
      }
    }

    /** The walk up the parents: the nearest machine to resume, or null.  It ends because the parents form a chain of
        live machines. */
    method FindDue(ghost s: Sys, ghost ch: seq<nat>) returns (x: I.Vm?)
      requires Valid() && Inv(code, s, ch) && Linked(ch) && s.cur == vm.addr
      requires forall a :: a in heap ==> a in s.vms && heap[a].addr == a && Whole(heap[a]) == s.vms[a]
      ensures x == null ==> Walk(s.vms, s.cur, now, |s.vms|) == None
      ensures x != null ==> Walk(s.vms, s.cur, now, |s.vms|) == Some(x.addr) && x.addr in heap && heap[x.addr] == x
    {
      hide Inv, Chain, Due, Valid, Vms, Whole, WaitingOf, I.Vm.View;
      CurFacts(code, s, ch);
      InvChain(code, s, ch);
      ChainFits(code, s, ch);
      Here();
      var child := vm;
      var current := vm.parent;
      var noint := vm.noint;
      ghost var i := 0;
      Fields(vm);
      while current != null && !noint
        invariant 0 <= i < |ch| <= |s.vms| && child == heap[ch[i]] && current == child.parent
        invariant child.addr == ch[i] && Whole(child) == s.vms[ch[i]] && noint == s.vms[ch[i]].local.noint.on
        invariant Walk(s.vms, s.cur, now, |s.vms|) == Walk(s.vms, ch[i], now, |s.vms| - i)
        decreases |ch| - i
      {
        Fields(child);
        LinkUp(code, s, ch, i);
        assert current == heap[ch[i + 1]];
        var split := Ready(child, current, s.vms);
        if split {
          return current;
        }
        Fields(current);
        noint := current.noint;
        child := current;
        current := current.parent;
        i := i + 1;
      }
      Fields(child);
      x := null;
    }

    /** The cycle counter, and every 200 cycles the clock. */
    method Tick(env: Env, ghost ch: seq<nat>)
      requires Valid() && Linked(ch)
      modifies this`now, this`cycles
      ensures State() == Ticked(old(State()), env) && Valid() && Linked(ch) && heap == old(heap) && vm == old(vm)
    {
      hide Valid, Linked, Vms, Whole;
      if cycles % 200 == 0 {
        now := env.checkClock % WORD;
      }
      cycles := cycles + 1;
      SameLinks(ch);
      Calm();
    }

    /** `vm = current_vm;`, which goes on behind its wait. */
    method SplitTo(x: I.Vm)
      requires Valid() && x.addr in heap && heap[x.addr] == x
      modifies this`vm, x
      ensures Valid() && heap == old(heap) && (forall a :: a in heap ==> heap[a].parent == old(heap[a].parent))
      ensures x.addr in old(State()).vms
      ensures State() == Resumed(old(State()), x.addr)
    {
      hide Vms, Whole, WaitingOf, I.Vm.View, Advance, Valid;
      InVms(x.addr);
      Fields(x);
      Others(x);
      vm := x;
      Wake(x);
      SplitOff();
    }

    /** The machine that is due is resumed, if there is one. */
    method SplitWhenDue(ghost ch: seq<nat>)
      requires Valid() && Inv(code, State(), ch) && Linked(ch)
      modifies this`vm, heap.Values
      ensures Valid() && heap == old(heap) && (forall a :: a in heap ==> heap[a].parent == old(heap[a].parent))
      ensures var s := old(State());
        var x := Walk(s.vms, s.cur, s.now, |s.vms|);
        (x.Some? ==> x.value in s.vms) && State() == if x.None? then s else Resumed(s, x.value)
    {
      hide Inv, Valid, State, Vms, Whole, WaitingOf, I.Vm.View, Linked, Walk, Resumed;
      CurFacts(code, State(), ch);
      Here();
      There();
      var x := FindDue(State(), ch);
      Still();
      if x != null {
        Live(x.addr);
        SplitTo(x);
      }
    }

    /** check_and_eventually_split_vms */
    method CheckAndEventuallySplit(env: Env, ghost ch: seq<nat>)
      requires Valid() && Inv(code, State(), ch) && Linked(ch)
      modifies this`vm, this`now, this`cycles, heap.Values
      ensures State() == Check(old(State()), env) && Valid() && Linked(ch) && Repr() == old(Repr())
    {
      hide Inv, Valid, State, Vms, Linked, Walk, Check, Ticked, Resumed;
      ghost var s := State();
      CurFacts(code, s, ch);
      TickedIs(code, s, env, ch);
      CheckIs(s, env);
      Tick(env, ch);
      SplitWhenDue(ch);
      SameLinks(ch);
    }

    lemma Others(x: I.Vm)
      requires Valid() && x.addr in heap && heap[x.addr] == x
      ensures forall a :: a in heap && a != x.addr ==> heap[a] != x && heap[a].stack != x.stack
    {
    }

    twostate lemma SameLinks(ch: seq<nat>)
      requires old(Linked(ch)) && heap == old(heap) && forall a :: a in heap ==> heap[a].parent == old(heap[a].parent)
      ensures Linked(ch)
    {
    }

    /** The machines are what they were. */
    twostate lemma Calm()
      requires old(Valid()) && heap == old(heap) && vm == old(vm)
      requires forall a :: a in heap ==> Whole(heap[a]) == old(Whole(heap[a]))
      ensures Valid() && Vms() == old(Vms())
    {
      hide Whole;
      assert Vms() == old(Vms());
    }

    // ---------- the loop ----------

    lemma ParentsLive(ch: seq<nat>)
      requires Valid() && Inv(code, State(), ch) && Linked(ch)
      ensures ParentLive()
    {
      ParentIsNext(code, State(), ch);
      There();
    }

    /** A machine whose parent is the address of the live machine p.1, as before, points to that machine. */
    twostate lemma SamePair(p: (nat, nat))
      requires old(Valid()) && Valid() && PointersKept()
      requires p.0 in heap && p.1 in heap && p.0 in old(heap) && p.1 in old(heap)
      requires old(heap[p.0].parent) == old(heap[p.1]) && heap[p.0].parent != null && heap[p.0].parent.addr == p.1
      ensures heap[p.0].parent == heap[p.1]
    {
    }

    /** A machine that has been entered points to the one that entered it. */
    twostate lemma NewPair()
      requires old(Valid()) && Valid() && PointersKept() && vm != old(vm) && vm != old(vm.parent) && old(vm).addr in heap
      ensures vm.parent == heap[old(vm).addr] && heap[vm.addr] == vm
    {
    }

    lemma ParentAt(ch: seq<nat>, i: nat)
      requires Valid() && Inv(code, State(), ch) && i < |ch|
      ensures ch[i] in heap && ch[0] == vm.addr && heap[vm.addr] == vm
      ensures if i + 1 < |ch| then heap[ch[i]].parent != null && heap[ch[i]].parent.addr == ch[i + 1] && ch[i] != ch[i + 1]
              else heap[ch[i]].parent == null
    {
      hide Inv, Valid, Whole, Vms, State;
      There();
      Here();
      ChainReading(code, State(), ch, i);
      Fields(heap[ch[i]]);
    }

    /** After an instruction the pointers along the new chain are right. */
    twostate lemma LinkedStays(c: (seq<nat>, seq<nat>))
      requires old(Valid()) && Valid() && PointersKept() && Inv(code, State(), c.1)
      requires old(Linked(c.0)) && c.0 != [] && c.0[0] == old(vm).addr
      requires (if |c.0| > 1 then old(vm.parent) == old(heap[c.0[1]]) else old(vm.parent) == null)
      requires c.1 == c.0 || (|c.1| == |c.0| + 1 && c.1[1..] == c.0) || (|c.0| > 1 && c.1 == c.0[1..])
      ensures Linked(c.1)
    {
      hide Inv, Valid, PointersKept, State;
      ghost var ch, ch1 := c.0, c.1;
      forall i | 0 <= i < |ch1| ensures ch1[i] in heap {
        ParentAt(ch1, i);
      }
      forall i | 0 <= i < |ch1| - 1 ensures heap[ch1[i]].parent == heap[ch1[i + 1]] {
        ParentAt(ch1, i);
        ParentAt(ch1, i + 1);
        if |ch1| == |ch| + 1 {
          assert ch1[i + 1] == ch1[1..][i] == ch[i];
          if i == 0 {
            Entrant((ch, ch1));
            NewPair();
          } else {
            assert ch1[i] == ch1[1..][i - 1] == ch[i - 1];
            SamePair((ch1[i], ch1[i + 1]));
          }
        } else {
          SamePair((ch1[i], ch1[i + 1]));
        }
      }
    }

    /** The machine at the head of a longer chain is neither the old one nor its parent. */
    twostate lemma Entrant(c: (seq<nat>, seq<nat>))
      requires old(Valid()) && Valid() && PointersKept() && Inv(code, State(), c.1)
      requires old(Linked(c.0)) && c.0 != [] && c.0[0] == old(vm).addr && |c.1| == |c.0| + 1 && c.1[1..] == c.0
      requires (if |c.0| > 1 then old(vm.parent) == old(heap[c.0[1]]) else old(vm.parent) == null)
      ensures vm != old(vm) && vm != old(vm.parent) && old(vm).addr in heap
    {
      hide Inv, State, Whole, Vms;
      ghost var ch, ch1 := c.0, c.1;
      assert ch1[1] == ch1[1..][0] == ch[0];
      ParentAt(ch1, 0);
      ParentAt(ch1, 1);
      if |ch| > 1 {
        assert ch1[2] == ch1[1..][1] == ch[1];
        ChainReading(code, State(), ch1, 0);
        DifferentEnds(ch1);
      }
    }

    lemma DifferentEnds(ch: seq<nat>)
      requires Distinct(ch) && |ch| > 2
      ensures ch[0] != ch[2]
    {
    }

    /** Everything that is there now was there before or is new. */
    twostate lemma NewIsFresh()
      requires PointersKept()
      ensures fresh(Repr() - old(Repr()))
    {
    }

    lemma ChainFacts(ch: seq<nat>)
      requires Valid() && Inv(code, State(), ch) && Linked(ch)
      ensures ParentLive() && ch != [] && ch[0] == vm.addr
      ensures if |ch| > 1 then ch[1] in heap && vm.parent == heap[ch[1]] else vm.parent == null
    {
      hide Inv, State, ParentLive;
      NotEmpty(code, State(), ch);
      ParentsLive(ch);
      ParentAt(ch, 0);
    }

    lemma Allocatable(env: Env)
      requires EnvOk(State(), env)
      ensures env.addr !in heap
    {
    }

    /** An instruction of a run, before the check. */
    method Perform(env: Env, junk: nat -> Byte, ghost fill: Fill, ghost s1: Sys, ghost ch: seq<nat>)
      returns (st: Status, ghost ch1: seq<nat>)
      requires Valid() && Inv(code, State(), ch) && Linked(ch) && UseOk(code, State()) && EnvOk(State(), env)
      requires Act(code, State(), env, fill) == Go(s1)
      requires forall i: nat :: junk(i) == fill(vm.View(), i)
      modifies Repr()
      ensures st == Running && State() == s1 && Valid() && Inv(code, s1, ch1) && Linked(ch1)
      ensures fresh(Repr() - old(Repr()))
    {
      hide Valid, State, Vms, Inv, Act, Matches, Linked, PointersKept, ParentLive, I.Vm.View, UseOk, EnvOk;
      ghost var s := State();
      ChainFacts(ch);
      Allocatable(env);
      ch1 := ActKeepsInv(code, s, ch, env, fill, s1);
      st := Instruction(env, junk, fill);
      Followed(st, Go(s1));
      LinkedStays((ch, ch1));
      NewIsFresh();
    }

    /** exec_insn with its check: one step of the system. */
    method Round(env: Env, junk: nat -> Byte, ghost fill: Fill, ghost s': Sys, ghost ch: seq<nat>)
      returns (st: Status, ghost ch': seq<nat>)
      requires Valid() && Inv(code, State(), ch) && Linked(ch) && Steps(code, fill, State(), env, s')
      requires forall i: nat :: junk(i) == fill(vm.View(), i)
      modifies Repr()
      ensures st == Running && State() == s' && Valid() && Inv(code, s', ch') && Linked(ch')
      ensures fresh(Repr() - old(Repr()))
    {
      hide Valid, State, Vms, Inv, Act, Check, Linked, I.Vm.View, UseOk, EnvOk;
      ghost var s1 := Act(code, State(), env, fill).s;
      ghost var ch1;
      st, ch1 := Perform(env, junk, fill, s1, ch);
      ghost var k := CheckKeepsInv(code, s1, ch1, env);
      ch' := ch1[k..];
      CheckAndEventuallySplit(env, ch1);
      Shortened(ch1, k);
    }

    lemma JunkHere(fill: Fill, junk: nat -> Byte)
      requires Valid() && JunkOk(fill, State(), junk)
      ensures forall i: nat :: junk(i) == fill(vm.View(), i)
    {
      Here();
      Fields(vm);
    }

    lemma Followed(st: Status, n: SysNext)
      requires Matches(st, n) && n.Go?
      ensures st == Running && State() == n.s
    {
    }

    lemma Shortened(ch: seq<nat>, k: nat)
      requires Linked(ch) && k < |ch|
      ensures Linked(ch[k..])
    {
      forall i | 0 <= i < |ch[k..]| - 1 ensures heap[ch[k..][i]].parent == heap[ch[k..][i + 1]] {
        assert ch[k..][i] == ch[k + i] && ch[k..][i + 1] == ch[k + i + 1];
      }
    }

    /** The loop of exec, over as many instructions as there are inputs: while the owners of quaints keep to the
        rules, the machines, updated in place, go through the states of a run, and the active chain stays intact. */
    method Execute(envs: seq<Env>, junks: seq<nat -> Byte>, ghost fill: Fill, ghost states: seq<Sys>, ghost ch0: seq<nat>)
      returns (st: Status)
      requires Valid() && Inv(code, State(), ch0) && Linked(ch0) && IsRun(code, fill, states, envs) && states[0] == State()
      requires |junks| == |envs| && forall n: nat :: n < |envs| ==> JunkOk(fill, states[n], junks[n])
      modifies Repr()
      ensures st == Running && State() == states[|envs|] && Inv(code, State(), ChainOf(State()))
      ensures Valid() && Linked(ChainOf(State())) && fresh(Repr() - old(Repr()))
    {
      hide Valid, State, Vms, Inv, Linked, JunkOk, I.Vm.View, Steps, ChainOf;
      ghost var ch := ch0;
      st := Running;
      var n := 0;
      while n < |envs|
        invariant 0 <= n <= |envs| && st == Running && State() == states[n]
        invariant Valid() && Inv(code, State(), ch) && Linked(ch) && fresh(Repr() - old(Repr()))
      {
        assert Steps(code, fill, states[n], envs[n], states[n + 1]);
        JunkHere(fill, junks[n]);
        st, ch := Round(envs[n], junks[n], fill, states[n + 1], ch);
        n := n + 1;
      }
      CurFacts(code, State(), ch);
    }

    lemma Live(a: nat)
      requires Valid() && a in heap
      ensures heap[a] in heap.Values && heap[a].addr == a && heap[a].stack in Stacks()
      ensures vm in heap.Values && vm.stack in Stacks()
    {
    }

    lemma Told(st: Status, n: SysNext)
      requires if n.Go? then st == Running && State() == n.s else if n.Stuck? then st == Stopped else st == Exited(n.size, n.val)
      ensures Matches(st, n)
    {
    }
  }

  /** What insn_qat answers; nothing when it is illegal. */
  ghost function QatVerdict(s: Sys, i: Insn): Option<bool>
    requires i.Qat? && s.cur in s.vms
  {
    var l := s.vms[s.cur].local;
    var h := Handle(l, i.quaint);
    if h.None? || i.dst.signd || i.dst.size != 1 || !Writable(l, i.dst) || (h.value != 0 && h.value !in s.vms) then None
    else if h.value == 0 then Some(false)
    else
      var q := s.vms[h.value];
      Some(if i.lab == Label(0, 0) then q.local.atStart else if i.lab.func == 1 then q.atEnd else q.local.passed == i.lab)
  }

  lemma QatDecided(s: Sys, i: Insn)
    requires i.Qat? && s.cur in s.vms
    ensures var l, at := s.vms[s.cur].local, QatVerdict(s, i);
      && (at.Some? ==> Writable(l, i.dst))
      && ActQat(s, i) == if at.None? then Stuck else Proceed(s, Set(l, i.dst, if at.value then 1 else 0))
  {
    hide Handle, Writable, Set;
  }

  /** What insn_wait and insn_rte_rtev find before they change anything. */
  datatype Verdict = Fails | Skips | Enters(h: nat, interval: nat) | Frees(h: nat)

  ghost function WaitVerdict(s: Sys, i: Insn): Verdict
    requires i.Wait? && s.cur in s.vms
  {
    var l := s.vms[s.cur].local;
    var h, tm := Handle(l, i.quaint), TimeoutOf(l, i.timeout);
    if h.None? || (h.value != 0 && h.value !in s.vms) then Fails
    else if h.value == 0 || s.vms[h.value].atEnd then Skips
    else if !i.timed then Enters(h.value, 0)
    else if tm.None? then Fails
    else if tm.value == 0 then Skips
    else Enters(h.value, (tm.value * if i.seconds then 1_000_000_000 else 1_000_000) % WORD)
  }

  /** What WAIT notes about itself. */
  function WaitKind(env: Env, i: Insn, interval: nat): Waiting
    requires i.Wait?
  {
    if i.timed then For(env.waitClock % WORD, interval) else if i.lab.func != 0 then Until(i.lab) else Plain
  }

  lemma WaitDecided(s: Sys, env: Env, i: Insn)
    requires i.Wait? && s.cur in s.vms
    ensures WaitVerdict(s, i).Enters? ==> WaitVerdict(s, i).h in s.vms
    ensures !WaitVerdict(s, i).Frees?
    ensures ActWait(s, env, i) ==
            match WaitVerdict(s, i)
            case Fails => Stuck
            case Skips => Proceed(s, s.vms[s.cur].local)
            case Enters(h, interval) =>
              Go(Descend(s, h, WaitKind(env, i, interval)).(now := if i.timed then env.waitClock % WORD else s.now))
  {
    hide Handle, TimeoutOf;
  }

  lemma StillWritable(l: Local, o: Opd, v: nat, q: Opd)
    requires Writable(l, o)
    ensures Writable(Set(l, o, v), q) <==> Writable(l, q)
  {
    hide Write;
  }

  lemma Released(s: Sys, h: nat, l1: Local, l2: Local)
    requires s.cur in s.vms && h != s.cur
    ensures var s1 := Put(s, s.cur, s.vms[s.cur].(local := l1));
      Proceed(s.(vms := s.vms - {h}), l2)
      == Go(s1.(vms := (s1.vms - {h})[s.cur := s1.vms[s.cur].(local := Advance(l2))]))
  {
    var s1 := Put(s, s.cur, s.vms[s.cur].(local := l1));
    assert (s1.vms - {h})[s.cur := s1.vms[s.cur].(local := Advance(l2))]
        == (s.vms - {h})[s.cur := s.vms[s.cur].(local := Advance(l2))];
  }

  ghost function ReapVerdict(s: Sys, dst: Option<Opd>, q: Opd): Verdict
    requires s.cur in s.vms
  {
    var l := s.vms[s.cur].local;
    var h := Handle(l, q);
    if h.None? || (dst.Some? && !Writable(l, dst.value)) then Fails
    else if h.value == 0 then Skips
    else if h.value !in s.vms || h.value == s.cur then Fails
    else if !s.vms[h.value].atEnd then Enters(h.value, 0)
    else if (dst.Some? && dst.value.size > |s.vms[h.value].local.stack|) || !Writable(l, q) then Fails
    else Frees(h.value)
  }

  lemma ReapDecided(s: Sys, dst: Option<Opd>, q: Opd)
    requires s.cur in s.vms
    ensures var l, v := s.vms[s.cur].local, ReapVerdict(s, dst, q);
      && (v.Enters? || v.Frees? ==> v.h in s.vms && v.h != s.cur)
      && (!v.Fails? && dst.Some? ==> Writable(l, dst.value))
      && (v.Frees? ==> Writable(l, q) && (dst.Some? ==> dst.value.size <= |s.vms[v.h].local.stack|))
      && (v.Frees? ==>
            var l1 := if dst.Some? then Set(l, dst.value, Read(s.vms[v.h].local.stack, 0, dst.value.size)) else l;
            Writable(l1, q) && ActReap(s, dst, q) == Proceed(s.(vms := s.vms - {v.h}), Set(l1, q, 0)))
      && (v.Fails? ==> ActReap(s, dst, q) == Stuck)
      && (v.Skips? ==> ActReap(s, dst, q) == Proceed(s, if dst.Some? then Set(l, dst.value, 0) else l))
      && (v.Enters? ==> ActReap(s, dst, q) == Go(Descend(s, v.h, s.vms[s.cur].waiting)))
  {
    hide Handle, Writable, Set, Read;
    if dst.Some? && Writable(s.vms[s.cur].local, dst.value) {
      forall v: nat ensures Writable(Set(s.vms[s.cur].local, dst.value, v), q) <==> Writable(s.vms[s.cur].local, q) {
        StillWritable(s.vms[s.cur].local, dst.value, v, q);
      }
    }
  }

  /** What becomes of a machine whose outermost frame returns. */
  datatype After = Leaves | Refuses | Keeps | Reaps

  ghost function ReturnVerdict(code: seq<Insn>, s: Sys, size: nat): After
    requires s.cur in s.vms
  {
    match s.vms[s.cur].parent
    case None => Leaves
    case Some(p) =>
      if p !in s.vms || p == s.cur then Refuses
      else
        var pl := s.vms[p].local;
        var i := InsnAt(code, pl);
        if i.Wait? then (if size <= |s.vms[s.cur].local.stack| then Keeps else Refuses)
        else if !(i.RteV? && size != 0 && i.dst.size == size && Writable(pl, i.dst)) && !(i.Rte? && size == 0) then Refuses
        else if Writable(pl, i.quaint) then Reaps
        else Refuses
  }

  lemma ReturnDecided(code: seq<Insn>, s: Sys, size: nat, val: nat)
    requires s.cur in s.vms
    ensures var v, q := ReturnVerdict(code, s, size), s.vms[s.cur];
      var out := ActReturn(code, s, q.local, size, val);
      && (v.Leaves? ==> q.parent.None? && out == Exit(size, val))
      && (v.Refuses? ==> q.parent.Some? && out == Stuck)
      && (v.Keeps? || v.Reaps? ==> q.parent.Some? && q.parent.value in s.vms && q.parent.value != s.cur)
      && (v.Keeps? ==> var p := q.parent.value;
            && size <= |q.local.stack|
            && out == Go(s.(cur := p, vms := s.vms[s.cur := Ended(q, q.local, size, val)]
                                                [p := s.vms[p].(waiting := NotWaiting, local := Advance(s.vms[p].local))])))
      && (v.Reaps? ==> var p := q.parent.value;
            var pl := s.vms[p].local;
            var i := InsnAt(code, pl);
            && (i.Rte? || i.RteV?) && Writable(pl, i.quaint) && (i.RteV? ==> Writable(pl, i.dst))
            && var l1 := if i.RteV? then Set(pl, i.dst, val) else pl;
               && Writable(l1, i.quaint)
               && out == Go(s.(cur := p, vms := (s.vms - {s.cur})[p := s.vms[p].(local := Advance(Set(l1, i.quaint, 0)))])))
  {
    hide Writable, Set, Write, InsnAt;
    if s.vms[s.cur].parent.Some? && s.vms[s.cur].parent.value in s.vms {
      var pl := s.vms[s.vms[s.cur].parent.value].local;
      var i := InsnAt(code, pl);
      if i.RteV? && Writable(pl, i.dst) {
        StillWritable(pl, i.dst, val, i.quaint);
      }
    }
  }

  lemma IsReaper(code: seq<Insn>, pl: Local)
    requires InsnAt(code, pl).Rte? || InsnAt(code, pl).RteV?
    ensures pl.ip < |code| && code[pl.ip] == InsnAt(code, pl)
  {
  }

  ghost function QntVerdict(l: Local, i: Insn, addr: nat): Option<(nat, nat)>
    requires i.Qnt?
  {
    if addr == 0 || i.dst.signd || i.dst.size != 8 || !Writable(l, i.dst) || i.fn.signd || i.fn.size != 8 || !WordTemp(i.base)
       || !InBounds(l, i.fn) || !InBounds(l, i.base) then None
    else
      var ssp := Get(l, i.base);
      if !(ssp <= l.sp <= |l.stack| && 16 + (l.sp - ssp) <= |l.stack|) then None
      else Some((Get(l, i.fn), ssp))
  }

  lemma QntDecided(s: Sys, env: Env, i: Insn)
    requires i.Qnt? && s.cur in s.vms
    ensures var l := s.vms[s.cur].local;
      var v := QntVerdict(l, i, env.addr);
      && (v.None? ==> ActQnt(s, env, i) == Stuck)
      && (v.Some? ==>
            var (loc, ssp) := v.value;
            && Writable(l, i.dst) && ssp <= l.sp <= |l.stack| && 16 + (l.sp - ssp) <= |l.stack|
            && ActQnt(s, env, i)
               == Proceed(Put(s, env.addr, Qvm(Spawned(|l.stack|, loc, l.stack[ssp..l.sp]), None, false, NotWaiting)),
                          Set(l, i.dst, env.addr).(sp := ssp)))
  {
    hide Set, Writable, InBounds, Get, Spawned;
  }

  lemma QntVDecided(s: Sys, env: Env, i: Insn)
    requires i.QntV? && s.cur in s.vms
    ensures var l := s.vms[s.cur].local;
      if env.addr == 0 || i.dst.signd || i.dst.size != 8 || !Writable(l, i.dst) || !InBounds(l, i.src) || i.src.size > |l.stack|
      then ActQntV(s, env, i) == Stuck
      else ActQntV(s, env, i)
           == Proceed(Put(s, env.addr, Qvm(Local(0, 0, 0, Write(Zeros(|l.stack|), 0, i.src.size, Get(l, i.src)), [], true,
                                                 Flag(false, 0), Label(0, 0)), None, true, NotWaiting)),
                      Set(l, i.dst, env.addr))
  {
    hide Set, Writable, InBounds, Get, Write, Zeros;
  }

  lemma Installed(s: Sys, addr: nat, q: Qvm, l: Local)
    requires s.cur in s.vms && addr != s.cur
    ensures Proceed(Put(s, addr, q), l) == Go(s.(vms := s.vms[addr := q][s.cur := s.vms[s.cur].(local := Advance(l))]))
  {
  }

  lemma SameHeight(l: Local, o: Opd, v: nat)
    requires Writable(l, o)
    ensures Set(l, o, v).(sp := l.sp) == Set(l, o, v)
  {
    hide Write;
  }

  /** The instructions on other machines. */
  predicate ForOthers(i: Insn) {
    i.Wait? || i.Rte? || i.RteV? || i.Qat? || i.Qnt? || i.QntV?
  }

  /** Only INCSP looks at unspecified memory. */
  lemma SameStep(code: seq<Insn>, l: Local, fill: Fill, junk: nat -> Byte)
    requires forall i: nat :: junk(i) == fill(l, i)
    ensures Step(code, l, I.Contents(junk)) == Step(code, l, fill)
  {
    hide StepMov, StepCast, StepBin, StepCmp, StepUn, StepIncDec, StepIncDecP, StepCJmp, StepPushR, StepPush, StepCall, StepRet, StepGetSp;
    if l.ip < |code| && code[l.ip].IncSp? {
      assert Fresh(code[l.ip].tsize, I.Contents(junk), l) == Fresh(code[l.ip].tsize, fill, l);
    }
  }

  lemma OwnActs(code: seq<Insn>, s: Sys, env: Env, fill: Fill)
    requires s.cur in s.vms && !ForOthers(InsnAt(code, s.vms[s.cur].local))
    ensures Act(code, s, env, fill) == match Step(code, s.vms[s.cur].local, fill)
                                       case Next(l) => Go(Put(s, s.cur, s.vms[s.cur].(local := l)))
                                       case Finished(l, size, val) => ActReturn(code, s, l, size, val)
                                       case _ => Stuck
  {
    hide Step, ActReturn;
  }

  lemma OthersAct(code: seq<Insn>, s: Sys, env: Env, fill: Fill)
    requires s.cur in s.vms && ForOthers(InsnAt(code, s.vms[s.cur].local))
    ensures var l := s.vms[s.cur].local;
      var i := InsnAt(code, l);
      Act(code, s, env, fill) == if i.Wait? then ActWait(s, env, i)
                                 else if i.Rte? then ActReap(s, None, i.quaint)
                                 else if i.RteV? then ActReap(s, Some(i.dst), i.quaint)
                                 else if i.Qat? then ActQat(s, i)
                                 else if i.Qnt? then ActQnt(s, env, i)
                                 else ActQntV(s, env, i)
  {
    hide ActWait, ActReap, ActQat, ActQnt, ActQntV, Step;
    OthersStep(code, s.vms[s.cur].local, fill);
  }

  lemma OthersStep(code: seq<Insn>, l: Local, fill: Fill)
    requires ForOthers(InsnAt(code, l))
    ensures Step(code, l, fill) == External && l.ip < |code| && InsnAt(code, l) == code[l.ip]
  {
    hide StepMov, StepCast, StepBin, StepCmp, StepUn, StepIncDec, StepIncDecP, StepCJmp, StepPushR, StepPush, StepCall, StepIncSp, StepRet, StepGetSp;
  }

  /** The return of a machine replaces its own state: what it was before does not matter. */
  lemma ReturnSame(code: seq<Insn>, s: Sys, l: Local, size: nat, val: nat)
    requires s.cur in s.vms
    ensures ActReturn(code, Put(s, s.cur, s.vms[s.cur].(local := l)), l, size, val) == ActReturn(code, s, l, size, val)
  {
    hide InsnAt, Set, Write, Writable;
    var s1 := Put(s, s.cur, s.vms[s.cur].(local := l));
    assert s1.vms - {s.cur} == s.vms - {s.cur};
    if size <= |l.stack| {
      assert s1.vms[s.cur := Ended(s1.vms[s.cur], l, size, val)] == s.vms[s.cur := Ended(s.vms[s.cur], l, size, val)];
    }
  }

  lemma LinkUp(code: seq<Insn>, s: Sys, ch: seq<nat>, i: nat)
    requires Inv(code, s, ch) && i < |ch| && ch[i] in s.vms && s.vms[ch[i]].parent.Some?
    ensures i + 1 < |ch| && s.vms[ch[i]].parent == Some(ch[i + 1]) && ch[i + 1] in s.vms
  {
    ChainReading(code, s, ch, i);
    hide Inv;
    if i + 1 < |ch| {
      ChainReading(code, s, ch, i + 1);
    }
  }

  /** The state when the walk begins. */
  ghost function Ticked(s: Sys, env: Env): Sys {
    s.(now := if s.cycles % 200 == 0 then env.checkClock % WORD else s.now, cycles := s.cycles + 1)
  }

  /** The state after x has been resumed. */
  ghost function Resumed(s: Sys, x: nat): Sys
    requires x in s.vms
  {
    s.(cur := x, vms := s.vms[x := s.vms[x].(waiting := NotWaiting, local := Advance(s.vms[x].local))])
  }

  lemma TickedIs(code: seq<Insn>, s: Sys, env: Env, ch: seq<nat>)
    requires Inv(code, s, ch)
    ensures Inv(code, Ticked(s, env), ch) && Ticked(s, env).vms == s.vms && Ticked(s, env).cur == s.cur
  {
    SameInv(code, s, Ticked(s, env), ch);
  }

  lemma CheckIs(s: Sys, env: Env)
    requires s.cur in s.vms
    ensures var s1 := Ticked(s, env);
      var x := Walk(s1.vms, s1.cur, s1.now, |s1.vms|);
      Check(s, env) == if x.None? then s1 else Resumed(s1, x.value)
  {
    hide Walk;
  }

  /** The unspecified memory the running machine finds. */
  ghost predicate JunkOk(fill: Fill, s: Sys, junk: nat -> Byte) {
    forall i: nat :: s.cur in s.vms ==> junk(i) == fill(s.vms[s.cur].local, i)
  }

  lemma NotEmpty(code: seq<Insn>, s: Sys, ch: seq<nat>)
    requires Inv(code, s, ch)
    ensures ch != []
  {
  }
}
