/** codegen_obj_create: layouts, one stub per built-in, every function in order, and the linking pass. */
module Compiler {
  import opened Bytes
  import opened Words
  import opened Ast
  import opened Layout
  import opened Insn
  import opened Machine
  import opened Codegen
  import opened Window
  import opened Source
  import opened SimBase
  import opened SimCalls
  import opened SimStmts
  import opened Emission
  import opened CodeGenerator
  import opened Linking
  import Preservation
  import Quaint

  /** SCOPE_BFUN_ID_COUNT */
  const STUBS: nat := 17

  /** Every function of p is placed at its location, all references resolved. */
  ghost predicate Linked(p: Program, code: seq<Insn>, locs: seq<nat>)
    requires ProgramOk(p)
  {
    && |locs| == |p|
    && forall i :: 0 <= i < |p| ==> DeclsOk(p[i]) && PlacedF(code, CtxOf(p, p[i], LinkedFns(locs)), locs[i])
  }

  /** The bytes INCSP adds for each function. */
  function Locals(p: Program): seq<nat>
    requires ProgramOk(p)
  {
    seq(|p|, i requires 0 <= i < |p| => LocalsOf(p, i))
  }

  function LocalsOf(p: Program, i: nat): nat
    requires ProgramOk(p) && i < |p|
  {
    FrameLayGood(p[i]);
    FrameLay(p[i]).frame - ArgsSize(p[i])
  }

  /** What the compiler produces is an image to which all results about compiled programs apply. */
  lemma LinkedIsCompiled(p: Program, code: seq<Insn>, locs: seq<nat>, cap: nat, fill: Fill)
    requires ProgramOk(p) && Linked(p, code, locs)
    requires |code| < Pow256(8) && cap < Pow256(8) && cap % 8 == 0
    ensures Compiled(Image(code, World(p, Locals(p), cap, false), locs, fill))
  {
    var m := Image(code, World(p, Locals(p), cap, false), locs, fill);
    hide PlacedF, DeclsOk, FrameLay, ArgsSize, StmtsOk, PlacedAll, FuncPlaced;
    forall i | 0 <= i < |p| ensures FuncPlaced(m, i) {
      FuncIsPlaced(p, code, locs, cap, fill, i);
    }
  }

  /** The machine exec allocates: at the first instruction after the stubs, the frame of the first function empty,
      the end of the code as its return address. */
  function FirstMachine(cap: nat, count: nat): Local
    requires cap >= 16
  {
    Local(STUBS, 16, 16, Write(Quaint.Zeros(cap), 0, 8, count), [], false, Flag(false, 0), Label(0, 0))
  }

  /** exec starts a compiled program at its first function, in a state to which all results about calls apply. */
  lemma ExecStarts(p: Program, code: seq<Insn>, locs: seq<nat>, cap: nat, fill: Fill)
    requires ProgramOk(p) && Linked(p, code, locs) && p != [] && locs[0] == STUBS && p[0].params == 0
    requires |code| < Pow256(8) && 16 <= cap < Pow256(8) && cap % 8 == 0
    ensures Preservation.Started(Image(code, World(p, Locals(p), cap, false), locs, fill), 0, FirstMachine(cap, |code|), [])
  {
    hide Linked, Compiled, ProgramOk, Locals, Pow256, Write;
    LinkedIsCompiled(p, code, locs, cap, fill);
    NothingPushed(FirstMachine(cap, |code|).stack, 16, p[0]);
  }

  lemma NothingPushed(stack: Mem, base: nat, g: Func)
    ensures Pushed(stack, base, [], g, 0)
  {
  }

  /** What the source promises for the program: its first function called without arguments. */
  ghost function MainMeans(p: Program, cap: nat, fuel: nat): Outcome<Ret>
    requires ProgramOk(p) && p != []
  {
    EvalBody(World(p, Locals(p), cap, false), 0, [], Flag(false, 0), Label(0, 0), 16, fuel)
  }

  lemma MainIs(p: Program, code: seq<Insn>, locs: seq<nat>, cap: nat, fill: Fill)
    requires ProgramOk(p) && p != [] && cap >= 16
    ensures var m, l := Image(code, World(p, Locals(p), cap, false), locs, fill), FirstMachine(cap, |code|);
      && |m.w.locals| == |p|
      && (forall fuel: nat :: Preservation.Means(m, 0, l, [], fuel) == MainMeans(p, cap, fuel))
      && (Preservation.Defined(m, 0, l, []) <==> forall fuel: nat :: !MainMeans(p, cap, fuel).Undef?)
  {
    hide EvalBody, ProgramOk, LocalsOf, Write;
    var m, l := Image(code, World(p, Locals(p), cap, false), locs, fill), FirstMachine(cap, |code|);
    forall fuel: nat ensures Preservation.Means(m, 0, l, [], fuel) == MainMeans(p, cap, fuel) {
    }
  }

  /** A compiled program, from the state exec starts it in: it finishes with a value exactly when its first function
      returns that value. */
  lemma ProgramMeansMain(p: Program, code: seq<Insn>, locs: seq<nat>, cap: nat, fill: Fill, ret: Ret)
    requires ProgramOk(p) && Linked(p, code, locs) && p != [] && locs[0] == STUBS && p[0].params == 0
    requires |code| < Pow256(8) && 16 <= cap < Pow256(8) && cap % 8 == 0
    requires forall fuel: nat :: !MainMeans(p, cap, fuel).Undef?
    ensures (exists fuel: nat :: MainMeans(p, cap, fuel) == Ok(ret))
            <==> (exists k: nat :: Preservation.Delivered(Image(code, World(p, Locals(p), cap, false), locs, fill), 0,
                                                          Run(code, FirstMachine(cap, |code|), k, fill), ret))
  {
    hide *;
    ExecStarts(p, code, locs, cap, fill);
    var m, l := Image(code, World(p, Locals(p), cap, false), locs, fill), FirstMachine(cap, |code|);
    Preservation.StartedParts(m, 0, l, []);
    MainIs(p, code, locs, cap, fill);
    Preservation.ReturnsExactly(m, 0, l, [], ret);
  }

  lemma FuncIsPlaced(p: Program, code: seq<Insn>, locs: seq<nat>, cap: nat, fill: Fill, i: nat)
    requires ProgramOk(p) && Linked(p, code, locs) && i < |p|
    requires |code| < Pow256(8) && cap < Pow256(8) && cap % 8 == 0
    ensures FuncPlaced(Image(code, World(p, Locals(p), cap, false), locs, fill), i)
  {
    hide PlacedF, DeclsOk, FrameLay, ArgsSize, StmtsOk, PlacedAll;
    assert FuncOk(p, p[i]);
    InsideCode(code, CtxOf(p, p[i], LinkedFns(locs)), locs[i]);
  }

  lemma InsideCode(code: seq<Insn>, c: Ctx, p: nat)
    requires DeclsOk(c.f) && PlacedF(code, c, p)
    ensures p < |code|
  {
    hide PlacedAll, ArgsSize, DeclsOk;
  }

  lemma ContextOk(p: Program, i: nat, locs: seq<nat>)
    requires ProgramOk(p) && i < |p| && |locs| == |p|
    ensures DeclsOk(p[i])
    ensures var c := CtxOf(p, p[i], Refs(|p|));
      && Unlinked(c, locs) && CheckedAll(c, c.f.body) && ArgsSize(c.f) <= c.frame
      && Resolved(c, locs) == CtxOf(p, p[i], LinkedFns(locs)) && StmtsOk(p, p[i], p[i].body)
  {
    assert FuncOk(p, p[i]);
    FrameLayGood(p[i]);
  }

  lemma StillPlaced(a: seq<Insn>, b: seq<Insn>, c: Ctx, p: nat)
    requires DeclsOk(c.f) && PlacedF(a, c, p) && a <= b && p + LenF(c.f) <= |a|
    ensures PlacedF(b, c, p)
  {
    hide PlacedF, DeclsOk;
    PlacedFLocal(a, b, c, p);
  }

  /** Function i stands at p, its calls still by reference. */
  ghost predicate Generated(p: Program, i: nat, code: seq<Insn>, at: nat)
    requires i < |p|
  {
    FuncOk(p, p[i]) && at + LenF(p[i]) <= |code| && PlacedF(code, CtxOf(p, p[i], Refs(|p|)), at)
  }

  /** Compiling a checked program. */
  method Compile(p: Program) returns (code: seq<Insn>, locs: seq<nat>)
    requires ProgramOk(p)
    ensures Linked(p, code, locs) && (p != [] ==> locs[0] == STUBS)
  {
    hide DeclsOk, PlacedF, StmtsOk, CheckedAll, FrameLay, ArgsSize;
    var gen := new Generator();
    var n := 0;
    while n < STUBS
      invariant n <= STUBS && |gen.insns| == n && gen.Valid() && gen.tempOff == 0 && fresh(gen)
    {
      gen.Emit(BFun);
      n := n + 1;
    }

    var lays: seq<Lay> := [];
    while |lays| < |p|
      invariant |lays| <= |p| && |gen.insns| == STUBS && gen.Valid() && gen.tempOff == 0
      invariant forall i :: 0 <= i < |lays| ==> FuncOk(p, p[i]) && lays[i] == FrameLay(p[i])
    {
      assert FuncOk(p, p[|lays|]);
      var tag := new FuncTag();
      tag.LayOut(p[|lays|]);
      lays := lays + [Lay(tag.frameSize, tag.layout)];
    }

    locs := [];
    while |locs| < |p|
      invariant |locs| <= |p| && gen.Valid() && gen.tempOff == 0
      invariant if locs == [] then |gen.insns| == STUBS else locs[0] == STUBS
      invariant forall i :: 0 <= i < |locs| ==> Generated(p, i, gen.insns, locs[i])
    {
      var i := |locs|;
      assert FuncOk(p, p[i]);
      ContextOk(p, i, seq(|p|, k => 0));
      ghost var before := gen.insns;
      locs := locs + [|gen.insns|];
      gen.GenFunc(Ctx(p, p[i], lays[i].slots, lays[i].frame, Refs(|p|)));
      forall j | 0 <= j < i ensures Generated(p, j, gen.insns, locs[j]) {
        StillPlaced(before, gen.insns, CtxOf(p, p[j], Refs(|p|)), locs[j]);
      }
    }

    ghost var unlinked := gen.insns;
    var k := 0;
    while k < |gen.insns|
      invariant 0 <= k <= |gen.insns| == |unlinked|
      invariant forall i :: 0 <= i < k ==> gen.insns[i] == LinkInsn(unlinked[i], locs)
      invariant forall i :: k <= i < |unlinked| ==> gen.insns[i] == unlinked[i]
    {
      gen.Patch(k, LinkInsn(gen.insns[k], locs));
      k := k + 1;
    }
    code := gen.insns;
    assert code == LinkCode(unlinked, locs);
    forall i | 0 <= i < |p| ensures DeclsOk(p[i]) && PlacedF(code, CtxOf(p, p[i], LinkedFns(locs)), locs[i]) {
      ContextOk(p, i, locs);
      LinkFunction(unlinked, CtxOf(p, p[i], Refs(|p|)), locs, locs[i]);
    }
  }
}
