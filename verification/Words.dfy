/** The integer types of the language and the word arithmetic of the virtual machine.

    A value of a type is a mathematical integer in the type's range; the machine stores it as a bit
    pattern, a natural number below 256^size.  `Alu` is what the handlers compute on patterns,
    `SrcArith` what the language promises on values. */
module Words {
  import opened Options
  import opened Bytes

  datatype Ty = U8 | I8 | U16 | I16 | U32 | I32 | U64 | I64 | USize | SSize | UPtr | IPtr {

    function Size(): (n: nat)
      ensures IsWord(n)
    {
      match this
      case U8 | I8 => 1
      case U16 | I16 => 2
      case U32 | I32 => 4
      case _ => 8
    }

    predicate Signed() {
      I8? || I16? || I32? || I64? || SSize? || IPtr?
    }

    /** Unary minus moves an unsigned type to the next type code, its signed twin. */
    function Negated(): (t: Ty)
      ensures t.Size() == Size() && t.Signed()
    {
      match this
      case U8 => I8
      case U16 => I16
      case U32 => I32
      case U64 => I64
      case USize => SSize
      case UPtr => IPtr
      case _ => this
    }

    predicate Holds(v: int) {
      InRange(Signed(), Size(), v)
    }

    function Max(): int {
      if Signed() then Pow256(Size()) / 2 - 1 else Pow256(Size()) - 1
    }

    /** The bit pattern that represents a value. */
    function Pat(v: int): (p: nat)
      ensures p < Pow256(Size())
    {
      FromInt(Size(), v)
    }
  }

  /** powerof2(n) && n <= 8 */
  predicate IsWord(n: nat) {
    n == 1 || n == 2 || n == 4 || n == 8
  }

  predicate InRange(signd: bool, n: nat, v: int) {
    if signd then 0 <= 2 * v + Pow256(n) < 2 * Pow256(n) else 0 <= v < Pow256(n)
  }

  function ToInt(signd: bool, n: nat, p: nat): int {
    if signd && 2 * p >= Pow256(n) then p - Pow256(n) else p
  }

  function FromInt(n: nat, v: int): (p: nat)
    ensures p < Pow256(n)
  {
    v % Pow256(n)
  }

  lemma MulMonoInt(p: nat, a: int, b: int)
    requires a <= b
    ensures p * a <= p * b
  {
  }

  lemma ModUniqueInt(v: int, p: nat, q: int, r: nat)
    requires p > 0 && v == p * q + r && r < p
    ensures v % p == r
  {
    var q', r' := v / p, v % p;
    assert v == p * q' + r';
    if q > q' {
      MulMonoInt(p, q' + 1, q);
    } else if q < q' {
      MulMonoInt(p, q + 1, q');
    }
  }

  lemma ModShift(v: int, p: nat)
    requires p > 0 && 0 <= v + p < 2 * p
    ensures v % p == if v < 0 then v + p else v
  {
    if v < 0 {
      ModUniqueInt(v, p, -1, v + p);
    } else {
      ModUniqueInt(v, p, 0, v);
    }
  }

  lemma RoundTrip(signd: bool, n: nat, v: int)
    requires InRange(signd, n, v)
    ensures ToInt(signd, n, FromInt(n, v)) == v
  {
    ModShift(v, Pow256(n));
  }

  lemma ToIntInRange(signd: bool, n: nat, p: nat)
    requires p < Pow256(n)
    ensures InRange(signd, n, ToInt(signd, n, p))
    ensures FromInt(n, ToInt(signd, n, p)) == p
  {
    ModShift(ToInt(signd, n, p), Pow256(n));
  }

  /** Patterns of one type are equal exactly when the values are: what memcmp in EQU and NEQ relies on. */
  lemma PatInjective(signd: bool, n: nat, v: int, w: int)
    requires InRange(signd, n, v) && InRange(signd, n, w)
    ensures FromInt(n, v) == FromInt(n, w) <==> v == w
  {
    RoundTrip(signd, n, v);
    RoundTrip(signd, n, w);
  }

  lemma PatZero(signd: bool, n: nat, v: int)
    requires InRange(signd, n, v)
    ensures FromInt(n, v) == 0 <==> v == 0
  {
    PatInjective(signd, n, v, 0);
  }

  datatype ArithOp = Add | Sub | Mul | Div | Mod | Lsh | Rsh | BAnd | BXor | BOr {
    /** The operators the type checker restricts to unsigned operands. */
    predicate UnsignedOnly() {
      Lsh? || Rsh? || BAnd? || BXor? || BOr?
    }
  }

  datatype CmpOp = Equ | Neq | Lt | Gt | Lte | Gte

  /** C division truncates toward zero. */
  function TruncDiv(x: int, y: int): int
    requires y != 0
  {
    if x >= 0 && y > 0 then x / y
    else if x >= 0 then -(x / -y)
    else if y > 0 then -(-x / y)
    else -x / -y
  }

  function TruncMod(x: int, y: int): int
    requires y != 0
  {
    x - y * TruncDiv(x, y)
  }

  function Pow2(n: nat): (p: nat)
    ensures p >= 1
  {
    if n == 0 then 1 else 2 * Pow2(n - 1)
  }

  function BitAnd(a: nat, b: nat): nat {
    if a == 0 then 0 else (a % 2) * (b % 2) + 2 * BitAnd(a / 2, b / 2)
  }

  function BitXor(a: nat, b: nat): nat
    decreases a + b
  {
    if a == 0 && b == 0 then 0 else (a + b) % 2 + 2 * BitXor(a / 2, b / 2)
  }

  function BitOr(a: nat, b: nat): nat {
    BitXor(a, b) + BitAnd(a, b)
  }

  /** C's arithmetic on words below four bytes is done in int, on others in their own type; a signed result that
      does not fit is undefined. */
  predicate Overflows(signd: bool, n: nat, v: int) {
    if n < 4 then !InRange(true, 4, v) else signd && !InRange(true, n, v)
  }

  function Stored(signd: bool, n: nat, v: int): (r: Option<nat>)
    ensures r.Some? ==> r.value < Pow256(n)
  {
    if Overflows(signd, n, v) then None else Some(FromInt(n, v))
  }

  /** ARITH_OP on two patterns of width n.  None is a trap or an operation C leaves undefined: signed overflow, in
      the promoted type too, division by zero, a shift by the promoted width or more or of a negative word. */
  function Alu(op: ArithOp, signd: bool, n: nat, a: nat, b: nat): (r: Option<nat>)
    ensures r.Some? ==> r.value < Pow256(n)
  {
    var x, y := ToInt(signd, n, a), ToInt(signd, n, b);
    match op
    case Add => Stored(signd, n, x + y)
    case Sub => Stored(signd, n, x - y)
    case Mul => Stored(signd, n, x * y)
    case Div =>
      if y == 0 || (n >= 4 && !InRange(signd, n, TruncDiv(x, y))) then None
      else Some(FromInt(n, TruncDiv(x, y)))
    case Mod =>
      if y == 0 || (n >= 4 && !InRange(signd, n, TruncDiv(x, y))) then None
      else Some(FromInt(n, TruncMod(x, y)))
    case Lsh =>
      if x < 0 || y < 0 || y >= Promoted(n) then None else Stored(signd, n, x * Pow2(y))
    case Rsh =>
      if y < 0 || y >= Promoted(n) then None else Some(FromInt(n, x / Pow2(y)))
    case BAnd => Some(FromInt(n, BitAnd(a, b)))
    case BXor => Some(FromInt(n, BitXor(a, b)))
    case BOr => Some(FromInt(n, BitOr(a, b)))
  }

  function Promoted(n: nat): nat {
    if n <= 4 then 32 else 64
  }

  function AluCmp(op: CmpOp, signd: bool, n: nat, a: nat, b: nat): nat {
    var x, y := ToInt(signd, n, a), ToInt(signd, n, b);
    var holds := match op
      case Equ => a == b
      case Neq => a != b
      case Lt => x < y
      case Gt => x > y
      case Lte => x <= y
      case Gte => x >= y;
    if holds then 1 else 0
  }

  /** A result stored back into a type: unsigned types wrap, signed overflow is undefined. */
  function Fit(ty: Ty, v: int): (r: Option<int>)
    ensures r.Some? ==> ty.Holds(r.value)
  {
    if !ty.Signed() then Some(v % Pow256(ty.Size()))
    else if ty.Holds(v) then Some(v)
    else None
  }

  /** The language's binary operators on values of a type; None is undefined behaviour. */
  function SrcArith(op: ArithOp, ty: Ty, x: int, y: int): (r: Option<int>)
    requires ty.Holds(x) && ty.Holds(y)
    requires op.UnsignedOnly() ==> !ty.Signed()
    ensures r.Some? ==> ty.Holds(r.value)
  {
    match op
    case Add => Fit(ty, x + y)
    case Sub => Fit(ty, x - y)
    case Mul => if Overflows(ty.Signed(), ty.Size(), x * y) then None else Fit(ty, x * y)
    case Div => if y == 0 then None else Fit(ty, TruncDiv(x, y))
    case Mod => if y == 0 || !ty.Holds(TruncDiv(x, y)) then None else Fit(ty, TruncMod(x, y))
    case Lsh => if y >= 8 * ty.Size() then None else Fit(ty, x * Pow2(y))
    case Rsh => if y >= 8 * ty.Size() then None else Fit(ty, x / Pow2(y))
    case BAnd => Fit(ty, BitAnd(x, y))
    case BXor => Fit(ty, BitXor(x, y))
    case BOr => Fit(ty, BitOr(x, y))
  }

  function SrcCmp(op: CmpOp, x: int, y: int): int {
    var holds := match op
      case Equ => x == y
      case Neq => x != y
      case Lt => x < y
      case Gt => x > y
      case Lte => x <= y
      case Gte => x >= y;
    if holds then 1 else 0
  }

  lemma FitPat(ty: Ty, v: int)
    ensures Fit(ty, v).Some? ==> ty.Pat(Fit(ty, v).value) == FromInt(ty.Size(), v)
  {
    if !ty.Signed() {
      ModShift(v % Pow256(ty.Size()), Pow256(ty.Size()));
    }
  }

  lemma UnsignedPat(ty: Ty, v: int)
    requires ty.Holds(v) && !ty.Signed()
    ensures ty.Pat(v) == v
  {
    ModShift(v, Pow256(ty.Size()));
  }

  lemma DivShrinks(x: nat, y: nat)
    requires y > 0
    ensures x / y <= x
  {
    var q := x / y;
    assert x == y * q + x % y;
    assert y * q == q * y;
    if q > x {
      MulMono(q, 1, y);
    }
  }

  lemma TruncDivInRange(ty: Ty, x: int, y: int)
    requires ty.Holds(x) && ty.Holds(y) && y != 0 && !ty.Signed()
    ensures ty.Holds(TruncDiv(x, y))
  {
    DivShrinks(x, y);
  }

  /** The handlers compute the language's operators: whenever the language defines the result,
      the machine produces its pattern from the operands' patterns. */
  lemma AluIsSrcArith(op: ArithOp, ty: Ty, x: int, y: int)
    requires ty.Holds(x) && ty.Holds(y)
    requires op.UnsignedOnly() ==> !ty.Signed()
    requires SrcArith(op, ty, x, y).Some?
    ensures Alu(op, ty.Signed(), ty.Size(), ty.Pat(x), ty.Pat(y)) == Some(ty.Pat(SrcArith(op, ty, x, y).value))
  {
    RoundTrip(ty.Signed(), ty.Size(), x);
    RoundTrip(ty.Signed(), ty.Size(), y);
    hide ToInt, Alu, SrcArith, InRange;
    if op.Div? || op.Mod? {
      AluDivides(op, ty, x, y);
    } else if op.UnsignedOnly() {
      AluBits(op, ty, x, y);
    } else {
      AluAdds(op, ty, x, y, if op.Add? then x + y else if op.Sub? then x - y else x * y);
    }
  }

  lemma AluAdds(op: ArithOp, ty: Ty, x: int, y: int, r: int)
    requires ty.Holds(x) && ty.Holds(y) && (op.Add? || op.Sub? || op.Mul?)
    requires r == if op.Add? then x + y else if op.Sub? then x - y else x * y
    requires ToInt(ty.Signed(), ty.Size(), ty.Pat(x)) == x && ToInt(ty.Signed(), ty.Size(), ty.Pat(y)) == y
    requires SrcArith(op, ty, x, y).Some?
    ensures Alu(op, ty.Signed(), ty.Size(), ty.Pat(x), ty.Pat(y)) == Some(ty.Pat(SrcArith(op, ty, x, y).value))
  {
    hide ToInt;
    FitPat(ty, r);
  }

  lemma AluDivides(op: ArithOp, ty: Ty, x: int, y: int)
    requires ty.Holds(x) && ty.Holds(y) && (op.Div? || op.Mod?)
    requires ToInt(ty.Signed(), ty.Size(), ty.Pat(x)) == x && ToInt(ty.Signed(), ty.Size(), ty.Pat(y)) == y
    requires SrcArith(op, ty, x, y).Some?
    ensures Alu(op, ty.Signed(), ty.Size(), ty.Pat(x), ty.Pat(y)) == Some(ty.Pat(SrcArith(op, ty, x, y).value))
  {
    if op.Div? {
      FitPat(ty, TruncDiv(x, y));
      if !ty.Signed() {
        TruncDivInRange(ty, x, y);
      }
    } else {
      FitPat(ty, TruncMod(x, y));
    }
  }

  lemma {:induction false} Pow2Mono(a: nat, b: nat)
    requires a <= b
    ensures Pow2(a) <= Pow2(b)
  {
    if a < b {
      Pow2Mono(a, b - 1);
    }
  }

  lemma {:induction false} Pow2Doubles(n: nat)
    ensures Pow2(8 * n) == Pow256(n)
  {
    if n > 0 {
      Pow2Doubles(n - 1);
      var m := 8 * (n - 1);
      assert Pow2(m + 2) == 4 * Pow2(m) && Pow2(m + 4) == 4 * Pow2(m + 2);
      assert Pow2(m + 6) == 4 * Pow2(m + 4) && Pow2(m + 8) == 4 * Pow2(m + 6);
    }
  }

  /** A shift by less than the width of a one- or two-byte word fits the promoted type. */
  lemma ShiftFits(n: nat, x: int, y: int)
    requires IsWord(n) && 0 <= x < Pow256(n) && 0 <= y < 8 * n
    ensures !Overflows(false, n, x * Pow2(y))
  {
    if n < 4 {
      Pow2Mono(y, 15);
      Pow2Doubles(2);
      assert Pow2(16) == 2 * Pow2(15);
      SmallPowers();
      ProductBound(x, Pow2(y));
    }
  }

  lemma ProductBound(x: nat, p: nat)
    requires x <= 65535 && p <= 32768
    ensures 0 <= x * p <= 65535 * 32768
  {
    MulMonoInt(p, x, 65535);
  }

  lemma SmallPowers()
    ensures Pow256(1) == 0x100 && Pow256(2) == 0x10000 && Pow256(4) == 0x1_0000_0000
  {
    assert Pow256(2) == 256 * Pow256(1);
    assert Pow256(4) == 256 * (256 * Pow256(2));
  }

  lemma AluBits(op: ArithOp, ty: Ty, x: int, y: int)
    requires ty.Holds(x) && ty.Holds(y) && op.UnsignedOnly() && !ty.Signed()
    requires ToInt(ty.Signed(), ty.Size(), ty.Pat(x)) == x && ToInt(ty.Signed(), ty.Size(), ty.Pat(y)) == y
    requires SrcArith(op, ty, x, y).Some?
    ensures Alu(op, ty.Signed(), ty.Size(), ty.Pat(x), ty.Pat(y)) == Some(ty.Pat(SrcArith(op, ty, x, y).value))
  {
    UnsignedPat(ty, x);
    UnsignedPat(ty, y);
    match op
    case Lsh =>
      FitPat(ty, x * Pow2(y));
      ShiftFits(ty.Size(), x, y);
    case Rsh => FitPat(ty, x / Pow2(y));
    case BAnd => FitPat(ty, BitAnd(x, y));
    case BXor => FitPat(ty, BitXor(x, y));
    case BOr => FitPat(ty, BitOr(x, y));
  }

  lemma AluIsSrcCmp(op: CmpOp, signd: bool, n: nat, x: int, y: int)
    requires InRange(signd, n, x) && InRange(signd, n, y)
    ensures AluCmp(op, signd, n, FromInt(n, x), FromInt(n, y)) == SrcCmp(op, x, y)
  {
    RoundTrip(signd, n, x);
    RoundTrip(signd, n, y);
    PatInjective(signd, n, x, y);
  }

  /** CAST zero-fills the destination and copies the low bytes. */
  function CastPat(from: nat, to: nat, p: nat): (r: nat)
    requires p < Pow256(from)
    ensures r < Pow256(to)
  {
    if from < to then
      Pow256Mono(from, to);
      p
    else
      p % Pow256(to)
  }

  lemma {:induction false} Pow256Mono(a: nat, b: nat)
    requires a <= b
    ensures Pow256(a) <= Pow256(b)
  {
    if a < b { Pow256Mono(a, b - 1); }
  }

  function SrcCast(from: Ty, to: Ty, v: int): (r: int)
    requires from.Holds(v)
    ensures to.Holds(r)
    ensures to.Pat(r) == CastPat(from.Size(), to.Size(), from.Pat(v))
  {
    ToIntInRange(to.Signed(), to.Size(), CastPat(from.Size(), to.Size(), from.Pat(v)));
    ToInt(to.Signed(), to.Size(), CastPat(from.Size(), to.Size(), from.Pat(v)))
  }

  /** C's conversion: the value of the target type congruent to v modulo 2^width. */
  function CConvert(to: Ty, v: int): int {
    ToInt(to.Signed(), to.Size(), FromInt(to.Size(), v))
  }

  lemma ToIntInjective(signd: bool, n: nat, p: nat, q: nat)
    requires p < Pow256(n) && q < Pow256(n)
    ensures ToInt(signd, n, p) == ToInt(signd, n, q) <==> p == q
  {
    ToIntInRange(signd, n, p);
    ToIntInRange(signd, n, q);
  }

  lemma CastPatIsModulo(from: Ty, to: Ty, v: int)
    requires from.Holds(v)
    ensures CastPat(from.Size(), to.Size(), from.Pat(v)) == FromInt(to.Size(), v)
            <==> !(v < 0 && from.Size() < to.Size())
  {
    var n, m := from.Size(), to.Size();
    if n < m {
      Pow256Strict(n, m);
      ModShift(v, Pow256(n));
      ModShift(v, Pow256(m));
    } else {
      Pow256Split(m, n - m);
      ModMod(v, Pow256(m), Pow256(n - m));
    }
  }

  /** A cast is C's conversion exactly when it does not widen a negative value. */
  lemma CastIsCConversion(from: Ty, to: Ty, v: int)
    requires from.Holds(v)
    ensures SrcCast(from, to, v) == CConvert(to, v) <==> !(v < 0 && from.Size() < to.Size())
  {
    CastPatIsModulo(from, to, v);
    ToIntInjective(to.Signed(), to.Size(), CastPat(from.Size(), to.Size(), from.Pat(v)), FromInt(to.Size(), v));
  }

  lemma {:induction false} Pow256Strict(a: nat, b: nat)
    requires a < b
    ensures Pow256(a) < Pow256(b)
  {
    Pow256Mono(a, b - 1);
  }

  /** Reducing modulo a multiple first changes nothing. */
  lemma ModMod(v: int, p: nat, k: nat)
    requires p > 0 && k > 0 && p * k > 0
    ensures (v % (p * k)) % p == v % p
  {
    var q, r := v / (p * k), v % (p * k);
    var q', r' := r / p, r % p;
    assert v == (p * k) * q + r;
    assert (p * k) * q == p * (k * q);
    assert v == p * (k * q + q') + r' by { assert p * (k * q + q') == p * (k * q) + p * q'; }
    ModUniqueInt(v, p, k * q + q', r');
  }

  /** Signed widening is where the machine and C part: (-1 as byte) cast to a 16-bit signed type gives 255. */
  lemma SignedWideningLosesTheSign()
    ensures SrcCast(I8, I16, -1) == 255 && CConvert(I16, -1) == -1
  {
    assert Pow256(1) == 256;
    assert Pow256(2) == 65536;
  }
}
