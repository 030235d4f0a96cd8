/** Instructions of the register machine, and what running a stretch of code does.

    Expression code only jumps forwards, so a run of it always ends.  A jump whose destination is not
    yet known is still an instruction in the code array; a run stops when it reaches one. */
module LuaCode {
  const NO_JUMP := -1
  const NO_REG := 255
  const MAXSTACK := 250
  const MAXINDEXRK := 255
  const BITRK := 256
  const MAXARG_BX := 262143
  const MAXARG_SBX := 131071

  datatype Result<+T> = Ok(value: T) | Err {
    predicate IsFailure() { Err? }
    function PropagateFailure<U>(): Result<U>
      requires Err?
    {
      Err
    }
    function Extract(): T
      requires Ok?
    {
      value
    }
  }

  datatype Value = Nil | Bool(b: bool) | Num(n: real) | Str(s: string) | Ref(id: int)

  predicate Truthy(v: Value)
  {
    v != Nil && v != Bool(false)
  }

  datatype ArithOp = Add | Sub | Mul | Div | Mod | Pow | Unm | Len

  datatype CmpOp = Eq | Lt | Le

  predicate IsUnary(op: ArithOp)
  {
    op.Unm? || op.Len?
  }

  datatype Instr =
    | Move(a: nat, b: nat)
    | LoadK(a: nat, bx: nat)
    | LoadBool(a: nat, v: bool, skip: bool)
    | LoadNil(a: nat, b: nat)
    | Arith(op: ArithOp, a: nat, b: nat, c: nat)
    | Not(a: nat, b: nat)
    | Jmp(sbx: int)
    | Compare(cmp: CmpOp, cond: bool, b: nat, c: nat)
    | Test(a: nat, when: bool)
    | TestSet(a: nat, b: nat, when: bool)
    | Other(opcode: nat)

  /** `testTMode`. */
  predicate IsTest(i: Instr)
  {
    i.Compare? || i.Test? || i.TestSet?
  }

  /** What the virtual machine does with values: arithmetic and comparison, metamethods included, are any
      functions of their operands.  On numbers, arithmetic is the operation that the compiler folds. */
  datatype Machine = Machine(arith: (ArithOp, Value, Value) -> Value,
                             compare: (CmpOp, Value, Value) -> bool,
                             fold: (ArithOp, real, real) -> real,
                             isNan: real -> bool,
                             k: seq<Value>)

  function Operate(m: Machine, op: ArithOp, x: Value, y: Value): Value
  {
    m.arith(op, x, if IsUnary(op) then Num(0.0) else y)
  }

  /** The numbers of the machine and of the compiler are the same, and negating one is never NaN. */
  ghost predicate Lawful(m: Machine)
  {
    (forall op, x, y :: op != Len ==>
       Operate(m, op, Num(x), Num(y)) == Num(m.fold(op, x, if IsUnary(op) then 0.0 else y))) &&
    (forall x :: !m.isNan(x) ==> !m.isNan(m.fold(Unm, x, 0.0)))
  }

  function Get(regs: seq<Value>, i: nat): Value
  {
    if i < |regs| then regs[i] else Nil
  }

  /** A write to a register that does not exist, `NO_REG` in particular, is lost. */
  function Set(regs: seq<Value>, i: nat, v: Value): seq<Value>
  {
    if i < |regs| then regs[i := v] else regs
  }

  function RK(m: Machine, regs: seq<Value>, x: nat): Value
  {
    if x < BITRK then Get(regs, x) else if x - BITRK < |m.k| then m.k[x - BITRK] else Nil
  }

  function SetNils(regs: seq<Value>, a: nat, b: nat): seq<Value>
  {
    seq(|regs|, i requires 0 <= i < |regs| => if a <= i <= b then Nil else regs[i])
  }

  /** An instruction that computes something and goes on with the next one. */
  predicate IsPlain(i: Instr)
  {
    i.Move? || i.LoadK? || (i.LoadBool? && !i.skip) || i.LoadNil? || i.Arith? || i.Not?
  }

  /** The value that an instruction with a result register computes. */
  function ResultOf(m: Machine, i: Instr, regs: seq<Value>): Value
    requires IsPlain(i) || i.LoadBool?
  {
    match i
    case Move(_, b) => Get(regs, b)
    case LoadK(_, bx) => if bx < |m.k| then m.k[bx] else Nil
    case LoadBool(_, v, _) => Bool(v)
    case LoadNil(_, _) => Nil
    case Arith(op, _, b, c) => Operate(m, op, if IsUnary(op) then Get(regs, b) else RK(m, regs, b), RK(m, regs, c))
    case Not(_, b) => Bool(!Truthy(Get(regs, b)))
  }

  function Effect(m: Machine, i: Instr, regs: seq<Value>): seq<Value>
    requires IsPlain(i) || i.LoadBool?
  {
    if i.LoadNil? then SetNils(regs, i.a, i.b) else Set(regs, i.a, ResultOf(m, i, regs))
  }

  /** Whether a test instruction goes on to the jump that follows it. */
  predicate Passes(m: Machine, i: Instr, regs: seq<Value>)
    requires IsTest(i)
  {
    match i
    case Compare(op, cond, b, c) => m.compare(op, RK(m, regs, b), RK(m, regs, c)) == cond
    case Test(a, when) => Truthy(Get(regs, a)) == when
    case TestSet(_, b, when) => Truthy(Get(regs, b)) == when
  }

  datatype Stop = Stop(pc: int, regs: seq<Value>)

  const STUCK := -1

  /** Run from `pc` until the end of the code or an open jump.  At an open jump controlled by `TESTSET`
      the run stops at the test, whose value has not been stored yet. */
  function Run(m: Machine, code: seq<Instr>, open: set<nat>, pc: nat, regs: seq<Value>): Stop
    decreases |code| - pc
  {
    if pc >= |code| || pc in open then Stop(pc, regs)
    else
      var i := code[pc];
      if IsPlain(i) then Run(m, code, open, pc + 1, Effect(m, i, regs))
      else
        match i
        case LoadBool(_, _, _) => Run(m, code, open, pc + 2, Effect(m, i, regs))
        case Jmp(sbx) => if sbx >= 0 then Run(m, code, open, pc + 1 + sbx, regs) else Stop(STUCK, regs)
        case Compare(_, _, _, _) => Run(m, code, open, if Passes(m, i, regs) then pc + 1 else pc + 2, regs)
        case Test(_, _) => Run(m, code, open, if Passes(m, i, regs) then pc + 1 else pc + 2, regs)
        case TestSet(a, b, _) =>
          if !Passes(m, i, regs) then Run(m, code, open, pc + 2, regs)
          else if pc + 1 in open then Stop(pc, regs)
          else Run(m, code, open, pc + 1, Set(regs, a, Get(regs, b)))
        case _ => Stop(STUCK, regs)
  }

  /** The same instruction, or a `TESTSET` of an open jump whose register has been settled. */
  predicate SameStep(i: Instr, i': Instr, open: bool)
  {
    i' == i || (open && i.TestSet? && (i' == Test(i.b, i.when) || (i'.TestSet? && i'.b == i.b && i'.when == i.when)))
  }

  /** Newer code that does what the older code does, up to where that one stops. */
  ghost predicate Continues(code: seq<Instr>, open: set<nat>, code': seq<Instr>, open': set<nat>, start: nat)
  {
    |code| <= |code'| &&
    (forall i :: start <= i < |code| && i !in open ==> SameStep(code[i], code'[i], i + 1 in open)) &&
    (forall i :: start <= i <= |code| && i in open' ==> i in open || i == |code|) &&
    (forall i :: start <= i < |code| && i + 1 == |code| && code[i].TestSet? ==> i + 1 !in open')
  }

  /** Running newer code is running the older code first and going on from where it stops. */
  lemma {:induction false} Continue(m: Machine, code: seq<Instr>, open: set<nat>, code': seq<Instr>, open': set<nat>,
                 start: nat, pc: nat, regs: seq<Value>)
    requires Continues(code, open, code', open', start) && start <= pc
    ensures var o := Run(m, code, open, pc, regs);
            if o.pc < 0 then Run(m, code', open', pc, regs) == o
            else Run(m, code', open', pc, regs) == Run(m, code', open', o.pc, o.regs)
    decreases |code| - pc
  {
    hide Effect, ResultOf, Set, Get;
    if pc >= |code| || pc in open {
    } else {
      var i := code[pc];
      assert SameStep(i, code'[pc], pc + 1 in open);
      assert pc !in open';
      if IsPlain(i) {
        Continue(m, code, open, code', open', start, pc + 1, Effect(m, i, regs));
      } else if i.LoadBool? {
        Continue(m, code, open, code', open', start, pc + 2, Effect(m, i, regs));
      } else if i.Jmp? {
        if i.sbx >= 0 { Continue(m, code, open, code', open', start, pc + 1 + i.sbx, regs); }
      } else if i.Compare? || i.Test? {
        Continue(m, code, open, code', open', start, if Passes(m, i, regs) then pc + 1 else pc + 2, regs);
      } else if i.TestSet? {
        if !Passes(m, i, regs) {
          Continue(m, code, open, code', open', start, pc + 2, regs);
        } else if pc + 1 !in open {
          Continue(m, code, open, code', open', start, pc + 1, Set(regs, i.a, Get(regs, i.b)));
        }
      }
    }
  }

  /** Number of registers never changes. */
  lemma {:induction false} RunLength(m: Machine, code: seq<Instr>, open: set<nat>, pc: nat, regs: seq<Value>)
    ensures |Run(m, code, open, pc, regs).regs| == |regs|
    decreases |code| - pc
  {
    if pc < |code| && pc !in open {
      var i := code[pc];
      if IsPlain(i) {
        RunLength(m, code, open, pc + 1, Effect(m, i, regs));
      } else if i.LoadBool? {
        RunLength(m, code, open, pc + 2, Effect(m, i, regs));
      } else if i.Jmp? {
        if i.sbx >= 0 { RunLength(m, code, open, pc + 1 + i.sbx, regs); }
      } else if i.Compare? || i.Test? {
        RunLength(m, code, open, if Passes(m, i, regs) then pc + 1 else pc + 2, regs);
      } else if i.TestSet? {
        RunLength(m, code, open, pc + 2, regs);
        RunLength(m, code, open, pc + 1, Set(regs, i.a, Get(regs, i.b)));
      }
    }
  }
}
