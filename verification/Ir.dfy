/**
 The part of the compiler's intermediate representation that representation
 inference and direct-call rewriting look at: basic blocks of instructions in
 A-normal form, phis at join points and positional recur edges.
 */
module Ir {

  import opened Common

  type Var = nat
  type BlockId = nat

  /** How compiled code holds a variable; `Boxed` is the universal form. */
  datatype Repr = Boxed | Long | Double | Bool | LongArray | DoubleArray

  datatype KnownFn =
    | Add | Sub | Mul
    | UncheckedAdd | UncheckedSub | UncheckedMul
    | Div
    | Lt | Gt | Lte | Gte
    | Eq | CaseEq
    | Aget | Alength
    | OtherFn(fnId: nat)

  datatype Const =
    | ConstNil
    | ConstBool(b: bool)
    | ConstLong(n: I64)
    | ConstDouble(d: real)
    | ConstOther(text: string)

  /** The static part of an `fn*` form: one compiled name, parameter count and
      variadic flag for each arity. */
  datatype ClosureTemplate =
    ClosureTemplate(arityFnNames: seq<string>, paramCounts: seq<nat>, isVariadic: seq<bool>)

  datatype Inst =
    | Const(dst: Var, c: Const)
    | LoadGlobal(dst: Var, ns: string, name: string)
    | AllocClosure(dst: Var, template: ClosureTemplate, captures: seq<Var>)
    | CallKnown(dst: Var, fn: KnownFn, args: seq<Var>)
    | Call(dst: Var, callee: Var, args: seq<Var>)
    | CallDirect(dst: Var, fnName: string, args: seq<Var>)
    | DefVar(dst: Var, ns: string, name: string, val: Var)
    | Phi(dst: Var, entries: seq<(BlockId, Var)>)
    | Other(op: nat, uses: seq<Var>, out: Option<Var>)
  {
    /** The variable an instruction defines, if it defines one. */
    function Dst(): Option<Var> {
      if Other? then out else Some(dst)
    }
  }

  datatype Terminator =
    | Jump(target: BlockId)
    | Branch(cond: Var, thenBlock: BlockId, elseBlock: BlockId)
    | Return(result: Var)
    | RecurJump(target: BlockId, recurArgs: seq<Var>)
    | Unreachable

  datatype Block = Block(id: BlockId, phis: seq<Inst>, insts: seq<Inst>, term: Terminator)

  datatype IrFunction = IrFunction(
    name: string,
    params: seq<Var>,
    blocks: seq<Block>,
    subfunctions: seq<IrFunction>,
    localSeeds: seq<(Var, Repr)>)

  /** Index of the first block carrying `id`, as every lookup by id finds it. */
  function FindBlock(blocks: seq<Block>, id: BlockId): (r: Option<nat>)
    ensures r.Some? ==> r.value < |blocks| && blocks[r.value].id == id
    ensures r.Some? ==> forall i :: 0 <= i < r.value ==> blocks[i].id != id
    ensures r.None? ==> forall i :: 0 <= i < |blocks| ==> blocks[i].id != id
  {
    if blocks == [] then None
    else if blocks[0].id == id then Some(0)
    else match FindBlock(blocks[1..], id)
      case None => None
      case Some(k) => Some(k + 1)
  }

  /** Run-time values, as far as representations and closures distinguish them. */
  datatype Value =
    | Nil
    | BoolV(b: bool)
    | LongV(n: I64)
    | DoubleV(d: real)
    | LongArrayV(ref: nat)
    | DoubleArrayV(ref: nat)
    | ClosureV(template: ClosureTemplate, captured: seq<Value>)
    | ListV(items: seq<Value>)
    | OtherV(id: nat)

  predicate Truthy(v: Value) {
    v != Nil && v != BoolV(false)
  }
}
