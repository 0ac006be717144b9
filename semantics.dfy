/** The machine as a value, and the effect of each operation on it. The
    class Interpreter.Wam is proved to behave exactly as these functions say. */
module Semantics {
  import opened WamTypes
  import opened FreshNames

  /** Everything the machine holds. The current environment frame is the last
      element of environments; the ones before it are its callers' frames. */
  datatype Machine = Machine(
    heap: seq<Term>,
    registers: seq<Term>,
    environments: seq<Environment>,
    program: seq<Instruction>,
    pc: nat,
    symbols: map<string, nat>)

  /** The machine after an operation, and what the operation returned. */
  datatype Effect<T> = Effect(machine: Machine, result: Result<T>)

  /** The machine a run ends in, and what each step returned, in order. */
  datatype Trace = Trace(machine: Machine, outcomes: seq<Result<bool>>)

  /** A newly created machine: empty heap, every register holding the
      constant "undefined", no frame, no program, no procedures. */
  function Initial(): Machine {
    Machine([], seq(NumRegisters, _ => Constant("undefined")), [], [], 0, map[])
  }

  /** Loading replaces the program and restarts it; nothing else is reset. */
  function Load(m: Machine, instructions: seq<Instruction>): Machine {
    m.(program := instructions, pc := 0)
  }

  predicate HasFrame(m: Machine) {
    |m.environments| > 0
  }

  function CurrentFrame(m: Machine): Environment
    requires HasFrame(m)
  {
    m.environments[|m.environments| - 1]
  }

  /** The frames below the current one. */
  function Callers(m: Machine): seq<Environment>
    requires HasFrame(m)
  {
    m.environments[..|m.environments| - 1]
  }

  /** Reads a register, checking it exists. */
  function Get(m: Machine, reg: Register): Result<Term> {
    match reg
    case Permanent(n) =>
      if !HasFrame(m) then Err(StackUnderflow)
      else if n < |CurrentFrame(m).permanentVariables| then Ok(CurrentFrame(m).permanentVariables[n])
      else Err(StackOverflow)
    case Temporary(n) =>
      if n < |m.registers| then Ok(m.registers[n]) else Err(StackOverflow)
  }

  /** Writes a register, with the same checks as Get. Writing a permanent
      register takes the whole chain of frames out of the machine first and
      puts it back only when the slot exists, so an out-of-range slot leaves
      the machine with no frame at all. */
  function Set(m: Machine, reg: Register, value: Term): Effect<()> {
    match reg
    case Permanent(n) =>
      if !HasFrame(m) then Effect(m, Err(StackUnderflow))
      else
        var env := CurrentFrame(m);
        if n < |env.permanentVariables| then
          var env' := env.(permanentVariables := env.permanentVariables[n := value]);
          Effect(m.(environments := Callers(m) + [env']), Ok(()))
        else
          Effect(m.(environments := []), Err(StackOverflow))
    case Temporary(n) =>
      if n < |m.registers| then Effect(m.(registers := m.registers[n := value]), Ok(()))
      else Effect(m, Err(StackOverflow))
  }

  function Advance(m: Machine): Machine {
    m.(pc := m.pc + 1)
  }

  /** One fetch-dispatch-advance cycle. Ok(false) means the program counter
      is past the program; every error leaves the counter where it was. */
  function Step(m: Machine): Effect<bool> {
    if m.pc >= |m.program| then Effect(m, Ok(false))
    else match m.program[m.pc]
      case PutVariable(r1, r2) =>
        var v := Variable(FreshName(|m.heap|));
        var first := Set(m.(heap := m.heap + [v]), r1, v);
        if first.result.Err? then Effect(first.machine, Err(first.result.error))
        else
          var second := Set(first.machine, r2, v);
          if second.result.Err? then Effect(second.machine, Err(second.result.error))
          else Effect(Advance(second.machine), Ok(true))
      case GetVariable(r1, r2) =>
        var val := Get(m, r2);
        if val.Err? then Effect(m, Err(val.error))
        else
          var written := Set(m, r1, val.value);
          if written.result.Err? then Effect(written.machine, Err(written.result.error))
          else Effect(Advance(written.machine), Ok(true))
      case Call(name) =>
        if name in m.symbols then Effect(m.(pc := m.symbols[name]), Ok(true))
        else Effect(m, Err(UnknownVariable(name)))
      case Proceed =>
        if HasFrame(m) then
          Effect(m.(pc := CurrentFrame(m).continuationPointer, environments := Callers(m)), Ok(true))
        else Effect(Advance(m), Ok(true))
      case _ => Effect(Advance(m), Ok(true))
  }

  /** The given number of back-to-back steps. Every step is taken, also after
      one that returned an error or Ok(false). */
  function Run(m: Machine, steps: nat): (t: Trace)
    ensures |t.outcomes| == steps
    decreases steps
  {
    if steps == 0 then Trace(m, [])
    else
      var e := Step(m);
      var rest := Run(e.machine, steps - 1);
      Trace(rest.machine, [e.result] + rest.outcomes)
  }

  /** Heap cell i is the variable named after index i: the only cells ever
      pushed are PutVariable's fresh variables. */
  ghost predicate HeapFresh(heap: seq<Term>) {
    forall i :: 0 <= i < |heap| ==> heap[i] == Variable(FreshName(i))
  }

  /** What every machine reachable from Initial() satisfies. */
  ghost predicate Invariant(m: Machine) {
    |m.registers| == NumRegisters && HeapFresh(m.heap)
  }
}
