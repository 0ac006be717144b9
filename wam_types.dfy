/** The values the abstract machine works on: terms, register names,
    instructions, errors and environment frames. */
module WamTypes {

  /** Number of temporary registers a machine is created with. */
  const NumRegisters: nat := 100

  /** The machine's error kinds. UnificationError is declared but no
      instruction ever reports it. */
  datatype WamError =
    | StackOverflow
    | StackUnderflow
    | UnificationError
    | UnknownVariable(name: string)

  /** A logic term. Variables are named, not bound heap cells. */
  datatype Term =
    | Variable(name: string)
    | Constant(name: string)
    | Structure(functor: string, args: seq<Term>)

  /** A temporary register indexes the fixed register file; a permanent one
      indexes the slots of the current environment frame. */
  datatype Register = Permanent(n: nat) | Temporary(n: nat)

  datatype Instruction =
    | PutVariable(r1: Register, r2: Register)
    | PutValue(r1: Register, r2: Register)
    | GetVariable(r1: Register, r2: Register)
    | GetValue(r1: Register, r2: Register)
    | SetVariable(r: Register)
    | SetValue(r: Register)
    | Call(procedure: string)
    | Proceed
    | Allocate(size: nat)
    | Deallocate
    | UnifyVariable(r: Register)
    | UnifyValue(r: Register)

  /** The instructions whose execution only moves the program counter on. */
  predicate IsUnimplemented(i: Instruction) {
    !(i.PutVariable? || i.GetVariable? || i.Call? || i.Proceed?)
  }

  /** An environment frame. The link to the caller's frame is the frame's
      position in the machine's stack of frames. */
  datatype Environment = Environment(permanentVariables: seq<Term>, continuationPointer: nat)

  datatype Option<T> = None | Some(value: T)

  datatype Result<T> = Ok(value: T) | Err(error: WamError)
}
