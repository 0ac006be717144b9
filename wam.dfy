/** The machine object: its fields are updated in place by LoadProgram,
    SetRegister and ExecuteNext, each proved to have the effect that the
    functions of module Semantics describe. */
module Interpreter {
  import opened WamTypes
  import opened FreshNames
  import opened Semantics
  import Properties

  class Wam {
    var heap: seq<Term>
    /** The register file; it is created once and never replaced. */
    const registers: array<Term>
    /** The chain of frames; the current frame is the last element. */
    var environments: seq<Environment>
    var program: seq<Instruction>
    var programCounter: nat
    var symbolTable: map<string, nat>

    /** The machine's contents as a value. */
    ghost function State(): Machine
      reads this, registers
    {
      Machine(heap, registers[..], environments, program, programCounter, symbolTable)
    }

    ghost predicate Valid()
      reads this, registers
    {
      Invariant(State())
    }

    constructor ()
      ensures Valid()
      ensures State() == Initial()
      ensures fresh(registers)
    {
      heap := [];
      registers := new Term[NumRegisters](_ => Constant("undefined"));
      environments := [];
      program := [];
      programCounter := 0;
      symbolTable := map[];
      new;
      assert registers[..] == Initial().registers;
    }

    /** Replaces the program and restarts it at the first instruction. */
    method LoadProgram(instructions: seq<Instruction>)
      modifies this
      ensures State() == Load(old(State()), instructions)
      ensures old(Valid()) ==> Valid()
    {
      program := instructions;
      programCounter := 0;
    }

    /** Reads a register, failing when it does not exist. */
    function GetRegister(reg: Register): (r: Result<Term>)
      reads this, registers
      ensures r == Get(State(), reg)
    {
      match reg
      case Permanent(n) =>
        if |environments| == 0 then Err(StackUnderflow)
        else
          var env := environments[|environments| - 1];
          if n < |env.permanentVariables| then Ok(env.permanentVariables[n]) else Err(StackOverflow)
      case Temporary(n) =>
        if n < registers.Length then Ok(registers[n]) else Err(StackOverflow)
    }

    /** Writes a register, failing when it does not exist. */
    method SetRegister(reg: Register, value: Term) returns (r: Result<()>)
      modifies this, registers
      ensures Effect(State(), r) == Set(old(State()), reg, value)
      ensures old(Valid()) ==> Valid()
    {
      Properties.SetKeepsFields(State(), reg, value);
      match reg
      case Permanent(n) =>
        if |environments| == 0 {
          return Err(StackUnderflow);
        }
        var chain := environments;
        environments := [];
        var env := chain[|chain| - 1];
        if n < |env.permanentVariables| {
          env := env.(permanentVariables := env.permanentVariables[n := value]);
          environments := chain[..|chain| - 1] + [env];
          return Ok(());
        }
        return Err(StackOverflow);
      case Temporary(n) =>
        if n < registers.Length {
          registers[n] := value;
          return Ok(());
        }
        return Err(StackOverflow);
    }

    /** Executes the instruction at the program counter. Ok(false) means
        there is none; an error leaves the counter where it was. */
    method ExecuteNext() returns (r: Result<bool>)
      modifies this, registers
      ensures Effect(State(), r) == Step(old(State()))
      ensures old(Valid()) ==> Valid()
    {
      ghost var before := State();
      if Invariant(before) {
        Properties.StepPreservesInvariant(before);
      }
      if programCounter >= |program| {
        return Ok(false);
      }
      match program[programCounter] {
        case PutVariable(r1, r2) =>
          var v := Variable(FreshName(|heap|));
          heap := heap + [v];
          var first := SetRegister(r1, v);
          if first.Err? {
            return Err(first.error);
          }
          var second := SetRegister(r2, v);
          if second.Err? {
            return Err(second.error);
          }
        case GetVariable(r1, r2) =>
          var val := GetRegister(r2);
          if val.Err? {
            return Err(val.error);
          }
          var written := SetRegister(r1, val.value);
          if written.Err? {
            return Err(written.error);
          }
        case Call(name) =>
          if name in symbolTable {
            programCounter := symbolTable[name];
            return Ok(true);
          }
          return Err(UnknownVariable(name));
        case Proceed =>
          if |environments| > 0 {
            var env := environments[|environments| - 1];
            programCounter := env.continuationPointer;
            environments := environments[..|environments| - 1];
            return Ok(true);
          }
        case _ =>
      }
      programCounter := programCounter + 1;
      return Ok(true);
    }
  }
}
