/** What the register operations and the step function promise. */
module Properties {
  import opened WamTypes
  import opened FreshNames
  import opened Semantics

  // ---------------------------------------------------------------- registers

  /** With the register file at its fixed size, a temporary register exists
      exactly when its index is below NumRegisters. */
  lemma GetTemporary(m: Machine, n: nat)
    requires |m.registers| == NumRegisters
    ensures Get(m, Temporary(n)).Ok? <==> n < NumRegisters
    ensures n < NumRegisters ==> Get(m, Temporary(n)) == Ok(m.registers[n])
    ensures n >= NumRegisters ==> Get(m, Temporary(n)) == Err(StackOverflow)
  {
  }

  /** A permanent register underflows without a frame, overflows past the
      current frame's slots and otherwise reads slot n of the current frame. */
  lemma GetPermanent(m: Machine, n: nat)
    ensures !HasFrame(m) ==> Get(m, Permanent(n)) == Err(StackUnderflow)
    ensures HasFrame(m) && n >= |CurrentFrame(m).permanentVariables| ==> Get(m, Permanent(n)) == Err(StackOverflow)
    ensures HasFrame(m) && n < |CurrentFrame(m).permanentVariables| ==>
              Get(m, Permanent(n)) == Ok(m.environments[|m.environments| - 1].permanentVariables[n])
  {
  }

  /** Set fails exactly when Get on the same register fails, with the same error. */
  lemma SetMirrorsGet(m: Machine, reg: Register, v: Term)
    ensures Set(m, reg, v).result.Ok? <==> Get(m, reg).Ok?
    ensures Get(m, reg).Err? ==> Set(m, reg, v).result == Err(Get(m, reg).error)
  {
  }

  /** A successful write is read back. */
  lemma SetThenGet(m: Machine, reg: Register, v: Term)
    requires Set(m, reg, v).result.Ok?
    ensures Get(Set(m, reg, v).machine, reg) == Ok(v)
  {
  }

  /** A successful write changes no other register or slot, keeps every frame's
      place and continuation, and leaves heap, program, counter and symbols alone. */
  lemma SetKeepsTheRest(m: Machine, reg: Register, v: Term, other: Register)
    requires Set(m, reg, v).result.Ok?
    requires other != reg
    ensures var m' := Set(m, reg, v).machine;
      && Get(m', other) == Get(m, other)
      && |m'.registers| == |m.registers|
      && FramesKept(m, m')
      && m'.heap == m.heap && m'.program == m.program && m'.pc == m.pc && m'.symbols == m.symbols
  {
  }

  /** A failed write changes nothing, except that writing past the current
      frame's slots leaves no frame at all. */
  lemma SetFailure(m: Machine, reg: Register, v: Term)
    requires Set(m, reg, v).result.Err?
    ensures reg.Permanent? && HasFrame(m) ==>
              Set(m, reg, v) == Effect(m.(environments := []), Err(StackOverflow))
    ensures reg.Temporary? || !HasFrame(m) ==> Set(m, reg, v).machine == m
  {
  }

  /** After a permanent write past the frame's slots, every permanent register underflows. */
  lemma SetOverflowLeavesNoFrame(m: Machine, n: nat, v: Term, k: nat)
    requires HasFrame(m) && n >= |CurrentFrame(m).permanentVariables|
    ensures Set(m, Permanent(n), v).result == Err(StackOverflow)
    ensures Get(Set(m, Permanent(n), v).machine, Permanent(k)) == Err(StackUnderflow)
  {
  }

  // ------------------------------------------------------------- instructions

  /** Past the end of the program a step returns Ok(false) and changes nothing. */
  lemma StepPastEnd(m: Machine)
    requires m.pc >= |m.program|
    ensures Step(m) == Effect(m, Ok(false))
  {
  }

  /** ... and so does every later step. */
  lemma {:induction false} RunPastEnd(m: Machine, steps: nat)
    requires m.pc >= |m.program|
    ensures Run(m, steps).machine == m
    ensures forall i :: 0 <= i < steps ==> Run(m, steps).outcomes[i] == Ok(false)
    decreases steps
  {
    if steps > 0 {
      RunPastEnd(m, steps - 1);
    }
  }

  /** The frames keep their number, and the caller frames, the current frame's
      continuation and its slot count are the same: only slot contents differ. */
  ghost predicate FramesKept(m: Machine, m': Machine) {
    && |m'.environments| == |m.environments|
    && (HasFrame(m) ==> Callers(m') == Callers(m)
                        && CurrentFrame(m').continuationPointer == CurrentFrame(m).continuationPointer
                        && |CurrentFrame(m').permanentVariables| == |CurrentFrame(m).permanentVariables|)
  }

  /** PutVariable succeeds exactly when both of its registers exist. */
  lemma PutVariableOutcome(m: Machine, r1: Register, r2: Register)
    requires m.pc < |m.program| && m.program[m.pc] == PutVariable(r1, r2)
    ensures Step(m).result.Ok? <==> Get(m, r1).Ok? && Get(m, r2).Ok?
  {
    var v := Variable(FreshName(|m.heap|));
    var grown := m.(heap := m.heap + [v]);
    SetMirrorsGet(grown, r1, v);
    if Get(m, r1).Ok? {
      var first := Set(grown, r1, v);
      if r1 != r2 {
        SetKeepsTheRest(grown, r1, v, r2);
      } else {
        SetThenGet(grown, r1, v);
      }
      SetMirrorsGet(first.machine, r2, v);
    }
  }

  /** A successful PutVariable pushes one fresh variable, named after the old
      heap length, puts that same term in both registers and moves on; every
      other register and slot, and the frames, are as they were. */
  lemma PutVariableSuccess(m: Machine, r1: Register, r2: Register)
    requires m.pc < |m.program| && m.program[m.pc] == PutVariable(r1, r2)
    requires Step(m).result.Ok?
    ensures var m', v := Step(m).machine, Variable(FreshName(|m.heap|));
      && Step(m).result == Ok(true)
      && m'.heap == m.heap + [v]
      && Get(m', r1) == Ok(v) && Get(m', r2) == Ok(v)
      && (forall other :: other != r1 && other != r2 ==> Get(m', other) == Get(m, other))
      && FramesKept(m, m')
      && m'.pc == m.pc + 1
      && m'.program == m.program && m'.symbols == m.symbols
  {
    var v := Variable(FreshName(|m.heap|));
    var grown := m.(heap := m.heap + [v]);
    var first := Set(grown, r1, v);
    var second := Set(first.machine, r2, v);
    assert first.result.Ok? && second.result.Ok?;
    assert Step(m).machine == Advance(second.machine);
    WriteBoth(grown, r1, r2, v);
  }

  /** Two successful writes of the same term: both registers read it back and
      nothing else changes. */
  lemma WriteBoth(g: Machine, r1: Register, r2: Register, v: Term)
    requires Set(g, r1, v).result.Ok?
    requires Set(Set(g, r1, v).machine, r2, v).result.Ok?
    ensures var g' := Set(Set(g, r1, v).machine, r2, v).machine;
      && Get(g', r1) == Ok(v) && Get(g', r2) == Ok(v)
      && (forall other :: other != r1 && other != r2 ==> Get(g', other) == Get(g, other))
      && FramesKept(g, g')
      && g'.heap == g.heap && g'.pc == g.pc && g'.program == g.program && g'.symbols == g.symbols
  {
    var first := Set(g, r1, v);
    forall other | other != r1 && other != r2
      ensures Get(Set(first.machine, r2, v).machine, other) == Get(g, other)
    {
      SetKeepsTheRest(g, r1, v, other);
      SetKeepsTheRest(first.machine, r2, v, other);
    }
    SetThenGet(g, r1, v);
    SetThenGet(first.machine, r2, v);
    if r1 != r2 {
      SetKeepsTheRest(g, r1, v, r2);
      SetKeepsTheRest(first.machine, r2, v, r1);
    }
  }

  /** A failing PutVariable has already pushed the cell and keeps the counter.
      The error is the first register's when that one does not exist, and the
      second's otherwise. The first write survives a failing second write,
      except when both registers are permanent: then the second write drops
      the chain of frames, and the first write with it. */
  lemma PutVariableFailure(m: Machine, r1: Register, r2: Register)
    requires m.pc < |m.program| && m.program[m.pc] == PutVariable(r1, r2)
    requires Step(m).result.Err?
    ensures var m', v := Step(m).machine, Variable(FreshName(|m.heap|));
      && m'.heap == m.heap + [v]
      && m'.pc == m.pc
      && m'.program == m.program && m'.symbols == m.symbols
      && (Get(m, r1).Err? ==>
            && Step(m).result == Err(Get(m, r1).error)
            && m'.registers == m.registers
            && (r1.Permanent? && HasFrame(m) ==> m'.environments == [])
            && (r1.Temporary? || !HasFrame(m) ==> m'.environments == m.environments))
      && (Get(m, r1).Ok? ==>
            && Get(m, r2).Err?
            && Step(m).result == Err(Get(m, r2).error))
      && (Get(m, r1).Ok? && (r1.Temporary? || r2.Temporary?) ==> Get(m', r1) == Ok(v))
      && (Get(m, r1).Ok? && r1.Permanent? && r2.Permanent? ==>
            && m'.environments == []
            && Get(m', r1) == Err(StackUnderflow))
  {
    var v := Variable(FreshName(|m.heap|));
    var grown := m.(heap := m.heap + [v]);
    SetMirrorsGet(grown, r1, v);
    PutVariableOutcome(m, r1, r2);
    if Get(m, r1).Err? {
      SetFailure(grown, r1, v);
    } else {
      var first := Set(grown, r1, v);
      SetThenGet(grown, r1, v);
      if r1 != r2 {
        SetKeepsTheRest(grown, r1, v, r2);
      }
      SetMirrorsGet(first.machine, r2, v);
      SetFailure(first.machine, r2, v);
    }
  }

  /** When the first write of a PutVariable succeeds and the second fails,
      a permanent second register with a frame present drops the whole chain
      of frames and leaves every temporary register other than r1 alone; otherwise every register other than r1 and the frames are
      as they were. */
  lemma PutVariableSecondWriteFails(m: Machine, r1: Register, r2: Register)
    requires m.pc < |m.program| && m.program[m.pc] == PutVariable(r1, r2)
    requires Step(m).result.Err? && Get(m, r1).Ok?
    ensures var m' := Step(m).machine;
      && (r2.Permanent? && HasFrame(m) ==>
            && m'.environments == []
            && (forall k :: Temporary(k) != r1 ==> Get(m', Temporary(k)) == Get(m, Temporary(k))))
      && (r2.Temporary? || !HasFrame(m) ==>
            && (forall other :: other != r1 ==> Get(m', other) == Get(m, other))
            && FramesKept(m, m'))
  {
    var v := Variable(FreshName(|m.heap|));
    var grown := m.(heap := m.heap + [v]);
    var first := Set(grown, r1, v);
    SetMirrorsGet(grown, r1, v);
    PutVariableFailure(m, r1, r2);
    assert Step(m).machine == Set(first.machine, r2, v).machine;
    SetFailure(first.machine, r2, v);
    forall other | other != r1
      ensures Get(first.machine, other) == Get(m, other)
    {
      SetKeepsTheRest(grown, r1, v, other);
    }
    if r1 != r2 {
      SetKeepsTheRest(grown, r1, v, r2);
    }
  }

  /** GetVariable succeeds exactly when both of its registers exist. A
      successful one copies the value of r2 into r1, leaves every other
      register and slot, the frames and the heap alone, and moves on. When r2
      does not exist nothing changes; when only r1 does not exist the counter
      stays put and a permanent r1 past the frame's slots drops the chain. */
  lemma GetVariableEffect(m: Machine, r1: Register, r2: Register)
    requires m.pc < |m.program| && m.program[m.pc] == GetVariable(r1, r2)
    ensures Step(m).result.Ok? <==> Get(m, r1).Ok? && Get(m, r2).Ok?
    ensures Get(m, r2).Err? ==> Step(m) == Effect(m, Err(Get(m, r2).error))
    ensures Get(m, r2).Ok? && Get(m, r1).Err? ==>
      var m' := Step(m).machine;
      && Step(m).result == Err(Get(m, r1).error)
      && m'.pc == m.pc && m'.heap == m.heap && m'.registers == m.registers
      && (r1.Permanent? && HasFrame(m) ==> m'.environments == [])
      && (r1.Temporary? || !HasFrame(m) ==> m' == m)
    ensures Step(m).result.Ok? ==>
      var m' := Step(m).machine;
      && Step(m).result == Ok(true)
      && Get(m', r1) == Get(m, r2)
      && (forall other :: other != r1 ==> Get(m', other) == Get(m, other))
      && FramesKept(m, m')
      && m'.heap == m.heap
      && m'.pc == m.pc + 1
      && m'.program == m.program && m'.symbols == m.symbols
  {
    if Get(m, r2).Ok? {
      var val := Get(m, r2).value;
      SetMirrorsGet(m, r1, val);
      if Get(m, r1).Ok? {
        SetThenGet(m, r1, val);
        forall other | other != r1
          ensures Get(Step(m).machine, other) == Get(m, other)
        {
          SetKeepsTheRest(m, r1, val, other);
        }
      } else {
        SetFailure(m, r1, val);
      }
    }
  }

  /** Call jumps to a known procedure's address, and otherwise fails without moving. */
  lemma CallEffect(m: Machine, name: string)
    requires m.pc < |m.program| && m.program[m.pc] == Call(name)
    ensures name in m.symbols ==> Step(m) == Effect(m.(pc := m.symbols[name]), Ok(true))
    ensures name !in m.symbols ==> Step(m) == Effect(m, Err(UnknownVariable(name)))
  {
  }

  /** Proceed returns to the current frame's continuation and makes the
      caller's frame current; with no frame it only moves on. */
  lemma ProceedEffect(m: Machine)
    requires m.pc < |m.program| && m.program[m.pc] == Proceed
    ensures Step(m).result == Ok(true)
    ensures HasFrame(m) ==>
      && Step(m).machine.pc == CurrentFrame(m).continuationPointer
      && Step(m).machine.environments == Callers(m)
      && Step(m).machine.heap == m.heap && Step(m).machine.registers == m.registers
    ensures !HasFrame(m) ==> Step(m).machine == m.(pc := m.pc + 1)
  {
  }

  /** Every other instruction only moves the counter on. */
  lemma UnimplementedOnlyAdvances(m: Machine)
    requires m.pc < |m.program| && IsUnimplemented(m.program[m.pc])
    ensures Step(m) == Effect(m.(pc := m.pc + 1), Ok(true))
  {
  }

  /** No step reports a unification failure, since none unifies. */
  lemma StepNeverFailsUnification(m: Machine)
    ensures Step(m).result != Err(UnificationError)
  {
  }

  /** A step never pushes a frame, never changes the program, the symbols or
      the register file's size, and at most appends one cell to the heap. */
  lemma StepKeepsShape(m: Machine)
    ensures var m' := Step(m).machine;
      && |m'.environments| <= |m.environments|
      && m'.program == m.program && m'.symbols == m.symbols
      && |m'.registers| == |m.registers|
      && (m'.heap == m.heap || m'.heap == m.heap + [Variable(FreshName(|m.heap|))])
  {
    if m.pc < |m.program| {
      match m.program[m.pc]
      case PutVariable(r1, r2) =>
        var v := Variable(FreshName(|m.heap|));
        var grown := m.(heap := m.heap + [v]);
        SetKeepsFields(grown, r1, v);
        SetKeepsFields(Set(grown, r1, v).machine, r2, v);
      case GetVariable(r1, r2) =>
        if Get(m, r2).Ok? {
          SetKeepsFields(m, r1, Get(m, r2).value);
        }
      case _ =>
    }
  }

  /** A write, successful or not, touches only the register file's contents and the frames. */
  lemma SetKeepsFields(m: Machine, reg: Register, v: Term)
    ensures var m' := Set(m, reg, v).machine;
      && |m'.environments| <= |m.environments|
      && m'.heap == m.heap && m'.program == m.program && m'.pc == m.pc && m'.symbols == m.symbols
      && |m'.registers| == |m.registers|
  {
  }

  /** Running one more step is running the given ones and then stepping once. */
  lemma {:induction false} RunSnoc(m: Machine, steps: nat)
    ensures var t := Run(m, steps);
      Run(m, steps + 1) == Trace(Step(t.machine).machine, t.outcomes + [Step(t.machine).result])
    decreases steps
  {
    if steps > 0 {
      RunSnoc(Step(m).machine, steps - 1);
    }
  }

  // --------------------------------------------------------------- invariants

  /** The cell PutVariable pushes differs from every cell already on the heap. */
  lemma FreshVariableIsNew(heap: seq<Term>)
    requires HeapFresh(heap)
    ensures Variable(FreshName(|heap|)) !in heap
  {
    if Variable(FreshName(|heap|)) in heap {
      var i :| 0 <= i < |heap| && heap[i] == Variable(FreshName(|heap|));
      FreshNameInjective(i, |heap|);
    }
  }

  /** All heap cells are distinct variables. */
  lemma HeapCellsDistinct(heap: seq<Term>, i: nat, j: nat)
    requires HeapFresh(heap)
    requires i < j < |heap|
    ensures heap[i] != heap[j]
  {
    FreshNameInjective(i, j);
  }

  /** A new machine satisfies the invariant; each of its registers reads
      "undefined" and each permanent register underflows. */
  lemma InitialInvariant(n: nat)
    ensures Invariant(Initial())
    ensures n < NumRegisters ==> Get(Initial(), Temporary(n)) == Ok(Constant("undefined"))
    ensures Get(Initial(), Permanent(n)) == Err(StackUnderflow)
  {
  }

  lemma StepPreservesInvariant(m: Machine)
    requires Invariant(m)
    ensures Invariant(Step(m).machine)
  {
  }

  /** The register file keeps its 100 registers, and the heap its shape, for
      any number of steps. */
  lemma {:induction false} RunPreservesInvariant(m: Machine, steps: nat)
    requires Invariant(m)
    ensures Invariant(Run(m, steps).machine)
    decreases steps
  {
    if steps > 0 {
      StepPreservesInvariant(m);
      RunPreservesInvariant(Step(m).machine, steps - 1);
    }
  }

  /** A run never adds frames or procedures, so from a freshly created and
      loaded machine every Call fails and every permanent register underflows. */
  lemma {:induction false} LoadedMachineNeverGainsFramesOrProcedures(
    instructions: seq<Instruction>, steps: nat, name: string, n: nat)
    ensures var m := Run(Load(Initial(), instructions), steps).machine;
      && m.environments == [] && m.symbols == map[] && m.program == instructions
      && Get(m, Permanent(n)) == Err(StackUnderflow)
    decreases steps
  {
    RunKeepsNoFrames(Load(Initial(), instructions), steps);
  }

  lemma {:induction false} RunKeepsNoFrames(m: Machine, steps: nat)
    requires m.environments == [] && m.symbols == map[]
    ensures var m' := Run(m, steps).machine;
      m'.environments == [] && m'.symbols == map[] && m'.program == m.program
    decreases steps
  {
    if steps > 0 {
      StepKeepsShape(m);
      RunKeepsNoFrames(Step(m).machine, steps - 1);
    }
  }
}
