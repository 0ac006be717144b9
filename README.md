# A verified model of the wam-rust interpreter core

This project models the single-step interpreter of the Warren Abstract
Machine in `src/lib.rs`. The modelled parts are:

- the machine state: a heap of terms, a file of 100 temporary registers, a
  chain of environment frames with permanent-variable slots and a
  continuation pointer, a program counter, the loaded program and a
  procedure-name to address symbol table;
- the bounds-checked register access `get_register` / `set_register`;
- `Wam::new`, `load_program`, and `execute_next`. Of the instructions,
  `execute_next` carries out `PutVariable`, `GetVariable`, `Call` and
  `Proceed`. Every other instruction only moves the program counter on.

Layout:

- `wam_types.dfy` (module `WamTypes`): terms, registers, instructions,
  errors, environment frames, `Result`.
- `fresh_names.dfy` (module `FreshNames`): the name `V<n>` given to the
  variable that `PutVariable` creates, where `<n>` is the decimal form of
  the heap length. It also holds the parser that reads `n` back.
- `semantics.dfy` (module `Semantics`): the machine as a value (`Machine`)
  and `Get`, `Set`, `Step`, `Run`, `Initial`, `Load` on it. These
  functions specify the class.
- `properties.dfy` (module `Properties`): lemmas about those functions.
- `wam.dfy` (module `Interpreter`): the class `Wam`. Its fields are
  updated in place by `LoadProgram`, `SetRegister` and `ExecuteNext`. The
  register file is a fixed `array` of 100 terms. Each method is proved to
  produce the state and result that `Semantics` gives.
- `demo.dfy` (module `Demo`): the demonstrator's three-instruction program,
  its run on the value-level machine (`DemoRun`) and a client of the class
  that runs it (`DemoSession`).

The model follows the code, including where the code differs from an
idealised WAM:

- A variable is a named term, not a bindable heap cell. There is no
  unification, no trail and no choice points.
- `Proceed` with no frame does not halt. It increments the program counter
  and returns `Ok(true)`, so the end of the program is reported only by
  the next step's `Ok(false)`.
- An unknown `Call` target is reported as `UnknownVariable(name)`.
- `UnificationError` is never produced (`StepNeverFailsUnification`).
- `set_register` on a permanent register past the current frame's slots
  takes the whole frame chain out of the machine and does not put it
  back. The model keeps this: the machine is left with no frame at all
  (`SetFailure`, `SetOverflowLeavesNoFrame`).
- `PutVariable` pushes the heap cell before it writes either register.
  A failing write therefore leaves the heap grown. A failing second write
  leaves the first register already written, unless both registers are
  permanent: then the overflowing second write drops the frame chain, and
  the first write with it (`PutVariableFailure`). A permanent second
  register that overflows drops the chain even when the first register is
  temporary (`PutVariableSecondWriteFails`).
- No operation pushes a frame or adds a procedure. So on a machine made by
  `new` and `load_program`, every `Call` fails and every permanent
  register underflows (`LoadedMachineNeverGainsFramesOrProcedures`). The
  lemmas about `Call` succeeding and about `Proceed` with a frame apply to
  machines whose table or frames were filled in some other way.

The chain of `Environment` frames (`Option<Box<Environment>>` in Rust) is
modelled as a sequence whose last element is the current frame.

## Model

| member | source | states |
|---|---|---|
| `Interpreter.Wam.constructor` | src/lib.rs:81-92 | a new machine has an empty heap, 100 registers each holding `Constant("undefined")`, no frame, no program, counter 0 and an empty symbol table; it satisfies the machine invariant |
| `Interpreter.Wam.LoadProgram` | src/lib.rs:95-98 | the program is replaced and the counter reset to 0; heap, registers, frames and symbols are kept |
| `Interpreter.Wam.GetRegister` | src/lib.rs:143-164 | the lookup over the register array and the frame chain gives exactly `Semantics.Get` of the machine's state |
| `Interpreter.Wam.SetRegister` | src/lib.rs:167-191 | the in-place write (array slot, or frame slot after taking the chain out) leaves the state and result that `Semantics.Set` gives, and keeps the machine invariant |
| `Interpreter.Wam.ExecuteNext` | src/lib.rs:101-140 | the new state and the result are those of `Semantics.Step` on the old state; the machine invariant (100 registers, heap of fresh variables) is preserved |
| `Demo.DemoSession` | src/main.rs:14-61 | creating a machine, loading the demo program and stepping four times returns `Ok(true)`, `Ok(true)`, `Ok(true)`, `Ok(false)` |
| `FreshNames.Decimal` | src/lib.rs:108 | the number in a fresh name is a non-empty string of decimal digits with no leading zero |
| `FreshNames.ParseDecimalOfDecimal` | src/lib.rs:108 | reading the decimal form of n back gives n |
| `FreshNames.VariableIndexOfFreshName` | src/lib.rs:108 | the name `V<n>` given to a fresh variable reads back as heap index n |
| `FreshNames.FreshNameInjective` | src/lib.rs:108 | two fresh names are equal exactly when they were made from the same heap length |
| `Semantics.Initial` | src/lib.rs:81-92 | the new machine: empty heap, 100 registers holding `Constant("undefined")`, no frame, no program, counter 0, empty symbol table; its properties are in `InitialInvariant` |
| `Semantics.Load` | src/lib.rs:95-98 | the program is replaced and the counter set to 0, nothing else changes |
| `Semantics.Get` | src/lib.rs:143-164 | the value-level register read; its cases are stated in `GetTemporary` and `GetPermanent` |
| `Semantics.Set` | src/lib.rs:167-191 | the value-level register write; its effect is stated in `SetMirrorsGet`, `SetThenGet`, `SetKeepsTheRest` and `SetFailure` |
| `Semantics.Step` | src/lib.rs:101-140 | the value-level `execute_next`; its effect per instruction is stated in the `Properties` lemmas that follow |
| `Semantics.Run` | src/lib.rs:101-140 | n back-to-back calls of `execute_next` yield exactly n outcomes, one per call, whatever the earlier calls returned |
| `Properties.GetTemporary` | src/lib.rs:156-162 | with 100 registers, `Temporary(n)` reads register n when n < 100 and fails with `StackOverflow` otherwise |
| `Properties.GetPermanent` | src/lib.rs:145-155 | `Permanent(n)` fails with `StackUnderflow` with no frame, with `StackOverflow` when n is at or past the current frame's slot count, and otherwise reads slot n of the current frame |
| `Properties.SetMirrorsGet` | src/lib.rs:143-191 | a write fails exactly when a read of the same register fails, with the same error |
| `Properties.SetThenGet` | src/lib.rs:167-191 | after a successful write of v, reading the same register gives v |
| `Properties.SetKeepsTheRest` | src/lib.rs:167-191 | a successful write leaves every other register and slot, the frames below the current one, the current frame's size and continuation, and heap, program, counter and symbols unchanged |
| `Properties.SetFailure` | src/lib.rs:169-189 | a failed write changes nothing, except that a permanent write past the current frame's slots leaves no frame at all |
| `Properties.SetOverflowLeavesNoFrame` | src/lib.rs:170-177 | after a permanent write past the current frame's slots fails with `StackOverflow`, every permanent register underflows |
| `Properties.SetKeepsFields` | src/lib.rs:167-191 | any write, successful or not, leaves heap, program, counter, symbols and the register count unchanged and never adds a frame |
| `Properties.StepPastEnd` | src/lib.rs:102-104 | with the counter at or past the end of the program, a step returns `Ok(false)` and changes nothing |
| `Properties.RunPastEnd` | src/lib.rs:102-104 | from such a machine, every later step also returns `Ok(false)` and the machine stays unchanged |
| `Properties.PutVariableOutcome` | src/lib.rs:107-112 | `PutVariable(r1, r2)` succeeds exactly when both r1 and r2 exist |
| `Properties.PutVariableSuccess` | src/lib.rs:107-112 | a successful `PutVariable(r1, r2)` appends exactly one cell `Variable(V<old heap length>)`, both registers then read that term, every other register and slot and the frames (number, callers, continuation, slot count) are unchanged, the counter goes up by 1 and the result is `Ok(true)` |
| `Properties.WriteBoth` | src/lib.rs:110-111 | two successful writes of the same term leave both registers reading it and every other register, slot, frame and field unchanged |
| `Properties.PutVariableFailure` | src/lib.rs:108-111 | a failing `PutVariable` has still appended the cell and leaves the counter, program and symbols unchanged; if r1 does not exist the error is r1's, the registers are unchanged and a permanent overflow drops the frames; otherwise r2 does not exist and the error is r2's; r1 keeps the new variable when either register is temporary, and when both are permanent the chain of frames is dropped and the first write is lost with it |
| `Properties.PutVariableSecondWriteFails` | src/lib.rs:110-111 | when the first write succeeds and the second fails, a permanent second register with a frame present leaves no frame at all and every temporary register other than r1 unchanged; otherwise every register other than r1 and the frames (number, callers, continuation, slot count) are unchanged |
| `Properties.GetVariableEffect` | src/lib.rs:113-116 | `GetVariable(r1, r2)` succeeds exactly when both registers exist; it then copies the value of r2 into r1, leaves every other register and slot, the frames and the heap alone and increments the counter; if r2 does not exist the machine is unchanged and r2's error is returned; if only r1 does not exist, r1's error is returned with counter, heap and registers unchanged, and a permanent overflow of r1 drops the chain of frames |
| `Properties.CallEffect` | src/lib.rs:117-124 | `Call(name)` sets the counter to the table's address and returns `Ok(true)` when the name is known, and otherwise returns `UnknownVariable(name)` with nothing changed |
| `Properties.ProceedEffect` | src/lib.rs:125-131 | `Proceed` with a frame sets the counter to the frame's continuation and makes the caller's frame current; without a frame it only increments the counter; both return `Ok(true)` |
| `Properties.UnimplementedOnlyAdvances` | src/lib.rs:132-138 | every other instruction only increments the counter and returns `Ok(true)` |
| `Properties.StepNeverFailsUnification` | src/lib.rs:101-140 | no step ever returns `UnificationError` |
| `Properties.StepKeepsShape` | src/lib.rs:101-140 | a step never adds a frame, never changes program, symbols or the register count, and either keeps the heap or appends the one fresh variable |
| `Properties.RunSnoc` | src/lib.rs:101-140 | running n + 1 steps is running n steps and then one more |
| `Properties.FreshVariableIsNew` | src/lib.rs:108-109 | the variable `PutVariable` pushes differs from every cell already on the heap |
| `Properties.HeapCellsDistinct` | src/lib.rs:108-109 | any two heap cells are different variables |
| `Properties.InitialInvariant` | src/lib.rs:81-92 | a new machine satisfies the invariant, every temporary register reads `Constant("undefined")` and every permanent register underflows |
| `Properties.StepPreservesInvariant` | src/lib.rs:101-140 | a step keeps 100 registers and keeps heap cell i equal to the variable named `V<i>` |
| `Properties.RunPreservesInvariant` | src/lib.rs:84 | the register file keeps exactly 100 registers, and the heap keeps its shape, for any number of steps |
| `Properties.RunKeepsNoFrames` | src/lib.rs:101-140 | a machine with no frame and no procedures keeps both empty and keeps its program, for any number of steps |
| `Properties.LoadedMachineNeverGainsFramesOrProcedures` | src/lib.rs:81-98 | after `new` and `load_program`, any number of steps leaves no frame, an empty symbol table and the loaded program, so every permanent register underflows |
| `Demo.DemoRun` | src/main.rs:14-18 | the demo program on a new machine gives `Ok(true)` three times and then `Ok(false)`, leaving `V0` as the only heap cell, in registers 0 and 1, with register 2 untouched and the counter at 3 |

## Left out

- The `trail` and `choice_points` fields and the `ChoicePoint` type: they are initialised and never read or written again, so there is no behaviour to model.
- Unification, backtracking, `Allocate`/`Deallocate` and the other stubbed instructions: the code does not implement them; they are modelled as the counter increment the code performs.
- The warning logged for unimplemented instructions: a call into the logging library with no effect on the machine.
- The `Display` messages of `WamError`: only the error variants are modelled.
- `HashMap` internals: the symbol table is a `map<string, nat>`. No code fills it in.
- `Box`/`Option` ownership of the frame chain: the chain is a sequence, current frame last.
- The egui front end in `src/main.rs`: only its demo program and its load-then-step sequence are used, in module `Demo`. The front end stops stepping after the first error or `Ok(false)`; `Run` does not model that guard and keeps stepping.
- `usize` bounds: indexes, addresses and the counter are unbounded naturals. The counter is incremented only when it is below the program length, so the increment cannot overflow in the source either.
