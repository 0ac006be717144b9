/** The demonstrator's program and session: a new machine loads three
    instructions and is stepped four times, the fourth step reporting the end. */
module Demo {
  import opened WamTypes
  import opened FreshNames
  import opened Semantics
  import Properties
  import Interpreter

  /** The program the demonstrator loads. */
  function DemoProgram(): seq<Instruction> {
    [PutVariable(Temporary(0), Temporary(1)), GetValue(Temporary(0), Temporary(2)), Proceed]
  }

  /** On a new machine the demo program steps three times with Ok(true), then
      reports Ok(false); V0 is then the only heap cell, in registers 0 and 1. */
  lemma DemoRun()
    ensures var t := Run(Load(Initial(), DemoProgram()), 4);
      && t.outcomes == [Ok(true), Ok(true), Ok(true), Ok(false)]
      && t.machine.heap == [Variable("V0")]
      && t.machine.registers[0] == Variable("V0") && t.machine.registers[1] == Variable("V0")
      && t.machine.registers[2] == Constant("undefined")
      && t.machine.pc == 3
  {
    var m0 := Load(Initial(), DemoProgram());
    var m1 := Step(m0).machine;
    assert FreshName(0) == "V0";
    assert m1.heap == [Variable("V0")] && m1.pc == 1;
    var m2 := Step(m1).machine;
    assert m2 == m1.(pc := 2);
    var m3 := Step(m2).machine;
    assert m3 == m1.(pc := 3);
    assert Run(m3, 1) == Trace(m3, [Ok(false)]);
    assert Run(m2, 2).outcomes == [Ok(true), Ok(false)];
    assert Run(m1, 3).outcomes == [Ok(true), Ok(true), Ok(false)];
  }

  /** The demonstrator's session: create a machine, load the demo program and
      step it four times. */
  method DemoSession() returns (outcomes: seq<Result<bool>>)
    ensures outcomes == [Ok(true), Ok(true), Ok(true), Ok(false)]
  {
    var wam := new Interpreter.Wam();
    wam.LoadProgram(DemoProgram());
    ghost var start := wam.State();
    assert start == Load(Initial(), DemoProgram());
    outcomes := [];
    var i := 0;
    while i < 4
      invariant 0 <= i <= 4
      invariant wam.Valid()
      invariant Run(start, i) == Trace(wam.State(), outcomes)
    {
      Properties.RunSnoc(start, i);
      var r := wam.ExecuteNext();
      outcomes := outcomes + [r];
      i := i + 1;
    }
    DemoRun();
  }
}
