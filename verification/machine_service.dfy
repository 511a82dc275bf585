/**
 * Translation of an order into dispenser commands, and the validation gate
 * in front of the remote call (src/services/machine/machine.ts). The remote
 * call is a parameter: its outcome is success or failure.
 */
module MachineService {
  import opened Options
  import opened Errors

  /**
   * A step of the order handed to `directMakeCocktail`, reduced to what the
   * translation reads: its identifier, if the payload carries one, and its
   * quantity. The status, index and ingredient the validator demands are
   * not read.
   */
  datatype CocktailStep = CocktailStep(id: Option<string>, quantity: real)

  datatype CocktailOrder = CocktailOrder(steps: seq<CocktailStep>)

  /**
   * One dispenser command: which step it serves, the slot, how long to
   * press, and the pause after it. A step without identifier gives a command
   * without `stepId`, which `JSON.stringify` then leaves out.
   */
  datatype MachineStep = MachineStep(stepId: Option<string>, slot: int, pressed: real, delayAfter: real)

  /** The placeholder slot every command uses. */
  const DefaultSlot := 1

  /** Press time per unit of quantity. */
  const PressedPerQuantity: real := 0.5

  /** Pause after each command. */
  const DelayAfter: real := 0.5

  function TranslateStep(s: CocktailStep): MachineStep {
    MachineStep(s.id, DefaultSlot, s.quantity * PressedPerQuantity, DelayAfter)
  }

  /** `orderToMachineSteps`: one command per order step, in step order. */
  function OrderToMachineSteps(o: CocktailOrder): (r: seq<MachineStep>)
    ensures |r| == |o.steps|
    ensures forall i :: 0 <= i < |r| ==> r[i].stepId == o.steps[i].id
    ensures forall i :: 0 <= i < |r| ==> r[i].slot == 1 && r[i].delayAfter == 0.5
    ensures forall i :: 0 <= i < |r| ==> r[i].pressed == o.steps[i].quantity * 0.5
  {
    TranslateSteps(o.steps)
  }

  function TranslateSteps(ss: seq<CocktailStep>): (r: seq<MachineStep>)
    ensures |r| == |ss|
    ensures forall i :: 0 <= i < |ss| ==> r[i] == TranslateStep(ss[i])
  {
    seq(|ss|, i requires 0 <= i < |ss| => TranslateStep(ss[i]))
  }

  function TotalQuantity(ss: seq<CocktailStep>): real {
    if |ss| == 0 then 0.0 else ss[0].quantity + TotalQuantity(ss[1..])
  }

  function TotalPressed(ms: seq<MachineStep>): real {
    if |ms| == 0 then 0.0 else ms[0].pressed + TotalPressed(ms[1..])
  }

  /** The dispenser is pressed, in total, for half the order's total quantity. */
  lemma {:induction false} TotalPressedIsHalfQuantity(ss: seq<CocktailStep>)
    ensures TotalPressed(TranslateSteps(ss)) == TotalQuantity(ss) * 0.5
  {
    if |ss| > 0 {
      var r := TranslateSteps(ss);
      assert r[1..] == TranslateSteps(ss[1..]);
      TotalPressedIsHalfQuantity(ss[1..]);
    }
  }

  /** Commands never ask for a negative press when no step asks for a negative quantity. */
  lemma PressedNonNegative(o: CocktailOrder)
    requires forall i :: 0 <= i < |o.steps| ==> o.steps[i].quantity >= 0.0
    ensures forall i :: 0 <= i < |OrderToMachineSteps(o)| ==> OrderToMachineSteps(o)[i].pressed >= 0.0
  {
  }

  /** What `directMakeCocktail` settles to: a returned value, or a rejected promise. */
  datatype Settled = Returned(response: bool, error: Option<Error>) | Rejected

  /** The settled value, and the commands sent to the machine, if any were. */
  datatype Outcome = Outcome(settled: Settled, sent: Option<seq<MachineStep>>)

  /**
   * `directMakeCocktail`. `rejection` is the payload validator's first
   * message, if it rejects the order; the validator admits no key beyond
   * the ones it lists, so it refuses every step that carries an identifier.
   * `machine` says whether the remote `makeCocktail` call succeeds for the
   * given commands.
   */
  function DirectMakeCocktail(o: CocktailOrder, rejection: Option<string>, machine: seq<MachineStep> -> bool): (out: Outcome)
    requires (exists i :: 0 <= i < |o.steps| && o.steps[i].id.Some?) ==> rejection.Some?
    ensures rejection.Some? ==>
      out == Outcome(Returned(false, Some(NewIncorrectInputError(rejection.value, ErrIncorrectInput))), None)
    ensures rejection.None? ==> out.sent == Some(OrderToMachineSteps(o))
    ensures rejection.None? ==> (out.settled == Returned(true, None) <==> machine(OrderToMachineSteps(o)))
    ensures rejection.None? ==> (out.settled == Rejected <==> !machine(OrderToMachineSteps(o)))
    ensures out.settled.Returned? && out.settled.error.Some? ==> out.settled.error.value.errorType == IncorrectInput
    ensures out.sent.Some? ==> forall i :: 0 <= i < |out.sent.value| ==> out.sent.value[i].stepId.None?
  {
    if rejection.Some? then
      Outcome(Returned(false, Some(NewIncorrectInputError(rejection.value, ErrIncorrectInput))), None)
    else
      var steps := OrderToMachineSteps(o);
      if machine(steps) then Outcome(Returned(true, None), Some(steps))
      else Outcome(Rejected, Some(steps))
  }

  /** A returned value reports success exactly when it carries no error. */
  lemma ResponseIffNoError(o: CocktailOrder, rejection: Option<string>, machine: seq<MachineStep> -> bool)
    requires (exists i :: 0 <= i < |o.steps| && o.steps[i].id.Some?) ==> rejection.Some?
    ensures var out := DirectMakeCocktail(o, rejection, machine);
      out.settled.Returned? ==> (out.settled.response <==> out.settled.error.None?)
  {
  }
}
