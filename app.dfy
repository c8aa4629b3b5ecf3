/**
 * The calculator component's state and its event handlers. Each React state variable is a field;
 * each handler is a method that updates the fields the way the handler's setters do, with the
 * secret-code effect run where React runs it, after the change to the buffer.
 */
module App {
  import opened Wrappers
  import opened Text
  import opened JsNumber
  import Ledger
  import SecretCode
  import Evaluator
  import Scientific
  import opened Dispatch

  class Calculator {
    var darkMode: bool
    var loveMode: bool
    var display: string
    var equation: string
    var history: seq<string>
    var showHistory: bool
    var secretCode: string
    var showLoveNote: bool
    var error: Option<string>
    var isScientificMode: bool

    /** The history is within capacity and the effect has emptied any full secret-code buffer. */
    ghost predicate Valid()
      reads this
    {
      |history| <= Ledger.Capacity && |secretCode| < SecretCode.GroupSize
    }

    /** The initial state; `prefersDark` is the colour-scheme media query's answer. */
    constructor (prefersDark: bool)
      ensures Valid()
      ensures darkMode == prefersDark && !loveMode && !showHistory && !showLoveNote && !isScientificMode
      ensures display == "0" && equation == "" && history == [] && secretCode == "" && error == None
    {
      darkMode := prefersDark;
      loveMode := false;
      display := "0";
      equation := "";
      history := [];
      showHistory := false;
      secretCode := "";
      showLoveNote := false;
      error := None;
      isScientificMode := false;
    }

    /** The effect on `secretCode`: the code turns love mode on, and a full buffer is emptied. */
    method SecretCodeEffect()
      modifies this`loveMode, this`showLoveNote, this`secretCode
      ensures loveMode == (old(loveMode) || SecretCode.Fires(old(secretCode)))
      ensures showLoveNote == (old(showLoveNote) || SecretCode.Fires(old(secretCode)))
      ensures secretCode == SecretCode.Settle(old(secretCode))
    {
      if secretCode == SecretCode.Code {
        loveMode := true;
        showLoveNote := true;
      }
      if |secretCode| >= SecretCode.GroupSize {
        secretCode := "";
      }
    }

    /** A digit or point: it replaces a display of exactly "0", else is appended to it. */
    method HandleNumber(num: string)
      requires Valid()
      modifies this
      ensures Valid()
      ensures display == (if old(display) == "0" then num else old(display) + num)
      ensures equation == old(equation) + num
      ensures secretCode == SecretCode.Settle(old(secretCode) + num)
      ensures loveMode == (old(loveMode) || SecretCode.Fires(old(secretCode) + num))
      ensures showLoveNote == (old(showLoveNote) || SecretCode.Fires(old(secretCode) + num))
      ensures history == old(history) && error == old(error)
      ensures darkMode == old(darkMode) && showHistory == old(showHistory)
      ensures isScientificMode == old(isScientificMode)
      ensures SlashesSpaced(old(equation)) && '/' !in num ==> SlashesSpaced(equation)
    {
      secretCode := secretCode + num;
      display := if display == "0" then num else display + num;
      equation := equation + num;
      SecretCodeEffect();
      if SlashesSpaced(old(equation)) && '/' !in num {
        SlashFreeIsSpaced(num);
        SlashesSpacedAppend(old(equation), num);
      }
    }

    /** An operator: appended to the equation between spaces; the display starts a new operand. */
    method HandleOperator(op: string)
      requires Valid()
      modifies this`equation, this`display
      ensures Valid()
      ensures equation == old(equation) + " " + op + " "
      ensures display == "0"
      ensures SlashesSpaced(old(equation)) && |op| == 1 ==> SlashesSpaced(equation)
    {
      equation := equation + " " + op + " ";
      display := "0";
      if SlashesSpaced(old(equation)) && |op| == 1 {
        var tail := " " + op + " ";
        assert SlashesSpaced(tail);
        SlashesSpacedAppend(old(equation), tail);
        assert old(equation) + tail == equation;
      }
    }

    /** Clear: display and equation are reset and love mode is turned off. */
    method HandleClear()
      requires Valid()
      modifies this`display, this`equation, this`loveMode
      ensures Valid()
      ensures display == "0" && equation == "" && !loveMode
      ensures SlashesSpaced(equation)
    {
      display := "0";
      equation := "";
      loveMode := false;
    }

    /**
     * Equals: on success the result replaces both display and equation, so the next operator
     * chains on it, and the history gains `<equation> = <result>` in front; on failure the error
     * message is shown, display and equation are reset, and the history is untouched.
     */
    method HandleCalculate(rt: Runtime)
      requires Valid()
      modifies this`display, this`equation, this`history, this`error
      ensures Valid()
      ensures match Evaluator.Evaluate(rt, old(equation))
        case Success(result) =>
          && display == result && equation == result
          && history == Ledger.Push(Evaluator.Entry(old(equation), result, loveMode), old(history))
          && error == old(error)
        case Failure(e) =>
          && display == "0" && equation == ""
          && history == old(history)
          && error == Some(Evaluator.Message(e))
      ensures NumeralsSlashFree(rt) ==> SlashesSpaced(equation)
    {
      var outcome := Evaluator.Evaluate(rt, equation);
      match outcome {
        case Success(result) =>
          display := result;
          history := Ledger.Push(Evaluator.Entry(equation, result, loveMode), history);
          equation := result;
          if NumeralsSlashFree(rt) {
            var value := rt.run(Sanitize(old(equation))).value;
            FormattedSlashFree(rt, value);
            SlashFreeIsSpaced(result);
          }
        case Failure(e) =>
          error := Some(Evaluator.Message(e));
          display := "0";
          equation := "";
      }
    }

    /**
     * A scientific operation on the displayed value: on success display, equation and history
     * take the operation's result; on failure only the error message changes.
     */
    method HandleScientific(rt: Runtime, op: string)
      requires Valid()
      modifies this`display, this`equation, this`history, this`error
      ensures Valid()
      ensures var x := rt.parseFloat(old(display));
        match Scientific.Apply(rt, op, x)
        case Success(y) =>
          && display == FormatScientific(rt, y)
          && equation == Scientific.Entry(rt, op, x, y)
          && history == Ledger.Push(Scientific.Entry(rt, op, x, y), old(history))
          && error == old(error)
        case Failure(e) =>
          && display == old(display) && equation == old(equation)
          && history == old(history)
          && error == Some(Scientific.Message(e))
      ensures SlashesSpaced(old(equation)) && NumeralsSlashFree(rt) ==> SlashesSpaced(equation)
    {
      var x := rt.parseFloat(display);
      match Scientific.Apply(rt, op, x) {
        case Success(y) =>
          var entry := Scientific.Entry(rt, op, x, y);
          display := FormatScientific(rt, y);
          equation := entry;
          history := Ledger.Push(entry, history);
          if NumeralsSlashFree(rt) {
            Scientific.EntrySlashesSpaced(rt, op, x, y);
          }
        case Failure(e) =>
          error := Some(Scientific.Message(e));
      }
    }

    /** The timer that dismisses an error after three seconds. */
    method DismissError()
      modifies this`error
      ensures error == None
    {
      error := None;
    }

    /** The timer that hides the love note three seconds after the code fired. */
    method DismissLoveNote()
      modifies this`showLoveNote
      ensures !showLoveNote
    {
      showLoveNote := false;
    }

    /** The theme button. */
    method ToggleDarkMode()
      modifies this`darkMode
      ensures darkMode == !old(darkMode)
    {
      darkMode := !darkMode;
    }

    /** The `f(x)` / `123` button. */
    method ToggleScientificMode()
      modifies this`isScientificMode
      ensures isScientificMode == !old(isScientificMode)
    {
      isScientificMode := !isScientificMode;
    }

    /** The history button. */
    method ToggleHistory()
      modifies this`showHistory
      ensures showHistory == !old(showHistory)
    {
      showHistory := !showHistory;
    }

    /** The close button of the history panel. */
    method CloseHistory()
      modifies this`showHistory
      ensures !showHistory
    {
      showHistory := false;
    }

    /** The heart button, which toggles love mode directly. */
    method ToggleLoveMode()
      modifies this`loveMode
      ensures loveMode == !old(loveMode)
    {
      loveMode := !loveMode;
    }

    /**
     * Runs the handler a command names. Commands from the keys and the keypad keep every `/` of
     * the equation followed by a space, so the raw `/0` check never fires on typed input.
     */
    method Press(rt: Runtime, c: Command)
      requires Valid()
      modifies this
      ensures Valid()
      ensures c == Ignore ==> unchanged(this)
      ensures (IsUiCommand(c) && NumeralsSlashFree(rt) && SlashesSpaced(old(equation))) ==>
                SlashesSpaced(equation)
    {
      match c {
        case Number(token) => HandleNumber(token);
        case Operator(op) => HandleOperator(op);
        case Calculate => HandleCalculate(rt);
        case Clear => HandleClear();
        case Ignore =>
      }
    }
  }

  /** One user input: a key pressed, a keypad button clicked, or a scientific button clicked. */
  datatype Input = Key(key: string) | Button(name: string) | Sci(op: string)

  /** The command a key or keypad input gives, through the key map or the keypad's click handler. */
  function CommandOf(i: Input): Command
    requires !i.Sci?
  {
    match i
    case Key(key) => KeyCommand(key)
    case Button(name) => ButtonCommand(name)
  }

  /**
   * Any session of key presses, keypad clicks and scientific-button clicks, from a fresh
   * calculator, followed by equals: the equation then handed to the evaluator is never refused as
   * a division by zero, and equals shows the result or resets the display.
   */
  method SessionNeverDivisionByZero(rt: Runtime, prefersDark: bool, inputs: seq<Input>)
    returns (outcome: Result<string, Evaluator.CalcError>, shown: string)
    requires NumeralsSlashFree(rt)
    requires forall i :: 0 <= i < |inputs| && inputs[i].Button? ==> inputs[i].name in PadLabels
    ensures outcome != Failure(Evaluator.DivisionByZero)
    ensures shown == (if outcome.Success? then outcome.value else "0")
  {
    var c := new Calculator(prefersDark);
    PadCommandsAreUiCommands();
    for n := 0 to |inputs|
      invariant fresh(c) && c.Valid() && SlashesSpaced(c.equation)
    {
      match inputs[n]
      case Sci(op) => c.HandleScientific(rt, op);
      case _ => c.Press(rt, CommandOf(inputs[n]));
    }
    outcome := Evaluator.Evaluate(rt, c.equation);
    Evaluator.SpacedEquationNeverDivisionByZero(rt, c.equation);
    c.HandleCalculate(rt);
    shown := c.display;
  }

  /** Equals on an equation the evaluator accepts, seen from a caller that knows the result. */
  method CalculateSucceeds(rt: Runtime, c: Calculator, e: string, result: string)
    requires c.Valid() && c.equation == e && Evaluator.Evaluate(rt, e) == Success(result)
    modifies c
    ensures c.Valid() && c.display == result && c.equation == result
    ensures c.history == Ledger.Push(Evaluator.Entry(e, result, c.loveMode), old(c.history))
    ensures c.loveMode == old(c.loveMode) && c.secretCode == old(c.secretCode) && c.error == old(c.error)
  {
    c.HandleCalculate(rt);
  }

  /** Equals on an equation the evaluator refuses, seen from a caller that knows the error. */
  method CalculateFails(rt: Runtime, c: Calculator, e: string, err: Evaluator.CalcError)
    requires c.Valid() && c.equation == e && Evaluator.Evaluate(rt, e) == Failure(err)
    modifies c
    ensures c.Valid() && c.display == "0" && c.equation == "" && c.history == old(c.history)
    ensures c.error == Some(Evaluator.Message(err))
  {
    c.HandleCalculate(rt);
  }

  /** `8 ÷ 0 =` on the keypad: the raw check lets it through and the infinite quotient is refused. */
  method KeypadDivisionByZero(rt: Runtime) returns (shown: string, err: Option<string>, ledger: seq<string>)
    requires rt.run("8/0") == Returned(PosInf)
    ensures shown == "0" && err == Some("Result is infinity") && ledger == []
  {
    var c := new Calculator(false);
    TypeEightDividedByZero(c);
    Evaluator.KeypadDivisionByZeroIsInfinite(rt);
    CalculateFails(rt, c, "8 / 0", Evaluator.InfiniteResult);
    shown, err, ledger := c.display, c.error, c.history;
  }

  method TypeEightDividedByZero(c: Calculator)
    requires c.Valid() && c.equation == "" && c.display == "0" && c.history == []
    modifies c
    ensures c.Valid() && c.equation == "8 / 0" && c.history == []
  {
    var eight, divide, zero := ButtonCommand("8"), ButtonCommand("\U{F7}"), ButtonCommand("0");
    c.HandleNumber(eight.token);
    c.HandleOperator(divide.op);
    c.HandleNumber(zero.token);
  }

  /** `2 + 3 =` then `+ 4 =`: the first result becomes the equation the second calculation extends. */
  method ChainedCalculation(rt: Runtime) returns (shown: string, ledger: seq<string>)
    requires rt.run("2+3") == Returned(Finite(5.0)) && rt.toString(Finite(5.0)) == "5"
    requires rt.run("5+4") == Returned(Finite(9.0)) && rt.toString(Finite(9.0)) == "9"
    ensures shown == "9" && ledger == ["5 + 4 = 9", "2 + 3 = 5"]
  {
    var c := new Calculator(false);
    TwoPlusThree(rt, c);
    PlusFour(rt, c);
    shown, ledger := c.display, c.history;
  }

  method TwoPlusThree(rt: Runtime, c: Calculator)
    requires c.Valid() && c.equation == "" && c.display == "0" && c.history == []
    requires !c.loveMode && c.secretCode == ""
    requires rt.run("2+3") == Returned(Finite(5.0)) && rt.toString(Finite(5.0)) == "5"
    modifies c
    ensures c.Valid() && c.equation == "5" && c.history == ["2 + 3 = 5"]
    ensures !c.loveMode && c.secretCode == "23"
  {
    TypeTwoPlusThree(c);
    Evaluator.SmallSumEvaluates(rt, "2 + 3", "2+3", 5.0, "5");
    CalculateSucceeds(rt, c, "2 + 3", "5");
    assert Evaluator.Entry("2 + 3", "5", false) == "2 + 3 = 5";
    assert |c.history| == 1 && c.history[0] == "2 + 3 = 5";
  }

  method TypeTwoPlusThree(c: Calculator)
    requires c.Valid() && c.equation == "" && c.display == "0" && c.history == []
    requires !c.loveMode && c.secretCode == ""
    modifies c
    ensures c.Valid() && c.equation == "2 + 3" && c.history == []
    ensures !c.loveMode && c.secretCode == "23"
  {
    c.HandleNumber("2");
    c.HandleOperator("+");
    c.HandleNumber("3");
  }

  method PlusFour(rt: Runtime, c: Calculator)
    requires c.Valid() && c.equation == "5" && c.history == ["2 + 3 = 5"]
    requires !c.loveMode && c.secretCode == "23"
    requires rt.run("5+4") == Returned(Finite(9.0)) && rt.toString(Finite(9.0)) == "9"
    modifies c
    ensures c.display == "9" && c.history == ["5 + 4 = 9", "2 + 3 = 5"]
  {
    TypePlusFour(c);
    Evaluator.SmallSumEvaluates(rt, "5 + 4", "5+4", 9.0, "9");
    CalculateSucceeds(rt, c, "5 + 4", "9");
    assert Evaluator.Entry("5 + 4", "9", false) == "5 + 4 = 9";
    assert c.history[1..] == ["2 + 3 = 5"];
  }

  method TypePlusFour(c: Calculator)
    requires c.Valid() && c.equation == "5" && !c.loveMode && c.secretCode == "23"
    modifies c
    ensures c.Valid() && c.equation == "5 + 4" && c.history == old(c.history) && !c.loveMode
  {
    c.HandleOperator("+");
    c.HandleNumber("4");
  }

  /** Typing 1, 3, 1, 4 turns love mode on, and the next calculation's entry carries a heart. */
  method SecretCodeMarksHistory(rt: Runtime) returns (love: bool, buffer: string, ledger: seq<string>)
    requires rt.run("1314") == Returned(Finite(1314.0)) && rt.toString(Finite(1314.0)) == "1314"
    ensures love && buffer == "" && ledger == ["1314 = 1314 \U{1F49D}"]
  {
    var c := new Calculator(false);
    TypeSecretCode(c);
    Evaluator.LiteralEvaluates(rt, "1314", 1314.0);
    CalculateSucceeds(rt, c, "1314", "1314");
    assert Evaluator.Entry("1314", "1314", true) == "1314 = 1314 \U{1F49D}";
    assert |c.history| == 1 && c.history[0] == "1314 = 1314 \U{1F49D}";
    love, buffer, ledger := c.loveMode, c.secretCode, c.history;
  }

  method TypeSecretCode(c: Calculator)
    requires c.Valid() && c.equation == "" && c.secretCode == "" && c.history == []
    modifies c
    ensures c.Valid() && c.loveMode && c.secretCode == "" && c.equation == "1314" && c.history == []
  {
    c.HandleNumber("1");
    c.HandleNumber("3");
    c.HandleNumber("1");
    c.HandleNumber("4");
  }

  /** √ of a displayed 4 gives 2; log of a displayed 0 is refused and leaves the display alone. */
  method ScientificOnDisplay(rt: Runtime) returns (root: string, rootEquation: string, logError: Option<string>, logDisplay: string)
    requires rt.parseFloat("4") == Finite(4.0) && rt.parseFloat("0") == Finite(0.0)
    requires rt.math("sqrt", Finite(4.0)) == Finite(2.0)
    requires rt.toString(Finite(4.0)) == "4" && rt.toString(Finite(2.0)) == "2"
    ensures root == "2" && rootEquation == "sqrt(4) = 2"
    ensures logError == Some("Cannot calculate log of zero or negative number") && logDisplay == "0"
  {
    var c := new Calculator(false);
    root, rootEquation := SquareRootOfFour(rt, c);
    c.HandleClear();
    logError, logDisplay := LogOfZero(rt, c);
  }

  method SquareRootOfFour(rt: Runtime, c: Calculator) returns (root: string, rootEquation: string)
    requires c.Valid() && c.display == "0"
    requires rt.parseFloat("4") == Finite(4.0) && rt.math("sqrt", Finite(4.0)) == Finite(2.0)
    requires rt.toString(Finite(4.0)) == "4" && rt.toString(Finite(2.0)) == "2"
    modifies c
    ensures c.Valid() && root == "2" && rootEquation == "sqrt(4) = 2"
  {
    c.HandleNumber("4");
    c.HandleScientific(rt, "sqrt");
    assert IsInteger(Finite(2.0));
    root, rootEquation := c.display, c.equation;
  }

  method LogOfZero(rt: Runtime, c: Calculator) returns (logError: Option<string>, logDisplay: string)
    requires c.Valid() && c.display == "0" && rt.parseFloat("0") == Finite(0.0)
    modifies c
    ensures logError == Some("Cannot calculate log of zero or negative number") && logDisplay == "0"
  {
    c.HandleScientific(rt, "log");
    logError, logDisplay := c.error, c.display;
  }
}
