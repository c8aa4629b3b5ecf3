/**
 * How input reaches the handlers: the keyboard listener's key map and the keypad buttons'
 * click handler, each as a total function from a key value or a button label to a command.
 */
module Dispatch {

  /** What an input asks the calculator to do. */
  datatype Command =
    | Number(token: string)      // handleNumber(token)
    | Operator(op: string)       // handleOperator(op)
    | Calculate                  // handleCalculate()
    | Clear                      // handleClear()
    | Ignore                     // nothing

  /** A digit `0-9` or a decimal point. */
  predicate IsDigitOrPoint(c: char)
  {
    '0' <= c <= '9' || c == '.'
  }

  /** The operator symbols the handlers ever receive from a key or a button. */
  const OperatorSymbols: seq<string> := ["+", "-", "*", "/", "%"]

  /** Keys listed in the keyboard listener's operator map. */
  const OperatorKeys: seq<string> := ["+", "-", "*", "/", "x", "X"]

  /** Keys that clear the calculator (none of them deletes a single character). */
  const ClearKeys: seq<string> := ["Backspace", "Delete", "Escape"]

  /** A command the user interface can produce: single-character numbers and known operators. */
  predicate IsUiCommand(c: Command)
  {
    match c
    case Number(token) => |token| == 1 && IsDigitOrPoint(token[0])
    case Operator(op) => op in OperatorSymbols
    case _ => true
  }

  /** The command for a `keydown` event's `key`. */
  function KeyCommand(key: string): (c: Command)
    ensures c.Number? <==> |key| == 1 && IsDigitOrPoint(key[0])
    ensures c.Number? ==> c.token == key
    ensures c.Operator? <==> key in OperatorKeys
    ensures c.Operator? ==> c.op == (if key == "x" || key == "X" then "*" else key)
    ensures c == Calculate <==> key == "Enter" || key == "="
    ensures c == Clear <==> key in ClearKeys
    ensures IsUiCommand(c)
  {
    if |key| == 1 && IsDigitOrPoint(key[0]) then Number(key)
    else if key in OperatorKeys then Operator(if key == "x" || key == "X" then "*" else key)
    else if key == "Enter" || key == "=" then Calculate
    else if key in ClearKeys then Clear
    else Ignore
  }

  /** The keypad's labels, in the order the pad lays them out. */
  const PadLabels: seq<string> :=
    ["C", "%", "\U{F7}", "\U{D7}", "7", "8", "9", "-", "4", "5", "6", "+", "1", "2", "3", "=", "0", "."]

  /** Labels whose button calls the operator handler. */
  const OperatorLabels: seq<string> := ["+", "-", "\U{D7}", "\U{F7}", "%"]

  /** `btn.replace('×', '*').replace('÷', '/')` on an operator label of one character. */
  function OperatorSymbol(btn: string): string
  {
    if btn == "\U{D7}" then "*" else if btn == "\U{F7}" then "/" else btn
  }

  /** The command for a click on the keypad button labelled `btn`. */
  function ButtonCommand(btn: string): (c: Command)
    ensures c == Clear <==> btn == "C"
    ensures c == Calculate <==> btn == "="
    ensures c.Operator? <==> btn in OperatorLabels
    ensures c.Operator? ==> c.op in OperatorSymbols
    ensures c.Operator? ==> c.op == (if btn == "\U{D7}" then "*" else if btn == "\U{F7}" then "/" else btn)
    ensures c.Number? <==> btn != "C" && btn != "=" && btn !in OperatorLabels
    ensures c.Number? ==> c.token == btn
    ensures c != Ignore
  {
    if btn == "C" then Clear
    else if btn == "=" then Calculate
    else if btn in OperatorLabels then Operator(OperatorSymbol(btn))
    else Number(btn)
  }

  /** Every keypad button produces a command the user interface can produce. */
  lemma PadCommandsAreUiCommands()
    ensures forall btn :: btn in PadLabels ==> IsUiCommand(ButtonCommand(btn))
  {
  }
}
