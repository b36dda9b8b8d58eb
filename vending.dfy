/**
 * The vending machine of pattern/08_state.go: three states, three buttons, and a line printed
 * for every press. Each state object of the source becomes a constructor of `State`; the
 * machine keeps the current state and the lines printed so far.
 */
module VendingMachine {
  datatype State = NoCoin | HasCoin | Dispensing

  datatype Action = InsertCoin | PressButton | Dispense

  const CoinInserted := "Вставлена монета."
  const InsertCoinFirst := "Для начала вставьте монету."
  const CoinAlreadyIn := "Монета уже вставлена."
  const ButtonPressed := "Кнопка нажата."
  const PressForItem := "Нажмите кнопку для выдачи."
  const PleaseWait := "Пожалуйста подождите, происходит выдача."
  const AlreadyDispensed := "Уже выдана."
  const ItemDispensed := "Выдача предмета."

  /** The state after pressing `a` in state `s`. */
  function Next(s: State, a: Action): State {
    match (s, a)
    case (NoCoin, InsertCoin) => HasCoin
    case (HasCoin, PressButton) => Dispensing
    case (Dispensing, Dispense) => NoCoin
    case _ => s
  }

  /** The line printed when `a` is pressed in state `s`. */
  function Message(s: State, a: Action): string {
    match s
    case NoCoin => if a == InsertCoin then CoinInserted else InsertCoinFirst
    case HasCoin =>
      (match a
       case InsertCoin => CoinAlreadyIn
       case PressButton => ButtonPressed
       case Dispense => PressForItem)
    case Dispensing =>
      (match a
       case InsertCoin => PleaseWait
       case PressButton => AlreadyDispensed
       case Dispense => ItemDispensed)
  }

  /** Exactly three presses change the state: a coin without a coin, the button with a coin,
      and dispensing while dispensing; every other press leaves the state as it was. */
  lemma {:induction false} NextChanges(s: State, a: Action)
    ensures Next(s, a) != s <==>
      (s == NoCoin && a == InsertCoin) || (s == HasCoin && a == PressButton) || (s == Dispensing && a == Dispense)
  {
  }

  /** Dispensing is entered only from HasCoin by the button. */
  lemma {:induction false} DispensingOnlyFromHasCoin(s: State, a: Action)
    requires Next(s, a) == Dispensing && s != Dispensing
    ensures s == HasCoin && a == PressButton
  {
  }

  /** The state after a sequence of presses. */
  function Run(s: State, acts: seq<Action>): State {
    if acts == [] then s else Next(Run(s, acts[..|acts| - 1]), acts[|acts| - 1])
  }

  /** The lines printed by a sequence of presses. */
  function Trace(s: State, acts: seq<Action>): (out: seq<string>)
    ensures |out| == |acts|
  {
    if acts == [] then [] else Trace(s, acts[..|acts| - 1]) + [Message(Run(s, acts[..|acts| - 1]), acts[|acts| - 1])]
  }

  function Count(lines: seq<string>, line: string): nat {
    if lines == [] then 0
    else Count(lines[..|lines| - 1], line) + (if lines[|lines| - 1] == line then 1 else 0)
  }

  /** Coin, button, dispense from NoCoin is one full round back to NoCoin. */
  lemma {:induction false} FullRound()
    ensures Run(NoCoin, [InsertCoin, PressButton, Dispense]) == NoCoin
    ensures Trace(NoCoin, [InsertCoin, PressButton, Dispense]) == [CoinInserted, ButtonPressed, ItemDispensed]
  {
    assert [InsertCoin, PressButton, Dispense][..2] == [InsertCoin, PressButton];
    assert [InsertCoin, PressButton][..1] == [InsertCoin];
    assert [InsertCoin][..0] == [];
  }

  /** A machine that starts without a coin never hands out more items than coins it accepted,
      and holds exactly one accepted coin not yet paid out whenever it is not back at NoCoin. */
  lemma {:induction false} CoinsBalance(acts: seq<Action>)
    ensures var out := Trace(NoCoin, acts);
      Count(out, CoinInserted) == Count(out, ItemDispensed) + (if Run(NoCoin, acts) == NoCoin then 0 else 1)
  {
    if acts != [] {
      var p, a := acts[..|acts| - 1], acts[|acts| - 1];
      CoinsBalance(p);
      var out := Trace(NoCoin, acts);
      assert out[..|out| - 1] == Trace(NoCoin, p);
      assert out[|out| - 1] == Message(Run(NoCoin, p), a);
    }
  }

  class Machine {
    var state: State
    /** The lines printed so far. */
    var output: seq<string>

    /** NewVendingMachine */
    constructor ()
      ensures state == NoCoin && output == []
    {
      state, output := NoCoin, [];
    }

    method InsertCoin()
      modifies this
      ensures state == Next(old(state), Action.InsertCoin)
      ensures output == old(output) + [Message(old(state), Action.InsertCoin)]
    {
      match state
      case NoCoin =>
        output := output + [CoinInserted];
        state := HasCoin;
      case HasCoin =>
        output := output + [CoinAlreadyIn];
      case Dispensing =>
        output := output + [PleaseWait];
    }

    method PressButton()
      modifies this
      ensures state == Next(old(state), Action.PressButton)
      ensures output == old(output) + [Message(old(state), Action.PressButton)]
    {
      match state
      case NoCoin =>
        output := output + [InsertCoinFirst];
      case HasCoin =>
        output := output + [ButtonPressed];
        state := Dispensing;
      case Dispensing =>
        output := output + [AlreadyDispensed];
    }

    method Dispense()
      modifies this
      ensures state == Next(old(state), Action.Dispense)
      ensures output == old(output) + [Message(old(state), Action.Dispense)]
    {
      match state
      case NoCoin =>
        output := output + [InsertCoinFirst];
      case HasCoin =>
        output := output + [PressForItem];
      case Dispensing =>
        output := output + [ItemDispensed];
        state := NoCoin;
    }
  }
}
