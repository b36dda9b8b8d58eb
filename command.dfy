/**
 * The remote control of pattern/04_command.go: two receivers (a light and a TV) that can be
 * switched on and off, four commands over them, and an invoker with two slots of on/off
 * commands and an undo button. Printing appends a line to a console.
 */
module RemoteControl {
  import opened Wrappers

  /** Standard output. */
  class Console {
    var lines: seq<string>

    constructor ()
      ensures lines == []
    {
      lines := [];
    }
  }

  const LightOnLine := "Свет включен"
  const LightOffLine := "Свет выключен"
  const TVOnLine := "ТВ включен"
  const TVOffLine := "ТВ выключен"

  class LightReceiver {
    var isOn: bool

    constructor ()
      ensures !isOn
    {
      isOn := false;
    }

    method On(console: Console)
      modifies this, console
      ensures isOn && console.lines == old(console.lines) + [LightOnLine]
    {
      isOn := true;
      console.lines := console.lines + [LightOnLine];
    }

    method Off(console: Console)
      modifies this, console
      ensures !isOn && console.lines == old(console.lines) + [LightOffLine]
    {
      isOn := false;
      console.lines := console.lines + [LightOffLine];
    }
  }

  class TVReceiver {
    var isOn: bool

    constructor ()
      ensures !isOn
    {
      isOn := false;
    }

    method On(console: Console)
      modifies this, console
      ensures isOn && console.lines == old(console.lines) + [TVOnLine]
    {
      isOn := true;
      console.lines := console.lines + [TVOnLine];
    }

    method Off(console: Console)
      modifies this, console
      ensures !isOn && console.lines == old(console.lines) + [TVOffLine]
    {
      isOn := false;
      console.lines := console.lines + [TVOffLine];
    }
  }

  datatype Command =
    | LightOnCommand(light: LightReceiver)
    | LightOffCommand(light: LightReceiver)
    | TVOnCommand(tv: TVReceiver)
    | TVOffCommand(tv: TVReceiver)

  /** The receiver a command acts on. */
  function Target(c: Command): object {
    match c
    case LightOnCommand(l) => l
    case LightOffCommand(l) => l
    case TVOnCommand(t) => t
    case TVOffCommand(t) => t
  }

  /** Whether the command's receiver is on. */
  function IsOn(c: Command): bool
    reads Target(c)
  {
    match c
    case LightOnCommand(l) => l.isOn
    case LightOffCommand(l) => l.isOn
    case TVOnCommand(t) => t.isOn
    case TVOffCommand(t) => t.isOn
  }

  /** Whether Execute switches the receiver on. */
  predicate SwitchesOn(c: Command) {
    c.LightOnCommand? || c.TVOnCommand?
  }

  /** The line a receiver prints when switched to `on`. */
  function SwitchLine(c: Command, on: bool): string {
    if c.LightOnCommand? || c.LightOffCommand? then (if on then LightOnLine else LightOffLine)
    else (if on then TVOnLine else TVOffLine)
  }

  /** The command for the same receiver that does the opposite. */
  function Opposite(c: Command): (o: Command)
    ensures Target(o) == Target(c) && SwitchesOn(o) == !SwitchesOn(c)
  {
    match c
    case LightOnCommand(l) => LightOffCommand(l)
    case LightOffCommand(l) => LightOnCommand(l)
    case TVOnCommand(t) => TVOffCommand(t)
    case TVOffCommand(t) => TVOnCommand(t)
  }

  /** Undo of a command does what Execute of its opposite does: same receiver, same line, the
      other way round; and taking the opposite twice gives the command back. */
  lemma {:induction false} UndoIsOpposite(c: Command)
    ensures Opposite(Opposite(c)) == c
    ensures SwitchLine(Opposite(c), SwitchesOn(Opposite(c))) == SwitchLine(c, !SwitchesOn(c))
    ensures SwitchLine(c, true) != SwitchLine(c, false)
  {
  }

  /** Command.Execute */
  method Execute(c: Command, console: Console)
    modifies Target(c), console
    ensures IsOn(c) == SwitchesOn(c)
    ensures console.lines == old(console.lines) + [SwitchLine(c, SwitchesOn(c))]
  {
    match c
    case LightOnCommand(l) => l.On(console);
    case LightOffCommand(l) => l.Off(console);
    case TVOnCommand(t) => t.On(console);
    case TVOffCommand(t) => t.Off(console);
  }

  /** Command.Undo */
  method Undo(c: Command, console: Console)
    modifies Target(c), console
    ensures IsOn(c) == !SwitchesOn(c)
    ensures console.lines == old(console.lines) + [SwitchLine(c, !SwitchesOn(c))]
  {
    match c
    case LightOnCommand(l) => l.Off(console);
    case LightOffCommand(l) => l.On(console);
    case TVOnCommand(t) => t.Off(console);
    case TVOffCommand(t) => t.On(console);
  }

  class RemoteControlInvoker {
    const onCommands: array<Option<Command>>
    const offCommands: array<Option<Command>>
    var undoCommand: Option<Command>

    ghost predicate Valid()
      reads this
    {
      onCommands.Length == 2 && offCommands.Length == 2 && onCommands != offCommands
    }

    /** NewRemoteControlInvoker: two empty slots on each side, nothing to undo. */
    constructor ()
      ensures Valid() && fresh(onCommands) && fresh(offCommands)
      ensures onCommands[..] == [None, None] && offCommands[..] == [None, None] && undoCommand == None
    {
      onCommands := new Option<Command>[2](_ => None);
      offCommands := new Option<Command>[2](_ => None);
      undoCommand := None;
    }

    method SetCommand(slot: int, onCommand: Option<Command>, offCommand: Option<Command>)
      requires Valid() && 0 <= slot < 2
      modifies onCommands, offCommands
      ensures Valid()
      ensures onCommands[..] == old(onCommands[..])[slot := onCommand]
      ensures offCommands[..] == old(offCommands[..])[slot := offCommand]
    {
      onCommands[slot] := onCommand;
      offCommands[slot] := offCommand;
    }

    method PressOnButton(slot: int, console: Console)
      requires Valid() && 0 <= slot < 2 && onCommands[slot].Some?
      modifies this, console, Target(onCommands[slot].value)
      ensures Valid() && undoCommand == old(onCommands[slot])
      ensures IsOn(undoCommand.value) == SwitchesOn(undoCommand.value)
      ensures console.lines == old(console.lines) + [SwitchLine(undoCommand.value, SwitchesOn(undoCommand.value))]
    {
      var c := onCommands[slot].value;
      Execute(c, console);
      undoCommand := Some(c);
    }

    method PressOffButton(slot: int, console: Console)
      requires Valid() && 0 <= slot < 2 && offCommands[slot].Some?
      modifies this, console, Target(offCommands[slot].value)
      ensures Valid() && undoCommand == old(offCommands[slot])
      ensures IsOn(undoCommand.value) == SwitchesOn(undoCommand.value)
      ensures console.lines == old(console.lines) + [SwitchLine(undoCommand.value, SwitchesOn(undoCommand.value))]
    {
      var c := offCommands[slot].value;
      Execute(c, console);
      undoCommand := Some(c);
    }

    /** Undoes the last pressed command and keeps it, so pressing again undoes it again. */
    method PressUndoButton(console: Console)
      requires undoCommand.Some?
      modifies console, Target(undoCommand.value)
      ensures IsOn(undoCommand.value) == !SwitchesOn(undoCommand.value)
      ensures console.lines == old(console.lines) + [SwitchLine(undoCommand.value, !SwitchesOn(undoCommand.value))]
    {
      Undo(undoCommand.value, console);
    }
  }

  /** A light-on command pressed and then undone leaves the light off, whatever it was before,
      and a second undo prints "Свет выключен" again. */
  method OnThenUndoTwice(r: RemoteControlInvoker, slot: int, light: LightReceiver, console: Console)
    requires r.Valid() && 0 <= slot < 2 && r.onCommands[slot] == Some(LightOnCommand(light))
    modifies r, console, light
    ensures !light.isOn
    ensures console.lines == old(console.lines) + [LightOnLine, LightOffLine, LightOffLine]
  {
    r.PressOnButton(slot, console);
    r.PressUndoButton(console);
    r.PressUndoButton(console);
  }
}
