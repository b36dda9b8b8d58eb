/**
 * The logger chain of pattern/05_chain_of_resp.go: loggers linked through `next`, each of which
 * prints a prefixed line when a message has its own level and then hands the message on.
 * Printing appends a line to a console.
 */
module Logging {
  /** The log levels, numbered as in the source. */
  const INFO: int := 0
  const WARN: int := 1
  const ERROR: int := 2

  /** The three concrete loggers. */
  datatype Kind = InfoLogger | WarnLogger | ErrorLogger

  /** The level a logger reacts to. */
  function Level(k: Kind): int {
    match k
    case InfoLogger => INFO
    case WarnLogger => WARN
    case ErrorLogger => ERROR
  }

  /** The line a logger prints for `message` ("%s: %s" without the newline). */
  function Line(k: Kind, message: string): string {
    match k
    case InfoLogger => "INFO: " + message
    case WarnLogger => "WARN: " + message
    case ErrorLogger => "ERROR: " + message
  }

  /** The logger that reacts to a known level. */
  function KindFor(level: int): (k: Kind)
    requires INFO <= level <= ERROR
    ensures Level(k) == level
  {
    if level == INFO then InfoLogger else if level == WARN then WarnLogger else ErrorLogger
  }

  /** The lines a chain of loggers of these kinds prints for one message, head first. */
  function Output(kinds: seq<Kind>, level: int, message: string): seq<string>
    decreases |kinds|
  {
    if kinds == [] then []
    else (if Level(kinds[0]) == level then [Line(kinds[0], message)] else []) + Output(kinds[1..], level, message)
  }

  /** How many loggers of the chain react to `level`. */
  function Reacting(kinds: seq<Kind>, level: int): nat
    decreases |kinds|
  {
    if kinds == [] then 0 else (if Level(kinds[0]) == level then 1 else 0) + Reacting(kinds[1..], level)
  }

  /** One line per reacting logger, and every line is the one line format of the message's
      level; a level no logger knows prints nothing. */
  lemma {:induction false} OutputShape(kinds: seq<Kind>, level: int, message: string)
    ensures |Output(kinds, level, message)| == Reacting(kinds, level)
    ensures forall line :: line in Output(kinds, level, message) ==>
      INFO <= level <= ERROR && line == Line(KindFor(level), message)
    decreases |kinds|
  {
    if kinds != [] {
      OutputShape(kinds[1..], level, message);
      if Level(kinds[0]) == level {
        assert KindFor(level) == kinds[0];
      }
    }
  }

  /** Linking a chain `b` behind the last logger of chain `a` prints what `a` prints and then
      what `b` prints. */
  lemma {:induction false} OutputAppend(a: seq<Kind>, b: seq<Kind>, level: int, message: string)
    ensures Output(a + b, level, message) == Output(a, level, message) + Output(b, level, message)
    decreases |a|
  {
    if a == [] {
      assert a + b == b;
    } else {
      assert (a + b)[0] == a[0] && (a + b)[1..] == a[1..] + b;
      OutputAppend(a[1..], b, level, message);
    }
  }

  /** The chain INFO -> WARN -> ERROR prints every known level exactly once and an unknown level
      not at all. */
  lemma {:induction false} StandardChain(level: int, message: string)
    ensures Output([InfoLogger, WarnLogger, ErrorLogger], level, message)
      == if INFO <= level <= ERROR then [Line(KindFor(level), message)] else []
  {
    var s := [InfoLogger, WarnLogger, ErrorLogger];
    assert s[1..] == [WarnLogger, ErrorLogger] && s[1..][1..] == [ErrorLogger] && s[1..][1..][1..] == [];
  }

  /** Standard output. */
  class Console {
    var lines: seq<string>

    constructor ()
      ensures lines == []
    {
      lines := [];
    }
  }

  class Logger {
    const kind: Kind
    var next: Logger?

    constructor (kind: Kind)
      ensures this.kind == kind && next == null
    {
      this.kind := kind;
      next := null;
    }

    /** BaseLogger.SetNext: replaces the successor. */
    method SetNext(logger: Logger?)
      modifies this
      ensures next == logger
    {
      next := logger;
    }

    /** BaseLogger.LogNext: hands the message to the successor, or does nothing at the end of
        the chain. `rest` is the chain after this logger. */
    method LogNext(level: int, message: string, console: Console, ghost rest: seq<Logger>)
      requires IsChain(next, rest)
      modifies console
      ensures console.lines == old(console.lines) + Output(Kinds(rest), level, message)
      decreases |rest| + 1, 0
    {
      if next != null {
        next.LogMessage(level, message, console, rest);
      }
    }

    /** Info/Warn/ErrorLogger.LogMessage: prints when the level is this logger's own, then
        always forwards. `nodes` is the chain from this logger on. */
    method LogMessage(level: int, message: string, console: Console, ghost nodes: seq<Logger>)
      requires IsChain(this, nodes)
      modifies console
      ensures console.lines == old(console.lines) + Output(Kinds(nodes), level, message)
      decreases |nodes|, 1
    {
      if level == Level(kind) {
        console.lines := console.lines + [Line(kind, message)];
      }
      assert Kinds(nodes)[0] == kind && Kinds(nodes)[1..] == Kinds(nodes[1..]);
      LogNext(level, message, console, nodes[1..]);
    }
  }

  /** `nodes` are the loggers reached from `l` by following `next`, in order, up to a logger
      without a successor. Such a finite list exists exactly when the chain has no cycle. */
  ghost predicate IsChain(l: Logger?, nodes: seq<Logger>)
    reads set n | n in nodes
    decreases |nodes|
  {
    if nodes == [] then l == null
    else l == nodes[0] && IsChain(nodes[0].next, nodes[1..])
  }

  /** The kinds of a list of loggers. */
  function Kinds(nodes: seq<Logger>): (ks: seq<Kind>)
    ensures |ks| == |nodes| && forall i :: 0 <= i < |nodes| ==> ks[i] == nodes[i].kind
  {
    seq(|nodes|, i requires 0 <= i < |nodes| => nodes[i].kind)
  }

  /** A usage example of SetNext, not code of the source: three fresh loggers linked
      INFO -> WARN -> ERROR, the order the level checks are written in. */
  method NewStandardChain() returns (head: Logger, ghost nodes: seq<Logger>)
    ensures IsChain(head, nodes) && Kinds(nodes) == [InfoLogger, WarnLogger, ErrorLogger]
    ensures forall n :: n in nodes ==> fresh(n)
  {
    var info := new Logger(InfoLogger);
    var warn := new Logger(WarnLogger);
    var error := new Logger(ErrorLogger);
    info.SetNext(warn);
    warn.SetNext(error);
    head, nodes := info, [info, warn, error];
    assert IsChain(error, [error]);
    assert nodes[1..] == [warn, error] && nodes[1..][1..] == [error];
    assert IsChain(warn, [warn, error]);
  }

  /** A usage example too: a message sent down a freshly linked INFO -> WARN -> ERROR chain
      is printed exactly once when its level is known, and not at all otherwise. */
  method LogThroughStandardChain(level: int, message: string, console: Console)
    modifies console
    ensures console.lines == old(console.lines)
      + if INFO <= level <= ERROR then [Line(KindFor(level), message)] else []
  {
    var head, nodes := NewStandardChain();
    StandardChain(level, message);
    head.LogMessage(level, message, console, nodes);
  }
}
