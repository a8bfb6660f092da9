/** The keyword service: one `SendCommand` RPC whose command, in any letter
    case, may be `help`, `open` or `close`; anything else is forwarded to
    the XSCT process. */
module XilinxsService {
  import opened Text
  import opened Messages
  import opened Session

  /** The arm of the command switch a command takes. */
  datatype Keyword = HelpKeyword | OpenKeyword | CloseKeyword | Passthrough

  /** The switch on the lower-cased command. */
  function Classify(command: string): Keyword {
    var lower := Lower(command);
    if lower == "help" then HelpKeyword
    else if lower == "open" then OpenKeyword
    else if lower == "close" then CloseKeyword
    else Passthrough
  }

  /** Letter case does not matter to the switch. */
  lemma ClassifyIgnoresCase(command: string)
    ensures Classify(Upper(command)) == Classify(command)
    ensures Classify(Lower(command)) == Classify(command)
  {
    LowerIdempotent(command);
    LowerOfUpper(command);
  }

  /** A command the switch takes for `open` or `close` upper-cases to that
      keyword in capitals, whatever its letter case. */
  lemma KeywordInCapitals(command: string)
    ensures Classify(command) == OpenKeyword ==> Upper(command) == "OPEN"
    ensures Classify(command) == CloseKeyword ==> Upper(command) == "CLOSE"
  {
    UpperOfLower(command);
  }

  class XilinxsService {
    /** The configured executable (`_psi.FileName`). */
    const fileName: string
    /** The platform's line separator (`Environment.NewLine`). */
    const newLine: string
    /** `_process`: None while the console is closed. */
    var process: Option<Handle>
    /** Every call this service made on the process API, oldest first. */
    ghost var trace: seq<Event>

    /** The handle is the process still open after the recorded calls,
        and every recorded call was legal when it was made. */
    ghost predicate Valid()
      reads this
    {
      WellFormed(trace) && process == Live(trace)
    }

    /** Reads the executable path from the environment; the service cannot
        be built without it. Starts closed, having made no process call. */
    constructor (environment: map<string, string>, newLine: string)
      requires XilinxPathKey in environment
      ensures Valid()
      ensures fileName == environment[XilinxPathKey] && this.newLine == newLine
      ensures process == None && trace == []
    {
      fileName := environment[XilinxPathKey];
      this.newLine := newLine;
      process := None;
      trace := [];
    }

    /** Routes one command. `started` is what Process.Start returns if the
        command starts the process; `output` is what ReadToEnd returns if
        the command is forwarded. */
    method SendCommand(command: string, started: Option<Handle>, output: string) returns (message: string)
      requires Valid()
      modifies this
      ensures Valid()
      // help while closed: the help listing, nothing touched
      ensures Classify(command) == HelpKeyword && old(process) == None ==>
        message == HelpText && process == None && trace == old(trace)
      // open while open: the already-opened status, nothing touched
      ensures Classify(command) == OpenKeyword && old(process).Some? ==>
        message == "The XSCT console is already opened." && process == old(process) && trace == old(trace)
      // open while closed: one start attempt, whose result becomes the handle
      ensures Classify(command) == OpenKeyword && old(process) == None ==>
        process == started && trace == old(trace) + [Spawn(started)] &&
        message == if started.Some? then "OPENing the XSCT console" else SpawnFailure(fileName, newLine)
      // close while closed: the already-closed status, nothing touched
      ensures Classify(command) == CloseKeyword && old(process) == None ==>
        message == "The XSCT console is already closed." && process == None && trace == old(trace)
      // close while open: the process handle is released
      ensures Classify(command) == CloseKeyword && old(process).Some? ==>
        message == "CLOSEing the XSCT console" && process == None &&
        trace == old(trace) + [Event.Close(old(process).value)]
      // any other command while closed: the not-open status, nothing touched
      ensures Classify(command) == Passthrough && old(process) == None ==>
        message == "The XSCT console is closed." && process == None && trace == old(trace)
      // any other command, or help, while open: forwarded, and the reply is the output
      ensures (Classify(command) == Passthrough || Classify(command) == HelpKeyword) && old(process).Some? ==>
        message == output && process == old(process) &&
        trace == old(trace) + [Write(old(process).value, command)]
    {
      KeywordInCapitals(command);
      LogKeywordsInCapitals();
      CheckStatusText();
      match Classify(command)
      case HelpKeyword =>
        if process == None {
          message := HelpText;
        } else {
          // `goto default`
          message := Default(command, output);
        }
      case OpenKeyword =>
        if process != None {
          message := CheckStatus(true);
        } else {
          ExtendWellFormed(trace, Spawn(started));
          process := started;
          trace := trace + [Spawn(started)];
          if process == None {
            message := SpawnFailure(fileName, newLine);
          } else {
            message := Log(Upper(command));
          }
        }
      case CloseKeyword =>
        if process == None {
          message := CheckStatus(false);
        } else {
          ExtendWellFormed(trace, Event.Close(process.value));
          trace := trace + [Event.Close(process.value)];
          process := None;
          message := Log(Upper(command));
        }
      case Passthrough =>
        message := Default(command, output);
    }

    /** The `default:` arm: the not-open status while closed, otherwise the
        command is written to the process and its output is the reply. */
    method Default(command: string, output: string) returns (message: string)
      requires Valid()
      modifies this
      ensures Valid() && process == old(process)
      ensures old(process) == None ==>
        message == "The XSCT console is closed." && trace == old(trace)
      ensures old(process).Some? ==>
        message == output && trace == old(trace) + [Write(old(process).value, command)]
    {
      if process == None {
        message := Replace(CheckStatus(false), "already ", "");
        NotOpenDropAlready();
        return;
      }
      ExtendWellFormed(trace, Write(process.value, command));
      trace := trace + [Write(process.value, command)];
      message := output;
    }
  }

  /** How the switch takes some commands: letter case does not matter. */
  lemma SampleCommands()
    ensures Classify("HeLp") == HelpKeyword
    ensures Classify("Open") == OpenKeyword
    ensures Classify("close") == CloseKeyword
    ensures Classify("pwd") == Passthrough
  {
    assert Lower("HeLp") == "help";
    assert Lower("Open") == "open";
    assert Lower("close") == "close";
    assert Lower("pwd") == "pwd";
  }

  /** `help` is special only while closed; `Open`, in any letter case,
      confirms in capitals. */
  method HelpThenOpen(environment: map<string, string>, newLine: string, h: Handle, output: string)
    requires XilinxPathKey in environment
  {
    SampleCommands();
    var service := new XilinxsService(environment, newLine);
    var m := service.SendCommand("HeLp", None, output);
    assert m == HelpText;
    m := service.SendCommand("Open", Some(h), output);
    assert m == "OPENing the XSCT console";
    m := service.SendCommand("HeLp", None, output);
    assert m == output;
    m := service.SendCommand("close", None, output);
    assert m == "CLOSEing the XSCT console" && service.process == None;
    m := service.SendCommand("pwd", None, output);
    assert m == "The XSCT console is closed.";
  }
}
