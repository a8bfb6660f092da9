/** The separate-method service: `Open`, `Close` and `SendCommand` are three
    RPCs over one optional XSCT process. */
module XilinxService {
  import opened Text
  import opened Messages
  import opened Session

  class XilinxService {
    /** The configured executable (`_psi.FileName`). */
    const fileName: string
    /** The platform's line separator (`Environment.NewLine`). */
    const newLine: string
    /** `_process`: None while the console is closed. */
    var process: Option<Handle>
    /** Every call this service made on the process API, oldest first. */
    ghost var trace: seq<Event>

    /** The handle is the process still open after the recorded calls,
        and every recorded call was legal when it was made. */
    ghost predicate Valid()
      reads this
    {
      WellFormed(trace) && process == Live(trace)
    }

    /** Reads the executable path from the environment; the service cannot
        be built without it. Starts closed, having made no process call. */
    constructor (environment: map<string, string>, newLine: string)
      requires XilinxPathKey in environment
      ensures Valid()
      ensures fileName == environment[XilinxPathKey] && this.newLine == newLine
      ensures process == None && trace == []
    {
      fileName := environment[XilinxPathKey];
      this.newLine := newLine;
      process := None;
      trace := [];
    }

    /** Forwards `command` to the open process and replies with what the
        process printed (`output`, the result of ReadToEnd). While closed,
        replies with the not-open status and touches no process. */
    method SendCommand(command: string, output: string) returns (message: string)
      requires Valid()
      modifies this
      ensures Valid() && process == old(process)
      ensures old(process) == None ==>
        message == "The XSCT console closed." && trace == old(trace)
      ensures old(process).Some? ==>
        message == output && trace == old(trace) + [Write(old(process).value, command)]
    {
      if process == None {
        message := Replace(CheckStatus(false), "is already ", "");
        NotOpenDropIsAlready();
        return;
      }
      ExtendWellFormed(trace, Write(process.value, command));
      trace := trace + [Write(process.value, command)];
      message := output;
    }

    /** Starts the process unless one is open. `started` is what
        Process.Start returned: None leaves the console closed with the
        spawn-failure reply, and nothing of the failure is kept. */
    method Open(started: Option<Handle>) returns (message: string)
      requires Valid()
      modifies this
      ensures Valid()
      ensures old(process).Some? ==>
        message == "The XSCT console is already opened." && process == old(process) && trace == old(trace)
      ensures old(process) == None ==>
        process == started && trace == old(trace) + [Spawn(started)]
      ensures old(process) == None && started.Some? ==> message == "Opening the XSCT console"
      ensures old(process) == None && started == None ==> message == SpawnFailure(fileName, newLine)
    {
      if process != None {
        CheckStatusText();
        return CheckStatus(true);
      }
      ExtendWellFormed(trace, Spawn(started));
      process := started;
      trace := trace + [Spawn(started)];
      if process == None {
        message := SpawnFailure(fileName, newLine);
      } else {
        // the reply is built from this method's own name
        message := Log("Open");
        LogMethodNames();
      }
    }

    /** Releases the open process handle (Process.Close, which does not
        terminate the process); while closed, replies with the
        already-closed status and changes nothing. */
    method Close() returns (message: string)
      requires Valid()
      modifies this
      ensures Valid() && process == None
      ensures old(process) == None ==>
        message == "The XSCT console is already closed." && trace == old(trace)
      ensures old(process).Some? ==>
        message == "Closeing the XSCT console" && trace == old(trace) + [Event.Close(old(process).value)]
    {
      if process == None {
        CheckStatusText();
        return CheckStatus(false);
      }
      // the reply is built from this method's own name
      message := Log("Close");
      LogMethodNames();
      ExtendWellFormed(trace, Event.Close(process.value));
      trace := trace + [Event.Close(process.value)];
      process := None;
    }
  }

  /** A session on a fresh service, as a caller sees it: open, open again,
      close, then a command that finds the console closed. */
  method OpenTwiceThenClose(environment: map<string, string>, newLine: string, h: Handle, h': Handle, output: string)
    requires XilinxPathKey in environment
  {
    var service := new XilinxService(environment, newLine);
    var m := service.Open(Some(h));
    assert m == "Opening the XSCT console";
    m := service.Open(Some(h'));
    assert m == "The XSCT console is already opened." && service.process == Some(h);
    m := service.SendCommand("connect", output);
    assert m == output;
    m := service.Close();
    assert m == "Closeing the XSCT console";
    m := service.SendCommand("connect", output);
    assert m == "The XSCT console closed.";
    AtMostOneHandleHeld(service.trace);
    assert Started(service.trace) == Released(service.trace);
  }

  /** A failed start is not remembered: the next Open starts a process again. */
  method RetryAfterSpawnFailure(environment: map<string, string>, newLine: string, h: Handle)
    requires XilinxPathKey in environment
  {
    var service := new XilinxService(environment, newLine);
    var m := service.Open(None);
    assert m == SpawnFailure(environment[XilinxPathKey], newLine) && service.process == None;
    m := service.Open(Some(h));
    assert m == "Opening the XSCT console" && service.process == Some(h);
    assert service.trace == [Spawn(None), Spawn(Some(h))];
  }
}
