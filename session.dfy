/** The session both service variants keep: an optional handle to the XSCT
    subprocess (absent = Closed, present = Open) and, as ghost history, every
    call the service made on the process API. */
module Session {

  /** The environment variable that names the XSCT executable. */
  const XilinxPathKey := "XilinxPath"

  datatype Option<T> = None | Some(value: T)

  /** A handle to a started OS process, identified by its process id. */
  datatype Handle = Handle(pid: nat)

  /** One call into the process API:
      Spawn(r)    Process.Start, which returned r (None when it returned null);
      Write(h, l) a line written to h's standard input, then its output read;
      Close(h)    h.Close(), which releases the handle; it does not
                  terminate the OS process. */
  datatype Event = Spawn(result: Option<Handle>) | Write(handle: Handle, line: string) | Close(handle: Handle)

  /** The handle still open after the calls in `t`. */
  ghost function Live(t: seq<Event>): Option<Handle> {
    if t == [] then None
    else match t[|t| - 1]
      case Spawn(r) => r
      case Write(_, _) => Live(t[..|t| - 1])
      case Close(_) => None
  }

  /** Whether event `e` is a legal call when `live` is the open handle:
      a process is started only when none is open, and only the open
      process is written to or closed. */
  predicate Legal(live: Option<Handle>, e: Event) {
    match e
    case Spawn(_) => live == None
    case Write(h, _) => live == Some(h)
    case Close(h) => live == Some(h)
  }

  /** Every call in `t` was legal when it was made. */
  ghost predicate WellFormed(t: seq<Event>) {
    t == [] || (WellFormed(t[..|t| - 1]) && Legal(Live(t[..|t| - 1]), t[|t| - 1]))
  }

  /** Number of handles Process.Start actually returned. */
  ghost function Started(t: seq<Event>): nat {
    if t == [] then 0
    else Started(t[..|t| - 1]) + (if t[|t| - 1].Spawn? && t[|t| - 1].result.Some? then 1 else 0)
  }

  /** Number of handles released by Close. */
  ghost function Released(t: seq<Event>): nat {
    if t == [] then 0
    else Released(t[..|t| - 1]) + (if t[|t| - 1].Close? then 1 else 0)
  }

  /** A legal call extends a well-formed history to a well-formed one. */
  lemma ExtendWellFormed(t: seq<Event>, e: Event)
    requires WellFormed(t) && Legal(Live(t), e)
    ensures WellFormed(t + [e])
    ensures Live(t + [e]) == match e
      case Spawn(r) => r
      case Write(_, _) => Live(t)
      case Close(_) => None
  {
    assert (t + [e])[..|t + [e]| - 1] == t;
  }

  /** At most one process handle is held at a time: every handle started
      has been released, except the open one when there is one. */
  lemma {:induction false} AtMostOneHandleHeld(t: seq<Event>)
    requires WellFormed(t)
    ensures Started(t) == Released(t) + (if Live(t).Some? then 1 else 0)
  {
    if t != [] {
      AtMostOneHandleHeld(t[..|t| - 1]);
    }
  }
}
