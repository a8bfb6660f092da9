/** The replies both services build themselves, as opposed to the output
    they pass through from the XSCT process. */
module Messages {
  import opened Text

  /** `CheckStatus(isOpening)`: the reply for an Open when already open
      (true) and for a Close when already closed (false). */
  function CheckStatus(isOpening: bool): string {
    "The XSCT console is already " + (if isOpening then "open" else "clos") + "ed."
  }

  /** `Log(methodName)`: the confirmation for a successful open or close,
      built from the name it is given. */
  function Log(methodName: string): string {
    methodName + "ing the XSCT console"
  }

  /** The reply when Process.Start gives no process for the configured
      executable `fileName`; `newLine` is the platform's line separator. */
  function SpawnFailure(fileName: string, newLine: string): string {
    "Unable to start the '" + fileName + "' process." + newLine + "Check the file name to ensure it exists."
  }

  /** The help listing returned for `help` while the console is closed. */
  const HelpText: string :=
    "Available Help Commands\n\nclose         - Closes the remote Xilinx process.\nopen          - Opens the remote Xilinx process.\n<cmd>         - Xilinx command to send.  [Xilinx process must already be opened]\n"

  /** The two status replies, word for word. */
  lemma CheckStatusText()
    ensures CheckStatus(true) == "The XSCT console is already opened."
    ensures CheckStatus(false) == "The XSCT console is already closed."
  {
  }

  /** The confirmation names what was done: different names give
      different confirmations. */
  lemma LogNamesAction(p: string, q: string)
    requires Log(p) == Log(q)
    ensures p == q
  {
    assert |p| == |q|;
    assert Log(p)[..|p|] == p;
    assert Log(q)[..|q|] == q;
  }

  /** The confirmations the separate-method service builds from its method
      names: note the spelling "Closeing". */
  lemma LogMethodNames()
    ensures Log("Open") == "Opening the XSCT console"
    ensures Log("Close") == "Closeing the XSCT console"
  {
  }

  /** The confirmations the keyword service builds from the command in
      capitals. */
  lemma LogKeywordsInCapitals()
    ensures Log("OPEN") == "OPENing the XSCT console"
    ensures Log("CLOSE") == "CLOSEing the XSCT console"
  {
  }

  /** No occurrence of `pat` starts inside `a` when `a` lacks pat's first character. */
  lemma NoOccurrenceBefore(a: string, pat: string, b: string)
    requires |pat| > 0
    requires forall j :: 0 <= j < |a| ==> a[j] != pat[0]
    ensures forall i :: 0 <= i < |a| ==> !OccursAt(a + pat + b, pat, i)
  {
    forall i | 0 <= i < |a| ensures !OccursAt(a + pat + b, pat, i) {
      var s := a + pat + b;
      assert s[i] == a[i];
      if i + |pat| <= |s| {
        assert s[i..i + |pat|][0] == s[i];
      }
    }
  }

  /** Deleting the first occurrence of `pat`, when `a` lacks pat's first
      character, keeps `a` and goes on with the tail `b`. */
  lemma DeleteFirst(a: string, pat: string, b: string)
    requires |pat| > 0
    requires forall j :: 0 <= j < |a| ==> a[j] != pat[0]
    ensures Replace(a + pat + b, pat, "") == a + Replace(b, pat, "")
  {
    NoOccurrenceBefore(a, pat, b);
    ReplaceFirst(a, pat, b, "");
    assert a + "" == a;
  }

  /** Deleting the only occurrence of `pat`, when `a` lacks pat's first
      character and the tail `b` is too short to hold another. */
  lemma DropOnly(a: string, pat: string, b: string)
    requires |pat| > |b|
    requires forall j :: 0 <= j < |a| ==> a[j] != pat[0]
    ensures Replace(a + pat + b, pat, "") == a + b
  {
    DeleteFirst(a, pat, b);
    assert Replace(b, pat, "") == b;
  }

  /** The already-closed status cut around "already ". */
  lemma ClosedStatusAroundAlready()
    ensures CheckStatus(false) == "The XSCT console is " + "already " + "closed."
  {
  }

  /** The already-closed status cut around "is already ". */
  lemma ClosedStatusAroundIsAlready()
    ensures CheckStatus(false) == "The XSCT console " + "is already " + "closed."
  {
  }

  /** Dropping "already " from the already-closed status, as the keyword
      service does for a command sent while closed. */
  lemma NotOpenDropAlready()
    ensures Replace(CheckStatus(false), "already ", "") == "The XSCT console is closed."
  {
    ClosedStatusAroundAlready();
    DropOnly("The XSCT console is ", "already ", "closed.");
    assert "The XSCT console is " + "closed." == "The XSCT console is closed.";
  }

  /** Dropping "is already " from the already-closed status, as the
      separate-method service does for a command sent while closed. */
  lemma NotOpenDropIsAlready()
    ensures Replace(CheckStatus(false), "is already ", "") == "The XSCT console closed."
  {
    ClosedStatusAroundIsAlready();
    DropOnly("The XSCT console ", "is already ", "closed.");
    assert "The XSCT console " + "closed." == "The XSCT console closed.";
  }

  /** The two services answer a command sent while closed differently,
      and neither answer is the already-closed status. */
  lemma NotOpenVariantsDiffer()
    ensures Replace(CheckStatus(false), "already ", "") != Replace(CheckStatus(false), "is already ", "")
    ensures Replace(CheckStatus(false), "already ", "") != CheckStatus(false)
    ensures Replace(CheckStatus(false), "is already ", "") != CheckStatus(false)
  {
    NotOpenDropAlready();
    NotOpenDropIsAlready();
    CheckStatusText();
  }

  /** The spawn-failure reply names the configured executable: different
      paths give different replies. */
  lemma SpawnFailureNamesPath(p: string, q: string, newLine: string)
    requires SpawnFailure(p, newLine) == SpawnFailure(q, newLine)
    ensures p == q
  {
    var m := SpawnFailure(p, newLine);
    assert |p| == |q|;
    assert m[21..21 + |p|] == p;
    assert SpawnFailure(q, newLine)[21..21 + |q|] == q;
  }
}
