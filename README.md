# XSCT console proxy: session state machine

This project models the process-proxy core of a gRPC server. The server
gives remote callers access to one Xilinx XSCT console, which is an
interactive vendor shell running as a subprocess. Each service instance
owns one optional process handle (`_process`). When the handle is absent
the console is **Closed**; when it is present the console is **Open**.
Each RPC does one of four things: it starts the process, releases its
handle, answers with a status or help text, or writes a line to the process and
returns what the process printed.

The source has two variants of the service, and both are modelled:

- `XilinxService` (module `XilinxService`, file `xilinx_service.dfy`) has
  three RPCs: `Open`, `Close` and `SendCommand`.
- `XilinxsService` (module `XilinxsService`, file `xilinxs_service.dfy`)
  has one `SendCommand`. It recognises `help`, `open` and `close` in any
  letter case and forwards everything else.

Each service is a Dafny `class` with these members:

- the configured executable `fileName`;
- the platform line separator `newLine`;
- the mutable handle `process: Option<Handle>`;
- a ghost `trace` of every call made on the process API. The calls are
  `Spawn(result)`, `Write(handle, line)` and `Close(handle)`.

The class invariant `Valid()` says two things. Every recorded call was
legal when it was made: a process is started only while none is open,
and only the open process is written to or closed. The handle is also
exactly the process that the trace leaves open. Every method's
postcondition gives the exact reply string and the new handle, and it
gives the new trace. So "no process is started" and "no process is
touched" are stated as `trace == old(trace)`.

The operating-system process is an oracle:

- `started: Option<Handle>` is what `Process.Start` returned. `None`
  stands for a null return.
- `output: string` is what `StandardOutput.ReadToEnd` returned.

Shared pieces:

- `text.dfy` (module `Text`) holds ASCII case mapping, which stands in
  for `ToLower` and `ToUpperInvariant`. It also holds ordinal `String.Replace`.
- `session.dfy` (module `Session`) holds the handle, the event trace,
  `Live`, `WellFormed` and the theorem that at most one process handle
  is held at a time.
- `messages.dfy` (module `Messages`) holds the `CheckStatus` and `Log`
  replies, the spawn-failure reply and the help text.

The two source files define `CheckStatus` and `Log` identically
(Grpc.Server/Services/XilinxService.cs:140-151 and
Grpc.Server/Services/XilinxsService.cs:123-131), so the model defines
them once.

Facts about the code that the model keeps:

- The not-open replies differ between the variants: "The XSCT console
  closed." (Grpc.Server/Services/XilinxService.cs:61, which removes
  "is already ") and "The XSCT console is closed."
  (Grpc.Server/Services/XilinxsService.cs:107, which removes only
  "already ").
- The help listing documents `close`, `open` and `<cmd>`. It does not
  document `help` itself.
- `_process.Close()` releases the process handle; it does not terminate
  the XSCT process.

## Model

| member | source | states |
|---|---|---|
| `Text.Lower` | Grpc.Server/Services/XilinxsService.cs:62 | the lower-cased command has the same length as the command, and each character is the ASCII lower case of the character in the same place |
| `Text.Upper` | Grpc.Server/Services/XilinxsService.cs:90 | the upper-cased command has the same length as the command, and each character is the ASCII upper case of the character in the same place |
| `Text.LowerIdempotent` | Grpc.Server/Services/XilinxsService.cs:62 | lower-casing an already lower-cased command changes nothing |
| `Text.LowerOfUpper` | Grpc.Server/Services/XilinxsService.cs:62 | lower-casing an upper-cased command gives the same result as lower-casing the original |
| `Text.UpperOfLower` | Grpc.Server/Services/XilinxsService.cs:90 | upper-casing a lower-cased command gives the same result as upper-casing the original |
| `Text.ReplaceAbsent` | Grpc.Server/Services/XilinxService.cs:61 | `Replace` leaves a text with no occurrence of the pattern unchanged |
| `Text.ReplaceFirst` | Grpc.Server/Services/XilinxService.cs:61 | in `a + pat + b`, where no occurrence starts inside `a`, `Replace` keeps `a`, puts the replacement in place of that occurrence and continues on `b` alone |
| `Messages.CheckStatusText` | Grpc.Server/Services/XilinxService.cs:148-151 | the two status replies are exactly "The XSCT console is already opened." and "The XSCT console is already closed." |
| `Messages.LogNamesAction` | Grpc.Server/Services/XilinxService.cs:140-145 | the confirmation is determined by, and determines, the name it is built from: different names give different confirmations |
| `Messages.LogMethodNames` | Grpc.Server/Services/XilinxService.cs:140-145 | the separate-method service's confirmations are exactly "Opening the XSCT console" and "Closeing the XSCT console" |
| `Messages.LogKeywordsInCapitals` | Grpc.Server/Services/XilinxsService.cs:123-128 | the keyword service's confirmations are exactly "OPENing the XSCT console" and "CLOSEing the XSCT console" |
| `Messages.NotOpenDropAlready` | Grpc.Server/Services/XilinxsService.cs:107 | removing "already " from the closed status gives exactly "The XSCT console is closed." |
| `Messages.NotOpenDropIsAlready` | Grpc.Server/Services/XilinxService.cs:61 | removing "is already " from the closed status gives exactly "The XSCT console closed." |
| `Messages.NotOpenVariantsDiffer` | Grpc.Server/Services/XilinxService.cs:58-62 | the two services' not-open replies differ from each other, and each differs from the already-closed status |
| `Messages.SpawnFailureNamesPath` | Grpc.Server/Services/XilinxService.cs:97 | the spawn-failure reply embeds the configured executable path, so different paths give different replies |
| `Session.ExtendWellFormed` | Grpc.Server/Services/XilinxService.cs:86-130 | a legal call keeps the history well formed: after a spawn, the open handle is the spawn's result; after a write, it is unchanged; after a close, there is none |
| `Session.AtMostOneHandleHeld` | Grpc.Server/Services/XilinxService.cs:86-130 | in any legal history, the handles started equal the handles released plus one exactly when a handle is open, so at most one process handle is held at a time |
| `XilinxService.XilinxService.constructor` | Grpc.Server/Services/XilinxService.cs:27-43 | the service needs "XilinxPath" in the environment, takes its value as the executable and starts Closed with no process calls |
| `XilinxService.XilinxService.SendCommand` | Grpc.Server/Services/XilinxService.cs:56-74 | while Closed: the reply is "The XSCT console closed." and no process is touched. While Open: the command is written to the process, the reply is exactly its output, and the handle is unchanged |
| `XilinxService.XilinxService.Open` | Grpc.Server/Services/XilinxService.cs:84-110 | while Open: the reply is "The XSCT console is already opened." and nothing changes. While Closed: one start attempt is made and its result becomes the handle. The reply is "Opening the XSCT console" on success, or the spawn-failure reply naming the path on failure, which leaves the console Closed |
| `XilinxService.XilinxService.Close` | Grpc.Server/Services/XilinxService.cs:120-137 | the console ends Closed. While Closed, the reply is "The XSCT console is already closed." and nothing is touched. While Open, the open handle is released and the reply is "Closeing the XSCT console" |
| `XilinxsService.ClassifyIgnoresCase` | Grpc.Server/Services/XilinxsService.cs:62 | the keyword switch gives the same arm for a command, its lower-cased form and its upper-cased form |
| `XilinxsService.KeywordInCapitals` | Grpc.Server/Services/XilinxsService.cs:90 | a command taken as `open` or `close` upper-cases to exactly "OPEN" or "CLOSE" |
| `XilinxsService.SampleCommands` | Grpc.Server/Services/XilinxsService.cs:62-103 | "HeLp", "Open" and "close" take the `help`, `open` and `close` arms whatever their letter case, and "pwd" takes the `default:` arm |
| `XilinxsService.XilinxsService.constructor` | Grpc.Server/Services/XilinxsService.cs:27-43 | the service needs "XilinxPath" in the environment, takes its value as the executable and starts Closed with no process calls |
| `XilinxsService.XilinxsService.SendCommand` | Grpc.Server/Services/XilinxsService.cs:56-120 | `help` while Closed: the help listing, with nothing touched. `help` or any non-keyword while Open: forwarded, and the reply is the process output. `open` while Open: the already-opened status. `open` while Closed: one start attempt, and "OPENing the XSCT console" or the spawn-failure reply. `close` while Closed: the already-closed status. `close` while Open: the handle is released and the reply is "CLOSEing the XSCT console". A non-keyword while Closed: "The XSCT console is closed." |
| `XilinxsService.XilinxsService.Default` | Grpc.Server/Services/XilinxsService.cs:103-112 | the `default:` arm: while Closed, the reply is "The XSCT console is closed." and nothing is touched. While Open, the command is written, the reply is the output, and the handle is unchanged |

## Left out

- Process start, standard-input writes and the blocking `ReadToEnd` are operating-system I/O. The model replaces them with the `started` and `output` parameters and the ghost trace.
- `Process.Start` throwing an exception (which .NET does for a missing executable) is not modelled. Only the code's null-return path is, as the spawn-failure reply.
- The `ProcessStartInfo` redirection flags are not modelled. Only the executable path is kept.
- The `Process` object's own state is not modelled. Writes and closes are recorded in the service's trace instead.
- `Process.Close()` releases the handle without killing the OS process, so Close followed by Open can leave two XSCT processes running. The model tracks handles held by the service, not processes alive in the operating system.
- Exceptions thrown by `StandardInput.WriteLine` and `ReadToEnd` are not modelled. For example, a write after the process has exited throws, and the service then stays Open; the model's forwarding always returns the `output` parameter.
- `Environment.NewLine` is a constructor parameter.
- The environment-variable read is a constructor argument `environment: map<string, string>`. A missing "XilinxPath" is a precondition, not the `NullReferenceException` the constructor throws.
- The `ILogger` calls (`LogDebug`, `LogInformation`, `LogError`) are side effects only and are left out. The strings they log are the replies that are modelled.
- `MethodBase.GetCurrentMethod().Name` is written as the method's own name, "Open" or "Close".
- Culture-sensitive `ToLower` is modelled as ASCII lower-casing, and `ToUpperInvariant` as ASCII upper-casing. The three keywords contain no letter with a culture-specific mapping, but non-ASCII characters elsewhere in a command are kept as they are.
- A null `Command` is not modelled. Protobuf strings are never null, so the `?.` path cannot occur.
- `Task.FromResult` wrapping, the `[Authorize]` attributes, JWT authentication, the host bootstrap (Grpc.Server/Program.cs, Grpc.Server/Startup.cs, Grpc.Server/Extensions/ServiceCollectionExtensions.cs) and the console client (Grpc.Client) are not part of this model.
- Concurrency is not modelled. `_process` is not locked in the source, and the model treats calls as one sequential series per service instance.
