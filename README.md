# MagickLite in Dafny

A model of `MagickLite`, the PHP class that wraps the GraphicsMagick (`gm`)
and ImageMagick command-line tools. A handle binds one image, either as a
file path or as image data in memory. At construction the handle picks a
tool, probing the PATH at most once per process. Its operations then build
the argument vectors for `convert`, `composite` and `identify`. They run the
tool, decide from its exit status whether to throw, and keep the tool's
stdout as the new image when no output file is given. `identify` parses the
`%w %h %m` line the tool prints and caches the result on the handle.

The tools, the filesystem and PHP's shell escaping are not modelled. They
are fixed functions supplied by the host (class `Host.Runtime`), so the
model is exact about everything MagickLite decides itself, except what is
listed under "## Left out".

Modules:

- `Common`: `Option`, `Result`, `Outcome`, and the exceptions the class throws.
- `Php`: truthiness (`""` and `"0"` are false), the character classes of the
  PCRE patterns, and decimal digit strings.
- `Construction`: the constructor's argument checks, the `prefer` option and
  the choice of tool.
- `Commands`: the argument vectors, the source and destination tokens, and
  what is piped to stdin.
- `Exec`: exit-code reconciliation with the side-pipe workaround, and the
  error decision of `_proc_exec`.
- `IdentifyOutput`: the two identify patterns, written as a parser. Lemmas
  show that it accepts exactly the lines the patterns match. For the
  GraphicsMagick pattern, they show it returns the reading the greedy
  `(?: \d+)*` settles on.
- `Host`: class `Runtime`. It holds the host functions, the static probe
  caches `$found_gm` and `$found_im`, ghost probe counters, and a ghost log
  of every tool invocation.
- `Magick`: class `MagickLite`. Its fields are `file`, `data`,
  `identifyCache` and `useGm`. Its invariant says:
  - exactly one of `file` and `data` is set;
  - a cached identity equals what identifying the bound image would give.

Behaviour of the code that the model follows as written:

- The `prefer` pattern is `^(?:pm|im)$`, so the documented value `'gm'` is
  rejected (t/identify_prefer_gm.php passes it). Line 82 compares with
  `'gm'`, so every accepted explicit value puts ImageMagick first. The
  docblock at lib/MagickLite.class.php:42 documents `'gm'` (the default) or
  `'im'`, while line 75 accepts only `pm` and `im`; the model follows line 75.
- PCRE's `$` also matches before one final newline. So `type` `"file\n"`
  passes the pattern, but it fails the `== 'file'` comparison, and the path
  is bound as data.
- `"0"` is falsy:
  - a file named `"0"` is read from stdin;
  - data `"0"` is not piped;
  - `output_file` `"0"` or `""` sends the result to stdout, and the handle
    then discards it.
- When `proc_get_status` returns false, `$rc` is null. PHP's `null != 0` is
  false, so that run counts as a success.
- The ImageMagick magic group `\b.+\b` accepts spaces. So
  `"100 72 72 75 JPEG"` parses there as width 100, height 72, magic
  `"72 75 JPEG"`; GraphicsMagick's pattern gives (100, 75, `"JPEG"`).

## Model

| member | source | states |
|---|---|---|
| `Construction.Admit` | lib/MagickLite.class.php:49-79 | The checks run in the source's order. A non-string or empty first argument gives MissingSource. A `type` the pattern refuses gives BadKind. A file binding whose file does not exist gives FileNotFound. Success holds exactly when every check passes and `prefer` resolves. On success exactly one of file and data is bound: the file exactly when `type` is null or `'file'`. |
| `Construction.ResolvePreference` | lib/MagickLite.class.php:69-79 | GraphicsMagick comes first exactly when `prefer` is falsy. ImageMagick comes first exactly when `prefer` is a truthy string equal to `pm` or `im`, either optionally followed by one newline. Every other value gives BadPrefer. |
| `Construction.SelectTool` | lib/MagickLite.class.php:82-100 | No tool is chosen exactly when neither is found. A chosen tool was found. The preferred tool is chosen whenever it is found. |
| `Construction.GmPreferenceRejected` | lib/MagickLite.class.php:73-76 | `prefer` `'gm'` is rejected with BadPrefer. |
| `Construction.ExplicitPreferenceIsImFirst` | lib/MagickLite.class.php:69-90 | A resolved preference is GraphicsMagick-first exactly when `prefer` is falsy. `'pm'` gives ImageMagick-first and `'0'` gives GraphicsMagick-first. |
| `Construction.FileWithNewlineBindsData` | lib/MagickLite.class.php:56-67 | `type` `"file\n"` binds the first argument as data, with no file check. |
| `Host.Runtime.CheckExistsGm` | lib/MagickLite.class.php:110-118 | Returns whether `which gm` exits with 0. The answer is cached. The probe has run exactly once afterwards, and a call that finds a cached answer runs no probe. |
| `Host.Runtime.CheckExistsIm` | lib/MagickLite.class.php:126-134 | The same, for `which identify`. |
| `Host.ShellLine` | lib/MagickLite.class.php:148 | The shell line starts with `(`, the escaped program and a space. It ends with the redirection that points the command's descriptor 3 at /dev/null, so that only the trailing echo of the exit status reaches the side pipe. |
| `Host.Runtime.ProcExec` | lib/MagickLite.class.php:147-194 | Appends the invocation to the log. Returns the error decision made on the host's report of that run. |
| `Exec.SidePipeCode` | lib/MagickLite.class.php:182-183 | The side-pipe text yields a code exactly when it is an optional `-`, at least one digit, then only white space. The code is the signed decimal value of those digits. |
| `Exec.EchoedStatusRecovered` | lib/MagickLite.class.php:182-183 | The decimal form of any status, followed by any white space, reads back as that status. |
| `Exec.Reconcile` | lib/MagickLite.class.php:179-184 | The code is null exactly when there is no status. Otherwise it is the deciding report, or, only when that report is -1, the code parsed from the side pipe. |
| `Exec.Failed` | lib/MagickLite.class.php:185 | A run fails exactly unless its code is null or 0. |
| `Exec.ReconcileChoosesReport` | lib/MagickLite.class.php:179-184 | No status gives a null code that does not fail. A running status takes the `proc_close` value, and a finished one takes its exit code, each unless it is -1. Without a parsable side pipe the chosen value stands. When the deciding report is -1 and the side pipe parses, the parsed code is used. |
| `Exec.SidePipeRepairsMinusOne` | lib/MagickLite.class.php:180-184 | When the deciding report is -1 and the side pipe carries an echoed status, that status is the exit code. |
| `Exec.ExitMessage` | lib/MagickLite.class.php:186-193 | The message starts with `Bad exit code`. It ends with the stderr text when that is non-empty, and with `.` otherwise. |
| `Exec.ExecOutcome` | lib/MagickLite.class.php:157-194 | A run that failed to open throws SpawnFailed. A run succeeds exactly when it opened and its reconciled code does not fail, and then it returns the streams. Otherwise it throws BadExit with the code and its message. |
| `Commands.SourceToken` | lib/MagickLite.class.php:293-303 | A truthy bound file is named as it is. Otherwise the token is `-` exactly under GraphicsMagick and `-[0]` exactly under ImageMagick. |
| `Commands.DestinationToken` | lib/MagickLite.class.php:246-251 | A truthy `output_file` other than `-` is written after the optional `magic:` prefix. Otherwise `-` is. With a falsy magic there is no prefix. |
| `Commands.ConvertCommand` | lib/MagickLite.class.php:291-310 | Program `gm` or `convert`. The arguments are the subcommand (GM only), then the source token, the caller's options verbatim and in order, then the destination token. |
| `Commands.CompositeCommand` | lib/MagickLite.class.php:231-251 | Program `gm` or `composite`. The arguments are the subcommand (GM only), the options verbatim, then the change image, the source token and the destination token. |
| `Commands.IdentifyCommand` | lib/MagickLite.class.php:342-356 | Program `gm` or `identify`. The arguments are the subcommand (GM only), then `-format`, `%w %h %m` and the source token. |
| `Commands.Stdin` | lib/MagickLite.class.php:166-168 | Bound data is piped only when it is truthy. Otherwise nothing is. |
| `Commands.SubcommandIffGm` | lib/MagickLite.class.php:291-292 | For all three operations, the program is `gm` exactly under GraphicsMagick, and the first argument is then the operation's name. Otherwise the program is the operation's name. |
| `Commands.SourceTokenShared` | lib/MagickLite.class.php:293-303 | All three operations use the same source token: the bound file when truthy, else `-` under GM and `-[0]` under IM. |
| `Commands.StoredResultComesFromStdout` | lib/MagickLite.class.php:305-320 | A result kept by the handle never also goes to a file. Its destination is always stdout. |
| `Commands.FalsyOutputFileDiscarded` | lib/MagickLite.class.php:305-320 | `output_file` `""` or `"0"` sends the result to stdout, yet the handle does not keep it. |
| `Commands.FileNamedZeroReadsStdin` | lib/MagickLite.class.php:293-303 | A bound file named `"0"` makes the tool read stdin, and nothing is piped there. |
| `IdentifyOutput.Split` | lib/MagickLite.class.php:363 | An accepted line renders a reading the pattern admits: 1-5 digit width and height, numeric extra fields (GM only), and a magic without newlines that starts and ends with a word character. |
| `IdentifyOutput.ParseIdentify` | lib/MagickLite.class.php:363-368 | Parsing succeeds exactly when the pattern matches. Width and height are then at most 99999. |
| `IdentifyOutput.DimensionBound` | lib/MagickLite.class.php:366-367 | A 1-5 digit field denotes at most 99999. |
| `IdentifyOutput.ImReadingRecovered` | lib/MagickLite.class.php:363 | The IM parser accepts every line the IM pattern matches and returns the reading that line renders. |
| `IdentifyOutput.GmReadingGreediest` | lib/MagickLite.class.php:363 | The GM parser accepts every line the GM pattern matches. Its reading has at least as many extra fields as any other, and with as many it is that reading. |
| `IdentifyOutput.ReadingsAgree` | lib/MagickLite.class.php:363 | Two readings of one line with the same number of extra fields are equal. |
| `IdentifyOutput.MoreExtrasMeansSpacedMagic` | lib/MagickLite.class.php:363 | If a line has two GM readings, the one with fewer extra fields has a space in its magic. |
| `IdentifyOutput.GmHeightIsLastNumericField` | lib/MagickLite.class.php:363 | When the magic has no space, the GM height is the last all-digit field, and every field between width and height is skipped. |
| `IdentifyOutput.InteriorNewlineRejected` | lib/MagickLite.class.php:363-365 | A newline anywhere but at the very end makes the output unparsable. |
| `IdentifyOutput.GmSkipsExtraFields` | lib/MagickLite.class.php:363-368 | Under GM, `"100 72 72 75 JPEG"` parses to (100, 75, `"JPEG"`). |
| `IdentifyOutput.ImReadsExtraFieldsAsMagic` | lib/MagickLite.class.php:363-368 | Under IM, `"100 72 72 75 JPEG"` parses to (100, 72, `"72 75 JPEG"`). |
| `IdentifyOutput.FinalNewlineAccepted` | lib/MagickLite.class.php:363-368 | One final newline is allowed: `"640 480 PNG\n"` parses to (640, 480, `"PNG"`). |
| `Magick.IdentifyResult` | lib/MagickLite.class.php:360-368 | Identify succeeds exactly when the run succeeds and its stdout parses, and returns that parse. A failed run passes its error through. Unparsable output throws ParseFailed with the output and the program name. |
| `Magick.MagickLite.New` | lib/MagickLite.class.php:48-102 | A rejected argument throws before any probe. Otherwise the handle uses the tool `SelectTool` picks, or construction throws ToolNotFound. It binds what `Admit` bound, starts with an empty cache, and satisfies the invariant. A found preferred tool leaves the other tool's probe cache untouched. The preferred tool's probe has always run when the arguments are accepted, and when the preferred tool is missing the other tool's probe has run too, so its answer is cached. An answer already cached stays cached, with its probe count unchanged, so each `which` probe runs at most once in the process. |
| `Magick.MagickLite.NewTwice` | lib/MagickLite.class.php:110-134 | Two constructions in one process run each `which` probe at most once between them. A probe that had already run is not repeated, and two accepted handles with the same preference get the same tool. |
| `Magick.MagickLite.Valid` | lib/MagickLite.class.php:28-34 | The handle invariant bounds each probe count by one. A cached identity has dimensions of at most 99999 and a magic the pattern admits. |
| `Magick.MagickLite.RunAndKeep` | lib/MagickLite.class.php:314-320 | Runs the command once and logs it. When the run succeeds and `output_file` is null or `-`: `data` becomes stdout, `file` becomes null, and the cache is cleared. Otherwise all three are unchanged. The invariant is kept. |
| `Magick.MagickLite.Convert` | lib/MagickLite.class.php:290-323 | `RunAndKeep` applied to `ConvertCommand` on the state before the call. |
| `Magick.MagickLite.Composite` | lib/MagickLite.class.php:223-264 | A change image that is falsy or not a string throws BadChangeImage, and a missing one throws ChangeImageNotFound. In both cases nothing runs and nothing changes. Otherwise the behaviour is that of `RunAndKeep` applied to `CompositeCommand`. |
| `Magick.MagickLite.Identify` | lib/MagickLite.class.php:335-376 | The result is always what identifying the bound image gives. A cached identity is returned with no process run. Otherwise one `identify` runs, and the cache then holds exactly the returned identity, or stays empty on failure. |
| `Magick.MagickLite.Data` | lib/MagickLite.class.php:385-393 | Returns the data when truthy, else the bound file's contents when the file name is truthy, else null. |
| `Magick.MagickLite.ToolReadsHandleImage` | lib/MagickLite.class.php:385-393 | What `data()` returns is the image the next tool reads. A truthy file is named on the command line and nothing is piped. Otherwise the tool reads stdin, which receives exactly `data()`, or nothing when that is null. |
| `Magick.MagickLite.ConvertThenIdentify` | t/chaining.php:25-34 | After a conversion kept in memory, `identify` ignores the old cache. It runs a second process on the new data, read from stdin. |
| `Magick.MagickLite.IdentifyTwice` | lib/MagickLite.class.php:336-340 | Two calls to `identify` return the same result. After a success, at most one process has run. |

## Left out

- Process plumbing (lib/MagickLite.class.php:148-177): `proc_open`, the pipes and `fclose`. The host function `respond` reports each run as a `Raw` value: launched or not, stdout, stderr, status, the `proc_close` value, and the side-pipe text.
- `escapeshellcmd` and `escapeshellarg`: PHP built-ins whose code is not available. They are host functions and are used only to build the shell line that error messages quote.
- `file_exists`, `file_get_contents` and the exit status of `which`: fixed host functions. The filesystem never changes, so a tool writing `output_file` over the bound file does not change what later runs see. The stale `identify_cache` the PHP class keeps in that case therefore does not arise in the model.
- The host is deterministic: the same invocation always gets the same report. The cache invariant depends on this.
- The `debug` option and `error_log` calls.
- Exception message texts other than the bad-exit message. Each exception is its kind plus the data it reports; for example, the 255-character truncation at line 61 is not modelled.
- Exec.SidePipeCode: the integer is exact. It does not model how PHP's `(int)` saturates a digit string beyond 64 bits, which a shell exit status never reaches.
- Non-string values in the options array of `convert`/`composite`, and in `output_file` or `output_magic`: these are `seq<string>` and `Option<string>` in the model. The first argument, `type`, `prefer` and `change_image` take null, a bool, an int or a string.
- Floats, arrays and objects as the first argument, `type`, `prefer` or `change_image`: `Php.Value` has no such case. A float `prefer` is truthy unless it is 0.0 and then fails the pattern check like a non-string; that path is not modelled.
- The by-reference width/height/magic of `identify`: the model returns an `Identity` instead.
- Method chaining: each operation returns an `Outcome` (a pass, or the exception it throws) rather than `$this`.
- PCRE `\s` and `\w` in non-C locales: `\s` is space plus tab through carriage return (no 0x85 or 0xA0), and `\w`, which decides where the `\b` around the ImageMagick magic holds, is ASCII letters, digits and `_` (no locale letters).
- Image semantics, such as resize bounds or the output format a tool produces: these are decided by the external tools.
