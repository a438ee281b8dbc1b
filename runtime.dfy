/** The world MagickLite talks to: the PATH probes with their per-process
    cache (the static `$found_gm` and `$found_im`,
    lib/MagickLite.class.php:28-29, 110-134), the filesystem, PHP's shell
    escaping and the tools themselves. Everything but the cache is a fixed
    function the host supplies. */
module Host {
  import opened Common
  import opened Commands
  import opened Exec

  /** `join(' ', parts)`. */
  function Joined(parts: seq<string>): string {
    if |parts| == 0 then "" else if |parts| == 1 then parts[0] else parts[0] + " " + Joined(parts[1..])
  }

  /** `array_map(escape, args)`. */
  function EscapedEach(escape: string -> string, args: seq<string>): (r: seq<string>)
    ensures |r| == |args|
    ensures forall i :: 0 <= i < |args| ==> r[i] == escape(args[i])
  {
    seq(|args|, i requires 0 <= i < |args| => escape(args[i]))
  }

  /** The shell line of line 148, which also names the command in error
      messages; the trailing echo copies the exit status onto descriptor 3. */
  function ShellLine(escapeCmd: string -> string, escapeArg: string -> string, c: Command): (line: string)
    ensures var head := "(" + escapeCmd(c.program) + " ";
      |line| >= |head| + |Redirect()| && line[..|head|] == head && line[|line| - |Redirect()|..] == Redirect()
  {
    "(" + escapeCmd(c.program) + " " + Joined(EscapedEach(escapeArg, c.args)) + Redirect()
  }

  /** The tail of the shell line: the command's descriptor 3 points at
      /dev/null, so only the shell's echo of the exit status reaches the
      side pipe. */
  function Redirect(): string {
    ") 3>/dev/null; echo $? >&3"
  }

  /** One PHP process. The probe caches are shared by every handle built in
      it; the ghost counters record how often each `which` probe ran and the
      ghost log every tool invocation, in order. */
  class Runtime {
    const whichGm: int                  // exit status of `which gm`
    const whichIm: int                  // exit status of `which identify`
    const fileExists: string -> bool    // `file_exists`
    const fileContents: string -> string // `file_get_contents`
    const escapeCmd: string -> string   // `escapeshellcmd`
    const escapeArg: string -> string   // `escapeshellarg`
    const respond: Invocation -> Raw    // what a run of a tool reports

    var foundGm: Option<bool>
    var foundIm: Option<bool>
    ghost var gmProbes: nat
    ghost var imProbes: nat
    ghost var spawned: seq<Invocation>

    /** A probe has run exactly when its result is cached, it ran once, and
        the cache holds what it found. */
    ghost predicate Valid()
      reads this
      ensures Valid() ==> gmProbes <= 1 && imProbes <= 1
    {
      && (foundGm.None? <==> gmProbes == 0)
      && (foundGm.Some? ==> gmProbes == 1 && foundGm.value == (whichGm == 0))
      && (foundIm.None? <==> imProbes == 0)
      && (foundIm.Some? ==> imProbes == 1 && foundIm.value == (whichIm == 0))
    }

    constructor (whichGm: int, whichIm: int, fileExists: string -> bool, fileContents: string -> string,
                 escapeCmd: string -> string, escapeArg: string -> string, respond: Invocation -> Raw)
      ensures Valid()
      ensures this.whichGm == whichGm && this.whichIm == whichIm
      ensures this.fileExists == fileExists && this.fileContents == fileContents
      ensures this.escapeCmd == escapeCmd && this.escapeArg == escapeArg && this.respond == respond
      ensures foundGm == None && foundIm == None && spawned == []
    {
      this.whichGm := whichGm;
      this.whichIm := whichIm;
      this.fileExists := fileExists;
      this.fileContents := fileContents;
      this.escapeCmd := escapeCmd;
      this.escapeArg := escapeArg;
      this.respond := respond;
      foundGm := None;
      foundIm := None;
      gmProbes := 0;
      imProbes := 0;
      spawned := [];
    }

    /** `_check_exists_gm`: `which gm` runs only while nothing is cached. */
    method CheckExistsGm() returns (found: bool)
      requires Valid()
      modifies this`foundGm, this`gmProbes
      ensures Valid()
      ensures found == (whichGm == 0) && foundGm == Some(found)
      ensures gmProbes == 1
      ensures old(foundGm).Some? ==> gmProbes == old(gmProbes)
    {
      if foundGm.None? {
        gmProbes := gmProbes + 1;
        foundGm := Some(whichGm == 0);
      }
      found := foundGm.value;
    }

    /** `_check_exists_im`: `which identify` runs only while nothing is cached. */
    method CheckExistsIm() returns (found: bool)
      requires Valid()
      modifies this`foundIm, this`imProbes
      ensures Valid()
      ensures found == (whichIm == 0) && foundIm == Some(found)
      ensures imProbes == 1
      ensures old(foundIm).Some? ==> imProbes == old(imProbes)
    {
      if foundIm.None? {
        imProbes := imProbes + 1;
        foundIm := Some(whichIm == 0);
      }
      found := foundIm.value;
    }

    /** The shell line a command runs as. */
    function Shell(c: Command): string {
      ShellLine(escapeCmd, escapeArg, c)
    }

    /** What `_proc_exec` makes of one invocation. */
    function Run(inv: Invocation): Result<Streams> {
      ExecOutcome(Shell(inv.command), respond(inv))
    }

    /** Runs a tool (lines 148-194): logs the invocation and returns what
        `_proc_exec` makes of the report. */
    method ProcExec(inv: Invocation) returns (r: Result<Streams>)
      modifies this`spawned
      ensures r == Run(inv)
      ensures spawned == old(spawned) + [inv]
    {
      spawned := spawned + [inv];
      r := ExecOutcome(Shell(inv.command), respond(inv));
    }
  }
}
