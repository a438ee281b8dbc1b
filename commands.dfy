/** The command lines `convert`, `composite` and `identify` build
    (lib/MagickLite.class.php:231-251, 291-310, 342-356): a program name and
    the ordered list of arguments handed to it, together with what is piped
    into the tool's stdin. */
module Commands {
  import opened Common
  import opened Php

  datatype Operation = Convert | Composite | Identify

  /** A program and its arguments, unescaped. */
  datatype Command = Command(program: string, args: seq<string>)

  /** A command and the text written to its stdin. */
  datatype Invocation = Invocation(command: Command, stdin: string)

  /** The ImageMagick program, which is also the GraphicsMagick subcommand. */
  function ToolName(op: Operation): string {
    match op
    case Convert => "convert"
    case Composite => "composite"
    case Identify => "identify"
  }

  /** `gm` under GraphicsMagick, the tool itself under ImageMagick. */
  function Program(useGm: bool, op: Operation): (p: string)
    ensures useGm <==> p == "gm"
  {
    if useGm then "gm" else ToolName(op)
  }

  /** The subcommand token, present only under GraphicsMagick. */
  function Lead(useGm: bool, op: Operation): (lead: seq<string>)
    ensures |lead| == (if useGm then 1 else 0)
    ensures useGm ==> lead[0] == ToolName(op)
  {
    if useGm then [ToolName(op)] else []
  }

  /** The image the tool reads: the bound file when `$this->file` is truthy,
      otherwise stdin, written `-` for GraphicsMagick (which cannot take a
      frame number there) and `-[0]` (first frame) for ImageMagick. */
  function SourceToken(useGm: bool, file: Option<string>): (t: string)
    ensures OptTruthy(file) ==> t == file.value
    ensures !OptTruthy(file) ==> (t == "-" <==> useGm) && (t == "-[0]" <==> !useGm)
  {
    if OptTruthy(file) then file.value else if useGm then "-" else "-[0]"
  }

  /** `$output_file && ($output_file != '-')`: the result goes to a file. */
  predicate WritesFile(outputFile: Option<string>) {
    OptTruthy(outputFile) && outputFile.value != "-"
  }

  /** `is_null($output_file) || ($output_file == '-')`: the handle keeps the
      tool's stdout as its new image. */
  predicate StoresResult(outputFile: Option<string>) {
    outputFile.None? || outputFile == Some("-")
  }

  /** The `magic:` prefix, present when the magic is truthy. */
  function MagicPrefix(outputMagic: Option<string>): string {
    if OptTruthy(outputMagic) then outputMagic.value + ":" else ""
  }

  /** Where the tool writes: the output file, or stdout (`-`), after the
      optional `magic:` prefix. */
  function DestinationToken(outputFile: Option<string>, outputMagic: Option<string>): (d: string)
    ensures WritesFile(outputFile) ==> d == MagicPrefix(outputMagic) + outputFile.value
    ensures !WritesFile(outputFile) ==> d == MagicPrefix(outputMagic) + "-"
    ensures !OptTruthy(outputMagic) && !WritesFile(outputFile) ==> d == "-"
  {
    MagicPrefix(outputMagic) + (if WritesFile(outputFile) then outputFile.value else "-")
  }

  /** `convert`: subcommand, source, the caller's options verbatim, destination. */
  function ConvertCommand(useGm: bool, file: Option<string>, options: seq<string>,
                          outputFile: Option<string>, outputMagic: Option<string>): (c: Command)
    ensures c.program == Program(useGm, Convert)
    ensures var n := |Lead(useGm, Convert)|;
      && |c.args| == n + |options| + 2
      && c.args[..n] == Lead(useGm, Convert)
      && c.args[n] == SourceToken(useGm, file)
      && c.args[n + 1..|c.args| - 1] == options
      && c.args[|c.args| - 1] == DestinationToken(outputFile, outputMagic)
  {
    var args := Lead(useGm, Convert);
    var args := args + [SourceToken(useGm, file)];
    var args := args + options;
    Command(Program(useGm, Convert), args + [DestinationToken(outputFile, outputMagic)])
  }

  /** `composite`: subcommand, the caller's options verbatim, change image,
      source, destination. */
  function CompositeCommand(useGm: bool, file: Option<string>, options: seq<string>, changeImage: string,
                            outputFile: Option<string>, outputMagic: Option<string>): (c: Command)
    ensures c.program == Program(useGm, Composite)
    ensures var n := |Lead(useGm, Composite)|;
      && |c.args| == n + |options| + 3
      && c.args[..n] == Lead(useGm, Composite)
      && c.args[n..n + |options|] == options
      && c.args[|c.args| - 3..] == [changeImage, SourceToken(useGm, file), DestinationToken(outputFile, outputMagic)]
  {
    var args := Lead(useGm, Composite) + options;
    var args := args + [changeImage];
    var args := args + [SourceToken(useGm, file)];
    Command(Program(useGm, Composite), args + [DestinationToken(outputFile, outputMagic)])
  }

  /** `identify`: subcommand, `-format "%w %h %m"`, source. */
  function IdentifyCommand(useGm: bool, file: Option<string>): (c: Command)
    ensures c.program == Program(useGm, Identify)
    ensures var n := |Lead(useGm, Identify)|;
      && |c.args| == n + 3
      && c.args[..n] == Lead(useGm, Identify)
      && c.args[n..] == ["-format", "%w %h %m", SourceToken(useGm, file)]
  {
    var args := Lead(useGm, Identify) + ["-format"];
    var args := args + ["%w %h %m"];
    Command(Program(useGm, Identify), args + [SourceToken(useGm, file)])
  }

  /** `if ($stdin) fwrite(...)`: the bound data is piped in only when it is
      truthy; null, "" and "0" write nothing. */
  function Stdin(data: Option<string>): (s: string)
    ensures OptTruthy(data) ==> s == data.value
    ensures !OptTruthy(data) ==> s == ""
  {
    if OptTruthy(data) then data.value else ""
  }

  /** The subcommand token of each operation appears exactly under
      GraphicsMagick, as the first argument, and the program is `gm` exactly
      then. */
  lemma SubcommandIffGm(useGm: bool, file: Option<string>, options: seq<string>, changeImage: string,
                        outputFile: Option<string>, outputMagic: Option<string>)
    ensures var c := ConvertCommand(useGm, file, options, outputFile, outputMagic);
      (c.program == "gm" <==> useGm) && (useGm ==> c.args[0] == "convert") && (!useGm ==> c.program == "convert")
    ensures var c := CompositeCommand(useGm, file, options, changeImage, outputFile, outputMagic);
      (c.program == "gm" <==> useGm) && (useGm ==> c.args[0] == "composite") && (!useGm ==> c.program == "composite")
    ensures var c := IdentifyCommand(useGm, file);
      (c.program == "gm" <==> useGm) && (useGm ==> c.args[0] == "identify") && (!useGm ==> c.program == "identify")
  {
  }

  /** The three operations read the image from the same place: the token
      after the options in `convert`'s lead, just before the destination in
      `composite`, and last in `identify`. */
  lemma SourceTokenShared(useGm: bool, file: Option<string>, options: seq<string>, changeImage: string,
                          outputFile: Option<string>, outputMagic: Option<string>)
    ensures var n := |Lead(useGm, Convert)|;
      var conv := ConvertCommand(useGm, file, options, outputFile, outputMagic).args;
      var comp := CompositeCommand(useGm, file, options, changeImage, outputFile, outputMagic).args;
      var iden := IdentifyCommand(useGm, file).args;
      conv[n] == comp[|comp| - 2] == iden[|iden| - 1] == SourceToken(useGm, file)
    ensures SourceToken(useGm, file) == (if OptTruthy(file) then file.value else if useGm then "-" else "-[0]")
  {
  }

  /** Keeping the result and writing a file exclude each other, and a kept
      result is always sent to stdout. */
  lemma StoredResultComesFromStdout(outputFile: Option<string>, outputMagic: Option<string>)
    ensures StoresResult(outputFile) ==> !WritesFile(outputFile)
    ensures StoresResult(outputFile) ==> DestinationToken(outputFile, outputMagic) == MagicPrefix(outputMagic) + "-"
  {
  }

  /** An output file of "" or "0" is falsy: the tool writes to stdout, but
      the value is neither null nor `-`, so the handle discards that output. */
  lemma FalsyOutputFileDiscarded(outputFile: Option<string>, outputMagic: Option<string>)
    requires outputFile == Some("") || outputFile == Some("0")
    ensures DestinationToken(outputFile, outputMagic) == MagicPrefix(outputMagic) + "-"
    ensures !StoresResult(outputFile)
  {
  }

  /** A bound file named "0" is falsy: the tools are told to read stdin
      instead, and nothing is piped there. */
  lemma FileNamedZeroReadsStdin(useGm: bool)
    ensures SourceToken(useGm, Some("0")) == (if useGm then "-" else "-[0]")
    ensures Stdin(None) == ""
  {
  }
}
