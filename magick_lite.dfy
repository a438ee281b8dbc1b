/** The MagickLite handle (lib/MagickLite.class.php:26-395): an image bound
    either as a file path or as data in memory, the tool chosen for it, and the
    cached result of `identify`. */
module Magick {
  import opened Common
  import opened Php
  import opened Commands
  import opened Exec
  import opened IdentifyOutput
  import opened Construction
  import opened Host

  /** Lines 360-368: the run must succeed and its stdout must match the
      pattern of the tool in use; a mismatch throws with the output and the
      program name. */
  function IdentifyResult(useGm: bool, run: Result<Streams>): (r: Result<Identity>)
    ensures r.Success? <==> run.Success? && ParseIdentify(useGm, run.value.stdout).Some?
    ensures r.Success? ==> r.value == ParseIdentify(useGm, run.value.stdout).value
    ensures r.Success? ==> r.value.width <= 99999 && r.value.height <= 99999 && IsMagic(r.value.magic)
    ensures run.Failure? ==> r == Failure(run.error)
    ensures run.Success? && ParseIdentify(useGm, run.value.stdout).None? ==>
      r == Failure(ParseFailed(run.value.stdout, Program(useGm, Identify)))
  {
    match run
    case Failure(e) => Failure(e)
    case Success(streams) =>
      match ParseIdentify(useGm, streams.stdout)
      case None => Failure(ParseFailed(streams.stdout, Program(useGm, Identify)))
      case Some(id) => Success(id)
  }

  /** A PHP exception becomes `Fail`, a normal return `Pass`. */
  function Settle<T>(r: Result<T>): (o: Outcome)
    ensures o.Pass? <==> r.Success?
    ensures r.Failure? ==> o == Fail(r.error)
  {
    if r.Success? then Pass else Fail(r.error)
  }

  class MagickLite {
    const rt: Runtime
    const useGm: bool                 // `use_gm`, fixed by the constructor
    var file: Option<string>
    var data: Option<string>
    var identifyCache: Option<Identity>

    /** Exactly one of file and data is bound, and a cached identity is what
        identifying the bound image gives. */
    ghost predicate Valid()
      reads this, rt
      ensures Valid() ==> rt.gmProbes <= 1 && rt.imProbes <= 1
      ensures Valid() && identifyCache.Some? ==>
        var id := identifyCache.value;
        id.width <= 99999 && id.height <= 99999 && IsMagic(id.magic)
    {
      && rt.Valid()
      && (file.Some? != data.Some?)
      && (identifyCache.Some? ==> FreshIdentify() == Success(identifyCache.value))
    }

    /** The `identify` run of lines 342-360 on the bound image. */
    function IdentifyInvocation(): Invocation
      reads this`file, this`data
    {
      Invocation(IdentifyCommand(useGm, file), Stdin(data))
    }

    /** What running `identify` on the bound image gives now. */
    function FreshIdentify(): Result<Identity>
      reads this`file, this`data
    {
      IdentifyResult(useGm, rt.Run(IdentifyInvocation()))
    }

    constructor Init(rt: Runtime, useGm: bool, file: Option<string>, data: Option<string>)
      requires rt.Valid()
      requires file.Some? != data.Some?
      ensures Valid()
      ensures this.rt == rt && this.useGm == useGm && this.file == file && this.data == data
      ensures identifyCache == None
    {
      this.rt := rt;
      this.useGm := useGm;
      this.file := file;
      this.data := data;
      identifyCache := None;
    }

    /** `new MagickLite($file_or_data, $options)` (lines 48-102): the argument
        checks of `Admit`, then the probes in preference order, each probe
        running only when the preferred tool is missing and never twice in
        one process. */
    static method New(rt: Runtime, source: Value, options: Options) returns (r: Result<MagickLite>)
      requires rt.Valid()
      modifies rt`foundGm, rt`gmProbes, rt`foundIm, rt`imProbes
      ensures rt.Valid()
      ensures var a := Admit(source, options, rt.fileExists);
        && (a.Failure? ==> r == Failure(a.error) && unchanged(rt))
        && (a.Success? ==>
              var tool := SelectTool(a.value.preference, rt.whichGm == 0, rt.whichIm == 0);
              && (tool.None? ==> r == Failure(ToolNotFound))
              && (tool.Some? ==>
                    && r.Success? && fresh(r.value) && r.value.Valid() && r.value.rt == rt
                    && r.value.useGm == tool.value
                    && r.value.file == a.value.file && r.value.data == a.value.data
                    && r.value.identifyCache == None)
              && (a.value.preference == GmFirst && rt.whichGm == 0 ==>
                    rt.foundIm == old(rt.foundIm) && rt.imProbes == old(rt.imProbes))
              && (a.value.preference == ImFirst && rt.whichIm == 0 ==>
                    rt.foundGm == old(rt.foundGm) && rt.gmProbes == old(rt.gmProbes))
              && (if a.value.preference == GmFirst then rt.foundGm.Some? else rt.foundIm.Some?)
              && (a.value.preference == GmFirst && rt.whichGm != 0 ==> rt.foundIm.Some?)
              && (a.value.preference == ImFirst && rt.whichIm != 0 ==> rt.foundGm.Some?))
      ensures old(rt.foundGm).Some? ==> rt.foundGm == old(rt.foundGm) && rt.gmProbes == old(rt.gmProbes)
      ensures old(rt.foundIm).Some? ==> rt.foundIm == old(rt.foundIm) && rt.imProbes == old(rt.imProbes)
      ensures rt.gmProbes <= 1 && rt.imProbes <= 1
    {
      var admitted := Admit(source, options, rt.fileExists);
      if admitted.Failure? {
        return Failure(admitted.error);
      }
      var binding := admitted.value;
      var tool: Option<bool> := None;
      if binding.preference == GmFirst {
        var gm := rt.CheckExistsGm();
        if gm {
          tool := Some(true);
        } else {
          var im := rt.CheckExistsIm();
          if im {
            tool := Some(false);
          }
        }
      } else {
        var im := rt.CheckExistsIm();
        if im {
          tool := Some(false);
        } else {
          var gm := rt.CheckExistsGm();
          if gm {
            tool := Some(true);
          }
        }
      }
      if tool.None? {
        return Failure(ToolNotFound);
      }
      var handle := new MagickLite.Init(rt, tool.value, binding.file, binding.data);
      return Success(handle);
    }

    /** Two handles built one after the other in the same process: each
        `which` probe runs at most once between them, and the second handle
        sees the answers the first construction cached. */
    static method NewTwice(rt: Runtime, source1: Value, options1: Options, source2: Value, options2: Options)
      returns (r1: Result<MagickLite>, r2: Result<MagickLite>)
      requires rt.Valid()
      modifies rt`foundGm, rt`gmProbes, rt`foundIm, rt`imProbes
      ensures rt.Valid()
      ensures rt.gmProbes <= 1 && rt.imProbes <= 1
      ensures old(rt.gmProbes) == 1 ==> rt.gmProbes == 1
      ensures old(rt.imProbes) == 1 ==> rt.imProbes == 1
      ensures var a1 := Admit(source1, options1, rt.fileExists);
        var a2 := Admit(source2, options2, rt.fileExists);
        r1.Success? && r2.Success? && a1.Success? && a2.Success? && a1.value.preference == a2.value.preference ==>
          r1.value.useGm == r2.value.useGm
    {
      r1 := New(rt, source1, options1);
      r2 := New(rt, source2, options2);
    }

    /** Runs a command on the bound image and, when `output_file` is null or
        `-`, keeps its stdout as the new image (lines 255-261, 314-320). */
    method RunAndKeep(c: Command, outputFile: Option<string>) returns (o: Outcome)
      requires Valid()
      modifies this`file, this`data, this`identifyCache, rt`spawned
      ensures Valid()
      ensures var inv := Invocation(c, Stdin(old(data)));
        && rt.spawned == old(rt.spawned) + [inv]
        && o == Settle(rt.Run(inv))
        && (o.Pass? && StoresResult(outputFile) ==>
              file == None && data == Some(rt.Run(inv).value.stdout) && identifyCache == None)
        && (!(o.Pass? && StoresResult(outputFile)) ==>
              file == old(file) && data == old(data) && identifyCache == old(identifyCache))
    {
      var run := rt.ProcExec(Invocation(c, Stdin(data)));
      o := Settle(run);
      if run.Success? && StoresResult(outputFile) {
        identifyCache := None;
        data := Some(run.value.stdout);
        file := None;
      }
    }

    /** `convert($options, $output_file, $output_magic)` (lines 290-323). */
    method Convert(options: seq<string>, outputFile: Option<string>, outputMagic: Option<string>) returns (o: Outcome)
      requires Valid()
      modifies this`file, this`data, this`identifyCache, rt`spawned
      ensures Valid()
      ensures var inv := Invocation(ConvertCommand(useGm, old(file), options, outputFile, outputMagic), Stdin(old(data)));
        && rt.spawned == old(rt.spawned) + [inv]
        && o == Settle(rt.Run(inv))
        && (o.Pass? && StoresResult(outputFile) ==>
              file == None && data == Some(rt.Run(inv).value.stdout) && identifyCache == None)
        && (!(o.Pass? && StoresResult(outputFile)) ==>
              file == old(file) && data == old(data) && identifyCache == old(identifyCache))
    {
      o := RunAndKeep(ConvertCommand(useGm, file, options, outputFile, outputMagic), outputFile);
    }

    /** `composite($options, $change_image, $output_file, $output_magic)`
        (lines 223-264): the change image is checked before anything runs. */
    method Composite(options: seq<string>, changeImage: Value, outputFile: Option<string>, outputMagic: Option<string>)
      returns (o: Outcome)
      requires Valid()
      modifies this`file, this`data, this`identifyCache, rt`spawned
      ensures Valid()
      ensures !(Truthy(changeImage) && changeImage.Str?) ==>
        o == Fail(InvalidArgument(BadChangeImage)) && unchanged(this) && rt.spawned == old(rt.spawned)
      ensures Truthy(changeImage) && changeImage.Str? && !rt.fileExists(changeImage.s) ==>
        o == Fail(InvalidArgument(ChangeImageNotFound(changeImage.s))) && unchanged(this) && rt.spawned == old(rt.spawned)
      ensures Truthy(changeImage) && changeImage.Str? && rt.fileExists(changeImage.s) ==>
        var inv := Invocation(CompositeCommand(useGm, old(file), options, changeImage.s, outputFile, outputMagic), Stdin(old(data)));
        && rt.spawned == old(rt.spawned) + [inv]
        && o == Settle(rt.Run(inv))
        && (o.Pass? && StoresResult(outputFile) ==>
              file == None && data == Some(rt.Run(inv).value.stdout) && identifyCache == None)
        && (!(o.Pass? && StoresResult(outputFile)) ==>
              file == old(file) && data == old(data) && identifyCache == old(identifyCache))
    {
      if !(Truthy(changeImage) && changeImage.Str?) {
        return Fail(InvalidArgument(BadChangeImage));
      }
      if !rt.fileExists(changeImage.s) {
        return Fail(InvalidArgument(ChangeImageNotFound(changeImage.s)));
      }
      o := RunAndKeep(CompositeCommand(useGm, file, options, changeImage.s, outputFile, outputMagic), outputFile);
    }

    /** `identify(&$width, &$height, &$magic)` (lines 335-376): a cached
        identity is returned without running anything; otherwise the tool
        runs and a parsed result is cached. Either way the result is what
        identifying the bound image gives. */
    method Identify() returns (r: Result<Identity>)
      requires Valid()
      modifies this`identifyCache, rt`spawned
      ensures Valid()
      ensures r == FreshIdentify()
      ensures old(identifyCache).Some? ==> identifyCache == old(identifyCache) && rt.spawned == old(rt.spawned)
      ensures old(identifyCache).None? ==>
        && rt.spawned == old(rt.spawned) + [IdentifyInvocation()]
        && identifyCache == (if r.Success? then Some(r.value) else None)
    {
      if identifyCache.Some? {
        return Success(identifyCache.value);
      }
      ghost var expected := FreshIdentify();
      var run := rt.ProcExec(IdentifyInvocation());
      assert FreshIdentify() == expected;
      r := IdentifyResult(useGm, run);
      assert r == expected;
      if r.Success? {
        identifyCache := Some(r.value);
        assert FreshIdentify() == expected;
      }
    }

    /** `data()` (lines 385-393): the bound data when it is truthy, else the
        contents of the bound file when its name is truthy, else null. */
    function Data(): (r: Option<string>)
      reads this`file, this`data
      ensures OptTruthy(data) ==> r == data
      ensures !OptTruthy(data) && OptTruthy(file) ==> r == Some(rt.fileContents(file.value))
      ensures !OptTruthy(data) && !OptTruthy(file) ==> r == None
    {
      if OptTruthy(data) then data
      else if OptTruthy(file) then Some(rt.fileContents(file.value))
      else None
    }

    /** What `data()` returns is the image the next tool reads: a truthy file
        is named on the command line and nothing is piped; otherwise the tool
        reads stdin, which receives exactly what `data()` returns, or nothing
        when that is null. */
    lemma ToolReadsHandleImage()
      requires Valid()
      ensures OptTruthy(file) ==>
        SourceToken(useGm, file) == file.value && Stdin(data) == "" && Data() == Some(rt.fileContents(file.value))
      ensures !OptTruthy(file) ==>
        && SourceToken(useGm, file) == (if useGm then "-" else "-[0]")
        && (Data().Some? ==> Stdin(data) == Data().value)
        && (Data().None? ==> Stdin(data) == "")
    {
    }

    /** t/chaining.php: a conversion kept in memory, then `identify`. The
        cache of the old image is not used; `identify` runs on the new data,
        read from stdin. */
    method ConvertThenIdentify(options: seq<string>, outputMagic: Option<string>) returns (o: Outcome, id: Result<Identity>)
      requires Valid()
      modifies this`file, this`data, this`identifyCache, rt`spawned
      ensures Valid()
      ensures o.Pass? ==>
        && file == None && data.Some?
        && id == FreshIdentify()
        && |rt.spawned| == |old(rt.spawned)| + 2
        && rt.spawned[|rt.spawned| - 1] == Invocation(IdentifyCommand(useGm, None), Stdin(data))
      ensures o.Fail? ==> id == Failure(o.error) && |rt.spawned| == |old(rt.spawned)| + 1
    {
      o := Convert(options, None, outputMagic);
      if o.Fail? {
        return o, Failure(o.error);
      }
      id := Identify();
    }

    /** t/identify.php with a second call: both return the same identity and
        at most one process runs. */
    method IdentifyTwice() returns (first: Result<Identity>, second: Result<Identity>)
      requires Valid()
      modifies this`identifyCache, rt`spawned
      ensures Valid()
      ensures first == second == FreshIdentify()
      ensures first.Success? ==> |rt.spawned| <= |old(rt.spawned)| + 1
    {
      first := Identify();
      second := Identify();
    }
  }
}
