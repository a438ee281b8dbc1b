/** The checks the constructor makes before it looks for a tool, and the
    choice of tool (lib/MagickLite.class.php:48-100). The probes themselves
    are host calls with a cache; see module Host. */
module Construction {
  import opened Common
  import opened Php

  /** The options array; an absent key, like a null value, is `Null`. The
      `debug` option only switches logging and is not modelled. */
  datatype Options = Options(kind: Value, prefer: Value)

  /** Which tool to try first. */
  datatype Preference = GmFirst | ImFirst

  /** What the constructor binds before choosing a tool: exactly one of a
      file path and image data, and the preference order. */
  datatype Binding = Binding(file: Option<string>, data: Option<string>, preference: Preference)

  /** A PCRE match of `^(?:w)$`: `$` also matches before one final newline. */
  predicate MatchesWord(s: string, w: string) {
    s == w || s == w + "\n"
  }

  /** Line 56: `type` must be a string matching `^(?:file|data)$`. */
  predicate KindAccepted(kind: Value) {
    kind.Null? || (kind.Str? && (MatchesWord(kind.s, "file") || MatchesWord(kind.s, "data")))
  }

  /** Line 59: `$type == 'file'`, a plain string comparison, with null read as
      'file'. "file\n" passes the pattern but is not 'file'. */
  predicate BindsFile(kind: Value) {
    kind.Null? || kind == Str("file")
  }

  /** Lines 69-79: a falsy `prefer` keeps GraphicsMagick first; a truthy one
      must be a string matching `^(?:pm|im)$`, and since no such string equals
      'gm', line 82 then puts ImageMagick first. */
  function ResolvePreference(prefer: Value): (r: Result<Preference>)
    ensures r == Success(GmFirst) <==> !Truthy(prefer)
    ensures r == Success(ImFirst) <==> Truthy(prefer) && prefer.Str? && (MatchesWord(prefer.s, "pm") || MatchesWord(prefer.s, "im"))
    ensures r.Failure? ==> r.error == InvalidArgument(BadPrefer)
  {
    if !Truthy(prefer) then Success(GmFirst)
    else if prefer.Str? && (MatchesWord(prefer.s, "pm") || MatchesWord(prefer.s, "im")) then Success(ImFirst)
    else Failure(InvalidArgument(BadPrefer))
  }

  /** Lines 49-79, in the order the source checks them: the first argument,
      the type, the file's existence, the preference. */
  function Admit(source: Value, options: Options, fileExists: string -> bool): (r: Result<Binding>)
    ensures !(source.Str? && |source.s| > 0) ==> r == Failure(InvalidArgument(MissingSource))
    ensures source.Str? && |source.s| > 0 && !KindAccepted(options.kind) ==> r == Failure(InvalidArgument(BadKind))
    ensures source.Str? && |source.s| > 0 && KindAccepted(options.kind) && BindsFile(options.kind) && !fileExists(source.s) ==>
      r == Failure(InvalidArgument(FileNotFound(source.s)))
    ensures r.Success? <==>
      && source.Str? && |source.s| > 0
      && KindAccepted(options.kind)
      && (BindsFile(options.kind) ==> fileExists(source.s))
      && ResolvePreference(options.prefer).Success?
    ensures r.Success? ==>
      && (r.value.file.Some? != r.value.data.Some?)
      && (if BindsFile(options.kind) then r.value.file == Some(source.s) else r.value.data == Some(source.s))
      && r.value.preference == ResolvePreference(options.prefer).value
  {
    if !(source.Str? && |source.s| > 0) then Failure(InvalidArgument(MissingSource))
    else if !KindAccepted(options.kind) then Failure(InvalidArgument(BadKind))
    else if BindsFile(options.kind) && !fileExists(source.s) then Failure(InvalidArgument(FileNotFound(source.s)))
    else
      match ResolvePreference(options.prefer)
      case Failure(e) => Failure(e)
      case Success(p) =>
        if BindsFile(options.kind) then Success(Binding(Some(source.s), None, p))
        else Success(Binding(None, Some(source.s), p))
  }

  /** Lines 82-100: the preferred tool if it is on the PATH, else the other
      one, else none. `Some(true)` means GraphicsMagick. */
  function SelectTool(preference: Preference, gmFound: bool, imFound: bool): (r: Option<bool>)
    ensures r.None? <==> !gmFound && !imFound
    ensures r == Some(true) ==> gmFound
    ensures r == Some(false) ==> imFound
    ensures preference == GmFirst && gmFound ==> r == Some(true)
    ensures preference == ImFirst && imFound ==> r == Some(false)
  {
    match preference
    case GmFirst => if gmFound then Some(true) else if imFound then Some(false) else None
    case ImFirst => if imFound then Some(false) else if gmFound then Some(true) else None
  }

  /** The documented value 'gm' is refused by the pattern at line 75. */
  lemma GmPreferenceRejected()
    ensures ResolvePreference(Str("gm")) == Failure(InvalidArgument(BadPrefer))
  {
  }

  /** Every accepted explicit preference, 'pm' included, means ImageMagick
      first; GraphicsMagick comes first only when `prefer` is falsy. */
  lemma ExplicitPreferenceIsImFirst(prefer: Value)
    requires ResolvePreference(prefer).Success?
    ensures ResolvePreference(prefer).value == GmFirst <==> !Truthy(prefer)
    ensures ResolvePreference(Str("pm")) == Success(ImFirst)
    ensures ResolvePreference(Str("0")) == Success(GmFirst)
  {
  }

  /** `type` "file\n" passes the pattern at line 56 but fails the comparison
      at line 59: the path is bound as image data, and no file check is made. */
  lemma FileWithNewlineBindsData(path: string, fileExists: string -> bool)
    requires |path| > 0
    ensures var r := Admit(Str(path), Options(Str("file\n"), Null), fileExists);
      r == Success(Binding(None, Some(path), GmFirst))
  {
  }
}
