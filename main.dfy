/**
 * The command-line entry point: resolving the parsed flags into arguments,
 * deciding which files to create with which include lists, and running the
 * façade calls in order. The flags arrive already parsed; a flag that was not
 * given is `None`.
 */
module Cli {
  import opened Wrappers
  import opened Text
  import opened Utils
  import opened Creator
  import opened Create

  datatype ParsedOptions = ParsedOptions(destination: Option<string>, className: Option<string>,
                                         files: Option<seq<string>>)

  /** The resolved request; `files` holds the requested kinds ("h", "cpp", "ui"). */
  datatype Arguments = Arguments(destination: string, className: string, files: seq<string>)

  const DefaultFiles: seq<string> := ["h", "cpp"]

  /** What the alias "qt" stands for. */
  const QtFiles: seq<string> := ["h", "cpp", "ui"]

  /**
   * No arguments without both required flags. Otherwise the file set never
   * contains the alias "qt" and is never empty.
   */
  function ParseArguments(parsed: ParsedOptions): (args: Option<Arguments>)
    ensures args.None? <==> parsed.destination.None? || parsed.className.None?
    ensures args.Some? ==> && args.value.destination == parsed.destination.value
                           && args.value.className == parsed.className.value
    ensures args.Some? ==> "qt" !in args.value.files && args.value.files != []
  {
    if parsed.destination.None? || parsed.className.None? then None
    else
      var files :=
        if parsed.files.None? then DefaultFiles
        else if "qt" in parsed.files.value then QtFiles
        else if |parsed.files.value| != 0 then parsed.files.value
        else DefaultFiles;
      Some(Arguments(parsed.destination.value, parsed.className.value, files))
  }

  /**
   * The file-set rules: no list gives ["h", "cpp"]; a list naming "qt" gives
   * ["h", "cpp", "ui"] whatever else it names; any other non-empty list is kept
   * as given, order and repetitions included; an empty list gives ["h", "cpp"].
   */
  lemma FileSetRules(parsed: ParsedOptions)
    requires parsed.destination.Some? && parsed.className.Some?
    ensures var files := ParseArguments(parsed).value.files;
            && (parsed.files.None? ==> files == ["h", "cpp"])
            && (parsed.files.Some? && "qt" in parsed.files.value ==> files == ["h", "cpp", "ui"])
            && (parsed.files.Some? && "qt" !in parsed.files.value && parsed.files.value != [] ==>
                  files == parsed.files.value)
            && (parsed.files == Some([]) ==> files == ["h", "cpp"])
  {
  }

  /** One façade call, with its arguments. */
  datatype Action =
    | CreateH(destination: string, className: string, includes: seq<string>)
    | CreateCpp(destination: string, className: string, includes: seq<string>)
    | CreateUi(destination: string, className: string)
  {
    /** The file kind that requests this action. */
    function Kind(): string
    {
      match this
      case CreateH(_, _, _) => "h"
      case CreateCpp(_, _, _) => "cpp"
      case CreateUi(_, _) => "ui"
    }

    /** The position of this kind in the order of creation. */
    function Rank(): nat
    {
      match this
      case CreateH(_, _, _) => 0
      case CreateCpp(_, _, _) => 1
      case CreateUi(_, _) => 2
    }
  }

  ghost predicate Planned(plan: seq<Action>, kind: string)
  {
    exists i :: 0 <= i < |plan| && plan[i].Kind() == kind
  }

  /** The header step: asked for by "h"; it includes the uic header exactly when "ui" is asked for too. */
  function HeaderStep(args: Arguments): seq<Action>
  {
    if "h" in args.files then
      [CreateH(args.destination, args.className,
               if "ui" in args.files then [UiClassFilename(args.className)] else [])]
    else []
  }

  /** The source step: asked for by "cpp"; it includes the header, whether or not "h" is asked for. */
  function SourceStep(args: Arguments): seq<Action>
  {
    if "cpp" in args.files then [CreateCpp(args.destination, args.className, [HFilename(args.className)])] else []
  }

  function UiStep(args: Arguments): seq<Action>
  {
    if "ui" in args.files then [CreateUi(args.destination, args.className)] else []
  }

  /** How many of the three kinds a file list asks for, each counted once. */
  function RequestedKinds(files: seq<string>): nat
  {
    (if "h" in files then 1 else 0) + (if "cpp" in files then 1 else 0) + (if "ui" in files then 1 else 0)
  }

  /**
   * The façade calls for a request: header, source and UI file in that order, each
   * at most once and only for a requested kind, however often it is named, one
   * call per requested kind. The header includes the uic header exactly when a UI
   * file is requested; the source includes the header, whether or not a header is
   * requested.
   */
  function Plan(args: Arguments): (plan: seq<Action>)
    ensures |plan| == RequestedKinds(args.files)
    ensures forall i, j :: 0 <= i < j < |plan| ==> plan[i].Rank() < plan[j].Rank()
    ensures forall i :: 0 <= i < |plan| ==> plan[i].Kind() in args.files
    ensures forall i :: 0 <= i < |plan| ==>
              plan[i].destination == args.destination && plan[i].className == args.className
    ensures forall i :: 0 <= i < |plan| && plan[i].CreateH? ==>
              plan[i].includes == (if "ui" in args.files then [UiClassFilename(args.className)] else [])
    ensures forall i :: 0 <= i < |plan| && plan[i].CreateCpp? ==>
              plan[i].includes == [HFilename(args.className)]
  {
    HeaderStep(args) + SourceStep(args) + UiStep(args)
  }

  /** A kind has a call in the plan exactly when it is requested. */
  lemma PlanCoversRequestedKinds(args: Arguments)
    ensures Planned(Plan(args), "h") <==> "h" in args.files
    ensures Planned(Plan(args), "cpp") <==> "cpp" in args.files
    ensures Planned(Plan(args), "ui") <==> "ui" in args.files
  {
    var plan := Plan(args);
    var nh, nc := |HeaderStep(args)|, |SourceStep(args)|;
    if "h" in args.files {
      assert plan[0].Kind() == "h";
    }
    if "cpp" in args.files {
      assert plan[nh].Kind() == "cpp";
    }
    if "ui" in args.files {
      assert plan[nh + nc].Kind() == "ui";
    }
  }

  /** The whole run as façade calls; missing required flags plan nothing. */
  function Dispatch(parsed: ParsedOptions): (plan: seq<Action>)
    ensures parsed.destination.None? || parsed.className.None? ==> plan == []
  {
    match ParseArguments(parsed)
    case None => []
    case Some(args) => Plan(args)
  }

  /** The record a façade call writes, given the author record in the file system. */
  function ActionRecord(action: Action, info: AuthorInfo, breaks: LineBreaks): WriteRecord
  {
    match action
    case CreateH(destination, className, includes) => HFileRecord(destination, className, includes, info, breaks)
    case CreateCpp(destination, className, includes) => CppFileRecord(destination, className, includes, info, breaks)
    case CreateUi(destination, className) => UiFileRecord(destination, className, breaks)
  }

  function Writes(plan: seq<Action>, info: AuthorInfo, breaks: LineBreaks): (w: seq<WriteRecord>)
    ensures |w| == |plan|
    ensures forall i :: 0 <= i < |plan| ==> w[i] == ActionRecord(plan[i], info, breaks)
  {
    seq(|plan|, i requires 0 <= i < |plan| => ActionRecord(plan[i], info, breaks))
  }

  lemma WritesSingleton(action: Action, info: AuthorInfo, breaks: LineBreaks)
    ensures Writes([action], info, breaks) == [ActionRecord(action, info, breaks)]
  {
  }

  lemma WritesConcat(p: seq<Action>, q: seq<Action>, info: AuthorInfo, breaks: LineBreaks)
    ensures Writes(p + q, info, breaks) == Writes(p, info, breaks) + Writes(q, info, breaks)
  {
    var w, v := Writes(p + q, info, breaks), Writes(p, info, breaks) + Writes(q, info, breaks);
    forall i | 0 <= i < |w|
      ensures w[i] == v[i]
    {
      if i < |p| {
        assert (p + q)[i] == p[i];
      } else {
        assert (p + q)[i] == q[i - |p|];
      }
    }
  }

  /** Writing the records of `p` and then those of `q` logs the records of `p + q`. */
  lemma WritesAppend(log: seq<WriteRecord>, p: seq<Action>, q: seq<Action>, info: AuthorInfo, breaks: LineBreaks)
    ensures (log + Writes(p, info, breaks)) + Writes(q, info, breaks) == log + Writes(p + q, info, breaks)
  {
    WritesConcat(p, q, info, breaks);
    SeqConcatAssociative(log, Writes(p, info, breaks), Writes(q, info, breaks));
  }

  lemma SeqConcatAssociative<T>(a: seq<T>, b: seq<T>, c: seq<T>)
    ensures (a + b) + c == a + (b + c)
  {
  }

  /** The file a planned action writes is named by its kind: `.h`, `.cpp` or `.ui` after `Gap<className>`. */
  lemma ActionRecordPath(action: Action, info: AuthorInfo, breaks: LineBreaks)
    ensures ActionRecord(action, info, breaks).path ==
            PathJoin(action.destination,
                     match action
                     case CreateH(_, c, _) => HFilename(c)
                     case CreateCpp(_, c, _) => CppFilename(c)
                     case CreateUi(_, c) => UiFilename(c))
  {
  }

  /** A run never writes the same file twice. */
  lemma DispatchWritesDistinctFiles(parsed: ParsedOptions, info: AuthorInfo, breaks: LineBreaks)
    ensures var w := Writes(Dispatch(parsed), info, breaks);
            forall i, j :: 0 <= i < j < |w| ==> w[i].path != w[j].path
  {
    var plan := Dispatch(parsed);
    var w := Writes(plan, info, breaks);
    forall i, j | 0 <= i < j < |w|
      ensures w[i].path != w[j].path
    {
      var a, b := plan[i], plan[j];
      assert a.Rank() < b.Rank();
      assert a.className == b.className && a.destination == b.destination;
      ActionRecordPath(a, info, breaks);
      ActionRecordPath(b, info, breaks);
      // The three file names of one class have three different lengths.
      assert |w[i].path| != |w[j].path|;
    }
  }

  /** The header call, when made, logs exactly what the header step plans. */
  lemma HeaderStepWrites(log: seq<WriteRecord>, a: Arguments, includes: seq<string>, info: AuthorInfo,
                         breaks: LineBreaks)
    requires "h" in a.files
    requires includes == if "ui" in a.files then [UiClassFilename(a.className)] else []
    ensures log + [HFileRecord(a.destination, a.className, includes, info, breaks)]
            == log + Writes(HeaderStep(a), info, breaks)
  {
    WritesSingleton(HeaderStep(a)[0], info, breaks);
  }

  lemma SourceStepWrites(log: seq<WriteRecord>, a: Arguments, info: AuthorInfo, breaks: LineBreaks)
    requires "cpp" in a.files
    ensures log + [CppFileRecord(a.destination, a.className, [HFilename(a.className)], info, breaks)]
            == log + Writes(SourceStep(a), info, breaks)
  {
    WritesSingleton(SourceStep(a)[0], info, breaks);
  }

  lemma UiStepWrites(log: seq<WriteRecord>, a: Arguments, info: AuthorInfo, breaks: LineBreaks)
    requires "ui" in a.files
    ensures log + [UiFileRecord(a.destination, a.className, breaks)] == log + Writes(UiStep(a), info, breaks)
  {
    WritesSingleton(UiStep(a)[0], info, breaks);
  }

  /** A step that is not requested logs nothing. */
  lemma SkippedStepWrites(log: seq<WriteRecord>, step: seq<Action>, info: AuthorInfo, breaks: LineBreaks)
    requires step == []
    ensures log == log + Writes(step, info, breaks)
  {
  }

  /** Runs the tool: the façade calls of `Dispatch(parsed)`, in order, and nothing else. */
  method Execute(fs: FileSystem, breaks: LineBreaks, parsed: ParsedOptions)
    modifies fs
    ensures fs.writes == old(fs.writes) + Writes(Dispatch(parsed), LoadedAuthorInfo(fs.authorInfoFile), breaks)
    ensures fs.authorInfoFile == old(fs.authorInfoFile)
  {
    var args := ParseArguments(parsed);
    if args.Some? {
      var a := args.value;
      ghost var info := LoadedAuthorInfo(fs.authorInfoFile);
      ghost var before := fs.writes;
      if "h" in a.files {
        var includes: seq<string> := [];
        if "ui" in a.files {
          includes := includes + [UiClassFilename(a.className)];
        }
        CreateHFile(fs, breaks, a.destination, a.className, includes);
        HeaderStepWrites(before, a, includes, info, breaks);
      } else {
        SkippedStepWrites(before, HeaderStep(a), info, breaks);
      }
      ghost var afterHeader := fs.writes;
      if "cpp" in a.files {
        var headerFilename := HFilename(a.className);
        CreateCppFile(fs, breaks, a.destination, a.className, [headerFilename]);
        SourceStepWrites(afterHeader, a, info, breaks);
      } else {
        SkippedStepWrites(afterHeader, SourceStep(a), info, breaks);
      }
      WritesAppend(before, HeaderStep(a), SourceStep(a), info, breaks);
      ghost var afterSource := fs.writes;
      if "ui" in a.files {
        CreateUiFile(fs, breaks, a.destination, a.className);
        UiStepWrites(afterSource, a, info, breaks);
      } else {
        SkippedStepWrites(afterSource, UiStep(a), info, breaks);
      }
      WritesAppend(before, HeaderStep(a) + SourceStep(a), UiStep(a), info, breaks);
      assert Dispatch(parsed) == HeaderStep(a) + SourceStep(a) + UiStep(a);
    } else {
      assert Dispatch(parsed) == [];
    }
  }

  // Example runs.

  /** `--destination /tmp/out --className Widget --files h cpp`: a header without UI include and a source. */
  lemma ScenarioHeaderAndSource()
    ensures Dispatch(ParsedOptions(Some("/tmp/out"), Some("Widget"), Some(["h", "cpp"])))
            == [CreateH("/tmp/out", "Widget", []), CreateCpp("/tmp/out", "Widget", ["GapWidget.h"])]
  {
    var args := Arguments("/tmp/out", "Widget", ["h", "cpp"]);
    assert "h" in args.files && "cpp" in args.files && "ui" !in args.files;
    assert HFilename("Widget") == "GapWidget.h";
    assert HeaderStep(args) == [CreateH("/tmp/out", "Widget", [])];
    assert SourceStep(args) == [CreateCpp("/tmp/out", "Widget", ["GapWidget.h"])];
    assert UiStep(args) == [];
  }

  /** `--files qt`: all three files, the header including `ui_GapDialog.h`, the source including `GapDialog.h`. */
  lemma ScenarioQt()
    ensures Dispatch(ParsedOptions(Some("/tmp/out"), Some("Dialog"), Some(["qt"])))
            == [CreateH("/tmp/out", "Dialog", ["ui_GapDialog.h"]),
                CreateCpp("/tmp/out", "Dialog", ["GapDialog.h"]),
                CreateUi("/tmp/out", "Dialog")]
  {
    var args := Arguments("/tmp/out", "Dialog", QtFiles);
    assert "h" in args.files && "cpp" in args.files && "ui" in args.files;
    assert HFilename("Dialog") == "GapDialog.h";
    assert UiClassFilename("Dialog") == "ui_GapDialog.h";
    assert HeaderStep(args) == [CreateH("/tmp/out", "Dialog", ["ui_GapDialog.h"])];
    assert SourceStep(args) == [CreateCpp("/tmp/out", "Dialog", ["GapDialog.h"])];
    assert UiStep(args) == [CreateUi("/tmp/out", "Dialog")];
  }

  /** A `--files qt` run writes `Gap<c>.h`, `Gap<c>.cpp` and `Gap<c>.ui`, in that order, the last naming `<c>UI`. */
  lemma QtRunFiles(destination: string, className: string, info: AuthorInfo, breaks: LineBreaks)
    ensures var w := Writes(Dispatch(ParsedOptions(Some(destination), Some(className), Some(["qt"]))), info, breaks);
            && |w| == 3
            && w[0].path == destination + "/Gap" + className + ".h"
            && w[1].path == destination + "/Gap" + className + ".cpp"
            && w[2].path == destination + "/Gap" + className + ".ui"
            && Contains(w[2].content, "    <class>" + className + "UI</class>")
  {
    var args := Arguments(destination, className, QtFiles);
    assert "h" in args.files && "cpp" in args.files && "ui" in args.files;
    var plan := Dispatch(ParsedOptions(Some(destination), Some(className), Some(["qt"])));
    assert plan == HeaderStep(args) + SourceStep(args) + UiStep(args);
    assert plan[2] == CreateUi(destination, className);
    GapPath(destination, className, ".h");
    GapPath(destination, className, ".cpp");
    UiFileRecordContent(destination, className, breaks);
  }

  /** Without `--className` nothing is written. */
  lemma ScenarioMissingClassName(destination: Option<string>, files: Option<seq<string>>,
                                 info: AuthorInfo, breaks: LineBreaks)
    ensures Writes(Dispatch(ParsedOptions(destination, None, files)), info, breaks) == []
  {
  }
}
