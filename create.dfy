/**
 * The file-creation façade: one method per artifact kind. Each builds its
 * generator, sets the generator's fields, renders, and writes the result to
 * `destination` joined with the artifact's file name, header and source with a
 * byte-order mark, the `.ui` file without. The record a call writes is given by
 * a function of the inputs; the methods are proved to write exactly that record.
 */
module Create {
  import opened Text
  import opened Utils
  import opened Creator

  /** The namespaces every source file opens with using-directives, in this order. */
  const SourceNamespaces: seq<string> := ["gcmp", "gap"]

  function HFileRecord(destination: string, className: string, includes: seq<string>,
                       info: AuthorInfo, breaks: LineBreaks): WriteRecord
  {
    WriteRecord(PathJoin(destination, HFilename(className)),
                Utf8BomContent(HCreator(className, includes).Create(info, breaks)))
  }

  function CppFileRecord(destination: string, className: string, includes: seq<string>,
                         info: AuthorInfo, breaks: LineBreaks): WriteRecord
  {
    WriteRecord(PathJoin(destination, CppFilename(className)),
                Utf8BomContent(CppCreator(className, includes, SourceNamespaces).Create(info, breaks)))
  }

  function UiFileRecord(destination: string, className: string, breaks: LineBreaks): WriteRecord
  {
    WriteRecord(PathJoin(destination, UiFilename(className)), UiCreator.New(className).Create(breaks.nl))
  }

  /** `path.join(destination, "Gap" + className + ext)` in the form the lemmas below state it. */
  lemma GapPath(destination: string, className: string, ext: string)
    ensures PathJoin(destination, "Gap" + className + ext) == destination + "/Gap" + className + ext
  {
    assert destination + "/" + ("Gap" + className + ext) == destination + "/Gap" + className + ext;
  }

  method CreateHFile(fs: FileSystem, breaks: LineBreaks, destination: string, className: string,
                     includes: seq<string> := [])
    modifies fs
    ensures fs.writes == old(fs.writes)
                         + [HFileRecord(destination, className, includes, LoadedAuthorInfo(fs.authorInfoFile), breaks)]
    ensures fs.authorInfoFile == old(fs.authorInfoFile)
  {
    var creator := HCreator.New(className);
    creator := creator.(includes := includes);
    var authorInfo := fs.LoadAuthorInfo();
    var content := creator.Create(authorInfo, breaks);
    fs.SaveFileAsUtf8Bom(PathJoin(destination, HFilename(className)), content);
  }

  method CreateCppFile(fs: FileSystem, breaks: LineBreaks, destination: string, className: string,
                       includes: seq<string>)
    modifies fs
    ensures fs.writes == old(fs.writes)
                         + [CppFileRecord(destination, className, includes, LoadedAuthorInfo(fs.authorInfoFile), breaks)]
    ensures fs.authorInfoFile == old(fs.authorInfoFile)
  {
    var creator := CppCreator.New(className);
    creator := creator.(includes := includes);
    creator := creator.(namespaces := SourceNamespaces);
    var authorInfo := fs.LoadAuthorInfo();
    var content := creator.Create(authorInfo, breaks);
    fs.SaveFileAsUtf8Bom(PathJoin(destination, CppFilename(className)), content);
  }

  method CreateUiFile(fs: FileSystem, breaks: LineBreaks, destination: string, className: string)
    modifies fs
    ensures fs.writes == old(fs.writes) + [UiFileRecord(destination, className, breaks)]
    ensures fs.authorInfoFile == old(fs.authorInfoFile)
  {
    var creator := UiCreator.New(className);
    var content := creator.Create(breaks.nl);
    fs.SaveFileAsUtf8(PathJoin(destination, UiFilename(className)), content);
  }

  /**
   * The header write goes to `Gap<className>.h` under the destination; its content is a
   * byte-order mark followed by a header that starts with the banner and has each
   * requested include line between `#pragma once` and `namespace gap`.
   */
  lemma HFileRecordContent(destination: string, className: string, includes: seq<string>,
                           info: AuthorInfo, breaks: LineBreaks)
    ensures var w := HFileRecord(destination, className, includes, info, breaks);
            && w.path == destination + "/Gap" + className + ".h"
            && w.content[0] == BOM
            && StartsWith(w.content[1..], Banner(info, breaks.nl))
            && forall k :: 0 <= k < |includes| ==>
                 && Precedes(w.content[1..], "#pragma once", IncludeLine(includes[k]))
                 && Precedes(w.content[1..], IncludeLine(includes[k]), "namespace gap")
  {
    GapPath(destination, className, ".h");
    var c := HCreator(className, includes);
    HeaderLayout(c, info, breaks);
    forall k | 0 <= k < |includes|
      ensures Precedes(c.Create(info, breaks), "#pragma once", IncludeLine(includes[k]))
      ensures Precedes(c.Create(info, breaks), IncludeLine(includes[k]), "namespace gap")
    {
      HeaderIncludes(c, info, breaks, k);
    }
  }

  /**
   * The source write goes to `Gap<className>.cpp` with a byte-order mark; after the
   * strict-warning include it opens `gcmp` and then `gap`, and every include line
   * of the caller comes before the strict-warning include.
   */
  lemma CppFileRecordContent(destination: string, className: string, includes: seq<string>,
                             info: AuthorInfo, breaks: LineBreaks)
    ensures var w := CppFileRecord(destination, className, includes, info, breaks);
            && w.path == destination + "/Gap" + className + ".cpp"
            && w.content[0] == BOM
            && StartsWith(w.content[1..], Banner(info, breaks.nl))
            && Precedes(w.content[1..], LastInclude, "using namespace gcmp;")
            && Precedes(w.content[1..], "using namespace gcmp;", "using namespace gap;")
            && (forall k :: 0 <= k < |includes| ==> Precedes(w.content[1..], IncludeLine(includes[k]), LastInclude))
            && EndsWith(w.content[1..], Join(EmptyDefinitions(className), breaks.nl))
  {
    GapPath(destination, className, ".cpp");
    var c := CppCreator(className, includes, SourceNamespaces);
    var r := c.Create(info, breaks);
    SourceLayout(c, info, breaks);
    SourceIncludesBeforeNamespaces(c, info, breaks);
    assert NamespaceLine(c.namespaces[0]) == "using namespace gcmp;";
    assert NamespaceLine(c.namespaces[1]) == "using namespace gap;";
    SourceNamespacesInOrder(c, info, breaks, 0, 1);
    assert CppFileRecord(destination, className, includes, info, breaks).content[1..] == r;
  }

  /**
   * The `.ui` write goes to `Gap<className>.ui` with no byte-order mark; it names the
   * dialog `<className>UI` and references `GmtitleBar.h`.
   */
  lemma UiFileRecordContent(destination: string, className: string, breaks: LineBreaks)
    ensures var w := UiFileRecord(destination, className, breaks);
            && w.path == destination + "/Gap" + className + ".ui"
            && StartsWith(w.content, XmlDeclaration) && w.content[0] != BOM
            && Contains(w.content, "    <class>" + className + "UI</class>")
            && Contains(w.content, TitleBarHeader)
  {
    GapPath(destination, className, ".ui");
    var r := UiCreator.New(className).Create(breaks.nl);
    UiLayout(UiCreator.New(className), breaks.nl);
    assert r[0] == XmlDeclaration[0] == '<';
  }

  /**
   * The `.ui` write places the dialog at the origin with size 800 by 600: the default
   * geometry lines follow the class line in order, before the title-bar widget.
   */
  lemma UiFileRecordGeometry(destination: string, className: string, breaks: LineBreaks)
    ensures var w := UiFileRecord(destination, className, breaks);
            && Precedes(w.content, "    <x>0</x>", "    <y>0</y>")
            && Precedes(w.content, "    <y>0</y>", "    <width>800</width>")
            && Precedes(w.content, "    <width>800</width>", "    <height>600</height>")
            && InOrder(w.content, ["    <class>" + className + "UI</class>", "    <x>0</x>", "    <y>0</y>",
                                   "    <width>800</width>", "    <height>600</height>", TitleBarWidgetLines[0]])
  {
    var c := UiCreator.New(className);
    DefaultGeometryText();
    UiLayout(c, breaks.nl);
    UiGeometryLayout(c, breaks.nl);
  }

  /** The geometry lines of a new UI generator, rendered. */
  lemma DefaultGeometryText()
    ensures "    <x>" + IntToString(0) + "</x>" == "    <x>0</x>"
    ensures "    <y>" + IntToString(0) + "</y>" == "    <y>0</y>"
    ensures "    <width>" + IntToString(800) + "</width>" == "    <width>800</width>"
    ensures "    <height>" + IntToString(600) + "</height>" == "    <height>600</height>"
  {
  }

  /** The three artifacts of one class never overwrite each other. */
  lemma RecordsTargetDistinctFiles(destination: string, className: string, includesH: seq<string>,
                                   includesCpp: seq<string>, info: AuthorInfo, breaks: LineBreaks)
    ensures var h := HFileRecord(destination, className, includesH, info, breaks).path;
            var cpp := CppFileRecord(destination, className, includesCpp, info, breaks).path;
            var ui := UiFileRecord(destination, className, breaks).path;
            h != cpp && cpp != ui && h != ui
  {
    FilenamesDistinct(className);
  }
}
