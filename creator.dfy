/**
 * The text generators. Each generator is a value holding the fields its
 * constructor and the caller set; `Create` renders the whole file. A template
 * literal is written as the list of its lines joined by the literal's line
 * break `breaks.nl`; include and namespace lines are joined by `breaks.eol`,
 * the platform's end-of-line sequence. The author record, which the banner
 * reads from the author-info file, is a parameter.
 */
module Creator {
  import opened Text
  import opened Utils

  /** The line break of a template literal, and the platform end-of-line used by `join`. */
  datatype LineBreaks = LineBreaks(nl: string, eol: string)

  /** The two-line authorship banner that every source file starts with. */
  function Banner(info: AuthorInfo, nl: string): string
  {
    "// Owner: " + info.owner + nl + "// Co-Owner: " + info.coOwner
  }

  /** `#include "<header>"`; the header name can be read back from between the quotes. */
  function IncludeLine(header: string): (r: string)
    ensures StartsWith(r, "#include \"") && EndsWith(r, "\"")
    ensures |r| == |header| + 11 && r[10..|r| - 1] == header
  {
    "#include \"" + header + "\""
  }

  /** One include line per header, in list order, separated by `eol`. */
  function GetIncludeLines(includes: seq<string>, eol: string): string
  {
    Join(MapSeq(includes, IncludeLine), eol)
  }

  /** `using namespace <namespace>;`; the namespace can be read back from before the semicolon. */
  function NamespaceLine(namespace: string): (r: string)
    ensures StartsWith(r, "using namespace ") && EndsWith(r, ";")
    ensures |r| == |namespace| + 17 && r[16..|r| - 1] == namespace
  {
    "using namespace " + namespace + ";"
  }

  /** One using-directive per namespace, in list order, separated by `eol`. */
  function GetNamespaceLines(namespaces: seq<string>, eol: string): string
  {
    Join(MapSeq(namespaces, NamespaceLine), eol)
  }

  /** No headers give no text at all. */
  lemma IncludeLinesEmpty(eol: string)
    ensures GetIncludeLines([], eol) == ""
  {
  }

  /** Two header lists render as their two renderings separated by `eol`. */
  lemma IncludeLinesConcat(a: seq<string>, b: seq<string>, eol: string)
    requires a != [] && b != []
    ensures GetIncludeLines(a + b, eol) == GetIncludeLines(a, eol) + eol + GetIncludeLines(b, eol)
  {
    MapJoinConcat(a, b, IncludeLine, eol);
  }

  /** One header gives exactly its include line, with no separator. */
  lemma IncludeLinesSingleton(header: string, eol: string)
    ensures GetIncludeLines([header], eol) == IncludeLine(header)
  {
    assert MapSeq([header], IncludeLine) == [IncludeLine(header)];
  }

  /** Every header has its include line. */
  lemma IncludeLinesContain(includes: seq<string>, eol: string, k: nat)
    requires k < |includes|
    ensures Contains(GetIncludeLines(includes, eol), IncludeLine(includes[k]))
  {
    JoinContains(MapSeq(includes, IncludeLine), eol, k);
  }

  /** The include lines keep the order of the list. */
  lemma IncludeLinesInOrder(includes: seq<string>, eol: string, i: nat, j: nat)
    requires i < j < |includes|
    ensures Contains(GetIncludeLines(includes, eol), IncludeLine(includes[i]))
    ensures Precedes(GetIncludeLines(includes, eol), IncludeLine(includes[i]), IncludeLine(includes[j]))
  {
    JoinContains(MapSeq(includes, IncludeLine), eol, i);
    JoinPrecedes(MapSeq(includes, IncludeLine), eol, i, j);
  }

  lemma NamespaceLinesEmpty(eol: string)
    ensures GetNamespaceLines([], eol) == ""
  {
  }

  lemma NamespaceLinesConcat(a: seq<string>, b: seq<string>, eol: string)
    requires a != [] && b != []
    ensures GetNamespaceLines(a + b, eol) == GetNamespaceLines(a, eol) + eol + GetNamespaceLines(b, eol)
  {
    MapJoinConcat(a, b, NamespaceLine, eol);
  }

  /** One namespace gives exactly its using-directive. */
  lemma NamespaceLinesSingleton(namespace: string, eol: string)
    ensures GetNamespaceLines([namespace], eol) == NamespaceLine(namespace)
  {
    assert MapSeq([namespace], NamespaceLine) == [NamespaceLine(namespace)];
  }

  /** Every namespace has its using-directive. */
  lemma NamespaceLinesContain(namespaces: seq<string>, eol: string, k: nat)
    requires k < |namespaces|
    ensures Contains(GetNamespaceLines(namespaces, eol), NamespaceLine(namespaces[k]))
  {
    JoinContains(MapSeq(namespaces, NamespaceLine), eol, k);
  }

  /** The using-directives keep the order of the list. */
  lemma NamespaceLinesInOrder(namespaces: seq<string>, eol: string, i: nat, j: nat)
    requires i < j < |namespaces|
    ensures Contains(GetNamespaceLines(namespaces, eol), NamespaceLine(namespaces[i]))
    ensures Precedes(GetNamespaceLines(namespaces, eol), NamespaceLine(namespaces[i]), NamespaceLine(namespaces[j]))
  {
    JoinContains(MapSeq(namespaces, NamespaceLine), eol, i);
    JoinPrecedes(MapSeq(namespaces, NamespaceLine), eol, i, j);
  }

  /** The header-file generator. */
  datatype HCreator = HCreator(className: string, includes: seq<string>) {

    /** A new header generator has no includes. */
    static function New(className: string): (c: HCreator)
      ensures c.className == className && c.includes == []
    {
      HCreator(className, [])
    }

    function Lines(info: AuthorInfo, breaks: LineBreaks): seq<string>
    {
      [ Banner(info, breaks.nl),
        "",
        "#pragma once",
        "",
        GetIncludeLines(includes, breaks.eol),
        "",
        "namespace gap",
        "{",
        "    class " + className,
        "    {",
        "    public:",
        "",
        ConstructorDeclaration(className),
        "",
        DestructorDeclaration(className),
        "",
        "    };",
        "}",
        "" ]
    }

    function Create(info: AuthorInfo, breaks: LineBreaks): string
    {
      Join(Lines(info, breaks), breaks.nl)
    }
  }

  /** The declarations of the constructor and destructor inside the class body. */
  function ConstructorDeclaration(className: string): string
  {
    "        " + className + "();"
  }

  function DestructorDeclaration(className: string): string
  {
    "        ~" + className + "();"
  }

  /** The header starts with the banner, then `#pragma once`, the include lines and `namespace gap`, in that order. */
  lemma HeaderLayout(c: HCreator, info: AuthorInfo, breaks: LineBreaks)
    ensures var r := c.Create(info, breaks);
            && StartsWith(r, Banner(info, breaks.nl))
            && Precedes(r, "#pragma once", GetIncludeLines(c.includes, breaks.eol))
            && Precedes(r, GetIncludeLines(c.includes, breaks.eol), "namespace gap")
  {
    var parts := c.Lines(info, breaks);
    var nl := breaks.nl;
    JoinStartsWith(parts, nl);
    JoinPrecedes(parts, nl, 2, 4);
    JoinPrecedes(parts, nl, 4, 6);
  }

  /** Banner, `#pragma once`, the include lines and `namespace gap` appear one after another, in that order. */
  lemma HeaderSectionsInOrder(c: HCreator, info: AuthorInfo, breaks: LineBreaks)
    ensures InOrder(c.Create(info, breaks),
                    [Banner(info, breaks.nl), "#pragma once", GetIncludeLines(c.includes, breaks.eol), "namespace gap"])
  {
    var parts := c.Lines(info, breaks);
    JoinInOrder(parts, breaks.nl, [0, 2, 4, 6]);
    assert Select(parts, [0, 2, 4, 6])
        == [Banner(info, breaks.nl), "#pragma once", GetIncludeLines(c.includes, breaks.eol), "namespace gap"];
  }

  /**
   * Inside `namespace gap` the header declares the class, then the constructor, then the
   * destructor, closes the class body, and ends with the namespace's closing brace and a newline.
   */
  lemma HeaderClassLayout(c: HCreator, info: AuthorInfo, breaks: LineBreaks)
    ensures var r := c.Create(info, breaks);
            && Precedes(r, "namespace gap", "    class " + c.className)
            && Precedes(r, "    class " + c.className, ConstructorDeclaration(c.className))
            && Precedes(r, ConstructorDeclaration(c.className), DestructorDeclaration(c.className))
            && Precedes(r, DestructorDeclaration(c.className), "    };")
            && EndsWith(r, "}" + breaks.nl)
  {
    var parts := c.Lines(info, breaks);
    var nl := breaks.nl;
    JoinPrecedes(parts, nl, 6, 8);
    JoinPrecedes(parts, nl, 8, 12);
    JoinPrecedes(parts, nl, 12, 14);
    JoinPrecedes(parts, nl, 14, 16);
    JoinEndsWith(parts, nl, 17);
    assert parts[17..] == ["}"] + [""];
    JoinCons("}", [""], nl);
  }

  /**
   * `namespace gap`, the class line, the constructor and destructor declarations, the end of
   * the class body and the end of the namespace appear one after another, in that order:
   * both declarations are inside the class body inside `namespace gap`.
   */
  lemma HeaderClassInOrder(c: HCreator, info: AuthorInfo, breaks: LineBreaks)
    ensures InOrder(c.Create(info, breaks),
                    ["namespace gap", "    class " + c.className, ConstructorDeclaration(c.className),
                     DestructorDeclaration(c.className), "    };", "}"])
  {
    var parts := c.Lines(info, breaks);
    JoinInOrder(parts, breaks.nl, [6, 8, 12, 14, 16, 17]);
    assert Select(parts, [6, 8, 12, 14, 16, 17])
        == ["namespace gap", "    class " + c.className, ConstructorDeclaration(c.className),
            DestructorDeclaration(c.className), "    };", "}"];
  }

  /** Each requested include line sits after `#pragma once` and before `namespace gap`, in list order. */
  lemma HeaderIncludes(c: HCreator, info: AuthorInfo, breaks: LineBreaks, k: nat)
    requires k < |c.includes|
    ensures var r := c.Create(info, breaks);
            && Precedes(r, "#pragma once", IncludeLine(c.includes[k]))
            && Precedes(r, IncludeLine(c.includes[k]), "namespace gap")
            && (k + 1 < |c.includes| ==> Precedes(r, IncludeLine(c.includes[k]), IncludeLine(c.includes[k + 1])))
  {
    var parts := c.Lines(info, breaks);
    var inner := MapSeq(c.includes, IncludeLine);
    JoinPrecedesNested(parts, breaks.nl, 2, 4, inner, breaks.eol, k);
    JoinNestedPrecedes(parts, breaks.nl, 4, 6, inner, breaks.eol, k);
    if k + 1 < |c.includes| {
      JoinNestedOrder(parts, breaks.nl, 4, inner, breaks.eol, k, k + 1);
    }
  }

  /** The include that switches on strict warnings; it must be the last include of a source file. */
  const LastInclude: string := "#include \"EnableCompileWarning_The_LAST_IncludeInCpp.h\""

  /** The empty-bodied constructor and destructor definitions that close a source file. */
  function EmptyDefinitions(className: string): seq<string>
  {
    [ className + "::" + className + "()",
      "{",
      "}",
      "",
      className + "::~" + className + "()",
      "{",
      "}",
      "" ]
  }

  /** The source-file generator. */
  datatype CppCreator = CppCreator(className: string, includes: seq<string>, namespaces: seq<string>) {

    /** A new source generator has no includes and no namespaces. */
    static function New(className: string): (c: CppCreator)
      ensures c.className == className && c.includes == [] && c.namespaces == []
    {
      CppCreator(className, [], [])
    }

    function Lines(info: AuthorInfo, breaks: LineBreaks): seq<string>
    {
      [ Banner(info, breaks.nl),
        "",
        GetIncludeLines(includes, breaks.eol),
        "",
        LastInclude,
        "",
        GetNamespaceLines(namespaces, breaks.eol),
        "" ]
      + EmptyDefinitions(className)
    }

    function Create(info: AuthorInfo, breaks: LineBreaks): string
    {
      Join(Lines(info, breaks), breaks.nl)
    }
  }

  /**
   * The source file starts with the banner, puts the include lines before the
   * strict-warning include and that include before the using-directives, and ends
   * with the empty constructor and destructor definitions.
   */
  lemma SourceLayout(c: CppCreator, info: AuthorInfo, breaks: LineBreaks)
    ensures var r := c.Create(info, breaks);
            && StartsWith(r, Banner(info, breaks.nl))
            && Precedes(r, GetIncludeLines(c.includes, breaks.eol), LastInclude)
            && Precedes(r, LastInclude, GetNamespaceLines(c.namespaces, breaks.eol))
            && EndsWith(r, Join(EmptyDefinitions(c.className), breaks.nl))
  {
    var parts := c.Lines(info, breaks);
    var nl := breaks.nl;
    JoinStartsWith(parts, nl);
    JoinPrecedes(parts, nl, 2, 4);
    JoinPrecedes(parts, nl, 4, 6);
    JoinEndsWith(parts, nl, 8);
    assert parts[8..] == EmptyDefinitions(c.className);
  }

  /** Banner, include lines, strict-warning include and using-directives appear one after another, in that order. */
  lemma SourceSectionsInOrder(c: CppCreator, info: AuthorInfo, breaks: LineBreaks)
    ensures InOrder(c.Create(info, breaks),
                    [Banner(info, breaks.nl), GetIncludeLines(c.includes, breaks.eol), LastInclude,
                     GetNamespaceLines(c.namespaces, breaks.eol)])
  {
    var parts := c.Lines(info, breaks);
    JoinInOrder(parts, breaks.nl, [0, 2, 4, 6]);
    assert Select(parts, [0, 2, 4, 6])
        == [Banner(info, breaks.nl), GetIncludeLines(c.includes, breaks.eol), LastInclude,
            GetNamespaceLines(c.namespaces, breaks.eol)];
  }

  /** Every include line comes before the strict-warning include, and that before every using-directive. */
  lemma SourceIncludesBeforeNamespaces(c: CppCreator, info: AuthorInfo, breaks: LineBreaks)
    ensures forall k :: 0 <= k < |c.includes| ==>
              Precedes(c.Create(info, breaks), IncludeLine(c.includes[k]), LastInclude)
    ensures forall k :: 0 <= k < |c.namespaces| ==>
              Precedes(c.Create(info, breaks), LastInclude, NamespaceLine(c.namespaces[k]))
  {
    var parts := c.Lines(info, breaks);
    forall k | 0 <= k < |c.includes|
      ensures Precedes(c.Create(info, breaks), IncludeLine(c.includes[k]), LastInclude)
    {
      JoinNestedPrecedes(parts, breaks.nl, 2, 4, MapSeq(c.includes, IncludeLine), breaks.eol, k);
    }
    forall k | 0 <= k < |c.namespaces|
      ensures Precedes(c.Create(info, breaks), LastInclude, NamespaceLine(c.namespaces[k]))
    {
      JoinPrecedesNested(parts, breaks.nl, 4, 6, MapSeq(c.namespaces, NamespaceLine), breaks.eol, k);
    }
  }

  /** The using-directives keep the order of the namespace list. */
  lemma SourceNamespacesInOrder(c: CppCreator, info: AuthorInfo, breaks: LineBreaks, i: nat, j: nat)
    requires i < j < |c.namespaces|
    ensures Precedes(c.Create(info, breaks), NamespaceLine(c.namespaces[i]), NamespaceLine(c.namespaces[j]))
  {
    JoinNestedOrder(c.Lines(info, breaks), breaks.nl, 6, MapSeq(c.namespaces, NamespaceLine), breaks.eol, i, j);
  }

  /** The header the title-bar widget class is declared in; it does not depend on the class name. */
  const TitleBarHeader: string := "    <header>GmtitleBar.h</header>"

  const XmlDeclaration: string := "<?xml version=\"1.0\" encoding=\"UTF-8\"?>"

  /** The title-bar widget nested in the dialog, with its fixed geometry and font, and the dialog's end tag. */
  const TitleBarWidgetLines: seq<string> :=
    [ "    <widget class=\"GmTitleBar\" name=\"gbmp_title\" native=\"true\">",
      "    <property name=\"geometry\">",
      "    <rect>",
      "        <x>0</x>",
      "        <y>0</y>",
      "        <width>720</width>",
      "        <height>24</height>",
      "    </rect>",
      "    </property>",
      "    <property name=\"minimumSize\">",
      "    <size>",
      "        <width>0</width>",
      "        <height>24</height>",
      "    </size>",
      "    </property>",
      "    <property name=\"font\">",
      "    <font>",
      "        <family>\U{5FAE}\U{8F6F}\U{96C5}\U{9ED1}</family>",
      "    </font>",
      "    </property>",
      "    <property name=\"autoFillBackground\">",
      "    <bool>false</bool>",
      "    </property>",
      "    </widget>",
      "    </widget>" ]

  /** The registration of the title-bar widget class, and the end of the document. */
  const CustomWidgetLines: seq<string> :=
    [ "    <customwidgets>",
      "    <customwidget>",
      "    <class>GmTitleBar</class>",
      "    <extends>QWidget</extends>",
      TitleBarHeader,
      "    <container>1</container>",
      "    </customwidget>",
      "    </customwidgets>",
      "    <resources/>",
      "    <connections/>",
      "</ui>",
      "" ]

  /** The Qt Designer `.ui` generator: a dialog with a fixed title-bar widget. */
  datatype UiCreator = UiCreator(className: string, x: int, y: int, width: int, height: int) {

    /** A new UI generator places an 800 by 600 dialog at the origin. */
    static function New(className: string): (c: UiCreator)
      ensures c.className == className
      ensures c.x == 0 && c.y == 0 && c.width == 800 && c.height == 600
    {
      UiCreator(className, 0, 0, 800, 600)
    }

    function Lines(): seq<string>
    {
      [ XmlDeclaration,
        "<ui version=\"4.0\">",
        "    <class>" + className + "UI</class>",
        "    <widget class=\"QDialog\" name=\"" + className + "UI\">",
        "    <property name=\"geometry\">",
        "    <rect>",
        "    <x>" + IntToString(x) + "</x>",
        "    <y>" + IntToString(y) + "</y>",
        "    <width>" + IntToString(width) + "</width>",
        "    <height>" + IntToString(height) + "</height>",
        "    </rect>",
        "    </property>" ]
      + TitleBarWidgetLines + CustomWidgetLines
    }

    function Create(nl: string): string
    {
      Join(Lines(), nl)
    }
  }

  /**
   * The `.ui` document names the dialog class `<className>UI`, gives its geometry in
   * the order x, y, width, height, and registers the title bar from `GmtitleBar.h`
   * whatever the class name is.
   */
  lemma UiLayout(c: UiCreator, nl: string)
    ensures var r := c.Create(nl);
            && StartsWith(r, XmlDeclaration)
            && Contains(r, "    <class>" + c.className + "UI</class>")
            && Precedes(r, "    <x>" + IntToString(c.x) + "</x>", "    <y>" + IntToString(c.y) + "</y>")
            && Precedes(r, "    <y>" + IntToString(c.y) + "</y>", "    <width>" + IntToString(c.width) + "</width>")
            && Precedes(r, "    <width>" + IntToString(c.width) + "</width>", "    <height>" + IntToString(c.height) + "</height>")
            && Contains(r, TitleBarHeader)
  {
    var parts := c.Lines();
    assert parts[0] == XmlDeclaration;
    JoinStartsWith(parts, nl);
    JoinContains(parts, nl, 2);
    JoinPrecedes(parts, nl, 6, 7);
    JoinPrecedes(parts, nl, 7, 8);
    JoinPrecedes(parts, nl, 8, 9);
    assert parts[41] == CustomWidgetLines[4] == TitleBarHeader;
    JoinContains(parts, nl, 41);
  }

  /**
   * The dialog's own geometry: after the class line come x, y, width and height, one
   * after another, all before the nested title-bar widget begins (whose `<rect>` also
   * holds `<x>` and `<y>` lines).
   */
  lemma UiGeometryLayout(c: UiCreator, nl: string)
    ensures InOrder(c.Create(nl), ["    <class>" + c.className + "UI</class>",
                                   "    <x>" + IntToString(c.x) + "</x>",
                                   "    <y>" + IntToString(c.y) + "</y>",
                                   "    <width>" + IntToString(c.width) + "</width>",
                                   "    <height>" + IntToString(c.height) + "</height>",
                                   TitleBarWidgetLines[0]])
  {
    var parts := c.Lines();
    assert parts[12] == TitleBarWidgetLines[0];
    JoinInOrder(parts, nl, [2, 6, 7, 8, 9, 12]);
    assert Select(parts, [2, 6, 7, 8, 9, 12])
        == ["    <class>" + c.className + "UI</class>",
            "    <x>" + IntToString(c.x) + "</x>",
            "    <y>" + IntToString(c.y) + "</y>",
            "    <width>" + IntToString(c.width) + "</width>",
            "    <height>" + IntToString(c.height) + "</height>",
            TitleBarWidgetLines[0]];
  }
}
