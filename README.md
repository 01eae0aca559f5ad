# gap-create, modelled in Dafny

gap-create is a command-line tool that scaffolds a C++ class for the GAP code base. It writes:

- `Gap<Class>.h`, a header with an authorship banner, `#pragma once`, include lines and a class declared in `namespace gap`;
- `Gap<Class>.cpp`, a source file with the banner, include lines, a strict-warning include that must come last, using-directives for `gcmp` and `gap`, and empty constructor and destructor definitions;
- `Gap<Class>.ui`, a Qt Designer dialog with a title-bar widget.

The header and source are written in UTF-8 with a byte-order mark. The `.ui` file has no mark. The banner shows the owner and co-owner stored in the user's author-info file; if that file is absent, both are empty.

The model has six modules, one per source file plus two support modules:

- `Wrappers`: `Option`.
- `Text`: the runtime's string facilities.
  - `Join` is `Array.prototype.join`, with lemmas that locate each part and keep the parts in order.
  - `IntToString` renders an integer in decimal as a template literal renders an integral `number` that is a safe integer (magnitude at most 2^53), and has a parse-back round trip.
- `Utils` (`src/utils.ts`):
  - the file-name rules, the default author record and the byte-order-mark transform;
  - a `FileSystem` class with an ordered log of whole-file writes and the decoded author-info file, which is `None` when it does not exist.
- `Creator` (`src/creator.ts`): the three generators as datatypes.
  - Each `Create` is the template literal, written as the list of its lines joined by the literal's line break `breaks.nl`.
  - Include lines and using-directives are joined by the platform end-of-line `breaks.eol`.
  - The author record that `SourceFileCreator.create` loads is passed in as a parameter.
- `Create` (`src/create.ts`): one method per artifact.
  - Each method builds a generator and sets its fields. The header and source methods then load the author record from the `FileSystem`. Each method renders and appends exactly one write record.
  - Each method is proved to append the record that `HFileRecord`, `CppFileRecord` or `UiFileRecord` gives.
- `Cli` (`src/main.ts`):
  - `ParseArguments` turns the already-parsed flags into the request.
  - `Plan` and `Dispatch` give the façade calls the entry point makes.
  - `Execute` is the entry point's body as a method, proved to log exactly the records of `Dispatch`.

## Model

| member | source | states |
|---|---|---|
| Utils.PathJoin | src/create.ts:16 | The path is the directory, one `/`, then the file name, each readable back by position. |
| Utils.CreateFilename | src/utils.ts:88-90 | The name is prefix, main name and extension, in that order, and each part can be read back by position. The prefix defaults to "Gap". |
| Utils.CreateFilenameInjective | src/utils.ts:88-90 | With prefix and extension fixed, equal file names mean equal main names. |
| Utils.HFilename | src/utils.ts:98-100 | `"Gap" + className + ext`. `ext` defaults to ".h"; an explicit `ext` replaces it. |
| Utils.CppFilename | src/utils.ts:108-110 | `"Gap" + className + ext`, with ".cpp" by default. |
| Utils.UiFilename | src/utils.ts:118-120 | `"Gap" + className + ext`, with ".ui" by default. |
| Utils.UiClassFilename | src/utils.ts:128-130 | `"ui_Gap" + className + ext`, with ".h" by default. |
| Utils.UiClassFilenameIsNotHFilename | src/utils.ts:98-130 | The uic header name differs from every generated header name, for any two class names. |
| Utils.FilenamesDistinct | src/utils.ts:98-120 | The `.h`, `.cpp` and `.ui` names of one class are pairwise different. |
| Utils.DefaultAuthorInfo | src/utils.ts:136-141 | Owner and co-owner are both the empty string. |
| Utils.Utf8BomContent | src/utils.ts:57-59 | One longer than the input: U+FEFF first, then the input unchanged. |
| Utils.Utf8BomSingleMark | src/utils.ts:57-59 | Content without its own U+FEFF gets exactly one. |
| Utils.LoadedAuthorInfo | src/utils.ts:166-169 | An absent file gives the default record; an existing file gives its record. |
| Utils.StoredAuthorInfo | src/utils.ts:155-160 | After a write the file exists. It holds the given record, or the default when none is given. |
| Utils.AuthorInfoRoundTrip | src/utils.ts:155-169 | Loading after writing gives back the written record, or the default. |
| Utils.FileSystem.SaveFileAsUtf8 | src/utils.ts:46-50 | Appends one record with the path and the content as given; the author-info file is untouched. |
| Utils.FileSystem.SaveFileAsUtf8Bom | src/utils.ts:57-59 | Appends one record whose content is the mark-prefixed input; nothing else changes. |
| Utils.FileSystem.LoadAuthorInfo | src/utils.ts:166-169 | Returns the stored record if the file exists, else the default. |
| Utils.FileSystem.WriteAuthorInfo | src/utils.ts:155-160 | The file then holds the given record, or the default for no argument. The text-file log is unchanged. |
| Text.Join | src/creator.ts:64 | No contract. It is `Array.prototype.join`; its properties are in `Text.JoinAt`, `Text.JoinOrder`, `Text.JoinConcat` and `Text.JoinEndsWith`, used by all layout lemmas. |
| Text.MapSeq | src/creator.ts:61-63 | The result of `items.map(f)` is as long as the input, and element `k` is `f` of item `k`. |
| Text.IntToString | src/creator.ts:200-203 | No contract. It is the decimal rendering of a geometry field; its properties are `Text.IntToStringRoundTrip` and `Text.IntToStringInjective`. |
| Text.IntToStringRoundTrip | src/creator.ts:200-203 | A rendered geometry number parses back to itself, negative numbers included. |
| Text.IntToStringInjective | src/creator.ts:200-203 | Different geometry values render as different text. |
| Creator.Banner | src/creator.ts:23-27 | No contract. The text is the definition. `Creator.HeaderLayout`, `Creator.SourceLayout` and the record lemmas prove both files start with it. |
| Creator.IncludeLine | src/creator.ts:52-54 | Starts with `#include "` and ends with `"`, and the header name reads back from between the quotes. |
| Creator.GetIncludeLines | src/creator.ts:60-65 | No contract; properties in `Creator.IncludeLinesEmpty`, `Creator.IncludeLinesSingleton`, `Creator.IncludeLinesConcat`, `Creator.IncludeLinesContain` and `Creator.IncludeLinesInOrder`. |
| Creator.IncludeLinesContain | src/creator.ts:60-65 | Every header's `#include "<h>"` line is present, lists of one element included. |
| Creator.IncludeLinesEmpty | src/creator.ts:60-65 | No headers give the empty string. |
| Creator.IncludeLinesSingleton | src/creator.ts:60-65 | A list of one header renders as exactly its `#include` line, with no separator. |
| Creator.IncludeLinesConcat | src/creator.ts:60-65 | The include lines of `a + b` are those of `a`, an end-of-line, then those of `b`. With `Creator.IncludeLinesSingleton` and `Creator.IncludeLinesEmpty`, this fixes the rendering of every list: one line per header and no extra separator. |
| Creator.IncludeLinesInOrder | src/creator.ts:52-65 | For two positions `i < j` of the list, the include line of `i` comes before that of `j`. |
| Creator.NamespaceLine | src/creator.ts:127-129 | Starts with `using namespace ` and ends with `;`, and the namespace reads back from between them. |
| Creator.GetNamespaceLines | src/creator.ts:135-141 | No contract; properties in `Creator.NamespaceLinesEmpty`, `Creator.NamespaceLinesSingleton`, `Creator.NamespaceLinesConcat`, `Creator.NamespaceLinesContain` and `Creator.NamespaceLinesInOrder`. |
| Creator.NamespaceLinesContain | src/creator.ts:135-141 | Every namespace's `using namespace <ns>;` line is present, lists of one element included. |
| Creator.NamespaceLinesEmpty | src/creator.ts:135-141 | No namespaces give the empty string. |
| Creator.NamespaceLinesSingleton | src/creator.ts:135-141 | A list of one namespace renders as exactly its using-directive, with no separator. |
| Creator.NamespaceLinesConcat | src/creator.ts:135-141 | The using-directives of `a + b` are those of `a`, an end-of-line, then those of `b`. With `Creator.NamespaceLinesSingleton` and `Creator.NamespaceLinesEmpty`, this fixes the rendering of every list. |
| Creator.NamespaceLinesInOrder | src/creator.ts:127-141 | For two positions `i < j` of the list, the using-directive of `i` comes before that of `j`. |
| Creator.HCreator.New | src/creator.ts:76-78 | A new header generator has the class name and no includes. |
| Creator.HCreator.Create | src/creator.ts:84-104 | No contract. It is the template literal as its lines joined by `breaks.nl`; properties in `Creator.HeaderLayout`, `Creator.HeaderSectionsInOrder`, `Creator.HeaderClassLayout`, `Creator.HeaderClassInOrder` and `Creator.HeaderIncludes`. |
| Creator.HeaderLayout | src/creator.ts:84-91 | The header starts with the owner/co-owner banner. `#pragma once` comes before the include lines, and those come before `namespace gap`. |
| Creator.HeaderSectionsInOrder | src/creator.ts:85-91 | Banner, `#pragma once`, the include lines and `namespace gap` occur one after another, each occurrence ending before the next one starts. |
| Creator.HeaderClassLayout | src/creator.ts:91-103 | Four adjacent pairs, each with its own occurrences: `namespace gap` precedes the class line, the class line precedes `C();`, `C();` precedes `~C();`, and `~C();` precedes the class's closing `};`. The file ends with `}` and a line break. The single chain through all of them is `Creator.HeaderClassInOrder`. |
| Creator.HeaderClassInOrder | src/creator.ts:91-103 | `namespace gap`, the class line, `C();`, `~C();`, the class's closing `};` and the namespace's closing `}` occur one after another, each ending before the next starts. So both declarations sit inside the class body, inside `namespace gap`. |
| Creator.HeaderIncludes | src/creator.ts:87-91 | Each include line sits after `#pragma once` and before `namespace gap`, and consecutive includes keep their order. |
| Creator.CppCreator.New | src/creator.ts:117-120 | A new source generator has the class name, no includes and no namespaces. |
| Creator.CppCreator.Create | src/creator.ts:147-164 | No contract; properties in `Creator.SourceLayout`, `Creator.SourceSectionsInOrder`, `Creator.SourceIncludesBeforeNamespaces` and `Creator.SourceNamespacesInOrder`. |
| Creator.SourceSectionsInOrder | src/creator.ts:148-154 | Banner, the include lines, the strict-warning include and the using-directives occur one after another, each occurrence ending before the next one starts. |
| Creator.SourceLayout | src/creator.ts:147-164 | The source starts with the banner. The includes come before the strict-warning include, and that comes before the using-directives. The file ends with the empty `C::C()` and `C::~C()` definitions. |
| Creator.SourceIncludesBeforeNamespaces | src/creator.ts:150-154 | Every include line precedes the strict-warning include, which precedes every using-directive. |
| Creator.SourceNamespacesInOrder | src/creator.ts:135-154 | In the source file, using-directives keep the order of the namespace list. |
| Creator.UiCreator.New | src/creator.ts:181-187 | A new UI generator places the dialog at x 0, y 0, with width 800 and height 600. |
| Creator.UiCreator.Create | src/creator.ts:193-243 | No contract; properties in `Creator.UiLayout` and `Creator.UiGeometryLayout`. |
| Creator.UiGeometryLayout | src/creator.ts:196-206 | The dialog's own geometry: the class line, then `<x>`, `<y>`, `<width>` and `<height>` with the generator's values, occur one after another, all before the nested title-bar widget starts (whose own `<rect>` also has `<x>` and `<y>` lines). |
| Creator.UiLayout | src/creator.ts:193-243 | The document starts with the XML declaration and names the class `<C>UI`. It references `GmtitleBar.h` whatever the class name. Three adjacent pairs, each with its own occurrences: the `<x>` line precedes the `<y>` line, `<y>` precedes `<width>`, and `<width>` precedes `<height>`. The single chain, placing all four in the dialog's own rectangle, is `Creator.UiGeometryLayout`. |
| Create.HFileRecord | src/create.ts:12-17 | No contract. It is the record `createHFile` writes; properties in `Create.HFileRecordContent`, and `Create.CreateHFile` is proved to append it. |
| Create.CppFileRecord | src/create.ts:25-31 | No contract. It is the record `createCppFile` writes; properties in `Create.CppFileRecordContent`, and `Create.CreateCppFile` is proved to append it. |
| Create.UiFileRecord | src/create.ts:38-42 | No contract. It is the record `createUiFile` writes; properties in `Create.UiFileRecordContent` and `Create.UiFileRecordGeometry`, and `Create.CreateUiFile` is proved to append it. |
| Create.CreateHFile | src/create.ts:12-17 | Appends exactly the header record and leaves the author-info file unchanged. |
| Create.CreateCppFile | src/create.ts:25-31 | Appends exactly the source record. Its generator has the caller's includes and the namespaces `gcmp`, `gap`. The author-info file is unchanged. |
| Create.CreateUiFile | src/create.ts:38-42 | Appends exactly the `.ui` record and leaves the author-info file unchanged. |
| Create.HFileRecordContent | src/create.ts:12-17 | Path `<destination>/Gap<C>.h`. The content is U+FEFF, then the banner, with every requested include between `#pragma once` and `namespace gap`. |
| Create.CppFileRecordContent | src/create.ts:25-31 | Path `<destination>/Gap<C>.cpp`, with U+FEFF and the banner first. Every caller include comes before the strict-warning include. Then `using namespace gcmp;` comes before `using namespace gap;`. It ends with the empty definitions. |
| Create.UiFileRecordContent | src/create.ts:38-42 | Path `<destination>/Gap<C>.ui`. The content starts with the XML declaration and has no mark. It names `<C>UI` and references `GmtitleBar.h`. |
| Create.UiFileRecordGeometry | src/create.ts:38-42 | The written `.ui` file uses the constructor defaults: `<x>0</x>`, `<y>0</y>`, `<width>800</width>`, `<height>600</height>`, in that order. They occur one after another after the `<C>UI` class line and before the title-bar widget starts, so they are the dialog's rectangle, not the title bar's. |
| Create.RecordsTargetDistinctFiles | src/create.ts:12-42 | The three façade calls for one class write three different paths. |
| Cli.ParseArguments | src/main.ts:29-47 | No request exactly when `destination` or `className` is missing. Otherwise both are kept as given, and the file set is non-empty and never contains "qt". |
| Cli.FileSetRules | src/main.ts:33-40 | The file set is decided as follows: no list gives `["h","cpp"]`; a list naming "qt" gives `["h","cpp","ui"]`; any other non-empty list is kept verbatim; an empty list gives `["h","cpp"]`. |
| Cli.HeaderStep | src/main.ts:57-63 | No contract; `Cli.Plan` states what it contributes: the header call exactly when "h" is requested, with its include list. |
| Cli.SourceStep | src/main.ts:65-68 | No contract; `Cli.Plan` states the source call and its includes `[hFilename(C)]`. |
| Cli.UiStep | src/main.ts:70-72 | No contract; `Cli.Plan` states the `.ui` call. |
| Cli.Plan | src/main.ts:57-72 | One call per requested kind, in the order h, cpp, ui, each at most once, however often it is named. All calls use the request's destination and class. The header includes `[uiClassFilename(C)]` exactly when "ui" is requested. The source includes `[hFilename(C)]`. |
| Cli.PlanCoversRequestedKinds | src/main.ts:57-72 | A kind has a call exactly when it is requested, in both directions. |
| Cli.Dispatch | src/main.ts:55-56 | A missing `destination` or `className` plans no call at all. |
| Cli.Writes | src/main.ts:55-73 | One record per planned call, in plan order: element `i` is the record that call `i` writes. |
| Cli.DispatchWritesDistinctFiles | src/main.ts:55-73 | No run writes the same path twice. |
| Cli.Execute | src/main.ts:55-73 | The run appends exactly the records of the planned calls, in order, and nothing else. The author-info file is unchanged. |
| Cli.ScenarioHeaderAndSource | src/main.ts:29-68 | `--files h cpp` plans a header with no includes and a source including `GapWidget.h`. |
| Cli.ScenarioQt | src/main.ts:29-72 | `--files qt` plans a header including `ui_GapDialog.h`, a source including `GapDialog.h`, then the `.ui` file. |
| Cli.QtRunFiles | src/main.ts:29-72 | For any destination and class, a `qt` run writes `.h`, `.cpp` and `.ui` files in that order. The `.ui` file names `<C>UI`. |
| Cli.ScenarioMissingClassName | src/main.ts:30-32 | Without a class name nothing is written. |

## Left out

- Writes never fail in the model. In the tool, `writeFileSync` throws when the destination is missing or not writable. The three calls of the entry point are not guarded, so a failed write ends the run, and only the records written before it remain. `Cli.Execute` and the façade methods describe a run in which every write succeeds.
- Real file-system access (`existsSync`, `statSync`, `writeFileSync`, `readFileSync`) is left out, because it is I/O. Writes are an ordered log of whole-file records, and the author-info file is an `Option<AuthorInfo>`.
- `isValidDirectory` and `isValidFile` are left out: they are I/O probes. `loadAuthorInfo`'s existence test is the `Some`/`None` of the author-info field.
- `JSON.parse`, `JSON.stringify` and `loadJsonAs` are library calls, so the author-info file is held as the decoded record. Malformed JSON is not modelled, and the author-info write is not entered in the text-file log.
- `getRootDir`, `getAuthorInfoPath` and `os.homedir` are platform path handling: the author-info file has no path in the model. `path.join` is `directory + "/" + name`, without normalisation.
- Command-line parsing by `command-line-args` and lodash's `_.has` is left out: the model starts from the parsed record, with `None` for a missing flag. The model has no null, so a flag given without a value is not modelled. In the tool, `_.has` (src/main.ts:30) is true for a key whose value is null, so the run carries on: a valueless `--className` writes `Gapnull.h` and `Gapnull.cpp` declaring `class null`, and a valueless `--destination` makes `path.join` throw. File kinds are arbitrary strings rather than the `FileType` union.
- `os.EOL` and the template-literal line break are parameters (`breaks.eol`, `breaks.nl`). ECMAScript always makes the latter a line feed; every property holds for any choice of either.
- Content is a sequence of characters. Its UTF-8 byte encoding is not modelled.
- The `.ui` output is not claimed to be well-formed XML: the tool never checks it.
- Geometry values are integers only. Non-integral and non-finite JavaScript numbers are not modelled, and neither are integers beyond the safe integers (magnitude above 2^53), even those a `number` holds exactly. Above 2^53, JavaScript first rounds the value to a nearby double and then prints the shortest digits that read back as that double: for 2^60, which a double holds exactly, `${2**60}` gives `1152921504606847000` while `Text.IntToString` gives `1152921504606846976`; for 2^64, `${2**64}` gives `18446744073709552000`, while `Text.IntToString` gives `18446744073709551616`. From 10^21 on, JavaScript switches to exponent form (`1e+21`). The tool itself only renders 0, 800 and 600.
- `loadAuthorInfo` runs inside the header and source generators' `create()`; the `.ui` generator does not load it. In the model, the header and source methods load the record and pass it to `Create`, with the same result since nothing changes the store in between.
- The façade methods update their generator as a value (`creator := creator.(includes := includes)`). The generator is never shared, so no aliasing is lost.
- Creator.HeaderClassLayout: shows the constructor and destructor declarations occur in order. It does not say they are the only occurrences, because that is not true in general: an include named `        C();` renders as `#include "        C();"`, which contains the declaration text.
