/**
 * Naming conventions, the author record and the file operations of the tool.
 * The file system is a `FileSystem` object: an ordered log of the files the tool
 * writes and the decoded content of the author-info file (absent or a record).
 */
module Utils {
  import opened Wrappers
  import opened Text

  /** The persisted author record; `coOwner` is stored under the JSON key "co_owner". */
  datatype AuthorInfo = AuthorInfo(owner: string, coOwner: string)

  /** One write of a whole text file: its path and the characters written. */
  datatype WriteRecord = WriteRecord(path: string, content: string)

  /** The byte-order mark, U+FEFF. */
  const BOM: char := '\U{FEFF}'

  /** Directory and file name joined with a separator (a stand-in for path.join). */
  function PathJoin(directory: string, name: string): (r: string)
    ensures |r| == |directory| + 1 + |name|
    ensures r[..|directory|] == directory && r[|directory|] == '/' && r[|directory| + 1..] == name
  {
    directory + "/" + name
  }

  /** A file name is prefix, main name and extension, in that order; each part can be read back. */
  function CreateFilename(mainName: string, ext: string, prefix: string := "Gap"): (r: string)
    ensures |r| == |prefix| + |mainName| + |ext|
    ensures StartsWith(r, prefix) && EndsWith(r, ext)
    ensures r[|prefix|..|prefix| + |mainName|] == mainName
  {
    prefix + mainName + ext
  }

  /** With prefix and extension fixed, different main names give different file names. */
  lemma CreateFilenameInjective(m1: string, m2: string, ext: string, prefix: string)
    requires CreateFilename(m1, ext, prefix) == CreateFilename(m2, ext, prefix)
    ensures m1 == m2
  {
    var r := CreateFilename(m1, ext, prefix);
    assert m1 == r[|prefix|..|prefix| + |m1|];
  }

  function HFilename(className: string, ext: string := ".h"): (r: string)
    ensures r == "Gap" + className + ext
  {
    CreateFilename(className, ext)
  }

  function CppFilename(className: string, ext: string := ".cpp"): (r: string)
    ensures r == "Gap" + className + ext
  {
    CreateFilename(className, ext)
  }

  function UiFilename(className: string, ext: string := ".ui"): (r: string)
    ensures r == "Gap" + className + ext
  {
    CreateFilename(className, ext)
  }

  /** The name of the header that Qt's uic generates from the `.ui` file. */
  function UiClassFilename(className: string, ext: string := ".h"): (r: string)
    ensures r == "ui_Gap" + className + ext
  {
    CreateFilename(className, ext, "ui_Gap")
  }

  /** The uic header name never coincides with a generated header name, for any two class names. */
  lemma UiClassFilenameIsNotHFilename(c1: string, c2: string)
    ensures UiClassFilename(c1) != HFilename(c2)
  {
    assert UiClassFilename(c1)[0] == 'u';
    assert HFilename(c2)[0] == 'G';
  }

  /** The three files made for one class have three different names. */
  lemma FilenamesDistinct(className: string)
    ensures HFilename(className) != CppFilename(className)
    ensures CppFilename(className) != UiFilename(className)
    ensures HFilename(className) != UiFilename(className)
  {
    assert |HFilename(className)| + 2 == |CppFilename(className)|;
    assert |HFilename(className)| + 1 == |UiFilename(className)|;
  }

  function DefaultAuthorInfo(): (info: AuthorInfo)
    ensures info.owner == "" && info.coOwner == ""
  {
    AuthorInfo("", "")
  }

  /** The content written for `content` in UTF-8 with BOM: one leading U+FEFF, the rest untouched. */
  function Utf8BomContent(content: string): (r: string)
    ensures |r| == |content| + 1 && r[0] == BOM && r[1..] == content
  {
    [BOM] + content
  }

  /** Content without a byte-order mark of its own gets exactly one. */
  lemma Utf8BomSingleMark(content: string)
    requires BOM !in content
    ensures multiset(Utf8BomContent(content))[BOM] == 1
  {
    assert Utf8BomContent(content) == [BOM] + content;
  }

  /** What loadAuthorInfo returns for a given state of the author-info file. */
  function LoadedAuthorInfo(file: Option<AuthorInfo>): (info: AuthorInfo)
    ensures file.None? ==> info == DefaultAuthorInfo()
    ensures file.Some? ==> info == file.value
  {
    file.GetOr(DefaultAuthorInfo())
  }

  /** The state of the author-info file after writeAuthorInfo(authorInfo). */
  function StoredAuthorInfo(authorInfo: Option<AuthorInfo>): (file: Option<AuthorInfo>)
    ensures file.Some?
    ensures authorInfo.None? ==> file.value == DefaultAuthorInfo()
    ensures authorInfo.Some? ==> file == authorInfo
  {
    Some(authorInfo.GetOr(DefaultAuthorInfo()))
  }

  /** Writing then loading gives back what was written, or the default when nothing was given. */
  lemma AuthorInfoRoundTrip(authorInfo: Option<AuthorInfo>)
    ensures LoadedAuthorInfo(StoredAuthorInfo(authorInfo)) == authorInfo.GetOr(DefaultAuthorInfo())
  {
  }

  class FileSystem {
    /** Every text-file write, oldest first. */
    var writes: seq<WriteRecord>
    /** The decoded author-info file, `None` when it does not exist. */
    var authorInfoFile: Option<AuthorInfo>

    constructor (authorInfoFile: Option<AuthorInfo>)
      ensures this.writes == [] && this.authorInfoFile == authorInfoFile
    {
      this.writes := [];
      this.authorInfoFile := authorInfoFile;
    }

    method SaveFileAsUtf8(filename: string, content: string)
      modifies this
      ensures writes == old(writes) + [WriteRecord(filename, content)]
      ensures authorInfoFile == old(authorInfoFile)
    {
      writes := writes + [WriteRecord(filename, content)];
    }

    method SaveFileAsUtf8Bom(filename: string, content: string)
      modifies this
      ensures writes == old(writes) + [WriteRecord(filename, Utf8BomContent(content))]
      ensures authorInfoFile == old(authorInfoFile)
    {
      SaveFileAsUtf8(filename, [BOM] + content);
    }

    method LoadAuthorInfo() returns (info: AuthorInfo)
      ensures info == LoadedAuthorInfo(authorInfoFile)
    {
      if authorInfoFile.Some? {
        info := authorInfoFile.value;
      } else {
        info := DefaultAuthorInfo();
      }
    }

    method WriteAuthorInfo(authorInfo: Option<AuthorInfo> := None)
      modifies this
      ensures authorInfoFile == StoredAuthorInfo(authorInfo)
      ensures writes == old(writes)
    {
      var info := authorInfo;
      if info.None? {
        info := Some(DefaultAuthorInfo());
      }
      authorInfoFile := info;
    }
  }
}
