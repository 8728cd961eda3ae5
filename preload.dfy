/** The directory lister `fsApi.readDir` of the host bridge. The filesystem is
    an input (whether the path exists, and what listing it yields) and so is
    the path joiner, which stays uninterpreted. */
module Preload {
  import opened JsValues

  /** A directory entry as the listing reports it. */
  datatype Entry = Entry(name: string, isDirectory: bool)

  /** What the filesystem holds at the path: nothing, a directory whose
      immediate entries list in this order, or something that exists but
      cannot be listed (a regular file, say), which makes the listing throw. */
  datatype PathState = Missing | Directory(entries: seq<Entry>) | Unlistable(error: string)

  /** `{name, type, path}` for one entry. */
  datatype FileRecord = FileRecord(name: string, kind: string, path: string)

  const NotFoundMessage: string := "目录不存在"
  const DirectoryLabel: string := "目录"
  const FileLabel: string := "文件"

  /** The record for one entry: its name, `目录` exactly for a directory and
      `文件` exactly for anything else, and the path joined to the directory. */
  function Describe(join: (string, string) -> string, dirPath: string, e: Entry): (r: FileRecord)
    ensures r.name == e.name
    ensures r.kind == DirectoryLabel <==> e.isDirectory
    ensures r.kind == FileLabel <==> !e.isDirectory
    ensures r.path == join(dirPath, e.name)
  {
    FileRecord(e.name, if e.isDirectory then DirectoryLabel else FileLabel, join(dirPath, e.name))
  }

  /** `files.map(...)`: one record per entry, in the entries' order, with the
      entry's name, its kind and its joined path. */
  function DescribeAll(join: (string, string) -> string, dirPath: string, entries: seq<Entry>): (rs: seq<FileRecord>)
    ensures |rs| == |entries|
    ensures forall i :: 0 <= i < |entries| ==>
      && rs[i].name == entries[i].name
      && (rs[i].kind == DirectoryLabel <==> entries[i].isDirectory)
      && (rs[i].kind == FileLabel <==> !entries[i].isDirectory)
      && rs[i].path == join(dirPath, entries[i].name)
  {
    if entries == [] then []
    else [Describe(join, dirPath, entries[0])] + DescribeAll(join, dirPath, entries[1..])
  }

  /** `readDir(dirPath)`: a not-found envelope for a missing path; otherwise
      the listing of the immediate entries, or the listing's error thrown. */
  function ReadDir(join: (string, string) -> string, dirPath: string, fs: PathState)
    : (r: Completion<Envelope<seq<FileRecord>>>)
    ensures fs.Missing? ==> r == Returns(Failure(NotFoundMessage))
    ensures fs.Unlistable? ==> r == Throws(fs.error)
    ensures fs.Directory? ==> r == Returns(Success(DescribeAll(join, dirPath, fs.entries)))
  {
    match fs
    case Missing => Returns(Failure(NotFoundMessage))
    case Unlistable(error) => Throws(error)
    case Directory(entries) => Returns(Success(DescribeAll(join, dirPath, entries)))
  }

  /** The entry a record describes. */
  function EntryOf(r: FileRecord): Entry
  {
    Entry(r.name, r.kind == DirectoryLabel)
  }

  function EntriesOf(rs: seq<FileRecord>): seq<Entry>
  {
    if rs == [] then [] else [EntryOf(rs[0])] + EntriesOf(rs[1..])
  }

  /** The records lose nothing of the listing: the entries, with their order,
      names and kinds, can be read back from them. */
  lemma {:induction false} ListingRoundTrip(join: (string, string) -> string, dirPath: string, entries: seq<Entry>)
    ensures EntriesOf(DescribeAll(join, dirPath, entries)) == entries
  {
    if entries != [] {
      var rs := DescribeAll(join, dirPath, entries);
      assert rs[1..] == DescribeAll(join, dirPath, entries[1..]);
      ListingRoundTrip(join, dirPath, entries[1..]);
      assert EntryOf(rs[0]) == entries[0];
    }
  }

  /** A directory holding one file and one subdirectory lists as a file
      record and a directory record, each with its joined path. */
  lemma OneFileOneSubdirectory(join: (string, string) -> string, dirPath: string)
    ensures ReadDir(join, dirPath, Directory([Entry("notes.txt", false), Entry("src", true)]))
            == Returns(Success([FileRecord("notes.txt", FileLabel, join(dirPath, "notes.txt")),
                                FileRecord("src", DirectoryLabel, join(dirPath, "src"))]))
  {
    var rs := DescribeAll(join, dirPath, [Entry("notes.txt", false), Entry("src", true)]);
    assert rs[0] == FileRecord("notes.txt", FileLabel, join(dirPath, "notes.txt"));
    assert rs[1] == FileRecord("src", DirectoryLabel, join(dirPath, "src"));
    assert rs == [rs[0], rs[1]];
  }
}
