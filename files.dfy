/**
 * The file-listing and upload bookkeeping of the `useFiles` hook
 * (`src/hooks/useFiles.ts`): the extension-to-MIME lookup, the transform
 * from raw storage listing entries to `FileItem` records, and the state the
 * hook keeps (the file list, the `loading` and `uploading` flags and the
 * per-file upload progress table). Every storage request is answered by a
 * parameter standing for the backend's reply; `Date.now()` is a parameter
 * too.
 */
module Files {
  import opened Common
  import opened Text
  import opened FileTypes

  // ---------------------------------------------------------------------
  // Extension to MIME type (`getFileType`)
  // ---------------------------------------------------------------------

  const OctetStream := "application" + "/" + "octet" + "-" + "stream"

  /** The extension table of `getFileType`, keyed by lower-case extension. */
  const MimeTable: map<string, string> := map[
    "jpg" := "image/jpeg",
    "jpeg" := "image/jpeg",
    "png" := "image/png",
    "gif" := "image/gif",
    "webp" := "image/webp",
    "svg" := "image/svg+xml",
    "pdf" := PdfType,
    "doc" := MswordType,
    "docx" := DocxType,
    "xls" := XlsType,
    "xlsx" := XlsxType,
    "ppt" := PptType,
    "pptx" := PptxType,
    "zip" := ZipType,
    "rar" := RarType,
    "mp3" := "audio/mpeg",
    "mp4" := "video/mp4",
    "txt" := "text/plain",
    "json" := JsonType,
    "html" := "text/html",
    "css" := "text/css",
    "js" := JavascriptType
  ]

  // The `application/...` types, written as their parts between the `/`, `.`
  // and `-` separators so that proofs about them can work one part at a time.
  const PdfType := "application" + "/" + "pdf"
  const MswordType := "application" + "/" + "msword"
  const XlsType := "application" + "/" + "vnd" + "." + "ms" + "-" + "excel"
  const PptType := "application" + "/" + "vnd" + "." + "ms" + "-" + "powerpoint"
  const ZipType := "application" + "/" + "zip"
  const RarType := "application" + "/" + "x" + "-" + "rar" + "-" + "compressed"
  const JsonType := "application" + "/" + "json"
  const JavascriptType := "application" + "/" + "javascript"
  const DocxType := "application" + "/" + "vnd" + "." + "openxmlformats" + "-" + "officedocument"
    + "." + "wordprocessingml" + "." + "document"
  const XlsxType := "application" + "/" + "vnd" + "." + "openxmlformats" + "-" + "officedocument"
    + "." + "spreadsheetml" + "." + "sheet"
  const PptxType := "application" + "/" + "vnd" + "." + "openxmlformats" + "-" + "officedocument"
    + "." + "presentationml" + "." + "presentation"

  /** `fileName.split('.').pop()`: the text after the last `.`, or the whole name when it has none. */
  function LastSegment(name: string): (r: string)
    ensures |r| <= |name| && r == name[|name| - |r|..]
    ensures '.' !in r
    ensures |r| < |name| ==> name[|name| - |r| - 1] == '.'
  {
    if name == [] then []
    else if name[|name| - 1] == '.' then []
    else LastSegment(name[..|name| - 1]) + [name[|name| - 1]]
  }

  /** The extension as `getFileType` looks it up: the last segment, lower-cased. */
  function Extension(name: string): string
  {
    ToLower(LastSegment(name))
  }

  function GetFileType(name: string): (r: string)
    ensures r in MimeTable.Values || r == OctetStream
    ensures r != ""
  {
    var ext := Extension(name);
    if ext in MimeTable then MimeTable[ext] else OctetStream
  }

  /** Whatever precedes the last `.` does not matter: the segment after it is returned whole. */
  lemma {:induction false} LastSegmentAfterDot(stem: string, ext: string)
    requires '.' !in ext
    ensures LastSegment(stem + "." + ext) == ext
    decreases |ext|
  {
    var name := stem + "." + ext;
    if ext == [] {
    } else {
      assert name[..|name| - 1] == stem + "." + ext[..|ext| - 1];
      LastSegmentAfterDot(stem, ext[..|ext| - 1]);
    }
  }

  /** A name without a `.` is looked up whole. */
  lemma {:induction false} LastSegmentNoDot(name: string)
    requires '.' !in name
    ensures LastSegment(name) == name
    decreases |name|
  {
    if name != [] {
      LastSegmentNoDot(name[..|name| - 1]);
    }
  }

  /**
   * The type is found from the text after the last `.` whatever its case:
   * for any stem and any spelling `ext` of a table key, the result is that
   * key's table entry.
   */
  lemma TableKeyAfterDot(stem: string, ext: string)
    requires '.' !in ext && ToLower(ext) in MimeTable
    ensures GetFileType(stem + "." + ext) == MimeTable[ToLower(ext)]
  {
    LastSegmentAfterDot(stem, ext);
  }

  /** An extension outside the table, the empty one included, gives the generic type. */
  lemma UnknownExtension(stem: string, ext: string)
    requires '.' !in ext && ToLower(ext) !in MimeTable
    ensures GetFileType(stem + "." + ext) == OctetStream
  {
    LastSegmentAfterDot(stem, ext);
  }

  /** A name with no `.` is looked up as a whole, lower-cased. */
  lemma WholeNameLookup(name: string)
    requires '.' !in name
    ensures GetFileType(name) == if ToLower(name) in MimeTable then MimeTable[ToLower(name)] else OctetStream
  {
    LastSegmentNoDot(name);
  }

  /** The two JPEG spellings of the table. */
  lemma JpegKeys()
    ensures "jpg" in MimeTable && MimeTable["jpg"] == "image/jpeg"
    ensures "jpeg" in MimeTable && MimeTable["jpeg"] == "image/jpeg"
  {
  }

  /** Names the table does not hold, among them a key every object inherits. */
  lemma AbsentKeys()
    ensures "gz" !in MimeTable && "" !in MimeTable && "constructor" !in MimeTable
  {
  }

  /**
   * The extension's case does not matter: `Photo.JPG` is a JPEG image. Only
   * the last segment counts: `pdf.b.jpeg` is one too, although its first
   * segment is itself a key of the table.
   */
  lemma UpperCaseExample()
    ensures GetFileType("Photo.JPG") == "image/jpeg"
    ensures GetFileType("pdf.b.jpeg") == "image/jpeg"
  {
    assert "Photo.JPG" == "Photo" + "." + "JPG";
    assert "pdf.b.jpeg" == "pdf.b" + "." + "jpeg";
    assert ToLower("JPG") == "jpg";
    assert ToLower("jpeg") == "jpeg";
    JpegKeys();
    TableKeyAfterDot("Photo", "JPG");
    TableKeyAfterDot("pdf.b", "jpeg");
  }

  /** A file named just `pdf` is a PDF. */
  lemma BareKeyExample()
    ensures GetFileType("pdf") == PdfType
  {
    assert ToLower("pdf") == "pdf";
    WholeNameLookup("pdf");
  }

  /** `archive.tar.gz` and `notes.` get the generic type. */
  lemma UnknownExamples()
    ensures GetFileType("archive.tar.gz") == OctetStream
    ensures GetFileType("notes.") == OctetStream
  {
    assert "archive.tar.gz" == "archive.tar" + "." + "gz";
    assert "notes." == "notes" + "." + "";
    assert ToLower("gz") == "gz";
    AbsentKeys();
    UnknownExtension("archive.tar", "gz");
    UnknownExtension("notes", "");
  }

  // ---------------------------------------------------------------------
  // The lookup as written: an object literal also answers inherited keys
  // ---------------------------------------------------------------------

  /**
   * What `typeMap[ext]` yields on a plain object literal: an own entry, a
   * property every object inherits from `Object.prototype`, or nothing.
   * Only the inherited names that survive lower-casing can be reached.
   */
  const InheritedKeys: set<string> := {"constructor", "__proto__"}

  /** A JavaScript value that reaches `FileItem.type`: a string, or some other (truthy) object. */
  datatype JsValue = Str(text: string) | NonString

  /** `typeMap[ext] || 'application/octet-stream'` with the prototype chain taken into account. */
  function GetFileTypeAsWritten(name: string): (r: JsValue)
    ensures Extension(name) !in InheritedKeys ==> r == Str(GetFileType(name))
  {
    var ext := Extension(name);
    if ext in MimeTable then Str(MimeTable[ext])
    else if ext in InheritedKeys then NonString
    else Str(OctetStream)
  }

  /** A name ending in `.constructor` (in any case) gets a non-string type, not the fallback. */
  lemma InheritedKeyCounterexample()
    ensures GetFileTypeAsWritten("notes.Constructor") == NonString
    ensures GetFileType("notes.Constructor") == OctetStream
  {
    assert "notes.Constructor" == "notes" + "." + "Constructor";
    assert ToLower("Constructor") == "constructor";
    AbsentKeys();
    LastSegmentAfterDot("notes", "Constructor");
  }

  // ---------------------------------------------------------------------
  // Listing transform (`fetchFiles`)
  // ---------------------------------------------------------------------

  /** The sentinel object the storage backend keeps in otherwise empty folders. */
  const Placeholder := ".emptyFolderPlaceholder"

  datatype Metadata = Metadata(size: Option<int>, mimetype: Option<string>)

  /** One entry of the storage backend's listing. */
  datatype StorageEntry = StorageEntry(
    id: string,
    name: string,
    metadata: Option<Metadata>,
    createdAt: string,
    updatedAt: string)

  /** The backend's answer to a listing request: `data` (possibly null), or an error. */
  datatype ListResponse = Listed(data: Option<seq<StorageEntry>>) | ListFailed

  /** `item.metadata?.size || 0`. */
  function EntrySize(e: StorageEntry): (r: int)
    ensures e.metadata.None? || e.metadata.value.size.None? ==> r == 0
    ensures e.metadata.Some? && e.metadata.value.size.Some? ==> r == e.metadata.value.size.value
  {
    if e.metadata.Some? && e.metadata.value.size.Some? && e.metadata.value.size.value != 0
    then e.metadata.value.size.value
    else 0
  }

  /** `item.metadata?.mimetype || getFileType(item.name)`: an empty type counts as missing. */
  function EntryType(e: StorageEntry): (r: string)
    ensures r != ""
    ensures e.metadata.Some? && e.metadata.value.mimetype.Some? && e.metadata.value.mimetype.value != ""
            ==> r == e.metadata.value.mimetype.value
    ensures e.metadata.None? || e.metadata.value.mimetype.None? || e.metadata.value.mimetype.value == ""
            ==> r == GetFileType(e.name)
  {
    if e.metadata.Some? && e.metadata.value.mimetype.Some? && e.metadata.value.mimetype.value != ""
    then e.metadata.value.mimetype.value
    else GetFileType(e.name)
  }

  function ToFileItem(e: StorageEntry): (r: FileItem)
    ensures r.path == r.name == e.name && r.id == e.id
    ensures r.size == EntrySize(e) && r.mimeType == EntryType(e)
    ensures r.createdAt == e.createdAt && r.updatedAt == e.updatedAt
    ensures r.mimeType != ""
  {
    FileItem(e.id, e.name, EntrySize(e), EntryType(e), e.createdAt, e.updatedAt, e.name)
  }

  /** `.filter(item => item.name !== '.emptyFolderPlaceholder')`. */
  function Visible(entries: seq<StorageEntry>): (r: seq<StorageEntry>)
    ensures |r| <= |entries|
    ensures forall i :: 0 <= i < |r| ==> r[i].name != Placeholder
    ensures forall e :: e in r <==> e in entries && e.name != Placeholder
  {
    if entries == [] then []
    else if entries[0].name == Placeholder then Visible(entries[1..])
    else [entries[0]] + Visible(entries[1..])
  }

  /** The records `fetchFiles` stores: placeholders dropped, every other entry mapped, in order. */
  function ToFileItems(entries: seq<StorageEntry>): (r: seq<FileItem>)
    ensures |r| == |Visible(entries)|
    ensures forall i :: 0 <= i < |r| ==> r[i] == ToFileItem(Visible(entries)[i])
  {
    var v := Visible(entries);
    seq(|v|, i requires 0 <= i < |v| => ToFileItem(v[i]))
  }

  /** The kept entries are the backend's entries in the backend's order, with only placeholders dropped. */
  lemma {:induction false} VisibleIsSublist(entries: seq<StorageEntry>)
    ensures IsSublist(Visible(entries), entries)
    ensures |Visible(entries)| == |entries| - CountPlaceholders(entries)
  {
    if entries == [] {
      SublistEmpty(entries);
    } else {
      VisibleIsSublist(entries[1..]);
      assert entries == [entries[0]] + entries[1..];
      if entries[0].name == Placeholder {
        SublistSkip(Visible(entries[1..]), entries[1..], entries[0]);
      } else {
        SublistKeep(Visible(entries[1..]), entries[1..], entries[0]);
      }
    }
  }

  function CountPlaceholders(entries: seq<StorageEntry>): nat
  {
    if entries == [] then 0
    else (if entries[0].name == Placeholder then 1 else 0) + CountPlaceholders(entries[1..])
  }

  /**
   * No emitted record is the placeholder; each record keeps its entry's name
   * as its path, and takes its size and type from the entry's metadata, with
   * the defaults where that is missing.
   */
  lemma ListingRecords(entries: seq<StorageEntry>, i: int)
    requires 0 <= i < |ToFileItems(entries)|
    ensures var e := Visible(entries)[i];
            var r := ToFileItems(entries)[i];
            && e in entries
            && r.name == e.name != Placeholder
            && r.path == r.name
            && r.mimeType != ""
            && (e.metadata.Some? && e.metadata.value.size.Some? ==> r.size == e.metadata.value.size.value)
            && (e.metadata.None? || e.metadata.value.size.None? ==> r.size == 0)
            && (e.metadata.Some? && e.metadata.value.mimetype.Some? && e.metadata.value.mimetype.value != ""
                ==> r.mimeType == e.metadata.value.mimetype.value)
            && (e.metadata.None? || e.metadata.value.mimetype.None? || e.metadata.value.mimetype.value == ""
                ==> r.mimeType == GetFileType(e.name))
  {
  }

  /** The list a listing response leads to: the records on success, the old list on error. */
  function ListingOutcome(old_files: seq<FileItem>, response: ListResponse): (r: seq<FileItem>)
    ensures response.ListFailed? ==> r == old_files
    ensures response.Listed? && response.data.None? ==> r == []
    ensures response.Listed? && response.data.Some? ==> r == ToFileItems(response.data.value)
    ensures response.Listed? ==> |r| == |Visible(if response.data.Some? then response.data.value else [])|
  {
    match response
    case ListFailed => old_files
    case Listed(data) => ToFileItems(if data.Some? then data.value else [])
  }

  // ---------------------------------------------------------------------
  // Upload keys and progress rows (`uploadFiles`)
  // ---------------------------------------------------------------------

  /** The storage key of an upload: `${Date.now()}-${file.name}`. */
  function UploadKey(now: nat, name: string): (r: string)
    ensures |r| > |name| && r[|r| - |name|..] == name
  {
    Decimal(now) + "-" + name
  }

  /** The text of a key before its first `-`. */
  function KeyStamp(key: string): (r: string)
    ensures '-' !in r && r <= key
  {
    if key == [] || key[0] == '-' then [] else [key[0]] + KeyStamp(key[1..])
  }

  /** The text of a key after its first `-`. */
  function KeyName(key: string): (r: string)
    ensures |r| <= |key|
  {
    if key == [] then [] else if key[0] == '-' then key[1..] else KeyName(key[1..])
  }

  /** A key gives back both the clock reading and the original file name. */
  lemma {:induction false} UploadKeyRoundTrip(now: nat, name: string)
    ensures KeyName(UploadKey(now, name)) == name
    ensures KeyStamp(UploadKey(now, name)) == Decimal(now)
    ensures DigitsValue(KeyStamp(UploadKey(now, name))) == now
  {
    StampThenName(Decimal(now), name);
    DecimalRoundTrip(now);
  }

  lemma {:induction false} StampThenName(d: string, name: string)
    requires AllDigits(d)
    ensures KeyName(d + "-" + name) == name
    ensures KeyStamp(d + "-" + name) == d
    decreases |d|
  {
    if d != [] {
      assert (d + "-" + name)[1..] == d[1..] + "-" + name;
      StampThenName(d[1..], name);
    }
  }

  /** The row every file of a batch starts with. */
  function Pending(name: string): UploadProgress
  {
    UploadProgress(name, 0, Uploading)
  }

  /** The row a file ends with: completed at 100 when its upload succeeded, failed at 0 otherwise. */
  function Settled(name: string, ok: bool): (r: UploadProgress)
    ensures r.fileName == name
    ensures ok <==> r.status == Completed
    ensures r.progress == (if ok then 100 else 0)
  {
    if ok then UploadProgress(name, 100, Completed) else UploadProgress(name, 0, Failed)
  }

  /** The progress table after a batch: one settled row per file, in batch order. */
  function SettledTable(names: seq<string>, outcomes: seq<bool>): (r: seq<UploadProgress>)
    requires |outcomes| == |names|
    ensures |r| == |names|
    ensures forall i :: 0 <= i < |r| ==> r[i] == Settled(names[i], outcomes[i])
  {
    seq(|names|, i requires 0 <= i < |names| => Settled(names[i], outcomes[i]))
  }

  /**
   * A failure does not stop or spoil the other files: row `i` depends only
   * on file `i`'s own outcome.
   */
  lemma RowsIndependent(names: seq<string>, o1: seq<bool>, o2: seq<bool>, i: int)
    requires |o1| == |names| && |o2| == |names| && 0 <= i < |names|
    requires o1[i] == o2[i]
    ensures SettledTable(names, o1)[i] == SettledTable(names, o2)[i]
  {
  }

  /** The keys requested for a batch, one per file, each with its own clock reading. */
  function UploadKeys(clock: seq<nat>, names: seq<string>): (r: seq<string>)
    requires |clock| == |names|
    ensures |r| == |names|
    ensures forall i :: 0 <= i < |r| ==> KeyName(r[i]) == names[i]
  {
    var r := seq(|names|, i requires 0 <= i < |names| => UploadKey(clock[i], names[i]));
    assert forall i :: 0 <= i < |r| ==> KeyName(r[i]) == names[i] by {
      forall i | 0 <= i < |r| ensures KeyName(r[i]) == names[i] {
        UploadKeyRoundTrip(clock[i], names[i]);
      }
    }
    r
  }

  // ---------------------------------------------------------------------
  // The hook's state
  // ---------------------------------------------------------------------

  class FileStore {
    var files: seq<FileItem>
    var loading: bool
    var uploading: bool
    var progress: array<UploadProgress>

    /** The hook's initial state: no files yet, loading, no upload. */
    constructor ()
      ensures files == [] && loading && !uploading
      ensures fresh(progress) && progress.Length == 0
    {
      files := [];
      loading := true;
      uploading := false;
      progress := new UploadProgress[0];
    }

    /** `fetchFiles`: replace the list on success, keep it on error; `loading` ends false either way. */
    method Refresh(response: ListResponse)
      modifies this`files, this`loading
      ensures files == ListingOutcome(old(files), response)
      ensures !loading
    {
      loading := true;
      match response {
        case ListFailed =>
        case Listed(data) =>
          files := ToFileItems(if data.Some? then data.value else []);
      }
      loading := false;
    }

    /** Set row `i` of the progress table; no other row changes. */
    method SetRow(i: int, row: UploadProgress)
      requires 0 <= i < progress.Length
      modifies progress
      ensures progress[..] == old(progress[..])[i := row]
    {
      progress[i] := row;
    }

    /**
     * `uploadFiles`: upload the batch one file after the other. `clock[i]`
     * is `Date.now()` when file `i` is reached and `outcomes[i]` whether the
     * backend accepted it; `refresh` answers the listing issued after the
     * loop. Returns the storage keys requested, in order.
     */
    method UploadFiles(names: seq<string>, clock: seq<nat>, outcomes: seq<bool>, refresh: ListResponse)
      returns (keys: seq<string>)
      requires |clock| == |names| && |outcomes| == |names|
      modifies this
      ensures names == [] ==> keys == [] && files == old(files) && loading == old(loading)
                              && uploading == old(uploading) && progress == old(progress)
      ensures names != [] ==> && fresh(progress)
                              && progress[..] == SettledTable(names, outcomes)
                              && keys == UploadKeys(clock, names)
                              && files == ListingOutcome(old(files), refresh)
                              && !loading && !uploading
    {
      keys := [];
      if |names| == 0 {
        return;
      }
      uploading := true;
      progress := new UploadProgress[|names|](i requires 0 <= i < |names| => Pending(names[i]));
      for i := 0 to |names|
        invariant fresh(progress) && progress.Length == |names|
        invariant forall k :: 0 <= k < i ==> progress[k] == Settled(names[k], outcomes[k])
        invariant forall k :: i <= k < |names| ==> progress[k] == Pending(names[k])
        invariant keys == UploadKeys(clock[..i], names[..i])
        invariant files == old(files)
      {
        keys := keys + [UploadKey(clock[i], names[i])];
        SetRow(i, progress[i].(progress := 50));
        if outcomes[i] {
          SetRow(i, progress[i].(status := Completed, progress := 100));
        } else {
          SetRow(i, progress[i].(status := Failed, progress := 0));
        }
      }
      assert clock[..|names|] == clock && names[..|names|] == names;
      Refresh(refresh);
      uploading := false;
    }

    /** The delayed callback after a batch: the progress table is emptied. */
    method ClearProgress()
      modifies this`progress
      ensures fresh(progress) && progress.Length == 0
    {
      progress := new UploadProgress[0];
    }

    /**
     * `deleteFile`: ask the backend to remove `file.path`; only on success is
     * the list refreshed (answered by `refresh`). Returns the path requested.
     */
    method DeleteFile(file: FileItem, removed: bool, refresh: ListResponse) returns (request: string)
      modifies this`files, this`loading
      ensures request == file.path
      ensures removed ==> files == ListingOutcome(old(files), refresh) && !loading
      ensures !removed ==> files == old(files) && loading == old(loading)
    {
      request := file.path;
      if removed {
        Refresh(refresh);
      }
    }
  }

  /** The upload batch of three files where the second fails. */
  lemma ThreeFileBatch()
    ensures SettledTable(["a", "b", "c"], [true, false, true])
            == [UploadProgress("a", 100, Completed), UploadProgress("b", 0, Failed), UploadProgress("c", 100, Completed)]
  {
  }
}
