/** `FileTypeIdentifier.identify_file`: classify one file by its leading bytes,
    falling back to its extension. The file system is replaced by a `Source`
    value, and `mimetypes.guess_type` by a function parameter. */
module Classifier {
  import opened Wrappers
  import opened Tables
  import opened Text
  import opened SizeFormat

  /** Which tier produced the classification. */
  datatype Detection = ByMagicBytes | ByExtension {

    /** The `detection_method` text of the result. */
    function Tag(): string
    {
      match this
      case ByMagicBytes => "magic_bytes"
      case ByExtension => "extension"
    }
  }

  /** What the file system offers for a path: nothing, an error while
      opening or reading, or the file's bytes and the size `stat` reports. */
  datatype Source = NotFound | ReadFailed(reason: string) | Readable(contents: seq<byte>, size: nat)

  /** The result dictionary: either only an `error` message, or every
      classification field. */
  datatype Report =
    | Failed(error: string)
    | Identified(filename: string, filesizeBytes: nat, filesize: Size, extension: string,
                 filetype: string, category: string, mimeType: string, detection: Detection)

  /** The label given when neither tier matches. */
  const Unknown: Label := Label("UNKNOWN", "Unknown")

  /** The MIME type reported when `guess_type` finds none. */
  const DefaultMime: string := "application/octet-stream"

  /** How many bytes of the file are read as its header. */
  const HeaderLength: nat := 1024

  /** `f.read(1024)`: the first 1024 bytes, or all of them if fewer. */
  function Header(contents: seq<byte>): (h: seq<byte>)
    ensures h <= contents
    ensures |h| == if |contents| <= HeaderLength then |contents| else HeaderLength
  {
    if |contents| <= HeaderLength then contents else contents[..HeaderLength]
  }

  /** The index of the first entry of `table`, at `from` or later, whose key
      is a prefix of `header`, if any. */
  function FirstMatchFrom(header: seq<byte>, table: seq<Signature>, from: nat): (r: Option<nat>)
    requires from <= |table|
    ensures r.Some? ==> from <= r.value < |table| && StartsWith(header, table[r.value].magic)
    ensures r.Some? ==> forall j :: from <= j < r.value ==> !StartsWith(header, table[j].magic)
    ensures r.None? ==> forall j :: from <= j < |table| ==> !StartsWith(header, table[j].magic)
    decreases |table| - from
  {
    if from == |table| then None
    else if StartsWith(header, table[from].magic) then Some(from)
    else FirstMatchFrom(header, table, from + 1)
  }

  /** The index of the first entry of `table` whose key is a prefix of
      `header`, if any. */
  function FirstMatch(header: seq<byte>, table: seq<Signature>): (r: Option<nat>)
    ensures r.Some? ==> r.value < |table| && StartsWith(header, table[r.value].magic)
    ensures r.Some? ==> forall j :: 0 <= j < r.value ==> !StartsWith(header, table[j].magic)
    ensures r.None? ==> forall j :: 0 <= j < |table| ==> !StartsWith(header, table[j].magic)
  {
    FirstMatchFrom(header, table, 0)
  }

  /** The label of the first entry of `table` whose key starts the header, if any. */
  function MatchLabel(header: seq<byte>, table: seq<Signature>): Option<Label>
  {
    match FirstMatch(header, table)
    case Some(i) => Some(table[i].kind)
    case None => None
  }

  /** The tier selection: the first matching signature, else the extension's
      entry, else UNKNOWN; the method is `magic_bytes` only for the first. */
  function Resolve(header: seq<byte>, ext: string): (r: (Label, Detection))
    ensures r.1 == ByMagicBytes <==> exists i :: 0 <= i < |MagicBytes| && StartsWith(header, MagicBytes[i].magic)
    ensures r.1 == ByMagicBytes ==> exists i :: 0 <= i < |MagicBytes| && StartsWith(header, MagicBytes[i].magic)
                                               && r.0 == MagicBytes[i].kind
    ensures r.1 == ByExtension && ext in ExtensionMap ==> r.0 == ExtensionMap[ext]
    ensures r.1 == ByExtension && ext !in ExtensionMap ==> r.0 == Unknown
  {
    match MatchLabel(header, MagicBytes)
    case Some(found) => (found, ByMagicBytes)
    case None => (if ext in ExtensionMap then ExtensionMap[ext] else Unknown, ByExtension)
  }

  /** The whole result of `identify_file` for `path`, as a value. */
  function Identify(path: string, source: Source, guessType: string -> Option<string>): Report
  {
    match source
    case NotFound => Failed("File not found: " + path)
    case ReadFailed(reason) => Failed("Cannot read file: " + reason)
    case Readable(contents, size) =>
      var ext := Extension(path);
      var resolved := Resolve(Header(contents), ext);
      Identified(BaseName(path), size, Formatted(size), Upper(ext), resolved.0.fileType, resolved.0.category,
                 OrDefault(guessType(path), DefaultMime), resolved.1)
  }

  /** The signature scan of `identify_file`: walk the table in order and stop
      at the first key that is a prefix of the header. It finds nothing
      exactly when no key of the table starts the header. */
  method ScanSignatures(header: seq<byte>, table: seq<Signature>) returns (magicResult: Option<Label>)
    ensures magicResult == MatchLabel(header, table)
    ensures magicResult.None? <==> forall j :: 0 <= j < |table| ==> !StartsWith(header, table[j].magic)
  {
    magicResult := None;
    var i := 0;
    while i < |table|
      invariant 0 <= i <= |table|
      invariant magicResult.None?
      invariant forall j :: 0 <= j < i ==> !StartsWith(header, table[j].magic)
    {
      if StartsWith(header, table[i].magic) {
        magicResult := Some(table[i].kind);
        break;
      }
      i := i + 1;
    }
  }

  /** `identify_file`: read the header, scan the signature table, then fall
      back on the extension; a missing or unreadable file gives an error
      value. */
  method IdentifyFile(path: string, source: Source, guessType: string -> Option<string>)
    returns (r: Report)
    ensures r == Identify(path, source, guessType)
  {
    if source.NotFound? {
      return Failed("File not found: " + path);
    }
    if source.ReadFailed? {
      return Failed("Cannot read file: " + source.reason);
    }
    var header := Header(source.contents);
    var magicResult := ScanSignatures(header, MagicBytes);

    var ext := Extension(path);
    var extResult := if ext in ExtensionMap then Some(ExtensionMap[ext]) else None;
    var found := if magicResult.Some? then magicResult.value else if extResult.Some? then extResult.value else Unknown;
    var detection := if magicResult.Some? then ByMagicBytes else ByExtension;

    var sizeStr := FormatSize(source.size);
    r := Identified(BaseName(path), source.size, sizeStr, Upper(ext), found.fileType, found.category,
                    OrDefault(guessType(path), DefaultMime), detection);
  }

  /** In a prefix-free table two keys that both start a header are one key. */
  lemma AtMostOneMatch(table: seq<Signature>, header: seq<byte>, i: nat, j: nat)
    requires PrefixFree(table)
    requires i < |table| && StartsWith(header, table[i].magic)
    requires j < |table| && StartsWith(header, table[j].magic)
    ensures i == j
  {
    var p, q := table[i].magic, table[j].magic;
    if |p| <= |q| {
      assert q[..|p|] == header[..|p|];
    }
  }

  /** In a prefix-free table the first-match scan finds the one matching
      key, wherever it stands. */
  lemma FirstMatchInPrefixFree(table: seq<Signature>, header: seq<byte>, i: nat)
    requires PrefixFree(table)
    requires i < |table|
    ensures FirstMatch(header, table) == Some(i) <==> StartsWith(header, table[i].magic)
  {
    var r := FirstMatch(header, table);
    if StartsWith(header, table[i].magic) {
      AtMostOneMatch(table, header, r.value, i);
    }
  }

  /** The scan agrees with the decision on the header's first bytes: it
      finds exactly the `Candidate` entry, when that entry's key matches. */
  lemma ScanIsCandidate(header: seq<byte>)
    ensures var c := Candidate(header);
      FirstMatch(header, MagicBytes) ==
        if 0 <= c < |MagicBytes| && StartsWith(header, MagicBytes[c].magic) then Some(c as nat) else None
  {
    var r := FirstMatch(header, MagicBytes);
    if r.Some? {
      CandidateOfMatch(r.value, header);
    }
  }

  /** An entry of the table whose key starts the header makes the scan
      find something. */
  lemma EntryMatches(table: seq<Signature>, header: seq<byte>, x: Signature)
    requires x in table && StartsWith(header, x.magic)
    ensures FirstMatch(header, table).Some?
  {
    var k :| 0 <= k < |table| && table[k] == x;
  }

  /** The order of a prefix-free table does not matter: any reordering of its
      entries makes the scan report the same entry. */
  lemma ScanOrderIndependent(table: seq<Signature>, reordered: seq<Signature>, header: seq<byte>)
    requires PrefixFree(table)
    requires multiset(reordered) == multiset(table)
    ensures var r, r' := FirstMatch(header, table), FirstMatch(header, reordered);
      (r.Some? <==> r'.Some?) && (r.Some? ==> table[r.value] == reordered[r'.value])
  {
    var r, r' := FirstMatch(header, table), FirstMatch(header, reordered);
    if r.Some? {
      var x := table[r.value];
      assert x in multiset(reordered);
      EntryMatches(reordered, header, x);
      var y := reordered[r'.value];
      assert y in multiset(table);
      var k :| 0 <= k < |table| && table[k] == y;
      AtMostOneMatch(table, header, r.value, k);
    }
  }

  /** Signature precedence: a header that starts with a key of the table is
      classified by that key's entry with method `magic_bytes`, whatever the
      file's name; the method is `magic_bytes` only then. */
  lemma SignaturePrecedence(path: string, contents: seq<byte>, size: nat,
                            guessType: string -> Option<string>, i: nat)
    requires i < |MagicBytes| && StartsWith(Header(contents), MagicBytes[i].magic)
    ensures var r := Identify(path, Readable(contents, size), guessType);
      && r.Identified?
      && r.filetype == MagicBytes[i].kind.fileType
      && r.category == MagicBytes[i].kind.category
      && r.detection.Tag() == "magic_bytes"
  {
    var header, ext := Header(contents), Extension(path);
    MagicBytesPrefixFree();
    FirstMatchInPrefixFree(MagicBytes, header, i);
    assert MatchLabel(header, MagicBytes) == Some(MagicBytes[i].kind);
    assert Resolve(header, ext) == (MagicBytes[i].kind, ByMagicBytes);
  }

  /** Extension fallback: when no key starts the header, a known extension
      gives its entry, and the method is `extension`. */
  lemma ExtensionFallback(path: string, contents: seq<byte>, size: nat, guessType: string -> Option<string>)
    requires forall i :: 0 <= i < |MagicBytes| ==> !StartsWith(Header(contents), MagicBytes[i].magic)
    requires Extension(path) in ExtensionMap
    ensures var r := Identify(path, Readable(contents, size), guessType);
      && r.Identified?
      && Label(r.filetype, r.category) == ExtensionMap[Extension(path)]
      && r.detection.Tag() == "extension"
  {
  }

  /** Unknown files: when neither tier matches, the result is
      ('UNKNOWN', 'Unknown'), still with method `extension`. */
  lemma UnknownFile(path: string, contents: seq<byte>, size: nat, guessType: string -> Option<string>)
    requires forall i :: 0 <= i < |MagicBytes| ==> !StartsWith(Header(contents), MagicBytes[i].magic)
    requires Extension(path) !in ExtensionMap
    ensures var r := Identify(path, Readable(contents, size), guessType);
      && r.Identified?
      && r.filetype == "UNKNOWN" && r.category == "Unknown"
      && r.detection.Tag() == "extension"
  {
  }

  /** The method tag tells the tiers apart: `magic_bytes` exactly when some
      key starts the header. */
  lemma DetectionMeansSignature(path: string, contents: seq<byte>, size: nat,
                                guessType: string -> Option<string>)
    ensures var r := Identify(path, Readable(contents, size), guessType);
      r.Identified? &&
      (r.detection == ByMagicBytes <==>
        exists i :: 0 <= i < |MagicBytes| && StartsWith(Header(contents), MagicBytes[i].magic))
  {
    var h := Header(contents);
    if exists i :: 0 <= i < |MagicBytes| && StartsWith(h, MagicBytes[i].magic) {
      var i :| 0 <= i < |MagicBytes| && StartsWith(h, MagicBytes[i].magic);
      SignaturePrecedence(path, contents, size, guessType, i);
    }
  }

  /** The reported name, byte count, size and MIME type: the path's final
      component, the file's size as `stat` gives it, that size formatted, and
      the MIME guess for the path or `application/octet-stream`. */
  lemma ReportedFields(path: string, contents: seq<byte>, size: nat, guessType: string -> Option<string>)
    ensures var r := Identify(path, Readable(contents, size), guessType);
      && r.Identified?
      && r.filename == BaseName(path) && r.filesizeBytes == size && r.filesize == Formatted(size)
      && r.mimeType == OrDefault(guessType(path), DefaultMime)
  {
  }

  /** The reported extension is the upper-cased text after the path's last
      dot, and empty exactly when the path has no suffix. */
  lemma ReportedExtension(path: string, contents: seq<byte>, size: nat, guessType: string -> Option<string>)
    ensures var r := Identify(path, Readable(contents, size), guessType);
      && r.Identified?
      && if HasSuffix(path) then r.extension != "" && r.extension == Upper(From(path, LastIndexOf(path, '.') + 1))
         else r.extension == ""
  {
    assert Identify(path, Readable(contents, size), guessType).extension == Upper(Extension(path));
    UpperExtension(path);
  }

  /** A missing or unreadable file gives a value holding only an error
      message, and every readable one gives a classification. */
  lemma ErrorResults(path: string, source: Source, guessType: string -> Option<string>)
    ensures var r := Identify(path, source, guessType);
      && (r.Failed? <==> !source.Readable?)
      && (source.NotFound? ==> r.error == "File not found: " + path)
      && (source.ReadFailed? ==> r.error == "Cannot read file: " + source.reason)
  {
  }
}
