/** The two static lookup tables of `FileTypeIdentifier`: the ordered table of
    leading-byte signatures and the extension dictionary. */
module Tables {

  /** One octet of a file's contents. */
  newtype byte = x: int | 0 <= x < 256

  /** A classification: the fine-grained file type and its coarse category. */
  datatype Label = Label(fileType: string, category: string)

  /** One entry of the signature table: a literal byte prefix and its classification. */
  datatype Signature = Signature(magic: seq<byte>, kind: Label)

  /** `p` is a literal prefix of `s`: bytes compared exactly, from offset 0. */
  predicate StartsWith(s: seq<byte>, p: seq<byte>)
  {
    p <= s
  }

  /** The signature table in declaration order (a Python dict keeps insertion
      order, and the scan walks it in that order). Each key is written out as
      its bytes; the comment gives the Python literal. */
  const MagicBytes: seq<Signature> := [
    Signature([0x89, 0x50, 0x4E, 0x47, 0x0D, 0x0A, 0x1A, 0x0A], Label("PNG", "Image")),  // \x89PNG\r\n\x1a\n
    Signature([0xFF, 0xD8, 0xFF], Label("JPEG", "Image")),
    Signature([0x47, 0x49, 0x46, 0x38, 0x37, 0x61], Label("GIF87a", "Image")),          // GIF87a
    Signature([0x47, 0x49, 0x46, 0x38, 0x39, 0x61], Label("GIF89a", "Image")),          // GIF89a
    Signature([0x25, 0x50, 0x44, 0x46], Label("PDF", "Document")),                      // %PDF
    Signature([0x50, 0x4B, 0x03, 0x04], Label("ZIP/DOCX/XLSX", "Archive")),             // PK\x03\x04
    Signature([0x52, 0x61, 0x72, 0x21, 0x1A, 0x07], Label("RAR", "Archive")),           // Rar!\x1a\x07
    Signature([0x37, 0x7A, 0xBC, 0xAF, 0x27, 0x1C], Label("7Z", "Archive")),            // 7z\xbc\xaf\x27\x1c
    Signature([0x00, 0x00, 0x00, 0x20, 0x66, 0x74, 0x79, 0x70], Label("MP4", "Video")), // \x00\x00\x00\x20ftyp
    Signature([0x1A, 0x45, 0xDF, 0xA3], Label("MKV", "Video")),                         // \x1aE\xdf\xa3
    Signature([0x52, 0x49, 0x46, 0x46], Label("AVI/WAV", "Media")),                     // RIFF
    Signature([0xFF, 0xFB], Label("MP3", "Audio")),
    Signature([0x66, 0x4C, 0x61, 0x43], Label("FLAC", "Audio")),                        // fLaC
    Signature([0x4D, 0x5A], Label("EXE", "Executable")),                                // MZ
    Signature([0x7F, 0x45, 0x4C, 0x46], Label("ELF", "Executable")),                    // \x7fELF
    Signature([0x42, 0x4D], Label("BMP", "Image")),                                     // BM
    Signature([0x49, 0x49, 0x2A, 0x00], Label("TIFF", "Image")),                        // II\x2a\x00
    Signature([0x4D, 0x4D, 0x00, 0x2A], Label("TIFF", "Image")),                        // MM\x00\x2a
    Signature([0x3C, 0x3F, 0x78, 0x6D, 0x6C], Label("XML", "Code")),                    // <?xml
    Signature([0x3C, 0x21, 0x44, 0x4F, 0x43, 0x54, 0x59, 0x50, 0x45], Label("HTML", "Code")), // <!DOCTYPE
    Signature([0x7B], Label("JSON", "Code")),                                           // {
    Signature([0x73, 0x6F, 0x6C, 0x69, 0x64, 0x20], Label("STL", "3D Model")),          // "solid "
    Signature([0x67, 0x6C, 0x54, 0x46], Label("glTF", "3D Model"))                      // glTF
  ]

  /** The extension dictionary: lower-case extension without its dot. */
  const ExtensionMap: map<string, Label> := map[
    // Images
    "png" := Label("PNG", "Image"), "jpg" := Label("JPEG", "Image"), "jpeg" := Label("JPEG", "Image"),
    "gif" := Label("GIF", "Image"), "bmp" := Label("BMP", "Image"), "svg" := Label("SVG", "Image"),
    "tiff" := Label("TIFF", "Image"), "webp" := Label("WebP", "Image"), "ico" := Label("ICO", "Image"),
    // Documents
    "pdf" := Label("PDF", "Document"), "docx" := Label("DOCX", "Document"), "doc" := Label("DOC", "Document"),
    "xlsx" := Label("XLSX", "Spreadsheet"), "xls" := Label("XLS", "Spreadsheet"), "csv" := Label("CSV", "Spreadsheet"),
    "txt" := Label("TXT", "Text"), "pptx" := Label("PPTX", "Presentation"), "ppt" := Label("PPT", "Presentation"),
    // Video and audio
    "mp4" := Label("MP4", "Video"), "mkv" := Label("MKV", "Video"), "avi" := Label("AVI", "Video"),
    "mov" := Label("MOV", "Video"), "mp3" := Label("MP3", "Audio"), "wav" := Label("WAV", "Audio"),
    "flac" := Label("FLAC", "Audio"), "m4a" := Label("M4A", "Audio"), "webm" := Label("WebM", "Video"),
    // Code and scripts
    "py" := Label("Python", "Code"), "js" := Label("JavaScript", "Code"), "ts" := Label("TypeScript", "Code"),
    "cpp" := Label("C++", "Code"), "c" := Label("C", "Code"), "java" := Label("Java", "Code"),
    "go" := Label("Go", "Code"), "rs" := Label("Rust", "Code"), "php" := Label("PHP", "Code"),
    "sh" := Label("Shell", "Script"), "bat" := Label("Batch", "Script"), "ps1" := Label("PowerShell", "Script"),
    // Hardware description languages
    "v" := Label("Verilog", "HDL"), "vh" := Label("Verilog Header", "HDL"), "vhd" := Label("VHDL", "HDL"),
    "sv" := Label("SystemVerilog", "HDL"),
    // 3D models
    "stl" := Label("STL", "3D Model"), "obj" := Label("OBJ", "3D Model"), "fbx" := Label("FBX", "3D Model"),
    "gltf" := Label("glTF", "3D Model"), "glb" := Label("glTF Binary", "3D Model"), "ply" := Label("PLY", "3D Model"),
    "blend" := Label("Blender", "3D Model"), "dae" := Label("Collada", "3D Model"), "usdz" := Label("USDZ", "3D Model"),
    // Archives and data
    "zip" := Label("ZIP", "Archive"), "rar" := Label("RAR", "Archive"), "7z" := Label("7Z", "Archive"),
    "m" := Label("MATLAB", "Code"), "mat" := Label("MATLAB Data", "Data"),
    "json" := Label("JSON", "Code"), "xml" := Label("XML", "Code"), "html" := Label("HTML", "Code"),
    "sql" := Label("SQL", "Database")
  ]

  /** No key of `table` is a prefix of another key. */
  ghost predicate PrefixFree(table: seq<Signature>)
  {
    forall i, j :: 0 <= i < |table| && 0 <= j < |table| && i != j ==>
      !StartsWith(table[j].magic, table[i].magic)
  }

  /** The only index of `MagicBytes` whose key can be a prefix of `h`, read off
      the first byte (and, for the five first bytes two keys share, one more
      byte); -1 when no key can match. */
  function Candidate(h: seq<byte>): int
  {
    if |h| == 0 then -1
    else if h[0] == 0x89 then 0
    else if h[0] == 0xFF then (if |h| > 1 && h[1] == 0xD8 then 1 else 11)
    else if h[0] == 0x47 then (if |h| > 4 && h[4] == 0x37 then 2 else 3)
    else if h[0] == 0x25 then 4
    else if h[0] == 0x50 then 5
    else if h[0] == 0x52 then (if |h| > 1 && h[1] == 0x61 then 6 else 10)
    else if h[0] == 0x37 then 7
    else if h[0] == 0x00 then 8
    else if h[0] == 0x1A then 9
    else if h[0] == 0x66 then 12
    else if h[0] == 0x4D then (if |h| > 1 && h[1] == 0x5A then 13 else 17)
    else if h[0] == 0x7F then 14
    else if h[0] == 0x42 then 15
    else if h[0] == 0x49 then 16
    else if h[0] == 0x3C then (if |h| > 1 && h[1] == 0x3F then 18 else 19)
    else if h[0] == 0x7B then 20
    else if h[0] == 0x73 then 21
    else if h[0] == 0x67 then 22
    else -1
  }

  /** Whenever the key at index `i` is a prefix of `h`, `Candidate(h)` is `i`. */
  lemma CandidateOfMatch(i: nat, h: seq<byte>)
    requires i < |MagicBytes| && StartsWith(h, MagicBytes[i].magic)
    ensures Candidate(h) == i
  {
    var p := MagicBytes[i].magic;
    assert h[0] == p[0];
    if |p| > 1 {
      assert h[1] == p[1];
    }
    if |p| > 4 {
      assert h[4] == p[4];
    }
  }

  /** No key of the signature table is a prefix of another one, so at most one
      key can match any header. */
  lemma MagicBytesPrefixFree()
    ensures PrefixFree(MagicBytes)
  {
    forall i, j | 0 <= i < |MagicBytes| && 0 <= j < |MagicBytes| && StartsWith(MagicBytes[j].magic, MagicBytes[i].magic)
      ensures i == j
    {
      var q := MagicBytes[j].magic;
      CandidateOfMatch(i, q);
      CandidateOfMatch(j, q);
    }
  }
}
