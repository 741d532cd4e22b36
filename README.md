# File type identifier: a Dafny model

This project models the classification core of a small file-type
identification server, `file_server.py`. The core is three pieces:

- `FileTypeIdentifier.identify_file` classifies a file in two tiers:
  - first, the ordered table `MAGIC_BYTES` of leading-byte signatures, where
    the first key that is a prefix of the file's first 1024 bytes wins;
  - then, the `EXTENSION_MAP` lookup of the lower-cased `Path.suffix`;
  - otherwise, `('UNKNOWN', 'Unknown')`.
- `format_size` turns a byte count into a value and a unit (B, KB, MB, GB or TB).
- The `/analyze` and `/identify` routes loop over their files, then compute:
  - the count;
  - the formatted byte total;
  - for `/analyze`, the number of results per category.

The modules follow that structure:

- `Tables`: the two tables, written out entry by entry in declaration order.
  Also the proof that no signature key is a prefix of another.
- `Text`: the path operations the classifier uses:
  - `rfind`;
  - `Path.name`;
  - `Path.suffix[1:].lower()`;
  - ASCII `upper`/`lower`.
- `SizeFormat`: `format_size`. It is a loop (`FormatSize`) proved against a
  specification function (`Formatted`), with lemmas about unit selection.
- `Classifier`: `identify_file`.
  - `IdentifyFile` is the method. It performs the for/break scan
    (`ScanSignatures`) and the fallback.
  - `Identify` is the function that specifies the whole result.
  - The lemmas cover precedence, fallback, unknown files, reported fields
    and error values.
- `Stats`: the two route loops, specified and proved:
  - `AnalyzeFiles` and `CountCategories`;
  - `QuickIdentify`.

Two behaviours of the code are worth stating plainly:

- The detection tag is `'magic_bytes'` when a signature matched and
  `'extension'` otherwise. A file that matches neither tier is therefore
  reported as `('UNKNOWN', 'Unknown')` with the tag `'extension'`
  (`file_server.py` lines 120 and 134).
- A result without a category (an error value) is counted under `'Unknown'`,
  because the loop reads `r.get('category', 'Unknown')` (line 175).

## Model

| member | source | states |
|---|---|---|
| Tables.MagicBytesPrefixFree | file_server.py:31-55 | No key of the signature table is a prefix of another key, so at most one entry can match a header and declaration order never decides a tie. |
| Tables.CandidateOfMatch | file_server.py:31-55 | Whenever key i of the table starts a header, the entry chosen from the header's first one or two distinguishing bytes is entry i. |
| Text.LastIndexOfIsLast | file_server.py:117 | The backward search returns -1 exactly when the character does not occur, and otherwise an index holding it with no occurrence after it (the `rfind` that `Path.suffix` relies on). |
| Text.LastIndexBeforeIsLast | file_server.py:117 | The same property for the search over the first n characters, by induction on n. |
| Text.BaseNameIsLastComponent | file_server.py:127 | `Path.name` is the tail of the path that contains no '/', and it is preceded by a '/' unless it is the whole path. |
| Text.ExtensionCharacters | file_server.py:117 | The extension is empty exactly when the path has no suffix, and it never contains '.', '/' or a capital letter. |
| Text.UpperOfLower | file_server.py:130 | Upper-casing the lower-cased text gives the same as upper-casing the original. |
| Text.UpperExtension | file_server.py:117-130 | The reported `ext.upper()` is the upper case of the text after the path's last dot when the path has a suffix, and is empty otherwise. |
| SizeFormat.UnitIndex | file_server.py:140-144 | The unit index is at most 4. Below 4, the count is under 1024^(k+1). Every smaller step up was taken because the count reached 1024^j. |
| SizeFormat.FormatSize | file_server.py:138-144 | The unit loop returns exactly `Formatted(n)`: n divided by 1024^k with unit k, where k is the least index whose next power exceeds n, or TB after four divisions. |
| SizeFormat.ScaledBelow | file_server.py:142 | At step k, the scaled value is below 1024 exactly when n < 1024^(k+1). |
| SizeFormat.SmallValuesInBytes | file_server.py:140-143 | A count is shown in B exactly when it is below 1024, and then unchanged. |
| SizeFormat.TeraBytesCap | file_server.py:140-144 | The unit is TB exactly when the count is at least 1024^4. |
| SizeFormat.UnitIndexMonotone | file_server.py:140-144 | A larger byte count never gets a smaller unit. |
| SizeFormat.ScaledValueBounds | file_server.py:140-144 | The shown value is below 1024 for every unit but TB, and at least 1 for every unit but B. |
| Classifier.Header | file_server.py:104-105 | The header is a prefix of the contents of exactly min(length, 1024) bytes: all of the contents when they are that short, and their first 1024 bytes otherwise. |
| Classifier.FirstMatch | file_server.py:110-114 | The scan result is the index of an entry whose key starts the header with no earlier entry matching, or none when no entry matches. |
| Classifier.ScanSignatures | file_server.py:109-114 | The for/break loop yields the label of the first matching entry, and yields nothing exactly when no key of the table starts the header. |
| Classifier.Resolve | file_server.py:120-134 | The tag is `magic_bytes` exactly when some key of the table starts the header, and the label is then the entry of such a key. With the tag `extension`, the label is the extension's map entry when there is one and (`UNKNOWN`, `Unknown`) otherwise. |
| Classifier.IdentifyFile | file_server.py:96-135 | The method's result is the full result value `Identify(path, source, guessType)`: an error value, or every field of the classification. |
| Classifier.AtMostOneMatch | file_server.py:111-112 | In a prefix-free table, two keys that both start one header are the same key. |
| Classifier.FirstMatchInPrefixFree | file_server.py:110-114 | In a prefix-free table, the scan returns index i exactly when key i starts the header, wherever it stands. |
| Classifier.ScanIsCandidate | file_server.py:110-114 | The scan over the real table finds exactly the entry picked from the header's first bytes, when that entry's key matches, and nothing otherwise. |
| Classifier.EntryMatches | file_server.py:110-114 | If an entry whose key starts the header is anywhere in the table, the scan finds something. |
| Classifier.ScanOrderIndependent | file_server.py:110-114 | For a prefix-free table, any reordering of its entries finds a match exactly when the original does, and finds the same entry. |
| Classifier.SignaturePrecedence | file_server.py:110-134 | A header starting with key i is classified with entry i's type and category and the tag `magic_bytes`, whatever the file's name. |
| Classifier.ExtensionFallback | file_server.py:117-134 | When no key starts the header and the extension is in the map, the result carries that entry's label and the tag `extension`. |
| Classifier.UnknownFile | file_server.py:120-134 | When neither tier matches, the result is ('UNKNOWN', 'Unknown') with the tag `extension`. |
| Classifier.DetectionMeansSignature | file_server.py:110-134 | The tag is `magic_bytes` exactly when some key of the table starts the header. |
| Classifier.ReportedFields | file_server.py:123-133 | The name is `Path.name`, the byte count is the stat size, the size is that count formatted, and the MIME type is the guess for the path, or `application/octet-stream` when the guess is missing or empty. |
| Classifier.ReportedExtension | file_server.py:117-130 | The reported extension is the upper-cased text after the path's last dot when the path has a suffix, and empty otherwise. |
| Classifier.ErrorResults | file_server.py:99-107 | The result is an error exactly when the file is missing or unreadable, with the messages `File not found: <path>` and `Cannot read file: <reason>`. |
| Stats.Categories | file_server.py:174-175 | One category per result, in order: the result's category, or `Unknown` for an error value. |
| Stats.KeyOrder | file_server.py:173-176 | Lists every category that occurs, each exactly once, so that a sum over it is a sum over the keys of the category mapping. No key order is promised, since `jsonify` sorts the keys. |
| Stats.HistogramStep | file_server.py:176 | One update `categories[cat] = categories.get(cat, 0) + 1` turns the counts of a prefix into the counts of the prefix extended by `cat`. |
| Stats.SumCountsDiffer | file_server.py:173-176 | Two count mappings that differ only at x have sums over distinct keys that differ by the difference at x. |
| Stats.SumCountsStep | file_server.py:176 | One update adds exactly one to the sum of the counts. |
| Stats.HistogramTotal | file_server.py:173-181 | The category counts add up to the number of results. |
| Stats.CountCategories | file_server.py:173-176 | The counting loop produces exactly the number of occurrences of each category. |
| Stats.AnalyzeStats | file_server.py:172-184 | The `stats` value has count = number of results, total = formatted sum of byte counts (errors adding 0), the category counts, and counts that add up to the count. |
| Stats.Kept | file_server.py:156-158 | Every upload kept has a non-empty name and is one of the uploads, and no more uploads are kept than were sent. |
| Stats.KeptAppend | file_server.py:155-158 | Keeping distributes over concatenation, so the uploads kept are those with a non-empty name, in their order and with their multiplicity. |
| Stats.KeptAllNamed | file_server.py:156-158 | Every upload with a non-empty name is classified. |
| Stats.JoinedBaseName | file_server.py:161 | Joining a non-empty secured name without '/' to the upload folder leaves that name as the final component, so the result's `filename` is the secured name. |
| Stats.AnalyzeFiles | file_server.py:155-184 | The loop gives one result per upload with a name, in order: the classification of the saved copy under the secured name in the upload folder. Its statistics are those of `AnalyzeStats`. |
| Stats.AnalyzedTotal | file_server.py:172 | The byte total of `/analyze` is the sum of the `stat` sizes of the saved copies that can be read back, and every error result adds 0. |
| Stats.EchoedSizesAddUp | file_server.py:202-213 | The sizes echoed in the response add up to the sizes the client stated. |
| Stats.CheckEntryMatchesIdentify | file_server.py:197-206 | A `/identify` entry has the extension `identify_file` reports for a file of that name. Its MIME type agrees with `identify_file` exactly when a non-empty guess exists, because the two defaults differ. |
| Stats.QuickIdentify | file_server.py:195-215 | One response entry per client file, in order, each with the name, size, type and category echoed, the MIME guess (or `unknown` when it is missing or empty), and the upper-cased extension of the name. The count is the number of files and the total is their stated sizes formatted. |

## Left out

- The Flask application, routes and JSON (de)serialisation are not modelled. A route is modelled as a method over its decoded inputs, and the 400 responses for a missing `files` entry are left out. So are `/upload`, `/latest-image`, `/file` and `/health`.
- File system access is not modelled. `Path.exists`, `open(...).read(1024)` and `stat().st_size` are replaced by a `Source` value: missing, unreadable with a reason, or readable with contents and size. Saving and deleting the temporary copy in `/analyze` are left out.
- `mimetypes.guess_type` and `werkzeug.utils.secure_filename` are not modelled. They are function parameters, since their tables live outside this file.
- `os.path.join` is modelled for two components only.
- Stats.AnalyzeFiles: `file.filename == ''` is the only way an upload is skipped. A `None` filename is not modelled.
- SizeFormat.FormatSize: the value is an exact rational. Python divides in binary floating point, and the two agree on the unit chosen for every count below 2^53. The decimal rendering `f"{x:.1f} {unit}"` is left out. So is the `OverflowError` Python raises for integers beyond the float range.
- Text.ExtensionCharacters: `Path.suffix` is modelled by one rule. The suffix is the final component's text from its last dot, when that dot is neither the component's first character nor the path's last character. Other `pathlib` corner cases are not modelled: trailing slashes, `.` and `..` components, and Windows separators.
- Text.UpperOfLower: `str.lower` and `str.upper` are modelled on ASCII letters only. Other Unicode case mappings are left out.
- Stats.QuickIdentify: the client's `size` is taken as a natural number. Other JSON values, which Python would add or reject, are left out.
