/** The statistics the `/analyze` and `/identify` routes compute over their
    results, and the per-file loops that produce those results. */
module Stats {
  import opened Wrappers
  import opened Tables
  import opened Text
  import opened SizeFormat
  import opened Classifier

  /** `r.get('category', 'Unknown')`: an error result has no category. */
  function CategoryOf(r: Report): string
  {
    if r.Identified? then r.category else "Unknown"
  }

  /** `r.get('filesize_bytes', 0)`: an error result has no size. */
  function BytesOf(r: Report): nat
  {
    if r.Identified? then r.filesizeBytes else 0
  }

  /** The category each result is counted under, in order. */
  function Categories(results: seq<Report>): (cats: seq<string>)
    ensures |cats| == |results|
    ensures forall k :: 0 <= k < |results| ==> cats[k] == CategoryOf(results[k])
  {
    if results == [] then [] else Categories(results[..|results| - 1]) + [CategoryOf(results[|results| - 1])]
  }

  /** The number of occurrences of each text of `cats`, keyed by the texts
      that occur. */
  function Histogram(cats: seq<string>): map<string, nat>
  {
    map c | c in cats :: multiset(cats)[c]
  }

  /** The sum of the byte counts of the results, error results adding 0. */
  function TotalBytes(results: seq<Report>): nat
  {
    if results == [] then 0 else TotalBytes(results[..|results| - 1]) + BytesOf(results[|results| - 1])
  }

  /** The `stats` object of `/analyze`. */
  datatype Stats = Stats(count: nat, totalSize: Size, categories: map<string, nat>)

  /** The distinct categories of `cats`, each once: it enumerates the keys of
      the category mapping so that their counts can be summed. */
  function KeyOrder(cats: seq<string>): (keys: seq<string>)
    ensures forall c :: c in keys <==> c in cats
    ensures forall i, j :: 0 <= i < j < |keys| ==> keys[i] != keys[j]
  {
    if cats == [] then []
    else
      var init, x := cats[..|cats| - 1], cats[|cats| - 1];
      assert cats == init + [x];
      KeyOrder(init) + (if x in init then [] else [x])
  }

  /** The sum of the counts `h` holds for `keys`. */
  function SumCounts(h: map<string, nat>, keys: seq<string>): nat
    requires forall c :: c in keys ==> c in h
  {
    if keys == [] then 0 else SumCounts(h, keys[..|keys| - 1]) + h[keys[|keys| - 1]]
  }

  /** Two count maps that differ at most at `x` have sums over distinct keys
      that differ by the difference at `x`, when `x` is one of the keys. */
  lemma {:induction false} SumCountsDiffer(h: map<string, nat>, h': map<string, nat>, keys: seq<string>, x: string)
    requires forall c :: c in keys ==> c in h && c in h'
    requires forall i, j :: 0 <= i < j < |keys| ==> keys[i] != keys[j]
    requires forall c :: c in keys && c != x ==> h[c] == h'[c]
    ensures SumCounts(h, keys) as int == SumCounts(h', keys) as int + (if x in keys then h[x] as int - h'[x] as int else 0)
  {
    if keys != [] {
      var init, y := keys[..|keys| - 1], keys[|keys| - 1];
      assert keys == init + [y];
      SumCountsDiffer(h, h', init, x);
      assert y == x ==> x !in init;
    }
  }

  /** One step of the dictionary update `categories[cat] = categories.get(cat, 0) + 1`
      turns the histogram of `cats` into the histogram of `cats + [x]`. */
  lemma HistogramStep(cats: seq<string>, x: string)
    ensures var h := Histogram(cats);
      Histogram(cats + [x]) == h[x := (if x in h then h[x] else 0) + 1]
  {
    var h, h2 := Histogram(cats), Histogram(cats + [x]);
    var updated := h[x := (if x in h then h[x] else 0) + 1];
    assert multiset(cats + [x]) == multiset(cats) + multiset{x};
    assert h2.Keys == updated.Keys;
    forall c | c in h2 ensures h2[c] == updated[c] {
      if c == x && x !in cats {
        assert multiset(cats)[x] == 0;
      }
    }
  }

  /** `HistogramStep` for the prefixes of one sequence of categories. */
  lemma HistogramPrefixStep(cats: seq<string>, i: nat)
    requires i < |cats|
    ensures var h := Histogram(cats[..i]);
      Histogram(cats[..i + 1]) == h[cats[i] := (if cats[i] in h then h[cats[i]] else 0) + 1]
  {
    assert cats[..i + 1] == cats[..i] + [cats[i]];
    HistogramStep(cats[..i], cats[i]);
  }

  /** Adding one to the count of `x` (inserting it with count 1 when it is
      new, as a last key) adds one to the sum of the counts. */
  lemma SumCountsStep(h: map<string, nat>, h': map<string, nat>, keys: seq<string>, x: string)
    requires forall c :: c in h' <==> c in keys
    requires forall i, j :: 0 <= i < j < |keys| ==> keys[i] != keys[j]
    requires h == h'[x := (if x in h' then h'[x] else 0) + 1]
    ensures forall c :: c in keys + (if x in keys then [] else [x]) ==> c in h
    ensures SumCounts(h, keys + (if x in keys then [] else [x])) == SumCounts(h', keys) + 1
  {
    SumCountsDiffer(h, h', keys, x);
    if x in keys {
      assert keys + [] == keys;
    } else {
      var keys' := keys + [x];
      assert keys'[..|keys|] == keys;
      assert SumCounts(h, keys') == SumCounts(h, keys) + h[x];
    }
  }

  /** The counts of a histogram, taken over its distinct keys, add up to the
      length of what it counts. */
  lemma {:induction false} HistogramTotal(cats: seq<string>)
    ensures SumCounts(Histogram(cats), KeyOrder(cats)) == |cats|
  {
    if cats != [] {
      var init, x := cats[..|cats| - 1], cats[|cats| - 1];
      assert cats == init + [x];
      HistogramTotal(init);
      HistogramStep(init, x);
      SumCountsStep(Histogram(cats), Histogram(init), KeyOrder(init), x);
    }
  }

  /** The categories mapping of `/analyze`: for each result, add one to the
      count of its category, starting the count at 0. */
  method CountCategories(results: seq<Report>) returns (categories: map<string, nat>)
    ensures categories == Histogram(Categories(results))
  {
    ghost var cats := Categories(results);
    categories := map[];
    var i := 0;
    while i < |results|
      invariant 0 <= i <= |results|
      invariant categories == Histogram(cats[..i])
    {
      var cat := CategoryOf(results[i]);
      HistogramPrefixStep(cats, i);
      categories := categories[cat := (if cat in categories then categories[cat] else 0) + 1];
      i := i + 1;
    }
    assert cats[..i] == cats;
  }

  /** The `stats` of `/analyze`: how many results, their byte total
      formatted, and the category counts, whose values add up to the count. */
  method AnalyzeStats(results: seq<Report>) returns (stats: Stats)
    ensures stats.count == |results|
    ensures stats.totalSize == Formatted(TotalBytes(results))
    ensures stats.categories == Histogram(Categories(results))
    ensures SumCounts(stats.categories, KeyOrder(Categories(results))) == stats.count
  {
    var totalSize := TotalBytes(results);
    var categories := CountCategories(results);
    HistogramTotal(Categories(results));
    var totalStr := FormatSize(totalSize);
    stats := Stats(|results|, totalStr, categories);
  }

  /** One uploaded file: the name the client gave and what the saved
      temporary copy offers when it is read back. */
  datatype Upload = Upload(filename: string, stored: Source)

  /** `os.path.join(folder, name)` for two components. */
  function JoinPath(folder: string, name: string): string
  {
    if |name| > 0 && name[0] == '/' then name
    else if folder == "" || folder[|folder| - 1] == '/' then folder + name
    else folder + "/" + name
  }

  /** Joining a non-empty name without '/' to the upload folder keeps that
      name as the final component, so the result's `filename` is the secured
      name. */
  lemma JoinedBaseName(folder: string, name: string)
    requires name != "" && '/' !in name
    ensures BaseName(JoinPath(folder, name)) == name
  {
    var p := JoinPath(folder, name);
    var q := if folder == "" || folder[|folder| - 1] == '/' then folder else folder + "/";
    assert p == q + name;
    LastIndexOfIsLast(p, '/');
    forall k | |q| <= k < |p| ensures p[k] != '/' {
      assert p[k] == name[k - |q|];
    }
    if q != "" {
      assert p[|q| - 1] == '/';
    }
    assert LastIndexOf(p, '/') + 1 == |q|;
    assert From(p, |q|) == name;
  }

  /** The uploads `/analyze` classifies: those with a non-empty name, in order. */
  function Kept(uploads: seq<Upload>): (kept: seq<Upload>)
    ensures |kept| <= |uploads|
    ensures forall k :: 0 <= k < |kept| ==> kept[k] in uploads && kept[k].filename != ""
  {
    if uploads == [] then []
    else
      var init, last := uploads[..|uploads| - 1], uploads[|uploads| - 1];
      Kept(init) + (if last.filename == "" then [] else [last])
  }

  /** `Kept` is a filter: it keeps a single upload exactly when its name is
      non-empty, and it distributes over concatenation, so it keeps the order
      and the multiplicity of the uploads it keeps. */
  lemma {:induction false} KeptAppend(us: seq<Upload>, vs: seq<Upload>)
    ensures Kept(us + vs) == Kept(us) + Kept(vs)
    decreases |vs|
  {
    if vs == [] {
      assert us + vs == us;
    } else {
      var init, last := vs[..|vs| - 1], vs[|vs| - 1];
      assert vs == init + [last];
      assert us + vs == (us + init) + [last];
      KeptAppend(us, init);
    }
  }

  /** Every upload with a non-empty name is kept. */
  lemma {:induction false} KeptAllNamed(uploads: seq<Upload>, u: Upload)
    requires u in uploads && u.filename != ""
    ensures u in Kept(uploads)
    decreases |uploads|
  {
    var init, last := uploads[..|uploads| - 1], uploads[|uploads| - 1];
    assert uploads == init + [last];
    if u != last {
      KeptAllNamed(init, u);
    }
  }

  /** The result `/analyze` gives for one kept upload: the classification of
      its saved copy, stored under its secured name in the upload folder. */
  function Analyzed(u: Upload, uploadFolder: string, secureName: string -> string,
                    guessType: string -> Option<string>): Report
  {
    Identify(JoinPath(uploadFolder, secureName(u.filename)), u.stored, guessType)
  }

  /** The results for `kept`: the k-th is the classification of the k-th
      upload. */
  function AnalyzeEach(kept: seq<Upload>, uploadFolder: string, secureName: string -> string,
                       guessType: string -> Option<string>): seq<Report>
  {
    seq(|kept|, k requires 0 <= k < |kept| => Analyzed(kept[k], uploadFolder, secureName, guessType))
  }

  /** The sum of the sizes of the saved copies that can be read back: what
      `stat` reports for each of them. */
  function StoredBytes(kept: seq<Upload>): nat
  {
    if kept == [] then 0
    else
      var last := kept[|kept| - 1];
      StoredBytes(kept[..|kept| - 1]) + (if last.stored.Readable? then last.stored.size else 0)
  }

  /** The byte total of `/analyze` is the sum of the stored sizes of the
      readable copies: every error result adds 0. */
  lemma {:induction false} AnalyzedTotal(kept: seq<Upload>, uploadFolder: string, secureName: string -> string,
                                         guessType: string -> Option<string>)
    ensures TotalBytes(AnalyzeEach(kept, uploadFolder, secureName, guessType)) == StoredBytes(kept)
  {
    if kept != [] {
      var init, last := kept[..|kept| - 1], kept[|kept| - 1];
      var results := AnalyzeEach(kept, uploadFolder, secureName, guessType);
      AnalyzedTotal(init, uploadFolder, secureName, guessType);
      assert results[..|init|] == AnalyzeEach(init, uploadFolder, secureName, guessType);
      var path := JoinPath(uploadFolder, secureName(last.filename));
      assert results[|init|] == Identify(path, last.stored, guessType);
      ErrorResults(path, last.stored, guessType);
      if last.stored.Readable? {
        ReportedFields(path, last.stored.contents, last.stored.size, guessType);
      }
    }
  }

  /** The loop of `/analyze`: skip uploads with an empty name, classify the
      saved copy of every other one, then compute the statistics over the
      results. */
  method AnalyzeFiles(uploads: seq<Upload>, uploadFolder: string, secureName: string -> string,
                      guessType: string -> Option<string>)
    returns (results: seq<Report>, stats: Stats)
    ensures results == AnalyzeEach(Kept(uploads), uploadFolder, secureName, guessType)
    ensures stats.count == |results|
    ensures stats.totalSize == Formatted(TotalBytes(results))
    ensures stats.categories == Histogram(Categories(results))
    ensures SumCounts(stats.categories, KeyOrder(Categories(results))) == stats.count
  {
    results := [];
    ghost var kept: seq<Upload> := [];
    var i := 0;
    while i < |uploads|
      invariant 0 <= i <= |uploads|
      invariant kept == Kept(uploads[..i])
      invariant results == AnalyzeEach(kept, uploadFolder, secureName, guessType)
    {
      var file := uploads[i];
      assert uploads[..i + 1] == uploads[..i] + [file];
      if file.filename != "" {
        var tempPath := JoinPath(uploadFolder, secureName(file.filename));
        var result := IdentifyFile(tempPath, file.stored, guessType);
        assert result == Analyzed(file, uploadFolder, secureName, guessType);
        results := results + [result];
        kept := kept + [file];
      }
      i := i + 1;
    }
    assert uploads[..i] == uploads;
    stats := AnalyzeStats(results);
  }

  /** One entry of the `/identify` request: what the browser detected. */
  datatype ClientFile = ClientFile(name: string, size: nat, browserType: string, browserCategory: string)

  /** One entry of the `/identify` response. */
  datatype Checked = Checked(name: string, size: nat, browserType: string, browserCategory: string,
                             mimeType: string, extension: string)

  /** The `stats` object of `/identify`. */
  datatype QuickStats = QuickStats(count: nat, totalSize: Size)

  /** The MIME type `/identify` reports when `guess_type` finds none. */
  const UnknownMime: string := "unknown"

  /** The response entry for one client file: the browser's claims echoed,
      with the MIME guess and extension of the client's file name. */
  function CheckEntry(f: ClientFile, guessType: string -> Option<string>): Checked
  {
    Checked(f.name, f.size, f.browserType, f.browserCategory,
            OrDefault(guessType(f.name), UnknownMime), Upper(Extension(f.name)))
  }

  /** `/identify` reports the same extension as `identify_file` would for a
      file of that name, and the same MIME type exactly when a non-empty guess
      exists: otherwise the two defaults differ. */
  lemma CheckEntryMatchesIdentify(f: ClientFile, guessType: string -> Option<string>,
                                  contents: seq<byte>, size: nat)
    ensures var c, r := CheckEntry(f, guessType), Identify(f.name, Readable(contents, size), guessType);
      && r.Identified?
      && c.extension == r.extension
      && (c.mimeType == r.mimeType <==> guessType(f.name).Some? && guessType(f.name).value != "")
  {
  }

  /** The response entries for `files`: the k-th is the entry for the k-th
      file. */
  function CheckEach(files: seq<ClientFile>, guessType: string -> Option<string>): seq<Checked>
  {
    seq(|files|, k requires 0 <= k < |files| => CheckEntry(files[k], guessType))
  }

  /** The sum of the client-stated sizes. */
  function TotalClientSize(files: seq<ClientFile>): nat
  {
    if files == [] then 0 else TotalClientSize(files[..|files| - 1]) + files[|files| - 1].size
  }

  /** The sum of the sizes in response entries. */
  function TotalCheckedSize(checked: seq<Checked>): nat
  {
    if checked == [] then 0 else TotalCheckedSize(checked[..|checked| - 1]) + checked[|checked| - 1].size
  }

  /** The sizes the response echoes add up to the sizes the client stated. */
  lemma {:induction false} EchoedSizesAddUp(files: seq<ClientFile>, guessType: string -> Option<string>)
    ensures TotalCheckedSize(CheckEach(files, guessType)) == TotalClientSize(files)
  {
    if files != [] {
      var init := files[..|files| - 1];
      EchoedSizesAddUp(init, guessType);
      assert CheckEach(files, guessType)[..|init|] == CheckEach(init, guessType);
    }
  }

  /** `/identify`: one response entry per client file, in order, and the
      count and formatted total of the stated sizes. No signature detection
      takes place, since no bytes are sent. */
  method QuickIdentify(files: seq<ClientFile>, guessType: string -> Option<string>)
    returns (validated: seq<Checked>, stats: QuickStats)
    ensures validated == CheckEach(files, guessType)
    ensures stats.count == |files|
    ensures stats.totalSize == Formatted(TotalClientSize(files))
  {
    validated := [];
    var i := 0;
    while i < |files|
      invariant 0 <= i <= |files|
      invariant validated == CheckEach(files[..i], guessType)
    {
      validated := validated + [CheckEntry(files[i], guessType)];
      i := i + 1;
    }
    assert files[..i] == files;
    EchoedSizesAddUp(files, guessType);
    var total := TotalCheckedSize(validated);
    var totalStr := FormatSize(total);
    stats := QuickStats(|validated|, totalStr);
  }
}
