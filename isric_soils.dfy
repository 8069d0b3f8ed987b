/** The SoilGrids procurement: for each soil type, a CSV of the layer's
    VRT and tile URLs with their SHA-256 checksums, built from the
    checksum listings ISRIC publishes next to the files, and then one
    download per CSV row into a directory layout that mirrors ISRIC's. */
module IsricSoils {
  import opened Wrappers
  import opened Strings
  import opened Paths

  const UrlBase: string := "https://files.isric.org/soilgrids/latest/data/"
  const ChecksumKey: string := "checksum.sha256.txt"

  /** `ISRIC_SOILGRIDS_TYPES`, in its dictionary order: each soil type
      and the name of its 0-5cm mean layer. */
  const SoilgridsTypes: seq<(string, string)> :=
    [("sand", "sand_0-5cm_mean"), ("clay", "clay_0-5cm_mean"), ("silt", "silt_0-5cm_mean")]

  /** `table[key]` for a table of distinct keys, or `None` for a
      `KeyError`. */
  function Lookup(table: seq<(string, string)>, key: string): (r: Option<string>)
    ensures r.Some? <==> exists k :: 0 <= k < |table| && table[k].0 == key
    ensures r.Some? ==> exists k :: 0 <= k < |table| && table[k] == (key, r.value)
  {
    if table == [] then None
    else if table[0].0 == key then Some(table[0].1)
    else
      var r := Lookup(table[1..], key);
      assert forall k :: 0 < k < |table| ==> table[k] == table[1..][k - 1];
      r
  }

  /** `ISRIC_SOILGRIDS_TYPES[soil_type]`. */
  function TypeLayer(soilType: string): Option<string>
  {
    Lookup(SoilgridsTypes, soilType)
  }

  /** A row of the tile CSV: a URL and its checksum. */
  datatype Row = Row(url: string, checksum: string)

  /** The exceptions of the procurement. */
  datatype SoilError =
    | ShortChecksumLine          // `IndexError`: a checksum line has fewer than two fields
    | MissingChecksum(key: string)  // `KeyError`: no checksum for a tile's file name
    | UnknownLayer(soilType: string)  // `KeyError` of `ISRIC_SOILGRIDS_TYPES`
    | InvalidChoice(arg: string)    // argparse refuses the `--soil-type`

  // ---------------------------------------------------------------------
  // The VRT row

  function VrtName(soilType: string): string
  {
    soilType + "_0-5cm_mean.vrt"
  }

  function VrtUrl(soilType: string): string
  {
    UrlBase + soilType + "/" + VrtName(soilType)
  }

  function VrtChecksumUrl(soilType: string): string
  {
    UrlBase + soilType + "/" + ChecksumKey
  }

  /** The loop of lines 52-55 over checksum lines `lines`: a row for the
      VRT with the first field of each line whose second field names it,
      and the `IndexError` of the first line with fewer than two fields. */
  function VrtScan(soilType: string, lines: seq<string>): (r: (seq<Row>, Option<SoilError>))
    ensures forall k :: 0 <= k < |r.0| ==> r.0[k].url == VrtUrl(soilType)
    ensures r.1.Some? ==> r.1 == Some(ShortChecksumLine)
  {
    if lines == [] then ([], None)
    else
      var before := VrtScan(soilType, lines[..|lines| - 1]);
      var fields := Tokens(lines[|lines| - 1]);
      if before.1.Some? then before
      else if |fields| < 2 then (before.0, Some(ShortChecksumLine))
      else if fields[1] == VrtName(soilType) then (before.0 + [Row(VrtUrl(soilType), fields[0])], None)
      else before
  }

  /** Lines 49-55: the response to the VRT's checksum URL, line by line. */
  method ScanVrtChecksums(soilType: string, text: string) returns (rows: seq<Row>, e: Option<SoilError>)
    ensures (rows, e) == VrtScan(soilType, SplitLines(text))
  {
    var lines := SplitLines(text);
    rows := [];
    var k := 0;
    while k < |lines|
      invariant 0 <= k <= |lines|
      invariant VrtScan(soilType, lines[..k]) == (rows, None)
    {
      assert lines[..k + 1][..k] == lines[..k];
      var fields := Tokens(lines[k]);
      if |fields| < 2 {
        VrtScanStays(soilType, lines, k + 1);
        return rows, Some(ShortChecksumLine);
      }
      if fields[1] == VrtName(soilType) {
        rows := rows + [Row(VrtUrl(soilType), fields[0])];
      }
      k := k + 1;
    }
    assert lines[..k] == lines;
    e := None;
  }

  lemma {:induction false} VrtScanStays(soilType: string, lines: seq<string>, k: nat)
    requires k <= |lines| && VrtScan(soilType, lines[..k]).1.Some?
    ensures VrtScan(soilType, lines) == VrtScan(soilType, lines[..k])
    decreases |lines| - k
  {
    if k < |lines| {
      assert lines[..|lines| - 1][..k] == lines[..k];
      VrtScanStays(soilType, lines[..|lines| - 1], k);
    } else {
      assert lines[..k] == lines;
    }
  }

  /** A checksum listing as ISRIC writes it: one "hash file" line per
      entry. */
  function ListingLines(entries: seq<(string, string)>): (lines: seq<string>)
    ensures |lines| == |entries|
  {
    seq(|entries|, k requires 0 <= k < |entries| => entries[k].0 + " " + entries[k].1)
  }

  predicate Field(t: string)
  {
    t != [] && NoSpace(t)
  }

  /** The hashes listed for the file `name`, in listing order. */
  function HashesOf(entries: seq<(string, string)>, name: string): seq<string>
  {
    if entries == [] then []
    else
      var before := HashesOf(entries[..|entries| - 1], name);
      var last := entries[|entries| - 1];
      if last.1 == name then before + [last.0] else before
  }

  /** The fields of a "hash file" line are the hash and the file. */
  lemma EntryFields(h: string, f: string)
    requires Field(h) && Field(f)
    ensures Tokens(h + " " + f) == [h, f]
  {
    TokensOfJoin([h, f]);
    assert JoinWith([h, f], ' ') == h + " " + f by {
      assert JoinWith([h, f][1..], ' ') == f;
    }
  }

  /** A listing of well-formed entries gives one VRT row per entry naming
      the VRT, with that entry's hash, in listing order, and no error. */
  lemma {:induction false} VrtRowsOfListing(soilType: string, entries: seq<(string, string)>)
    requires forall k :: 0 <= k < |entries| ==> Field(entries[k].0) && Field(entries[k].1)
    ensures var r := VrtScan(soilType, ListingLines(entries));
      r.1.None? && |r.0| == |HashesOf(entries, VrtName(soilType))|
      && forall k :: 0 <= k < |r.0| ==> r.0[k] == Row(VrtUrl(soilType), HashesOf(entries, VrtName(soilType))[k])
  {
    if entries != [] {
      var init := entries[..|entries| - 1];
      var last := entries[|entries| - 1];
      VrtRowsOfListing(soilType, init);
      assert ListingLines(entries)[..|entries| - 1] == ListingLines(init);
      EntryFields(last.0, last.1);
    }
  }

  /** The lines of a listing written one per line read back as they were. */
  lemma ListingText(entries: seq<(string, string)>)
    requires forall k :: 0 <= k < |entries| ==> Field(entries[k].0) && Field(entries[k].1)
    ensures SplitLines(Terminated(ListingLines(entries))) == ListingLines(entries)
  {
    var lines := ListingLines(entries);
    forall k | 0 <= k < |lines|
      ensures NoLineBreak(lines[k])
    {
      var h, f := entries[k].0, entries[k].1;
      assert lines[k] == h + " " + f;
      forall i | 0 <= i < |lines[k]|
        ensures !IsLineBreak(lines[k][i])
      {
        if i < |h| {
          assert lines[k][i] == h[i];
        } else if i > |h| {
          assert lines[k][i] == f[i - |h| - 1];
        }
      }
    }
    SplitLinesTerminated(lines);
  }

  // ---------------------------------------------------------------------
  // The tile URLs

  /** Line 65-66: the `SourceFilename` of the VRT with its first '/'
      segment dropped, under the soil type's directory. */
  function TileUrl(soilType: string, source: string): string
  {
    UrlBase + soilType + "/" + JoinWith(Split(source, '/')[1..], '/')
  }

  /** The first segment, and only it, is dropped. */
  lemma TileUrlDropsFirstSegment(soilType: string, head: string, rest: string)
    requires '/' !in head
    ensures TileUrl(soilType, head + "/" + rest) == UrlBase + soilType + "/" + rest
  {
    SplitAfterPart(head, rest, '/');
    assert Split(head + "/" + rest, '/')[1..] == Split(rest, '/');
    JoinSplit(rest, '/');
  }

  /** A source without '/' leaves the bare soil type directory. */
  lemma TileUrlOfOneSegment(soilType: string, source: string)
    requires '/' !in source
    ensures TileUrl(soilType, source) == UrlBase + soilType + "/"
  {
    SplitNoSep(source, '/');
  }

  /** Line 68: the checksum listing of the tile's directory. */
  function ChecksumUrl(tileUrl: string): string
  {
    Dirname(tileUrl) + "/" + ChecksumKey
  }

  /** The list keeping the first appearance of each element, with the
      later ones dropped (lines 69-70). */
  function Dedup(s: seq<string>): (d: seq<string>)
    ensures forall x :: x in d <==> x in s
  {
    if s == [] then []
    else
      var d := Dedup(s[..|s| - 1]);
      assert forall x :: x in s <==> x in s[..|s| - 1] || x == s[|s| - 1];
      if s[|s| - 1] in d then d else d + [s[|s| - 1]]
  }

  /** The position of the first `x` in `s`. */
  function FirstIndex(s: seq<string>, x: string): (i: nat)
    requires x in s
    ensures i < |s| && s[i] == x && forall j :: 0 <= j < i ==> s[j] != x
  {
    if s[0] == x then 0 else 1 + FirstIndex(s[1..], x)
  }

  lemma FirstIndexOfPrefix(s: seq<string>, n: nat, x: string)
    requires n <= |s| && x in s[..n]
    ensures FirstIndex(s, x) == FirstIndex(s[..n], x)
  {
    var i := FirstIndex(s[..n], x);
    assert s[i] == x;
  }

  /** An element seen for the first time at the end is first seen there. */
  lemma FirstIndexOfNew(s: seq<string>)
    requires s != [] && s[|s| - 1] !in s[..|s| - 1]
    ensures FirstIndex(s, s[|s| - 1]) == |s| - 1
  {
    var f := FirstIndex(s, s[|s| - 1]);
    if f < |s| - 1 {
      assert false;
    }
  }

  predicate FirstSeenOrder(s: seq<string>, d: seq<string>)
    requires forall x :: x in d ==> x in s
  {
    forall i, j :: 0 <= i < j < |d| ==> FirstIndex(s, d[i]) < FirstIndex(s, d[j])
  }

  /** `Dedup` keeps the order of first appearance. */
  lemma {:induction false} DedupOrder(s: seq<string>)
    ensures FirstSeenOrder(s, Dedup(s))
  {
    if s != [] {
      DedupOrder(s[..|s| - 1]);
      var d := Dedup(s);
      forall i, j | 0 <= i < j < |d|
        ensures FirstIndex(s, d[i]) < FirstIndex(s, d[j])
      {
        DedupOrderNext(s, i, j);
      }
    }
  }

  /** One pair of `DedupOrder`'s induction step. */
  lemma DedupOrderNext(s: seq<string>, i: nat, j: nat)
    requires s != [] && FirstSeenOrder(s[..|s| - 1], Dedup(s[..|s| - 1]))
    requires i < j < |Dedup(s)|
    ensures FirstIndex(s, Dedup(s)[i]) < FirstIndex(s, Dedup(s)[j])
  {
    var init := s[..|s| - 1];
    var d0 := Dedup(init);
    var d := Dedup(s);
    if j < |d0| {
      assert d[i] == d0[i] && d[j] == d0[j] && d0[i] in d0 && d0[j] in d0;
      assert FirstIndex(init, d0[i]) < FirstIndex(init, d0[j]);
      FirstIndexKept(s, d0[i], d0[j]);
    } else {
      assert d[i] == d0[i] && d0[i] in d0 && d[j] == s[|s| - 1] && s[|s| - 1] !in init;
      FirstIndexBeforeNew(s, d0[i]);
    }
  }

  lemma FirstIndexKept(s: seq<string>, a: string, b: string)
    requires s != [] && a in s[..|s| - 1] && b in s[..|s| - 1]
    requires FirstIndex(s[..|s| - 1], a) < FirstIndex(s[..|s| - 1], b)
    ensures FirstIndex(s, a) < FirstIndex(s, b)
  {
    var n := |s| - 1;
    FirstIndexOfPrefix(s, n, a);
    FirstIndexOfPrefix(s, n, b);
  }

  lemma FirstIndexBeforeNew(s: seq<string>, a: string)
    requires s != [] && a in s[..|s| - 1] && s[|s| - 1] !in s[..|s| - 1]
    ensures FirstIndex(s, a) < FirstIndex(s, s[|s| - 1])
  {
    FirstIndexOfPrefix(s, |s| - 1, a);
    FirstIndexOfNew(s);
  }

  /** Distinct first appearances: no element twice. */
  lemma DedupDistinct(s: seq<string>)
    ensures var d := Dedup(s); forall i, j :: 0 <= i < j < |d| ==> d[i] != d[j]
  {
    DedupOrder(s);
  }

  /** The tile URL of each source, in order. */
  function TileUrls(soilType: string, sources: seq<string>): (ts: seq<string>)
    ensures |ts| == |sources|
  {
    if sources == [] then []
    else TileUrls(soilType, sources[..|sources| - 1]) + [TileUrl(soilType, sources[|sources| - 1])]
  }

  lemma {:induction false} TileUrlAt(soilType: string, sources: seq<string>, k: nat)
    requires k < |sources|
    ensures TileUrls(soilType, sources)[k] == TileUrl(soilType, sources[k])
    decreases |sources|
  {
    if k < |sources| - 1 {
      TileUrlAt(soilType, sources[..|sources| - 1], k);
    }
  }

  /** The checksum listing of each tile, in order. */
  function ChecksumUrls(tiles: seq<string>): (cs: seq<string>)
    ensures |cs| == |tiles|
  {
    if tiles == [] then [] else ChecksumUrls(tiles[..|tiles| - 1]) + [ChecksumUrl(tiles[|tiles| - 1])]
  }

  lemma {:induction false} ChecksumUrlAt(tiles: seq<string>, k: nat)
    requires k < |tiles|
    ensures ChecksumUrls(tiles)[k] == ChecksumUrl(tiles[k])
    decreases |tiles|
  {
    if k < |tiles| - 1 {
      ChecksumUrlAt(tiles[..|tiles| - 1], k);
    }
  }

  lemma TileUrlsNext(soilType: string, sources: seq<string>, k: nat)
    requires k < |sources|
    ensures TileUrls(soilType, sources[..k + 1]) == TileUrls(soilType, sources[..k]) + [TileUrl(soilType, sources[k])]
  {
    assert sources[..k + 1][..k] == sources[..k];
  }

  lemma ChecksumUrlsNext(tiles: seq<string>, tile: string)
    ensures ChecksumUrls(tiles + [tile]) == ChecksumUrls(tiles) + [ChecksumUrl(tile)]
  {
    assert (tiles + [tile])[..|tiles|] == tiles;
  }

  lemma DedupNext(s: seq<string>, x: string)
    ensures Dedup(s + [x]) == if x in Dedup(s) then Dedup(s) else Dedup(s) + [x]
  {
    assert (s + [x])[..|s|] == s;
  }

  /** Lines 60-70: the tile URLs, and the checksum listings they need,
      each once. */
  method CollectTileUrls(soilType: string, sources: seq<string>) returns (tiles: seq<string>, checksums: seq<string>)
    ensures tiles == TileUrls(soilType, sources)
    ensures checksums == Dedup(ChecksumUrls(tiles))
  {
    tiles, checksums := [], [];
    var k := 0;
    while k < |sources|
      invariant 0 <= k <= |sources|
      invariant tiles == TileUrls(soilType, sources[..k])
      invariant checksums == Dedup(ChecksumUrls(tiles))
    {
      var tile := TileUrl(soilType, sources[k]);
      var url := ChecksumUrl(tile);
      TileUrlsNext(soilType, sources, k);
      ChecksumUrlsNext(tiles, tile);
      DedupNext(ChecksumUrls(tiles), url);
      tiles := tiles + [tile];
      if url !in checksums {
        checksums := checksums + [url];
      }
      k := k + 1;
    }
    assert sources[..k] == sources;
  }

  // ---------------------------------------------------------------------
  // The checksum lookup

  /** Lines 77-79 over `lines`, from the lookup `m0`: each line maps its
      second field to its first; or the `IndexError` of a short line. */
  function LookupScan(m0: map<string, string>, lines: seq<string>): Result<map<string, string>, SoilError>
  {
    if lines == [] then Ok(m0)
    else match LookupScan(m0, lines[..|lines| - 1])
      case Err(e) => Err(e)
      case Ok(m) =>
        var fields := Tokens(lines[|lines| - 1]);
        if |fields| < 2 then Err(ShortChecksumLine) else Ok(m[fields[1] := fields[0]])
  }

  /** The lines of the listings at `urls`, in order; `fetch` stands for
      the responses of the server. */
  function AllLines(urls: seq<string>, fetch: string -> string): seq<string>
  {
    if urls == [] then [] else AllLines(urls[..|urls| - 1], fetch) + SplitLines(fetch(urls[|urls| - 1]))
  }

  /** The position of the last line whose second field is `key`. */
  function LastFor(lines: seq<string>, key: string): (i: int)
    ensures -1 <= i < |lines|
    ensures i >= 0 ==> |Tokens(lines[i])| >= 2 && Tokens(lines[i])[1] == key
    ensures forall j :: i < j < |lines| && |Tokens(lines[j])| >= 2 ==> Tokens(lines[j])[1] != key
  {
    if lines == [] then -1
    else
      var fields := Tokens(lines[|lines| - 1]);
      if |fields| >= 2 && fields[1] == key then |lines| - 1
      else
        var i := LastFor(lines[..|lines| - 1], key);
        assert forall j :: i < j < |lines| - 1 ==> lines[..|lines| - 1][j] == lines[j];
        i
  }

  /** Later lines override earlier ones: a file name maps to the hash of
      the last line that names it, and to its earlier value if no line
      does. */
  lemma {:induction false} LookupLast(m0: map<string, string>, lines: seq<string>, key: string)
    requires LookupScan(m0, lines).Ok?
    ensures var m := LookupScan(m0, lines).value; var i := LastFor(lines, key);
      && (key in m <==> i >= 0 || key in m0)
      && (i >= 0 ==> m[key] == Tokens(lines[i])[0])
      && (i < 0 && key in m0 ==> m[key] == m0[key])
  {
    if lines != [] {
      var init := lines[..|lines| - 1];
      var fields := Tokens(lines[|lines| - 1]);
      LookupLast(m0, init, key);
      if !(fields[1] == key) {
        var i := LastFor(init, key);
        if i >= 0 {
          assert lines[i] == init[i];
        }
      }
    }
  }

  /** Every line of the listings is well formed exactly when no
      `IndexError` is raised. */
  lemma {:induction false} LookupScanOk(m0: map<string, string>, lines: seq<string>)
    ensures LookupScan(m0, lines).Ok? <==> forall k :: 0 <= k < |lines| ==> |Tokens(lines[k])| >= 2
  {
    if lines != [] {
      var init := lines[..|lines| - 1];
      LookupScanOk(m0, init);
      assert forall k :: 0 <= k < |init| ==> init[k] == lines[k];
    }
  }

  lemma {:induction false} LookupScanStays(m0: map<string, string>, lines: seq<string>, k: nat)
    requires k <= |lines| && LookupScan(m0, lines[..k]).Err?
    ensures LookupScan(m0, lines) == LookupScan(m0, lines[..k])
    decreases |lines| - k
  {
    if k < |lines| {
      assert lines[..|lines| - 1][..k] == lines[..k];
      LookupScanStays(m0, lines[..|lines| - 1], k);
    } else {
      assert lines[..k] == lines;
    }
  }

  lemma {:induction false} AllLinesPrefix(urls: seq<string>, fetch: string -> string, k: nat)
    requires k <= |urls|
    ensures |AllLines(urls[..k], fetch)| <= |AllLines(urls, fetch)|
    ensures AllLines(urls, fetch)[..|AllLines(urls[..k], fetch)|] == AllLines(urls[..k], fetch)
    decreases |urls| - k
  {
    if k < |urls| {
      assert urls[..|urls| - 1][..k] == urls[..k];
      AllLinesPrefix(urls[..|urls| - 1], fetch, k);
    } else {
      assert urls[..k] == urls;
    }
  }

  /** One more line of a listing: its entry, or the IndexError of a short
      line. */
  lemma LookupScanExtend(before: seq<string>, lines: seq<string>, l: nat, m: map<string, string>)
    requires l < |lines| && LookupScan(map[], before + lines[..l]) == Ok(m)
    ensures var fields := Tokens(lines[l]);
      LookupScan(map[], before + lines[..l + 1]) ==
        if |fields| < 2 then Err(ShortChecksumLine) else Ok(m[fields[1] := fields[0]])
  {
    var t := before + lines[..l + 1];
    assert t[..|t| - 1] == before + lines[..l];
    assert t[|t| - 1] == lines[l];
  }

  /** Lines 77-79 for one listing, continuing the lookup of the lines
      `before` it. */
  method AddListing(lookup: map<string, string>, ghost before: seq<string>, lines: seq<string>)
      returns (r: Result<map<string, string>, SoilError>)
    requires LookupScan(map[], before) == Ok(lookup)
    ensures r == LookupScan(map[], before + lines)
  {
    var m := lookup;
    var l := 0;
    assert before + lines[..0] == before;
    while l < |lines|
      invariant 0 <= l <= |lines|
      invariant LookupScan(map[], before + lines[..l]) == Ok(m)
    {
      LookupScanExtend(before, lines, l, m);
      var fields := Tokens(lines[l]);
      if |fields| < 2 {
        assert (before + lines)[..|before| + l + 1] == before + lines[..l + 1];
        LookupScanStays(map[], before + lines, |before| + l + 1);
        return Err(ShortChecksumLine);
      }
      m := m[fields[1] := fields[0]];
      l := l + 1;
    }
    assert lines[..l] == lines;
    r := Ok(m);
  }

  /** Lines 74-79: the lookup built from the listings at `urls`, in order. */
  method BuildChecksumLookup(urls: seq<string>, fetch: string -> string)
      returns (r: Result<map<string, string>, SoilError>)
    ensures r == LookupScan(map[], AllLines(urls, fetch))
  {
    var lookup: map<string, string> := map[];
    var k := 0;
    while k < |urls|
      invariant 0 <= k <= |urls|
      invariant LookupScan(map[], AllLines(urls[..k], fetch)) == Ok(lookup)
    {
      assert urls[..k + 1][..k] == urls[..k];
      var next := AddListing(lookup, AllLines(urls[..k], fetch), SplitLines(fetch(urls[k])));
      if next.Err? {
        var done := AllLines(urls[..k + 1], fetch);
        AllLinesPrefix(urls, fetch, k + 1);
        LookupScanStays(map[], AllLines(urls, fetch), |done|);
        return next;
      }
      lookup := next.value;
      k := k + 1;
    }
    assert urls[..k] == urls;
    r := Ok(lookup);
  }

  // ---------------------------------------------------------------------
  // The tile rows

  /** Lines 85-88: one row per tile URL, in order, with the hash of its
      file name; the `KeyError` of the first name without one stops the
      rows. */
  function TileRows(tiles: seq<string>, lookup: map<string, string>): (seq<Row>, Option<SoilError>)
  {
    if tiles == [] then ([], None)
    else
      var before := TileRows(tiles[..|tiles| - 1], lookup);
      var url := tiles[|tiles| - 1];
      var key := Basename(url);
      if before.1.Some? then before
      else if key !in lookup then (before.0, Some(MissingChecksum(key)))
      else (before.0 + [Row(url, lookup[key])], None)
  }

  /** The rows are those of the tiles before the first file name without
      a hash, each with its file name's hash; that name is the `KeyError`,
      and without one every tile has its row. */
  lemma {:induction false} TileRowsMeaning(tiles: seq<string>, lookup: map<string, string>)
    ensures var r := TileRows(tiles, lookup);
      && |r.0| <= |tiles|
      && (forall k :: 0 <= k < |r.0| ==>
            Basename(tiles[k]) in lookup && r.0[k] == Row(tiles[k], lookup[Basename(tiles[k])]))
      && (r.1.None? <==> |r.0| == |tiles|)
      && (r.1.Some? ==>
            (Basename(tiles[|r.0|]) !in lookup && r.1 == Some(MissingChecksum(Basename(tiles[|r.0|])))))
  {
    if tiles != [] {
      var init := tiles[..|tiles| - 1];
      TileRowsMeaning(init, lookup);
      assert forall k :: 0 <= k < |init| ==> init[k] == tiles[k];
    }
  }

  /** No `KeyError` exactly when every tile's file name has a hash. */
  lemma TileRowsComplete(tiles: seq<string>, lookup: map<string, string>)
    ensures TileRows(tiles, lookup).1.None? <==> forall k :: 0 <= k < |tiles| ==> Basename(tiles[k]) in lookup
  {
    TileRowsMeaning(tiles, lookup);
    var r := TileRows(tiles, lookup);
    if r.1.Some? {
      assert Basename(tiles[|r.0|]) !in lookup;
    }
  }

  lemma {:induction false} TileRowsStays(tiles: seq<string>, lookup: map<string, string>, k: nat)
    requires k <= |tiles| && TileRows(tiles[..k], lookup).1.Some?
    ensures TileRows(tiles, lookup) == TileRows(tiles[..k], lookup)
    decreases |tiles| - k
  {
    if k < |tiles| {
      assert tiles[..|tiles| - 1][..k] == tiles[..k];
      TileRowsStays(tiles[..|tiles| - 1], lookup, k);
    } else {
      assert tiles[..k] == tiles;
    }
  }

  /** Lines 83-88. */
  method WriteTileRows(tiles: seq<string>, lookup: map<string, string>) returns (rows: seq<Row>, e: Option<SoilError>)
    ensures (rows, e) == TileRows(tiles, lookup)
  {
    rows := [];
    var k := 0;
    while k < |tiles|
      invariant 0 <= k <= |tiles|
      invariant TileRows(tiles[..k], lookup) == (rows, None)
    {
      assert tiles[..k + 1][..k] == tiles[..k];
      var key := Basename(tiles[k]);
      if key !in lookup {
        TileRowsStays(tiles, lookup, k + 1);
        return rows, Some(MissingChecksum(key));
      }
      rows := rows + [Row(tiles[k], lookup[key])];
      k := k + 1;
    }
    assert tiles[..k] == tiles;
    e := None;
  }

  // ---------------------------------------------------------------------
  // `_get_remote_raster_urls`

  /** The rows of the tile CSV of `soilType` and the exception that stops
      writing it: the VRT rows, then one row per tile. `sources` are the
      `SourceFilename`s of the VRT and `fetch` the server's responses. */
  function RemoteRasterUrls(soilType: string, sources: seq<string>, fetch: string -> string)
      : (seq<Row>, Option<SoilError>)
  {
    var vrt := VrtScan(soilType, SplitLines(fetch(VrtChecksumUrl(soilType))));
    if vrt.1.Some? then vrt
    else
      var tiles := TileUrls(soilType, sources);
      match LookupScan(map[], AllLines(Dedup(ChecksumUrls(tiles)), fetch))
      case Err(e) => (vrt.0, Some(e))
      case Ok(lookup) =>
        var t := TileRows(tiles, lookup);
        (vrt.0 + t.0, t.1)
  }

  /** Lines 38-90, with the requests and the HTML parsing as parameters. */
  method GetRemoteRasterUrls(soilType: string, sources: seq<string>, fetch: string -> string)
      returns (rows: seq<Row>, e: Option<SoilError>)
    ensures (rows, e) == RemoteRasterUrls(soilType, sources, fetch)
  {
    rows, e := ScanVrtChecksums(soilType, fetch(VrtChecksumUrl(soilType)));
    if e.Some? {
      return;
    }
    var tiles, checksums := CollectTileUrls(soilType, sources);
    var lookup := BuildChecksumLookup(checksums, fetch);
    if lookup.Err? {
      return rows, Some(lookup.error);
    }
    var tileRows;
    tileRows, e := WriteTileRows(tiles, lookup.value);
    rows := rows + tileRows;
  }

  /** `rows` are the rows of `tiles`, in order, each with the hash given
      by the last line of `lines` that names the tile's file. */
  predicate ListsTiles(rows: seq<Row>, tiles: seq<string>, lines: seq<string>)
  {
    && |rows| == |tiles|
    && forall k :: 0 <= k < |tiles| ==>
         var i := LastFor(lines, Basename(tiles[k]));
         i >= 0 && rows[k] == Row(tiles[k], Tokens(lines[i])[0])
  }

  /** When nothing is raised, the CSV holds the VRT rows and then exactly
      one row per tile, in VRT order, each with the hash its file name was
      last listed with. */
  lemma CsvRows(soilType: string, sources: seq<string>, fetch: string -> string)
    requires RemoteRasterUrls(soilType, sources, fetch).1.None?
    ensures var rows := RemoteRasterUrls(soilType, sources, fetch).0;
      var vrt := VrtScan(soilType, SplitLines(fetch(VrtChecksumUrl(soilType)))).0;
      var tiles := TileUrls(soilType, sources);
      && |vrt| <= |rows| && rows[..|vrt|] == vrt
      && ListsTiles(rows[|vrt|..], tiles, AllLines(Dedup(ChecksumUrls(tiles)), fetch))
  {
    var v := VrtScan(soilType, SplitLines(fetch(VrtChecksumUrl(soilType))));
    assert v.1.None?;
    var tiles := TileUrls(soilType, sources);
    var lines := AllLines(Dedup(ChecksumUrls(tiles)), fetch);
    var scan := LookupScan(map[], lines);
    assert scan.Ok?;
    var t := TileRows(tiles, scan.value);
    var rows := RemoteRasterUrls(soilType, sources, fetch).0;
    assert rows == v.0 + t.0 && t.1.None?;
    assert rows[|v.0|..] == t.0;
    TileRowsOfLines(tiles, lines);
  }

  /** The tile rows over the lookup built from `lines`: the hash of each
      tile is the first field of the last line that names its file. */
  lemma TileRowsOfLines(tiles: seq<string>, lines: seq<string>)
    requires LookupScan(map[], lines).Ok?
    requires TileRows(tiles, LookupScan(map[], lines).value).1.None?
    ensures ListsTiles(TileRows(tiles, LookupScan(map[], lines).value).0, tiles, lines)
  {
    var lookup := LookupScan(map[], lines).value;
    var t := TileRows(tiles, lookup).0;
    TileRowsMeaning(tiles, lookup);
    forall k | 0 <= k < |tiles|
      ensures var i := LastFor(lines, Basename(tiles[k]));
        i >= 0 && t[k] == Row(tiles[k], Tokens(lines[i])[0])
    {
      var key := Basename(tiles[k]);
      LookupLast(map[], lines, key);
      assert key in lookup && t[k] == Row(tiles[k], lookup[key]);
    }
  }

  // ---------------------------------------------------------------------
  // `main`

  predicate KnownChoice(arg: string)
  {
    arg == "clay" || arg == "sand" || arg == "silt" || arg == "soc" || arg == "all"
  }

  /** Lines 205-209 and 228-230: `--soil-type` (by default "all") must be
      one of the choices; "all" stands for the soil types of the table, in
      its order. */
  function SoilTypes(arg: Option<string>): (r: Result<seq<string>, SoilError>)
  {
    var choice := if arg.None? then "all" else arg.value;
    if !KnownChoice(choice) then Err(InvalidChoice(choice))
    else if Lower(choice) == "all" then Ok(seq(|SoilgridsTypes|, k requires 0 <= k < |SoilgridsTypes| => SoilgridsTypes[k].0))
    else Ok([Lower(choice)])
  }

  /** Lines 278-289: where a CSV row's file is saved. */
  function OutputPath(soilDir: string, soilTilesDir: string, url: string): string
  {
    var name := Basename(url);
    if Splitext(name).1 == ".vrt" then Join(soilDir, name)
    else Join(Join(soilTilesDir, Basename(Dirname(url))), name)
  }

  /** A download task: the URL, the file it is saved to and its checksum. */
  datatype Download = Download(url: string, path: string, checksum: string)

  function SoilDir(cacheDir: string, soilType: string): string
  {
    Join(cacheDir, soilType)
  }

  /** Line 240: where the tile CSV of `soilType` is written. */
  function CsvPath(cacheDir: string, soilType: string): string
  {
    Join(SoilDir(cacheDir, soilType), soilType + "-tile-urls.csv")
  }

  /** The download tasks of the rows of one tile CSV. */
  function DownloadsOf(soilDir: string, soilTilesDir: string, rows: seq<Row>): (ds: seq<Download>)
    ensures |ds| == |rows|
  {
    if rows == [] then []
    else
      var last := rows[|rows| - 1];
      DownloadsOf(soilDir, soilTilesDir, rows[..|rows| - 1])
        + [Download(last.url, OutputPath(soilDir, soilTilesDir, last.url), last.checksum)]
  }

  /** One download per row, in order, of the row's URL and checksum to
      where `OutputPath` puts it. */
  lemma {:induction false} DownloadAt(soilDir: string, soilTilesDir: string, rows: seq<Row>, k: nat)
    requires k < |rows|
    ensures DownloadsOf(soilDir, soilTilesDir, rows)[k] ==
      Download(rows[k].url, OutputPath(soilDir, soilTilesDir, rows[k].url), rows[k].checksum)
  {
    if k < |rows| - 1 {
      var init := rows[..|rows| - 1];
      DownloadAt(soilDir, soilTilesDir, init, k);
      assert init[k] == rows[k];
    }
  }

  /** The tile CSV of each soil type, in order. */
  function CsvPaths(cacheDir: string, types: seq<string>): (ps: seq<string>)
    ensures |ps| == |types|
    ensures forall k :: 0 <= k < |types| ==> ps[k] == CsvPath(cacheDir, types[k])
  {
    if types == [] then [] else CsvPaths(cacheDir, types[..|types| - 1]) + [CsvPath(cacheDir, types[|types| - 1])]
  }

  /** What `main` declares: the tile CSVs, the downloads, and the
      exception that stops it. */
  datatype Procurement = Procurement(csvPaths: seq<string>, downloads: seq<Download>, error: Option<SoilError>)

  /** The downloads of the soil types `types`, in order, until one has no
      layer; `csvRows` stands for the rows each tile CSV holds once its
      task has run. */
  function DownloadsFor(cacheDir: string, types: seq<string>, csvRows: string -> seq<Row>)
      : (seq<Download>, Option<SoilError>)
  {
    if types == [] then ([], None)
    else
      var before := DownloadsFor(cacheDir, types[..|types| - 1], csvRows);
      var t := types[|types| - 1];
      if before.1.Some? then before
      else match TypeLayer(t)
        case None => (before.0, Some(UnknownLayer(t)))
        case Some(layer) =>
          var soilDir := SoilDir(cacheDir, t);
          (before.0 + DownloadsOf(soilDir, Join(soilDir, layer), csvRows(CsvPath(cacheDir, t))), None)
  }

  /** `main` of lines 202-311, with the directories, the task graph's
      scheduling and the downloads themselves left out. */
  function Procure(cacheDir: string, arg: Option<string>, csvRows: string -> seq<Row>): Procurement
  {
    match SoilTypes(arg)
    case Err(e) => Procurement([], [], Some(e))
    case Ok(types) =>
      var d := DownloadsFor(cacheDir, types, csvRows);
      Procurement(CsvPaths(cacheDir, types), d.0, d.1)
  }

  /** Lines 272-302 for one soil type: a download per CSV row, in order. */
  method DeclareDownloads(soilDir: string, soilTilesDir: string, rows: seq<Row>) returns (ds: seq<Download>)
    ensures ds == DownloadsOf(soilDir, soilTilesDir, rows)
  {
    ds := [];
    var k := 0;
    while k < |rows|
      invariant 0 <= k <= |rows|
      invariant ds == DownloadsOf(soilDir, soilTilesDir, rows[..k])
    {
      assert rows[..k + 1][..k] == rows[..k];
      var path := OutputPath(soilDir, soilTilesDir, rows[k].url);
      ds := ds + [Download(rows[k].url, path, rows[k].checksum)];
      k := k + 1;
    }
    assert rows[..k] == rows;
  }

  /** Lines 233-245: the path of each soil type's tile CSV, in order. */
  method DeclareCsvPaths(cacheDir: string, types: seq<string>) returns (paths: seq<string>)
    ensures paths == CsvPaths(cacheDir, types)
  {
    paths := [];
    var k := 0;
    while k < |types|
      invariant 0 <= k <= |types|
      invariant paths == CsvPaths(cacheDir, types[..k])
    {
      assert types[..k + 1][..k] == types[..k];
      paths := paths + [CsvPath(cacheDir, types[k])];
      k := k + 1;
    }
    assert types[..k] == types;
  }

  /** `main`: the tile CSV of each soil type, then the downloads of each. */
  method RunMain(cacheDir: string, arg: Option<string>, csvRows: string -> seq<Row>) returns (p: Procurement)
    ensures p == Procure(cacheDir, arg, csvRows)
  {
    var types := SoilTypes(arg);
    if types.Err? {
      return Procurement([], [], Some(types.error));
    }
    var ts := types.value;
    ProcureTypes(cacheDir, arg, csvRows);
    var paths := DeclareCsvPaths(cacheDir, ts);
    var downloads, e := DeclareAllDownloads(cacheDir, ts, csvRows);
    p := Procurement(paths, downloads, e);
  }

  /** Lines 256-302: the downloads of each soil type in turn, until one has
      no layer. */
  method DeclareAllDownloads(cacheDir: string, ts: seq<string>, csvRows: string -> seq<Row>)
      returns (downloads: seq<Download>, e: Option<SoilError>)
    ensures (downloads, e) == DownloadsFor(cacheDir, ts, csvRows)
  {
    downloads := [];
    var k := 0;
    while k < |ts|
      invariant 0 <= k <= |ts|
      invariant DownloadsFor(cacheDir, ts[..k], csvRows) == (downloads, None)
    {
      assert ts[..k + 1][..k] == ts[..k];
      var t := ts[k];
      var layer := TypeLayer(t);
      if layer.None? {
        DownloadsForNext(cacheDir, ts[..k + 1], csvRows);
        DownloadsForStays(cacheDir, ts, csvRows, k + 1);
        return downloads, Some(UnknownLayer(t));
      }
      var soilDir := SoilDir(cacheDir, t);
      var ds := DeclareDownloads(soilDir, Join(soilDir, layer.value), csvRows(CsvPath(cacheDir, t)));
      DownloadsForNext(cacheDir, ts[..k + 1], csvRows);
      downloads := downloads + ds;
      k := k + 1;
    }
    assert ts[..k] == ts;
    e := None;
  }

  /** With valid choices, `main` declares the CSVs of the soil types and
      then their downloads. */
  lemma ProcureTypes(cacheDir: string, arg: Option<string>, csvRows: string -> seq<Row>)
    requires SoilTypes(arg).Ok?
    ensures var types := SoilTypes(arg).value;
      var d := DownloadsFor(cacheDir, types, csvRows);
      Procure(cacheDir, arg, csvRows) == Procurement(CsvPaths(cacheDir, types), d.0, d.1)
  {
  }

  /** One more soil type: its downloads, or the error of a missing layer. */
  lemma DownloadsForNext(cacheDir: string, types: seq<string>, csvRows: string -> seq<Row>)
    requires types != [] && DownloadsFor(cacheDir, types[..|types| - 1], csvRows).1.None?
    ensures var t := types[|types| - 1]; var before := DownloadsFor(cacheDir, types[..|types| - 1], csvRows).0;
      var soilDir := SoilDir(cacheDir, t);
      DownloadsFor(cacheDir, types, csvRows) ==
        if TypeLayer(t).None? then (before, Some(UnknownLayer(t)))
        else (before + DownloadsOf(soilDir, Join(soilDir, TypeLayer(t).value), csvRows(CsvPath(cacheDir, t))), None)
  {
  }

  lemma {:induction false} DownloadsForStays(cacheDir: string, types: seq<string>, csvRows: string -> seq<Row>, k: nat)
    requires k <= |types| && DownloadsFor(cacheDir, types[..k], csvRows).1.Some?
    ensures DownloadsFor(cacheDir, types, csvRows) == DownloadsFor(cacheDir, types[..k], csvRows)
    decreases |types| - k
  {
    if k < |types| {
      assert types[..|types| - 1][..k] == types[..k];
      DownloadsForStays(cacheDir, types[..|types| - 1], csvRows, k);
    } else {
      assert types[..k] == types;
    }
  }

  // ---------------------------------------------------------------------
  // Properties of `main`

  /** "all", the default, is sand, clay and silt, in that order. */
  lemma AllTypes()
    ensures SoilTypes(None) == Ok(["sand", "clay", "silt"])
    ensures SoilTypes(Some("all")) == Ok(["sand", "clay", "silt"])
  {
    LowerChoice("all");
    var keys := seq(|SoilgridsTypes|, k requires 0 <= k < |SoilgridsTypes| => SoilgridsTypes[k].0);
    assert keys == ["sand", "clay", "silt"];
  }

  /** The choices are lower case already. */
  lemma LowerChoice(arg: string)
    requires KnownChoice(arg)
    ensures Lower(arg) == arg
  {
    assert forall i :: 0 <= i < |arg| ==> 'a' <= arg[i] <= 'z';
  }

  /** "soc" is accepted on the command line but has no layer: its tile
      CSV is declared, and then `main` raises before any download. */
  lemma SocRaises(cacheDir: string, csvRows: string -> seq<Row>)
    ensures Procure(cacheDir, Some("soc"), csvRows) ==
      Procurement([CsvPath(cacheDir, "soc")], [], Some(UnknownLayer("soc")))
  {
    LowerChoice("soc");
    assert SoilTypes(Some("soc")) == Ok(["soc"]);
    assert ["soc"][..0] == [];
    assert TypeLayer("soc") == None by {
      assert forall k :: 0 <= k < |SoilgridsTypes| ==> SoilgridsTypes[k].0 != "soc";
    }
    assert DownloadsFor(cacheDir, ["soc"], csvRows) == ([], Some(UnknownLayer("soc")));
    assert CsvPaths(cacheDir, ["soc"]) == [] + [CsvPath(cacheDir, "soc")];
  }

  /** A single soil type with a layer gets one download per CSV row, in
      order. */
  lemma OneTypeDownloads(cacheDir: string, soilType: string, csvRows: string -> seq<Row>)
    requires soilType == "sand" || soilType == "clay" || soilType == "silt"
    ensures var p := Procure(cacheDir, Some(soilType), csvRows);
      var soilDir := SoilDir(cacheDir, soilType);
      p.error.None? && p.csvPaths == [CsvPath(cacheDir, soilType)]
      && p.downloads == DownloadsOf(soilDir, Join(soilDir, TypeLayer(soilType).value), csvRows(CsvPath(cacheDir, soilType)))
  {
    LowerChoice(soilType);
    assert SoilTypes(Some(soilType)) == Ok([soilType]);
    assert [soilType][..0] == [];
    var layer := TypeLayer(soilType);
    assert layer.Some? by {
      assert SoilgridsTypes[0].0 == "sand" && SoilgridsTypes[1].0 == "clay" && SoilgridsTypes[2].0 == "silt";
    }
    var soilDir := SoilDir(cacheDir, soilType);
    var ds := DownloadsOf(soilDir, Join(soilDir, layer.value), csvRows(CsvPath(cacheDir, soilType)));
    assert DownloadsFor(cacheDir, [soilType], csvRows) == ([] + ds, None);
    assert [] + ds == ds;
    assert CsvPaths(cacheDir, [soilType]) == [] + [CsvPath(cacheDir, soilType)];
  }

  /** `ds` are the downloads of a tile CSV that holds the VRT rows `vrt`
      and then one row per tile of `tiles`: one per VRT row, then one per
      tile in order, saved where `OutputPath` puts it, with the hash of the
      last line of `lines` that names its file. */
  predicate CsvDownloads(ds: seq<Download>, soilDir: string, tilesDir: string, vrt: seq<Row>,
                         tiles: seq<string>, lines: seq<string>)
  {
    && |ds| == |vrt| + |tiles|
    && (forall k :: 0 <= k < |vrt| ==>
          ds[k] == Download(vrt[k].url, OutputPath(soilDir, tilesDir, vrt[k].url), vrt[k].checksum))
    && (forall k :: 0 <= k < |tiles| ==>
          var i := LastFor(lines, Basename(tiles[k]));
          i >= 0 && |Tokens(lines[i])| > 0 &&
          ds[|vrt| + k] == Download(tiles[k], OutputPath(soilDir, tilesDir, tiles[k]), Tokens(lines[i])[0]))
  }

  /** A single soil type with a layer, when its tile CSV holds exactly the
      rows the CSV task wrote and nothing was raised writing them: one
      download for each VRT row, then one for each tile in VRT order, the
      tile saved under the tile directory with the hash its file name was
      last listed with. */
  lemma WrittenCsvDownloads(cacheDir: string, soilType: string, sources: seq<string>,
                            fetch: string -> string, csvRows: string -> seq<Row>)
    requires soilType == "sand" || soilType == "clay" || soilType == "silt"
    requires RemoteRasterUrls(soilType, sources, fetch).1.None?
    requires csvRows(CsvPath(cacheDir, soilType)) == RemoteRasterUrls(soilType, sources, fetch).0
    ensures var p := Procure(cacheDir, Some(soilType), csvRows);
      var soilDir := SoilDir(cacheDir, soilType);
      var tiles := TileUrls(soilType, sources);
      && p.error.None?
      && CsvDownloads(p.downloads, soilDir, Join(soilDir, TypeLayer(soilType).value),
                      VrtScan(soilType, SplitLines(fetch(VrtChecksumUrl(soilType)))).0,
                      tiles, AllLines(Dedup(ChecksumUrls(tiles)), fetch))
  {
    var soilDir := SoilDir(cacheDir, soilType);
    OneTypeDownloads(cacheDir, soilType, csvRows);
    var tilesDir := Join(soilDir, TypeLayer(soilType).value);
    var rows := RemoteRasterUrls(soilType, sources, fetch).0;
    CsvRows(soilType, sources, fetch);
    var vrt := VrtScan(soilType, SplitLines(fetch(VrtChecksumUrl(soilType)))).0;
    var tiles := TileUrls(soilType, sources);
    var lines := AllLines(Dedup(ChecksumUrls(tiles)), fetch);
    assert rows == vrt + rows[|vrt|..];
    DownloadsOfRows(soilDir, tilesDir, vrt, rows[|vrt|..], tiles, lines);
  }

  /** The downloads of VRT rows followed by tile rows. */
  lemma DownloadsOfRows(soilDir: string, tilesDir: string, vrt: seq<Row>, tileRows: seq<Row>,
                        tiles: seq<string>, lines: seq<string>)
    requires ListsTiles(tileRows, tiles, lines)
    ensures CsvDownloads(DownloadsOf(soilDir, tilesDir, vrt + tileRows), soilDir, tilesDir, vrt, tiles, lines)
  {
    var rows := vrt + tileRows;
    var ds := DownloadsOf(soilDir, tilesDir, rows);
    forall k | 0 <= k < |vrt|
      ensures ds[k] == Download(vrt[k].url, OutputPath(soilDir, tilesDir, vrt[k].url), vrt[k].checksum)
    {
      DownloadAt(soilDir, tilesDir, rows, k);
    }
    forall k | 0 <= k < |tiles|
      ensures var i := LastFor(lines, Basename(tiles[k]));
        i >= 0 && |Tokens(lines[i])| > 0 &&
        ds[|vrt| + k] == Download(tiles[k], OutputPath(soilDir, tilesDir, tiles[k]), Tokens(lines[i])[0])
    {
      var i := LastFor(lines, Basename(tiles[k]));
      assert i >= 0 && tileRows[k] == Row(tiles[k], Tokens(lines[i])[0]);
      DownloadAt(soilDir, tilesDir, rows, |vrt| + k);
      assert rows[|vrt| + k] == tileRows[k];
    }
  }

  /** A VRT is saved directly in the soil type's directory; any other file
      in the tile directory named after its URL's parent directory, under
      the layer's directory. Each keeps its file name. */
  lemma OutputPathLayout(soilDir: string, soilTilesDir: string, url: string)
    requires soilDir != [] && soilDir[|soilDir| - 1] != '/'
    requires soilTilesDir != [] && soilTilesDir[|soilTilesDir| - 1] != '/'
    requires Basename(url) != [] && Basename(Dirname(url)) != []
    ensures var path := OutputPath(soilDir, soilTilesDir, url);
      && Basename(path) == Basename(url)
      && (Splitext(Basename(url)).1 == ".vrt" ==> Dirname(path) == soilDir)
      && (Splitext(Basename(url)).1 != ".vrt" ==>
            Dirname(path) == Join(soilTilesDir, Basename(Dirname(url)))
            && Dirname(Dirname(path)) == soilTilesDir
            && Basename(Dirname(path)) == Basename(Dirname(url)))
  {
    var name := Basename(url);
    var dir := Basename(Dirname(url));
    BasenameJoin(soilDir, name);
    if Splitext(name).1 == ".vrt" {
      DirnameJoin(soilDir, name);
    } else {
      var tileDir := Join(soilTilesDir, dir);
      assert tileDir == soilTilesDir + "/" + dir;
      BasenameJoin(tileDir, name);
      DirnameJoin(tileDir, name);
      DirnameJoin(soilTilesDir, dir);
      BasenameJoin(soilTilesDir, dir);
    }
  }
}
