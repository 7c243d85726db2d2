/**
 * The tile writers: a directory tree, a zip archive, an NGM archive (a zip
 * archive with a per-zoom manifest) and an MBTiles database, each as an
 * in-memory store that records what the real writer puts on disk.
 *
 * A rendered tile is opaque: `Encoded(image, format, quality)` stands for
 * the bytes `QImage.save` produces for that image, format and quality.
 */
module Writers {
  import opened Wrappers
  import opened Strings
  import opened Tiles

  /** A rendered tile image; its pixels are not modelled. */
  datatype Image = Image(id: nat)

  /** The bytes of `image` saved in `format` at `quality`. */
  datatype Encoded = Encoded(image: Image, format: string, quality: int)

  /** `a<sep>b`. */
  function Join(a: string, sep: char, b: string): string {
    a + [sep] + b
  }

  /** `root/z/x/y.<format in lower case>`, the path of a tile below the output. */
  function TilePath(root: string, t: Tile, format: string): string {
    Join(root, '/', Join(NatToString(t.z), '/', Join(NatToString(t.x), '/', Join(NatToString(t.y), '.', Lower(format)))))
  }

  lemma JoinCancel(a: string, sep: char, r1: string, r2: string)
    requires Join(a, sep, r1) == Join(a, sep, r2)
    ensures r1 == r2
  {
    assert r1 == Join(a, sep, r1)[|a| + 1..];
  }

  /** Splitting at the first separator after a run of digits. */
  lemma JoinDigits(m: nat, n: nat, sep: char, r1: string, r2: string)
    requires !IsDigit(sep)
    requires Join(NatToString(m), sep, r1) == Join(NatToString(n), sep, r2)
    ensures m == n && r1 == r2
  {
    DigitsHaveNoSeparator(NatToString(m), sep);
    DigitsHaveNoSeparator(NatToString(n), sep);
    SplitAtSeparator(sep, NatToString(m), r1, NatToString(n), r2);
    NatToStringInjective(m, n);
  }

  /** Two tiles get the same path only when they have the same address: no tile overwrites another. */
  lemma TilePathInjective(root: string, t: Tile, u: Tile, format: string)
    requires TilePath(root, t, format) == TilePath(root, u, format)
    ensures t.z == u.z && t.x == u.x && t.y == u.y
  {
    var fmt := Lower(format);
    JoinCancel(root, '/', Join(NatToString(t.z), '/', Join(NatToString(t.x), '/', Join(NatToString(t.y), '.', fmt))),
                          Join(NatToString(u.z), '/', Join(NatToString(u.x), '/', Join(NatToString(u.y), '.', fmt))));
    JoinDigits(t.z, u.z, '/', Join(NatToString(t.x), '/', Join(NatToString(t.y), '.', fmt)),
                              Join(NatToString(u.x), '/', Join(NatToString(u.y), '.', fmt)));
    JoinDigits(t.x, u.x, '/', Join(NatToString(t.y), '.', fmt), Join(NatToString(u.y), '.', fmt));
    JoinDigits(t.y, u.y, '.', fmt, fmt);
  }

  // ----- DirectoryWriter -----

  /** Saves each tile as a file `output/root/z/x/y.<format>`, creating its directory first. */
  class DirectoryWriter {
    const output: string
    const rootDir: string
    var files: map<string, Encoded>
    var dirs: set<string>

    constructor (output: string, rootDir: string)
      ensures this.output == output && this.rootDir == rootDir
      ensures files == map[] && dirs == {}
    {
      this.output, this.rootDir := output, rootDir;
      files, dirs := map[], {};
    }

    /** The directory `output/root/z/x` that holds the tile's file. */
    function TileDir(t: Tile): string {
      Join(output, '/', Join(rootDir, '/', Join(NatToString(t.z), '/', NatToString(t.x))))
    }

    method WriteTile(tile: Tile, image: Image, format: string, quality: int)
      modifies this
      ensures files == old(files)[Join(output, '/', TilePath(rootDir, tile, format)) := Encoded(image, format, quality)]
      ensures dirs == old(dirs) + {TileDir(tile)}
    {
      var path := Join(rootDir, '/', Join(NatToString(tile.z), '/', NatToString(tile.x)));
      var dirPath := Join(output, '/', path);
      dirs := dirs + {dirPath};
      var file := Join(dirPath, '/', Join(NatToString(tile.y), '.', Lower(format)));
      assert file == Join(output, '/', TilePath(rootDir, tile, format));
      files := files[file := Encoded(image, format, quality)];
    }

    /** Nothing is left to do once every file is written. */
    method Finalize()
      ensures files == old(files) && dirs == old(dirs)
    {
    }
  }

  /** Writing one tile leaves the file of every tile at another address as it was. */
  lemma DirectoryWriteKeepsOthers(output: string, root: string, files: map<string, Encoded>, t: Tile, u: Tile, format: string, e: Encoded)
    requires t.z != u.z || t.x != u.x || t.y != u.y
    ensures var p := Join(output, '/', TilePath(root, u, format));
      (p in files[Join(output, '/', TilePath(root, t, format)) := e] <==> p in files)
      && (p in files ==> files[Join(output, '/', TilePath(root, t, format)) := e][p] == files[p])
  {
    if Join(output, '/', TilePath(root, t, format)) == Join(output, '/', TilePath(root, u, format)) {
      JoinCancel(output, '/', TilePath(root, t, format), TilePath(root, u, format));
      TilePathInjective(root, t, u, format);
    }
  }

  // ----- ZipWriter -----

  /** The manifest of a level of an NGM archive: the bounding box of its tile columns and rows. */
  datatype LevelJson = LevelJson(level: nat, bboxMaxX: nat, bboxMaxY: nat, bboxMinX: nat, bboxMinY: nat)

  datatype RendererProperties = RendererProperties(
    alpha: int, antialias: bool, brightness: int, contrast: int,
    dither: bool, filterbitmap: bool, greyscale: bool, kind: string)

  /** The NGM archive's manifest, the JSON object `Mapnik.json` holds. */
  datatype ArchiveInfo = ArchiveInfo(
    cacheSizeMultiply: int,
    levels: seq<LevelJson>,
    maxLevel: nat,
    minLevel: nat,
    name: string,
    rendererProperties: RendererProperties,
    tmsType: int,
    kind: int,
    visible: bool)

  datatype Content = TileData(encoded: Encoded) | ManifestData(info: ArchiveInfo)

  /** An archive member: its name in the archive and what it holds. */
  datatype ZipEntry = ZipEntry(name: string, content: Content)

  /**
   * Adds each tile as the member `root/z/x/y.<format>`, saving the image to
   * a temporary file first; `finalize` removes that file and closes the
   * archive. The temporary file's name comes from the operating system.
   */
  class ZipWriter {
    const output: string
    const rootDir: string
    const tempFileName: string
    var entries: seq<ZipEntry>
    var tempSaved: Option<Encoded>
    var tempRemoved: bool
    var closed: bool

    constructor (output: string, rootDir: string, tempFileName: string)
      ensures this.output == output && this.rootDir == rootDir && this.tempFileName == tempFileName
      ensures entries == [] && tempSaved == None && !tempRemoved && !closed
    {
      this.output, this.rootDir, this.tempFileName := output, rootDir, tempFileName;
      entries, tempSaved, tempRemoved, closed := [], None, false, false;
    }

    method WriteTile(tile: Tile, image: Image, format: string, quality: int)
      requires !closed
      modifies this
      ensures entries == old(entries) + [ZipEntry(TilePath(rootDir, tile, format), TileData(Encoded(image, format, quality)))]
      ensures tempSaved == Some(Encoded(image, format, quality))
      ensures tempRemoved == old(tempRemoved) && closed == old(closed)
    {
      var path := Join(rootDir, '/', Join(NatToString(tile.z), '/', NatToString(tile.x)));
      tempSaved := Some(Encoded(image, format, quality));
      var tilePath := Join(path, '/', Join(NatToString(tile.y), '.', Lower(format)));
      assert tilePath == TilePath(rootDir, tile, format);
      entries := entries + [ZipEntry(tilePath, TileData(tempSaved.value))];
    }

    method Finalize()
      modifies this
      ensures entries == old(entries) && tempSaved == old(tempSaved)
      ensures tempRemoved && closed
    {
      tempRemoved := true;
      closed := true;
    }
  }

  // ----- NGMArchiveWriter -----

  /** The columns and rows written at one zoom level, in writing order. */
  datatype Level = Level(xs: seq<nat>, ys: seq<nat>)

  /** `levels` after recording a tile at column `x`, row `y` of level `z`. */
  function Record(levels: map<nat, Level>, z: nat, x: nat, y: nat): (r: map<nat, Level>)
    ensures r.Keys == levels.Keys + {z}
    ensures forall k :: k in levels && k != z ==> r[k] == levels[k]
  {
    var level := if z in levels then levels[z] else Level([], []);
    levels[z := Level(level.xs + [x], level.ys + [y])]
  }

  function SeqMin(s: seq<nat>): (m: nat)
    requires |s| > 0
    ensures m in s && forall i :: 0 <= i < |s| ==> m <= s[i]
  {
    if |s| == 1 then s[0] else var m := SeqMin(s[1..]); if s[0] <= m then s[0] else m
  }

  function SeqMax(s: seq<nat>): (m: nat)
    requires |s| > 0
    ensures m in s && forall i :: 0 <= i < |s| ==> s[i] <= m
  {
    if |s| == 1 then s[0] else var m := SeqMax(s[1..]); if s[0] >= m then s[0] else m
  }

  /** The level bookkeeping an NGM writer keeps: every level written has columns and rows, one per tile. */
  predicate LevelsValid(levels: map<nat, Level>, order: seq<nat>) {
    (forall z :: z in levels ==> z in order && |levels[z].xs| > 0 && |levels[z].xs| == |levels[z].ys|)
    && (forall i :: 0 <= i < |order| ==> order[i] in levels)
    && (forall i, j :: 0 <= i < j < |order| ==> order[i] != order[j])
  }

  /** The `levels` entry of the manifest for level `z`. */
  function LevelJsonOf(z: nat, level: Level): (r: LevelJson)
    requires |level.xs| > 0 && |level.ys| > 0
    ensures r.level == z
    ensures r.bboxMinX in level.xs && r.bboxMaxX in level.xs && r.bboxMinY in level.ys && r.bboxMaxY in level.ys
    ensures forall i :: 0 <= i < |level.xs| ==> r.bboxMinX <= level.xs[i] <= r.bboxMaxX
    ensures forall i :: 0 <= i < |level.ys| ==> r.bboxMinY <= level.ys[i] <= r.bboxMaxY
  {
    LevelJson(z, SeqMax(level.xs), SeqMax(level.ys), SeqMin(level.xs), SeqMin(level.ys))
  }

  /** The manifest entries of the levels in `order`, as the finalize loop appends them. */
  function LevelsJson(levels: map<nat, Level>, order: seq<nat>): (r: seq<LevelJson>)
    requires forall i :: 0 <= i < |order| ==> order[i] in levels && |levels[order[i]].xs| > 0 && |levels[order[i]].ys| > 0
    ensures |r| == |order|
    ensures forall i :: 0 <= i < |order| ==> r[i] == LevelJsonOf(order[i], levels[order[i]])
  {
    if order == [] then [] else LevelsJson(levels, order[..|order| - 1]) + [LevelJsonOf(order[|order| - 1], levels[order[|order| - 1]])]
  }

  lemma LevelsJsonStep(levels: map<nat, Level>, order: seq<nat>, i: nat)
    requires LevelsValid(levels, order) && i < |order|
    ensures LevelsJson(levels, order[..i + 1]) == LevelsJson(levels, order[..i]) + [LevelJsonOf(order[i], levels[order[i]])]
  {
    assert order[..i + 1][..i] == order[..i];
  }

  /** The renderer settings every NGM manifest carries. */
  const NgmRenderer := RendererProperties(255, true, 0, 1, true, true, false, "tms_renderer")

  /** The manifest of a non-empty set of levels, listed in the order the levels were first written. */
  function Manifest(name: string, levels: map<nat, Level>, order: seq<nat>): (info: ArchiveInfo)
    requires LevelsValid(levels, order) && |order| > 0
    ensures info.name == name && info.rendererProperties == NgmRenderer
    ensures info.cacheSizeMultiply == 0 && info.tmsType == 2 && info.kind == 32 && info.visible
    ensures info.minLevel in levels && info.maxLevel in levels
    ensures forall z :: z in levels ==> info.minLevel <= z <= info.maxLevel
    ensures |info.levels| == |order|
    ensures forall i :: 0 <= i < |order| ==> info.levels[i] == LevelJsonOf(order[i], levels[order[i]])
  {
    ArchiveInfo(0, LevelsJson(levels, order), SeqMax(order), SeqMin(order), name, NgmRenderer, 2, 32, true)
  }

  /**
   * A zip archive whose members all live under `Mapnik`, with a manifest
   * `Mapnik.json` naming the layer and giving each zoom level's bounding box.
   */
  class NGMArchiveWriter {
    const zip: ZipWriter
    const layerName: string
    var levels: map<nat, Level>
    var order: seq<nat>

    predicate Valid()
      reads this
    {
      zip.rootDir == "Mapnik" && LevelsValid(levels, order)
    }

    constructor (output: string, rootDir: string, tempFileName: string)
      ensures fresh(zip) && zip.rootDir == "Mapnik" && zip.output == output
      ensures zip.entries == [] && !zip.closed
      ensures layerName == rootDir && levels == map[] && order == [] && Valid()
    {
      zip := new ZipWriter(output, "Mapnik", tempFileName);
      levels, order := map[], [];
      layerName := rootDir;
    }

    method WriteTile(tile: Tile, image: Image, format: string, quality: int)
      requires Valid() && !zip.closed
      modifies this, zip
      ensures Valid() && !zip.closed && zip.tempRemoved == old(zip.tempRemoved)
      ensures zip.tempSaved == Some(Encoded(image, format, quality))
      ensures zip.entries == old(zip.entries) + [ZipEntry(TilePath("Mapnik", tile, format), TileData(Encoded(image, format, quality)))]
      ensures levels == Record(old(levels), tile.z, tile.x, tile.y)
      ensures order == if tile.z in old(levels) then old(order) else old(order) + [tile.z]
    {
      zip.WriteTile(tile, image, format, quality);
      var level := if tile.z in levels then levels[tile.z] else Level([], []);
      level := Level(level.xs + [tile.x], level.ys + [tile.y]);
      if tile.z !in levels {
        order := order + [tile.z];
      }
      levels := levels[tile.z := level];
    }

    /** The manifest's `levels`: one entry per level, in the order the levels were first written. */
    method LevelEntries() returns (levelsJson: seq<LevelJson>)
      requires Valid()
      ensures levelsJson == LevelsJson(levels, order)
    {
      levelsJson := [];
      var i := 0;
      while i < |order|
        invariant 0 <= i <= |order|
        invariant levelsJson == LevelsJson(levels, order[..i])
      {
        var coords := levels[order[i]];
        levelsJson := levelsJson + [LevelJson(order[i], SeqMax(coords.xs), SeqMax(coords.ys), SeqMin(coords.xs), SeqMin(coords.ys))];
        LevelsJsonStep(levels, order, i);
        i := i + 1;
      }
      assert order[..|order|] == order;
    }

    /**
     * Writes the manifest and closes the archive. With no tile written,
     * taking the largest level raises before anything is written or
     * closed: `None`, with the archive untouched.
     */
    method Finalize() returns (info: Option<ArchiveInfo>)
      requires Valid() && !zip.closed
      modifies zip
      ensures levels == map[] ==>
        info == None && zip.entries == old(zip.entries) && !zip.closed
        && zip.tempSaved == old(zip.tempSaved) && zip.tempRemoved == old(zip.tempRemoved)
      ensures levels != map[] ==>
        |order| > 0 && info == Some(Manifest(layerName, levels, order))
        && zip.entries == old(zip.entries) + [ZipEntry(zip.rootDir + ".json", ManifestData(info.value))]
        && zip.closed && zip.tempRemoved && zip.tempSaved == old(zip.tempSaved)
    {
      if order == [] {
        assert levels.Keys == {};
        return None;
      }
      var maxLevel, minLevel := SeqMax(order), SeqMin(order);
      var levelsJson := LevelEntries();
      var archiveInfo := ArchiveInfo(0, levelsJson, maxLevel, minLevel, layerName, NgmRenderer, 2, 32, true);
      assert archiveInfo == Manifest(layerName, levels, order);
      zip.entries := zip.entries + [ZipEntry(zip.rootDir + ".json", ManifestData(archiveInfo))];
      zip.Finalize();
      return Some(archiveInfo);
    }
  }

  // ----- What the NGM level bookkeeping records -----

  /** The levels an NGM writer holds after the tiles `ts` were written, one after another, from none. */
  function Recorded(ts: seq<Tile>): map<nat, Level> {
    if ts == [] then map[] else var t := ts[|ts| - 1]; Record(Recorded(ts[..|ts| - 1]), t.z, t.x, t.y)
  }

  /** The columns of the tiles of `ts` at level `z`, in order. */
  function ColumnsAt(ts: seq<Tile>, z: nat): seq<nat> {
    if ts == [] then [] else ColumnsAt(ts[..|ts| - 1], z) + (if ts[|ts| - 1].z == z then [ts[|ts| - 1].x] else [])
  }

  /** The rows of the tiles of `ts` at level `z`, in order. */
  function RowsAt(ts: seq<Tile>, z: nat): seq<nat> {
    if ts == [] then [] else RowsAt(ts[..|ts| - 1], z) + (if ts[|ts| - 1].z == z then [ts[|ts| - 1].y] else [])
  }

  /**
   * After writing `ts`, the writer holds a level for exactly the zooms of
   * the tiles written, and each level lists the columns and the rows of the
   * tiles written at that zoom, in writing order.
   */
  lemma RecordedLevels(ts: seq<Tile>)
    ensures forall z :: z in Recorded(ts) <==> exists i :: 0 <= i < |ts| && ts[i].z == z
    ensures forall z :: z in Recorded(ts) ==> Recorded(ts)[z] == Level(ColumnsAt(ts, z), RowsAt(ts, z))
  {
    RecordedKeys(ts);
    RecordedContents(ts);
  }

  lemma {:induction false} RecordedKeys(ts: seq<Tile>)
    ensures forall z :: z in Recorded(ts) <==> exists i :: 0 <= i < |ts| && ts[i].z == z
  {
    if ts != [] {
      var init := ts[..|ts| - 1];
      RecordedKeys(init);
      forall z
        ensures z in Recorded(ts) <==> exists i :: 0 <= i < |ts| && ts[i].z == z
      {
        if z in Recorded(init) {
          var i :| 0 <= i < |init| && init[i].z == z;
          assert ts[i].z == z;
        }
        if exists i :: 0 <= i < |ts| && ts[i].z == z {
          var i :| 0 <= i < |ts| && ts[i].z == z;
          if i < |init| {
            assert init[i].z == z;
          }
        }
      }
    }
  }

  lemma {:induction false} RecordedContents(ts: seq<Tile>)
    ensures forall z :: z in Recorded(ts) ==> Recorded(ts)[z] == Level(ColumnsAt(ts, z), RowsAt(ts, z))
  {
    if ts != [] {
      var init, t := ts[..|ts| - 1], ts[|ts| - 1];
      RecordedContents(init);
      RecordedKeys(init);
      forall z | z in Recorded(ts)
        ensures Recorded(ts)[z] == Level(ColumnsAt(ts, z), RowsAt(ts, z))
      {
        if z != t.z {
          assert z in Recorded(init);
        } else if z !in Recorded(init) {
          ColumnsAbsent(init, z);
        }
      }
    }
  }

  /** No tile of `ts` at level `z`: no columns and no rows there. */
  lemma {:induction false} ColumnsAbsent(ts: seq<Tile>, z: nat)
    requires forall i :: 0 <= i < |ts| ==> ts[i].z != z
    ensures ColumnsAt(ts, z) == [] && RowsAt(ts, z) == []
  {
    if ts != [] {
      ColumnsAbsent(ts[..|ts| - 1], z);
    }
  }

  // ----- MBTilesWriter -----

  datatype MetadataRow = MetadataRow(name: string, value: string)

  /** A row of the `tiles` table: zoom level, column, row and the image bytes. */
  datatype TileRow = TileRow(zoomLevel: nat, tileColumn: nat, tileRow: nat, tileData: Encoded)

  /** The database work the writer does besides inserting rows; the helpers behind them are not modelled. */
  datatype DbStep =
    | Connect(path: string)
    | OptimizeConnection
    | SetupTables
    | Commit
    | OptimizeDatabase
    | CompressionPrepare
    | CompressionDo(totalTiles: nat)
    | CompressionFinalize
    | Close

  /** The eight metadata rows the constructor inserts, in order; `bounds` is the extent as text. */
  function MetadataRows(rootDir: string, formatext: string, minZoom: int, maxZoom: int, bounds: string): seq<MetadataRow> {
    [MetadataRow("name", rootDir),
     MetadataRow("description", "Created with QTiles"),
     MetadataRow("format", Lower(formatext)),
     MetadataRow("minZoom", IntToString(minZoom)),
     MetadataRow("maxZoom", IntToString(maxZoom)),
     MetadataRow("type", "baselayer"),
     MetadataRow("version", "1.1"),
     MetadataRow("bounds", bounds)]
  }

  /** The value the metadata rows give a name, if any. */
  function Lookup(rows: seq<MetadataRow>, name: string): (r: Option<string>)
    ensures r.Some? <==> exists i :: 0 <= i < |rows| && rows[i].name == name
    ensures r.Some? ==> exists i :: 0 <= i < |rows| && rows[i] == MetadataRow(name, r.value)
  {
    if rows == [] then None
    else if rows[0].name == name then Some(rows[0].value)
    else
      var r := Lookup(rows[1..], name);
      assert forall i :: 0 < i < |rows| ==> rows[i] == rows[1..][i - 1];
      r
  }

  /** The first row with a name gives its value. */
  lemma {:induction false} LookupFirst(rows: seq<MetadataRow>, name: string, i: nat)
    requires i < |rows| && rows[i].name == name
    requires forall j :: 0 <= j < i ==> rows[j].name != name
    ensures Lookup(rows, name) == Some(rows[i].value)
  {
    if i > 0 {
      LookupFirst(rows[1..], name, i - 1);
    }
  }

  lemma NumberReadBack(rows: seq<MetadataRow>, name: string, i: nat, n: nat)
    requires i < |rows| && rows[i] == MetadataRow(name, IntToString(n))
    requires forall j :: 0 <= j < i ==> rows[j].name != name
    ensures Lookup(rows, name).Some? && AllDigits(Lookup(rows, name).value)
    ensures DigitsValue(Lookup(rows, name).value) == n
  {
    LookupFirst(rows, name, i);
    DigitsRoundTrip(n);
  }

  /** Each metadata key is inserted once. */
  lemma MetadataKeysDistinct(rootDir: string, formatext: string, minZoom: int, maxZoom: int, bounds: string)
    ensures var rows := MetadataRows(rootDir, formatext, minZoom, maxZoom, bounds);
      |rows| == 8 && forall i, j :: 0 <= i < j < |rows| ==> rows[i].name != rows[j].name
  {
    var rows := MetadataRows(rootDir, formatext, minZoom, maxZoom, bounds);
    assert "minZoom"[1] != "maxZoom"[1];
  }

  /** Reading the rows back gives the layer name and the lower-cased format. */
  lemma MetadataNameAndFormat(rootDir: string, formatext: string, minZoom: int, maxZoom: int, bounds: string)
    ensures var rows := MetadataRows(rootDir, formatext, minZoom, maxZoom, bounds);
      Lookup(rows, "name") == Some(rootDir) && Lookup(rows, "format") == Some(Lower(formatext))
  {
    var rows := MetadataRows(rootDir, formatext, minZoom, maxZoom, bounds);
    assert rows[1..][1..][0] == MetadataRow("format", Lower(formatext));
  }

  /** The zoom range reads back from its rows (for zoom levels from 0, as the dialog allows). */
  lemma MetadataZoomsReadBack(rootDir: string, formatext: string, minZoom: nat, maxZoom: nat, bounds: string)
    ensures var rows := MetadataRows(rootDir, formatext, minZoom, maxZoom, bounds);
      Lookup(rows, "minZoom").Some? && AllDigits(Lookup(rows, "minZoom").value)
      && DigitsValue(Lookup(rows, "minZoom").value) == minZoom
      && Lookup(rows, "maxZoom").Some? && AllDigits(Lookup(rows, "maxZoom").value)
      && DigitsValue(Lookup(rows, "maxZoom").value) == maxZoom
  {
    var rows := MetadataRows(rootDir, formatext, minZoom, maxZoom, bounds);
    assert "minZoom"[1] != "maxZoom"[1];
    assert rows[3] == MetadataRow("minZoom", IntToString(minZoom)) && forall j :: 0 <= j < 3 ==> rows[j].name != "minZoom";
    assert rows[4] == MetadataRow("maxZoom", IntToString(maxZoom)) && forall j :: 0 <= j < 4 ==> rows[j].name != "maxZoom";
    NumberReadBack(rows, "minZoom", 3, minZoom);
    NumberReadBack(rows, "maxZoom", 4, maxZoom);
  }

  /** The steps `finalize` runs on the database: compression only when it was asked for, closing last. */
  function FinalizeSteps(compression: bool, totalTiles: nat): seq<DbStep> {
    [OptimizeDatabase, Commit]
    + (if compression then [CompressionPrepare, CompressionDo(totalTiles), CompressionFinalize, OptimizeDatabase, Commit] else [])
    + [Close]
  }

  lemma FinalizeStepsCompressIff(compression: bool, totalTiles: nat)
    ensures var s := FinalizeSteps(compression, totalTiles);
      (CompressionPrepare in s <==> compression)
      && (forall n :: CompressionDo(n) in s <==> compression && n == totalTiles)
      && s[|s| - 1] == Close && Close !in s[..|s| - 1]
  {
    var s := FinalizeSteps(compression, totalTiles);
    if compression {
      assert s == [OptimizeDatabase, Commit, CompressionPrepare, CompressionDo(totalTiles), CompressionFinalize, OptimizeDatabase, Commit, Close];
    } else {
      assert s == [OptimizeDatabase, Commit, Close];
    }
  }

  /**
   * Inserts the metadata rows on creation and one `tiles` row per tile;
   * `finalize` optimizes, compresses when asked to and closes the database.
   * The count the compression step is given is the number of rows of
   * `tiles`: the rows this writer inserted.
   */
  class MBTilesWriter {
    const output: string
    const rootDir: string
    const compression: bool
    var metadata: seq<MetadataRow>
    var tiles: seq<TileRow>
    var steps: seq<DbStep>
    var cursorOpen: bool

    constructor (output: string, rootDir: string, formatext: string, minZoom: int, maxZoom: int,
                 bounds: string, compression: bool)
      ensures this.output == output && this.rootDir == rootDir && this.compression == compression
      ensures metadata == MetadataRows(rootDir, formatext, minZoom, maxZoom, bounds)
      ensures tiles == [] && steps == [Connect(output), OptimizeConnection, SetupTables, Commit] && cursorOpen
    {
      this.output, this.rootDir, this.compression := output, rootDir, compression;
      tiles := [];
      steps := [Connect(output), OptimizeConnection, SetupTables];
      cursorOpen := true;
      metadata := [];
      metadata := metadata + [MetadataRow("name", rootDir)];
      metadata := metadata + [MetadataRow("description", "Created with QTiles")];
      metadata := metadata + [MetadataRow("format", Lower(formatext))];
      metadata := metadata + [MetadataRow("minZoom", IntToString(minZoom))];
      metadata := metadata + [MetadataRow("maxZoom", IntToString(maxZoom))];
      metadata := metadata + [MetadataRow("type", "baselayer")];
      metadata := metadata + [MetadataRow("version", "1.1")];
      metadata := metadata + [MetadataRow("bounds", bounds)];
      steps := steps + [Commit];
    }

    method WriteTile(tile: Tile, image: Image, format: string, quality: int)
      requires cursorOpen
      modifies this
      ensures tiles == old(tiles) + [TileRow(tile.z, tile.x, tile.y, Encoded(image, format, quality))]
      ensures metadata == old(metadata) && steps == old(steps) && cursorOpen
    {
      tiles := tiles + [TileRow(tile.z, tile.x, tile.y, Encoded(image, format, quality))];
    }

    method Finalize()
      requires cursorOpen
      modifies this
      ensures steps == old(steps) + FinalizeSteps(compression, |tiles|)
      ensures tiles == old(tiles) && metadata == old(metadata) && !cursorOpen
    {
      steps := steps + [OptimizeDatabase, Commit];
      if compression {
        steps := steps + [CompressionPrepare];
        var totalTiles := |tiles|;
        steps := steps + [CompressionDo(totalTiles), CompressionFinalize, OptimizeDatabase, Commit];
      }
      steps := steps + [Close];
      cursorOpen := false;
    }
  }
}
