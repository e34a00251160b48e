/**
 * LocalDiskRepository: data sources in a local base directory. The type
 * of a file follows from its name, checked in a fixed order; zip files and
 * directories become catalog sources, other files plain file sources.
 */
module LocalDiskRepository {
  import opened Wrappers
  import opened JavaStrings
  import TransitModes

  /** The data store's file types, which include the build status marker. */
  datatype FileType = Config | Osm | Dem | Gtfs | Netex | Graph | OtpStatus | Report | Unknown

  /** What the repository reads of a java.io.File: its name and whether it exists (present) and is a directory. */
  datatype File = File(name: string, present: bool, isDirectory: bool)

  /** A directory is present on disk. */
  predicate FileOk(f: File) {
    f.isDirectory ==> f.present
  }

  datatype DataSource =
    | DirectorySource(file: File, fileType: FileType)
    | ZipSource(file: File, fileType: FileType)
    | FileSource(file: File, fileType: FileType)

  /** The IllegalArgumentException of a file that can be no catalog. */
  datatype SourceError = NotZipOrDirectory(file: File, fileType: FileType)

  /** The name of the build report directory. */
  const BUILD_REPORT_DIR: string := "report"

  /** The regular expression '.': any character but a line terminator. */
  predicate AnyChar(c: char) {
    c !in {'\n', '\r', '\U{85}', '\U{2028}', '\U{2029}'}
  }

  /** name.matches("(streetG|g)raph.obj") */
  predicate IsGraphName(name: string) {
    (|name| == 9 && name[..5] == "graph" && AnyChar(name[5]) && name[6..] == "obj")
    || (|name| == 15 && name[..11] == "streetGraph" && AnyChar(name[11]) && name[12..] == "obj")
  }

  /** name.matches("otp-status.(inProgress|ok|failed)") */
  predicate IsStatusName(name: string) {
    |name| > 11 && name[..10] == "otp-status" && AnyChar(name[10]) && name[11..] in {"inProgress", "ok", "failed"}
  }

  /** A zip file or a directory. */
  predicate IsCatalogDataSource(f: File) {
    f.isDirectory || EndsWith(f.name, ".zip")
  }

  /** isTransitFile: the lower-cased name contains the tag, and the file is a directory or a zip file. */
  predicate IsTransitFile(f: File, subName: string) {
    TransitModes.Contains(ToLower(f.name), subName) && IsCatalogDataSource(f)
  }

  /**
   * resolveFileType: GTFS, NeTEx, OSM, elevation data, graph, status,
   * report and config, tried in that order; isConfigFile stands for the
   * config loader's test of a name.
   */
  function ResolveFileType(f: File, isConfigFile: string -> bool): FileType {
    var name := f.name;
    if IsTransitFile(f, "gtfs") then Gtfs
    else if IsTransitFile(f, "netex") then Netex
    else if EndsWith(name, ".pbf") then Osm
    else if EndsWith(name, ".osm") then Osm
    else if EndsWith(name, ".osm.xml") then Osm
    else if EndsWith(name, ".tif") || EndsWith(name, ".tiff") then Dem
    else if IsGraphName(name) then Graph
    else if IsStatusName(name) then OtpStatus
    else if name == BUILD_REPORT_DIR then Report
    else if isConfigFile(name) then Config
    else Unknown
  }

  /**
   * The order of the tests decides: a transit type needs a directory or a
   * zip file whose name has the tag, GTFS winning over NeTEx; a plain file
   * ending in .pbf, .osm or .osm.xml is OSM data, and one ending in .tif
   * or .tiff elevation data.
   */
  lemma ResolveOrder(f: File, isConfigFile: string -> bool)
    ensures ResolveFileType(f, isConfigFile) == Gtfs <==> IsTransitFile(f, "gtfs")
    ensures ResolveFileType(f, isConfigFile) == Netex <==> !IsTransitFile(f, "gtfs") && IsTransitFile(f, "netex")
    ensures ResolveFileType(f, isConfigFile) in {Gtfs, Netex} ==> IsCatalogDataSource(f)
    ensures !f.isDirectory && !EndsWith(f.name, ".zip") ==>
      ((EndsWith(f.name, ".pbf") || EndsWith(f.name, ".osm") || EndsWith(f.name, ".osm.xml"))
         ==> ResolveFileType(f, isConfigFile) == Osm)
      && ((EndsWith(f.name, ".tif") || EndsWith(f.name, ".tiff")) && !EndsWith(f.name, ".pbf")
         ==> ResolveFileType(f, isConfigFile) == Dem)
  {
    ResolveTransit(f, isConfigFile);
    if !f.isDirectory && !EndsWith(f.name, ".zip") {
      ResolvePlainSuffix(f, isConfigFile);
    }
  }

  /** Only the first two tests give a transit type. */
  lemma ResolveTransit(f: File, isConfigFile: string -> bool)
    ensures ResolveFileType(f, isConfigFile) == Gtfs <==> IsTransitFile(f, "gtfs")
    ensures ResolveFileType(f, isConfigFile) == Netex <==> !IsTransitFile(f, "gtfs") && IsTransitFile(f, "netex")
  {
    var t := ResolveFileType(f, isConfigFile);
    if !IsTransitFile(f, "gtfs") && !IsTransitFile(f, "netex") {
      var name := f.name;
      assert t == (if EndsWith(name, ".pbf") then Osm
        else if EndsWith(name, ".osm") then Osm
        else if EndsWith(name, ".osm.xml") then Osm
        else if EndsWith(name, ".tif") || EndsWith(name, ".tiff") then Dem
        else if IsGraphName(name) then Graph
        else if IsStatusName(name) then OtpStatus
        else if name == BUILD_REPORT_DIR then Report
        else if isConfigFile(name) then Config
        else Unknown);
    }
  }

  /** A plain file is typed by its data suffix first. */
  lemma ResolvePlainSuffix(f: File, isConfigFile: string -> bool)
    requires !f.isDirectory && !EndsWith(f.name, ".zip")
    ensures (EndsWith(f.name, ".pbf") || EndsWith(f.name, ".osm") || EndsWith(f.name, ".osm.xml"))
      ==> ResolveFileType(f, isConfigFile) == Osm
    ensures (EndsWith(f.name, ".tif") || EndsWith(f.name, ".tiff")) && !EndsWith(f.name, ".pbf")
      ==> ResolveFileType(f, isConfigFile) == Dem
  {
    assert !IsCatalogDataSource(f);
    assert !IsTransitFile(f, "gtfs") && !IsTransitFile(f, "netex");
  }

  /**
   * A plain file, neither a directory nor a zip file, with no data suffix
   * is typed by the name patterns alone.
   */
  lemma PlainFileByName(f: File, isConfigFile: string -> bool)
    requires !f.isDirectory && !EndsWith(f.name, ".zip")
    requires !EndsWith(f.name, ".pbf") && !EndsWith(f.name, ".osm") && !EndsWith(f.name, ".osm.xml")
    requires !EndsWith(f.name, ".tif") && !EndsWith(f.name, ".tiff")
    ensures IsGraphName(f.name) ==> ResolveFileType(f, isConfigFile) == Graph
    ensures !IsGraphName(f.name) && IsStatusName(f.name) ==> ResolveFileType(f, isConfigFile) == OtpStatus
  {
    assert !IsCatalogDataSource(f);
  }

  /** A name ending in a character other than the suffix's last has no such suffix. */
  lemma LastCharDiffers(name: string, suffix: string)
    requires |name| > 0 && |suffix| > 0 && name[|name| - 1] != suffix[|suffix| - 1]
    ensures !EndsWith(name, suffix)
  {
    if |suffix| <= |name| {
      assert name[|name| - |suffix|..][|suffix| - 1] == name[|name| - 1];
    }
  }

  /** A plain file whose name ends in 'j' or 'k' is typed by the name patterns alone. */
  lemma PlainNameByPattern(name: string)
    requires |name| > 0 && name[|name| - 1] in {'j', 'k'}
    ensures IsGraphName(name) ==> ResolveFileType(File(name, true, false), _ => false) == Graph
    ensures !IsGraphName(name) && IsStatusName(name) ==> ResolveFileType(File(name, true, false), _ => false) == OtpStatus
  {
    LastCharDiffers(name, ".zip");
    LastCharDiffers(name, ".pbf");
    LastCharDiffers(name, ".osm");
    LastCharDiffers(name, ".osm.xml");
    LastCharDiffers(name, ".tif");
    LastCharDiffers(name, ".tiff");
    PlainFileByName(File(name, true, false), _ => false);
  }

  /** The graph file names: graph.obj and streetGraph.obj, the dot matching any character. */
  lemma GraphNames()
    ensures ResolveFileType(File("graph.obj", true, false), _ => false) == Graph
    ensures ResolveFileType(File("graphXobj", true, false), _ => false) == Graph
  {
    GraphName("graph.obj");
    GraphName("graphXobj");
  }

  /** A nine-character name graph?obj, where ? is any character but a line terminator, is a graph. */
  lemma GraphName(name: string)
    requires |name| == 9 && name[..5] == "graph" && AnyChar(name[5]) && name[6..] == "obj"
    ensures ResolveFileType(File(name, true, false), _ => false) == Graph
  {
    assert name[8] == name[6..][2];
    PlainNameByPattern(name);
  }

  lemma StreetGraphName()
    ensures ResolveFileType(File("streetGraph.obj", true, false), _ => false) == Graph
  {
    assert "streetGraph.obj"[..11] == "streetGraph" && "streetGraph.obj"[12..] == "obj";
    PlainNameByPattern("streetGraph.obj");
  }

  /** The build status marker of a finished build. */
  lemma StatusName()
    ensures ResolveFileType(File("otp-status.ok", true, false), _ => false) == OtpStatus
  {
    assert "otp-status.ok"[..10] == "otp-status" && "otp-status.ok"[11..] == "ok";
    assert |"otp-status.ok"| != 9 && |"otp-status.ok"| != 15;
    PlainNameByPattern("otp-status.ok");
  }

  /**
   * createCatalogSource: an existing directory, else a zip file by name,
   * else a missing file of an output type as a directory to be written;
   * anything else throws. isOutputDataSource stands for the file type's
   * test.
   */
  function CreateCatalogSource(f: File, t: FileType, isOutputDataSource: FileType -> bool): (r: Result<DataSource, SourceError>)
    ensures r.Ok? ==> r.value.file == f && r.value.fileType == t && !r.value.FileSource?
    ensures r.Err? <==> !(f.present && f.isDirectory) && !EndsWith(f.name, ".zip") && !(!f.present && isOutputDataSource(t))
  {
    if f.present && f.isDirectory then Ok(DirectorySource(f, t))
    else if EndsWith(f.name, ".zip") then Ok(ZipSource(f, t))
    else if !f.present && isOutputDataSource(t) then Ok(DirectorySource(f, t))
    else Err(NotZipOrDirectory(f, t))
  }

  /** A directory or zip file always gives a catalog source: a listed file never throws. */
  lemma CatalogFilesNeverThrow(f: File, t: FileType, isOutputDataSource: FileType -> bool)
    requires FileOk(f) && IsCatalogDataSource(f)
    ensures CreateCatalogSource(f, t, isOutputDataSource).Ok?
  {
  }

  /**
   * findCatalogSource by local name: "." names the base directory itself
   * (isCurrentDir is taken to be that test),
   * any other name the file of that name in it; child stands for
   * new File(baseDir, name).
   */
  function FindCatalogSource(baseDir: File, localFilename: string, t: FileType, child: string -> File,
                             isOutputDataSource: FileType -> bool): (r: Result<DataSource, SourceError>)
    ensures localFilename == "." ==> r == CreateCatalogSource(baseDir, t, isOutputDataSource)
    ensures localFilename != "." ==> r == CreateCatalogSource(child(localFilename), t, isOutputDataSource)
  {
    var file := if localFilename == "." then baseDir else child(localFilename);
    CreateCatalogSource(file, t, isOutputDataSource)
  }

  /** The source of one listed file of the requested type. */
  function SourceOf(f: File, t: FileType, isOutputDataSource: FileType -> bool): (r: DataSource)
    requires FileOk(f)
    ensures r.file == f && r.fileType == t && (r.FileSource? <==> !IsCatalogDataSource(f))
  {
    if IsCatalogDataSource(f) then
      CatalogFilesNeverThrow(f, t, isOutputDataSource);
      CreateCatalogSource(f, t, isOutputDataSource).value
    else FileSource(f, t)
  }

  /** The sources of the listed files that resolve to the type, in listing order. */
  function SourcesOf(files: seq<File>, t: FileType, isConfigFile: string -> bool, isOutputDataSource: FileType -> bool): (r: seq<DataSource>)
    requires forall i :: 0 <= i < |files| ==> FileOk(files[i])
    ensures |r| <= |files|
    ensures forall i :: 0 <= i < |r| ==>
      r[i].fileType == t && r[i].file in files && ResolveFileType(r[i].file, isConfigFile) == t
      && (r[i].FileSource? <==> !IsCatalogDataSource(r[i].file))
  {
    if files == [] then []
    else
      var init := files[..|files| - 1];
      var f := files[|files| - 1];
      var rest := SourcesOf(init, t, isConfigFile, isOutputDataSource);
      assert forall x :: x in init ==> x in files;
      if ResolveFileType(f, isConfigFile) == t then
        rest + [SourceOf(f, t, isOutputDataSource)]
      else rest
  }

  /** No listed file of the requested type is missing from the sources. */
  lemma {:induction false} SourcesOfComplete(files: seq<File>, t: FileType, isConfigFile: string -> bool,
                                             isOutputDataSource: FileType -> bool, i: nat)
    requires forall j :: 0 <= j < |files| ==> FileOk(files[j])
    requires i < |files| && ResolveFileType(files[i], isConfigFile) == t
    ensures exists k :: 0 <= k < |SourcesOf(files, t, isConfigFile, isOutputDataSource)|
                        && SourcesOf(files, t, isConfigFile, isOutputDataSource)[k].file == files[i]
    decreases |files|
  {
    var init := files[..|files| - 1];
    var rest := SourcesOf(init, t, isConfigFile, isOutputDataSource);
    SourcesOfLast(files, t, isConfigFile, isOutputDataSource);
    if i < |files| - 1 {
      assert init[i] == files[i];
      SourcesOfComplete(init, t, isConfigFile, isOutputDataSource, i);
      var k :| 0 <= k < |rest| && rest[k].file == files[i];
      assert SourcesOf(files, t, isConfigFile, isOutputDataSource)[k] == rest[k];
    }
  }

  /** The sources of a listing: those of all files but the last, then the last one's if it has the type. */
  lemma SourcesOfLast(files: seq<File>, t: FileType, isConfigFile: string -> bool, isOutputDataSource: FileType -> bool)
    requires forall j :: 0 <= j < |files| ==> FileOk(files[j])
    requires files != []
    ensures var r := SourcesOf(files, t, isConfigFile, isOutputDataSource);
      var rest := SourcesOf(files[..|files| - 1], t, isConfigFile, isOutputDataSource);
      && |rest| <= |r| && r[..|rest|] == rest
      && (ResolveFileType(files[|files| - 1], isConfigFile) == t ==> |r| == |rest| + 1 && r[|rest|].file == files[|files| - 1])
  {
  }

  class Repository {
    const baseDir: File
    /** baseDir.listFiles(): None when the directory cannot be read. */
    const listing: Option<seq<File>>

    constructor(baseDir: File, listing: Option<seq<File>>)
      ensures this.baseDir == baseDir && this.listing == listing
    {
      this.baseDir := baseDir;
      this.listing := listing;
    }

    /**
     * listExistingSources: nothing when the base directory cannot be read;
     * otherwise a source for each file of the requested type, a catalog
     * source for a directory or zip file and a plain one for others.
     */
    method ListExistingSources(t: FileType, isConfigFile: string -> bool, isOutputDataSource: FileType -> bool)
      returns (existingFiles: seq<DataSource>)
      requires listing.Some? ==> forall i :: 0 <= i < |listing.value| ==> FileOk(listing.value[i])
      ensures listing.None? ==> existingFiles == []
      ensures listing.Some? ==> existingFiles == SourcesOf(listing.value, t, isConfigFile, isOutputDataSource)
    {
      existingFiles := [];
      if listing.None? {
        return;
      }
      var files := listing.value;
      var i := 0;
      while i < |files|
        invariant 0 <= i <= |files|
        invariant existingFiles == SourcesOf(files[..i], t, isConfigFile, isOutputDataSource)
      {
        var file := files[i];
        assert files[..i + 1][..i] == files[..i];
        if t == ResolveFileType(file, isConfigFile) {
          if IsCatalogDataSource(file) {
            CatalogFilesNeverThrow(file, t, isOutputDataSource);
            var source := CreateCatalogSource(file, t, isOutputDataSource);
            existingFiles := existingFiles + [source.value];
          } else {
            existingFiles := existingFiles + [FileSource(file, t)];
          }
        }
        i := i + 1;
      }
      assert files[..i] == files;
    }
  }
}
