/** FileType: the kinds of file a graph build directory may hold, and the sets they belong to. */
module FileTypes {
  datatype FileType = Config | Osm | Dem | Gtfs | Netex | Graph | Report | Unknown

  /** isInputDataFile: the data a graph is built from. */
  predicate IsInputDataFile(t: FileType) {
    t in {Gtfs, Netex, Osm, Dem}
  }

  /** isCompositeInputDataFile: types held in zip files or directories. */
  predicate IsCompositeInputDataFile(t: FileType) {
    t in {Gtfs, Netex, Report}
  }

  /** isTransit: GTFS or NeTEx. */
  predicate IsTransit(t: FileType) {
    t in {Gtfs, Netex}
  }

  /**
   * Transit data is input data, and it is exactly the input data held in
   * composite files; config files, graphs and unknown files are in none of
   * the three sets, and a report is composite without being input.
   */
  lemma ClassificationAgrees(t: FileType)
    ensures IsTransit(t) ==> IsInputDataFile(t)
    ensures IsTransit(t) <==> IsInputDataFile(t) && IsCompositeInputDataFile(t)
    ensures t in {Config, Graph, Unknown} ==> !IsInputDataFile(t) && !IsCompositeInputDataFile(t) && !IsTransit(t)
    ensures IsCompositeInputDataFile(t) && !IsInputDataFile(t) <==> t == Report
  {
  }
}
