/**
 * The work `main` does once its arguments are parsed: segment both files,
 * plan the splice, stop on a bad index, merge, and report how many layers
 * each file gave. Reading and writing files is replaced by sequences of lines.
 */
module Pipeline {
  import opened Wrappers
  import opened GcodeLines
  import opened Segmenter
  import opened SplicePlanner
  import opened Merger

  /** The lines that would be written, and the two layer counts that are reported. */
  datatype Report = Report(output: seq<string>, layersFromA: nat, layersFromB: nat)

  method Run(linesA: seq<string>, linesB: seq<string>, requested: Option<int>, reheatTemp: int)
    returns (r: Result<Report, PlanError>)
    ensures r.Failure? <==>
      requested.Some? && !(0 <= requested.value <= Min(CountMarkers(linesA), CountMarkers(linesB)))
    ensures r.Failure? ==>
      r.error == OutOfRange(requested.value, Min(CountMarkers(linesA), CountMarkers(linesB)))
    ensures r.Success? ==>
      var a, b := Segment(linesA), Segment(linesB);
      var splice := r.value.layersFromA;
      && splice <= CountMarkers(linesA) && splice <= CountMarkers(linesB)
      && (requested.None? ==> splice == Min(CountMarkers(linesA), CountMarkers(linesB)) / 2)
      && (requested.Some? ==> splice == requested.value)
      && r.value.layersFromB == CountMarkers(linesB) - splice
      && r.value.output == Merged(a.setup, a.layers, b.setup, b.layers, splice, reheatTemp)
      && CountMarkers(r.value.output) == r.value.layersFromA + r.value.layersFromB
  {
    var setupA, layersA := ParseLayers(linesA);
    var setupB, layersB := ParseLayers(linesB);
    var plan := Plan(|layersA|, |layersB|, requested);
    if plan.Failure? {
      return Failure(plan.error);
    }
    var splice := plan.value;
    var merged := MergeGcode(setupA, layersA, setupB, layersB, splice, reheatTemp);
    MergedMarkerCount(setupA, layersA, setupB, layersB, splice, reheatTemp);
    r := Success(Report(merged, |Take(layersA, splice)|, |Drop(layersB, splice)|));
  }
}
