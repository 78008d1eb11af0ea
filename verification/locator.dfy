/** The data locator "container-file:dataset-path" and its split at the
    first colon (`ParseHDF5Path`, and the `find(':')` the Mixed loader repeats). */
module Locator {
  import opened Common

  /** Position of the first ':' in s, as `std::string::find(':')`; None for `npos`. */
  function FindColon(s: string): (r: Option<nat>)
    ensures r.None? <==> ':' !in s
    ensures r.Some? ==> r.value < |s| && s[r.value] == ':' && ':' !in s[..r.value]
  {
    if |s| == 0 then None
    else if s[0] == ':' then Some(0)
    else
      match FindColon(s[1..])
      case None =>
        assert s == [s[0]] + s[1..];
        None
      case Some(k) =>
        assert s[..k + 1] == [s[0]] + s[1..][..k];
        Some(k + 1)
  }

  /** Splits a locator into (file name, dataset name) at its first colon.
      None stands for the `std::runtime_error` thrown when there is no colon. */
  function ParseHDF5Path(fullPath: string): (r: Option<(string, string)>)
    ensures r.None? <==> ':' !in fullPath
    ensures r.Some? ==> r.value.0 + ":" + r.value.1 == fullPath && ':' !in r.value.0
  {
    match FindColon(fullPath)
    case None => None
    case Some(pos) =>
      assert fullPath == fullPath[..pos] + ":" + fullPath[pos + 1..];
      Some((fullPath[..pos], fullPath[pos + 1..]))
  }

  /** The split is the only one whose file part is free of colons: any
      `file + ":" + dataset` with a colon-free file splits back into exactly
      that pair, whatever colons the dataset part holds. */
  lemma SplitIsFirstColon(file: string, dataset: string)
    requires ':' !in file
    ensures ParseHDF5Path(file + ":" + dataset) == Some((file, dataset))
  {
    var s := file + ":" + dataset;
    assert s[|file|] == ':';
    assert s[..|file|] == file;
    assert s[|file| + 1..] == dataset;
  }
}
