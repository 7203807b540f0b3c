/**
 * The export panel: the button's label and enabled state, the name of the downloaded file, and
 * the exporting flag and status the export handler moves through. The current time is given as
 * its ISO-8601 text, and whether the browser hand-off throws is a parameter.
 */
module ExportSection {
  import opened Wrappers
  import opened Text
  import opened Types
  import opened Kml

  // ---------------------------------------------------------------------------------------
  // The button
  // ---------------------------------------------------------------------------------------

  const LabelPrefix: string := "Export "
  const LabelNoun: string := " Location"
  const Busy: string := "Transforming..."

  /**
   * The button's text: "Transforming..." while an export runs, otherwise `Export N Location`
   * with an `s` unless N is 1.
   */
  function ButtonLabel(count: nat, isExporting: bool): (text: string)
    ensures isExporting ==> text == Busy
    ensures !isExporting ==> StartsWith(text, LabelPrefix)
  {
    if isExporting then Busy
    else LabelPrefix + NatToString(count) + LabelNoun + (if count == 1 then "" else "s")
  }

  /** The button is disabled when there is nothing to export or an export is running. */
  predicate ButtonDisabled(count: nat, isExporting: bool) {
    count == 0 || isExporting
  }

  const PluralNoun: string := " Locations"

  /** `s` without the given ending, when it has that ending. */
  function DropSuffix(s: string, suffix: string): (r: Option<string>)
    ensures r.Some? <==> EndsWith(s, suffix)
    ensures r.Some? ==> s == r.value + suffix
  {
    if EndsWith(s, suffix) then Some(s[..|s| - |suffix|]) else None
  }

  /** Dropping an ending that was just appended gives back the text before it. */
  lemma DropSuffixOf(s: string, suffix: string)
    ensures DropSuffix(s + suffix, suffix) == Some(s)
  {
    assert (s + suffix)[..|s|] == s;
    assert (s + suffix)[|s|..] == suffix;
  }

  /**
   * Reads a count back from a button text: the digits between `Export ` and ` Locations` or
   * ` Location`; nothing for any other text.
   */
  function LabelCount(text: string): (n: Option<nat>)
    ensures n.Some? ==> StartsWith(text, LabelPrefix)
  {
    if !StartsWith(text, LabelPrefix) then None
    else
      var rest := text[|LabelPrefix|..];
      var digits := if EndsWith(rest, PluralNoun) then DropSuffix(rest, PluralNoun) else DropSuffix(rest, LabelNoun);
      if digits.Some? && IsDigits(digits.value) then Some(DigitsValue(digits.value)) else None
  }

  /** A singular label does not end in the plural noun. */
  lemma SingularIsNotPlural(digits: string)
    ensures !EndsWith(digits + LabelNoun, PluralNoun)
  {
    var t := digits + LabelNoun;
    assert t[|t| - 1] == 'n';
  }

  /** The idle button text names the number of locations: the count can be read back from it. */
  lemma LabelCountRoundTrip(count: nat)
    ensures LabelCount(ButtonLabel(count, false)) == Some(count)
  {
    var digits := NatToString(count);
    var text := ButtonLabel(count, false);
    DigitsRoundTrip(count);
    if count == 1 {
      assert text == LabelPrefix + (digits + LabelNoun);
      assert text[|LabelPrefix|..] == digits + LabelNoun;
      SingularIsNotPlural(digits);
      DropSuffixOf(digits, LabelNoun);
    } else {
      assert LabelNoun + "s" == PluralNoun;
      assert text == LabelPrefix + (digits + PluralNoun);
      assert text[|LabelPrefix|..] == digits + PluralNoun;
      DropSuffixOf(digits, PluralNoun);
    }
  }

  /** The plural `s` is there exactly when the count is not 1. */
  lemma PluralUnlessOne(count: nat)
    ensures EndsWith(ButtonLabel(count, false), "s") <==> count != 1
    ensures count == 1 ==> ButtonLabel(count, false) == "Export 1 Location"
  {
    var text := ButtonLabel(count, false);
    if count == 1 {
      assert NatToString(1) == "1";
      assert text == "Export 1 Location";
    } else {
      assert text[|text| - 1] == 's';
      assert text[|text| - 1..] == "s";
    }
  }

  /** The two-location label the end-to-end scenario expects. */
  lemma TwoLocationsLabel()
    ensures ButtonLabel(2, false) == "Export 2 Locations"
  {
    assert NatToString(2) == "2";
  }

  /** While an export runs the label names no count, and the button is disabled. */
  lemma BusyHidesCount(count: nat)
    ensures LabelCount(ButtonLabel(count, true)) == None
    ensures ButtonDisabled(count, true)
  {
    assert Busy[0] != LabelPrefix[0];
  }

  // ---------------------------------------------------------------------------------------
  // The file name
  // ---------------------------------------------------------------------------------------

  const FilenamePrefix: string := "kmlchemy_export_"
  const FilenameSuffix: string := ".kml"

  /** `kmlchemy_export_` + the ISO timestamp up to its first `T` + `.kml`. */
  function ExportFilename(iso: string): (name: string)
    ensures StartsWith(name, FilenamePrefix) && EndsWith(name, FilenameSuffix)
  {
    FilenamePrefix + Split(iso, 'T')[0] + FilenameSuffix
  }

  /** For a timestamp `date` + `T` + `time`, the file name carries the date and nothing else. */
  lemma FilenameKeepsDate(date: string, time: string)
    requires 'T' !in date
    ensures ExportFilename(date + "T" + time) == FilenamePrefix + date + FilenameSuffix
  {
    var iso := date + "T" + time;
    assert iso[|date|] == 'T';
    assert iso[..|date|] == date;
    assert IndexOfChar(iso, 'T') == |date|;
  }

  /**
   * The middle of the file name is a prefix of the timestamp that holds no `T` and stops at a
   * `T` or at the end of the timestamp.
   */
  lemma FilenameMiddle(iso: string)
    ensures var middle := ExportFilename(iso)[|FilenamePrefix|..|ExportFilename(iso)| - |FilenameSuffix|];
      StartsWith(iso, middle) && 'T' !in middle && (|middle| == |iso| || iso[|middle|] == 'T')
  {
    SplitHead(iso, 'T');
    var middle := Split(iso, 'T')[0];
    var name := ExportFilename(iso);
    assert name[|FilenamePrefix|..|name| - |FilenameSuffix|] == middle;
  }

  // ---------------------------------------------------------------------------------------
  // The handler
  // ---------------------------------------------------------------------------------------

  /** `'idle' | 'success' | 'error'`. */
  datatype ExportStatus = Idle | Exported | ExportFailed

  class ExportPanel {
    var isExporting: bool
    var exportStatus: ExportStatus

    constructor()
      ensures !isExporting && exportStatus == Idle
    {
      isExporting := false;
      exportStatus := Idle;
    }

    /**
     * `handleExport`. With no locations nothing happens. Otherwise the document is handed to
     * the download under the dated file name: the status is success when the hand-off returns
     * and error when it throws, and the exporting flag is off again either way. Returns the file
     * handed to the browser when the hand-off succeeds.
     */
    method HandleExport(locations: seq<Location>, iso: string, fmt: real -> string, handoffThrows: bool)
      returns (download: Option<KmlFile>)
      modifies this
      ensures |locations| == 0 ==>
        download.None? && isExporting == old(isExporting) && exportStatus == old(exportStatus)
      ensures |locations| > 0 ==> !isExporting
      ensures |locations| > 0 ==> (exportStatus == Exported <==> !handoffThrows)
      ensures |locations| > 0 ==> (exportStatus == ExportFailed <==> handoffThrows)
      ensures download.Some? <==> |locations| > 0 && !handoffThrows
      ensures download.Some? ==>
        download.value == KmlFile(ExportFilename(iso), KmlMimeType, GenerateKml(locations, fmt))
    {
      if |locations| == 0 {
        return None;
      }
      isExporting := true;
      exportStatus := Idle;
      var filename := ExportFilename(iso);
      var result := DownloadKml(locations, Some(filename), fmt);
      if result.Success? && !handoffThrows {
        exportStatus := Exported;
        download := Some(result.value);
      } else {
        exportStatus := ExportFailed;
        download := None;
      }
      isExporting := false;
    }
  }
}
