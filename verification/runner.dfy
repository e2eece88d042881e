/**
 * The start-up decision of Runner.main: classify the file named on the command line and
 * either run the report on it or exit with one of the two fixed messages.
 */
module Runner {
  import opened Wrappers
  import opened FileUtils

  /** The file types the application accepts. */
  const SupportFiles: seq<string> := ["csv", "json", "csv.gz", "json.gz"]

  /** The membership test of supportFiles, which Runner.main and generateReport both apply. */
  function IsSupported(fileType: string): (b: bool)
    ensures b <==> fileType == "csv" || fileType == "json" || fileType == "csv.gz" || fileType == "json.gz"
  {
    fileType in SupportFiles
  }

  datatype Launch =
    | Report(fileType: string)   // a SummaryData is built for the file and its report generated
    | Unsupported                // "We currently only support csv / json / json.gz / csv.gz file", exit 1
    | Missing                    // the NullPointerException: "Error: File does not exist", exit 1

  function Decide(file: Option<File>): (l: Launch)
    ensures l.Report? <==> FileType(file).Success? && IsSupported(FileType(file).value)
    ensures l.Report? ==> l.fileType == FileType(file).value
    ensures l.Missing? <==> file.None? || !file.value.present
  {
    match FileType(file)
    case Failure(_) => Missing
    case Success(t) => if IsSupported(t) then Report(t) else Unsupported
  }

  /** Plain csv and json files run whatever the case of their extension. */
  lemma PlainFilesRun(prefix: string, suffix: string)
    requires |prefix| > 0 && '.' !in suffix
    requires ToLower(suffix) == "csv" || ToLower(suffix) == "json"
    ensures Decide(Some(File(prefix + "." + suffix, true))) == Report(ToLower(suffix))
  {
    ExtensionAfterLastDot(prefix, suffix);
  }

  /** An existing file runs exactly when its type is one of the four supported ones. */
  lemma RunsOnlySupportedTypes(file: Option<File>)
    requires file.Some? && file.value.present
    ensures Decide(file).Report? || Decide(file) == Unsupported
    ensures Decide(file).Report? ==> Decide(file).fileType in {"csv", "json", "csv.gz", "json.gz"}
  {
  }

  /** Compressed csv and json files run with the compound type. */
  lemma CompressedFilesRun(name: string)
    ensures EndsWith(name, ".csv.gz") ==> Decide(Some(File(name, true))) == Report("csv.gz")
    ensures EndsWith(name, ".json.gz") ==> Decide(Some(File(name, true))) == Report("json.gz")
  {
    if EndsWith(name, ".csv.gz") {
      CsvGzName(name);
    }
    if EndsWith(name, ".json.gz") {
      JsonGzName(name);
    }
    assert IsSupported("csv.gz") && IsSupported("json.gz");
  }

  lemma GzAndEmptyUnsupported()
    ensures !IsSupported("gz") && !IsSupported("")
  {
  }

  /** A gzip archive that is neither csv.gz nor json.gz, as written, is refused. */
  lemma OtherArchivesRefused(name: string)
    requires |name| > 3
    ensures EndsWith(name, ".gz") && !EndsWith(name[..|name| - 3], "csv") && !EndsWith(name[..|name| - 3], "json")
      ==> Decide(Some(File(name, true))) == Unsupported
    ensures EndsWith(name, ".GZ") ==> Decide(Some(File(name, true))) == Unsupported
  {
    GzAndEmptyUnsupported();
    if EndsWith(name, ".gz") && !EndsWith(name[..|name| - 3], "csv") && !EndsWith(name[..|name| - 3], "json") {
      OtherGzName(name);
    }
    if EndsWith(name, ".GZ") {
      UpperGzName(name);
    }
  }

  /** Names without an extension, or with only a leading '.', are refused. */
  lemma NoExtensionRefused(name: string)
    requires forall i :: 0 < i < |name| ==> name[i] != '.'
    ensures Decide(Some(File(name, true))) == Unsupported
  {
    GzAndEmptyUnsupported();
    ExtensionWithoutInnerDot(name);
  }

  /** A file that is not there ends the run with the "does not exist" message. */
  lemma MissingFileStops(name: string)
    ensures Decide(Some(File(name, false))) == Missing
    ensures Decide(None) == Missing
  {
  }
}
