/**
 * File-type classification by name (FileUtils.getFileExtension, FileUtils.getFileType) and
 * the name of the file a gzip archive is decompressed to (FileUtils.decompressGZIP).
 * The file system is reduced to what these read of a java.io.File: its name (the last
 * component of the path) and whether it exists.
 */
module FileUtils {
  import opened Wrappers

  datatype File = File(name: string, present: bool)

  /** The exceptions these functions can raise. */
  datatype FileError =
    | NullPointer           // getFileType dereferences the null extension of a missing file
    | IndexOutOfBounds      // substring(0, -1) on a name without a '.'

  /** String.lastIndexOf: the position of the last c in s, or -1. */
  function LastIndexOf(s: string, c: char): (r: int)
    ensures -1 <= r < |s|
    ensures r == -1 <==> c !in s
    ensures r >= 0 ==> s[r] == c
    ensures forall j :: r < j < |s| ==> s[j] != c
  {
    if |s| == 0 then -1
    else if s[|s| - 1] == c then |s| - 1
    else LastIndexOf(s[..|s| - 1], c)
  }

  predicate IsUpper(c: char) {
    'A' <= c <= 'Z'
  }

  function LowerChar(c: char): (l: char)
    ensures !IsUpper(l)
    ensures c != '.' ==> l != '.'
  {
    if IsUpper(c) then (c as int - 'A' as int + 'a' as int) as char else c
  }

  /** String.toLowerCase, for the ASCII letters. */
  function ToLower(s: string): (r: string)
    ensures |r| == |s|
    ensures forall i :: 0 <= i < |s| ==> r[i] == LowerChar(s[i])
  {
    seq(|s|, i requires 0 <= i < |s| => LowerChar(s[i]))
  }

  predicate EndsWith(s: string, suffix: string) {
    |suffix| <= |s| && s[|s| - |suffix|..] == suffix
  }

  /**
   * getFileExtension: None (Java's null) for a missing file; "" when the name has no '.'
   * or only a leading one; otherwise the lower-cased text after the last '.'.
   */
  function FileExtension(file: Option<File>): (r: Option<string>)
    ensures r.None? <==> file.None? || !file.value.present
    ensures r.Some? ==> '.' !in r.value
    ensures r.Some? ==> forall i :: 0 <= i < |r.value| ==> !IsUpper(r.value[i])
  {
    if file.None? || !file.value.present then None
    else
      var name := file.value.name;
      var last := LastIndexOf(name, '.');
      if last != -1 && last != 0 then Some(ToLower(name[last + 1..])) else Some("")
  }

  /** A name split at its last '.', with a non-empty part before it, has the lower-cased part after it as extension. */
  lemma ExtensionAfterLastDot(prefix: string, suffix: string)
    requires |prefix| > 0 && '.' !in suffix
    ensures FileExtension(Some(File(prefix + "." + suffix, true))) == Some(ToLower(suffix))
  {
    var name := prefix + "." + suffix;
    var last := LastIndexOf(name, '.');
    assert name[|prefix|] == '.';
    assert name[last + 1..] == suffix;
  }

  /** Without a '.' past the first character, the extension is empty: ".csv" has none. */
  lemma ExtensionWithoutInnerDot(name: string)
    requires forall i :: 0 < i < |name| ==> name[i] != '.'
    ensures FileExtension(Some(File(name, true))) == Some("")
  {
  }

  /** A trailing '.' gives the empty extension. */
  lemma ExtensionOfTrailingDot(prefix: string)
    requires |prefix| > 0
    ensures FileExtension(Some(File(prefix + ".", true))) == Some("")
  {
    ExtensionAfterLastDot(prefix, "");
  }

  /**
   * getFileType: the extension, except that "gz" becomes "csv.gz" or "json.gz" when the
   * original name ends with that (case-sensitive) compound suffix.  A missing file has a
   * null extension, which getFileType dereferences.
   */
  function FileType(file: Option<File>): (r: Result<string, FileError>)
    ensures r.Failure? <==> FileExtension(file).None?
    ensures r.Failure? ==> r.error == NullPointer
  {
    var ext := FileExtension(file);
    if ext.None? then Failure(NullPointer)
    else if ext.value == "gz" && EndsWith(file.value.name, "csv.gz") then Success("csv.gz")
    else if ext.value == "gz" && EndsWith(file.value.name, "json.gz") then Success("json.gz")
    else Success(ext.value)
  }

  /** The promotion of "gz", in full; every other extension is the file type unchanged. */
  lemma FileTypeCases(file: Option<File>)
    requires FileExtension(file).Some?
    ensures var ext, name := FileExtension(file).value, file.value.name;
      FileType(file) == Success(
        if ext != "gz" then ext
        else if EndsWith(name, "csv.gz") then "csv.gz"
        else if EndsWith(name, "json.gz") then "json.gz"
        else "gz")
  {
  }

  lemma LowerGz()
    ensures ToLower("gz") == "gz"
  {
  }

  /** A name ending in ".gz" after a non-empty stem has the extension "gz". */
  lemma GzName(name: string)
    requires |name| > 3 && EndsWith(name, ".gz")
    ensures FileExtension(Some(File(name, true))) == Some("gz")
  {
    var stem := name[..|name| - 3];
    assert name == stem + "." + "gz";
    ExtensionAfterLastDot(stem, "gz");
    LowerGz();
  }

  /** A name ending in ".gz" ends in base + ".gz" exactly when its text before the ".gz" ends in base. */
  lemma GzSuffix(name: string, base: string)
    requires |name| >= 3 && EndsWith(name, ".gz") && |base| > 0
    ensures EndsWith(name, base + ".gz") <==> EndsWith(name[..|name| - 3], base)
  {
    var stem := name[..|name| - 3];
    assert name == stem + ".gz";
    if |base| <= |stem| {
      var tail := stem[|stem| - |base|..];
      assert name[|name| - |base + ".gz"|..] == tail + ".gz";
      if tail + ".gz" == base + ".gz" {
        assert tail == (tail + ".gz")[..|base|] == (base + ".gz")[..|base|] == base;
      }
    }
  }

  /** Every name ending in ".csv.gz", the bare ".csv.gz" included, has the type "csv.gz". */
  lemma CsvGzName(name: string)
    requires EndsWith(name, ".csv.gz")
    ensures FileType(Some(File(name, true))) == Success("csv.gz")
  {
    assert name[|name| - 3..] == name[|name| - 7..][4..];
    GzName(name);
    assert name[|name| - 6..] == name[|name| - 7..][1..];
    FileTypeCases(Some(File(name, true)));
  }

  /** Every name ending in ".json.gz", the bare ".json.gz" included, has the type "json.gz". */
  lemma JsonGzName(name: string)
    requires EndsWith(name, ".json.gz")
    ensures FileType(Some(File(name, true))) == Success("json.gz")
  {
    assert name[|name| - 3..] == name[|name| - 8..][5..];
    GzName(name);
    assert name[|name| - 7..] == name[|name| - 8..][1..];
    assert name[|name| - 6] == name[|name| - 8..][2] == 's';
    FileTypeCases(Some(File(name, true)));
  }

  /** Any other gzip archive, such as "archive.tar.gz", keeps the plain type "gz". */
  lemma OtherGzName(name: string)
    requires |name| > 3 && EndsWith(name, ".gz")
    requires !EndsWith(name[..|name| - 3], "csv") && !EndsWith(name[..|name| - 3], "json")
    ensures FileType(Some(File(name, true))) == Success("gz")
  {
    GzName(name);
    GzSuffix(name, "csv");
    GzSuffix(name, "json");
    assert "csv" + ".gz" == "csv.gz" && "json" + ".gz" == "json.gz";
    assert !EndsWith(name, "csv.gz") && !EndsWith(name, "json.gz");
    FileTypeCases(Some(File(name, true)));
  }

  /**
   * An upper-case ".GZ" is lowered to the extension "gz", but the compound suffix is
   * matched on the name as written, so "DATA.CSV.GZ" is a plain gzip archive.
   */
  lemma UpperGzName(name: string)
    requires |name| > 3 && EndsWith(name, ".GZ")
    ensures FileType(Some(File(name, true))) == Success("gz")
  {
    var stem := name[..|name| - 3];
    assert name == stem + "." + "GZ";
    ExtensionAfterLastDot(stem, "GZ");
    assert ToLower("GZ") == "gz";
    assert name[|name| - 2] == 'G';
    FileTypeCases(Some(File(name, true)));
  }

  /** Any other extension is the type itself, lower-cased. */
  lemma PlainName(prefix: string, suffix: string)
    requires |prefix| > 0 && '.' !in suffix && ToLower(suffix) != "gz"
    ensures FileType(Some(File(prefix + "." + suffix, true))) == Success(ToLower(suffix))
  {
    ExtensionAfterLastDot(prefix, suffix);
  }

  /** A name without a '.', or whose only '.' leads, has the empty type. */
  lemma NoExtensionExamples()
    ensures FileType(Some(File("noext", true))) == Success("")
    ensures FileType(Some(File(".csv", true))) == Success("")
  {
    var plain, hidden := "noext", ".csv";
    assert plain[1] == 'o' && plain[2] == 'e' && plain[3] == 'x' && plain[4] == 't';
    ExtensionWithoutInnerDot(plain);
    assert hidden[1] == 'c' && hidden[2] == 's' && hidden[3] == 'v';
    ExtensionWithoutInnerDot(hidden);
    assert "" != "gz";
  }

  /** The part of a gzip file's name before its last '.' (decompressGZIP); no '.' makes substring throw. */
  function DecompressedName(name: string): (r: Result<string, FileError>)
    ensures r.Failure? <==> '.' !in name
    ensures r.Failure? ==> r.error == IndexOutOfBounds
    ensures r.Success? ==>
      |r.value| < |name| && name[..|r.value|] == r.value && name[|r.value|] == '.' && '.' !in name[|r.value| + 1..]
  {
    var last := LastIndexOf(name, '.');
    if last == -1 then Failure(IndexOutOfBounds) else Success(name[..last])
  }

  /** Stripping the last extension and putting it back gives the original name. */
  lemma DecompressedNameRoundTrip(name: string)
    requires '.' in name
    ensures var p := DecompressedName(name).value;
      p + "." + name[|p| + 1..] == name
  {
    var p := DecompressedName(name).value;
    assert name == name[..|p|] + [name[|p|]] + name[|p| + 1..];
  }

  /** The decompressed name of prefix + "." + suffix is prefix, when suffix holds no '.'. */
  lemma DecompressedNameOfSplit(prefix: string, suffix: string)
    requires '.' !in suffix
    ensures DecompressedName(prefix + "." + suffix) == Success(prefix)
  {
    var name := prefix + "." + suffix;
    assert name[|prefix|] == '.';
    assert name[..|prefix|] == prefix;
  }

  /** A file classified as "csv.gz" decompresses to its name without ".gz", which ends in "csv". */
  lemma CsvGzDecompressesToCsv(file: Option<File>)
    requires FileType(file) == Success("csv.gz")
    ensures var name := file.value.name;
      DecompressedName(name).Success?
      && DecompressedName(name).value + ".gz" == name
      && EndsWith(DecompressedName(name).value, "csv")
  {
    CompoundSuffixStrip(file.value.name, "csv");
  }

  /** A file classified as "json.gz" decompresses to its name without ".gz", which ends in "json". */
  lemma JsonGzDecompressesToJson(file: Option<File>)
    requires FileType(file) == Success("json.gz")
    ensures var name := file.value.name;
      DecompressedName(name).Success?
      && DecompressedName(name).value + ".gz" == name
      && EndsWith(DecompressedName(name).value, "json")
  {
    CompoundSuffixStrip(file.value.name, "json");
  }

  lemma CompoundSuffixStrip(name: string, base: string)
    requires '.' !in base
    requires EndsWith(name, base + ".gz")
    ensures DecompressedName(name).Success?
    ensures DecompressedName(name).value + ".gz" == name
    ensures EndsWith(DecompressedName(name).value, base)
  {
    var p := name[..|name| - 3];
    assert name == p + "." + "gz";
    DecompressedNameOfSplit(p, "gz");
    assert p[|p| - |base|..] == (base + ".gz")[..|base|];
  }
}
