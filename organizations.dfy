/**
  `organizations.py`: an organisation's directories and the stems of the files in its
  input directory, and Oak Ridge's per-file information (state of charge and battery
  type read off the file name).
*/
module Organizations {
  import opened Wrappers
  import opened Text
  import opened DigitPattern
  import opened Base
  import opened Values
  import Ornl

  /** The fields `Organization.__init__` sets. */
  datatype Organization = Organization(name: string, inputDir: string, outputDir: string, files: seq<string>)

  /** The stems of the regular files among `entries`, in listing order (`os.path.splitext(f)[0]`). */
  function FileStems(entries: seq<Entry>): (r: seq<string>)
    ensures |r| <= |entries|
    ensures forall e :: e in entries && e.isFile ==> SplitExt(e.name).0 in r
    ensures forall s :: s in r ==> exists e :: e in entries && e.isFile && SplitExt(e.name).0 == s
  {
    if entries == [] then []
    else
      var rest := FileStems(entries[1..]);
      assert forall e :: e in entries ==> e == entries[0] || e in entries[1..];
      if entries[0].isFile then [SplitExt(entries[0].name).0] + rest else rest
  }

  /**
    `Organization(name, input_dir, output_dir)`. A missing or empty directory falls back
    to the root followed by the name and '/'. The file list comes from listing the
    `input_dir` ARGUMENT (`listing`, what `os.listdir` returns for it or raises), not the
    defaulted field: with no argument the current directory is listed, and joining `None`
    with the first name raises `TypeError`.
  */
  function NewOrganization(rawRoot: string, processedRoot: string, name: string,
                           inputDir: Option<string>, outputDir: Option<string>,
                           listing: Result<seq<Entry>, Exception>): (r: Result<Organization, Exception>)
    ensures listing.Err? ==> r == Err(listing.error)
    ensures r.Ok? <==> listing.Ok? && (inputDir.None? ==> listing.value == [])
    ensures r.Ok? ==> r.value.name == name
    ensures r.Ok? && inputDir.Some? && inputDir.value != [] ==> r.value.inputDir == inputDir.value
    ensures r.Ok? && (inputDir.None? || inputDir.value == []) ==> r.value.inputDir == rawRoot + name + "/"
    ensures r.Ok? && outputDir.Some? && outputDir.value != [] ==> r.value.outputDir == outputDir.value
    ensures r.Ok? && (outputDir.None? || outputDir.value == []) ==> r.value.outputDir == processedRoot + name + "/"
    ensures r.Ok? ==> r.value.files == FileStems(listing.value)
  {
    var input := if inputDir.Some? && inputDir.value != [] then inputDir.value else rawRoot + name + "/";
    var output := if outputDir.Some? && outputDir.value != [] then outputDir.value else processedRoot + name + "/";
    match listing
    case Err(e) => Err(e)
    case Ok(entries) =>
      if inputDir.None? && entries != [] then Err(TypeError)
      else Ok(Organization(name, input, output, FileStems(entries)))
  }

  // ---------------------------------------------------------------- Oak Ridge's file information

  const BatteryTypes: seq<string> := ["NFP", "LCO"]

  /** The regex `(\d+)[S0]OC`: a digit run, then 'S' or '0', then "OC". */
  const SocTail: Tail := [{'S', '0'}, {'O'}, {'C'}]

  /** One entry of `file_info`. */
  datatype FileInfo = FileInfo(soc: Option<nat>, batteryType: Option<string>)

  /**
    The state of charge read off a file name: `int` of the group of the leftmost
    `(\d+)[S0]OC` match, the longest digit run at that start; `None` when nothing matches.
  */
  function Soc(file: string): (r: Option<nat>)
    ensures r.None? <==> forall a, b :: !GroupAt(file, SocTail, a, b)
    ensures r.Some? ==> exists a, b :: LeftmostGroup(file, SocTail, a, b)
    ensures forall a, b :: LeftmostGroup(file, SocTail, a, b) ==> r == Some(GroupValue(file, a, b))
  {
    match Search(file, SocTail)
    case None => None
    case Some(d) => Some(DigitsValue(d))
  }

  /**
    The entry `_process_file_info` stores for a file: its state of charge and the first
    battery type whose name occurs in it, as a plain string.
  */
  function Info(file: string): (r: FileInfo)
    ensures r.soc == Soc(file)
    ensures r.soc.None? <==> forall a, b :: !GroupAt(file, SocTail, a, b)
    ensures r.batteryType.None? <==> !Contains(file, "NFP") && !Contains(file, "LCO")
    ensures r.batteryType.Some? ==> Contains(file, r.batteryType.value) && r.batteryType.value in BatteryTypes
    ensures Contains(file, "NFP") ==> r.batteryType == Some("NFP")
    ensures !Contains(file, "NFP") && Contains(file, "LCO") ==> r.batteryType == Some("LCO")
  {
    assert forall x :: x in BatteryTypes ==> x == "NFP" || x == "LCO";
    FileInfo(Soc(file), FirstContained(BatteryTypes, file))
  }

  /**
    The character after the digits is 'S' or '0' and the next one 'O': a name with
    "S0C" after its digits, which Oak Ridge's cell ids accept, gives no match here.
  */
  lemma SocNeedsO(file: string, a: int, b: int)
    requires GroupAt(file, SocTail, a, b)
    ensures b + 2 < |file| && file[b] in {'S', '0'} && file[b + 1] == 'O' && file[b + 2] == 'C'
  {
    assert TailAt(file, SocTail, b);
    assert file[b] in SocTail[0] && file[b + 1] in SocTail[1] && file[b + 2] in SocTail[2];
  }

  /** "25S0C" carries a state of charge for an Oak Ridge cell id but none for a file name here. */
  lemma S0cOnlyInCellIds()
    ensures Soc("25S0C") == None
    ensures Ornl.StateOfCharge("25S0C") == VInt(25)
  {
    forall a, b | GroupAt("25S0C", SocTail, a, b)
      ensures false
    {
      SocNeedsO("25S0C", a, b);
    }
    var s := "25S0C";
    assert GroupAt(s, Ornl.SocTail, 0, 2) by {
      assert s[2] in Ornl.SocTail[0] && s[3] in Ornl.SocTail[1] && s[4] in Ornl.SocTail[2];
    }
    var a, b :| GroupAt(s, Ornl.SocTail, a, b) && Search(s, Ornl.SocTail).value == s[a..b]
      && (forall a', b' :: 0 <= a' < a ==> !GroupAt(s, Ornl.SocTail, a', b'))
      && (forall b' :: b < b' ==> !GroupAt(s, Ornl.SocTail, a, b'));
    assert GroupAt(s, Ornl.SocTail, a, b);
    assert a == 0 && b == 2;
    assert s[a..b] == "25";
    assert Search(s, Ornl.SocTail) == Some("25");
    assert DigitsValue("25") == 25 by {
      assert "25"[..1] == "2";
      assert "2"[..0] == "";
    }
  }

  /**
    `OakRidge._process_file_info()`: one entry per file name, the later of two equal
    stems overwriting the earlier with the same value.
  */
  method ProcessFileInfo(files: seq<string>) returns (info: map<string, FileInfo>)
    ensures info.Keys == set f | f in files
    ensures forall f :: f in info ==> info[f] == Info(f)
  {
    info := map[];
    for i := 0 to |files|
      invariant info.Keys == set f | f in files[..i]
      invariant forall f :: f in info ==> info[f] == Info(f)
    {
      assert files[..i + 1] == files[..i] + [files[i]];
      info := info[files[i] := Info(files[i])];
    }
    assert files[..|files|] == files;
  }
}
