/**
  `load_all_data` of `data.py`: every CSV file under the data directory is cut into
  windows of `WINDOW_SIZE` consecutive rows, `STRIDE` rows apart, each labelled 0 when
  its directory's path mentions "healthy" and 1 otherwise.

  The directory walk is a parameter: one (directory, file names) pair per directory, in
  the order `os.walk` visits them. Reading a file is a parameter too; a read that raises
  ends the whole load with that exception.
*/
module Data {
  import opened Wrappers
  import opened Text
  import opened Table

  /** A window: `WINDOW_SIZE` consecutive rows of one file. */
  type Window = seq<seq<Cell>>

  /** 0 for a directory whose lower-cased path contains "healthy", else 1. */
  function Label(root: string): (y: int)
    ensures y == 0 || y == 1
    ensures y == 0 <==> Contains(Lower(root), "healthy")
  {
    if Contains(Lower(root), "healthy") then 0 else 1
  }

  /** The largest multiple of `s` not above `n` is at most `n`. */
  lemma MultipleBelow(n: nat, s: nat, k: nat)
    requires s > 0 && k <= n / s
    ensures k * s <= n
    ensures n < (n / s + 1) * s
  {
    assert k * s <= (n / s) * s;
  }

  /**
    The windows of `rows` starting at 0, s, 2s, ... for as long as a whole window fits:
    that is (n - w) div s + 1 of them when n >= w rows, and none otherwise.
  */
  function Windows(rows: seq<seq<Cell>>, w: nat, s: nat): (r: seq<Window>)
    requires s > 0
    ensures |rows| < w ==> r == []
    ensures |rows| >= w ==> |r| == (|rows| - w) / s + 1
    ensures forall k :: 0 <= k < |r| ==> k * s + w <= |rows| && r[k] == rows[k * s..k * s + w]
    ensures |rows| >= w ==> |r| * s > |rows| - w
  {
    if |rows| < w then []
    else
      var count := (|rows| - w) / s + 1;
      assert forall k :: 0 <= k < count ==> k * s + w <= |rows| by {
        forall k | 0 <= k < count ensures k * s + w <= |rows| {
          MultipleBelow(|rows| - w, s, k);
        }
      }
      MultipleBelow(|rows| - w, s, 0);
      seq(count, k requires 0 <= k < count => rows[k * s..k * s + w])
  }

  /** Every window holds exactly `w` rows. */
  lemma WindowsHaveSize(rows: seq<seq<Cell>>, w: nat, s: nat)
    requires s > 0
    ensures forall x :: x in Windows(rows, w, s) ==> |x| == w
  {
    var r := Windows(rows, w, s);
    forall x | x in r ensures |x| == w {
      var k :| 0 <= k < |r| && r[k] == x;
    }
  }

  /** The windows one file contributes: none when a value is missing or it is too short. */
  function FileWindows(f: Frame, w: nat, s: nat): (r: seq<Window>)
    requires Valid(f) && s > 0
    ensures AnyMissing(f) || f.rows < w ==> r == []
    ensures !AnyMissing(f) && f.rows >= w ==> |r| == (f.rows - w) / s + 1
  {
    if AnyMissing(f) || f.rows < w then [] else Windows(Rows(f), w, s)
  }

  /** A reader that only hands over frames whose columns all have one cell per row. */
  ghost predicate ReadsValid(read: string -> Result<Frame, Exception>) {
    forall p :: read(p).Ok? ==> Valid(read(p).value)
  }

  /** The windows of the files of one directory, in listing order; CSV files only. */
  function DirWindows(root: string, files: seq<string>, read: string -> Result<Frame, Exception>, w: nat, s: nat):
    (r: Result<seq<Window>, Exception>)
    requires ReadsValid(read) && s > 0
    ensures r.Err? ==> exists f :: f in files && EndsWith(f, ".csv") && read(Join(root, f)) == Err(r.error)
    ensures (forall f :: f in files ==> !EndsWith(f, ".csv")) ==> r == Ok([])
    decreases |files|
  {
    if files == [] then Ok([])
    else
      var init, last := files[..|files| - 1], files[|files| - 1];
      assert forall f :: f in files <==> f in init || f == last;
      match DirWindows(root, init, read, w, s)
      case Err(e) => Err(e)
      case Ok(ws) =>
        if !EndsWith(last, ".csv") then Ok(ws)
        else
          match read(Join(root, last))
          case Err(e) => Err(e)
          case Ok(df) => Ok(ws + FileWindows(df, w, s))
  }

  /** One more file name appends that file's windows, unless an earlier read raised. */
  lemma DirWindowsSnoc(root: string, files: seq<string>, f: string, read: string -> Result<Frame, Exception>, w: nat, s: nat)
    requires ReadsValid(read) && s > 0
    ensures DirWindows(root, files + [f], read, w, s) ==
      if DirWindows(root, files, read, w, s).Err? || !EndsWith(f, ".csv") then DirWindows(root, files, read, w, s)
      else if read(Join(root, f)).Err? then Err(read(Join(root, f)).error)
      else Ok(DirWindows(root, files, read, w, s).value + FileWindows(read(Join(root, f)).value, w, s))
  {
    assert (files + [f])[..|files|] == files;
  }

  /** `(X, y)` for the walk, or the first exception a read raised. */
  function Dataset(walk: seq<(string, seq<string>)>, read: string -> Result<Frame, Exception>, w: nat, s: nat):
    (r: Result<(seq<Window>, seq<int>), Exception>)
    requires ReadsValid(read) && s > 0
    ensures r.Ok? ==> |r.value.0| == |r.value.1|
    ensures r.Ok? ==> forall k :: 0 <= k < |r.value.1| ==> r.value.1[k] == 0 || r.value.1[k] == 1
    ensures r.Ok? && (forall d :: d in walk ==> Contains(Lower(d.0), "healthy")) ==>
              forall k :: 0 <= k < |r.value.1| ==> r.value.1[k] == 0
    ensures r.Ok? && (forall d :: d in walk ==> !Contains(Lower(d.0), "healthy")) ==>
              forall k :: 0 <= k < |r.value.1| ==> r.value.1[k] == 1
    decreases |walk|
  {
    if walk == [] then Ok(([], []))
    else
      var init, last := walk[..|walk| - 1], walk[|walk| - 1];
      assert forall d :: d in walk <==> d in init || d == last;
      match Dataset(init, read, w, s)
      case Err(e) => Err(e)
      case Ok(xy) =>
        match DirWindows(last.0, last.1, read, w, s)
        case Err(e) => Err(e)
        case Ok(ws) => Ok((xy.0 + ws, xy.1 + seq(|ws|, _ => Label(last.0))))
  }

  /** Every window of the data set holds exactly `w` rows. */
  lemma {:induction false} DatasetWindowSize(walk: seq<(string, seq<string>)>, read: string -> Result<Frame, Exception>, w: nat, s: nat)
    requires ReadsValid(read) && s > 0
    requires Dataset(walk, read, w, s).Ok?
    ensures forall x :: x in Dataset(walk, read, w, s).value.0 ==> |x| == w
    decreases |walk|
  {
    if walk != [] {
      var init, last := walk[..|walk| - 1], walk[|walk| - 1];
      DatasetWindowSize(init, read, w, s);
      DirWindowSize(last.0, last.1, read, w, s);
    }
  }

  /**
    One more directory appends its windows, each labelled with that directory's label,
    unless an earlier read raised; a read of the new directory that raises ends the load.
  */
  lemma DatasetSnoc(walk: seq<(string, seq<string>)>, last: (string, seq<string>),
                    read: string -> Result<Frame, Exception>, w: nat, s: nat)
    requires ReadsValid(read) && s > 0
    ensures Dataset(walk + [last], read, w, s) ==
      if Dataset(walk, read, w, s).Err? then Dataset(walk, read, w, s)
      else if DirWindows(last.0, last.1, read, w, s).Err? then Err(DirWindows(last.0, last.1, read, w, s).error)
      else
        var xy, ws := Dataset(walk, read, w, s).value, DirWindows(last.0, last.1, read, w, s).value;
        Ok((xy.0 + ws, xy.1 + seq(|ws|, _ => Label(last.0))))
  {
    assert (walk + [last])[..|walk|] == walk;
  }

  /** An index past the first part of a concatenation reads the second part. */
  lemma AppendIndex<T>(a: seq<T>, b: seq<T>, k: nat)
    requires |a| <= k < |a| + |b|
    ensures (a + b)[k] == b[k - |a|] && (a + b)[k] in b
  {
  }

  /** The directory of the walk that window `k` of the data set comes from, and its label. */
  lemma {:induction false} DatasetOrigin(walk: seq<(string, seq<string>)>, read: string -> Result<Frame, Exception>,
                                         w: nat, s: nat, k: nat) returns (d: nat)
    requires ReadsValid(read) && s > 0
    requires Dataset(walk, read, w, s).Ok? && k < |Dataset(walk, read, w, s).value.0|
    ensures d < |walk| && DirWindows(walk[d].0, walk[d].1, read, w, s).Ok?
    ensures Dataset(walk, read, w, s).value.0[k] in DirWindows(walk[d].0, walk[d].1, read, w, s).value
    ensures Dataset(walk, read, w, s).value.1[k] == Label(walk[d].0)
    decreases |walk|
  {
    var init, last := walk[..|walk| - 1], walk[|walk| - 1];
    assert walk == init + [last];
    DatasetSnoc(init, last, read, w, s);
    assert Dataset(init, read, w, s).Ok? && DirWindows(last.0, last.1, read, w, s).Ok?;
    var before := Dataset(init, read, w, s).value;
    var ws := DirWindows(last.0, last.1, read, w, s).value;
    var xy := Dataset(walk, read, w, s).value;
    assert xy.0 == before.0 + ws && xy.1 == before.1 + seq(|ws|, _ => Label(last.0));
    if k < |before.0| {
      d := DatasetOrigin(init, read, w, s, k);
      assert walk[d] == init[d];
    } else {
      d := |walk| - 1;
      AppendIndex(before.0, ws, k);
      AppendIndex(before.1, seq(|ws|, _ => Label(last.0)), k);
    }
  }

  /**
    Every window of the data set comes from one directory of the walk, and carries that
    directory's label.
  */
  lemma DatasetLabels(walk: seq<(string, seq<string>)>, read: string -> Result<Frame, Exception>, w: nat, s: nat)
    requires ReadsValid(read) && s > 0
    requires Dataset(walk, read, w, s).Ok?
    ensures var xy := Dataset(walk, read, w, s).value;
      forall k :: 0 <= k < |xy.0| ==>
        exists d :: 0 <= d < |walk| && DirWindows(walk[d].0, walk[d].1, read, w, s).Ok? &&
                    xy.0[k] in DirWindows(walk[d].0, walk[d].1, read, w, s).value && xy.1[k] == Label(walk[d].0)
  {
    var xy := Dataset(walk, read, w, s).value;
    forall k | 0 <= k < |xy.0|
      ensures exists d :: 0 <= d < |walk| && DirWindows(walk[d].0, walk[d].1, read, w, s).Ok? &&
                          xy.0[k] in DirWindows(walk[d].0, walk[d].1, read, w, s).value && xy.1[k] == Label(walk[d].0)
    {
      var d := DatasetOrigin(walk, read, w, s, k);
    }
  }

  lemma {:induction false} DirWindowSize(root: string, files: seq<string>, read: string -> Result<Frame, Exception>, w: nat, s: nat)
    requires ReadsValid(read) && s > 0
    ensures DirWindows(root, files, read, w, s).Ok? ==> forall x :: x in DirWindows(root, files, read, w, s).value ==> |x| == w
    decreases |files|
  {
    if files != [] {
      var init, last := files[..|files| - 1], files[|files| - 1];
      DirWindowSize(root, init, read, w, s);
      if EndsWith(last, ".csv") && read(Join(root, last)).Ok? {
        var df := read(Join(root, last)).value;
        if !(AnyMissing(df) || df.rows < w) {
          WindowsHaveSize(Rows(df), w, s);
        }
      }
    }
  }

  /**
    The windows of one file: `range(0, n - w + 1, s)` visits the starts 0, s, 2s, ...,
    the `k`-th of them being `k * s`.
  */
  method SlideWindows(rows: seq<seq<Cell>>, w: nat, s: nat) returns (ws: seq<Window>)
    requires s > 0
    ensures ws == Windows(rows, w, s)
  {
    ws := [];
    if |rows| < w {
      return;
    }
    ghost var all := Windows(rows, w, s);
    var count := (|rows| - w) / s + 1;
    for k := 0 to count
      invariant ws == all[..k]
    {
      var start := k * s;
      ws := ws + [rows[start..start + w]];
    }
    assert all[..count] == all;
  }

  /** The loop over the files of one directory. */
  method LoadDir(root: string, files: seq<string>, read: string -> Result<Frame, Exception>, w: nat, s: nat)
    returns (r: Result<seq<Window>, Exception>)
    requires ReadsValid(read) && s > 0
    ensures r == DirWindows(root, files, read, w, s)
  {
    var ws: seq<Window> := [];
    for i := 0 to |files|
      invariant DirWindows(root, files[..i], read, w, s) == Ok(ws)
    {
      assert files[..i + 1] == files[..i] + [files[i]];
      DirWindowsSnoc(root, files[..i], files[i], read, w, s);
      var fname := files[i];
      if EndsWith(fname, ".csv") {
        var df := read(Join(root, fname));
        if df.Err? {
          DirWindowsErrSticks(root, files, i + 1, read, w, s);
          assert files[..|files|] == files;
          return Err(df.error);
        }
        if !(AnyMissing(df.value) || df.value.rows < w) {
          var fw := SlideWindows(Rows(df.value), w, s);
          ws := ws + fw;
        } else {
          assert ws + FileWindows(df.value, w, s) == ws;
        }
      }
    }
    assert files[..|files|] == files;
    return Ok(ws);
  }

  /** Once a read has raised, the rest of the directory changes nothing. */
  lemma {:induction false} DirWindowsErrSticks(root: string, files: seq<string>, i: nat,
                                               read: string -> Result<Frame, Exception>, w: nat, s: nat)
    requires ReadsValid(read) && s > 0
    requires i <= |files|
    requires DirWindows(root, files[..i], read, w, s).Err?
    ensures DirWindows(root, files, read, w, s) == DirWindows(root, files[..i], read, w, s)
    decreases |files| - i
  {
    if i < |files| {
      assert files[..i + 1][..i] == files[..i];
      DirWindowsErrSticks(root, files, i + 1, read, w, s);
    } else {
      assert files[..i] == files;
    }
  }

  /** `load_all_data()`: the directories in walk order, each contributing its windows and labels. */
  method LoadAllData(walk: seq<(string, seq<string>)>, read: string -> Result<Frame, Exception>, w: nat, s: nat)
    returns (r: Result<(seq<Window>, seq<int>), Exception>)
    requires ReadsValid(read) && s > 0
    ensures r == Dataset(walk, read, w, s)
  {
    var xs: seq<Window> := [];
    var ys: seq<int> := [];
    for d := 0 to |walk|
      invariant Dataset(walk[..d], read, w, s) == Ok((xs, ys))
    {
      assert walk[..d + 1][..d] == walk[..d];
      var (root, files) := walk[d];
      var y := Label(root);
      var dir := LoadDir(root, files, read, w, s);
      if dir.Err? {
        DatasetErrSticks(walk, d + 1, read, w, s);
        assert walk[..|walk|] == walk;
        return Err(dir.error);
      }
      xs := xs + dir.value;
      ys := ys + seq(|dir.value|, _ => y);
    }
    assert walk[..|walk|] == walk;
    return Ok((xs, ys));
  }

  /** Once a read has raised, the rest of the walk changes nothing. */
  lemma {:induction false} DatasetErrSticks(walk: seq<(string, seq<string>)>, d: nat,
                                            read: string -> Result<Frame, Exception>, w: nat, s: nat)
    requires ReadsValid(read) && s > 0
    requires d <= |walk|
    requires Dataset(walk[..d], read, w, s).Err?
    ensures Dataset(walk, read, w, s) == Dataset(walk[..d], read, w, s)
    decreases |walk| - d
  {
    if d < |walk| {
      assert walk[..d + 1][..d] == walk[..d];
      DatasetErrSticks(walk, d + 1, read, w, s);
    } else {
      assert walk[..d] == walk;
    }
  }
}
