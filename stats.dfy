/**
 * `Stats`: the service's counters. The totals survive restarts through a
 * two-line stats file; the number of running tasks starts at zero.
 * Counters are 32-bit and wrap around like `Interlocked.Increment`.
 */
module Statistics {
  import opened Common
  import opened Text

  /** The `k`-th line `ReadLine` returns from `content`, or `None` (null) past the end. */
  function LineOf(content: string, k: nat): Option<string>
  {
    var lines := SplitLines(content);
    if k < |lines| then Some(lines[k]) else None
  }

  /**
   * A counter read back from the stats file: `int.TryParse` of its line,
   * 0 when the file cannot be read, the line is missing or it does not parse.
   */
  function LoadedCount(file: Option<string>, k: nat): (r: int)
    ensures IsInt32(r)
    ensures file.None? ==> r == 0
  {
    if file.None? then 0
    else
      match LineOf(file.value, k)
      case None => 0
      case Some(line) => match ParseInt(line) case None => 0 case Some(v) => v
  }

  /** What `SaveFile` writes: the job total, then the transcoded-file total, one per line. */
  function SaveText(totalJobs: int, totalFiles: int): string
  {
    JoinLines([IntToString(totalJobs), IntToString(totalFiles)])
  }

  /** Reading back a saved stats file restores both totals. */
  lemma SaveLoadRoundTrip(totalJobs: int, totalFiles: int)
    requires IsInt32(totalJobs) && IsInt32(totalFiles)
    ensures LoadedCount(Some(SaveText(totalJobs, totalFiles)), 0) == totalJobs
    ensures LoadedCount(Some(SaveText(totalJobs, totalFiles)), 1) == totalFiles
  {
    var a, b := IntToString(totalJobs), IntToString(totalFiles);
    var lines := [a, b];
    assert forall i :: 0 <= i < |lines| ==> NoLineBreak(lines[i]) by {
      assert lines[0] == a && lines[1] == b;
    }
    SplitJoinLines(lines);
    var text := SaveText(totalJobs, totalFiles);
    assert LineOf(text, 0) == Some(a) && LineOf(text, 1) == Some(b);
    ParseIntToString(totalJobs);
    ParseIntToString(totalFiles);
    LoadedLine(text, 0, a, totalJobs);
    LoadedLine(text, 1, b, totalFiles);
  }

  /** A line that parses is the count read back. */
  lemma LoadedLine(text: string, k: nat, line: string, v: int)
    requires LineOf(text, k) == Some(line) && ParseInt(line) == Some(v)
    ensures LoadedCount(Some(text), k) == v
  {
  }

  /** The body of a GET on the stats resource. */
  function Report(totalJobs: int, totalFiles: int, running: int): string
  {
    "Total Jobs: " + IntToString(totalJobs) + "\n" +
    "Total Files Transcoded: " + IntToString(totalFiles) + "\n" +
    "Active: " + IntToString(running) + "\n"
  }

  /** The report holds exactly three lines, headed by the totals and the running count. */
  lemma ReportLines(totalJobs: int, totalFiles: int, running: int)
    ensures SplitLines(Report(totalJobs, totalFiles, running)) ==
      ["Total Jobs: " + IntToString(totalJobs),
       "Total Files Transcoded: " + IntToString(totalFiles),
       "Active: " + IntToString(running)]
  {
    var a, b, c := IntToString(totalJobs), IntToString(totalFiles), IntToString(running);
    var l0, l1, l2 := "Total Jobs: " + a, "Total Files Transcoded: " + b, "Active: " + c;
    assert Report(totalJobs, totalFiles, running) == l0 + NewLine + l1 + NewLine + l2 + NewLine by {
      RegroupReport("Total Jobs: ", a, "Total Files Transcoded: ", b, "Active: ", c, NewLine);
    }
    LabelledLine("Total Jobs: ", a);
    LabelledLine("Total Files Transcoded: ", b);
    LabelledLine("Active: ", c);
    JoinThree(l0, l1, l2);
    SplitJoinLines([l0, l1, l2]);
  }

  /** A label without line breaks followed by a number is one line. */
  lemma LabelledLine(head: string, n: string)
    requires NoLineBreak(head) && NoLineBreak(n)
    ensures NoLineBreak(head + n)
  {
    assert forall i :: 0 <= i < |head + n| ==> (head + n)[i] == if i < |head| then head[i] else n[i - |head|];
  }

  /** Three lines joined, each ended by a line break. */
  lemma JoinThree(x: string, y: string, z: string)
    ensures JoinLines([x, y, z]) == x + NewLine + y + NewLine + z + NewLine
  {
    assert [x, y, z][1..] == [y, z];
    assert [y, z][1..] == [z];
    assert [z][1..] == [];
    assert JoinLines([z]) == z + NewLine;
    assert JoinLines([y, z]) == y + NewLine + (z + NewLine);
    assert JoinLines([x, y, z]) == x + NewLine + (y + NewLine + (z + NewLine));
  }

  /** Regrouping the report's pieces into its three lines. */
  lemma RegroupReport(p: string, a: string, q: string, b: string, r: string, c: string, nl: string)
    ensures p + a + nl + q + b + nl + r + c + nl == (p + a) + nl + (q + b) + nl + (r + c) + nl
  {
  }

  /** Anything but GET is refused. */
  function HandlePost(): (r: Response)
    ensures r.code == 400 && r.body == Text("Bad Request")
  {
    Response(400, Text("Bad Request"))
  }

  class Stats {
    var totalJobs: int
    var totalFilesTranscoded: int
    var runningJobs: int

    predicate Valid()
      reads this
    {
      IsInt32(totalJobs) && IsInt32(totalFilesTranscoded) && IsInt32(runningJobs)
    }

    /** Loads the totals from the stats file; `file` is its text, `None` when it cannot be read. */
    constructor(file: Option<string>)
      ensures Valid()
      ensures totalJobs == LoadedCount(file, 0) && totalFilesTranscoded == LoadedCount(file, 1)
      ensures runningJobs == 0
    {
      totalJobs := LoadedCount(file, 0);
      totalFilesTranscoded := LoadedCount(file, 1);
      runningJobs := 0;
    }

    method AddJob()
      requires Valid()
      modifies this
      ensures Valid()
      ensures totalJobs == Wrap32(old(totalJobs) + 1)
      ensures totalFilesTranscoded == old(totalFilesTranscoded) && runningJobs == old(runningJobs)
    {
      totalJobs := Wrap32(totalJobs + 1);
    }

    /** A task starts: one more transcoded file and one more running task. */
    method AddTask()
      requires Valid()
      modifies this
      ensures Valid()
      ensures totalFilesTranscoded == Wrap32(old(totalFilesTranscoded) + 1)
      ensures runningJobs == Wrap32(old(runningJobs) + 1)
      ensures totalJobs == old(totalJobs)
    {
      totalFilesTranscoded := Wrap32(totalFilesTranscoded + 1);
      runningJobs := Wrap32(runningJobs + 1);
    }

    method CompleteTask()
      requires Valid()
      modifies this
      ensures Valid()
      ensures runningJobs == Wrap32(old(runningJobs) - 1)
      ensures totalJobs == old(totalJobs) && totalFilesTranscoded == old(totalFilesTranscoded)
    {
      runningJobs := Wrap32(runningJobs - 1);
    }

    /** `HandleGet`: status 200 and the report. */
    function HandleGet(): (r: Response)
      reads this
      ensures r.code == 200 && r.body == Text(Report(totalJobs, totalFilesTranscoded, runningJobs))
    {
      Response(200, Text(Report(totalJobs, totalFilesTranscoded, runningJobs)))
    }
  }
}
