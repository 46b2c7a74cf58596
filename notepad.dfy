/**
  The report file of src/file/notepad.rs: `create_temp_file` creates
  "mediainfo.txt" in the temporary directory and writes every video line,
  then every audio line, each followed by a newline. The file system is
  abstracted as a `FileSystem` value that says where the temporary directory
  is, whether the file can be created, and which write (if any) fails.
  Opening the file in Notepad is not modelled.
 */
module Notepad {
  import opened Wrappers

  const ReportFileName: string := "mediainfo.txt"
  /** The separator `PathBuf::push` inserts on Windows. */
  const MainSeparator: char := '\\'

  datatype IoError = CreateFailed | WriteFailed

  /**
    The environment `create_temp_file` runs in. `failingWrite == Some(k)`
    means the k-th write call (counting from 0) fails; later writes are
    never attempted.
   */
  datatype FileSystem = FileSystem(tempDir: string, canCreate: bool, failingWrite: Option<nat>)

  predicate IsSeparator(c: char) {
    c == '\\' || c == '/'
  }

  /** A bare drive prefix such as "C:", after which no separator is added. */
  predicate IsDriveOnly(dir: string) {
    |dir| == 2 && dir[1] == ':' && (('a' <= dir[0] <= 'z') || ('A' <= dir[0] <= 'Z'))
  }

  /** `dir.join(name)` for a relative `name`: a separator is added only
      when `dir` is non-empty, does not end in one and is not a bare drive. */
  function JoinPath(dir: string, name: string): (path: string)
    ensures |path| == |dir| + |name| || |path| == |dir| + |name| + 1
    ensures dir <= path && path[|path| - |name|..] == name
    ensures |path| == |dir| + |name| + 1 <==>
            dir != [] && !IsSeparator(dir[|dir| - 1]) && !IsDriveOnly(dir)
    ensures |path| == |dir| + |name| + 1 ==> path[|dir|] == MainSeparator
  {
    if dir == [] || IsSeparator(dir[|dir| - 1]) || IsDriveOnly(dir) then dir + name
    else dir + [MainSeparator] + name
  }

  /** The file contents for a list of entries: each entry followed by "\n".
      The contents are empty exactly when there is no entry, and otherwise
      end in a newline. */
  function Report(lines: seq<string>): (text: string)
    ensures text == [] <==> lines == []
    ensures lines != [] ==> text[|text| - 1] == '\n'
    decreases |lines|
  {
    if lines == [] then "" else lines[0] + "\n" + Report(lines[1..])
  }

  /** Appending one entry appends that entry and its newline. */
  lemma {:induction false} ReportAppend(lines: seq<string>, line: string)
    ensures Report(lines + [line]) == Report(lines) + line + "\n"
    decreases |lines|
  {
    if lines == [] {
      assert lines + [line] == [line];
    } else {
      assert (lines + [line])[1..] == lines[1..] + [line];
      ReportAppend(lines[1..], line);
    }
  }

  /** The report of two lists is the report of the first, then of the second. */
  lemma {:induction false} ReportConcat(a: seq<string>, b: seq<string>)
    ensures Report(a + b) == Report(a) + Report(b)
    decreases |a|
  {
    if a == [] {
      assert a + b == b;
    } else {
      assert (a + b)[1..] == a[1..] + b;
      ReportConcat(a[1..], b);
    }
  }

  /** The index of the first newline in s, or |s| when there is none. */
  function NewlineIndex(s: string): (i: nat)
    ensures i <= |s| && (i < |s| ==> s[i] == '\n')
    ensures forall j :: 0 <= j < i ==> s[j] != '\n'
    decreases |s|
  {
    if s == [] then 0
    else if s[0] == '\n' then 0
    else 1 + NewlineIndex(s[1..])
  }

  /** Reading a text back as newline-terminated entries (a final entry without
      a newline still counts). */
  function SplitLines(s: string): seq<string>
    decreases |s|
  {
    if s == [] then []
    else
      var i := NewlineIndex(s);
      if i == |s| then [s] else [s[..i]] + SplitLines(s[i + 1..])
  }

  predicate HasNoNewline(line: string) {
    forall j :: 0 <= j < |line| ==> line[j] != '\n'
  }

  /** Every entry gets exactly one terminator: reading the report back gives
      the entries, provided none of them contains a newline itself. */
  lemma {:induction false} SplitReport(lines: seq<string>)
    requires forall k :: 0 <= k < |lines| ==> HasNoNewline(lines[k])
    ensures SplitLines(Report(lines)) == lines
    decreases |lines|
  {
    if lines != [] {
      var rest := Report(lines[1..]);
      var s := lines[0] + "\n" + rest;
      assert Report(lines) == s;
      NewlineAfter(lines[0], rest);
      assert s[..|lines[0]|] == lines[0];
      assert s[|lines[0]| + 1..] == rest;
      SplitReport(lines[1..]);
    }
  }

  lemma {:induction false} NewlineAfter(line: string, rest: string)
    requires HasNoNewline(line)
    ensures NewlineIndex(line + "\n" + rest) == |line|
    decreases |line|
  {
    if line != [] {
      assert (line + "\n" + rest)[1..] == line[1..] + "\n" + rest;
      NewlineAfter(line[1..], rest);
    }
  }

  /** The number of writes that succeed before one fails, out of n attempted. */
  function WritesDone(fs: FileSystem, n: nat): (done: nat)
    ensures done <= n
    ensures done < n <==> fs.failingWrite.Some? && fs.failingWrite.value < n
  {
    match fs.failingWrite
    case Some(k) => if k < n then k else n
    case None => n
  }

  /**
    `create_temp_file`: `written` is what the file holds when it returns
    ("" if it was never created). A failure to create or to write is returned
    and stops all further writes; otherwise the path of the file is returned.
   */
  method CreateTempFile(fs: FileSystem, videoInfo: seq<string>, audioInfo: seq<string>)
    returns (res: Result<string, IoError>, written: string)
    ensures !fs.canCreate ==> res == Err(CreateFailed) && written == ""
    ensures fs.canCreate ==>
      var entries := videoInfo + audioInfo;
      var done := WritesDone(fs, |entries|);
      written == Report(entries[..done]) &&
      res == (if done < |entries| then Err(WriteFailed) else Ok(JoinPath(fs.tempDir, ReportFileName)))
  {
    var tempFilePath := JoinPath(fs.tempDir, ReportFileName);
    written := "";
    if !fs.canCreate {
      return Err(CreateFailed), written;
    }
    ghost var entries := videoInfo + audioInfo;
    var i := 0;
    while i < |videoInfo|
      invariant 0 <= i <= |videoInfo|
      invariant written == Report(videoInfo[..i])
      invariant fs.failingWrite.Some? ==> fs.failingWrite.value >= i
    {
      if fs.failingWrite == Some(i) {
        assert entries[..i] == videoInfo[..i];
        return Err(WriteFailed), written;
      }
      ReportAppend(videoInfo[..i], videoInfo[i]);
      assert videoInfo[..i + 1] == videoInfo[..i] + [videoInfo[i]];
      written := written + videoInfo[i] + "\n";
      i := i + 1;
    }
    assert videoInfo[..i] == videoInfo;
    var j := 0;
    while j < |audioInfo|
      invariant 0 <= j <= |audioInfo|
      invariant written == Report(videoInfo) + Report(audioInfo[..j])
      invariant fs.failingWrite.Some? ==> fs.failingWrite.value >= |videoInfo| + j
    {
      if fs.failingWrite == Some(|videoInfo| + j) {
        assert entries[..|videoInfo| + j] == videoInfo + audioInfo[..j];
        ReportConcat(videoInfo, audioInfo[..j]);
        return Err(WriteFailed), written;
      }
      ReportAppend(audioInfo[..j], audioInfo[j]);
      assert audioInfo[..j + 1] == audioInfo[..j] + [audioInfo[j]];
      written := written + audioInfo[j] + "\n";
      j := j + 1;
    }
    assert audioInfo[..j] == audioInfo;
    assert entries[..|entries|] == entries;
    ReportConcat(videoInfo, audioInfo);
    res := Ok(tempFilePath);
  }
}
