/**
  ReadLog: read a log file line by line and keep the lines from a given 1-based line
  number on, together with the number of lines read. The file is given as the sequence
  of lines its scanner yields.
 */
module Shell {

  /** The lines of `lines`, numbered from `first`, whose number is at least `lineNumber`, in order. */
  function KeptLines(lines: seq<string>, lineNumber: int, first: int): seq<string>
    decreases |lines|
  {
    if lines == [] then []
    else (if first >= lineNumber then [lines[0]] else []) + KeptLines(lines[1..], lineNumber, first + 1)
  }

  /** Keeping lines of a longer file: the last line is kept exactly when its number reaches `lineNumber`. */
  lemma {:induction false} KeptLinesSnoc(lines: seq<string>, line: string, lineNumber: int, first: int)
    ensures KeptLines(lines + [line], lineNumber, first)
         == KeptLines(lines, lineNumber, first) + (if first + |lines| >= lineNumber then [line] else [])
    decreases |lines|
  {
    if lines == [] {
      assert lines + [line] == [line];
    } else {
      assert (lines + [line])[1..] == lines[1..] + [line];
      KeptLinesSnoc(lines[1..], line, lineNumber, first + 1);
    }
  }

  /** The kept lines are the suffix of the file that starts at line max(lineNumber, first). */
  lemma {:induction false} KeptLinesIsSuffix(lines: seq<string>, lineNumber: int, first: int)
    ensures var skip := if lineNumber <= first then 0
                        else if lineNumber - first > |lines| then |lines|
                        else lineNumber - first;
            KeptLines(lines, lineNumber, first) == lines[skip..]
    decreases |lines|
  {
    if lines != [] {
      KeptLinesIsSuffix(lines[1..], lineNumber, first + 1);
      if lineNumber <= first {
        assert lines == [lines[0]] + lines[1..];
      }
    }
  }

  method ReadLog(fileLines: seq<string>, lineNumber: int) returns (lines: seq<string>, count: int)
    ensures lines == KeptLines(fileLines, lineNumber, 1)
    ensures count == |fileLines|
    ensures lineNumber <= 1 ==> lines == fileLines
    ensures lineNumber > |fileLines| ==> lines == []
    ensures |lines| == if lineNumber <= 1 then |fileLines|
                       else if lineNumber > |fileLines| then 0
                       else |fileLines| - lineNumber + 1
  {
    var lineCount := 1;
    lines := [];
    var i := 0;
    while i < |fileLines|
      invariant 0 <= i <= |fileLines|
      invariant lineCount - 1 == i
      invariant lines == KeptLines(fileLines[..i], lineNumber, 1)
      invariant |lines| == if lineNumber <= 1 then i
                           else if lineNumber > i then 0
                           else i - lineNumber + 1
    {
      KeptLinesSnoc(fileLines[..i], fileLines[i], lineNumber, 1);
      assert fileLines[..i + 1] == fileLines[..i] + [fileLines[i]];
      if lineCount >= lineNumber {
        lines := lines + [fileLines[i]];
      }
      lineCount := lineCount + 1;
      i := i + 1;
    }
    assert fileLines[..i] == fileLines;
    count := lineCount - 1;
    KeptLinesIsSuffix(fileLines, lineNumber, 1);
  }
}
