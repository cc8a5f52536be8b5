/** Java's `BufferedReader.readLine` over the whole content of a file, and
    the '\n'-terminated lines the writers emit. */
module Lines {
  /** A line ends at '\n', at '\r', or at "\r\n". */
  predicate IsLineBreak(c: char) {
    c == '\n' || c == '\r'
  }

  predicate NoBreak(s: string) {
    forall i :: 0 <= i < |s| ==> !IsLineBreak(s[i])
  }

  /** A string has no line break when neither break character occurs in it. */
  lemma NoBreakIff(s: string)
    ensures NoBreak(s) <==> '\n' !in s && '\r' !in s
  {
    if !NoBreak(s) {
      var i :| 0 <= i < |s| && IsLineBreak(s[i]);
      assert s[i] in s;
    }
  }

  /** The index of the first line break, or the length when there is none. */
  function LineEnd(s: string): (k: nat)
    ensures k <= |s|
    ensures k < |s| ==> IsLineBreak(s[k])
    ensures forall i :: 0 <= i < k ==> !IsLineBreak(s[i])
  {
    if s == [] then 0 else if IsLineBreak(s[0]) then 0 else 1 + LineEnd(s[1..])
  }

  /** The lines `readLine` returns in turn before it returns null: a final
      line without a terminator still counts, an empty content has none. */
  function ReadLines(content: string): seq<string>
    decreases |content|
  {
    if content == [] then []
    else
      var k := LineEnd(content);
      if k == |content| then [content]
      else
        var next := if content[k] == '\r' && k + 1 < |content| && content[k + 1] == '\n' then k + 2 else k + 1;
        [content[..k]] + ReadLines(content[next..])
  }

  /** The rows the readers loop over: the first line is read and dropped. */
  function DataRows(content: string): (rows: seq<string>)
    ensures |rows| == if ReadLines(content) == [] then 0 else |ReadLines(content)| - 1
  {
    var lines := ReadLines(content);
    if lines == [] then [] else lines[1..]
  }

  /** Each line followed by '\n'. */
  function Terminated(lines: seq<string>): string {
    if lines == [] then "" else lines[0] + "\n" + Terminated(lines[1..])
  }

  /** Terminating one more line appends it and its '\n'. */
  lemma {:induction false} TerminatedSnoc(lines: seq<string>, x: string)
    ensures Terminated(lines + [x]) == Terminated(lines) + x + "\n"
    decreases |lines|
  {
    if lines == [] {
      assert [x][1..] == [];
    } else {
      assert (lines + [x])[1..] == lines[1..] + [x];
      TerminatedSnoc(lines[1..], x);
    }
  }

  /** A line without breaks ends where its '\n' is. */
  lemma {:induction false} LineEndAt(a: string, b: string)
    requires NoBreak(a)
    ensures LineEnd(a + "\n" + b) == |a|
    decreases |a|
  {
    if a != [] {
      assert (a + "\n" + b)[1..] == a[1..] + "\n" + b;
      LineEndAt(a[1..], b);
    }
  }

  /** Reading a line without breaks and its '\n' gives that line first. */
  lemma ReadLinesCons(a: string, rest: string)
    requires NoBreak(a)
    ensures ReadLines(a + "\n" + rest) == [a] + ReadLines(rest)
  {
    var content := a + "\n" + rest;
    LineEndAt(a, rest);
    assert content[|a|] == '\n';
    assert content[..|a|] == a;
    assert content[|a| + 1..] == rest;
  }

  /** Reading back lines without breaks, each followed by '\n', gives the
      lines themselves. */
  lemma {:induction false} ReadTerminated(lines: seq<string>)
    requires forall i :: 0 <= i < |lines| ==> NoBreak(lines[i])
    ensures ReadLines(Terminated(lines)) == lines
    decreases |lines|
  {
    if lines != [] {
      ReadLinesCons(lines[0], Terminated(lines[1..]));
      ReadTerminated(lines[1..]);
    }
  }

  /** The rows after a header line come back the same way. */
  lemma DataRowsTerminated(header: string, rows: seq<string>)
    requires NoBreak(header)
    requires forall i :: 0 <= i < |rows| ==> NoBreak(rows[i])
    ensures ReadLines(Terminated([header] + rows)) == [header] + rows
    ensures DataRows(Terminated([header] + rows)) == rows
  {
    var lines := [header] + rows;
    forall i | 0 <= i < |lines| ensures NoBreak(lines[i]) {
      if i > 0 {
        assert lines[i] == rows[i - 1];
      }
    }
    ReadTerminated(lines);
    assert lines[1..] == rows;
  }
}
