/** Following a log: no line is lost or shown twice between the history and the tails after it. */
module LogFollowing {
  import opened Wrappers
  import opened LogLines
  import opened LogHistory

  /** The text ends where a line ends. */
  predicate Complete(s: Bytes) {
    s == [] || EndsInNewline(s)
  }

  lemma ConcatLines(first: seq<Bytes>, second: seq<Bytes>)
    ensures Concat(first + second) == Concat(first) + Concat(second)
    decreases |second|
  {
    if second == [] {
      assert first + second == first;
    } else {
      var init, last := second[..|second| - 1], second[|second| - 1];
      ConcatLines(first, init);
      assert (first + second)[..|first + second| - 1] == first + init && (first + second)[|first + second| - 1] == last;
      assert Concat(first) + (Concat(init) + last) == Concat(first) + Concat(init) + last;
    }
  }

  lemma LinesOfBoth(s: Bytes, t: Bytes)
    requires Complete(s)
    ensures Lines(s + t) == Lines(s) + Lines(t)
  {
    LinesAreLines(s);
    LinesAreLines(t);
    BothAreLines(Lines(s), Lines(t));
    ConcatLines(Lines(s), Lines(t));
    LinesAreUnique(Lines(s) + Lines(t));
  }

  lemma BothAreLines(first: seq<Bytes>, second: seq<Bytes>)
    requires AreLines(first) && AreLines(second) && (first != [] ==> EndsInNewline(first[|first| - 1]))
    ensures AreLines(first + second)
  {
    var both := first + second;
    forall i | 0 <= i < |both| - 1 ensures EndsInNewline(both[i]) {
      if i >= |first| { assert both[i] == second[i - |first|]; }
    }
  }

  lemma AllReadConcat(first: seq<Bytes>, second: seq<Bytes>)
    ensures AllRead(first + second) == AllRead(first) + AllRead(second)
  {}

  /** What the tails show of one file that grows by each of the texts, starting with the position at its end. */
  function Shown(file: Bytes, appended: seq<Bytes>): seq<Bytes>
    decreases |appended|
  {
    if appended == [] then []
    else NewLines(Some(file + appended[0]), |file|) + Shown(file + appended[0], appended[1..])
  }

  /** All that was appended. */
  function Joined(appended: seq<Bytes>): Bytes
    decreases |appended|
  {
    if appended == [] then [] else appended[0] + Joined(appended[1..])
  }

  lemma NewLinesAre(file: Bytes, more: Bytes)
    ensures NewLines(Some(file + more), |file|) == AllRead(Lines(more))
  {
    assert (file + more)[|file|..] == more;
  }

  /** As long as whole lines are appended, the tails show each of them once, in order, however they are spread over the tails. */
  lemma {:induction false} EachLineIsShownOnce(file: Bytes, appended: seq<Bytes>)
    requires forall i :: 0 <= i < |appended| ==> Complete(appended[i])
    ensures Shown(file, appended) == AllRead(Lines(Joined(appended)))
    decreases |appended|
  {
    if appended != [] {
      NewLinesAre(file, appended[0]);
      EachLineIsShownOnce(file + appended[0], appended[1..]);
      LinesOfBoth(appended[0], Joined(appended[1..]));
      AllReadConcat(Lines(appended[0]), Lines(Joined(appended[1..])));
    }
  }

  lemma OneLine(line: Bytes)
    requires IsLine(line)
    ensures AllRead(Lines(line)) == [LineRead(line)]
  {
    LastLineIs([], line);
    assert [] + line == line && line[0..] == line;
    assert [line][..0] == [] && AllRead([line][..0]) == [];
    assert Lines(line) == [line];
  }

  /** A line that is seen half written is shown in two pieces. */
  lemma HalfLinesAreSplit(file: Bytes, first: Bytes, second: Bytes)
    requires first != [] && NEWLINE !in first && IsLine(second)
    ensures NewLines(Some(file + first), |file|) == [first]
    ensures NewLines(Some(file + first + second), |file + first|) == [LineRead(second)]
    ensures NewLines(Some(file + (first + second)), |file|) == [LineRead(first + second)]
  {
    NewLinesAre(file, first);
    NewLinesAre(file + first, second);
    NewLinesAre(file, first + second);
    forall i | 0 <= i < |first| - 1 ensures first[i] != NEWLINE { assert first[i] in first; }
    OneLine(first);
    assert first[|first| - 1] in first;
    OneLine(second);
    forall i | 0 <= i < |first + second| - 1 ensures (first + second)[i] != NEWLINE {
      if i < |first| { assert first[i] in first; } else { assert (first + second)[i] == second[i - |first|]; }
    }
    OneLine(first + second);
  }

  /** The text a line reader yields: all but the end of the line, which is a newline or a carriage return and a newline. */
  lemma LineReadIs(line: Bytes)
    requires IsLine(line)
    ensures var text := LineRead(line);
            && NEWLINE !in text
            && (line == text
                || (line == text + [NEWLINE] && !(text != [] && text[|text| - 1] == CARRIAGE_RETURN))
                || line == text + [CARRIAGE_RETURN, NEWLINE])
  {
    var text := LineRead(line);
    if EndsInNewline(line) {
      assert line == line[..|line| - 1] + [NEWLINE];
      if text != line[..|line| - 1] { assert line[..|line| - 1] == text + [CARRIAGE_RETURN]; }
    }
  }

  /** A file that has become shorter is shown again from the beginning. */
  lemma ShorterFileIsShownAgain(contents: Bytes, pos: nat)
    requires pos > |contents|
    ensures NewLines(Some(contents), pos) == AllRead(Lines(contents))
  {
    assert contents[0..] == contents;
  }

  /** After the history has been read, a tail of the same files shows nothing, and then only what is appended. */
  lemma HistoryIsNotRepeated(file: TailedFile, contents: Bytes, more: Bytes)
    ensures NewLines(Some(contents), AfterReading(file, Some(contents)).pos) == []
    ensures NewLines(Some(contents + more), AfterReading(file, Some(contents)).pos) == AllRead(Lines(more))
  {
    NewLinesAre(contents, []);
    NewLinesAre(contents, more);
    assert contents + [] == contents;
  }

  /** The history is read from the given position on: of a file that has grown only the new lines, of one replaced all. */
  lemma HistoryStartsAtPosition(earlier: Bytes, more: Bytes, starts: seq<nat>, index: nat)
    requires index < |starts|
    ensures starts[index] == |earlier| ==> RegionLines(Some(earlier + more), starts, index) == AllAsText(Lines(more))
    ensures starts[index] > |earlier + more| ==> RegionLines(Some(earlier + more), starts, index) == AllAsText(Lines(earlier + more))
    ensures RegionLines(Some(earlier), [], index) == [] && RegionLines(None, starts, index) == []
  {
    assert (earlier + more)[|earlier|..] == more && (earlier + more)[0..] == earlier + more;
    assert earlier[|earlier|..] == [];
  }
}
