/** Physical lines of a log file, and the two backward scans that find its last ones. */
module LogLines {
  import opened Wrappers

  const CARRIAGE_RETURN: byte := 13

  function LastN<T>(s: seq<T>, n: nat): (last: seq<T>)
    ensures |last| == Min(n, |s|)
  {
    s[|s| - Min(n, |s|)..]
  }

  function Concat(lines: seq<Bytes>): Bytes {
    if lines == [] then [] else Concat(lines[..|lines| - 1]) + lines[|lines| - 1]
  }

  // ----- Physical lines -----

  /** The position just after the last newline before `end`, or the beginning. */
  function AfterNewline(s: Bytes, end: nat): (start: nat)
    requires end <= |s|
    ensures start <= end
  {
    if end == 0 || s[end - 1] == NEWLINE then end else AfterNewline(s, end - 1)
  }

  /** Where the last physical line begins; the newline that ends it does not count. */
  function LastLineStart(s: Bytes): (start: nat)
    requires s != []
    ensures start < |s|
  {
    AfterNewline(s, |s| - 1)
  }

  function Lines(s: Bytes): seq<Bytes>
    decreases |s|
  {
    if s == [] then [] else Lines(s[..LastLineStart(s)]) + [s[LastLineStart(s)..]]
  }

  /** What makes a sequence of byte strings the physical lines of a text: only a line's last byte is a newline, and every
      line but the last has one. */
  predicate IsLine(line: Bytes) {
    line != [] && forall i :: 0 <= i < |line| - 1 ==> line[i] != NEWLINE
  }

  predicate EndsInNewline(line: Bytes) {
    line != [] && line[|line| - 1] == NEWLINE
  }

  ghost predicate AreLines(lines: seq<Bytes>) {
    && (forall i :: 0 <= i < |lines| ==> IsLine(lines[i]))
    && (forall i :: 0 <= i < |lines| - 1 ==> EndsInNewline(lines[i]))
  }

  lemma {:induction false} AfterNewlineFinds(s: Bytes, end: nat)
    requires end <= |s|
    ensures var start := AfterNewline(s, end);
            (start > 0 ==> s[start - 1] == NEWLINE) && forall i :: start <= i < end ==> s[i] != NEWLINE
  {
    if end > 0 && s[end - 1] != NEWLINE { AfterNewlineFinds(s, end - 1); }
  }

  lemma LastLineIsLine(s: Bytes)
    requires s != []
    ensures IsLine(s[LastLineStart(s)..])
    ensures LastLineStart(s) > 0 ==> EndsInNewline(s[..LastLineStart(s)])
    ensures EndsInNewline(s) ==> EndsInNewline(s[LastLineStart(s)..])
  {
    var k := LastLineStart(s);
    AfterNewlineFinds(s, |s| - 1);
    forall i | 0 <= i < |s[k..]| - 1 ensures s[k..][i] != NEWLINE { assert s[k..][i] == s[k + i]; }
  }

  lemma OneMoreLine(lines: seq<Bytes>, line: Bytes)
    requires AreLines(lines) && IsLine(line) && (lines != [] ==> EndsInNewline(lines[|lines| - 1]))
    ensures AreLines(lines + [line])
  {}

  lemma ConcatOneMore(lines: seq<Bytes>, line: Bytes)
    ensures Concat(lines + [line]) == Concat(lines) + line
  {
    assert (lines + [line])[..|lines|] == lines;
  }

  lemma LinesOneMore(s: Bytes)
    requires s != []
    ensures Lines(s) == Lines(s[..LastLineStart(s)]) + [s[LastLineStart(s)..]]
  {}

  /** What holds of the lines of a text. */
  ghost predicate CutInto(s: Bytes, lines: seq<Bytes>) {
    && AreLines(lines) && Concat(lines) == s && (s != [] ==> lines != [])
    && (EndsInNewline(s) && lines != [] ==> EndsInNewline(lines[|lines| - 1]))
  }

  lemma CutOneMore(before: Bytes, lines: seq<Bytes>, line: Bytes)
    requires CutInto(before, lines) && IsLine(line) && (before != [] ==> EndsInNewline(before))
    ensures CutInto(before + line, lines + [line])
  {
    if lines != [] && before == [] { ConcatNotEmpty(lines); }
    OneMoreLine(lines, line);
    ConcatOneMore(lines, line);
    if EndsInNewline(before + line) { assert (before + line)[|before + line| - 1] == line[|line| - 1]; }
  }

  lemma ConcatNotEmpty(lines: seq<Bytes>)
    requires lines != [] && AreLines(lines)
    ensures Concat(lines) != []
  {
    assert IsLine(lines[|lines| - 1]);
  }

  lemma CutLast(s: Bytes, start: nat, init: seq<Bytes>)
    requires start < |s| && CutInto(s[..start], init) && IsLine(s[start..]) && (start > 0 ==> EndsInNewline(s[..start]))
    ensures CutInto(s, init + [s[start..]])
  {
    CutOneMore(s[..start], init, s[start..]);
    assert s[..start] + s[start..] == s;
  }

  lemma {:induction false} LinesAreCut(s: Bytes)
    ensures CutInto(s, Lines(s))
    decreases |s|
  {
    if s != [] {
      var start := LastLineStart(s);
      LastLineIsLine(s);
      LinesAreCut(s[..start]);
      CutLast(s, start, Lines(s[..start]));
      LinesOneMore(s);
    }
  }

  /** The lines of a text are lines, and together they are the text. */
  lemma LinesAreLines(s: Bytes)
    ensures AreLines(Lines(s)) && Concat(Lines(s)) == s && (s != [] ==> Lines(s) != [])
    ensures EndsInNewline(s) ==> EndsInNewline(Lines(s)[|Lines(s)| - 1])
  {
    LinesAreCut(s);
  }

  lemma {:induction false} AfterNewlineIs(s: Bytes, end: nat, start: nat)
    requires start <= end <= |s| && (start > 0 ==> s[start - 1] == NEWLINE)
    requires forall i :: start <= i < end ==> s[i] != NEWLINE
    ensures AfterNewline(s, end) == start
  {
    if start < end { AfterNewlineIs(s, end - 1, start); }
  }

  /** Behind a newline, or at the beginning, a line is cut off as the last one. */
  lemma LastLineIs(before: Bytes, line: Bytes)
    requires IsLine(line) && (before != [] ==> EndsInNewline(before))
    ensures LastLineStart(before + line) == |before|
  {
    var s := before + line;
    forall i | |before| <= i < |s| - 1 ensures s[i] != NEWLINE { assert s[i] == line[i - |before|]; }
    AfterNewlineIs(s, |s| - 1, |before|);
  }

  /** There is only one way to cut a text into lines. */
  lemma {:induction false} LinesAreUnique(lines: seq<Bytes>)
    requires AreLines(lines)
    ensures Lines(Concat(lines)) == lines
    ensures lines != [] && EndsInNewline(lines[|lines| - 1]) ==> EndsInNewline(Concat(lines))
  {
    if lines != [] {
      var init, last := lines[..|lines| - 1], lines[|lines| - 1];
      LinesAreUnique(init);
      if init != [] { assert EndsInNewline(lines[|init| - 1]); }
      LastLineIs(Concat(init), last);
      var s := Concat(init) + last;
      assert s[..|Concat(init)|] == Concat(init) && s[|Concat(init)|..] == last;
      assert lines == init + [last];
    }
  }

  // ----- Pruning -----

  /** Where the last `count` physical lines begin. */
  function TailPosition(s: Bytes, count: nat): (start: nat)
    requires count > 0
    ensures start <= |s|
    decreases |s|
  {
    if s == [] then 0
    else if count == 1 || LastLineStart(s) == 0 then LastLineStart(s)
    else TailPosition(s[..LastLineStart(s)], count - 1)
  }

  /** The file without all but its last lines. */
  function Pruned(s: Bytes, maxLines: nat): Bytes {
    if maxLines == 0 then [] else s[TailPosition(s, maxLines)..]
  }

  lemma {:induction false} LinesEmpty(s: Bytes)
    ensures |Lines(s)| == 0 <==> s == []
  {}

  lemma {:induction false} PrunedKeepsLastLines(s: Bytes, maxLines: nat)
    ensures Pruned(s, maxLines) == Concat(LastN(Lines(s), maxLines))
    decreases |s|
  {
    if maxLines > 0 && s != [] {
      var k := LastLineStart(s);
      var init, last := Lines(s[..k]), s[k..];
      assert Lines(s) == init + [last];
      LinesEmpty(s[..k]);
      if maxLines == 1 || k == 0 {
        assert LastN(Lines(s), maxLines) == [last];
        assert [last][..0] == [];
        assert Concat([last]) == [] + last;
        assert [] + last == last;
      } else {
        PrunedKeepsLastLines(s[..k], maxLines - 1);
        var tail := LastN(Lines(s), maxLines);
        assert tail == LastN(init, maxLines - 1) + [last];
        assert tail[..|tail| - 1] == LastN(init, maxLines - 1);
        assert s[TailPosition(s[..k], maxLines - 1)..] == s[..k][TailPosition(s[..k], maxLines - 1)..] + last;
      }
    }
  }

  lemma LastLinesAreLines(lines: seq<Bytes>, count: nat)
    requires AreLines(lines)
    ensures AreLines(LastN(lines, count))
  {
    var skipped := |lines| - Min(count, |lines|);
    forall i | 0 <= i < |lines| - skipped ensures LastN(lines, count)[i] == lines[skipped + i] {}
  }

  lemma LastOfLast<T>(s: seq<T>, first: nat, second: nat)
    ensures LastN(LastN(s, first), second) == LastN(s, Min(first, second))
  {}

  /** Pruning twice is pruning to the smaller limit. */
  lemma PruningTwice(s: Bytes, first: nat, second: nat)
    ensures Pruned(Pruned(s, first), second) == Pruned(s, Min(first, second))
  {
    LinesAreLines(s);
    LastLinesAreLines(Lines(s), first);
    PrunedKeepsLastLines(s, first);
    LinesAreUnique(LastN(Lines(s), first));
    PrunedKeepsLastLines(Pruned(s, first), second);
    PrunedKeepsLastLines(s, Min(first, second));
    LastOfLast(Lines(s), first, second);
  }

  /** Scanning backwards from `pos`, the position after the `count`-th newline from there, or the beginning. */
  function BackTo(s: Bytes, pos: nat, count: nat): nat
    requires count > 0 && pos <= |s|
    decreases pos
  {
    if pos == 0 then 0
    else if s[pos - 1] != NEWLINE then BackTo(s, pos - 1, count)
    else if count == 1 then pos
    else BackTo(s, pos - 1, count - 1)
  }

  lemma {:induction false} BackToAfterNewline(s: Bytes, pos: nat, count: nat)
    requires count > 0 && pos <= |s|
    ensures var start := AfterNewline(s, pos);
            BackTo(s, pos, count) == if start == 0 then 0 else if count == 1 then start else BackTo(s, start - 1, count - 1)
    decreases pos
  {
    AfterNewlineFinds(s, pos);
    if pos > 0 && s[pos - 1] != NEWLINE { BackToAfterNewline(s, pos - 1, count); }
  }

  lemma {:induction false} BackToPrefix(s: Bytes, k: nat, pos: nat, count: nat)
    requires count > 0 && pos <= k <= |s|
    ensures BackTo(s[..k], pos, count) == BackTo(s, pos, count)
    decreases pos
  {
    if pos > 0 {
      if s[pos - 1] != NEWLINE {
        BackToPrefix(s, k, pos - 1, count);
      } else if count > 1 {
        BackToPrefix(s, k, pos - 1, count - 1);
      }
    }
  }

  lemma {:induction false} BackToIsTailPosition(s: Bytes, count: nat)
    requires count > 0 && s != []
    ensures BackTo(s, |s| - 1, count) == TailPosition(s, count)
    decreases |s|
  {
    BackToAfterNewline(s, |s| - 1, count);
    var k := LastLineStart(s);
    if count > 1 && k > 0 {
      BackToIsTailPosition(s[..k], count - 1);
      BackToPrefix(s, k, k - 1, count - 1);
    }
  }

  /** The newlines the backward scan still has to find, counted from `pos`; the last byte of the file is passed over. */
  function Remaining(s: Bytes, pos: nat, count: nat): nat
    requires count > 0 && pos <= |s|
  {
    if pos == |s| && pos > 0 then BackTo(s, pos - 1, count) else BackTo(s, pos, count)
  }

  /** Reads the file backwards, one chunk at a time. */
  method TailStart(file: Bytes, chunkSize: nat, maxLines: nat) returns (start: nat)
    requires chunkSize > 0 && maxLines > 0
    ensures start == TailPosition(file, maxLines)
  {
    if file != [] { BackToIsTailPosition(file, maxLines); }
    var cursor := |file|;
    var newlineCount := 0;
    while cursor > 0
      invariant 0 <= cursor <= |file| && 0 <= newlineCount < maxLines
      invariant Remaining(file, cursor, maxLines - newlineCount) == TailPosition(file, maxLines)
    {
      var chunkStart := if cursor < chunkSize then 0 else cursor - chunkSize;
      var chunk := file[chunkStart..cursor];
      var index := |chunk|;
      while index > 0
        invariant 0 <= index <= |chunk| && 0 <= newlineCount < maxLines
        invariant Remaining(file, chunkStart + index, maxLines - newlineCount) == TailPosition(file, maxLines)
      {
        index := index - 1;
        var position := chunkStart + index;
        assert chunk[index] == file[position];
        if chunk[index] == NEWLINE && position != |file| - 1 {
          newlineCount := newlineCount + 1;
          if newlineCount == maxLines { return position + 1; }
        }
      }
      cursor := chunkStart;
    }
    return 0;
  }

  class LogFile {
    /** Nothing when the file does not exist. */
    var contents: Option<Bytes>

    method PruneToLines(maxLines: nat, chunkSize: nat)
      requires chunkSize > 0
      modifies this
      ensures old(contents).None? ==> contents == None
      ensures old(contents).Some? ==> contents == Some(Pruned(old(contents).value, maxLines))
    {
      if contents.None? { return; }
      var file := contents.value;
      if maxLines == 0 {
        contents := Some([]);
        return;
      }
      var start := TailStart(file, chunkSize, maxLines);
      if start == 0 { return; }
      contents := Some(file[start..]);
    }
  }

  // ----- Reading the last lines of a region -----

  function TrimEnd(line: Bytes): Bytes {
    if line != [] && line[|line| - 1] == CARRIAGE_RETURN then TrimEnd(line[..|line| - 1]) else line
  }

  /** A line as text: without its newline and without any carriage returns at its end. */
  function AsText(line: Bytes): Bytes {
    TrimEnd(if EndsInNewline(line) then line[..|line| - 1] else line)
  }

  /** Of the line itself nothing but carriage returns and the newline is cut off, and no carriage return is left. */
  lemma {:induction false} TrimEndIs(line: Bytes)
    ensures TrimEnd(line) <= line && forall i :: |TrimEnd(line)| <= i < |line| ==> line[i] == CARRIAGE_RETURN
    ensures TrimEnd(line) != [] ==> TrimEnd(line)[|TrimEnd(line)| - 1] != CARRIAGE_RETURN
  {
    if line != [] && line[|line| - 1] == CARRIAGE_RETURN { TrimEndIs(line[..|line| - 1]); }
  }

  lemma AsTextIs(line: Bytes)
    requires IsLine(line)
    ensures var text := AsText(line);
            && text <= line && NEWLINE !in text && (text != [] ==> text[|text| - 1] != CARRIAGE_RETURN)
            && forall i :: |text| <= i < |line| ==> line[i] == CARRIAGE_RETURN || (line[i] == NEWLINE && i == |line| - 1)
  {
    TrimEndIs(if EndsInNewline(line) then line[..|line| - 1] else line);
  }

  function AllAsText(lines: seq<Bytes>): (texts: seq<Bytes>)
    ensures |texts| == |lines| && forall i :: 0 <= i < |lines| ==> texts[i] == AsText(lines[i])
  {
    if lines == [] then [] else AllAsText(lines[..|lines| - 1]) + [AsText(lines[|lines| - 1])]
  }

  function CountNewlines(s: Bytes): nat {
    if s == [] then 0 else CountNewlines(s[1..]) + if s[0] == NEWLINE then 1 else 0
  }

  lemma {:induction false} CountConcat(s: Bytes, t: Bytes)
    ensures CountNewlines(s + t) == CountNewlines(s) + CountNewlines(t)
  {
    if s == [] {
      assert s + t == t;
    } else {
      assert (s + t)[1..] == s[1..] + t;
      CountConcat(s[1..], t);
    }
  }

  lemma {:induction false} NoNewlines(s: Bytes)
    requires forall i :: 0 <= i < |s| ==> s[i] != NEWLINE
    ensures CountNewlines(s) == 0
  {
    if s != [] { NoNewlines(s[1..]); }
  }

  lemma CountLastLine(s: Bytes, k: nat, n: nat)
    requires k <= n && |s| == n + 1 && forall i :: k <= i < n ==> s[i] != NEWLINE
    ensures CountNewlines(s) <= CountNewlines(s[..k]) + 1
  {
    assert s == s[..k] + (s[k..n] + [s[n]]);
    CountConcat(s[..k], s[k..n] + [s[n]]);
    CountConcat(s[k..n], [s[n]]);
    NoNewlines(s[k..n]);
    assert [s[n]][1..] == [];
  }

  /** A text has at least as many lines as newlines. */
  lemma {:induction false} NewlinesAreLines(s: Bytes)
    ensures CountNewlines(s) <= |Lines(s)|
    decreases |s|
  {
    if s != [] {
      var k := LastLineStart(s);
      AfterNewlineFinds(s, |s| - 1);
      NewlinesAreLines(s[..k]);
      CountLastLine(s, k, |s| - 1);
    }
  }

  lemma {:induction false} AfterNewlineBehind(s: Bytes, t: Bytes, end: nat)
    requires end <= |t| && AfterNewline(t, end) > 0
    ensures AfterNewline(s + t, |s| + end) == |s| + AfterNewline(t, end)
  {
    if t[end - 1] != NEWLINE { AfterNewlineBehind(s, t, end - 1); }
  }

  lemma LastLineBehind(s: Bytes, t: Bytes)
    requires t != [] && LastLineStart(t) > 0
    ensures var k := LastLineStart(t); Lines(s + t) == Lines(s + t[..k]) + [t[k..]]
  {
    var k := LastLineStart(t);
    AfterNewlineBehind(s, t, |t| - 1);
    assert (s + t)[..|s| + k] == s + t[..k] && (s + t)[|s| + k..] == t[k..];
  }

  /** Whatever comes before, all lines of a text but its first stay the same. */
  lemma {:induction false} LaterLinesStay(s: Bytes, t: Bytes, count: nat)
    requires count < |Lines(t)|
    ensures LastN(Lines(s + t), count) == LastN(Lines(t), count)
    decreases |t|
  {
    if count > 0 {
      var k := LastLineStart(t);
      LinesEmpty(t[..k]);
      LastLineBehind(s, t);
      LaterLinesStay(s, t[..k], count - 1);
      LastOfOneMore(Lines(s + t[..k]), t[k..], count);
      LastOfOneMore(Lines(t[..k]), t[k..], count);
    }
  }

  lemma LastOfOneMore<T>(s: seq<T>, x: T, count: nat)
    requires count > 0
    ensures LastN(s + [x], count) == LastN(s, count - 1) + [x]
  {}

  /** The chunks in reverse order, joined. */
  function JoinedBackwards(chunks: seq<Bytes>): Bytes {
    if chunks == [] then [] else chunks[|chunks| - 1] + JoinedBackwards(chunks[..|chunks| - 1])
  }

  lemma Adjacent(file: Bytes, from: nat, cursor: nat, end: nat)
    requires from <= cursor <= end <= |file|
    ensures file[from..end] == file[from..cursor] + file[cursor..end]
  {}

  lemma OneMoreChunk(file: Bytes, chunks: seq<Bytes>, from: nat, cursor: nat, end: nat)
    requires from <= cursor <= end <= |file| && JoinedBackwards(chunks) == file[cursor..end]
    ensures JoinedBackwards(chunks + [file[from..cursor]]) == file[from..end]
    ensures CountNewlines(file[from..end]) == CountNewlines(file[from..cursor]) + CountNewlines(file[cursor..end])
  {
    assert (chunks + [file[from..cursor]])[..|chunks|] == chunks;
    Adjacent(file, from, cursor, end);
    CountConcat(file[from..cursor], file[cursor..end]);
  }

  /** Reads backwards from `end` until more newlines than asked for are found; what came before cannot matter. */
  method ReadLastLines(file: Bytes, start: nat, end: nat, limit: nat, chunkSize: nat) returns (lines: seq<Bytes>)
    requires start <= end <= |file| && chunkSize > 0
    ensures lines == LastN(AllAsText(Lines(file[start..end])), limit)
  {
    var cursor := end;
    var newlineCount := 0;
    var chunks := [];
    while cursor > start && newlineCount <= limit
      invariant start <= cursor <= end
      invariant JoinedBackwards(chunks) == file[cursor..end] && newlineCount == CountNewlines(file[cursor..end])
    {
      var chunkStart := if cursor < chunkSize || cursor - chunkSize < start then start else cursor - chunkSize;
      var chunk := file[chunkStart..cursor];
      OneMoreChunk(file, chunks, chunkStart, cursor, end);
      newlineCount := newlineCount + CountNewlines(chunk);
      chunks := chunks + [chunk];
      cursor := chunkStart;
    }
    RegionSuffices(file, start, cursor, end, limit);
    var all := AllAsText(Lines(JoinedBackwards(chunks)));
    lines := LastN(all, limit);
  }

  lemma RegionSuffices(file: Bytes, start: nat, cursor: nat, end: nat, limit: nat)
    requires start <= cursor <= end <= |file|
    requires cursor == start || CountNewlines(file[cursor..end]) > limit
    ensures LastN(AllAsText(Lines(file[cursor..end])), limit) == LastN(AllAsText(Lines(file[start..end])), limit)
  {
    LastLinesSuffice(file[start..cursor], file[cursor..end], limit);
    Adjacent(file, start, cursor, end);
  }

  lemma LastLinesSuffice(before: Bytes, chunks: Bytes, limit: nat)
    requires before == [] || CountNewlines(chunks) > limit
    ensures LastN(AllAsText(Lines(chunks)), limit) == LastN(AllAsText(Lines(before + chunks)), limit)
  {
    if before == [] {
      assert before + chunks == chunks;
    } else {
      NewlinesAreLines(chunks);
      LaterLinesStay(before, chunks, limit);
      LastAsText(Lines(chunks), limit);
      LastAsText(Lines(before + chunks), limit);
    }
  }

  lemma LastAsText(lines: seq<Bytes>, count: nat)
    ensures LastN(AllAsText(lines), count) == AllAsText(LastN(lines, count))
  {}
}
