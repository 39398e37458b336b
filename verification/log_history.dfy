/** The log history: the last lines of several files in the order of their timestamps. */
module LogHistory {
  import opened Wrappers
  import opened LogLines

  /** A formatted line with the time it is sorted by. */
  datatype Entry = Entry(at: int, line: Bytes)

  // ----- A stable sort -----

  /** Before the first entry that is not earlier. */
  function Insert(e: Entry, sorted: seq<Entry>): seq<Entry> {
    if sorted == [] || e.at <= sorted[0].at then [e] + sorted else [sorted[0]] + Insert(e, sorted[1..])
  }

  function StableSort(s: seq<Entry>): seq<Entry> {
    if s == [] then [] else Insert(s[0], StableSort(s[1..]))
  }

  ghost predicate Sorted(s: seq<Entry>) {
    forall i, j :: 0 <= i < j < |s| ==> s[i].at <= s[j].at
  }

  function OnlyAt(s: seq<Entry>, at: int): seq<Entry> {
    if s == [] then [] else if s[0].at == at then [s[0]] + OnlyAt(s[1..], at) else OnlyAt(s[1..], at)
  }

  lemma {:induction false} InsertMembers(e: Entry, s: seq<Entry>)
    ensures multiset(Insert(e, s)) == multiset{e} + multiset(s)
  {
    if !(s == [] || e.at <= s[0].at) {
      InsertMembers(e, s[1..]);
      assert s == [s[0]] + s[1..];
    }
  }

  lemma {:induction false} InsertSorted(e: Entry, s: seq<Entry>)
    requires Sorted(s)
    ensures Sorted(Insert(e, s))
  {
    if !(s == [] || e.at <= s[0].at) {
      InsertSorted(e, s[1..]);
      var rest := Insert(e, s[1..]);
      forall i | 0 <= i < |rest| ensures s[0].at <= rest[i].at {
        InsertMembers(e, s[1..]);
        assert rest[i] in multiset(rest);
      }
    }
  }

  lemma {:induction false} InsertStable(e: Entry, s: seq<Entry>, at: int)
    ensures OnlyAt(Insert(e, s), at) == if e.at == at then [e] + OnlyAt(s, at) else OnlyAt(s, at)
  {
    if s == [] || e.at <= s[0].at {
      assert ([e] + s)[1..] == s;
    } else {
      InsertStable(e, s[1..], at);
      assert ([s[0]] + Insert(e, s[1..]))[1..] == Insert(e, s[1..]);
    }
  }

  /** Sorting rearranges the entries by time and keeps the order of entries with the same time. */
  lemma {:induction false} StableSortIsStable(s: seq<Entry>, at: int)
    ensures Sorted(StableSort(s)) && multiset(StableSort(s)) == multiset(s)
    ensures OnlyAt(StableSort(s), at) == OnlyAt(s, at)
  {
    if s != [] {
      var rest := StableSort(s[1..]);
      StableSortIsStable(s[1..], at);
      InsertMembers(s[0], rest);
      InsertSorted(s[0], rest);
      InsertStable(s[0], rest, at);
      assert s == [s[0]] + s[1..];
    }
  }

  // ----- Leaving out early entries -----

  /** How many of the entries are not earlier. */
  function NotEarlier(s: seq<Entry>, at: int): nat {
    if s == [] then 0 else NotEarlier(s[1..], at) + if s[0].at >= at then 1 else 0
  }

  lemma {:induction false} NotEarlierWithin(s: seq<Entry>, at: int)
    ensures NotEarlier(s, at) <= |s|
  {
    if s != [] { NotEarlierWithin(s[1..], at); }
  }

  lemma {:induction false} InsertNotEarlier(e: Entry, s: seq<Entry>, at: int)
    ensures NotEarlier(Insert(e, s), at) == NotEarlier(s, at) + if e.at >= at then 1 else 0
  {
    if s == [] || e.at <= s[0].at {
      assert ([e] + s)[1..] == s;
    } else {
      InsertNotEarlier(e, s[1..], at);
      assert ([s[0]] + Insert(e, s[1..]))[1..] == Insert(e, s[1..]);
    }
  }

  lemma {:induction false} SortNotEarlier(s: seq<Entry>, at: int)
    ensures NotEarlier(StableSort(s), at) == NotEarlier(s, at)
  {
    if s != [] {
      SortNotEarlier(s[1..], at);
      InsertNotEarlier(s[0], StableSort(s[1..]), at);
    }
  }

  lemma LastOfTail<T>(x: T, s: seq<T>, count: nat)
    requires count <= |s|
    ensures LastN([x] + s, count) == LastN(s, count)
  {}

  /** An entry with enough entries that are not earlier comes before the last ones. */
  lemma {:induction false} InsertedBefore(e: Entry, s: seq<Entry>, count: nat)
    requires NotEarlier(s, e.at) >= count
    ensures LastN(Insert(e, s), count) == LastN(s, count)
  {
    NotEarlierWithin(s, e.at);
    if s == [] || e.at <= s[0].at {
      LastOfTail(e, s, count);
    } else {
      var rest := s[1..];
      InsertedBefore(e, rest, count);
      InsertLength(e, rest);
      NotEarlierWithin(rest, e.at);
      BothBehind(s[0], rest, Insert(e, rest), count);
      assert s == [s[0]] + rest;
    }
  }

  lemma BothBehind<T>(x: T, s: seq<T>, t: seq<T>, count: nat)
    requires LastN(s, count) == LastN(t, count) && count <= |s| && count <= |t|
    ensures LastN([x] + s, count) == LastN([x] + t, count)
  {
    LastOfTail(x, s, count);
    LastOfTail(x, t, count);
  }

  lemma {:induction false} InsertLength(e: Entry, s: seq<Entry>)
    ensures |Insert(e, s)| == |s| + 1
  {
    if s != [] && e.at > s[0].at { InsertLength(e, s[1..]); }
  }

  /** What comes last after inserting depends only on what came last before. */
  lemma {:induction false} InsertLast(e: Entry, s: seq<Entry>, count: nat)
    requires Sorted(s)
    ensures LastN(Insert(e, s), count) == LastN(Insert(e, LastN(s, count)), count)
  {
    if |s| <= count {
      assert LastN(s, count) == s;
    } else {
      var rest := s[1..];
      InsertLength(e, rest);
      InsertLast(e, rest, count);
      assert s == [s[0]] + rest;
      LastOfTail(s[0], rest, count);
      if e.at > s[0].at {
        LastOfTail(s[0], Insert(e, rest), count);
      } else {
        LastOfTail(e, s, count);
        FrontInsert(e, LastN(s, count), count);
      }
    }
  }

  lemma FrontInsert(e: Entry, last: seq<Entry>, count: nat)
    requires |last| == count && (last != [] ==> e.at <= last[0].at)
    ensures LastN(Insert(e, last), count) == last
  {
    LastOfTail(e, last, count);
  }

  /** Leaving out an entry with `count` later ones behind it does not change the last `count` after sorting. */
  lemma {:induction false} LeaveOut(before: seq<Entry>, e: Entry, after: seq<Entry>, count: nat)
    requires NotEarlier(after, e.at) >= count
    ensures LastN(StableSort(before + [e] + after), count) == LastN(StableSort(before + after), count)
  {
    if before == [] {
      assert [] + [e] + after == [e] + after && [] + after == after && ([e] + after)[1..] == after;
      StableSortIsStable(after, 0);
      SortNotEarlier(after, e.at);
      InsertedBefore(e, StableSort(after), count);
    } else {
      var x, rest := before[0], before[1..];
      LeaveOut(rest, e, after, count);
      assert (before + [e] + after)[1..] == rest + [e] + after && (before + after)[1..] == rest + after;
      StableSortIsStable(rest + [e] + after, 0);
      StableSortIsStable(rest + after, 0);
      InsertLast(x, StableSort(rest + [e] + after), count);
      InsertLast(x, StableSort(rest + after), count);
    }
  }

  lemma {:induction false} AllNotEarlier(s: seq<Entry>, more: seq<Entry>, at: int)
    requires forall i :: 0 <= i < |s| ==> s[i].at >= at
    ensures NotEarlier(s + more, at) >= |s|
  {
    if s != [] {
      assert (s + more)[1..] == s[1..] + more;
      AllNotEarlier(s[1..], more, at);
    }
  }

  /** Of a file in order of time only the last entries matter. */
  lemma {:induction false} OnlyLastMatter(before: seq<Entry>, file: seq<Entry>, after: seq<Entry>, count: nat)
    requires Sorted(file)
    ensures LastN(StableSort(before + file + after), count) == LastN(StableSort(before + LastN(file, count) + after), count)
  {
    if |file| <= count {
      assert LastN(file, count) == file;
    } else {
      var rest := file[1..];
      AllNotEarlier(rest, after, file[0].at);
      assert before + file + after == before + [file[0]] + (rest + after);
      LeaveOut(before, file[0], rest + after, count);
      assert before + (rest + after) == before + rest + after;
      OnlyLastMatter(before, rest, after, count);
      assert LastN(rest, count) == LastN(file, count);
    }
  }

  function Flatten(files: seq<seq<Entry>>): seq<Entry> {
    if files == [] then [] else files[0] + Flatten(files[1..])
  }

  function LastOfEach(files: seq<seq<Entry>>, count: nat): seq<seq<Entry>> {
    if files == [] then [] else [LastN(files[0], count)] + LastOfEach(files[1..], count)
  }

  lemma Regroup(a: seq<Entry>, b: seq<Entry>, c: seq<Entry>)
    ensures a + (b + c) == a + b + c
  {}

  lemma FlattenOneMore(file: seq<Entry>, files: seq<seq<Entry>>)
    ensures Flatten([file] + files) == file + Flatten(files)
  {
    assert ([file] + files)[1..] == files;
  }

  /** Merging the tails of files in order of time gives the same last entries as merging the whole files. */
  lemma {:induction false} TailsSuffice(before: seq<Entry>, files: seq<seq<Entry>>, count: nat)
    requires forall i :: 0 <= i < |files| ==> Sorted(files[i])
    ensures LastN(StableSort(before + Flatten(files)), count) == LastN(StableSort(before + Flatten(LastOfEach(files, count))), count)
    decreases |files|
  {
    if files != [] {
      var tail, rest := LastN(files[0], count), files[1..];
      OnlyLastMatter(before, files[0], Flatten(rest), count);
      TailsSuffice(before + tail, rest, count);
      Regroup(before, files[0], Flatten(rest));
      Regroup(before, tail, Flatten(LastOfEach(rest, count)));
      FlattenOneMore(tail, LastOfEach(rest, count));
    }
  }

  // ----- The tailer -----

  datatype TailedFile = TailedFile(tag: nat, pos: nat)

  /** How lines become entries: what counts as blank, and the time and text of a line under a tag. */
  datatype Reader = Reader(blank: Bytes -> bool, format: (Bytes, nat) -> Entry)

  function EntriesOf(reader: Reader, lines: seq<Bytes>, tag: nat): seq<Entry> {
    if lines == [] then []
    else if reader.blank(lines[0]) then EntriesOf(reader, lines[1..], tag)
    else [reader.format(lines[0], tag)] + EntriesOf(reader, lines[1..], tag)
  }

  /** The entries of lines one after the other: one for each line that is not blank. */
  lemma {:induction false} EntriesConcat(reader: Reader, lines: seq<Bytes>, more: seq<Bytes>, tag: nat)
    ensures EntriesOf(reader, lines + more, tag) == EntriesOf(reader, lines, tag) + EntriesOf(reader, more, tag)
  {
    if lines == [] {
      assert lines + more == more;
    } else {
      assert (lines + more)[1..] == lines[1..] + more;
      EntriesConcat(reader, lines[1..], more, tag);
    }
  }

  lemma {:induction false} EntriesIff(reader: Reader, lines: seq<Bytes>, tag: nat, entry: Entry)
    ensures entry in EntriesOf(reader, lines, tag)
            <==> exists line :: line in lines && !reader.blank(line) && entry == reader.format(line, tag)
  {
    if lines != [] {
      EntriesIff(reader, lines[1..], tag, entry);
      assert forall line :: line in lines <==> line == lines[0] || line in lines[1..];
    }
  }

  /** A file shorter than its start position has been replaced and is read from the beginning. */
  function RegionStart(starts: seq<nat>, index: nat, size: nat): (start: nat)
    ensures start <= size
  {
    if index < |starts| then if starts[index] <= size then starts[index] else 0 else size
  }

  /** The lines of the region one file contributes; a file that cannot be opened contributes nothing. */
  function RegionLines(contents: Option<Bytes>, starts: seq<nat>, index: nat): seq<Bytes> {
    match contents
    case None => []
    case Some(file) => AllAsText(Lines(file[RegionStart(starts, index, |file|)..]))
  }

  function TailsFrom(reader: Reader, disk: seq<Option<Bytes>>, files: seq<TailedFile>, starts: seq<nat>, maxLines: nat,
                     index: nat): seq<seq<Entry>>
    requires |disk| == |files| && index <= |disk|
    decreases |disk| - index
  {
    if index == |disk| then []
    else [EntriesOf(reader, LastN(RegionLines(disk[index], starts, index), maxLines), files[index].tag)]
         + TailsFrom(reader, disk, files, starts, maxLines, index + 1)
  }

  function WholesFrom(reader: Reader, disk: seq<Option<Bytes>>, files: seq<TailedFile>, starts: seq<nat>,
                      index: nat): seq<seq<Entry>>
    requires |disk| == |files| && index <= |disk|
    decreases |disk| - index
  {
    if index == |disk| then []
    else [EntriesOf(reader, RegionLines(disk[index], starts, index), files[index].tag)]
         + WholesFrom(reader, disk, files, starts, index + 1)
  }

  function TextOf(entries: seq<Entry>): (lines: seq<Bytes>)
    ensures |lines| == |entries| && forall i :: 0 <= i < |entries| ==> lines[i] == entries[i].line
  {
    if entries == [] then [] else [entries[0].line] + TextOf(entries[1..])
  }

  /** Reading to the end moves the position there; an unreadable file keeps its position. */
  function AfterReading(file: TailedFile, contents: Option<Bytes>): TailedFile {
    match contents
    case None => file
    case Some(bytes) => file.(pos := |bytes|)
  }

  /** The first `count` files have been read, the others are as before. */
  ghost predicate AreRead(before: seq<TailedFile>, disk: seq<Option<Bytes>>, files: seq<TailedFile>, count: nat) {
    |before| == |disk| == |files|
    && forall i :: 0 <= i < |disk| ==> files[i] == if i < count then AfterReading(before[i], disk[i]) else before[i]
  }

  lemma ReadOneMore(before: seq<TailedFile>, disk: seq<Option<Bytes>>, files: seq<TailedFile>, index: nat)
    requires AreRead(before, disk, files, index) && index < |disk|
    ensures AreRead(before, disk, files[index := AfterReading(files[index], disk[index])], index + 1)
    ensures files[index] == before[index]
  {}

  method FormatLines(reader: Reader, lines: seq<Bytes>, tag: nat) returns (entries: seq<Entry>)
    ensures entries == EntriesOf(reader, lines, tag)
  {
    entries := [];
    var i := 0;
    while i < |lines|
      invariant 0 <= i <= |lines|
      invariant entries + EntriesOf(reader, lines[i..], tag) == EntriesOf(reader, lines, tag)
    {
      assert lines[i..][1..] == lines[i + 1..];
      if !reader.blank(lines[i]) {
        Regroup(entries, [reader.format(lines[i], tag)], EntriesOf(reader, lines[i + 1..], tag));
        entries := entries + [reader.format(lines[i], tag)];
      }
      i := i + 1;
    }
  }

  lemma TailsStep(reader: Reader, disk: seq<Option<Bytes>>, files: seq<TailedFile>, starts: seq<nat>, maxLines: nat,
                  index: nat, entries: seq<Entry>)
    requires |disk| == |files| && index < |disk|
    ensures var found := EntriesOf(reader, LastN(RegionLines(disk[index], starts, index), maxLines), files[index].tag);
            entries + Flatten(TailsFrom(reader, disk, files, starts, maxLines, index))
            == entries + found + Flatten(TailsFrom(reader, disk, files, starts, maxLines, index + 1))
  {
    var found := EntriesOf(reader, LastN(RegionLines(disk[index], starts, index), maxLines), files[index].tag);
    var rest := TailsFrom(reader, disk, files, starts, maxLines, index + 1);
    FlattenOneMore(found, rest);
    Regroup(entries, found, Flatten(rest));
  }

  /** A line as a line reader yields it: without its newline, and without the one carriage return before that. */
  function LineRead(line: Bytes): Bytes {
    if !EndsInNewline(line) then line
    else
      var text := line[..|line| - 1];
      if text != [] && text[|text| - 1] == CARRIAGE_RETURN then text[..|text| - 1] else text
  }

  function AllRead(lines: seq<Bytes>): (texts: seq<Bytes>)
    ensures |texts| == |lines| && forall i :: 0 <= i < |lines| ==> texts[i] == LineRead(lines[i])
  {
    if lines == [] then [] else AllRead(lines[..|lines| - 1]) + [LineRead(lines[|lines| - 1])]
  }

  /** The lines behind the position; a file that has become shorter is read from the beginning. */
  function NewLines(contents: Option<Bytes>, pos: nat): seq<Bytes> {
    match contents
    case None => []
    case Some(file) => AllRead(Lines(file[if pos > |file| then 0 else pos..]))
  }

  function NewEntriesFrom(reader: Reader, disk: seq<Option<Bytes>>, files: seq<TailedFile>, index: nat): seq<seq<Entry>>
    requires |disk| == |files| && index <= |disk|
    decreases |disk| - index
  {
    if index == |disk| then []
    else [EntriesOf(reader, NewLines(disk[index], files[index].pos), files[index].tag)]
         + NewEntriesFrom(reader, disk, files, index + 1)
  }

  lemma NewEntriesStep(reader: Reader, disk: seq<Option<Bytes>>, files: seq<TailedFile>, index: nat, entries: seq<Entry>)
    requires |disk| == |files| && index < |disk|
    ensures var found := EntriesOf(reader, NewLines(disk[index], files[index].pos), files[index].tag);
            entries + Flatten(NewEntriesFrom(reader, disk, files, index))
            == entries + found + Flatten(NewEntriesFrom(reader, disk, files, index + 1))
  {
    var found := EntriesOf(reader, NewLines(disk[index], files[index].pos), files[index].tag);
    var rest := NewEntriesFrom(reader, disk, files, index + 1);
    FlattenOneMore(found, rest);
    Regroup(entries, found, Flatten(rest));
  }

  class LogTailer {
    var files: seq<TailedFile>

    method LoadHistory(reader: Reader, disk: seq<Option<Bytes>>, starts: seq<nat>, maxLines: nat, chunkSize: nat)
      returns (lines: seq<Bytes>)
      requires |disk| == |files| && chunkSize > 0
      modifies this
      ensures maxLines == 0 ==> lines == [] && files == old(files)
      ensures maxLines > 0 ==>
                && lines == TextOf(LastN(StableSort(Flatten(TailsFrom(reader, disk, old(files), starts, maxLines, 0))), maxLines))
                && AreRead(old(files), disk, files, |disk|)
    {
      if maxLines == 0 { return []; }
      var entries := ReadTails(reader, disk, starts, maxLines, chunkSize);
      lines := TextOf(LastN(StableSort(entries), maxLines));
    }

    method ReadTails(reader: Reader, disk: seq<Option<Bytes>>, starts: seq<nat>, maxLines: nat, chunkSize: nat)
      returns (entries: seq<Entry>)
      requires |disk| == |files| && chunkSize > 0
      modifies this
      ensures entries == Flatten(TailsFrom(reader, disk, old(files), starts, maxLines, 0))
      ensures AreRead(old(files), disk, files, |disk|)
    {
      ghost var before := files;
      ghost var goal := Flatten(TailsFrom(reader, disk, before, starts, maxLines, 0));
      entries := [];
      var index := 0;
      while index < |files|
        invariant 0 <= index <= |files| == |disk| && AreRead(before, disk, files, index)
        invariant entries + Flatten(TailsFrom(reader, disk, before, starts, maxLines, index)) == goal
      {
        var found := ReadFile(reader, disk[index], starts, index, files[index].tag, maxLines, chunkSize);
        TailsStep(reader, disk, before, starts, maxLines, index, entries);
        ReadOneMore(before, disk, files, index);
        entries := entries + found;
        files := files[index := AfterReading(files[index], disk[index])];
        index := index + 1;
      }
    }

    /** The lines added since the last time, in order of time. */
    method Tail(reader: Reader, disk: seq<Option<Bytes>>) returns (lines: seq<Bytes>)
      requires |disk| == |files|
      modifies this
      ensures lines == TextOf(StableSort(Flatten(NewEntriesFrom(reader, disk, old(files), 0))))
      ensures AreRead(old(files), disk, files, |disk|)
    {
      var entries := ReadNew(reader, disk);
      lines := TextOf(StableSort(entries));
    }

    method ReadNew(reader: Reader, disk: seq<Option<Bytes>>) returns (entries: seq<Entry>)
      requires |disk| == |files|
      modifies this
      ensures entries == Flatten(NewEntriesFrom(reader, disk, old(files), 0))
      ensures AreRead(old(files), disk, files, |disk|)
    {
      ghost var before := files;
      ghost var goal := Flatten(NewEntriesFrom(reader, disk, before, 0));
      entries := [];
      var index := 0;
      while index < |files|
        invariant 0 <= index <= |files| == |disk| && AreRead(before, disk, files, index)
        invariant entries + Flatten(NewEntriesFrom(reader, disk, before, index)) == goal
      {
        var found := FormatLines(reader, NewLines(disk[index], files[index].pos), files[index].tag);
        NewEntriesStep(reader, disk, before, index, entries);
        ReadOneMore(before, disk, files, index);
        entries := entries + found;
        files := files[index := AfterReading(files[index], disk[index])];
        index := index + 1;
      }
    }

    static method ReadFile(reader: Reader, contents: Option<Bytes>, starts: seq<nat>, index: nat, tag: nat,
                           maxLines: nat,
                           chunkSize: nat) returns (entries: seq<Entry>)
      requires chunkSize > 0
      ensures entries == EntriesOf(reader, LastN(RegionLines(contents, starts, index), maxLines), tag)
    {
      if contents.None? { return []; }
      var file := contents.value;
      var start := RegionStart(starts, index, |file|);
      var lines := ReadLastLines(file, start, |file|, maxLines, chunkSize);
      assert file[start..|file|] == file[start..];
      entries := FormatLines(reader, lines, tag);
    }
  }

  // ----- The history is the global tail -----

  ghost predicate NoBlankLines(reader: Reader, lines: seq<Bytes>) {
    forall i :: 0 <= i < |lines| ==> !reader.blank(lines[i])
  }

  lemma {:induction false} EntriesMatchLines(reader: Reader, lines: seq<Bytes>, tag: nat)
    requires NoBlankLines(reader, lines)
    ensures |EntriesOf(reader, lines, tag)| == |lines|
  {
    if lines != [] { EntriesMatchLines(reader, lines[1..], tag); }
  }

  lemma {:induction false} LastEntries(reader: Reader, lines: seq<Bytes>, tag: nat, count: nat)
    requires NoBlankLines(reader, lines)
    ensures EntriesOf(reader, LastN(lines, count), tag) == LastN(EntriesOf(reader, lines, tag), count)
  {
    EntriesMatchLines(reader, lines, tag);
    if |lines| <= count {
      assert LastN(lines, count) == lines;
      assert LastN(EntriesOf(reader, lines, tag), count) == EntriesOf(reader, lines, tag);
    } else {
      LastEntries(reader, lines[1..], tag, count);
      EntriesMatchLines(reader, lines[1..], tag);
      assert LastN(lines, count) == LastN(lines[1..], count);
      LastOfTail(reader.format(lines[0], tag), EntriesOf(reader, lines[1..], tag), count);
    }
  }

  lemma {:induction false} TailsAreLastOfEach(reader: Reader, disk: seq<Option<Bytes>>, files: seq<TailedFile>,
                                              starts: seq<nat>,
                                              maxLines: nat, index: nat)
    requires |disk| == |files| && index <= |disk|
    requires forall i :: index <= i < |disk| ==> NoBlankLines(reader, RegionLines(disk[i], starts, i))
    ensures TailsFrom(reader, disk, files, starts, maxLines, index)
            == LastOfEach(WholesFrom(reader, disk, files, starts, index), maxLines)
    decreases |disk| - index
  {
    if index < |disk| {
      LastEntries(reader, RegionLines(disk[index], starts, index), files[index].tag, maxLines);
      TailsAreLastOfEach(reader, disk, files, starts, maxLines, index + 1);
      var wholes := WholesFrom(reader, disk, files, starts, index);
      assert wholes[1..] == WholesFrom(reader, disk, files, starts, index + 1);
    }
  }

  /**
   * For files without blank lines whose times never go back, the history is the end of all their lines in order of time,
   * although no more than `maxLines` lines of each file are looked at.
   */
  lemma HistoryIsGlobalTail(reader: Reader, disk: seq<Option<Bytes>>, files: seq<TailedFile>, starts: seq<nat>,
                            maxLines: nat)
    requires |disk| == |files|
    requires forall i :: 0 <= i < |disk| ==> NoBlankLines(reader, RegionLines(disk[i], starts, i))
    requires forall file :: file in WholesFrom(reader, disk, files, starts, 0) ==> Sorted(file)
    ensures LastN(StableSort(Flatten(TailsFrom(reader, disk, files, starts, maxLines, 0))), maxLines)
            == LastN(StableSort(Flatten(WholesFrom(reader, disk, files, starts, 0))), maxLines)
  {
    var wholes := WholesFrom(reader, disk, files, starts, 0);
    TailsAreLastOfEach(reader, disk, files, starts, maxLines, 0);
    TailsSuffice([], wholes, maxLines);
    assert [] + Flatten(wholes) == Flatten(wholes);
    assert [] + Flatten(LastOfEach(wholes, maxLines)) == Flatten(LastOfEach(wholes, maxLines));
  }
}
