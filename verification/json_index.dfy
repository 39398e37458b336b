/** The index of a JSON text: where each pointer's value begins, and on which line. */
module JsonIndexes {
  import opened Wrappers
  import opened JsonPointers
  import opened JsonScan

  datatype JsonIndex = JsonIndex(offsets: map<Bytes, nat>, lineStarts: seq<nat>) {
    /** The line of exactly this pointer, counted from one. */
    function Line(pointer: Bytes): Option<nat> {
      if pointer in offsets then Some(PartitionPoint(lineStarts, offsets[pointer])) else None
    }

    /** The line of the pointer, or else of its parent, and so on. */
    function NearestLine(pointer: Bytes): Option<nat>
      decreases |pointer|
    {
      match Line(pointer)
      case Some(line) => Some(line)
      case None =>
        match LastSlash(pointer)
        case None => None
        case Some(end) => NearestLine(pointer[..end])
    }
  }

  /** How many leading starts are at or before the offset. */
  function PartitionPoint(starts: seq<nat>, offset: nat): nat {
    if starts == [] || starts[0] > offset then 0 else 1 + PartitionPoint(starts[1..], offset)
  }

  function StartsAfterNewlines(text: Bytes, from: nat): seq<nat>
    requires from <= |text|
    decreases |text| - from
  {
    if from == |text| then []
    else (if text[from] == NEWLINE then [from + 1] else []) + StartsAfterNewlines(text, from + 1)
  }

  method NewIndex(text: Bytes, decode: Decoder) returns (index: JsonIndex)
    ensures Represents(index.offsets, ScanText(text, decode))
    ensures index.lineStarts == [0] + StartsAfterNewlines(text, 0)
  {
    var scanner := new Scanner(text, decode);
    scanner.IndexText();
    return JsonIndex(scanner.offsets, [0] + StartsAfterNewlines(text, 0));
  }

  // ----- Lines -----

  function Newlines(text: Bytes, from: nat, end: nat): nat
    requires from <= end <= |text|
    decreases end - from
  {
    if from == end then 0 else (if text[from] == NEWLINE then 1 else 0) + Newlines(text, from + 1, end)
  }

  lemma {:induction false} StartsBeforeOffset(text: Bytes, from: nat, offset: nat)
    requires from <= offset <= |text|
    ensures PartitionPoint(StartsAfterNewlines(text, from), offset) == Newlines(text, from, offset)
    decreases offset - from
  {
    var starts := StartsAfterNewlines(text, from);
    if from == offset {
      StartsAreLater(text, from);
      assert starts != [] ==> starts[0] in starts;
    } else {
      StartsBeforeOffset(text, from + 1, offset);
      if text[from] == NEWLINE {
        assert starts == [from + 1] + StartsAfterNewlines(text, from + 1);
        assert starts[0] == from + 1 && starts[1..] == StartsAfterNewlines(text, from + 1);
      } else {
        assert starts == StartsAfterNewlines(text, from + 1);
      }
    }
  }

  lemma {:induction false} StartsAreLater(text: Bytes, from: nat)
    requires from <= |text|
    ensures forall start :: start in StartsAfterNewlines(text, from) ==> start > from
    decreases |text| - from
  {
    if from < |text| { StartsAreLater(text, from + 1); }
  }

  /** The line of an indexed pointer is one plus the newlines before its value. */
  lemma LineCountsNewlines(text: Bytes, index: JsonIndex, pointer: Bytes)
    requires index.lineStarts == [0] + StartsAfterNewlines(text, 0)
    requires pointer in index.offsets && index.offsets[pointer] <= |text|
    ensures index.Line(pointer) == Some(1 + Newlines(text, 0, index.offsets[pointer]))
  {
    assert index.lineStarts[1..] == StartsAfterNewlines(text, 0);
    StartsBeforeOffset(text, 0, index.offsets[pointer]);
  }

  // ----- Nearest lines -----

  /** The pointer itself, or what is left of it before one of its slashes. */
  predicate IsAncestor(ancestor: Bytes, pointer: Bytes) {
    ancestor <= pointer && (|ancestor| < |pointer| ==> pointer[|ancestor|] == SLASH)
  }

  lemma {:induction false} NoSlashInside(pointer: Bytes, i: nat)
    requires i < |pointer| && pointer[i] == SLASH
    ensures LastSlash(pointer).Some? && i <= LastSlash(pointer).value
  {
    if pointer[|pointer| - 1] != SLASH { NoSlashInside(pointer[..|pointer| - 1], i); }
  }

  /** Between a pointer and what is before its last slash there is no further ancestor. */
  lemma AncestorsOfParent(ancestor: Bytes, pointer: Bytes)
    requires IsAncestor(ancestor, pointer) && ancestor != pointer
    ensures LastSlash(pointer).Some? && IsAncestor(ancestor, pointer[..LastSlash(pointer).value])
  {
    NoSlashInside(pointer, |ancestor|);
  }

  lemma ParentIsIndexed(text: Bytes, decode: Decoder, path: Path)
    requires path in ScanText(text, decode) && path != []
    ensures path[..|path| - 1] in ScanText(text, decode)
  {
    EveryScanIsSound(text, decode);
    assert ScanText(text, decode)[path] <= |text|;
  }

  lemma IndexedIsRooted(text: Bytes, decode: Decoder, index: JsonIndex, pointer: Bytes)
    requires Represents(index.offsets, ScanText(text, decode)) && pointer in index.offsets
    ensures pointer == [] || pointer[0] == SLASH
    ensures TokensOf(pointer) in ScanText(text, decode) && PointerOf(TokensOf(pointer)) == pointer
  {
    assert index.offsets[pointer] == index.offsets[PointerOf(TokensOf(pointer))];
    PointerStartsWithSlash(TokensOf(pointer));
  }

  /** With a pointer, the index of any text holds all its ancestors. */
  lemma {:induction false} AncestorsAreIndexed(text: Bytes, decode: Decoder, offsets: map<Bytes, nat>, path: Path,
                                               ancestor: Bytes)
    requires Represents(offsets, ScanText(text, decode)) && path in ScanText(text, decode)
    requires IsAncestor(ancestor, PointerOf(path))
    ensures ancestor in offsets
    decreases |path|
  {
    assert ScanText(text, decode)[path] == offsets[PointerOf(path)];
    if ancestor != PointerOf(path) {
      AncestorsOfParent(ancestor, PointerOf(path));
      ParentPointer(path);
      ParentIsIndexed(text, decode, path);
      AncestorsAreIndexed(text, decode, offsets, path[..|path| - 1], ancestor);
    }
  }

  /**
   * For a pointer that is empty or starts with a slash, the line found is that of its deepest indexed ancestor: an
   * ancestor is indexed exactly when it is no longer than the one found. Other pointers have no line.
   */
  lemma NearestLineIsDeepest(text: Bytes, decode: Decoder, index: JsonIndex, pointer: Bytes) returns (found: Bytes)
    requires Represents(index.offsets, ScanText(text, decode))
    ensures pointer == [] || pointer[0] == SLASH ==>
              && IsAncestor(found, pointer) && found in index.offsets && index.NearestLine(pointer) == index.Line(found)
              && forall a :: IsAncestor(a, pointer) ==> (a in index.offsets <==> |a| <= |found|)
    ensures pointer != [] && pointer[0] != SLASH ==> index.NearestLine(pointer) == None
  {
    if pointer == [] || pointer[0] == SLASH {
      found := SearchUp(text, decode, index, pointer);
      IndexedIsRooted(text, decode, index, found);
      forall a | IsAncestor(a, pointer) && |a| <= |found| ensures a in index.offsets {
        assert IsAncestor(a, found);
        AncestorsAreIndexed(text, decode, index.offsets, TokensOf(found), a);
      }
    } else {
      found := [];
      UnrootedHasNoLine(text, decode, index, pointer);
    }
  }

  lemma {:induction false} SearchUp(text: Bytes, decode: Decoder, index: JsonIndex,
                                    pointer: Bytes) returns (found: Bytes)
    requires Represents(index.offsets, ScanText(text, decode))
    requires pointer == [] || pointer[0] == SLASH
    ensures IsAncestor(found, pointer) && found in index.offsets && index.NearestLine(pointer) == index.Line(found)
    ensures forall a :: IsAncestor(a, pointer) && |a| > |found| ==> a !in index.offsets
    decreases |pointer|
  {
    if pointer in index.offsets {
      found := pointer;
    } else {
      EveryScanIsSound(text, decode);
      assert ScanText(text, decode)[[]] <= |text|;
      assert PointerOf([]) == [];
      NoSlashInside(pointer, 0);
      found := SearchUp(text, decode, index, pointer[..LastSlash(pointer).value]);
      forall a | IsAncestor(a, pointer) && |a| > |found| ensures a !in index.offsets {
        if a != pointer { AncestorsOfParent(a, pointer); }
      }
    }
  }

  lemma {:induction false} UnrootedHasNoLine(text: Bytes, decode: Decoder, index: JsonIndex, pointer: Bytes)
    requires Represents(index.offsets, ScanText(text, decode))
    requires pointer != [] && pointer[0] != SLASH
    ensures index.NearestLine(pointer) == None
    decreases |pointer|
  {
    if pointer in index.offsets { IndexedIsRooted(text, decode, index, pointer); }
    if LastSlash(pointer).Some? { UnrootedHasNoLine(text, decode, index, pointer[..LastSlash(pointer).value]); }
  }
}
