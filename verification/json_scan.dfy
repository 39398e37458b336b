/**
 * The scanner that finds where each value of a JSON text begins. The functions say what it finds, place by place; the
 * class does it with one position, one offset map and one pointer buffer shared by the whole recursion.
 */
module JsonScan {
  import opened Wrappers
  import opened JsonPointers

  const QUOTE: byte := 34
  const BACKSLASH: byte := 92
  const COMMA: byte := 44
  const COLON: byte := 58
  const OPEN_BRACE: byte := 123
  const CLOSE_BRACE: byte := 125
  const OPEN_BRACKET: byte := 91
  const CLOSE_BRACKET: byte := 93

  /** Decodes a quoted key; nothing when it is not a valid JSON string. */
  type Decoder = Bytes -> Option<Bytes>

  /** Where the values begin, by path. */
  type Places = map<Path, nat>

  /** ASCII whitespace, which is one byte more than JSON allows: the form feed. */
  predicate IsWhitespace(b: byte) {
    b == 32 || b == 9 || b == 10 || b == 13 || b == 12
  }

  predicate EndsScalar(b: byte) {
    b == COMMA || b == CLOSE_BRACE || b == CLOSE_BRACKET || b == 32 || b == 9 || b == 13 || b == 10
  }

  function SkipWhitespace(text: Bytes, pos: nat): (end: nat)
    requires pos <= |text|
    ensures pos <= end <= |text|
    decreases |text| - pos
  {
    if pos < |text| && IsWhitespace(text[pos]) then SkipWhitespace(text, pos + 1) else pos
  }

  function ScanScalar(text: Bytes, pos: nat): (end: nat)
    requires pos <= |text|
    ensures pos <= end <= |text|
    decreases |text| - pos
  {
    if pos < |text| && !EndsScalar(text[pos]) then ScanScalar(text, pos + 1) else pos
  }

  /** From inside a string to just past its closing quote; a backslash takes the next byte with it. */
  function ScanQuoted(text: Bytes, pos: nat): (end: Option<nat>)
    ensures end.Some? ==> pos < end.value <= |text|
    decreases |text| - pos
  {
    if pos >= |text| then None
    else if text[pos] == BACKSLASH then ScanQuoted(text, pos + 2)
    else if text[pos] == QUOTE then Some(pos + 1)
    else ScanQuoted(text, pos + 1)
  }

  function ScanString(text: Bytes, pos: nat): (end: Option<nat>)
    requires pos <= |text|
    ensures end.Some? ==> pos < end.value <= |text|
  {
    if pos < |text| && text[pos] == QUOTE then ScanQuoted(text, pos + 1) else None
  }

  predicate IsAt(text: Bytes, pos: nat, b: byte) {
    pos < |text| && text[pos] == b
  }

  /** A member up to its value: where the key begins, what it decodes to, where the value begins. */
  datatype Key = Key(at: nat, token: Bytes, valueAt: nat)

  function ScanKey(text: Bytes, decode: Decoder, pos: nat): (key: Option<Key>)
    requires pos <= |text|
    ensures key.Some? ==> pos <= key.value.at < key.value.valueAt <= |text|
  {
    var at := SkipWhitespace(text, pos);
    match ScanString(text, at)
    case None => None
    case Some(end) =>
      match decode(text[at..end])
      case None => None
      case Some(token) =>
        var colon := SkipWhitespace(text, end);
        if IsAt(text, colon, COLON) then Some(Key(at, token, SkipWhitespace(text, colon + 1))) else None
  }

  /** Where a scan ended, if it did not fail, and all places found until then. */
  datatype Scan = Scan(end: Option<nat>, places: Places)

  function ScanValue(text: Bytes, decode: Decoder, pos: nat, path: Path, places: Places): (scan: Scan)
    requires pos <= |text|
    ensures scan.end.Some? ==> pos <= scan.end.value <= |text|
    decreases |text| - pos, 0
  {
    if pos == |text| then Scan(None, places)
    else if text[pos] == OPEN_BRACE then
      var first := SkipWhitespace(text, pos + 1);
      if first == |text| then Scan(None, places)
      else if text[first] == CLOSE_BRACE then Scan(Some(first + 1), places)
      else ScanMembers(text, decode, first, path, places)
    else if text[pos] == OPEN_BRACKET then
      var first := SkipWhitespace(text, pos + 1);
      if first == |text| then Scan(None, places)
      else if text[first] == CLOSE_BRACKET then Scan(Some(first + 1), places)
      else ScanElements(text, decode, first, 0, path, places)
    else if text[pos] == QUOTE then Scan(ScanString(text, pos), places)
    else Scan(Some(ScanScalar(text, pos)), places)
  }

  function ScanMember(text: Bytes, decode: Decoder, pos: nat, path: Path, places: Places): (scan: Scan)
    requires pos <= |text|
    ensures scan.end.Some? ==> pos <= scan.end.value <= |text|
    decreases |text| - pos, 1
  {
    match ScanKey(text, decode, pos)
    case None => Scan(None, places)
    case Some(key) => ScanValue(text, decode, key.valueAt, path + [key.token], places[path + [key.token] := key.at])
  }

  function ScanMembers(text: Bytes, decode: Decoder, pos: nat, path: Path, places: Places): (scan: Scan)
    requires pos <= |text|
    ensures scan.end.Some? ==> pos <= scan.end.value <= |text|
    decreases |text| - pos, 2
  {
    var member := ScanMember(text, decode, pos, path, places);
    if member.end.None? then member
    else
      var next := SkipWhitespace(text, member.end.value);
      if IsAt(text, next, COMMA) then ScanMembers(text, decode, next + 1, path, member.places)
      else Scan(if IsAt(text, next, CLOSE_BRACE) then Some(next + 1) else None, member.places)
  }

  function ScanElement(text: Bytes, decode: Decoder, pos: nat, index: nat, path: Path, places: Places): (scan: Scan)
    requires pos <= |text|
    ensures scan.end.Some? ==> pos <= scan.end.value <= |text|
    decreases |text| - pos, 1
  {
    var at := SkipWhitespace(text, pos);
    ScanValue(text, decode, at, path + [Decimal(index)], places[path + [Decimal(index)] := at])
  }

  function ScanElements(text: Bytes, decode: Decoder, pos: nat, index: nat, path: Path, places: Places): (scan: Scan)
    requires pos <= |text|
    ensures scan.end.Some? ==> pos <= scan.end.value <= |text|
    decreases |text| - pos, 2
  {
    var element := ScanElement(text, decode, pos, index, path, places);
    if element.end.None? then element
    else
      var next := SkipWhitespace(text, element.end.value);
      if IsAt(text, next, COMMA) then ScanElements(text, decode, next + 1, index + 1, path, element.places)
      else Scan(if IsAt(text, next, CLOSE_BRACKET) then Some(next + 1) else None, element.places)
  }

  /** The whole text: the root is recorded before anything is scanned. */
  function ScanText(text: Bytes, decode: Decoder): Places {
    var root := SkipWhitespace(text, 0);
    ScanValue(text, decode, root, [], map[[] := root]).places
  }

  // ----- Whatever the text -----

  /** Every place lies within the text, and with a path its parent is there too. */
  ghost predicate Sound(text: Bytes, places: Places) {
    && (forall p {:trigger places[p]} :: p in places ==> places[p] <= |text|)
    && (forall p {:trigger places[p]} :: p in places && p != [] ==> p[..|p| - 1] in places)
  }

  lemma OneMoreIsSound(text: Bytes, places: Places, path: Path, token: Bytes, at: nat)
    requires Sound(text, places) && path in places && at <= |text|
    ensures Sound(text, places[path + [token] := at])
  {
    assert (path + [token])[..|path|] == path;
  }

  lemma {:induction false} ValueIsSound(text: Bytes, decode: Decoder, pos: nat, path: Path, places: Places)
    requires pos <= |text| && Sound(text, places) && path in places
    ensures var scan := ScanValue(text, decode, pos, path, places);
            Sound(text, scan.places) && places.Keys <= scan.places.Keys
    decreases |text| - pos, 0
  {
    if pos < |text| && text[pos] == OPEN_BRACE {
      MembersAreSound(text, decode, SkipWhitespace(text, pos + 1), path, places);
    } else if pos < |text| && text[pos] == OPEN_BRACKET {
      ElementsAreSound(text, decode, SkipWhitespace(text, pos + 1), 0, path, places);
    }
  }

  lemma {:induction false} MembersAreSound(text: Bytes, decode: Decoder, pos: nat, path: Path, places: Places)
    requires pos <= |text| && Sound(text, places) && path in places
    ensures var scan := ScanMembers(text, decode, pos, path, places);
            Sound(text, scan.places) && places.Keys <= scan.places.Keys
    decreases |text| - pos, 1
  {
    var key := ScanKey(text, decode, pos);
    if key.Some? {
      var Key(at, token, valueAt) := key.value;
      OneMoreIsSound(text, places, path, token, at);
      ValueIsSound(text, decode, valueAt, path + [token], places[path + [token] := at]);
    }
    var member := ScanMember(text, decode, pos, path, places);
    if member.end.Some? {
      var next := SkipWhitespace(text, member.end.value);
      if IsAt(text, next, COMMA) { MembersAreSound(text, decode, next + 1, path, member.places); }
    }
  }

  lemma {:induction false} ElementsAreSound(text: Bytes, decode: Decoder, pos: nat, index: nat, path: Path,
                                            places: Places)
    requires pos <= |text| && Sound(text, places) && path in places
    ensures var scan := ScanElements(text, decode, pos, index, path, places);
            Sound(text, scan.places) && places.Keys <= scan.places.Keys
    decreases |text| - pos, 1
  {
    var at := SkipWhitespace(text, pos);
    var child := path + [Decimal(index)];
    OneMoreIsSound(text, places, path, Decimal(index), at);
    ValueIsSound(text, decode, at, child, places[child := at]);
    var element := ScanElement(text, decode, pos, index, path, places);
    if element.end.Some? {
      var next := SkipWhitespace(text, element.end.value);
      if IsAt(text, next, COMMA) { ElementsAreSound(text, decode, next + 1, index + 1, path, element.places); }
    }
  }

  /** On every byte string, valid JSON or not, cut short or not. */
  lemma EveryScanIsSound(text: Bytes, decode: Decoder)
    ensures Sound(text, ScanText(text, decode)) && [] in ScanText(text, decode)
  {
    var root := SkipWhitespace(text, 0);
    ValueIsSound(text, decode, root, [], map[[] := root]);
  }

  // ----- The scanner -----

  /** The offsets by pointer are the places by path. */
  ghost predicate Represents(offsets: map<Bytes, nat>, places: Places) {
    && (forall p {:trigger places[p]} :: p in places ==> PointerOf(p) in offsets && offsets[PointerOf(p)] == places[p])
    && (forall k {:trigger offsets[k]} :: k in offsets ==> TokensOf(k) in places && PointerOf(TokensOf(k)) == k)
  }

  lemma RepresentsOneMore(offsets: map<Bytes, nat>, places: Places, path: Path, at: nat)
    requires Represents(offsets, places)
    ensures Represents(offsets[PointerOf(path) := at], places[path := at])
  {
    var offsets', places' := offsets[PointerOf(path) := at], places[path := at];
    forall p | p in places' ensures PointerOf(p) in offsets' && offsets'[PointerOf(p)] == places'[p] {
      PointerOfIsInjective(p, path);
    }
    forall k | k in offsets' ensures TokensOf(k) in places' && PointerOf(TokensOf(k)) == k {
      PointerRoundTrip(path);
    }
  }

  lemma RepresentedExactly(offsets: map<Bytes, nat>, places: Places, path: Path)
    requires Represents(offsets, places)
    ensures PointerOf(path) in offsets <==> path in places
    ensures path in places ==> offsets[PointerOf(path)] == places[path]
  {
    PointerRoundTrip(path);
    if path in places { assert offsets[PointerOf(path)] == places[path]; }
    if PointerOf(path) in offsets { assert offsets[PointerOf(path)] >= 0; }
  }

  datatype Follows = More | Closed | Unexpected

  class Scanner {
    const bytes: Bytes
    const decode: Decoder
    var pos: nat
    var offsets: map<Bytes, nat>
    var pointer: Bytes
    ghost var places: Places

    constructor (bytes: Bytes, decode: Decoder)
      ensures this.bytes == bytes && this.decode == decode && pos == 0 && offsets == map[] && pointer == [] && places == map[]
    {
      this.bytes, this.decode, pos, offsets, pointer, places := bytes, decode, 0, map[], [], map[];
    }

    ghost predicate Valid()
      reads this
    {
      pos <= |bytes| && Represents(offsets, places)
    }

    method Skip()
      requires pos <= |bytes|
      modifies this`pos
      ensures pos == SkipWhitespace(bytes, old(pos))
    {
      while pos < |bytes| && IsWhitespace(bytes[pos])
        invariant pos <= |bytes| && SkipWhitespace(bytes, pos) == SkipWhitespace(bytes, old(pos))
        decreases |bytes| - pos
      {
        pos := pos + 1;
      }
    }

    method Consume(expected: byte) returns (ok: bool)
      requires pos <= |bytes|
      modifies this`pos
      ensures var at := SkipWhitespace(bytes, old(pos));
              ok == IsAt(bytes, at, expected) && pos == if ok then at + 1 else at
    {
      Skip();
      ok := pos < |bytes| && bytes[pos] == expected;
      if ok { pos := pos + 1; }
    }

    method String() returns (found: Option<Bytes>)
      requires pos <= |bytes|
      modifies this`pos
      ensures match ScanString(bytes, old(pos))
              case None => found == None
              case Some(end) => found == Some(bytes[old(pos)..end]) && pos == end
    {
      var start := pos;
      if pos == |bytes| || bytes[pos] != QUOTE { return None; }
      pos := pos + 1;
      while pos < |bytes|
        invariant start < pos && ScanQuoted(bytes, pos) == ScanString(bytes, start)
        decreases |bytes| - pos
      {
        if bytes[pos] == BACKSLASH {
          pos := pos + 2;
        } else if bytes[pos] == QUOTE {
          pos := pos + 1;
          return Some(bytes[start..pos]);
        } else {
          pos := pos + 1;
        }
      }
      return None;
    }

    /** Records where the child begins and leaves its pointer in the buffer. */
    method Enter(ghost path: Path, token: Bytes, escaped: Bytes, at: nat)
      requires Represents(offsets, places) && pointer == PointerOf(path) && escaped == EscapeToken(token)
      modifies this`offsets, this`pointer, this`places
      ensures Represents(offsets, places) && places == old(places)[path + [token] := at]
      ensures pointer == PointerOf(path + [token]) && old(pointer) <= pointer
    {
      PointerOfChild(path, token);
      pointer := pointer + [SLASH];
      pointer := pointer + escaped;
      RepresentsOneMore(offsets, places, path + [token], at);
      offsets := offsets[pointer := at];
      places := places[path + [token] := at];
    }

    /** Cuts the pointer back to the parent's. */
    method Leave(parent: nat)
      requires parent <= |pointer|
      modifies this`pointer
      ensures pointer == old(pointer)[..parent]
    {
      pointer := pointer[..parent];
    }

    /** What follows a member or an element: a comma, the closing byte, or something else. */
    method Separator(close: byte) returns (next: Follows)
      requires pos <= |bytes| && close != COMMA
      modifies this`pos
      ensures var at := SkipWhitespace(bytes, old(pos));
              && next == (if IsAt(bytes, at, COMMA) then More else if IsAt(bytes, at, close) then Closed else Unexpected)
              && pos == (if next.Unexpected? then at else at + 1)
    {
      Skip();
      if pos < |bytes| && bytes[pos] == COMMA {
        pos := pos + 1;
        next := More;
      } else if pos < |bytes| && bytes[pos] == close {
        pos := pos + 1;
        next := Closed;
      } else {
        next := Unexpected;
      }
    }

    method IndexValue(ghost path: Path) returns (ok: bool)
      requires Valid() && pointer == PointerOf(path)
      modifies this
      ensures Represents(offsets, places) && pointer == old(pointer)
      ensures var scan := ScanValue(bytes, decode, old(pos), path, old(places));
              places == scan.places && ok == scan.end.Some? && (ok ==> pos == scan.end.value)
      decreases |bytes| - pos, 1
    {
      if pos == |bytes| { return false; }
      if bytes[pos] == OPEN_BRACE {
        ok := IndexMembers(path);
      } else if bytes[pos] == OPEN_BRACKET {
        ok := IndexElements(path);
      } else if bytes[pos] == QUOTE {
        var found := String();
        ok := found.Some?;
      } else {
        while pos < |bytes| && !EndsScalar(bytes[pos])
          invariant pos <= |bytes| && ScanScalar(bytes, pos) == ScanScalar(bytes, old(pos))
          invariant places == old(places) && offsets == old(offsets) && pointer == old(pointer)
          decreases |bytes| - pos
        {
          pos := pos + 1;
        }
        ok := true;
      }
    }

    method IndexMembers(ghost path: Path) returns (ok: bool)
      requires Valid() && pointer == PointerOf(path) && IsAt(bytes, pos, OPEN_BRACE)
      modifies this
      ensures Represents(offsets, places) && pointer == old(pointer)
      ensures var scan := ScanValue(bytes, decode, old(pos), path, old(places));
              places == scan.places && ok == scan.end.Some? && (ok ==> pos == scan.end.value)
      decreases |bytes| - pos, 0
    {
      pos := pos + 1;
      Skip();
      if pos == |bytes| { return false; }
      if bytes[pos] == CLOSE_BRACE {
        pos := pos + 1;
        return true;
      }
      ok := MemberLoop(path);
    }

    /** The members of a container that is not empty, up to its closing byte. */
    method MemberLoop(ghost path: Path) returns (ok: bool)
      requires Valid() && pointer == PointerOf(path)
      modifies this
      ensures Represents(offsets, places) && pointer == old(pointer)
      ensures var scan := ScanMembers(bytes, decode, old(pos), path, old(places));
              places == scan.places && ok == scan.end.Some? && (ok ==> pos == scan.end.value)
      decreases |bytes| - pos, 3
    {
      while true
        invariant old(pos) <= pos && Valid() && pointer == old(pointer)
        invariant ScanMembers(bytes, decode, pos, path, places) == ScanMembers(bytes, decode, old(pos), path, old(places))
        decreases |bytes| - pos
      {
        var indexed := IndexMember(path);
        if !indexed { return false; }
        var next := Separator(CLOSE_BRACE);
        if next.Unexpected? { return false; }
        if next.Closed? { return true; }
      }
    }

    /** A member up to the beginning of its value. */
    method IndexKey() returns (key: Option<Key>)
      requires pos <= |bytes|
      modifies this`pos
      ensures key == ScanKey(bytes, decode, old(pos)) && (key.Some? ==> pos == key.value.valueAt)
    {
      Skip();
      var keyStart := pos;
      var quoted := String();
      if quoted.None? { return None; }
      var token := decode(quoted.value);
      if token.None? { return None; }
      var ok := Consume(COLON);
      if !ok { return None; }
      Skip();
      return Some(Key(keyStart, token.value, pos));
    }

    /** One member of an object, from its key to the end of its value. */
    method IndexMember(ghost path: Path) returns (ok: bool)
      requires Valid() && pointer == PointerOf(path)
      modifies this
      ensures Represents(offsets, places) && pointer == old(pointer)
      ensures var scan := ScanMember(bytes, decode, old(pos), path, old(places));
              places == scan.places && ok == scan.end.Some? && (ok ==> pos == scan.end.value)
      decreases |bytes| - pos, 0
    {
      ghost var goal := ScanMember(bytes, decode, pos, path, places);
      var key := IndexKey();
      if key.None? { return false; }
      var Key(at, token, valueAt) := key.value;
      ghost var child := path + [token];
      assert goal == ScanValue(bytes, decode, valueAt, child, places[child := at]);
      var parent := |pointer|;
      Enter(path, token, EscapeToken(token), at);
      ok := IndexValue(child);
      Leave(parent);
    }

    /** One element of an array. */
    method IndexElement(ghost path: Path, index: nat) returns (ok: bool)
      requires Valid() && pointer == PointerOf(path)
      modifies this
      ensures Represents(offsets, places) && pointer == old(pointer)
      ensures var scan := ScanElement(bytes, decode, old(pos), index, path, old(places));
              places == scan.places && ok == scan.end.Some? && (ok ==> pos == scan.end.value)
      decreases |bytes| - pos, 2
    {
      Skip();
      var parent := |pointer|;
      PlainIsNotEscaped(Decimal(index));
      Enter(path, Decimal(index), Decimal(index), pos);
      ok := IndexValue(path + [Decimal(index)]);
      Leave(parent);
    }

    method IndexElements(ghost path: Path) returns (ok: bool)
      requires Valid() && pointer == PointerOf(path) && IsAt(bytes, pos, OPEN_BRACKET)
      modifies this
      ensures Represents(offsets, places) && pointer == old(pointer)
      ensures var scan := ScanValue(bytes, decode, old(pos), path, old(places));
              places == scan.places && ok == scan.end.Some? && (ok ==> pos == scan.end.value)
      decreases |bytes| - pos, 0
    {
      pos := pos + 1;
      Skip();
      if pos == |bytes| { return false; }
      if bytes[pos] == CLOSE_BRACKET {
        pos := pos + 1;
        return true;
      }
      ok := ElementLoop(path);
    }

    /** The elements of a container that is not empty, up to its closing byte. */
    method ElementLoop(ghost path: Path) returns (ok: bool)
      requires Valid() && pointer == PointerOf(path)
      modifies this
      ensures Represents(offsets, places) && pointer == old(pointer)
      ensures var scan := ScanElements(bytes, decode, old(pos), 0, path, old(places));
              places == scan.places && ok == scan.end.Some? && (ok ==> pos == scan.end.value)
      decreases |bytes| - pos, 3
    {
      var index := 0;
      while true
        invariant index >= 0 && old(pos) <= pos && Valid() && pointer == old(pointer)
        invariant ScanElements(bytes, decode, pos, index, path, places) == ScanElements(bytes, decode, old(pos), 0, path, old(places))
        decreases |bytes| - pos
      {
        var indexed := IndexElement(path, index);
        if !indexed { return false; }
        var next := Separator(CLOSE_BRACKET);
        if next.Unexpected? { return false; }
        if next.Closed? { return true; }
        index := index + 1;
      }
    }

    /** The root begins at the first byte that is not whitespace. */
    method IndexRoot()
      requires pos == 0 && offsets == map[]
      modifies this`pos, this`offsets, this`places
      ensures Valid() && pos == SkipWhitespace(bytes, 0) && places == map[[] := pos]
    {
      Skip();
      offsets := map[[] := pos];
      places := map[[] := pos];
      PointerRoundTrip([]);
    }

    /** The whole text, from the start; a failure just ends the scan. */
    method IndexText()
      requires pos == 0 && offsets == map[] && pointer == []
      modifies this
      ensures Represents(offsets, places) && places == ScanText(bytes, decode)
    {
      IndexRoot();
      var complete := IndexValue([]);
    }
  }
}
