/** Any byte string: what a scan that succeeds has read, and what one that fails keeps. */
module JsonConverse {
  import opened Wrappers
  import opened JsonPointers
  import opened JsonScan
  import opened JsonDocuments
  import opened JsonLayout

  // ----- Documents the scanner takes for ones -----

  /** ASCII whitespace: tab, line feed, form feed, carriage return and space. */
  predicate White(b: byte) {
    b == 9 || b == 10 || b == 12 || b == 13 || b == 32
  }

  /** What ends a scalar: a comma, a closing brace or bracket, or JSON's whitespace. */
  predicate Ends(b: byte) {
    b == 44 || b == 125 || b == 93 || b == 9 || b == 10 || b == 13 || b == 32
  }

  predicate IsWhite(s: Bytes) {
    forall i :: 0 <= i < |s| ==> White(s[i])
  }

  /** Like a document, but whatever is no string, array or object counts as a scalar, even nothing at all. */
  predicate Loose(doc: Doc, decode: Decoder) {
    match doc
    case Scalar(token) => forall i :: 0 <= i < |token| ==> !Ends(token[i])
    case Text(inner) => IsQuotable(inner)
    case EmptyArray(blank) => IsWhite(blank)
    case Array(elements) => LooseElements(elements, decode)
    case EmptyObject(blank) => IsWhite(blank)
    case Object(members) => LooseMembers(members, decode)
  }

  predicate LooseElements(es: Elements, decode: Decoder) {
    && IsWhite(es.before) && IsWhite(es.after) && Loose(es.value, decode)
    && (es.MoreElements? ==> LooseElements(es.rest, decode))
  }

  predicate LooseLabel(l: Label, decode: Decoder) {
    && IsWhite(l.before) && IsWhite(l.after) && IsWhite(l.beforeValue)
    && IsQuotable(l.key) && decode(Quoted(l.key)) == Some(l.token)
  }

  predicate LooseMembers(ms: Members, decode: Decoder) {
    && LooseLabel(ms.head, decode) && Loose(ms.value, decode) && IsWhite(ms.after)
    && (ms.MoreMembers? ==> LooseMembers(ms.rest, decode))
  }

  // ----- Pieces of a text -----

  lemma SliceLies(text: Bytes, from: nat, end: nat)
    requires from <= end <= |text|
    ensures At(text, from, text[from..end]) && |text[from..end]| == end - from
  {}

  /** Exactly the whitespace is skipped. */
  lemma {:induction false} SkippedIsWhite(text: Bytes, pos: nat)
    requires pos <= |text|
    ensures IsWhite(text[pos..SkipWhitespace(text, pos)])
    ensures SkipWhitespace(text, pos) < |text| ==> !White(text[SkipWhitespace(text, pos)])
    decreases |text| - pos
  {
    if pos < |text| && IsWhitespace(text[pos]) {
      SkippedIsWhite(text, pos + 1);
      var end := SkipWhitespace(text, pos);
      assert text[pos..end] == [text[pos]] + text[pos + 1..end];
    }
  }

  /** A scalar reaches exactly as far as nothing ends it. */
  lemma {:induction false} ScalarHasNoEnd(text: Bytes, pos: nat)
    requires pos <= |text|
    ensures forall i :: pos <= i < ScanScalar(text, pos) ==> !Ends(text[i])
    ensures ScanScalar(text, pos) < |text| ==> Ends(text[ScanScalar(text, pos)])
    decreases |text| - pos
  {
    if pos < |text| && !EndsScalar(text[pos]) { ScalarHasNoEnd(text, pos + 1); }
  }

  lemma {:induction false} QuotedIsQuotable(text: Bytes, pos: nat)
    requires ScanQuoted(text, pos).Some?
    ensures var end := ScanQuoted(text, pos).value; text[end - 1] == QUOTE && IsQuotable(text[pos..end - 1])
    decreases |text| - pos
  {
    var end := ScanQuoted(text, pos).value;
    if text[pos] == BACKSLASH {
      QuotedIsQuotable(text, pos + 2);
      assert text[pos..end - 1][2..] == text[pos + 2..end - 1];
    } else if text[pos] != QUOTE {
      QuotedIsQuotable(text, pos + 1);
      assert text[pos..end - 1][1..] == text[pos + 1..end - 1];
    } else {
      assert text[pos..end - 1] == [];
    }
  }

  lemma StringIsQuoted(text: Bytes, at: nat)
    requires at <= |text| && ScanString(text, at).Some?
    ensures var end := ScanString(text, at).value;
            && at + 2 <= end <= |text| && QuotedAt(text, at, text[at + 1..end - 1]) && IsQuotable(text[at + 1..end - 1])
            && text[at..end] == Quoted(text[at + 1..end - 1])
  {
    QuotedIsQuotable(text, at + 1);
    var end := ScanString(text, at).value;
    assert text[at..end] == [text[at]] + text[at + 1..end - 1] + [text[end - 1]];
  }

  /** Whitespace, and what is skipped behind it. */
  lemma SkippedBehind(text: Bytes, from: nat, pos: nat)
    requires from <= pos <= |text| && IsWhite(text[from..pos])
    ensures var at := SkipWhitespace(text, pos); IsWhite(text[from..at]) && At(text, from, text[from..at])
  {
    var at := SkipWhitespace(text, pos);
    SkippedIsWhite(text, pos);
    assert text[from..at] == text[from..pos] + text[pos..at];
  }

  lemma LabelLies(text: Bytes, decode: Decoder, from: nat, at: nat, end: nat, colon: nat, valueAt: nat, l: Label)
    requires from <= at && at + 2 <= end <= colon < valueAt <= |text|
    requires IsWhite(text[from..at]) && IsWhite(text[end..colon]) && IsWhite(text[colon + 1..valueAt])
    requires QuotedAt(text, at, text[at + 1..end - 1]) && IsQuotable(text[at + 1..end - 1]) && IsAt(text, colon, COLON)
    requires l == Label(text[from..at], text[at + 1..end - 1], l.token, text[end..colon], text[colon + 1..valueAt])
    requires decode(Quoted(l.key)) == Some(l.token)
    ensures LooseLabel(l, decode) && LabelLiesAt(text, from, l) && from + SizeOfLabel(l) == valueAt
  {
    SliceLies(text, from, at);
    SliceLies(text, end, colon);
    SliceLies(text, colon + 1, valueAt);
  }

  /** What a scanned key consists of. */
  ghost predicate KeyParts(text: Bytes, decode: Decoder, pos: nat, end: nat, colon: nat, key: Key)
    requires pos <= |text|
  {
    && key.at == SkipWhitespace(text, pos) && ScanString(text, key.at) == Some(end)
    && end <= |text| && colon == SkipWhitespace(text, end) && IsAt(text, colon, COLON)
    && key.at <= end && decode(text[key.at..end]) == Some(key.token) && key.valueAt == SkipWhitespace(text, colon + 1)
  }

  lemma KeyHasParts(text: Bytes, decode: Decoder, pos: nat) returns (end: nat, colon: nat)
    requires pos <= |text| && ScanKey(text, decode, pos).Some?
    ensures KeyParts(text, decode, pos, end, colon, ScanKey(text, decode, pos).value)
  {
    var at := SkipWhitespace(text, pos);
    end := ScanString(text, at).value;
    colon := SkipWhitespace(text, end);
  }

  /** The label a scanned key stands for, with the whitespace from `from` on. */
  lemma ScannedLabel(text: Bytes, decode: Decoder, from: nat, pos: nat, end: nat, colon: nat, key: Key) returns (l: Label)
    requires from <= pos <= |text| && IsWhite(text[from..pos]) && KeyParts(text, decode, pos, end, colon, key)
    ensures LooseLabel(l, decode) && LabelLiesAt(text, from, l) && from + SizeOfLabel(l) == key.valueAt
  {
    StringIsQuoted(text, key.at);
    SkippedBehind(text, from, pos);
    SkippedIsWhite(text, end);
    SkippedIsWhite(text, colon + 1);
    l := Label(text[from..key.at], text[key.at + 1..end - 1], key.token, text[end..colon], text[colon + 1..key.valueAt]);
    LabelLies(text, decode, from, key.at, end, colon, key.valueAt, l);
  }

  // ----- A scan that succeeds has read a document -----

  lemma ScannedScalar(text: Bytes, pos: nat, decode: Decoder) returns (doc: Doc)
    requires pos <= |text|
    ensures Loose(doc, decode) && LiesAt(text, pos, doc) && pos + Size(doc) == ScanScalar(text, pos)
  {
    ScalarHasNoEnd(text, pos);
    SliceLies(text, pos, ScanScalar(text, pos));
    doc := Scalar(text[pos..ScanScalar(text, pos)]);
  }

  lemma ScannedString(text: Bytes, pos: nat, decode: Decoder) returns (doc: Doc)
    requires pos <= |text| && ScanString(text, pos).Some?
    ensures Loose(doc, decode) && LiesAt(text, pos, doc) && pos + Size(doc) == ScanString(text, pos).value
  {
    StringIsQuoted(text, pos);
    doc := Text(text[pos + 1..ScanString(text, pos).value - 1]);
  }

  lemma {:induction false} ScannedObject(text: Bytes, decode: Decoder, pos: nat, path: Path, places: Places) returns (doc: Doc)
    requires IsAt(text, pos, OPEN_BRACE) && ScanValue(text, decode, pos, path, places).end.Some?
    ensures Loose(doc, decode) && LiesAt(text, pos, doc)
    ensures pos + Size(doc) == ScanValue(text, decode, pos, path, places).end.value
    decreases |text| - pos, 0
  {
    var first := SkipWhitespace(text, pos + 1);
    SkippedBehind(text, pos + 1, pos + 1);
    if text[first] == CLOSE_BRACE {
      doc := EmptyObject(text[pos + 1..first]);
    } else {
      var last := ScanValue(text, decode, pos, path, places).end.value;
      ScannedMembers(text, decode, pos + 1, first, path, places, last);
      var ms :| MembersRead(text, decode, pos + 1, ms, last);
      doc := Object(ms);
    }
  }

  lemma {:induction false} ScannedArray(text: Bytes, decode: Decoder, pos: nat, path: Path, places: Places) returns (doc: Doc)
    requires IsAt(text, pos, OPEN_BRACKET) && ScanValue(text, decode, pos, path, places).end.Some?
    ensures Loose(doc, decode) && LiesAt(text, pos, doc)
    ensures pos + Size(doc) == ScanValue(text, decode, pos, path, places).end.value
    decreases |text| - pos, 0
  {
    var first := SkipWhitespace(text, pos + 1);
    SkippedBehind(text, pos + 1, pos + 1);
    if text[first] == CLOSE_BRACKET {
      doc := EmptyArray(text[pos + 1..first]);
    } else {
      var last := ScanValue(text, decode, pos, path, places).end.value;
      ScannedElements(text, decode, pos + 1, first, 0, path, places, last);
      var es :| ElementsRead(text, decode, pos + 1, es, last);
      doc := Array(es);
    }
  }

  lemma {:induction false} ScannedValue(text: Bytes, decode: Decoder, pos: nat, path: Path, places: Places) returns (doc: Doc)
    requires pos <= |text| && ScanValue(text, decode, pos, path, places).end.Some?
    ensures Loose(doc, decode) && LiesAt(text, pos, doc)
    ensures pos + Size(doc) == ScanValue(text, decode, pos, path, places).end.value
    decreases |text| - pos, 1
  {
    if text[pos] == OPEN_BRACE {
      doc := ScannedObject(text, decode, pos, path, places);
    } else if text[pos] == OPEN_BRACKET {
      doc := ScannedArray(text, decode, pos, path, places);
    } else if text[pos] == QUOTE {
      doc := ScannedString(text, pos, decode);
    } else {
      doc := ScannedScalar(text, pos, decode);
    }
  }

  /** How a scan of members that succeeds goes on behind its first one. */
  ghost predicate MembersGo(text: Bytes, decode: Decoder, pos: nat, path: Path, places: Places, key: Key, end: nat, next: nat,
                            more: Places)
    requires pos <= |text|
  {
    && ScanKey(text, decode, pos) == Some(key) && pos <= key.at && key.valueAt <= |text|
    && ScanValue(text, decode, key.valueAt, path + [key.token], places[path + [key.token] := key.at]).end == Some(end)
    && end <= |text| && next == SkipWhitespace(text, end) && next < |text|
    && if text[next] == COMMA then ScanMembers(text, decode, pos, path, places) == ScanMembers(text, decode, next + 1, path, more)
       else text[next] == CLOSE_BRACE && ScanMembers(text, decode, pos, path, places).end == Some(next + 1)
  }

  lemma MembersGoOn(text: Bytes, decode: Decoder, pos: nat, path: Path, places: Places)
    returns (key: Key, end: nat, next: nat, more: Places)
    requires pos <= |text| && ScanMembers(text, decode, pos, path, places).end.Some?
    ensures MembersGo(text, decode, pos, path, places, key, end, next, more)
  {
    var member := ScanMember(text, decode, pos, path, places);
    key := ScanKey(text, decode, pos).value;
    end, more := member.end.value, member.places;
    next := SkipWhitespace(text, end);
  }

  lemma MembersAfterComma(text: Bytes, decode: Decoder, pos: nat, path: Path, places: Places, key: Key, end: nat, next: nat,
                          more: Places, last: nat)
    requires pos <= |text| && MembersGo(text, decode, pos, path, places, key, end, next, more)
    requires ScanMembers(text, decode, pos, path, places).end == Some(last)
    ensures pos <= next < |text| && IsWhite(text[next + 1..next + 1])
    ensures text[next] == COMMA ==> ScanMembers(text, decode, next + 1, path, more).end == Some(last)
    ensures text[next] != COMMA ==> IsAt(text, next, CLOSE_BRACE) && last == next + 1
  {}

  ghost predicate MembersRead(text: Bytes, decode: Decoder, from: nat, ms: Members, end: nat) {
    LooseMembers(ms, decode) && MembersLieAt(text, from, ms) && from + SizeOfMembers(ms) == end
  }

  ghost predicate MemberBetween(text: Bytes, decode: Decoder, from: nat, l: Label, value: Doc, end: nat, next: nat) {
    && from + SizeOfLabel(l) + Size(value) == end && end <= next < |text| && IsWhite(text[end..next])
    && LooseLabel(l, decode) && LabelLiesAt(text, from, l)
    && Loose(value, decode) && LiesAt(text, from + SizeOfLabel(l), value)
  }

  lemma LastMemberLies(text: Bytes, decode: Decoder, from: nat, l: Label, value: Doc, end: nat, next: nat, ms: Members)
    requires MemberBetween(text, decode, from, l, value, end, next) && IsAt(text, next, CLOSE_BRACE)
    requires ms == LastMember(l, value, text[end..next])
    ensures MembersRead(text, decode, from, ms, next + 1)
  {
    SliceLies(text, end, next);
  }

  lemma MoreMembersLie(text: Bytes, decode: Decoder, from: nat, l: Label, value: Doc, end: nat, next: nat, rest: Members, ms: Members,
                       last: nat)
    requires MemberBetween(text, decode, from, l, value, end, next) && IsAt(text, next, COMMA)
    requires MembersRead(text, decode, next + 1, rest, last)
    requires ms == MoreMembers(l, value, text[end..next], rest)
    ensures MembersRead(text, decode, from, ms, last)
  {
    SliceLies(text, end, next);
  }

  lemma {:induction false} ScannedMember(text: Bytes, decode: Decoder, from: nat, pos: nat, path: Path, places: Places, key: Key,
                                         end: nat, next: nat, more: Places)
    returns (l: Label, value: Doc)
    requires from <= pos <= |text| && IsWhite(text[from..pos]) && MembersGo(text, decode, pos, path, places, key, end, next, more)
    ensures MemberBetween(text, decode, from, l, value, end, next)
    decreases |text| - pos, 2
  {
    var keyEnd, colon := KeyHasParts(text, decode, pos);
    l := ScannedLabel(text, decode, from, pos, keyEnd, colon, key);
    value := ScannedValue(text, decode, key.valueAt, path + [key.token], places[path + [key.token] := key.at]);
    SkippedIsWhite(text, end);
  }

  lemma {:induction false} ScannedMembers(text: Bytes, decode: Decoder, from: nat, pos: nat, path: Path, places: Places,
                                          last: nat)
    requires from <= pos <= |text| && IsWhite(text[from..pos]) && ScanMembers(text, decode, pos, path, places).end == Some(last)
    ensures exists ms :: MembersRead(text, decode, from, ms, last)
    decreases |text| - pos, 3
  {
    var key, end, next, more := MembersGoOn(text, decode, pos, path, places);
    MembersAfterComma(text, decode, pos, path, places, key, end, next, more, last);
    var l, value := ScannedMember(text, decode, from, pos, path, places, key, end, next, more);
    if text[next] == COMMA {
      ScannedMembers(text, decode, next + 1, next + 1, path, more, last);
      var rest :| MembersRead(text, decode, next + 1, rest, last);
      MoreMembersLie(text, decode, from, l, value, end, next, rest, MoreMembers(l, value, text[end..next], rest), last);
    } else {
      LastMemberLies(text, decode, from, l, value, end, next, LastMember(l, value, text[end..next]));
    }
  }

  /** A value between whitespace, at `at`. */
  ghost predicate ValueBetween(text: Bytes, decode: Decoder, from: nat, at: nat, value: Doc, end: nat, next: nat) {
    && from <= at <= end <= next < |text| && at + Size(value) == end
    && IsWhite(text[from..at]) && IsWhite(text[end..next]) && Loose(value, decode) && LiesAt(text, at, value)
  }

  ghost predicate ElementsRead(text: Bytes, decode: Decoder, from: nat, es: Elements, end: nat) {
    LooseElements(es, decode) && ElementsLieAt(text, from, es) && from + SizeOfElements(es) == end
  }

  lemma LastElementLies(text: Bytes, decode: Decoder, from: nat, at: nat, value: Doc, end: nat, next: nat, es: Elements)
    requires ValueBetween(text, decode, from, at, value, end, next) && IsAt(text, next, CLOSE_BRACKET)
    requires es == LastElement(text[from..at], value, text[end..next])
    ensures ElementsRead(text, decode, from, es, next + 1)
  {
    SliceLies(text, from, at);
    SliceLies(text, end, next);
  }

  lemma MoreElementsLie(text: Bytes, decode: Decoder, from: nat, at: nat, value: Doc, end: nat, next: nat, rest: Elements, es: Elements,
                        last: nat)
    requires ValueBetween(text, decode, from, at, value, end, next) && IsAt(text, next, COMMA)
    requires ElementsRead(text, decode, next + 1, rest, last)
    requires es == MoreElements(text[from..at], value, text[end..next], rest)
    ensures ElementsRead(text, decode, from, es, last)
  {
    SliceLies(text, from, at);
    SliceLies(text, end, next);
  }

  ghost predicate ElementsGo(text: Bytes, decode: Decoder, pos: nat, index: nat, path: Path, places: Places, at: nat, end: nat,
                             next: nat, more: Places)
    requires pos <= |text|
  {
    && at == SkipWhitespace(text, pos)
    && ScanValue(text, decode, at, path + [Decimal(index)], places[path + [Decimal(index)] := at]).end == Some(end)
    && at <= end <= |text| && next == SkipWhitespace(text, end) && next < |text|
    && if text[next] == COMMA
       then ScanElements(text, decode, pos, index, path, places) == ScanElements(text, decode, next + 1, index + 1, path, more)
       else text[next] == CLOSE_BRACKET && ScanElements(text, decode, pos, index, path, places).end == Some(next + 1)
  }

  lemma ElementsGoOn(text: Bytes, decode: Decoder, pos: nat, index: nat, path: Path, places: Places)
    returns (at: nat, end: nat, next: nat, more: Places)
    requires pos <= |text| && ScanElements(text, decode, pos, index, path, places).end.Some?
    ensures ElementsGo(text, decode, pos, index, path, places, at, end, next, more)
  {
    var element := ScanElement(text, decode, pos, index, path, places);
    at := SkipWhitespace(text, pos);
    end, more := element.end.value, element.places;
    next := SkipWhitespace(text, end);
  }

  lemma ElementsAfterComma(text: Bytes, decode: Decoder, pos: nat, index: nat, path: Path, places: Places, at: nat, end: nat,
                           next: nat, more: Places, last: nat)
    requires pos <= |text| && ElementsGo(text, decode, pos, index, path, places, at, end, next, more)
    requires ScanElements(text, decode, pos, index, path, places).end == Some(last)
    ensures pos <= next < |text| && IsWhite(text[next + 1..next + 1])
    ensures text[next] == COMMA ==> ScanElements(text, decode, next + 1, index + 1, path, more).end == Some(last)
    ensures text[next] != COMMA ==> IsAt(text, next, CLOSE_BRACKET) && last == next + 1
  {}

  lemma {:induction false} ScannedElement(text: Bytes, decode: Decoder, from: nat, pos: nat, index: nat, path: Path,
                                          places: Places, at: nat, end: nat, next: nat, more: Places)
    returns (value: Doc)
    requires from <= pos <= |text| && IsWhite(text[from..pos])
    requires ElementsGo(text, decode, pos, index, path, places, at, end, next, more)
    ensures ValueBetween(text, decode, from, at, value, end, next)
    decreases |text| - pos, 2
  {
    value := ScannedValue(text, decode, at, path + [Decimal(index)], places[path + [Decimal(index)] := at]);
    SkippedBehind(text, from, pos);
    SkippedIsWhite(text, end);
  }

  lemma {:induction false} ScannedElements(text: Bytes, decode: Decoder, from: nat, pos: nat, index: nat, path: Path,
                                           places: Places, last: nat)
    requires from <= pos <= |text| && IsWhite(text[from..pos])
    requires ScanElements(text, decode, pos, index, path, places).end == Some(last)
    ensures exists es :: ElementsRead(text, decode, from, es, last)
    decreases |text| - pos, 3
  {
    var at, end, next, more := ElementsGoOn(text, decode, pos, index, path, places);
    ElementsAfterComma(text, decode, pos, index, path, places, at, end, next, more, last);
    var value := ScannedElement(text, decode, from, pos, index, path, places, at, end, next, more);
    if text[next] == COMMA {
      ScannedElements(text, decode, next + 1, next + 1, index + 1, path, more, last);
      var rest :| ElementsRead(text, decode, next + 1, rest, last);
      MoreElementsLie(text, decode, from, at, value, end, next, rest, MoreElements(text[from..at], value, text[end..next], rest), last);
    } else {
      LastElementLies(text, decode, from, at, value, end, next, LastElement(text[from..at], value, text[end..next]));
    }
  }

  // ----- A scan that fails keeps what it has found -----

  lemma MemberIsSound(text: Bytes, decode: Decoder, pos: nat, path: Path, places: Places)
    requires pos <= |text| && Sound(text, places) && path in places
    ensures var member := ScanMember(text, decode, pos, path, places);
            && Sound(text, member.places) && places.Keys <= member.places.Keys
            && (ScanKey(text, decode, pos).Some? ==> path + [ScanKey(text, decode, pos).value.token] in member.places)
  {
    var key := ScanKey(text, decode, pos);
    if key.Some? {
      var child := path + [key.value.token];
      OneMoreIsSound(text, places, path, key.value.token, key.value.at);
      ValueIsSound(text, decode, key.value.valueAt, child, places[child := key.value.at]);
      assert child in places[child := key.value.at].Keys;
    }
  }

  /** Whether it succeeds or fails, a scan holds what its first member found, and the member's own place once its key is read. */
  lemma MembersFoundStay(text: Bytes, decode: Decoder, pos: nat, path: Path, places: Places)
    requires pos <= |text| && Sound(text, places) && path in places
    ensures ScanMember(text, decode, pos, path, places).places.Keys <= ScanMembers(text, decode, pos, path, places).places.Keys
    ensures ScanKey(text, decode, pos).Some? ==>
              path + [ScanKey(text, decode, pos).value.token] in ScanMember(text, decode, pos, path, places).places
  {
    MemberIsSound(text, decode, pos, path, places);
    var member := ScanMember(text, decode, pos, path, places);
    if member.end.Some? && IsAt(text, SkipWhitespace(text, member.end.value), COMMA) {
      MembersAreSound(text, decode, SkipWhitespace(text, member.end.value) + 1, path, member.places);
    }
  }

  lemma ElementIsSound(text: Bytes, decode: Decoder, pos: nat, index: nat, path: Path, places: Places)
    requires pos <= |text| && Sound(text, places) && path in places
    ensures var element := ScanElement(text, decode, pos, index, path, places);
            Sound(text, element.places) && places.Keys <= element.places.Keys && path + [Decimal(index)] in element.places
  {
    var at := SkipWhitespace(text, pos);
    var child := path + [Decimal(index)];
    OneMoreIsSound(text, places, path, Decimal(index), at);
    ValueIsSound(text, decode, at, child, places[child := at]);
    assert child in places[child := at].Keys;
  }

  lemma ElementsFoundStay(text: Bytes, decode: Decoder, pos: nat, index: nat, path: Path, places: Places)
    requires pos <= |text| && Sound(text, places) && path in places
    ensures ScanElement(text, decode, pos, index, path, places).places.Keys
         <= ScanElements(text, decode, pos, index, path, places).places.Keys
    ensures path + [Decimal(index)] in ScanElement(text, decode, pos, index, path, places).places
  {
    ElementIsSound(text, decode, pos, index, path, places);
    var element := ScanElement(text, decode, pos, index, path, places);
    if element.end.Some? && IsAt(text, SkipWhitespace(text, element.end.value), COMMA) {
      ElementsAreSound(text, decode, SkipWhitespace(text, element.end.value) + 1, index + 1, path, element.places);
    }
  }

  /**
   * The index of any text at all: if the scan gets through, the text begins, behind whitespace, with something laid out like
   * a document; if not, the root and everything below it that was reached first is there all the same.
   */
  lemma WhatAScanReads(text: Bytes, decode: Decoder) returns (doc: Doc)
    ensures var root := SkipWhitespace(text, 0);
            var scan := ScanValue(text, decode, root, [], map[[] := root]);
            && ScanText(text, decode) == scan.places
            && (scan.end.Some? ==> Loose(doc, decode) && LiesAt(text, root, doc) && root + Size(doc) == scan.end.value)
  {
    var root := SkipWhitespace(text, 0);
    doc := Scalar([]);
    if ScanValue(text, decode, root, [], map[[] := root]).end.Some? {
      doc := ScannedValue(text, decode, root, [], map[[] := root]);
    }
  }
}
