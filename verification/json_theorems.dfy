/** On a document with any whitespace the scanner finds exactly its values, and the index holds exactly their pointers. */
module JsonTheorems {
  import opened Wrappers
  import opened JsonPointers
  import opened JsonScan
  import opened JsonDocuments
  import opened JsonLayout

  // ----- Tokens -----

  lemma {:induction false} BlankSkipped(text: Bytes, at: nat, blank: Bytes)
    requires At(text, at, blank) && IsBlank(blank)
    requires at + |blank| == |text| || !IsWhitespace(text[at + |blank|])
    ensures SkipWhitespace(text, at) == at + |blank|
    decreases |blank|
  {
    if blank != [] {
      assert blank == [blank[0]] + blank[1..];
      AtByte(text, at, blank[0], blank[1..]);
      BlankSkipped(text, at + 1, blank[1..]);
    }
  }

  lemma {:induction false} QuotedScanned(text: Bytes, at: nat, inner: Bytes)
    requires At(text, at, inner) && IsQuotable(inner) && IsAt(text, at + |inner|, QUOTE)
    ensures ScanQuoted(text, at) == Some(at + |inner| + 1)
    decreases |inner|
  {
    if inner != [] {
      AtFirst(text, at, inner);
      var k := if inner[0] == BACKSLASH then 2 else 1;
      assert inner == inner[..k] + inner[k..];
      AtSplit(text, at, inner[..k], inner[k..]);
      QuotedScanned(text, at + k, inner[k..]);
    }
  }

  lemma StringScanned(text: Bytes, at: nat, inner: Bytes)
    requires QuotedAt(text, at, inner) && IsQuotable(inner)
    ensures ScanString(text, at) == Some(at + |inner| + 2)
  {
    QuotedScanned(text, at + 1, inner);
  }

  lemma QuotedText(text: Bytes, at: nat, inner: Bytes)
    requires QuotedAt(text, at, inner)
    ensures text[at..at + |inner| + 2] == Quoted(inner)
  {
    var slice := text[at..at + |inner| + 2];
    forall i | 0 <= i < |slice| ensures slice[i] == Quoted(inner)[i] {
      if 0 < i <= |inner| { assert text[at + 1 + (i - 1)] == inner[i - 1]; }
    }
  }

  /** What follows a value: the end, a separator, a closing byte or whitespace. */
  predicate Stops(text: Bytes, end: nat) {
    end >= |text| || EndsScalar(text[end])
  }

  lemma {:induction false} ScalarScanned(text: Bytes, at: nat, token: Bytes)
    requires At(text, at, token) && forall i :: 0 <= i < |token| ==> IsScalarByte(token[i])
    requires Stops(text, at + |token|)
    ensures ScanScalar(text, at) == at + |token|
    decreases |token|
  {
    if token != [] {
      assert token == [token[0]] + token[1..];
      AtByte(text, at, token[0], token[1..]);
      ScalarScanned(text, at + 1, token[1..]);
    }
  }

  /** A value's first byte is neither whitespace nor something that ends a scalar. */
  lemma ValueBegins(text: Bytes, at: nat, doc: Doc, decode: Decoder)
    requires WellFormed(doc, decode) && LiesAt(text, at, doc)
    ensures at < |text| && !IsWhitespace(text[at]) && !EndsScalar(text[at])
    ensures at + Size(doc) <= |text|
  {
    SizeFits(text, at, doc);
    if doc.Scalar? {
      AtFirst(text, at, doc.token);
      assert IsScalarByte(doc.token[0]);
    }
  }

  lemma {:induction false} SizeFits(text: Bytes, at: nat, doc: Doc)
    requires LiesAt(text, at, doc)
    ensures at + Size(doc) <= |text|
    decreases doc
  {
    match doc
    case Array(elements) => ElementsFit(text, at + 1, elements);
    case Object(members) => MembersFit(text, at + 1, members);
    case _ =>
  }

  lemma {:induction false} ElementsFit(text: Bytes, at: nat, es: Elements)
    requires ElementsLieAt(text, at, es)
    ensures at + SizeOfElements(es) <= |text|
    decreases es
  {
    if es.MoreElements? { ElementsFit(text, at + SizeOfElement(es) + 1, es.rest); }
  }

  lemma {:induction false} MembersFit(text: Bytes, at: nat, ms: Members)
    requires MembersLieAt(text, at, ms)
    ensures at + SizeOfMembers(ms) <= |text|
    decreases ms
  {
    if ms.MoreMembers? { MembersFit(text, at + SizeOfMember(ms) + 1, ms.rest); }
  }

  /** After a value come its trailing whitespace and then a separator or a closing byte. */
  lemma AfterValue(text: Bytes, at: nat, after: Bytes, b: byte)
    requires At(text, at, after) && IsBlank(after) && IsAt(text, at + |after|, b) && EndsScalar(b) && !IsWhitespace(b)
    ensures Stops(text, at) && SkipWhitespace(text, at) == at + |after|
  {
    BlankSkipped(text, at, after);
    if after != [] { AtFirst(text, at, after); }
  }

  lemma {:induction false} SkipTwice(text: Bytes, pos: nat)
    requires pos <= |text|
    ensures SkipWhitespace(text, SkipWhitespace(text, pos)) == SkipWhitespace(text, pos)
    decreases |text| - pos
  {
    if pos < |text| && IsWhitespace(text[pos]) { SkipTwice(text, pos + 1); }
  }

  /** One key, from the facts about its parts. */
  lemma KeyFound(text: Bytes, decode: Decoder, at: nat, keyAt: nat, keyEnd: nat, colonAt: nat, valueAt: nat)
    requires at <= |text| && SkipWhitespace(text, at) == keyAt && ScanString(text, keyAt) == Some(keyEnd)
    requires decode(text[keyAt..keyEnd]).Some? && SkipWhitespace(text, keyEnd) == colonAt && IsAt(text, colonAt, COLON)
    requires SkipWhitespace(text, colonAt + 1) == valueAt
    ensures ScanKey(text, decode, at) == Some(Key(keyAt, decode(text[keyAt..keyEnd]).value, valueAt))
  {}

  lemma BlanksOfLabel(text: Bytes, at: nat, l: Label)
    requires LabelLiesAt(text, at, l) && IsBlank(l.before) && IsBlank(l.after) && IsBlank(l.beforeValue)
    requires at + SizeOfLabel(l) < |text| && !IsWhitespace(text[at + SizeOfLabel(l)])
    ensures var keyAt := at + |l.before|;
            var keyEnd := keyAt + |l.key| + 2;
            var colonAt := keyEnd + |l.after|;
            && SkipWhitespace(text, at) == keyAt && SkipWhitespace(text, keyEnd) == colonAt
            && SkipWhitespace(text, colonAt + 1) == at + SizeOfLabel(l)
  {
    var keyEnd := at + |l.before| + |l.key| + 2;
    BlankSkipped(text, at, l.before);
    BlankSkipped(text, keyEnd, l.after);
    BlankSkipped(text, keyEnd + |l.after| + 1, l.beforeValue);
  }

  lemma LabelScanned(text: Bytes, at: nat, l: Label, decode: Decoder)
    requires WellFormedLabel(l, decode) && LabelLiesAt(text, at, l)
    requires at + SizeOfLabel(l) < |text| && !IsWhitespace(text[at + SizeOfLabel(l)])
    ensures SkipWhitespace(text, at) == at + |l.before|
    ensures ScanKey(text, decode, at) == Some(Key(at + |l.before|, l.token, at + SizeOfLabel(l)))
  {
    var keyAt := at + |l.before|;
    var keyEnd := keyAt + |l.key| + 2;
    BlanksOfLabel(text, at, l);
    StringScanned(text, keyAt, l.key);
    QuotedText(text, keyAt, l.key);
    KeyFound(text, decode, at, keyAt, keyEnd, keyEnd + |l.after|, at + SizeOfLabel(l));
  }

  // ----- Places accumulate -----

  lemma PlusOne(places: Places, path: Path, at: nat, more: Places)
    ensures places[path := at] + more == places + (map[path := at] + more)
  {}

  lemma PlusMore(a: Places, b: Places, c: Places)
    ensures (a + b) + c == a + (b + c)
  {}

  /** The scan ended there, having found these places. */
  predicate Finds(scan: Scan, end: nat, places: Places) {
    scan.end.Some? && scan.end.value == end && scan.places == places
  }

  // ----- One step of each loop -----

  /** The key found is the given one. */
  predicate KeyIs(key: Option<Key>, keyAt: nat, token: Bytes, valueAt: nat) {
    key.Some? && key.value.at == keyAt && key.value.token == token && key.value.valueAt == valueAt
  }

  lemma MemberStep(text: Bytes, decode: Decoder, at: nat, path: Path, places: Places, keyAt: nat, token: Bytes, valueAt: nat,
                   end: nat, more: Places, first: Places)
    requires first == map[path + [token] := keyAt] + more
    requires at <= |text| && valueAt <= |text| && KeyIs(ScanKey(text, decode, at), keyAt, token, valueAt)
    requires var child := path + [token];
             Finds(ScanValue(text, decode, valueAt, child, places[child := keyAt]), end, places[child := keyAt] + more)
    ensures Finds(ScanMember(text, decode, at, path, places), end, places + first)
  {
    PlusOne(places, path + [token], keyAt, more);
  }

  lemma MembersStep(text: Bytes, decode: Decoder, at: nat, path: Path, places: Places, end: nat, all: Places)
    requires at <= |text| && end <= |text| && Finds(ScanMember(text, decode, at, path, places), end, all)
    ensures var next := SkipWhitespace(text, end);
            && (IsAt(text, next, COMMA) ==>
                  ScanMembers(text, decode, at, path, places) == ScanMembers(text, decode, next + 1, path, all))
            && (IsAt(text, next, CLOSE_BRACE) ==> Finds(ScanMembers(text, decode, at, path, places), next + 1, all))
  {}

  lemma ElementStep(text: Bytes, decode: Decoder, at: nat, index: nat, path: Path, places: Places, end: nat,
                    more: Places,
                    first: Places)
    requires at <= |text| && first == map[path + [Decimal(index)] := SkipWhitespace(text, at)] + more
    requires var child, valueAt := path + [Decimal(index)], SkipWhitespace(text, at);
             Finds(ScanValue(text, decode, valueAt, child, places[child := valueAt]), end, places[child := valueAt] + more)
    ensures Finds(ScanElement(text, decode, at, index, path, places), end, places + first)
  {
    PlusOne(places, path + [Decimal(index)], SkipWhitespace(text, at), more);
  }

  lemma ElementsStep(text: Bytes, decode: Decoder, at: nat, index: nat, path: Path, places: Places, end: nat,
                     all: Places)
    requires at <= |text| && end <= |text| && Finds(ScanElement(text, decode, at, index, path, places), end, all)
    ensures var next := SkipWhitespace(text, end);
            && (IsAt(text, next, COMMA) ==>
                  ScanElements(text, decode, at, index, path, places) == ScanElements(text, decode, next + 1, index + 1, path, all))
            && (IsAt(text, next, CLOSE_BRACKET) ==>
                  Finds(ScanElements(text, decode, at, index, path, places), next + 1, all))
  {}

  // ----- The scanner on a document -----

  lemma {:induction false} ValueScanned(text: Bytes, decode: Decoder, doc: Doc, at: nat, path: Path, places: Places)
    requires WellFormed(doc, decode) && LiesAt(text, at, doc) && Stops(text, at + Size(doc))
    ensures Finds(ScanValue(text, decode, at, path, places), at + Size(doc), places + PlacesIn(doc, at, path))
    decreases doc
  {
    ValueBegins(text, at, doc, decode);
    match doc {
      case Scalar(token) =>
        AtFirst(text, at, token);
        ScalarScanned(text, at, token);
      case Text(inner) => StringScanned(text, at, inner);
      case EmptyArray(blank) => BlankSkipped(text, at + 1, blank);
      case EmptyObject(blank) => BlankSkipped(text, at + 1, blank);
      case Array(elements) => ArrayScanned(text, decode, elements, at, path, places);
      case Object(members) => ObjectScanned(text, decode, members, at, path, places);
    }
  }

  lemma {:induction false} ArrayScanned(text: Bytes, decode: Decoder, es: Elements, at: nat, path: Path, places: Places)
    requires WellFormedElements(es, decode) && IsAt(text, at, OPEN_BRACKET) && ElementsLieAt(text, at + 1, es)
    ensures Finds(ScanValue(text, decode, at, path, places), at + 1 + SizeOfElements(es), places + ElementPlaces(es, at + 1, 0, path))
    decreases es, 2
  {
    ValueBegins(text, at + 1 + |es.before|, es.value, decode);
    BlankSkipped(text, at + 1, es.before);
    ElementsFrom(text, decode, at + 1, 0, path, places);
    ElementsScanned(text, decode, es, at + 1, 0, path, places);
  }

  lemma {:induction false} ObjectScanned(text: Bytes, decode: Decoder, ms: Members, at: nat, path: Path, places: Places)
    requires WellFormedMembers(ms, decode) && IsAt(text, at, OPEN_BRACE) && MembersLieAt(text, at + 1, ms)
    ensures Finds(ScanValue(text, decode, at, path, places), at + 1 + SizeOfMembers(ms), places + MemberPlaces(ms, at + 1, path))
    decreases ms, 3
  {
    LabelFound(text, decode, ms, at + 1);
    MembersFrom(text, decode, at + 1, path, places);
    MembersScanned(text, decode, ms, at + 1, path, places);
  }

  /** Whitespace already skipped makes no difference. */
  lemma ElementsFrom(text: Bytes, decode: Decoder, pos: nat, index: nat, path: Path, places: Places)
    requires pos <= |text|
    ensures ScanElements(text, decode, SkipWhitespace(text, pos), index, path, places)
            == ScanElements(text, decode, pos, index, path, places)
  {
    SkipTwice(text, pos);
  }

  lemma MembersFrom(text: Bytes, decode: Decoder, pos: nat, path: Path, places: Places)
    requires pos <= |text|
    ensures ScanMembers(text, decode, SkipWhitespace(text, pos), path, places)
            == ScanMembers(text, decode, pos, path, places)
  {
    SkipTwice(text, pos);
  }

  lemma {:induction false} ElementScanned(text: Bytes, decode: Decoder, es: Elements, at: nat, index: nat, path: Path,
                                          places: Places)
    requires WellFormedElements(es, decode) && ElementsLieAt(text, at, es)
    ensures var end := at + |es.before| + Size(es.value);
            && end <= |text| && SkipWhitespace(text, end) == at + SizeOfElement(es)
            && Finds(ScanElement(text, decode, at, index, path, places), end, places + ElementPlace(es, at, path + [Decimal(index)]))
    decreases es, 0
  {
    var valueAt := at + |es.before|;
    var child := path + [Decimal(index)];
    ValueBegins(text, valueAt, es.value, decode);
    BlankSkipped(text, at, es.before);
    AfterValue(text, valueAt + Size(es.value), es.after, if es.LastElement? then CLOSE_BRACKET else COMMA);
    ValueScanned(text, decode, es.value, valueAt, child, places[child := valueAt]);
    ElementStep(text, decode, at, index, path, places, valueAt + Size(es.value), PlacesIn(es.value, valueAt, child),
                ElementPlace(es, at, child));
  }

  /** A comma: the places of the rest come on top. */
  lemma ElementsGoOn(text: Bytes, decode: Decoder, at: nat, index: nat, path: Path, places: Places, end: nat, next: nat,
                     last: nat, first: Places, rest: Places, all: Places)
    requires at <= |text| && end <= |text| && next < |text| && SkipWhitespace(text, end) == next && IsAt(text, next, COMMA)
    requires Finds(ScanElement(text, decode, at, index, path, places), end, places + first) && all == first + rest
    requires Finds(ScanElements(text, decode, next + 1, index + 1, path, places + first), last, (places + first) + rest)
    ensures Finds(ScanElements(text, decode, at, index, path, places), last, places + all)
  {
    ElementsStep(text, decode, at, index, path, places, end, places + first);
    PlusMore(places, first, rest);
  }

  lemma {:induction false} ElementsScanned(text: Bytes, decode: Decoder, es: Elements, at: nat, index: nat,
                                           path: Path, places: Places)
    requires WellFormedElements(es, decode) && ElementsLieAt(text, at, es)
    ensures Finds(ScanElements(text, decode, at, index, path, places), at + SizeOfElements(es), places + ElementPlaces(es, at, index, path))
    decreases es, 1
  {
    var first := ElementPlace(es, at, path + [Decimal(index)]);
    var end := at + |es.before| + Size(es.value);
    var next := at + SizeOfElement(es);
    ElementScanned(text, decode, es, at, index, path, places);
    if es.LastElement? {
      ElementsStep(text, decode, at, index, path, places, end, places + first);
    } else {
      ElementsScanned(text, decode, es.rest, next + 1, index + 1, path, places + first);
      ElementsGoOn(text, decode, at, index, path, places, end, next, at + SizeOfElements(es), first,
                   ElementPlaces(es.rest, next + 1, index + 1, path), ElementPlaces(es, at, index, path));
    }
  }

  lemma MemberFollowed(text: Bytes, decode: Decoder, ms: Members, at: nat)
    requires WellFormedMembers(ms, decode) && MembersLieAt(text, at, ms)
    ensures var end := at + SizeOfLabel(ms.head) + Size(ms.value);
            end <= |text| && Stops(text, end) && SkipWhitespace(text, end) == at + SizeOfMember(ms)
  {
    AfterValue(text, at + SizeOfLabel(ms.head) + Size(ms.value), ms.after, if ms.LastMember? then CLOSE_BRACE else COMMA);
  }

  lemma LabelFound(text: Bytes, decode: Decoder, ms: Members, at: nat)
    requires WellFormedMembers(ms, decode) && MembersLieAt(text, at, ms)
    ensures at <= |text| && SkipWhitespace(text, at) == at + |ms.head.before|
    ensures KeyIs(ScanKey(text, decode, at), at + |ms.head.before|, ms.head.token, at + SizeOfLabel(ms.head))
  {
    ValueBegins(text, at + SizeOfLabel(ms.head), ms.value, decode);
    LabelScanned(text, at, ms.head, decode);
  }

  /** With its key and its value found, a member is. */
  lemma MemberFound(text: Bytes, decode: Decoder, ms: Members, at: nat, path: Path, places: Places)
    requires var keyAt, valueAt, child := at + |ms.head.before|, at + SizeOfLabel(ms.head), path + [ms.head.token];
             && at <= |text| && valueAt <= |text| && KeyIs(ScanKey(text, decode, at), keyAt, ms.head.token, valueAt)
             && Finds(ScanValue(text, decode, valueAt, child, places[child := keyAt]), valueAt + Size(ms.value),
                      places[child := keyAt] + PlacesIn(ms.value, valueAt, child))
    ensures Finds(ScanMember(text, decode, at, path, places), at + SizeOfLabel(ms.head) + Size(ms.value),
                  places + MemberPlace(ms, at, path + [ms.head.token]))
  {
    var keyAt, valueAt, child := at + |ms.head.before|, at + SizeOfLabel(ms.head), path + [ms.head.token];
    MemberStep(text, decode, at, path, places, keyAt, ms.head.token, valueAt, valueAt + Size(ms.value),
               PlacesIn(ms.value, valueAt, child), MemberPlace(ms, at, child));
  }

  lemma {:induction false} MemberScanned(text: Bytes, decode: Decoder, ms: Members, at: nat, path: Path, places: Places)
    requires WellFormedMembers(ms, decode) && MembersLieAt(text, at, ms)
    ensures at <= |text|
    ensures Finds(ScanMember(text, decode, at, path, places), at + SizeOfLabel(ms.head) + Size(ms.value),
                  places + MemberPlace(ms, at, path + [ms.head.token]))
    decreases ms, 0
  {
    var keyAt, valueAt, child := at + |ms.head.before|, at + SizeOfLabel(ms.head), path + [ms.head.token];
    LabelFound(text, decode, ms, at);
    MemberFollowed(text, decode, ms, at);
    ValueScanned(text, decode, ms.value, valueAt, child, places[child := keyAt]);
    MemberFound(text, decode, ms, at, path, places);
  }

  /** Where the member ends, what separates it from the next, and that the rest lies beyond. */
  lemma MemberSeparated(text: Bytes, decode: Decoder, ms: Members, at: nat)
    requires WellFormedMembers(ms, decode) && MembersLieAt(text, at, ms)
    ensures var end, next := at + SizeOfLabel(ms.head) + Size(ms.value), at + SizeOfMember(ms);
            && at <= |text| && end <= |text| && SkipWhitespace(text, end) == next
            && SizeOfMembers(ms) == SizeOfMember(ms) + 1 + (if ms.MoreMembers? then SizeOfMembers(ms.rest) else 0)
            && (ms.LastMember? ==> IsAt(text, next, CLOSE_BRACE))
            && (ms.MoreMembers? ==> IsAt(text, next, COMMA) && MembersLieAt(text, next + 1, ms.rest)
                                    && WellFormedMembers(ms.rest, decode))
  {
    MemberFollowed(text, decode, ms, at);
    LabelFound(text, decode, ms, at);
  }

  /** One member is scanned: the scan of the members goes on behind its comma, or ends behind the closing brace. */
  ghost predicate Passes(text: Bytes, decode: Decoder, ms: Members, at: nat, path: Path, places: Places) {
    var next, more := at + SizeOfMember(ms) + 1, places + MemberPlace(ms, at, path + [ms.head.token]);
    && at <= |text| && next <= |text|
    && (ms.LastMember? ==> Finds(ScanMembers(text, decode, at, path, places), next, more))
    && (ms.MoreMembers? ==> ScanMembers(text, decode, at, path, places) == ScanMembers(text, decode, next, path, more))
  }

  lemma PassesFound(text: Bytes, decode: Decoder, ms: Members, at: nat, path: Path, places: Places)
    requires var end, next := at + SizeOfLabel(ms.head) + Size(ms.value), at + SizeOfMember(ms);
             && at <= |text| && end <= |text| && SkipWhitespace(text, end) == next
             && IsAt(text, next, if ms.LastMember? then CLOSE_BRACE else COMMA)
             && Finds(ScanMember(text, decode, at, path, places), end, places + MemberPlace(ms, at, path + [ms.head.token]))
    ensures Passes(text, decode, ms, at, path, places)
  {
    MembersStep(text, decode, at, path, places, at + SizeOfLabel(ms.head) + Size(ms.value),
                places + MemberPlace(ms, at, path + [ms.head.token]));
  }

  lemma MemberPassed(text: Bytes, decode: Decoder, ms: Members, at: nat, path: Path, places: Places)
    requires WellFormedMembers(ms, decode) && MembersLieAt(text, at, ms)
    ensures Passes(text, decode, ms, at, path, places)
    decreases ms, 1
  {
    MemberScanned(text, decode, ms, at, path, places);
    MemberSeparated(text, decode, ms, at);
    PassesFound(text, decode, ms, at, path, places);
  }

  lemma MembersPassed(text: Bytes, decode: Decoder, ms: Members, at: nat, path: Path, places: Places)
    requires Passes(text, decode, ms, at, path, places)
    requires var next, more := at + SizeOfMember(ms) + 1, places + MemberPlace(ms, at, path + [ms.head.token]);
             ms.MoreMembers? ==>
               Finds(ScanMembers(text, decode, next, path, more), next + SizeOfMembers(ms.rest), more + MemberPlaces(ms.rest, next, path))
    ensures Finds(ScanMembers(text, decode, at, path, places), at + SizeOfMembers(ms), places + MemberPlaces(ms, at, path))
  {
    if ms.MoreMembers? {
      PlusMore(places, MemberPlace(ms, at, path + [ms.head.token]), MemberPlaces(ms.rest, at + SizeOfMember(ms) + 1, path));
    }
  }

  lemma {:induction false} MembersScanned(text: Bytes, decode: Decoder, ms: Members, at: nat, path: Path, places: Places)
    requires WellFormedMembers(ms, decode) && MembersLieAt(text, at, ms)
    ensures at <= |text|
    ensures Finds(ScanMembers(text, decode, at, path, places), at + SizeOfMembers(ms), places + MemberPlaces(ms, at, path))
    decreases ms, 2
  {
    MemberPassed(text, decode, ms, at, path, places);
    if ms.MoreMembers? {
      var next := at + SizeOfMember(ms) + 1;
      MembersScanned(text, decode, ms.rest, next, path, places + MemberPlace(ms, at, path + [ms.head.token]));
    }
    MembersPassed(text, decode, ms, at, path, places);
  }
}
