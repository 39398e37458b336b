/** The index of a document holds exactly the RFC 6901 pointers of its values, each with the place where it begins. */
module JsonExactness {
  import opened Wrappers
  import opened JsonPointers
  import opened JsonScan
  import opened JsonDocuments
  import opened JsonLayout
  import opened JsonTheorems
  import opened JsonIndexes

  // ----- The places of a container lie below its path -----

  ghost predicate AllBelow(places: Places, path: Path) {
    forall k {:trigger places[k]} {:trigger k in places} :: k in places ==> path < k
  }

  lemma {:induction false} PlacesLieBelow(doc: Doc, at: nat, path: Path)
    ensures AllBelow(PlacesIn(doc, at, path), path)
    decreases doc
  {
    match doc
    case Array(elements) => ElementPlacesLieBelow(elements, at + 1, 0, path);
    case Object(members) => MemberPlacesLieBelow(members, at + 1, path);
    case _ =>
  }

  lemma BelowChild(places: Places, path: Path, token: Bytes, at: nat)
    requires AllBelow(places, path + [token])
    ensures var all := map[path + [token] := at] + places;
            forall k :: k in all ==> path < k && k[|path|] == token
  {
    var child := path + [token];
    forall k | k in map[child := at] + places ensures path < k && k[|path|] == token {
      assert child <= k;
      assert k[..|path|] == child[..|path|] == path && k[|path|] == child[|path|];
    }
  }

  /** Every place of these elements continues with an index from `index` on. */
  lemma {:induction false} ElementPlacesLieBelow(es: Elements, at: nat, index: nat, path: Path)
    ensures var places := ElementPlaces(es, at, index, path);
            AllBelow(places, path) && forall k :: k in places ==> path < k && Value(k[|path|]) >= index
    decreases es
  {
    var valueAt := at + |es.before|;
    var child := path + [Decimal(index)];
    PlacesLieBelow(es.value, valueAt, child);
    BelowChild(PlacesIn(es.value, valueAt, child), path, Decimal(index), valueAt);
    DecimalRoundTrip(index);
    if es.MoreElements? { ElementPlacesLieBelow(es.rest, at + SizeOfElement(es) + 1, index + 1, path); }
  }

  /** Every place of these members continues with one of their keys. */
  lemma {:induction false} MemberPlacesLieBelow(ms: Members, at: nat, path: Path)
    ensures var places := MemberPlaces(ms, at, path);
            AllBelow(places, path) && forall k :: k in places ==> path < k && k[|path|] in Keys(ms)
    decreases ms
  {
    var keyAt, valueAt := at + |ms.head.before|, at + SizeOfLabel(ms.head);
    var child := path + [ms.head.token];
    PlacesLieBelow(ms.value, valueAt, child);
    BelowChild(PlacesIn(ms.value, valueAt, child), path, ms.head.token, keyAt);
    if ms.MoreMembers? { MemberPlacesLieBelow(ms.rest, at + SizeOfMember(ms) + 1, path); }
  }

  // ----- A place is what its tokens name -----

  ghost predicate Agrees(places: Places, path: Path, location: Option<nat>) {
    (path in places <==> location.Some?) && (path in places ==> places[path] == location.value)
  }

  lemma {:induction false} PlacesAreLocations(doc: Doc, at: nat, path: Path, tokens: Path)
    requires DistinctKeys(doc) && tokens != []
    ensures Agrees(PlacesIn(doc, at, path), path + tokens, LocateIn(doc, at, tokens))
    decreases doc
  {
    match doc
    case Array(elements) => ElementPlacesAreLocations(elements, at + 1, 0, path, tokens);
    case Object(members) => MemberPlacesAreLocations(members, at + 1, path, tokens);
    case _ =>
  }

  /** Below one child: the child itself, or something inside its value. */
  lemma ChildPlaces(inside: Places, path: Path, tokens: Path, at: nat, location: Option<nat>)
    requires tokens != [] && AllBelow(inside, path + [tokens[0]])
    requires |tokens| > 1 ==> Agrees(inside, (path + [tokens[0]]) + tokens[1..], location)
    ensures Agrees(map[path + [tokens[0]] := at] + inside, path + tokens, if |tokens| == 1 then Some(at) else location)
  {
    if |tokens| == 1 {
      assert path + tokens == path + [tokens[0]];
    } else {
      assert path + tokens == (path + [tokens[0]]) + tokens[1..];
      assert |path + tokens| > |path + [tokens[0]]|;
    }
  }

  lemma {:induction false} ElementPlacesAreLocations(es: Elements, at: nat, index: nat, path: Path, tokens: Path)
    requires DistinctInElements(es) && tokens != []
    ensures Agrees(ElementPlaces(es, at, index, path), path + tokens, LocateElement(es, at, index, tokens))
    decreases es
  {
    var valueAt := at + |es.before|;
    var next := at + SizeOfElement(es) + 1;
    var child := path + [Decimal(index)];
    DecimalRoundTrip(index);
    PlacesLieBelow(es.value, valueAt, child);
    if es.MoreElements? { ElementPlacesLieBelow(es.rest, next, index + 1, path); }
    assert (path + tokens)[|path|] == tokens[0];
    if tokens[0] == Decimal(index) {
      if |tokens| > 1 { PlacesAreLocations(es.value, valueAt, child, tokens[1..]); }
      ChildPlaces(PlacesIn(es.value, valueAt, child), path, tokens, valueAt,
                  if |tokens| > 1 then LocateIn(es.value, valueAt, tokens[1..]) else None);
    } else {
      BelowChild(PlacesIn(es.value, valueAt, child), path, Decimal(index), valueAt);
      if es.MoreElements? { ElementPlacesAreLocations(es.rest, next, index + 1, path, tokens); }
    }
  }

  lemma {:induction false} MemberPlacesAreLocations(ms: Members, at: nat, path: Path, tokens: Path)
    requires DistinctInMembers(ms) && tokens != []
    ensures Agrees(MemberPlaces(ms, at, path), path + tokens, LocateMember(ms, at, tokens))
    decreases ms
  {
    var keyAt, valueAt := at + |ms.head.before|, at + SizeOfLabel(ms.head);
    var next := at + SizeOfMember(ms) + 1;
    var child := path + [ms.head.token];
    PlacesLieBelow(ms.value, valueAt, child);
    if ms.MoreMembers? { MemberPlacesLieBelow(ms.rest, next, path); }
    assert (path + tokens)[|path|] == tokens[0];
    if tokens[0] == ms.head.token {
      if |tokens| > 1 { PlacesAreLocations(ms.value, valueAt, child, tokens[1..]); }
      ChildPlaces(PlacesIn(ms.value, valueAt, child), path, tokens, keyAt,
                  if |tokens| > 1 then LocateIn(ms.value, valueAt, tokens[1..]) else None);
    } else {
      BelowChild(PlacesIn(ms.value, valueAt, child), path, ms.head.token, keyAt);
      if ms.MoreMembers? { MemberPlacesAreLocations(ms.rest, next, path, tokens); }
    }
  }

  // ----- The whole text -----

  lemma PartsOfText(lead: Bytes, middle: Bytes, trail: Bytes)
    ensures At(lead + middle + trail, 0, lead) && At(lead + middle + trail, |lead|, middle)
    ensures At(lead + middle + trail, |lead| + |middle|, trail)
  {
    var text := lead + middle + trail;
    forall i | 0 <= i < |lead| ensures text[0 + i] == lead[i] {}
    forall i | 0 <= i < |middle| ensures text[|lead| + i] == middle[i] {}
    forall i | 0 <= i < |trail| ensures text[|lead| + |middle| + i] == trail[i] {}
  }

  lemma TrailStops(text: Bytes, at: nat, trail: Bytes)
    requires IsBlank(trail) && At(text, at, trail) && at + |trail| == |text|
    ensures Stops(text, at)
  {
    if trail != [] { AtFirst(text, at, trail); }
  }

  lemma DocumentLies(decode: Decoder, lead: Bytes, doc: Doc, trail: Bytes, text: Bytes)
    requires IsBlank(lead) && WellFormed(doc, decode) && IsBlank(trail) && text == lead + Print(doc) + trail
    ensures SkipWhitespace(text, 0) == |lead| && LiesAt(text, |lead|, doc) && Stops(text, |lead| + Size(doc))
  {
    PartsOfText(lead, Print(doc), trail);
    SizeIsPrinted(doc);
    PrintedLies(text, |lead|, doc);
    ValueBegins(text, |lead|, doc, decode);
    BlankSkipped(text, 0, lead);
    TrailStops(text, |lead| + Size(doc), trail);
  }

  lemma DocumentScanned(text: Bytes, decode: Decoder, doc: Doc, at: nat)
    requires WellFormed(doc, decode) && SkipWhitespace(text, 0) == at && LiesAt(text, at, doc) && Stops(text, at + Size(doc))
    ensures ScanText(text, decode) == map[[] := at] + PlacesIn(doc, at, [])
  {
    ValueBegins(text, at, doc, decode);
    ValueScanned(text, decode, doc, at, [], map[[] := at]);
  }

  /** The paths the scanner finds in a document are exactly the paths of its values. */
  lemma PathsAreExact(decode: Decoder, lead: Bytes, doc: Doc, trail: Bytes, tokens: Path)
    requires IsBlank(lead) && WellFormed(doc, decode) && IsBlank(trail) && DistinctKeys(doc)
    ensures Agrees(ScanText(lead + Print(doc) + trail, decode), tokens, Locate(doc, |lead|, tokens))
  {
    var text := lead + Print(doc) + trail;
    DocumentLies(decode, lead, doc, trail, text);
    DocumentScanned(text, decode, doc, |lead|);
    PlacesLieBelow(doc, |lead|, []);
    if tokens != [] {
      PlacesAreLocations(doc, |lead|, [], tokens);
      assert [] + tokens == tokens;
    }
  }

  /**
   * For every document, with any whitespace, whose objects have distinct keys: the index holds exactly the pointers of
   * its values, each with the offset at which its member key, its array element or the root begins.
   */
  lemma IndexIsExact(decode: Decoder, lead: Bytes, doc: Doc, trail: Bytes, index: JsonIndex)
    requires IsBlank(lead) && WellFormed(doc, decode) && IsBlank(trail) && DistinctKeys(doc)
    requires Represents(index.offsets, ScanText(lead + Print(doc) + trail, decode))
    ensures forall tokens ::
              var location := Locate(doc, |lead|, tokens);
              (PointerOf(tokens) in index.offsets <==> location.Some?)
              && (location.Some? ==> index.offsets[PointerOf(tokens)] == location.value)
    ensures forall pointer :: pointer in index.offsets ==> PointerOf(TokensOf(pointer)) == pointer
  {
    var places := ScanText(lead + Print(doc) + trail, decode);
    forall tokens
      ensures PointerOf(tokens) in index.offsets <==> Locate(doc, |lead|, tokens).Some?
      ensures Locate(doc, |lead|, tokens).Some? ==> index.offsets[PointerOf(tokens)] == Locate(doc, |lead|, tokens).value
    {
      PathsAreExact(decode, lead, doc, trail, tokens);
      RepresentedExactly(index.offsets, places, tokens);
    }
    forall pointer | pointer in index.offsets ensures PointerOf(TokensOf(pointer)) == pointer {
      assert index.offsets[pointer] >= 0;
    }
  }

  // ----- What stands at a location -----

  /** The text of what the tokens name: the quoted key of a member, the value of an element. */
  function TargetIn(doc: Doc, tokens: Path): Option<Bytes>
    requires tokens != []
  {
    match doc
    case Array(elements) => TargetElement(elements, 0, tokens)
    case Object(members) => TargetMember(members, tokens)
    case _ => None
  }

  function TargetElement(es: Elements, index: nat, tokens: Path): Option<Bytes>
    requires tokens != []
  {
    if tokens[0] == Decimal(index) then
      if |tokens| == 1 then Some(Print(es.value)) else TargetIn(es.value, tokens[1..])
    else if es.MoreElements? then TargetElement(es.rest, index + 1, tokens) else None
  }

  function TargetMember(ms: Members, tokens: Path): Option<Bytes>
    requires tokens != []
  {
    if tokens[0] == ms.head.token then
      if |tokens| == 1 then Some(Quoted(ms.head.key)) else TargetIn(ms.value, tokens[1..])
    else if ms.MoreMembers? then TargetMember(ms.rest, tokens) else None
  }

  ghost predicate StandsAt(text: Bytes, location: Option<nat>, target: Option<Bytes>) {
    (location.Some? <==> target.Some?) && (location.Some? ==> At(text, location.value, target.value))
  }

  /** At every location the text is that of the key or the element the tokens name. */
  lemma {:induction false} LocationsHoldTargets(text: Bytes, doc: Doc, at: nat, tokens: Path)
    requires tokens != [] && At(text, at, Print(doc))
    ensures StandsAt(text, LocateIn(doc, at, tokens), TargetIn(doc, tokens))
    decreases doc
  {
    match doc
    case Array(elements) =>
      AtByte(text, at, OPEN_BRACKET, PrintElements(elements));
      ElementLocationsHoldTargets(text, elements, at + 1, 0, tokens);
    case Object(members) =>
      AtByte(text, at, OPEN_BRACE, PrintMembers(members));
      MemberLocationsHoldTargets(text, members, at + 1, tokens);
    case _ =>
  }

  lemma {:induction false} ElementLocationsHoldTargets(text: Bytes, es: Elements, at: nat, index: nat, tokens: Path)
    requires tokens != [] && At(text, at, PrintElements(es))
    ensures StandsAt(text, LocateElement(es, at, index, tokens), TargetElement(es, index, tokens))
    decreases es
  {
    SizeOfElementsIsPrinted(es);
    var next := at + SizeOfElement(es);
    match es {
      case LastElement(_, _, _) =>
        AtLast(text, at, PrintElement(es), CLOSE_BRACKET);
      case MoreElements(_, _, _, rest) =>
        AtSplit(text, at, PrintElement(es), [COMMA] + PrintElements(rest));
        AtByte(text, next, COMMA, PrintElements(rest));
        ElementLocationsHoldTargets(text, rest, next + 1, index + 1, tokens);
    }
    PrintedElementLies(text, at, es);
    if |tokens| > 1 { LocationsHoldTargets(text, es.value, at + |es.before|, tokens[1..]); }
  }

  lemma {:induction false} MemberLocationsHoldTargets(text: Bytes, ms: Members, at: nat, tokens: Path)
    requires tokens != [] && At(text, at, PrintMembers(ms))
    ensures StandsAt(text, LocateMember(ms, at, tokens), TargetMember(ms, tokens))
    decreases ms
  {
    SizeOfMembersIsPrinted(ms);
    var next := at + SizeOfMember(ms);
    match ms {
      case LastMember(_, _, _) =>
        AtLast(text, at, PrintMember(ms), CLOSE_BRACE);
      case MoreMembers(_, _, _, rest) =>
        AtSplit(text, at, PrintMember(ms), [COMMA] + PrintMembers(rest));
        AtByte(text, next, COMMA, PrintMembers(rest));
        MemberLocationsHoldTargets(text, rest, next + 1, tokens);
    }
    PrintedMemberLies(text, at, ms);
    KeyTextLies(text, at, ms);
    if |tokens| > 1 { LocationsHoldTargets(text, ms.value, at + SizeOfLabel(ms.head), tokens[1..]); }
  }

  lemma KeyTextLies(text: Bytes, at: nat, ms: Members)
    requires At(text, at, PrintMember(ms))
    ensures At(text, at + |ms.head.before|, Quoted(ms.head.key))
  {
    var l := ms.head;
    AtSplit(text, at, PrintLabel(l), Print(ms.value) + ms.after);
    AtSplit(text, at, l.before, Quoted(l.key) + (l.after + ([COLON] + l.beforeValue)));
    AtSplit(text, at + |l.before|, Quoted(l.key), l.after + ([COLON] + l.beforeValue));
  }
}
