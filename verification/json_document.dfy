/**
 * JSON documents with any whitespace, as RFC 8259 lays them out, and the values RFC 6901 pointers name in them: what the
 * scanner finds in a printed document is exactly that.
 */
module JsonDocuments {
  import opened Wrappers
  import opened JsonPointers
  import opened JsonScan

  /** A member up to its value: its key as written, without quotes, and the token the key decodes to. */
  datatype Label = Label(before: Bytes, key: Bytes, token: Bytes, after: Bytes, beforeValue: Bytes)

  /** `blank`, `before` and `after` are whitespace; `inner` is a string without its quotes. */
  datatype Doc =
    | Scalar(token: Bytes)
    | Text(inner: Bytes)
    | EmptyArray(blank: Bytes)
    | Array(elements: Elements)
    | EmptyObject(blank: Bytes)
    | Object(members: Members)

  datatype Elements =
    | LastElement(before: Bytes, value: Doc, after: Bytes)
    | MoreElements(before: Bytes, value: Doc, after: Bytes, rest: Elements)

  datatype Members =
    | LastMember(head: Label, value: Doc, after: Bytes)
    | MoreMembers(head: Label, value: Doc, after: Bytes, rest: Members)

  // ----- Printing -----

  function Quoted(inner: Bytes): Bytes {
    [QUOTE] + inner + [QUOTE]
  }

  function Print(doc: Doc): Bytes {
    match doc
    case Scalar(token) => token
    case Text(inner) => Quoted(inner)
    case EmptyArray(blank) => [OPEN_BRACKET] + blank + [CLOSE_BRACKET]
    case Array(elements) => [OPEN_BRACKET] + PrintElements(elements)
    case EmptyObject(blank) => [OPEN_BRACE] + blank + [CLOSE_BRACE]
    case Object(members) => [OPEN_BRACE] + PrintMembers(members)
  }

  function PrintElement(es: Elements): Bytes
    decreases es, 0
  {
    es.before + (Print(es.value) + es.after)
  }

  function PrintElements(es: Elements): Bytes
    decreases es, 1
  {
    PrintElement(es) + match es
      case LastElement(_, _, _) => [CLOSE_BRACKET]
      case MoreElements(_, _, _, rest) => [COMMA] + PrintElements(rest)
  }

  function PrintLabel(l: Label): Bytes {
    l.before + (Quoted(l.key) + (l.after + ([COLON] + l.beforeValue)))
  }

  function PrintMember(ms: Members): Bytes
    decreases ms, 0
  {
    PrintLabel(ms.head) + (Print(ms.value) + ms.after)
  }

  function PrintMembers(ms: Members): Bytes
    decreases ms, 1
  {
    PrintMember(ms) + match ms
      case LastMember(_, _, _) => [CLOSE_BRACE]
      case MoreMembers(_, _, _, rest) => [COMMA] + PrintMembers(rest)
  }

  // ----- Sizes -----

  function Size(doc: Doc): nat {
    match doc
    case Scalar(token) => |token|
    case Text(inner) => |inner| + 2
    case EmptyArray(blank) => |blank| + 2
    case Array(elements) => 1 + SizeOfElements(elements)
    case EmptyObject(blank) => |blank| + 2
    case Object(members) => 1 + SizeOfMembers(members)
  }

  function SizeOfElement(es: Elements): nat
    decreases es, 0
  {
    |es.before| + Size(es.value) + |es.after|
  }

  function SizeOfElements(es: Elements): nat
    decreases es, 1
  {
    SizeOfElement(es) + 1 + if es.MoreElements? then SizeOfElements(es.rest) else 0
  }

  function SizeOfLabel(l: Label): nat {
    |l.before| + (|l.key| + 2) + |l.after| + 1 + |l.beforeValue|
  }

  function SizeOfMember(ms: Members): nat
    decreases ms, 0
  {
    SizeOfLabel(ms.head) + Size(ms.value) + |ms.after|
  }

  function SizeOfMembers(ms: Members): nat
    decreases ms, 1
  {
    SizeOfMember(ms) + 1 + if ms.MoreMembers? then SizeOfMembers(ms.rest) else 0
  }

  // ----- What is a document -----

  /** Section 2 of RFC 8259: space, tab, line feed and carriage return. */
  predicate IsBlank(s: Bytes) {
    forall i :: 0 <= i < |s| ==> s[i] == 32 || s[i] == 9 || s[i] == 10 || s[i] == 13
  }

  /** The bytes numbers, `true`, `false` and `null` are made of. */
  predicate IsScalarByte(b: byte) {
    48 <= b <= 57 || 65 <= b <= 90 || 97 <= b <= 122 || b == 43 || b == 45 || b == 46
  }

  /** Section 7 of RFC 8259: a quote only after a backslash, and no lone backslash. */
  predicate IsQuotable(inner: Bytes) {
    if inner == [] then true
    else if inner[0] == BACKSLASH then |inner| >= 2 && IsQuotable(inner[2..])
    else inner[0] != QUOTE && IsQuotable(inner[1..])
  }

  predicate WellFormed(doc: Doc, decode: Decoder) {
    match doc
    case Scalar(token) => token != [] && forall i :: 0 <= i < |token| ==> IsScalarByte(token[i])
    case Text(inner) => IsQuotable(inner)
    case EmptyArray(blank) => IsBlank(blank)
    case Array(elements) => WellFormedElements(elements, decode)
    case EmptyObject(blank) => IsBlank(blank)
    case Object(members) => WellFormedMembers(members, decode)
  }

  predicate WellFormedElements(es: Elements, decode: Decoder) {
    && IsBlank(es.before) && IsBlank(es.after) && WellFormed(es.value, decode)
    && (es.MoreElements? ==> WellFormedElements(es.rest, decode))
  }

  predicate WellFormedLabel(l: Label, decode: Decoder) {
    && IsBlank(l.before) && IsBlank(l.after) && IsBlank(l.beforeValue)
    && IsQuotable(l.key) && decode(Quoted(l.key)) == Some(l.token)
  }

  predicate WellFormedMembers(ms: Members, decode: Decoder) {
    && WellFormedLabel(ms.head, decode) && WellFormed(ms.value, decode) && IsBlank(ms.after)
    && (ms.MoreMembers? ==> WellFormedMembers(ms.rest, decode))
  }

  function Keys(ms: Members): set<Bytes> {
    {ms.head.token} + if ms.MoreMembers? then Keys(ms.rest) else {}
  }

  /** No object has two keys that decode to the same string. */
  predicate DistinctKeys(doc: Doc) {
    match doc
    case Array(elements) => DistinctInElements(elements)
    case Object(members) => DistinctInMembers(members)
    case _ => true
  }

  predicate DistinctInElements(es: Elements) {
    DistinctKeys(es.value) && (es.MoreElements? ==> DistinctInElements(es.rest))
  }

  predicate DistinctInMembers(ms: Members) {
    && DistinctKeys(ms.value)
    && (ms.MoreMembers? ==> ms.head.token !in Keys(ms.rest) && DistinctInMembers(ms.rest))
  }

  // ----- What tokens name -----

  /** The place of a value inside another one that begins at `at`; section 4 of RFC 6901. */
  function LocateIn(doc: Doc, at: nat, tokens: Path): Option<nat>
    requires tokens != []
  {
    match doc
    case Array(elements) => LocateElement(elements, at + 1, 0, tokens)
    case Object(members) => LocateMember(members, at + 1, tokens)
    case _ => None
  }

  /** An element is named by its index in decimal, and begins where its value does. */
  function LocateElement(es: Elements, at: nat, index: nat, tokens: Path): Option<nat>
    requires tokens != []
  {
    var valueAt := at + |es.before|;
    if tokens[0] == Decimal(index) then
      if |tokens| == 1 then Some(valueAt) else LocateIn(es.value, valueAt, tokens[1..])
    else
      match es
      case LastElement(_, _, _) => None
      case MoreElements(_, _, _, rest) => LocateElement(rest, at + SizeOfElement(es) + 1, index + 1, tokens)
  }

  /** A member is named by its decoded key, and begins where its key does. */
  function LocateMember(ms: Members, at: nat, tokens: Path): Option<nat>
    requires tokens != []
  {
    if tokens[0] == ms.head.token then
      if |tokens| == 1 then Some(at + |ms.head.before|) else LocateIn(ms.value, at + SizeOfLabel(ms.head), tokens[1..])
    else
      match ms
      case LastMember(_, _, _) => None
      case MoreMembers(_, _, _, rest) => LocateMember(rest, at + SizeOfMember(ms) + 1, tokens)
  }

  function Locate(doc: Doc, at: nat, tokens: Path): Option<nat> {
    if tokens == [] then Some(at) else LocateIn(doc, at, tokens)
  }

  // ----- What the scanner finds in a printed document -----

  function PlacesIn(doc: Doc, at: nat, path: Path): Places {
    match doc
    case Array(elements) => ElementPlaces(elements, at + 1, 0, path)
    case Object(members) => MemberPlaces(members, at + 1, path)
    case _ => map[]
  }

  function ElementPlaces(es: Elements, at: nat, index: nat, path: Path): Places
    decreases es, 1
  {
    var first := ElementPlace(es, at, path + [Decimal(index)]);
    match es
    case LastElement(_, _, _) => first
    case MoreElements(_, _, _, rest) => first + ElementPlaces(rest, at + SizeOfElement(es) + 1, index + 1, path)
  }

  function ElementPlace(es: Elements, at: nat, child: Path): Places
    decreases es, 0
  {
    map[child := at + |es.before|] + PlacesIn(es.value, at + |es.before|, child)
  }

  function MemberPlaces(ms: Members, at: nat, path: Path): Places
    decreases ms, 1
  {
    var first := MemberPlace(ms, at, path + [ms.head.token]);
    match ms
    case LastMember(_, _, _) => first
    case MoreMembers(_, _, _, rest) => first + MemberPlaces(rest, at + SizeOfMember(ms) + 1, path)
  }

  function MemberPlace(ms: Members, at: nat, child: Path): Places
    decreases ms, 0
  {
    map[child := at + |ms.head.before|] + PlacesIn(ms.value, at + SizeOfLabel(ms.head), child)
  }
}
