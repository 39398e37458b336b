/** How a document lies in a text: each part at its place. A printed document lies where it is printed. */
module JsonLayout {
  import opened Wrappers
  import opened JsonPointers
  import opened JsonScan
  import opened JsonDocuments

  ghost predicate At(text: Bytes, at: nat, s: Bytes) {
    at + |s| <= |text| && forall i :: 0 <= i < |s| ==> text[at + i] == s[i]
  }

  ghost predicate QuotedAt(text: Bytes, at: nat, inner: Bytes) {
    IsAt(text, at, QUOTE) && At(text, at + 1, inner) && IsAt(text, at + 1 + |inner|, QUOTE)
  }

  ghost predicate LiesAt(text: Bytes, at: nat, doc: Doc)
    decreases doc
  {
    match doc
    case Scalar(token) => At(text, at, token)
    case Text(inner) => QuotedAt(text, at, inner)
    case EmptyArray(blank) =>
      IsAt(text, at, OPEN_BRACKET) && At(text, at + 1, blank) && IsAt(text, at + 1 + |blank|, CLOSE_BRACKET)
    case Array(elements) => IsAt(text, at, OPEN_BRACKET) && ElementsLieAt(text, at + 1, elements)
    case EmptyObject(blank) =>
      IsAt(text, at, OPEN_BRACE) && At(text, at + 1, blank) && IsAt(text, at + 1 + |blank|, CLOSE_BRACE)
    case Object(members) => IsAt(text, at, OPEN_BRACE) && MembersLieAt(text, at + 1, members)
  }

  ghost predicate ElementsLieAt(text: Bytes, at: nat, es: Elements)
    decreases es
  {
    var valueAt := at + |es.before|;
    var next := at + SizeOfElement(es);
    && At(text, at, es.before) && LiesAt(text, valueAt, es.value) && At(text, valueAt + Size(es.value), es.after)
    && match es
       case LastElement(_, _, _) => IsAt(text, next, CLOSE_BRACKET)
       case MoreElements(_, _, _, rest) => IsAt(text, next, COMMA) && ElementsLieAt(text, next + 1, rest)
  }

  ghost predicate LabelLiesAt(text: Bytes, at: nat, l: Label) {
    var keyAt := at + |l.before|;
    var keyEnd := keyAt + |l.key| + 2;
    var colonAt := keyEnd + |l.after|;
    && At(text, at, l.before) && QuotedAt(text, keyAt, l.key) && At(text, keyEnd, l.after)
    && IsAt(text, colonAt, COLON) && At(text, colonAt + 1, l.beforeValue)
  }

  ghost predicate MembersLieAt(text: Bytes, at: nat, ms: Members)
    decreases ms
  {
    var valueAt := at + SizeOfLabel(ms.head);
    var next := at + SizeOfMember(ms);
    && LabelLiesAt(text, at, ms.head) && LiesAt(text, valueAt, ms.value) && At(text, valueAt + Size(ms.value), ms.after)
    && match ms
       case LastMember(_, _, _) => IsAt(text, next, CLOSE_BRACE)
       case MoreMembers(_, _, _, rest) => IsAt(text, next, COMMA) && MembersLieAt(text, next + 1, rest)
  }

  // ----- A printed document lies where it is printed -----

  lemma AtSplit(text: Bytes, at: nat, s: Bytes, t: Bytes)
    requires At(text, at, s + t)
    ensures At(text, at, s) && At(text, at + |s|, t)
  {
    forall i | 0 <= i < |s| ensures text[at + i] == s[i] { assert (s + t)[i] == s[i]; }
    forall i | 0 <= i < |t| ensures text[at + |s| + i] == t[i] { assert (s + t)[|s| + i] == t[i]; }
  }

  lemma AtFirst(text: Bytes, at: nat, s: Bytes)
    requires At(text, at, s) && s != []
    ensures IsAt(text, at, s[0])
  {
    assert text[at + 0] == s[0];
  }

  lemma AtByte(text: Bytes, at: nat, b: byte, s: Bytes)
    requires At(text, at, [b] + s)
    ensures IsAt(text, at, b) && At(text, at + 1, s)
  {
    AtSplit(text, at, [b], s);
    AtFirst(text, at, [b]);
  }

  lemma AtLast(text: Bytes, at: nat, s: Bytes, b: byte)
    requires At(text, at, s + [b])
    ensures At(text, at, s) && IsAt(text, at + |s|, b)
  {
    AtSplit(text, at, s, [b]);
    AtFirst(text, at + |s|, [b]);
  }

  lemma QuotedLies(text: Bytes, at: nat, inner: Bytes)
    requires At(text, at, Quoted(inner))
    ensures QuotedAt(text, at, inner)
  {
    AtLast(text, at, [QUOTE] + inner, QUOTE);
    AtByte(text, at, QUOTE, inner);
  }

  lemma {:induction false} SizeIsPrinted(doc: Doc)
    ensures |Print(doc)| == Size(doc)
  {
    match doc
    case Array(elements) => SizeOfElementsIsPrinted(elements);
    case Object(members) => SizeOfMembersIsPrinted(members);
    case _ =>
  }

  lemma {:induction false} SizeOfElementsIsPrinted(es: Elements)
    ensures |PrintElement(es)| == SizeOfElement(es) && |PrintElements(es)| == SizeOfElements(es)
  {
    SizeIsPrinted(es.value);
    if es.MoreElements? { SizeOfElementsIsPrinted(es.rest); }
  }

  lemma {:induction false} SizeOfMembersIsPrinted(ms: Members)
    ensures |PrintLabel(ms.head)| == SizeOfLabel(ms.head)
    ensures |PrintMember(ms)| == SizeOfMember(ms) && |PrintMembers(ms)| == SizeOfMembers(ms)
  {
    SizeIsPrinted(ms.value);
    if ms.MoreMembers? { SizeOfMembersIsPrinted(ms.rest); }
  }

  lemma {:induction false} PrintedLies(text: Bytes, at: nat, doc: Doc)
    requires At(text, at, Print(doc))
    ensures LiesAt(text, at, doc)
    decreases doc
  {
    match doc
    case Scalar(_) =>
    case Text(inner) => QuotedLies(text, at, inner);
    case EmptyArray(blank) => EmptyLies(text, at, OPEN_BRACKET, blank, CLOSE_BRACKET);
    case EmptyObject(blank) => EmptyLies(text, at, OPEN_BRACE, blank, CLOSE_BRACE);
    case Array(elements) =>
      AtByte(text, at, OPEN_BRACKET, PrintElements(elements));
      PrintedElementsLie(text, at + 1, elements);
    case Object(members) =>
      AtByte(text, at, OPEN_BRACE, PrintMembers(members));
      PrintedMembersLie(text, at + 1, members);
  }

  lemma EmptyLies(text: Bytes, at: nat, open: byte, blank: Bytes, close: byte)
    requires At(text, at, [open] + blank + [close])
    ensures IsAt(text, at, open) && At(text, at + 1, blank) && IsAt(text, at + 1 + |blank|, close)
  {
    AtLast(text, at, [open] + blank, close);
    AtByte(text, at, open, blank);
  }

  lemma PrintedElementLies(text: Bytes, at: nat, es: Elements)
    requires At(text, at, PrintElement(es))
    ensures At(text, at, es.before) && At(text, at + |es.before|, Print(es.value))
    ensures At(text, at + |es.before| + Size(es.value), es.after)
  {
    SizeIsPrinted(es.value);
    AtSplit(text, at, es.before, Print(es.value) + es.after);
    AtSplit(text, at + |es.before|, Print(es.value), es.after);
  }

  lemma {:induction false} PrintedElementsLie(text: Bytes, at: nat, es: Elements)
    requires At(text, at, PrintElements(es))
    ensures ElementsLieAt(text, at, es)
    decreases es
  {
    SizeOfElementsIsPrinted(es);
    var next := at + SizeOfElement(es);
    match es {
      case LastElement(_, _, _) =>
        AtLast(text, at, PrintElement(es), CLOSE_BRACKET);
      case MoreElements(_, _, _, rest) =>
        AtSplit(text, at, PrintElement(es), [COMMA] + PrintElements(rest));
        AtByte(text, next, COMMA, PrintElements(rest));
        PrintedElementsLie(text, next + 1, rest);
    }
    PrintedElementLies(text, at, es);
    PrintedLies(text, at + |es.before|, es.value);
  }

  lemma PrintedLabelLies(text: Bytes, at: nat, l: Label)
    requires At(text, at, PrintLabel(l))
    ensures LabelLiesAt(text, at, l)
  {
    var keyAt := at + |l.before|;
    var keyEnd := keyAt + |l.key| + 2;
    AtSplit(text, at, l.before, Quoted(l.key) + (l.after + ([COLON] + l.beforeValue)));
    AtSplit(text, keyAt, Quoted(l.key), l.after + ([COLON] + l.beforeValue));
    QuotedLies(text, keyAt, l.key);
    AtSplit(text, keyEnd, l.after, [COLON] + l.beforeValue);
    AtByte(text, keyEnd + |l.after|, COLON, l.beforeValue);
  }

  lemma PrintedMemberLies(text: Bytes, at: nat, ms: Members)
    requires At(text, at, PrintMember(ms))
    ensures LabelLiesAt(text, at, ms.head) && At(text, at + SizeOfLabel(ms.head), Print(ms.value))
    ensures At(text, at + SizeOfLabel(ms.head) + Size(ms.value), ms.after)
  {
    SizeOfMembersIsPrinted(ms);
    SizeIsPrinted(ms.value);
    AtSplit(text, at, PrintLabel(ms.head), Print(ms.value) + ms.after);
    AtSplit(text, at + SizeOfLabel(ms.head), Print(ms.value), ms.after);
    PrintedLabelLies(text, at, ms.head);
  }

  lemma {:induction false} PrintedMembersLie(text: Bytes, at: nat, ms: Members)
    requires At(text, at, PrintMembers(ms))
    ensures MembersLieAt(text, at, ms)
    decreases ms
  {
    SizeOfMembersIsPrinted(ms);
    var next := at + SizeOfMember(ms);
    match ms {
      case LastMember(_, _, _) =>
        AtLast(text, at, PrintMember(ms), CLOSE_BRACE);
      case MoreMembers(_, _, _, rest) =>
        AtSplit(text, at, PrintMember(ms), [COMMA] + PrintMembers(rest));
        AtByte(text, next, COMMA, PrintMembers(rest));
        PrintedMembersLie(text, next + 1, rest);
    }
    PrintedMemberLies(text, at, ms);
    PrintedLies(text, at + SizeOfLabel(ms.head), ms.value);
  }
}
