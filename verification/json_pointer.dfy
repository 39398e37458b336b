/** Pointer strings as RFC 6901 defines them: each token escaped, each preceded by a slash. */
module JsonPointers {
  import opened Wrappers

  type Path = seq<Bytes>

  const SLASH: byte := 47
  const TILDE: byte := 126
  const ZERO: byte := 48
  const ONE: byte := 49

  function Replace(s: Bytes, what: byte, with: Bytes): Bytes {
    if s == [] then [] else (if s[0] == what then with else [s[0]]) + Replace(s[1..], what, with)
  }

  /** The order of the two replacements matters: tildes first. */
  function EscapeToken(key: Bytes): Bytes {
    Replace(Replace(key, TILDE, [TILDE, ZERO]), SLASH, [TILDE, ONE])
  }

  /** Section 4 of RFC 6901, reading from the left. */
  function Unescape(token: Bytes): Bytes {
    if token == [] then []
    else if |token| >= 2 && token[0] == TILDE && token[1] == ONE then [SLASH] + Unescape(token[2..])
    else if |token| >= 2 && token[0] == TILDE && token[1] == ZERO then [TILDE] + Unescape(token[2..])
    else [token[0]] + Unescape(token[1..])
  }

  lemma {:induction false} ReplaceConcat(s: Bytes, t: Bytes, what: byte, with: Bytes)
    ensures Replace(s + t, what, with) == Replace(s, what, with) + Replace(t, what, with)
  {
    if s == [] {
      assert s + t == t;
    } else {
      ReplaceConcat(s[1..], t, what, with);
      assert (s + t)[1..] == s[1..] + t;
      var head := if s[0] == what then with else [s[0]];
      assert head + (Replace(s[1..], what, with) + Replace(t, what, with)) == (head + Replace(s[1..], what, with)) + Replace(t, what, with);
    }
  }

  function EscapedByte(b: byte): Bytes {
    if b == TILDE then [TILDE, ZERO] else if b == SLASH then [TILDE, ONE] else [b]
  }

  lemma ReplaceByte(b: byte, what: byte, with: Bytes)
    ensures Replace([b], what, with) == if b == what then with else [b]
  {
    assert [b][1..] == [];
    assert Replace([b][1..], what, with) == [];
  }

  lemma EscapedByteIsEscaped(b: byte)
    ensures EscapeToken([b]) == EscapedByte(b)
  {
    ReplaceByte(b, TILDE, [TILDE, ZERO]);
    if b == TILDE {
      ReplaceConcat([TILDE], [ZERO], SLASH, [TILDE, ONE]);
      ReplaceByte(TILDE, SLASH, [TILDE, ONE]);
      ReplaceByte(ZERO, SLASH, [TILDE, ONE]);
      assert [TILDE] + [ZERO] == [TILDE, ZERO];
    } else {
      ReplaceByte(b, SLASH, [TILDE, ONE]);
    }
  }

  /** Escaping goes byte by byte. */
  lemma EscapeStep(key: Bytes)
    requires key != []
    ensures EscapeToken(key) == EscapedByte(key[0]) + EscapeToken(key[1..])
  {
    assert key == [key[0]] + key[1..];
    ReplaceConcat([key[0]], key[1..], TILDE, [TILDE, ZERO]);
    ReplaceConcat(Replace([key[0]], TILDE, [TILDE, ZERO]), Replace(key[1..], TILDE, [TILDE, ZERO]), SLASH, [TILDE, ONE]);
    EscapedByteIsEscaped(key[0]);
  }

  lemma {:induction false} UnescapeEscape(key: Bytes)
    ensures Unescape(EscapeToken(key)) == key && SLASH !in EscapeToken(key)
  {
    if key != [] {
      EscapeStep(key);
      UnescapeEscape(key[1..]);
      var head, tail := EscapedByte(key[0]), EscapeToken(key[1..]);
      assert (head + tail)[|head|..] == tail;
    }
  }

  // ----- Pointers and their tokens -----

  function PointerOf(path: Path): Bytes {
    if path == [] then [] else PointerOf(path[..|path| - 1]) + [SLASH] + EscapeToken(path[|path| - 1])
  }

  function LastSlash(s: Bytes): (i: Option<nat>)
    ensures i.Some? ==> i.value < |s| && s[i.value] == SLASH
  {
    if s == [] then None
    else if s[|s| - 1] == SLASH then Some(|s| - 1)
    else LastSlash(s[..|s| - 1])
  }

  /** Section 3 of RFC 6901 read backwards: the tokens between the slashes. */
  function TokensOf(pointer: Bytes): Path
    decreases |pointer|
  {
    match LastSlash(pointer)
    case None => []
    case Some(i) => TokensOf(pointer[..i]) + [Unescape(pointer[i + 1..])]
  }

  lemma {:induction false} LastSlashBefore(parent: Bytes, token: Bytes)
    requires SLASH !in token
    ensures LastSlash(parent + [SLASH] + token) == Some(|parent|)
  {
    var pointer := parent + [SLASH] + token;
    if token != [] {
      LastSlashBefore(parent, token[..|token| - 1]);
      assert pointer[..|pointer| - 1] == parent + [SLASH] + token[..|token| - 1];
      assert pointer[|pointer| - 1] == token[|token| - 1];
    }
  }

  lemma PointerOfChild(path: Path, token: Bytes)
    ensures PointerOf(path + [token]) == PointerOf(path) + [SLASH] + EscapeToken(token)
  {
    assert (path + [token])[..|path|] == path;
  }

  /** The last slash of a pointer separates the parent's pointer from the last token. */
  lemma ParentOf(path: Path, token: Bytes)
    ensures var pointer := PointerOf(path + [token]);
            && LastSlash(pointer) == Some(|PointerOf(path)|)
            && pointer[..|PointerOf(path)|] == PointerOf(path)
            && pointer[|PointerOf(path)| + 1..] == EscapeToken(token)
  {
    PointerOfChild(path, token);
    UnescapeEscape(token);
    LastSlashBefore(PointerOf(path), EscapeToken(token));
  }

  lemma ParentPointer(path: Path)
    requires path != []
    ensures LastSlash(PointerOf(path)).Some?
    ensures PointerOf(path)[..LastSlash(PointerOf(path)).value] == PointerOf(path[..|path| - 1])
  {
    var parent, token := path[..|path| - 1], path[|path| - 1];
    ParentOf(parent, token);
    LastOnTop(path);
  }

  lemma LastOnTop(path: Path)
    requires path != []
    ensures path == path[..|path| - 1] + [path[|path| - 1]]
  {}

  /** Reading a pointer back gives the path it was made of. */
  lemma {:induction false} PointerRoundTrip(path: Path)
    ensures TokensOf(PointerOf(path)) == path
  {
    if path != [] {
      var parent, token := path[..|path| - 1], path[|path| - 1];
      assert path == parent + [token];
      ParentOf(parent, token);
      PointerRoundTrip(parent);
      UnescapeEscape(token);
    }
  }

  /** Distinct paths never share a pointer. */
  lemma PointerOfIsInjective(p: Path, q: Path)
    ensures PointerOf(p) == PointerOf(q) <==> p == q
  {
    PointerRoundTrip(p);
    PointerRoundTrip(q);
  }

  lemma {:induction false} PointerStartsWithSlash(path: Path)
    ensures path != [] ==> PointerOf(path) != [] && PointerOf(path)[0] == SLASH
  {
    if |path| > 1 { PointerStartsWithSlash(path[..|path| - 1]); }
  }

  // ----- Array indices -----

  function Decimal(n: nat): (digits: Bytes)
    ensures digits != [] && forall i :: 0 <= i < |digits| ==> 48 <= digits[i] <= 57
  {
    if n < 10 then [(48 + n) as byte] else Decimal(n / 10) + [(48 + n % 10) as byte]
  }

  function Value(digits: Bytes): int {
    if digits == [] then 0 else 10 * Value(digits[..|digits| - 1]) + (digits[|digits| - 1] as int - 48)
  }

  lemma {:induction false} DecimalRoundTrip(n: nat)
    ensures Value(Decimal(n)) == n
  {
    if n >= 10 {
      DecimalRoundTrip(n / 10);
      assert Decimal(n)[..|Decimal(n)| - 1] == Decimal(n / 10);
    } else {
      assert Decimal(n)[..0] == [];
    }
  }

  lemma DecimalIsInjective(m: nat, n: nat)
    ensures Decimal(m) == Decimal(n) <==> m == n
  {
    DecimalRoundTrip(m);
    DecimalRoundTrip(n);
  }

  /** Digits need no escaping. */
  lemma {:induction false} PlainIsNotEscaped(token: Bytes)
    requires forall i :: 0 <= i < |token| ==> token[i] != TILDE && token[i] != SLASH
    ensures EscapeToken(token) == token
  {
    if token != [] {
      EscapeStep(token);
      PlainIsNotEscaped(token[1..]);
    }
  }
}
