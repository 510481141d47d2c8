/** JSON Pointer (RFC 6901) as payload-bound grants use it: which spellings the
    store accepts in a grant, and what each of them reaches in a payload. */
module JsonPointer {
  import opened Ledger

  datatype Json =
    | Null
    | Boolean(flag: bool)
    | Number(value: int)
    | Text(text: string)
    | Array(items: seq<Json>)
    | Object(fields: map<string, Json>)

  // ---------------------------------------------------------------------
  // Section 3: syntax
  // ---------------------------------------------------------------------

  function EscapeChar(c: char): string {
    if c == '~' then "~0" else if c == '/' then "~1" else [c]
  }

  function Escape(token: string): string {
    if token == "" then "" else EscapeChar(token[0]) + Escape(token[1..])
  }

  /** The pointer that names a path of reference tokens. */
  function Spell(tokens: seq<string>): string {
    if tokens == [] then "" else "/" + Escape(tokens[0]) + Spell(tokens[1..])
  }

  ghost predicate IsPointer(s: string) {
    exists tokens :: s == Spell(tokens)
  }

  /** Every `~` is followed by `0` or `1`. */
  predicate TildesEscaped(s: string) {
    s == "" || (if s[0] == '~' then |s| >= 2 && (s[1] == '0' || s[1] == '1') && TildesEscaped(s[2..])
                else TildesEscaped(s[1..]))
  }

  /** store::valid_pointer: a scan with one character of look-ahead. */
  method ValidPointer(pointer: string) returns (valid: bool)
    ensures valid <==> IsPointer(pointer)
  {
    PointerSyntax(pointer);
    if pointer == "" {
      return true;
    }
    if pointer[0] != '/' {
      return false;
    }
    var i := 0;
    while i < |pointer|
      invariant 0 <= i <= |pointer|
      invariant TildesEscaped(pointer) <==> TildesEscaped(pointer[i..])
    {
      var character := pointer[i];
      assert pointer[i..][1..] == pointer[i + 1..];
      i := i + 1;
      if character == '~' {
        if i == |pointer| || (pointer[i] != '0' && pointer[i] != '1') {
          return false;
        }
        assert pointer[i - 1..][2..] == pointer[i + 1..];
        i := i + 1;
      }
    }
    valid := true;
  }

  lemma {:induction false} EscapeIsEscaped(token: string, rest: string)
    requires TildesEscaped(rest)
    ensures TildesEscaped(Escape(token) + rest)
  {
    if token == "" {
      assert Escape(token) + rest == rest;
    } else {
      EscapeIsEscaped(token[1..], rest);
      var tail := Escape(token[1..]) + rest;
      CharIsEscaped(token[0], tail);
      assert Escape(token) + rest == EscapeChar(token[0]) + tail;
    }
  }

  lemma CharIsEscaped(c: char, tail: string)
    requires TildesEscaped(tail)
    ensures TildesEscaped(EscapeChar(c) + tail)
  {
    var s := EscapeChar(c) + tail;
    assert s[|EscapeChar(c)|..] == tail;
    if c == '/' {
      assert s[2..] == tail;
    }
  }

  lemma {:induction false} SpelledIsEscaped(tokens: seq<string>)
    ensures TildesEscaped(Spell(tokens))
  {
    if tokens != [] {
      SpelledIsEscaped(tokens[1..]);
      var escaped := Escape(tokens[0]) + Spell(tokens[1..]);
      EscapeIsEscaped(tokens[0], Spell(tokens[1..]));
      SlashFirst(Escape(tokens[0]), Spell(tokens[1..]));
      SlashIsHarmless(escaped);
    }
  }

  lemma SlashFirst(token: string, rest: string)
    ensures "/" + token + rest == ['/'] + (token + rest)
  {
  }

  lemma SlashIsHarmless(s: string)
    requires TildesEscaped(s)
    ensures TildesEscaped(['/'] + s)
  {
    assert (['/'] + s)[1..] == s;
  }

  /** Splits an escaped text into its first token and the pointer that follows. */
  lemma {:induction false} Parses(s: string) returns (token: string, tokens: seq<string>)
    requires TildesEscaped(s)
    ensures s == Escape(token) + Spell(tokens)
    decreases |s|
  {
    if s == "" {
      token, tokens := "", [];
    } else if s[0] == '/' {
      var first, rest := Parses(s[1..]);
      token, tokens := "", [first] + rest;
      SpellCons(first, rest);
      assert s == "/" + s[1..];
    } else {
      var c := EscapedHead(s);
      var first, rest := Parses(s[|EscapeChar(c)|..]);
      token, tokens := [c] + first, rest;
      EscapeBefore(c, first, Spell(rest));
    }
  }

  lemma SpellCons(first: string, rest: seq<string>)
    ensures Escape("") + Spell([first] + rest) == "/" + (Escape(first) + Spell(rest))
  {
    assert ([first] + rest)[1..] == rest;
  }

  lemma EscapeBefore(c: char, first: string, later: string)
    ensures Escape([c] + first) + later == EscapeChar(c) + (Escape(first) + later)
  {
    EscapeCons(c, first);
  }

  lemma EscapeCons(c: char, rest: string)
    ensures Escape([c] + rest) == EscapeChar(c) + Escape(rest)
  {
    assert ([c] + rest)[1..] == rest;
  }

  lemma EscapedHead(s: string) returns (c: char)
    requires TildesEscaped(s) && s != "" && s[0] != '/'
    ensures |EscapeChar(c)| <= |s| && s == EscapeChar(c) + s[|EscapeChar(c)|..]
    ensures TildesEscaped(s[|EscapeChar(c)|..])
  {
    c := if s[0] != '~' then s[0] else if s[1] == '0' then '~' else '/';
  }

  lemma PointerSyntax(pointer: string)
    ensures IsPointer(pointer) <==> pointer == "" || (pointer[0] == '/' && TildesEscaped(pointer))
  {
    if pointer == "" {
      assert pointer == Spell([]);
    } else if pointer[0] == '/' && TildesEscaped(pointer) {
      var first, rest := Parses(pointer[1..]);
      assert pointer == "/" + pointer[1..];
      assert pointer == Spell([first] + rest) by {
        assert ([first] + rest)[1..] == rest;
      }
    }
    forall tokens | pointer == Spell(tokens) ensures pointer == "" || (pointer[0] == '/' && TildesEscaped(pointer)) {
      SpelledIsEscaped(tokens);
    }
  }

  // ---------------------------------------------------------------------
  // Section 4: evaluation
  // ---------------------------------------------------------------------

  /** Replaces every `~` followed by `digit` by `with`, left to right. */
  function Replace(s: string, digit: char, with: char): string {
    if s == "" then ""
    else if s[0] == '~' && |s| >= 2 && s[1] == digit then [with] + Replace(s[2..], digit, with)
    else [s[0]] + Replace(s[1..], digit, with)
  }

  /** `~1` first and `~0` after it, so that `~01` means `~1` and not `/`. */
  function Unescape(s: string): string {
    Replace(Replace(s, '1', '/'), '0', '~')
  }

  /** Only the tilde written as `~0`: an escaped text half way back. */
  function TildesOnly(token: string): string {
    if token == "" then ""
    else (if token[0] == '~' then "~0" else [token[0]]) + TildesOnly(token[1..])
  }

  lemma {:induction false} SlashesComeBack(token: string)
    ensures Replace(Escape(token), '1', '/') == TildesOnly(token)
  {
    if token != "" {
      SlashesComeBack(token[1..]);
      var tail := Escape(token[1..]);
      if token[0] == '~' {
        assert Escape(token) == ['~'] + (['0'] + tail);
        assert Escape(token)[1..] == ['0'] + tail;
        assert (['0'] + tail)[1..] == tail;
        assert Replace(['0'] + tail, '1', '/') == ['0'] + Replace(tail, '1', '/');
      } else if token[0] == '/' {
        assert Escape(token)[2..] == tail;
      } else {
        assert Escape(token)[1..] == tail;
      }
    }
  }

  lemma {:induction false} TildesComeBack(token: string)
    ensures Replace(TildesOnly(token), '0', '~') == token
  {
    if token != "" {
      TildesComeBack(token[1..]);
      var tail := TildesOnly(token[1..]);
      if token[0] == '~' {
        assert TildesOnly(token)[2..] == tail;
      } else {
        assert TildesOnly(token)[1..] == tail;
      }
      assert token == [token[0]] + token[1..];
    }
  }

  /** Escaping loses nothing: every token, `~` and `/` included, reads back. */
  lemma UnescapeInvertsEscape(token: string)
    ensures Unescape(Escape(token)) == token
  {
    SlashesComeBack(token);
    TildesComeBack(token);
  }

  /** The text up to the first `/`, and what follows it. */
  function Cut(s: string): (parts: (string, Option<string>))
    ensures parts.1.Some? ==> |parts.1.value| < |s|
  {
    if s == "" then ("", None)
    else if s[0] == '/' then ("", Some(s[1..]))
    else
      var (head, rest) := Cut(s[1..]);
      ([s[0]] + head, rest)
  }

  function SplitAt(s: string): seq<string>
    decreases |s|
  {
    var (head, rest) := Cut(s);
    [Unescape(head)] + if rest.None? then [] else SplitAt(rest.value)
  }

  /** The tokens of a pointer, or None when it is not one. */
  function Tokens(pointer: string): Option<seq<string>> {
    if pointer == "" then Some([])
    else if pointer[0] != '/' then None
    else Some(SplitAt(pointer[1..]))
  }

  lemma {:induction false} CutEscaped(token: string, rest: string)
    requires rest == "" || rest[0] == '/'
    ensures Cut(Escape(token) + rest) == (Escape(token), if rest == "" then None else Some(rest[1..]))
  {
    if token == "" {
      assert Escape(token) + rest == rest;
    } else {
      var head, later := EscapeChar(token[0]), Escape(token[1..]);
      CutEscaped(token[1..], rest);
      CutChar(token[0], later + rest);
      assert Escape(token) == head + later;
      assert (head + later) + rest == head + (later + rest);
    }
  }

  lemma CutChar(c: char, tail: string)
    ensures Cut(EscapeChar(c) + tail) == (EscapeChar(c) + Cut(tail).0, Cut(tail).1)
  {
    var s := EscapeChar(c) + tail;
    if c == '~' || c == '/' {
      assert s[1..][1..] == tail;
      assert s[1..] == [s[1]] + tail;
      assert [s[0]] + ([s[1]] + Cut(tail).0) == EscapeChar(c) + Cut(tail).0;
    } else {
      assert s[1..] == tail;
    }
  }

  /** Reading a pointer back gives the tokens it was spelled from. */
  lemma {:induction false} TokensInvertsSpell(tokens: seq<string>)
    ensures Tokens(Spell(tokens)) == Some(tokens)
  {
    if tokens != [] {
      var pointer := Spell(tokens);
      TokensInvertsSpell(tokens[1..]);
      CutEscaped(tokens[0], Spell(tokens[1..]));
      assert pointer[1..] == Escape(tokens[0]) + Spell(tokens[1..]);
      UnescapeInvertsEscape(tokens[0]);
      assert tokens == [tokens[0]] + tokens[1..];
    }
  }

  predicate Digits(s: string) {
    forall i :: 0 <= i < |s| ==> '0' <= s[i] <= '9'
  }

  function DecimalOf(s: string): nat
    requires Digits(s)
  {
    if s == "" then 0 else DecimalOf(s[..|s| - 1]) * 10 + (s[|s| - 1] as nat - '0' as nat)
  }

  /** An array index has no sign and no leading zero. */
  function IndexOf(token: string): Option<nat> {
    if token == "" || !Digits(token) || (token[0] == '0' && |token| > 1) then None
    else Some(DecimalOf(token))
  }

  function Walk(json: Json, tokens: seq<string>): Option<Json> {
    if tokens == [] then Some(json)
    else match json
      case Object(fields) => if tokens[0] in fields then Walk(fields[tokens[0]], tokens[1..]) else None
      case Array(items) =>
        var index := IndexOf(tokens[0]);
        if index.Some? && index.value < |items| then Walk(items[index.value], tokens[1..]) else None
      case _ => None
  }

  /** Value::pointer. */
  function Resolve(json: Json, pointer: string): Option<Json> {
    var tokens := Tokens(pointer);
    if tokens.None? then None else Walk(json, tokens.value)
  }

  /** A pointer reaches exactly what its tokens name, whatever they contain. */
  lemma ResolveFollowsTheTokens(json: Json, tokens: seq<string>)
    ensures Resolve(json, Spell(tokens)) == Walk(json, tokens)
  {
    TokensInvertsSpell(tokens);
  }

  // ---------------------------------------------------------------------
  // What a token names
  // ---------------------------------------------------------------------

  /** A number as it is written: no sign, no leading zero. */
  function Numeral(n: nat): string {
    if n < 10 then ['0' + n as char] else Numeral(n / 10) + ['0' + (n % 10) as char]
  }

  lemma {:induction false} NumeralReads(n: nat)
    ensures Numeral(n) != "" && Digits(Numeral(n)) && DecimalOf(Numeral(n)) == n
    ensures n > 0 ==> Numeral(n)[0] != '0'
  {
    var s := Numeral(n);
    if n >= 10 {
      NumeralReads(n / 10);
      assert s[..|s| - 1] == Numeral(n / 10);
    } else {
      assert s[..0] == "" && DecimalOf(s[..0]) == 0;
    }
  }

  lemma {:induction false} ReadsAsNumeral(token: string)
    requires token != "" && Digits(token) && (token[0] == '0' ==> |token| == 1)
    ensures Numeral(DecimalOf(token)) == token
    ensures token[0] != '0' ==> DecimalOf(token) > 0
  {
    var front := token[..|token| - 1];
    if front != "" {
      assert front[0] == token[0];
      ReadsAsNumeral(front);
      assert DecimalOf(token) / 10 == DecimalOf(front);
    }
  }

  /** An index is what a numeral spells, and nothing else is one. */
  lemma IndexIffNumeral(token: string, n: nat)
    ensures IndexOf(token) == Some(n) <==> token == Numeral(n)
  {
    NumeralReads(n);
    if token != "" && Digits(token) && (token[0] == '0' ==> |token| == 1) {
      ReadsAsNumeral(token);
    }
  }

  /** One token at a time: a field of an object by its name, an item of an array by its
      numeral, and nothing of anything else. */
  lemma TokensName(json: Json, token: string, rest: seq<string>)
    ensures Walk(json, []) == Some(json)
    ensures json.Object? ==>
      Walk(json, [token] + rest) == if token in json.fields then Walk(json.fields[token], rest) else None
    ensures json.Array? ==> forall n :: 0 <= n < |json.items| && token == Numeral(n) ==>
      Walk(json, [token] + rest) == Walk(json.items[n], rest)
    ensures json.Array? && (forall n :: 0 <= n < |json.items| ==> token != Numeral(n)) ==>
      Walk(json, [token] + rest) == None
    ensures !json.Object? && !json.Array? ==> Walk(json, [token] + rest) == None
  {
    assert ([token] + rest)[1..] == rest;
    if json.Array? {
      forall n: nat {
        IndexIffNumeral(token, n);
      }
    }
  }

  /** What does not begin with a slash reaches nothing, and the empty pointer everything. */
  lemma OnlySlashesReach(json: Json, pointer: string)
    ensures pointer == "" ==> Resolve(json, pointer) == Some(json)
    ensures pointer != "" && pointer[0] != '/' ==> Resolve(json, pointer) == None
  {
  }

  /** Which escape is which, and that `~01` is `~1` and not `/`. */
  lemma EscapesAre(c: char)
    ensures Escape("~") == "~0" && Escape("/") == "~1" && (c != '~' && c != '/' ==> Escape([c]) == [c])
    ensures Unescape("~0") == "~" && Unescape("~1") == "/" && Unescape("~01") == "~1"
  {
    UnescapeInvertsEscape("~");
    UnescapeInvertsEscape("/");
    UnescapeInvertsEscape("~1");
    assert "~1" == ['~'] + "1" && "~1"[1..] == "1";
    assert Escape("1") == "1";
    assert Escape("~1") == "~0" + Escape("1");
    assert "~0" + "1" == "~01";
  }
}
