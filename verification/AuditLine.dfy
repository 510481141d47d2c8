/** A line of the request audit says everything its event does: two events that differ
    have different lines, so what is read back is what was written. */
module AuditLine {
  import opened Ledger
  import opened AuditEvent

  /** Where a value ends. */
  ghost predicate Stops(rest: string) {
    rest != "" && (rest[0] == ',' || rest[0] == '}' || rest[0] == ']')
  }

  ghost predicate Free(s: string) {
    ',' !in s && '}' !in s && ']' !in s
  }

  lemma Strip(front: string, x: string, y: string)
    requires front + x == front + y
    ensures x == y
  {
    assert (front + x)[|front|..] == x && (front + y)[|front|..] == y;
  }

  /** The first character of another kind ends both. */
  lemma FirstStop(x: string, rest: string, y: string, more: string, p: char -> bool)
    requires (forall i :: 0 <= i < |x| ==> p(x[i])) && (forall i :: 0 <= i < |y| ==> p(y[i]))
    requires rest != "" && !p(rest[0]) && more != "" && !p(more[0])
    requires x + rest == y + more
    ensures x == y && rest == more
  {
    var whole := x + rest;
    assert whole[|x|] == rest[0] && whole[|y|] == more[0];
    assert forall i :: 0 <= i < |x| ==> whole[i] == x[i];
    assert forall i :: 0 <= i < |y| ==> whole[i] == y[i];
    assert whole[..|x|] == x && whole[..|y|] == y;
    assert whole[|x|..] == rest && whole[|y|..] == more;
  }

  lemma CutFree(v: string, rest: string, w: string, more: string)
    requires Free(v) && Free(w) && Stops(rest) && Stops(more) && v + rest == w + more
    ensures v == w && rest == more
  {
    FirstStop(v, rest, w, more, c => c != ',' && c != '}' && c != ']');
  }

  lemma CutQuoted(s: string, rest: string, t: string, more: string)
    requires '"' !in s && '"' !in t && Quote(s) + rest == Quote(t) + more
    ensures s == t && rest == more
  {
    assert Quote(s) + rest == "\"" + (s + ("\"" + rest)) && Quote(t) + more == "\"" + (t + ("\"" + more));
    Strip("\"", s + ("\"" + rest), t + ("\"" + more));
    FirstStop(s, "\"" + rest, t, "\"" + more, c => c != '"');
    Strip("\"", rest, more);
  }

  lemma QuotesTell(s: string, t: string)
    requires Quote(s) == Quote(t)
    ensures s == t
  {
    assert Quote(s)[1..|Quote(s)| - 1] == s && Quote(t)[1..|Quote(t)| - 1] == t;
  }

  // ---------------------------------------------------------------------
  // Numbers and ids
  // ---------------------------------------------------------------------

  lemma {:induction false} DecimalFree(n: nat)
    ensures Decimal(n) != "" && forall i :: 0 <= i < |Decimal(n)| ==> '0' <= Decimal(n)[i] <= '9'
    ensures Free(Decimal(n))
  {
    if n >= 10 {
      DecimalFree(n / 10);
    }
  }

  lemma {:induction false} DecimalTells(m: nat, n: nat)
    requires Decimal(m) == Decimal(n)
    ensures m == n
  {
    DecimalFree(m / 10);
    DecimalFree(n / 10);
    if m >= 10 && n >= 10 {
      LastTells(Decimal(m / 10), Digit(m % 10), Decimal(n / 10), Digit(n % 10));
      DecimalTells(m / 10, n / 10);
    }
  }

  lemma LastTells(a: string, x: char, b: string, y: char)
    requires a + [x] == b + [y]
    ensures a == b && x == y
  {
    assert (a + [x])[..|a|] == a && (b + [y])[..|b|] == b;
    assert (a + [x])[|a|] == x && (b + [y])[|b|] == y;
  }

  ghost function Sixteen(width: nat): (n: nat)
    ensures n > 0
  {
    if width == 0 then 1 else 16 * Sixteen(width - 1)
  }

  function HexChar(n: nat): char
    requires n < 16
  {
    if n < 10 then '0' + n as char else 'a' + (n - 10) as char
  }

  lemma {:induction false} HexTells(m: nat, n: nat, width: nat)
    requires Hex(m, width) == Hex(n, width)
    ensures m % Sixteen(width) == n % Sixteen(width)
  {
    if width > 0 {
      assert Hex(m, width) == Hex(m / 16, width - 1) + [HexChar(m % 16)];
      assert Hex(n, width) == Hex(n / 16, width - 1) + [HexChar(n % 16)];
      LastTells(Hex(m / 16, width - 1), HexChar(m % 16), Hex(n / 16, width - 1), HexChar(n % 16));
      HexTells(m / 16, n / 16, width - 1);
      Digitwise(m, Sixteen(width - 1));
      Digitwise(n, Sixteen(width - 1));
    }
  }

  lemma Digitwise(m: nat, k: nat)
    requires k > 0
    ensures m % (16 * k) == 16 * ((m / 16) % k) + m % 16
  {
    var q, r := (m / 16) / k, (m / 16) % k;
    var low := 16 * r + m % 16;
    assert m == 16 * (q * k + r) + m % 16;
    assert m == q * (16 * k) + low by {
      assert 16 * (q * k) == q * (16 * k);
    }
    assert low < 16 * k;
    DivisionIsUnique(m, 16 * k, q, low);
  }

  lemma DivisionIsUnique(m: nat, k: nat, q: nat, r: nat)
    requires k > 0 && r < k && m == q * k + r
    ensures m % k == r
  {
    var p, s := m / k, m % k;
    assert m == p * k + s;
    assert p * k - q * k == (p - q) * k;
    SmallMultiple(p - q, k);
  }

  lemma SmallMultiple(d: int, k: int)
    requires k > 0 && -k < d * k < k
    ensures d == 0
  {
    assert d >= 1 ==> (d - 1) * k >= 0;
    assert d <= -1 ==> (-d - 1) * k >= 0;
    assert (d - 1) * k == d * k - k && (-d - 1) * k == -(d * k) - k;
  }

  lemma Widths()
    ensures Sixteen(4) == 0x1_0000 && Sixteen(8) == 0x1_0000_0000 && Sixteen(12) == 0x1_0000_0000_0000
  {
    assert Sixteen(4) == 0x1_0000;
    assert Sixteen(6) == 0x100_0000;
    assert Sixteen(8) == 0x1_0000_0000;
    assert Sixteen(10) == 0x100_0000_0000;
  }

  const IDS: nat := 0x1_0000_0000_0000_0000_0000_0000_0000_0000

  lemma UuidTells(a: Id, b: Id)
    requires a < IDS && b < IDS && Uuid(a) == Uuid(b)
    ensures a == b
  {
    var la, ha := a % 0x1_0000_0000_0000_0000, a / 0x1_0000_0000_0000_0000;
    var lb, hb := b % 0x1_0000_0000_0000_0000, b / 0x1_0000_0000_0000_0000;
    UuidGroups(ha, la, Uuid(a));
    UuidGroups(hb, lb, Uuid(b));
    HexTells(ha / 0x1_0000_0000, hb / 0x1_0000_0000, 8);
    HexTells(ha / 0x1_0000, hb / 0x1_0000, 4);
    HexTells(ha, hb, 4);
    HexTells(la / 0x1_0000_0000_0000, lb / 0x1_0000_0000_0000, 4);
    HexTells(la, lb, 12);
    Widths();
    SameHalf(ha, hb);
    SameLow(la, lb);
  }

  lemma SameHalf(a: nat, b: nat)
    requires a < 0x1_0000_0000_0000_0000 && b < 0x1_0000_0000_0000_0000
    requires a / 0x1_0000_0000 % 0x1_0000_0000 == b / 0x1_0000_0000 % 0x1_0000_0000
    requires a / 0x1_0000 % 0x1_0000 == b / 0x1_0000 % 0x1_0000 && a % 0x1_0000 == b % 0x1_0000
    ensures a == b
  {
  }

  lemma SameLow(a: nat, b: nat)
    requires a < 0x1_0000_0000_0000_0000 && b < 0x1_0000_0000_0000_0000
    requires a / 0x1_0000_0000_0000 % 0x1_0000 == b / 0x1_0000_0000_0000 % 0x1_0000
    requires a % 0x1_0000_0000_0000 == b % 0x1_0000_0000_0000
    ensures a == b
  {
  }

  lemma UuidGroups(high: nat, low: nat, text: string)
    requires text == Hex(high / 0x1_0000_0000, 8) + "-" + Hex(high / 0x1_0000, 4) + "-" + Hex(high, 4) + "-"
                     + Hex(low / 0x1_0000_0000_0000, 4) + "-" + Hex(low, 12)
    ensures |text| == 36 && text[..8] == Hex(high / 0x1_0000_0000, 8) && text[9..13] == Hex(high / 0x1_0000, 4)
    ensures text[14..18] == Hex(high, 4) && text[19..23] == Hex(low / 0x1_0000_0000_0000, 4)
    ensures text[24..] == Hex(low, 12)
  {
    HexLength(high / 0x1_0000_0000, 8);
    HexLength(high / 0x1_0000, 4);
    HexLength(high, 4);
    HexLength(low / 0x1_0000_0000_0000, 4);
    HexLength(low, 12);
    FiveGroups(Hex(high / 0x1_0000_0000, 8), Hex(high / 0x1_0000, 4), Hex(high, 4), Hex(low / 0x1_0000_0000_0000, 4),
               Hex(low, 12), text);
  }

  lemma FiveGroups(a: string, b: string, c: string, d: string, e: string, text: string)
    requires |a| == 8 && |b| == |c| == |d| == 4 && |e| == 12
    requires text == a + "-" + b + "-" + c + "-" + d + "-" + e
    ensures |text| == 36 && text[..8] == a && text[9..13] == b && text[14..18] == c && text[19..23] == d
    ensures text[24..] == e
  {
  }

  lemma {:induction false} IdsFree(ids: seq<Id>)
    ensures ']' !in AuditEvent.Ids(ids)
    ensures |AuditEvent.Ids(ids)| == if ids == [] then 0 else 39 * |ids| - 1
  {
    if ids != [] {
      IdsFree(ids[..|ids| - 1]);
      UuidLength(ids[|ids| - 1]);
    }
  }

  ghost predicate Proper(ids: seq<Id>) {
    forall i :: 0 <= i < |ids| ==> ids[i] < IDS
  }

  lemma SameCount(a: seq<Id>, b: seq<Id>)
    requires AuditEvent.Ids(a) == AuditEvent.Ids(b)
    ensures |a| == |b|
  {
    IdsFree(a);
    IdsFree(b);
  }

  lemma {:induction false} IdsTell(a: seq<Id>, b: seq<Id>)
    requires Proper(a) && Proper(b) && AuditEvent.Ids(a) == AuditEvent.Ids(b)
    ensures a == b
  {
    SameCount(a, b);
    if a != [] {
      var m := |a| - 1;
      LastIdTells(a, b, m);
      UuidTells(a[m], b[m]);
      IdsTell(a[..m], b[..m]);
      SameSequence(a, b, m);
    }
  }

  lemma SameSequence(a: seq<Id>, b: seq<Id>, m: nat)
    requires |a| == |b| == m + 1 && a[..m] == b[..m] && a[m] == b[m]
    ensures a == b
  {
    assert a == a[..m] + [a[m]] && b == b[..m] + [b[m]];
  }

  lemma LastIdTells(a: seq<Id>, b: seq<Id>, m: nat)
    requires |a| == |b| == m + 1 && AuditEvent.Ids(a) == AuditEvent.Ids(b)
    ensures AuditEvent.Ids(a[..m]) == AuditEvent.Ids(b[..m]) && Uuid(a[m]) == Uuid(b[m])
  {
    UuidLength(a[m]);
    UuidLength(b[m]);
    var front, back, x, y := AuditEvent.Ids(a[..m]), AuditEvent.Ids(b[..m]), Quote(Uuid(a[m])), Quote(Uuid(b[m]));
    var comma := if m == 0 then "" else ",";
    assert AuditEvent.Ids(a) == (front + comma) + x && AuditEvent.Ids(b) == (back + comma) + y;
    SameEnds(front + comma, x, back + comma, y);
    QuotesTell(Uuid(a[m]), Uuid(b[m]));
    SameEnds(front, comma, back, comma);
  }

  lemma SameEnds(a: string, x: string, b: string, y: string)
    requires a + x == b + y && |x| == |y|
    ensures a == b && x == y
  {
    assert (a + x)[..|a|] == a && (b + y)[..|b|] == b;
    assert (a + x)[|a|..] == x && (b + y)[|b|..] == y;
  }

  // ---------------------------------------------------------------------
  // Text
  // ---------------------------------------------------------------------

  lemma TextFree(value: Option<string>)
    requires Absent(value)
    ensures Free(Optional(value)) && (value.Some? ==> '"' !in value.value)
  {
    if value.Some? && DigestReference(value.value) {
      var s := value.value;
      assert s == "sha256:" + s[7..];
    }
  }

  lemma OptionalTells(a: Option<string>, b: Option<string>)
    requires Optional(a) == Optional(b)
    ensures a == b
  {
    assert Optional(a)[0] == if a.None? then 'n' else '"';
    assert Optional(b)[0] == if b.None? then 'n' else '"';
    if a.Some? {
      QuotesTell(a.value, b.value);
    }
  }

  lemma WordQuotes(word: string)
    requires OperationOf(word) == word
    ensures '"' !in word
  {
  }

  lemma WordDots(word: string)
    requires OperationOf(word) == word
    ensures '.' !in word && word != ""
  {
  }

  lemma DottedQuotes(words: seq<string>)
    requires 1 <= |words| <= 2 && forall word :: word in words ==> OperationOf(word) == word
    ensures '"' !in Dotted(words)
  {
    assert words[0] in words;
    WordQuotes(words[0]);
    if |words| == 2 {
      assert words[1] in words && words[1..] == [words[1]];
      WordQuotes(words[1]);
    }
  }

  lemma DottedTells(a: seq<string>, b: seq<string>)
    requires 1 <= |a| <= 2 && forall word :: word in a ==> OperationOf(word) == word
    requires 1 <= |b| <= 2 && forall word :: word in b ==> OperationOf(word) == word
    requires Dotted(a) == Dotted(b)
    ensures a == b
  {
    assert a[0] in a && b[0] in b;
    WordDots(a[0]);
    WordDots(b[0]);
    FirstWord(a[0], AfterDot(a), b[0], AfterDot(b));
    SameWords(a, b);
  }

  lemma FirstWord(v: string, x: string, w: string, y: string)
    requires '.' !in v && '.' !in w && v + x == w + y
    requires (x == "" || x[0] == '.') && (y == "" || y[0] == '.')
    ensures v == w && x == y
  {
    assert (v + x) + "." == v + (x + ".") && (w + y) + "." == w + (y + ".");
    FirstStop(v, x + ".", w, y + ".", c => c != '.');
    SameEnds(x, ".", y, ".");
  }

  lemma SameWords(a: seq<string>, b: seq<string>)
    requires 1 <= |a| <= 2 && 1 <= |b| <= 2 && a[0] == b[0] && AfterDot(a) == AfterDot(b)
    ensures a == b
  {
    assert |a| == |b|;
    if |a| == 2 {
      Strip(".", a[1], b[1]);
    }
  }

  ghost function AfterDot(words: seq<string>): (rest: string)
    requires 1 <= |words| <= 2
    ensures Dotted(words) == words[0] + rest
    ensures rest == if |words| == 1 then "" else "." + words[1]
  {
    assert |words| == 2 ==> words[1..] == [words[1]];
    if |words| == 1 then "" else "." + words[1]
  }

  // ---------------------------------------------------------------------
  // The two nested values
  // ---------------------------------------------------------------------

  lemma NumberFree(n: Option<U64>)
    ensures Free(Number(n)) && Number(n) != "" && (Number(n)[0] == 'n' <==> n.None?)
  {
    if n.Some? {
      DecimalFree(n.value);
    }
  }

  lemma NumberTells(a: Option<U64>, b: Option<U64>)
    requires Number(a) == Number(b)
    ensures a == b
  {
    NumberFree(a);
    NumberFree(b);
    if a.Some? {
      DecimalTells(a.value, b.value);
    }
  }

  lemma FlagTells(a: Option<bool>, b: Option<bool>)
    requires Flag(a) == Flag(b)
    ensures a == b
  {
    assert Flag(a)[0] == if a.None? then 'n' else if a.value then 't' else 'f';
    assert Flag(b)[0] == if b.None? then 'n' else if b.value then 't' else 'f';
  }

  lemma ArgumentsSplit(a: Arguments, rest: string)
    ensures ArgumentsJson(a) + rest ==
      "{\"sha256\":" + (Quote(a.sha256) + (",\"bytes\":" + (Decimal(a.bytes)
      + (",\"items\":" + (Decimal(a.items) + ("}" + rest))))))
  {
  }

  lemma ArgumentsTell(a: Arguments, rest: string, b: Arguments, more: string)
    requires HexDigest(a.sha256) && HexDigest(b.sha256)
    requires ArgumentsJson(a) + rest == ArgumentsJson(b) + more
    ensures a == b && rest == more
  {
    ArgumentsSplit(a, rest);
    ArgumentsSplit(b, more);
    var x3, y3 := Decimal(a.items) + ("}" + rest), Decimal(b.items) + ("}" + more);
    var x2, y2 := Decimal(a.bytes) + (",\"items\":" + x3), Decimal(b.bytes) + (",\"items\":" + y3);
    var x1, y1 := Quote(a.sha256) + (",\"bytes\":" + x2), Quote(b.sha256) + (",\"bytes\":" + y2);
    Strip("{\"sha256\":", x1, y1);
    CutQuoted(a.sha256, ",\"bytes\":" + x2, b.sha256, ",\"bytes\":" + y2);
    Strip(",\"bytes\":", x2, y2);
    DecimalCut(a.bytes, ",\"items\":" + x3, b.bytes, ",\"items\":" + y3);
    Strip(",\"items\":", x3, y3);
    DecimalCut(a.items, "}" + rest, b.items, "}" + more);
    Strip("}", rest, more);
  }

  lemma DecimalCut(m: nat, rest: string, n: nat, more: string)
    requires Stops(rest) && Stops(more) && Decimal(m) + rest == Decimal(n) + more
    ensures m == n && rest == more
  {
    DecimalFree(m);
    DecimalFree(n);
    CutFree(Decimal(m), rest, Decimal(n), more);
    DecimalTells(m, n);
  }

  /** What an output is written as from its count on. */
  ghost function CountOn(o: Output, rest: string): string {
    Number(o.count) + (",\"ids\":[" + (AuditEvent.Ids(o.ids)
    + ("],\"receipt_sha256\":" + (Optional(o.receipt) + ("}" + rest)))))
  }

  lemma OutputSplit(o: Output, rest: string)
    ensures OutputJson(o) + rest ==
      "{\"durable\":" + (Flag(o.durable) + (",\"sha256\":" + (Quote(o.sha256)
      + (",\"bytes\":" + (Decimal(o.bytes) + (",\"count\":" + CountOn(o, rest)))))))
  {
    Regrouped("{\"durable\":", Flag(o.durable), ",\"sha256\":", Quote(o.sha256), ",\"bytes\":", Decimal(o.bytes),
              ",\"count\":", Number(o.count), ",\"ids\":[", AuditEvent.Ids(o.ids), "],\"receipt_sha256\":",
              Optional(o.receipt), "}", rest);
  }

  lemma Regrouped(a: string, b: string, c: string, d: string, e: string, f: string,
                  g: string, h: string, i: string, j: string, k: string, l: string, m: string, rest: string)
    ensures ((a + b + c + d + e + f) + (g + h + i + j + k + l + m)) + rest ==
      a + (b + (c + (d + (e + (f + (g + (h + (i + (j + (k + (l + (m + rest))))))))))))
  {
  }

  ghost function BytesOn(o: Output, rest: string): string {
    Decimal(o.bytes) + (",\"count\":" + CountOn(o, rest))
  }

  lemma OutputTells(a: Output, rest: string, b: Output, more: string)
    requires HexDigest(a.sha256) && (a.receipt.Some? ==> HexDigest(a.receipt.value)) && Proper(a.ids)
    requires HexDigest(b.sha256) && (b.receipt.Some? ==> HexDigest(b.receipt.value)) && Proper(b.ids)
    requires OutputJson(a) + rest == OutputJson(b) + more
    ensures a == b && rest == more
  {
    OutputSplit(a, rest);
    OutputSplit(b, more);
    OutputStart(a.durable, a.sha256, BytesOn(a, rest), b.durable, b.sha256, BytesOn(b, more));
    DecimalCut(a.bytes, ",\"count\":" + CountOn(a, rest), b.bytes, ",\"count\":" + CountOn(b, more));
    Strip(",\"count\":", CountOn(a, rest), CountOn(b, more));
    CountOnTells(a, rest, b, more);
  }

  lemma OutputStart(d: Option<bool>, s: string, x: string, e: Option<bool>, t: string, y: string)
    requires HexDigest(s) && HexDigest(t)
    requires "{\"durable\":" + (Flag(d) + (",\"sha256\":" + (Quote(s) + (",\"bytes\":" + x))))
          == "{\"durable\":" + (Flag(e) + (",\"sha256\":" + (Quote(t) + (",\"bytes\":" + y))))
    ensures d == e && s == t && x == y
  {
    var v, w := Quote(s) + (",\"bytes\":" + x), Quote(t) + (",\"bytes\":" + y);
    Strip("{\"durable\":", Flag(d) + (",\"sha256\":" + v), Flag(e) + (",\"sha256\":" + w));
    CutFree(Flag(d), ",\"sha256\":" + v, Flag(e), ",\"sha256\":" + w);
    FlagTells(d, e);
    Strip(",\"sha256\":", v, w);
    CutQuoted(s, ",\"bytes\":" + x, t, ",\"bytes\":" + y);
    Strip(",\"bytes\":", x, y);
  }

  lemma CountOnTells(a: Output, rest: string, b: Output, more: string)
    requires (a.receipt.Some? ==> HexDigest(a.receipt.value)) && Proper(a.ids)
    requires (b.receipt.Some? ==> HexDigest(b.receipt.value)) && Proper(b.ids)
    requires CountOn(a, rest) == CountOn(b, more)
    ensures a.count == b.count && a.ids == b.ids && a.receipt == b.receipt && rest == more
  {
    var x, y := Optional(a.receipt) + ("}" + rest), Optional(b.receipt) + ("}" + more);
    CountAndIds(a.count, a.ids, x, b.count, b.ids, y);
    CutFree(Optional(a.receipt), "}" + rest, Optional(b.receipt), "}" + more);
    OptionalTells(a.receipt, b.receipt);
    Strip("}", rest, more);
  }

  lemma CountAndIds(m: Option<U64>, a: seq<Id>, x: string, n: Option<U64>, b: seq<Id>, y: string)
    requires Proper(a) && Proper(b)
    requires Number(m) + (",\"ids\":[" + (AuditEvent.Ids(a) + ("],\"receipt_sha256\":" + x)))
          == Number(n) + (",\"ids\":[" + (AuditEvent.Ids(b) + ("],\"receipt_sha256\":" + y)))
    ensures m == n && a == b && x == y
  {
    var v, w := AuditEvent.Ids(a) + ("],\"receipt_sha256\":" + x), AuditEvent.Ids(b) + ("],\"receipt_sha256\":" + y);
    NumberFree(m);
    NumberFree(n);
    CutFree(Number(m), ",\"ids\":[" + v, Number(n), ",\"ids\":[" + w);
    NumberTells(m, n);
    Strip(",\"ids\":[", v, w);
    IdsCut(a, "],\"receipt_sha256\":" + x, b, "],\"receipt_sha256\":" + y);
    Strip("],\"receipt_sha256\":", x, y);
  }

  lemma IdsCut(a: seq<Id>, x: string, b: seq<Id>, y: string)
    requires Proper(a) && Proper(b) && x != "" && x[0] == ']' && y != "" && y[0] == ']'
    requires AuditEvent.Ids(a) + x == AuditEvent.Ids(b) + y
    ensures a == b && x == y
  {
    IdsFree(a);
    IdsFree(b);
    FirstStop(AuditEvent.Ids(a), x, AuditEvent.Ids(b), y, c => c != ']');
    IdsTell(a, b);
  }

  // ---------------------------------------------------------------------
  // Field by field
  // ---------------------------------------------------------------------

  /** The two events say the same of this field. */
  ghost predicate Agree(a: Event, b: Event, f: Field) {
    match f
    case SchemaVersion => a.schemaVersion == b.schemaVersion
    case EventId => a.id == b.id
    case ObservedAt => a.observedAt == b.observedAt
    case Duration => a.duration == b.duration
    case Surface => a.surface == b.surface
    case Operation => a.operation == b.operation
    case Project => a.project == b.project
    case Role => a.role == b.role
    case Process => a.process == b.process
    case Pid => a.pid == b.pid
    case Actor => a.actor == b.actor
    case Lane => a.lane == b.lane
    case Instance => a.instance == b.instance
    case Session => a.session == b.session
    case OutcomeField => a.outcome == b.outcome
    case DomainOutcome => a.domainOutcome == b.domainOutcome
    case ErrorClass => a.errorClass == b.errorClass
    case ArgumentsField => a.arguments == b.arguments
    case OutputField => a.output == b.output
  }

  /** What a captured event is, whose ids are UUIDs. */
  ghost predicate Written(e: Event) {
    Captured(e) && e.operation != [] && e.id < IDS && Proper(e.output.ids)
  }

  lemma ClassFree(class': string)
    requires ErrorClassOf(class') == class'
    ensures Free(Quote(class'))
  {
  }

  lemma StampFree(stamp: string)
    requires forall i :: 0 <= i < |stamp| ==> StampChar(stamp[i])
    ensures Free(Quote(stamp))
  {
  }

  lemma FewWordsFree(e: Event)
    requires ValidEvent(e)
    ensures Free(Quote(e.surface)) && Free(Quote(e.outcome)) && Free(Quote(e.domainOutcome))
  {
    assert Accepted(e, Surface) && Accepted(e, OutcomeField) && Accepted(e, DomainOutcome);
    FixedWordFree(e.surface);
    FixedWordFree(e.outcome);
    FixedWordFree(e.domainOutcome);
  }

  lemma FixedWordFree(word: string)
    requires word == "cli" || word == "mcp" || word == "success" || word == "error" || word == "unknown"
    ensures Free(Quote(word))
  {
  }

  predicate Nested(f: Field) {
    f == ArgumentsField || f == OutputField || f == Operation
  }

  lemma ValueFree(e: Event, f: Field)
    requires Captured(e) && !Nested(f)
    ensures Free(Value(e, f))
  {
    assert Accepted(e, f);
    match f
    case Project => TextFree(e.project);
    case Role => TextFree(e.role);
    case Process => TextFree(e.process);
    case Actor => TextFree(e.actor);
    case Lane => TextFree(e.lane);
    case Instance => TextFree(e.instance);
    case Session => TextFree(e.session);
    case ObservedAt => StampFree(e.observedAt);
    case ErrorClass => if e.errorClass.Some? { ClassFree(e.errorClass.value); }
    case SchemaVersion => DecimalFree(e.schemaVersion);
    case EventId => UuidLength(e.id);
    case Duration => DecimalFree(e.duration);
    case Pid => DecimalFree(e.pid);
    case _ => FewWordsFree(e);
  }

  lemma ValueTells(a: Event, b: Event, f: Field)
    requires Written(a) && Written(b) && !Nested(f) && Value(a, f) == Value(b, f)
    ensures Agree(a, b, f)
  {
    match f
    case Project => OptionalTells(a.project, b.project);
    case Role => OptionalTells(a.role, b.role);
    case Process => OptionalTells(a.process, b.process);
    case Actor => OptionalTells(a.actor, b.actor);
    case Lane => OptionalTells(a.lane, b.lane);
    case Instance => OptionalTells(a.instance, b.instance);
    case Session => OptionalTells(a.session, b.session);
    case ObservedAt => QuotesTell(a.observedAt, b.observedAt);
    case ErrorClass => OptionalTells(a.errorClass, b.errorClass);
    case SchemaVersion => DecimalTells(a.schemaVersion, b.schemaVersion);
    case EventId =>
      QuotesTell(Uuid(a.id), Uuid(b.id));
      UuidTells(a.id, b.id);
    case Duration => DecimalTells(a.duration, b.duration);
    case Pid => DecimalTells(a.pid, b.pid);
    case Surface => QuotesTell(a.surface, b.surface);
    case OutcomeField => QuotesTell(a.outcome, b.outcome);
    case DomainOutcome => QuotesTell(a.domainOutcome, b.domainOutcome);
  }

  lemma OperationCut(a: seq<string>, rest: string, b: seq<string>, more: string)
    requires 1 <= |a| <= 2 && forall word :: word in a ==> OperationOf(word) == word
    requires 1 <= |b| <= 2 && forall word :: word in b ==> OperationOf(word) == word
    requires Quote(Dotted(a)) + rest == Quote(Dotted(b)) + more
    ensures a == b && rest == more
  {
    DottedQuotes(a);
    DottedQuotes(b);
    CutQuoted(Dotted(a), rest, Dotted(b), more);
    DottedTells(a, b);
  }

  lemma FieldTells(a: Event, rest: string, b: Event, more: string, f: Field)
    requires Written(a) && Written(b) && Stops(rest) && Stops(more)
    requires Value(a, f) + rest == Value(b, f) + more
    ensures Agree(a, b, f) && rest == more
  {
    if f == ArgumentsField {
      ArgumentsFieldTells(a, rest, b, more);
    } else if f == OutputField {
      OutputFieldTells(a, rest, b, more);
    } else if f == Operation {
      OperationFieldTells(a, rest, b, more);
    } else {
      ValueFree(a, f);
      ValueFree(b, f);
      CutFree(Value(a, f), rest, Value(b, f), more);
      ValueTells(a, b, f);
    }
  }

  lemma ArgumentsFieldTells(a: Event, rest: string, b: Event, more: string)
    requires Written(a) && Written(b) && ArgumentsJson(a.arguments) + rest == ArgumentsJson(b.arguments) + more
    ensures a.arguments == b.arguments && rest == more
  {
    assert Accepted(a, ArgumentsField) && Accepted(b, ArgumentsField);
    ArgumentsTell(a.arguments, rest, b.arguments, more);
  }

  lemma OutputFieldTells(a: Event, rest: string, b: Event, more: string)
    requires Written(a) && Written(b) && OutputJson(a.output) + rest == OutputJson(b.output) + more
    ensures a.output == b.output && rest == more
  {
    assert Accepted(a, OutputField) && Accepted(b, OutputField);
    OutputTells(a.output, rest, b.output, more);
  }

  lemma OperationFieldTells(a: Event, rest: string, b: Event, more: string)
    requires Written(a) && Written(b)
    requires Quote(Dotted(a.operation)) + rest == Quote(Dotted(b.operation)) + more
    ensures a.operation == b.operation && rest == more
  {
    assert Accepted(a, Operation) && Accepted(b, Operation);
    OperationCut(a.operation, rest, b.operation, more);
  }

  // ---------------------------------------------------------------------
  // The line
  // ---------------------------------------------------------------------

  /** Texts joined by commas, and what follows them: from the back, and from the front. */
  ghost function Back(texts: seq<string>): string {
    if texts == [] then ""
    else
      Back(texts[..|texts| - 1]) + (if |texts| == 1 then "" else ",") + texts[|texts| - 1]
  }

  ghost function Front(texts: seq<string>, tail: string): string {
    if texts == [] then tail
    else texts[0] + if |texts| == 1 then tail else "," + Front(texts[1..], tail)
  }

  lemma {:induction false} FrontMore(texts: seq<string>, last: string, tail: string)
    requires texts != []
    ensures Front(texts, "," + (last + tail)) == Front(texts + [last], tail)
  {
    var more := texts + [last];
    assert more[1..] == texts[1..] + [last];
    if |texts| == 1 {
      assert more[1..] == [last] && Front([last], tail) == last + tail;
    } else {
      FrontMore(texts[1..], last, tail);
    }
  }

  lemma {:induction false} FrontIsBack(texts: seq<string>, tail: string)
    requires texts != []
    ensures Back(texts) + tail == Front(texts, tail)
  {
    var n := |texts| - 1;
    if n > 0 {
      var front, last := texts[..n], texts[n];
      FrontIsBack(front, "," + (last + tail));
      FrontMore(front, last, tail);
      assert front + [last] == texts;
      assert (Back(front) + "," + last) + tail == Back(front) + ("," + (last + tail));
    }
  }

  ghost function Texts(e: Event, fields: seq<Field>): (texts: seq<string>)
    ensures |texts| == |fields| && forall i :: 0 <= i < |fields| ==> texts[i] == Member(e, fields[i])
  {
    seq(|fields|, i requires 0 <= i < |fields| => Member(e, fields[i]))
  }

  lemma {:induction false} MembersAre(e: Event, fields: seq<Field>)
    ensures Members(e, fields) == Back(Texts(e, fields))
  {
    if fields != [] {
      var n := |fields| - 1;
      MembersAre(e, fields[..n]);
      assert Texts(e, fields)[..n] == Texts(e, fields[..n]);
    }
  }

  lemma {:induction false} FrontTells(a: Event, b: Event, fields: seq<Field>, tail: string)
    requires Written(a) && Written(b) && Stops(tail)
    requires Front(Texts(a, fields), tail) == Front(Texts(b, fields), tail)
    ensures forall i :: 0 <= i < |fields| ==> Agree(a, b, fields[i])
  {
    if fields != [] {
      FirstTells(a, b, fields, tail);
      FrontTells(a, b, fields[1..], tail);
      forall i | 0 <= i < |fields| ensures Agree(a, b, fields[i]) {
        assert i > 0 ==> fields[i] == fields[1..][i - 1];
      }
    }
  }

  lemma FirstTells(a: Event, b: Event, fields: seq<Field>, tail: string)
    requires Written(a) && Written(b) && Stops(tail) && fields != []
    requires Front(Texts(a, fields), tail) == Front(Texts(b, fields), tail)
    ensures Agree(a, b, fields[0])
    ensures Front(Texts(a, fields[1..]), tail) == Front(Texts(b, fields[1..]), tail)
  {
    var v, w := Texts(a, fields), Texts(b, fields);
    Behind(v, tail);
    Behind(w, tail);
    var x, y := After(v, tail), After(w, tail);
    FirstMember(a, fields);
    FirstMember(b, fields);
    MemberTells(a, x, b, y, fields[0]);
    SameBehind(v, w, tail);
  }

  lemma FirstMember(e: Event, fields: seq<Field>)
    requires fields != []
    ensures Texts(e, fields)[0] == Member(e, fields[0]) && Texts(e, fields)[1..] == Texts(e, fields[1..])
  {
  }

  ghost function After(texts: seq<string>, tail: string): string {
    if |texts| <= 1 then tail else "," + Front(texts[1..], tail)
  }

  lemma Behind(texts: seq<string>, tail: string)
    requires texts != [] && Stops(tail)
    ensures Front(texts, tail) == texts[0] + After(texts, tail) && Stops(After(texts, tail))
  {
  }

  lemma SameBehind(v: seq<string>, w: seq<string>, tail: string)
    requires |v| == |w| > 0 && After(v, tail) == After(w, tail)
    ensures Front(v[1..], tail) == Front(w[1..], tail)
  {
    if |v| > 1 {
      Strip(",", Front(v[1..], tail), Front(w[1..], tail));
    }
  }

  lemma MemberIs(e: Event, x: string, f: Field, name: string, value: string)
    requires name == Quote(Name(f)) + ":" && value == Value(e, f)
    ensures Member(e, f) + x == name + (value + x)
  {
    assert Member(e, f) == name + value;
  }

  lemma MemberTells(a: Event, x: string, b: Event, y: string, f: Field)
    requires Written(a) && Written(b) && Stops(x) && Stops(y) && Member(a, f) + x == Member(b, f) + y
    ensures Agree(a, b, f) && x == y
  {
    var name, v, w := Quote(Name(f)) + ":", Value(a, f), Value(b, f);
    MemberIs(a, x, f, name, v);
    MemberIs(b, y, f, name, w);
    Strip(name, v + x, w + y);
    FieldTells(a, x, b, y, f);
  }

  lemma AllAgree(a: Event, b: Event)
    requires forall f :: Agree(a, b, f)
    ensures a == b.(month := a.month)
  {
    FirstAgree(a, b);
    CoordinatesAgree(a, b);
    LastAgree(a, b);
  }

  lemma FirstAgree(a: Event, b: Event)
    requires forall f :: Agree(a, b, f)
    ensures a.schemaVersion == b.schemaVersion && a.id == b.id && a.observedAt == b.observedAt
    ensures a.duration == b.duration && a.surface == b.surface && a.operation == b.operation
  {
    assert Agree(a, b, SchemaVersion) && Agree(a, b, EventId) && Agree(a, b, ObservedAt);
    assert Agree(a, b, Duration) && Agree(a, b, Surface) && Agree(a, b, Operation);
  }

  lemma CoordinatesAgree(a: Event, b: Event)
    requires forall f :: Agree(a, b, f)
    ensures a.project == b.project && a.role == b.role && a.process == b.process && a.pid == b.pid
    ensures a.actor == b.actor && a.lane == b.lane && a.instance == b.instance && a.session == b.session
  {
    assert Agree(a, b, Project) && Agree(a, b, Role) && Agree(a, b, Process) && Agree(a, b, Pid);
    assert Agree(a, b, Actor) && Agree(a, b, Lane) && Agree(a, b, Instance) && Agree(a, b, Session);
  }

  lemma LastAgree(a: Event, b: Event)
    requires forall f :: Agree(a, b, f)
    ensures a.outcome == b.outcome && a.domainOutcome == b.domainOutcome && a.errorClass == b.errorClass
    ensures a.arguments == b.arguments && a.output == b.output
  {
    assert Agree(a, b, OutcomeField) && Agree(a, b, DomainOutcome) && Agree(a, b, ErrorClass);
    assert Agree(a, b, ArgumentsField) && Agree(a, b, OutputField);
  }

  lemma EveryFieldIsWritten(f: Field)
    ensures f in FIELDS
  {
    assert FIELDS[0] == SchemaVersion && FIELDS[1] == EventId && FIELDS[2] == ObservedAt && FIELDS[3] == Duration;
    assert FIELDS[4] == Surface && FIELDS[5] == Operation && FIELDS[6] == Project && FIELDS[7] == Role;
    assert FIELDS[8] == Process && FIELDS[9] == Pid && FIELDS[10] == Actor && FIELDS[11] == Lane;
    assert FIELDS[12] == Instance && FIELDS[13] == Session && FIELDS[14] == OutcomeField;
    assert FIELDS[15] == DomainOutcome && FIELDS[16] == ErrorClass && FIELDS[17] == ArgumentsField;
    assert FIELDS[18] == OutputField;
  }

  /** Two events with the same line say the same in every field; the month alone is not
      in the line by itself, being that of the timestamp. */
  lemma LineTellsTheEvent(a: Event, b: Event)
    requires Written(a) && Written(b) && Line(a) == Line(b)
    ensures a == b.(month := a.month)
  {
    assert Line(a) == "{" + (Members(a, FIELDS) + "}\n") && Line(b) == "{" + (Members(b, FIELDS) + "}\n");
    Strip("{", Members(a, FIELDS) + "}\n", Members(b, FIELDS) + "}\n");
    MembersAre(a, FIELDS);
    MembersAre(b, FIELDS);
    FrontIsBack(Texts(a, FIELDS), "}\n");
    FrontIsBack(Texts(b, FIELDS), "}\n");
    FrontTells(a, b, FIELDS, "}\n");
    forall f: Field ensures Agree(a, b, f) {
      EveryFieldIsWritten(f);
      var i :| 0 <= i < |FIELDS| && FIELDS[i] == f;
    }
    AllAgree(a, b);
  }

  /** The names, in the order they are written. */
  lemma NamesAre()
    ensures seq(|FIELDS|, i requires 0 <= i < |FIELDS| => Name(FIELDS[i])) ==
      ["schema_version", "id", "observed_at", "duration_us", "surface", "operation", "project", "role", "process",
       "pid", "actor_claimed", "lane_claimed", "instance", "session", "outcome", "domain_outcome", "error_class",
       "arguments", "output"]
  {
  }

  /** No two fields share a name, so none is read in place of another. */
  lemma NamesDiffer(f: Field, g: Field)
    ensures Name(f) == Name(g) ==> f == g
  {
  }
}
