/** Cutting what a scanner matched out of a text: overlapping matches become one
    marker, and everything outside them stays as it was. Offsets count bytes. */
module Redaction {
  import Sorting

  newtype Byte = b: int | 0 <= b < 256

  datatype Match = Match(rule: string, start: nat, end: nat)
  datatype Range = Range(start: nat, end: nat, rule: string)
  datatype Outcome = Redacted(content: seq<Byte>) | InvalidRange

  /** An offset that does not split a character of UTF-8. */
  predicate Boundary(content: seq<Byte>, at: nat) {
    at == 0 || at == |content| || (at < |content| && !(0x80 <= content[at] < 0xC0))
  }

  predicate Usable(content: seq<Byte>, item: Match) {
    item.start < item.end <= |content| && Boundary(content, item.start) && Boundary(content, item.end)
  }

  // ---------------------------------------------------------------------
  // The marker
  // ---------------------------------------------------------------------

  predicate Plain(c: char) {
    'a' <= c <= 'z' || 'A' <= c <= 'Z' || '0' <= c <= '9' || c == '-' || c == '_' || c == '.'
  }

  function SafeRule(rule: string): (safe: string)
    ensures |safe| == |rule|
    ensures forall i :: 0 <= i < |rule| ==>
      var c := rule[i];
      safe[i] == if 'a' <= c <= 'z' || 'A' <= c <= 'Z' || '0' <= c <= '9' || c in "-_." then c else '_'
  {
    seq(|rule|, i requires 0 <= i < |rule| => if Plain(rule[i]) then rule[i] else '_')
  }

  function Ascii(text: string): (bytes: seq<Byte>)
    requires forall i :: 0 <= i < |text| ==> text[i] < 128 as char
    ensures |bytes| == |text| && forall i :: 0 <= i < |text| ==> bytes[i] == text[i] as Byte
  {
    seq(|text|, i requires 0 <= i < |text| => text[i] as Byte)
  }

  function Marker(rule: string): seq<Byte> {
    Ascii("[REDACTED:" + SafeRule(rule) + "]")
  }

  /** Whatever a rule is called, it cannot close its own marker early or open
      another one, nor add a line break. */
  lemma MarkerIsOneToken(rule: string)
    ensures var marker := Marker(rule);
            && |marker| == |rule| + 11
            && (forall i :: 0 <= i < |marker| ==> 0x20 < marker[i] < 0x7F)
            && (forall i :: 0 <= i < |marker| ==> (marker[i] == '[' as Byte <==> i == 0))
            && (forall i :: 0 <= i < |marker| ==> (marker[i] == ']' as Byte <==> i == |marker| - 1))
  {
    var text := "[REDACTED:" + SafeRule(rule) + "]";
    assert Marker(rule) == Ascii(text);
    forall i | 0 <= i < |text|
      ensures 0x20 < text[i] as int < 0x7F
      ensures text[i] == '[' <==> i == 0
      ensures text[i] == ']' <==> i == |text| - 1
    {
      if 10 <= i < |text| - 1 {
        assert text[i] == SafeRule(rule)[i - 10];
      }
    }
  }

  // ---------------------------------------------------------------------
  // Merging
  // ---------------------------------------------------------------------

  /** By start, the longest first where several start together. */
  predicate NotAfter(a: Match, b: Match) {
    a.start < b.start || (a.start == b.start && a.end >= b.end)
  }

  /** Byte `p` was matched. */
  ghost predicate Matched(matches: seq<Match>, p: nat) {
    exists m :: m in matches && m.start <= p < m.end
  }

  /** Bytes `p - 1` and `p` belong to one match. */
  ghost predicate Joined(matches: seq<Match>, p: nat) {
    exists m :: m in matches && m.start < p < m.end
  }

  ghost predicate Cut(ranges: seq<Range>, p: nat) {
    exists r :: r in ranges && r.start <= p < r.end
  }

  ghost predicate CutTogether(ranges: seq<Range>, p: nat) {
    exists r :: r in ranges && r.start < p < r.end
  }

  ghost predicate Fits(content: seq<Byte>, r: Range) {
    r.start < r.end <= |content| && Boundary(content, r.start) && Boundary(content, r.end)
  }

  /** In order, none empty, none overlapping another. */
  ghost predicate Separate(ranges: seq<Range>, content: seq<Byte>) {
    && (forall i :: 0 <= i < |ranges| ==> Fits(content, ranges[i]))
    && (forall i, j :: 0 <= i < j < |ranges| ==> ranges[i].end <= ranges[j].start)
  }

  /** The rules that matched inside a range, in the order the matches are read. */
  ghost function RulesIn(matches: seq<Match>, range: Range): seq<string> {
    if matches == [] then []
    else
      var last := matches[|matches| - 1];
      RulesIn(matches[..|matches| - 1], range) + (if range.start <= last.start < range.end then [last.rule] else [])
  }

  ghost function Label(rules: seq<string>): string {
    if rules == [] then ""
    else if |rules| == 1 then rules[0]
    else
      var name, rule := Label(rules[..|rules| - 1]), rules[|rules| - 1];
      if name == rule then name else name + "+" + rule
  }

  ghost predicate Mentions(text: string, part: string) {
    exists before, after :: text == before + part + after
  }

  lemma MentionsMore(text: string, part: string, front: string, back: string)
    requires Mentions(text, part)
    ensures Mentions(front + text + back, part)
  {
    var before, after :| text == before + part + after;
    assert front + text + back == (front + before) + part + (after + back);
  }

  /** No rule that matched is left out of the label. */
  lemma {:induction false} LabelNamesEveryRule(rules: seq<string>, k: nat)
    requires k < |rules|
    ensures Mentions(Label(rules), rules[k])
  {
    var n := |rules| - 1;
    var last := rules[n];
    assert last == "" + last + "";
    if n > 0 {
      var name := Label(rules[..n]);
      if k < n {
        LabelNamesEveryRule(rules[..n], k);
        MentionsMore(name, rules[k], "", "+" + last);
        assert "" + name + ("+" + last) == name + "+" + last;
      } else {
        MentionsMore(last, last, name + "+", "");
        assert name + "+" + last + "" == name + "+" + last;
      }
    }
  }

  /** A range matched by one rule alone, however often, is called by its name. */
  lemma {:induction false} OneRuleOneName(rules: seq<string>, rule: string)
    requires rules != [] && forall k :: 0 <= k < |rules| ==> rules[k] == rule
    ensures Label(rules) == rule
  {
    if |rules| > 1 {
      OneRuleOneName(rules[..|rules| - 1], rule);
    }
  }

  lemma SafeJoins(a: string, b: string)
    ensures SafeRule(a + b) == SafeRule(a) + SafeRule(b)
  {
  }

  /** Nor out of the marker: it holds every rule that matched, as a marker spells it. */
  lemma MarkerNamesEveryRule(rules: seq<string>, k: nat) returns (before: string, after: string)
    requires k < |rules|
    ensures SafeRule(Label(rules)) == before + SafeRule(rules[k]) + after
    ensures Marker(Label(rules)) == Ascii("[REDACTED:" + (before + SafeRule(rules[k]) + after) + "]")
  {
    LabelNamesEveryRule(rules, k);
    var front, back :| Label(rules) == front + rules[k] + back;
    SafeJoins(front, rules[k]);
    SafeJoins(front + rules[k], back);
    before, after := SafeRule(front), SafeRule(back);
    MarkerIsOneToken(Label(rules));
  }

  lemma {:induction false} SameRules(matches: seq<Match>, a: Range, b: Range)
    requires forall m :: m in matches ==> (a.start <= m.start < a.end <==> b.start <= m.start < b.end)
    ensures RulesIn(matches, a) == RulesIn(matches, b)
  {
    if matches != [] {
      SameRules(matches[..|matches| - 1], a, b);
      assert matches[|matches| - 1] in matches;
    }
  }

  lemma RulesStep(matches: seq<Match>, item: Match, range: Range)
    ensures RulesIn(matches + [item], range) ==
      RulesIn(matches, range) + (if range.start <= item.start < range.end then [item.rule] else [])
  {
    assert (matches + [item])[..|matches|] == matches;
  }

  /** The range carries the label of the rules that matched inside it. */
  ghost predicate Labelled(range: Range, matches: seq<Match>) {
    range.rule == Label(RulesIn(matches, range))
  }

  /** The ranges stand for exactly the matches: the same bytes, the same joins, so
      matches that merely touch stay apart, and a label that names every rule. */
  ghost predicate Merges(ranges: seq<Range>, matches: seq<Match>) {
    && (forall p: nat :: Cut(ranges, p) <==> Matched(matches, p))
    && (forall p: nat :: CutTogether(ranges, p) <==> Joined(matches, p))
    && (forall r :: r in ranges ==> Labelled(r, matches))
  }

  /** What the loop knows besides: the last range begins before every match to come
      and ends after the start of every match read. */
  ghost predicate Frontier(ranges: seq<Range>, matches: seq<Match>, k: nat)
    requires k <= |matches|
  {
    && (ranges == [] <==> k == 0)
    && (forall i :: 0 <= i < k ==> ranges != [] && matches[i].start < ranges[|ranges| - 1].end)
    && (forall j :: k <= j < |matches| ==> ranges == [] || ranges[|ranges| - 1].start <= matches[j].start)
  }

  function Extended(range: Range, item: Match): Range {
    Range(range.start, if item.end > range.end then item.end else range.end,
          if range.rule != item.rule then range.rule + "+" + item.rule else range.rule)
  }

  function Absorb(ranges: seq<Range>, item: Match): seq<Range> {
    var n := |ranges|;
    if n > 0 && item.start < ranges[n - 1].end
    then ranges[..n - 1] + [Extended(ranges[n - 1], item)]
    else ranges + [Range(item.start, item.end, item.rule)]
  }

  method Merge(content: seq<Byte>, matches: seq<Match>) returns (ranges: seq<Range>, valid: bool)
    requires Sorting.Sorted(matches, NotAfter)
    ensures valid <==> forall i :: 0 <= i < |matches| ==> Usable(content, matches[i])
    ensures valid ==> Separate(ranges, content) && Merges(ranges, matches)
  {
    ranges := [];
    NoneRead(content, matches);
    for k := 0 to |matches|
      invariant forall i :: 0 <= i < k ==> Usable(content, matches[i])
      invariant Reading(ranges, matches, k, content)
    {
      var item := matches[k];
      if !Usable(content, item) {
        return ranges, false;
      }
      ReadingStep(ranges, matches, k, content);
      ranges := Absorb(ranges, item);
    }
    assert matches[..|matches|] == matches;
    valid := true;
  }

  lemma NoneRead(content: seq<Byte>, matches: seq<Match>)
    ensures Reading([], matches, 0, content)
  {
  }

  ghost predicate Reading(ranges: seq<Range>, matches: seq<Match>, k: nat, content: seq<Byte>)
    requires k <= |matches|
  {
    Separate(ranges, content) && Merges(ranges, matches[..k]) && Frontier(ranges, matches, k)
  }

  lemma ReadingStep(ranges: seq<Range>, matches: seq<Match>, k: nat, content: seq<Byte>)
    requires k < |matches| && Sorting.Sorted(matches, NotAfter)
    requires Reading(ranges, matches, k, content) && Usable(content, matches[k])
    ensures Reading(Absorb(ranges, matches[k]), matches, k + 1, content)
  {
    assert matches[..k + 1] == matches[..k] + [matches[k]];
    AbsorbKeeps(ranges, matches[..k], matches[k], content);
    FrontierStep(ranges, matches, k);
  }

  lemma FrontierStep(ranges: seq<Range>, matches: seq<Match>, k: nat)
    requires k < |matches| && Sorting.Sorted(matches, NotAfter) && matches[k].start < matches[k].end
    requires Frontier(ranges, matches, k)
    ensures Frontier(Absorb(ranges, matches[k]), matches, k + 1)
  {
    forall j | k < j < |matches| ensures matches[k].start <= matches[j].start {
      assert NotAfter(matches[k], matches[j]);
    }
  }

  lemma AbsorbKeeps(ranges: seq<Range>, before: seq<Match>, item: Match, content: seq<Byte>)
    requires Usable(content, item) && Separate(ranges, content) && Merges(ranges, before)
    requires ranges == [] <==> before == []
    requires forall m :: m in before ==> ranges != [] && m.start < ranges[|ranges| - 1].end
    requires ranges != [] ==> ranges[|ranges| - 1].start <= item.start
    ensures Separate(Absorb(ranges, item), content) && Merges(Absorb(ranges, item), before + [item])
  {
    var after := Absorb(ranges, item);
    AbsorbFits(ranges, item, content);
    forall r | r in ranges ensures r.start < r.end {
      var i :| 0 <= i < |ranges| && ranges[i] == r;
    }
    AbsorbBytes(ranges, before, item);
    AbsorbLabels(ranges, before, item, content);
  }

  lemma AbsorbFits(ranges: seq<Range>, item: Match, content: seq<Byte>)
    requires Usable(content, item) && Separate(ranges, content)
    requires ranges != [] ==> ranges[|ranges| - 1].start <= item.start
    ensures Separate(Absorb(ranges, item), content)
  {
    var n := |ranges|;
    if n > 0 && item.start < ranges[n - 1].end {
      assert Fits(content, ranges[n - 1]);
      Replaced(ranges, Extended(ranges[n - 1], item), content);
    } else {
      assert n > 0 ==> Fits(content, ranges[n - 1]);
      Added(ranges, Range(item.start, item.end, item.rule), content);
    }
  }

  lemma Replaced(ranges: seq<Range>, last: Range, content: seq<Byte>)
    requires ranges != [] && Separate(ranges, content) && Fits(content, last)
    requires last.start == ranges[|ranges| - 1].start
    ensures Separate(ranges[..|ranges| - 1] + [last], content)
  {
  }

  lemma Added(ranges: seq<Range>, last: Range, content: seq<Byte>)
    requires Separate(ranges, content) && Fits(content, last)
    requires ranges != [] ==> ranges[|ranges| - 1].end <= last.start
    ensures Separate(ranges + [last], content)
  {
    var after := ranges + [last];
    forall i, j | 0 <= i < j < |after| ensures after[i].end <= after[j].start {
      if j == |ranges| && i < |ranges| - 1 {
        assert ranges[i].end <= ranges[|ranges| - 1].start;
        assert Fits(content, ranges[|ranges| - 1]);
      }
    }
  }

  lemma AbsorbBytes(ranges: seq<Range>, before: seq<Match>, item: Match)
    requires item.start < item.end
    requires forall p: nat :: Cut(ranges, p) <==> Matched(before, p)
    requires forall p: nat :: CutTogether(ranges, p) <==> Joined(before, p)
    requires ranges != [] ==> ranges[|ranges| - 1].start <= item.start
    requires forall r :: r in ranges ==> r.start < r.end
    ensures forall p: nat :: Cut(Absorb(ranges, item), p) <==> Matched(before + [item], p)
    ensures forall p: nat :: CutTogether(Absorb(ranges, item), p) <==> Joined(before + [item], p)
  {
    forall p: nat
      ensures Cut(Absorb(ranges, item), p) <==> Cut(ranges, p) || item.start <= p < item.end
      ensures CutTogether(Absorb(ranges, item), p) <==> CutTogether(ranges, p) || item.start < p < item.end
    {
      AbsorbByte(ranges, item, p);
    }
    forall p: nat
      ensures Matched(before + [item], p) <==> Matched(before, p) || item.start <= p < item.end
      ensures Joined(before + [item], p) <==> Joined(before, p) || item.start < p < item.end
    {
      assert item in before + [item];
      assert forall m :: m in before + [item] <==> m in before || m == item;
    }
  }

  lemma AbsorbByte(ranges: seq<Range>, item: Match, p: nat)
    requires item.start < item.end
    requires ranges != [] ==> ranges[|ranges| - 1].start <= item.start
    requires forall r :: r in ranges ==> r.start < r.end
    ensures Cut(Absorb(ranges, item), p) <==> Cut(ranges, p) || item.start <= p < item.end
    ensures CutTogether(Absorb(ranges, item), p) <==> CutTogether(ranges, p) || item.start < p < item.end
  {
    var n := |ranges|;
    var after := Absorb(ranges, item);
    if n > 0 && item.start < ranges[n - 1].end {
      var last, wider := ranges[n - 1], Extended(ranges[n - 1], item);
      var rest := ranges[..n - 1];
      assert ranges == rest + [last];
      assert forall r :: r in ranges <==> r in rest || r == last;
      assert forall r :: r in after <==> r in rest || r == wider;
      assert last in ranges && wider in after;
    } else {
      var added := Range(item.start, item.end, item.rule);
      assert forall r :: r in after <==> r in ranges || r == added;
      assert added in after;
    }
  }

  lemma AbsorbLabels(ranges: seq<Range>, before: seq<Match>, item: Match, content: seq<Byte>)
    requires Usable(content, item) && Separate(ranges, content) && Merges(ranges, before)
    requires ranges == [] <==> before == []
    requires forall m :: m in before ==> ranges != [] && m.start < ranges[|ranges| - 1].end
    requires ranges != [] ==> ranges[|ranges| - 1].start <= item.start
    ensures forall r :: r in Absorb(ranges, item) ==> Labelled(r, before + [item])
  {
    var n := |ranges|;
    var after := Absorb(ranges, item);
    forall r | r in after ensures Labelled(r, before + [item]) {
      var i :| 0 <= i < |after| && after[i] == r;
      if i < n - 1 || (i == n - 1 && item.start >= ranges[n - 1].end) {
        KeptLabel(ranges, before, item, content, i);
      } else if i < n {
        ExtendedLabel(ranges, before, item, content);
      } else {
        AddedLabel(ranges, before, item, r);
      }
    }
  }

  lemma KeptLabel(ranges: seq<Range>, before: seq<Match>, item: Match, content: seq<Byte>, i: nat)
    requires Separate(ranges, content) && Merges(ranges, before)
    requires i < |ranges| && ranges[|ranges| - 1].start <= item.start
    requires i < |ranges| - 1 || item.start >= ranges[i].end
    ensures Labelled(ranges[i], before + [item])
  {
    var r := ranges[i];
    assert r in ranges;
    RulesStep(before, item, r);
    assert RulesIn(before, r) + [] == RulesIn(before, r);
  }

  lemma AddedLabel(ranges: seq<Range>, before: seq<Match>, item: Match, r: Range)
    requires forall m :: m in before ==> ranges != [] && m.start < ranges[|ranges| - 1].end
    requires ranges != [] ==> ranges[|ranges| - 1].end <= item.start
    requires r.start == item.start < r.end && r.rule == item.rule
    ensures Labelled(r, before + [item])
  {
    RulesStep(before, item, r);
    NoRules(before, r);
  }

  lemma ExtendedLabel(ranges: seq<Range>, before: seq<Match>, item: Match, content: seq<Byte>)
    requires Usable(content, item) && Separate(ranges, content) && Merges(ranges, before) && ranges != []
    requires forall m :: m in before ==> m.start < ranges[|ranges| - 1].end
    requires ranges[|ranges| - 1].start <= item.start < ranges[|ranges| - 1].end
    ensures var wider := Extended(ranges[|ranges| - 1], item);
            Labelled(wider, before + [item])
  {
    var last := ranges[|ranges| - 1];
    var wider := Extended(last, item);
    assert last in ranges;
    SameRules(before, last, wider);
    LastRangeHasRules(ranges, before, content);
    RulesStep(before, item, wider);
    var rules := RulesIn(before, last);
    assert (rules + [item.rule])[..|rules|] == rules;
  }

  lemma {:induction false} NoRules(matches: seq<Match>, range: Range)
    requires forall m :: m in matches ==> !(range.start <= m.start < range.end)
    ensures RulesIn(matches, range) == []
  {
    if matches != [] {
      NoRules(matches[..|matches| - 1], range);
      assert matches[|matches| - 1] in matches;
    }
  }

  /** The first byte of a range is the first byte of some match, as nothing matched
      before it is joined to it. */
  lemma LastRangeHasRules(ranges: seq<Range>, before: seq<Match>, content: seq<Byte>)
    requires ranges != [] && Merges(ranges, before)
    requires Separate(ranges, content)
    ensures RulesIn(before, ranges[|ranges| - 1]) != []
  {
    var last := ranges[|ranges| - 1];
    var p := last.start;
    assert last in ranges;
    assert Cut(ranges, p);
    var m :| m in before && m.start <= p < m.end;
    NotJoinedAtEnds(ranges, content, |ranges| - 1);
    NotCrossed(before, p, m);
    HasRule(before, last, m);
  }

  lemma NotCrossed(matches: seq<Match>, p: nat, m: Match)
    requires !Joined(matches, p) && m in matches
    ensures !(m.start < p < m.end)
  {
  }

  lemma {:induction false} HasRule(matches: seq<Match>, range: Range, m: Match)
    requires m in matches && range.start <= m.start < range.end
    ensures RulesIn(matches, range) != []
  {
    var n := |matches|;
    if m != matches[n - 1] {
      assert matches == matches[..n - 1] + [matches[n - 1]];
      HasRule(matches[..n - 1], range, m);
    }
  }

  // ---------------------------------------------------------------------
  // Replacing
  // ---------------------------------------------------------------------

  /** The ranges lie one after another between `from` and `end`. */
  ghost predicate Laid(ranges: seq<Range>, from: nat, end: nat) {
    if ranges == [] then from <= end
    else from <= ranges[0].start <= ranges[0].end && Laid(ranges[1..], ranges[0].end, end)
  }

  lemma {:induction false} LaidWithin(ranges: seq<Range>, from: nat, end: nat)
    requires Laid(ranges, from, end)
    ensures from <= end && (ranges != [] ==> ranges[0].end <= end)
  {
    if ranges != [] {
      LaidWithin(ranges[1..], ranges[0].end, end);
    }
  }

  lemma {:induction false} SeparateIsLaid(ranges: seq<Range>, content: seq<Byte>, from: nat)
    requires Separate(ranges, content)
    requires if ranges == [] then from <= |content| else from <= ranges[0].start
    ensures Laid(ranges, from, |content|)
  {
    if ranges != [] {
      assert Fits(content, ranges[0]);
      SeparateIsLaid(ranges[1..], content, ranges[0].end);
    }
  }

  /** The text from `from` on: each gap as it was, each range as its marker. */
  ghost function Rendered(content: seq<Byte>, ranges: seq<Range>, from: nat): seq<Byte>
    requires Laid(ranges, from, |content|)
  {
    if ranges == [] then content[from..]
    else
      LaidWithin(ranges, from, |content|);
      content[from..ranges[0].start] + (Marker(ranges[0].rule) + Rendered(content, ranges[1..], ranges[0].end))
  }

  lemma RenderedFrom(content: seq<Byte>, ranges: seq<Range>, from: nat)
    requires Laid(ranges, from, |content|) && from <= |content|
    ensures Laid(ranges, 0, |content|)
    ensures Rendered(content, ranges, 0) == content[..from] + Rendered(content, ranges, from)
  {
    LaidEarlier(ranges, from, 0, |content|);
    if ranges == [] {
      Regroup(content, from, |content|, []);
      assert content[0..] + [] == content[0..] && content[from..] + [] == content[from..];
    } else {
      LaidWithin(ranges, from, |content|);
      Regroup(content, from, ranges[0].start, Marker(ranges[0].rule) + Rendered(content, ranges[1..], ranges[0].end));
    }
  }

  lemma Regroup(content: seq<Byte>, from: nat, start: nat, rest: seq<Byte>)
    requires from <= start <= |content|
    ensures content[0..start] + rest == content[..from] + (content[from..start] + rest)
  {
  }

  method ReplaceRange(output: seq<Byte>, start: nat, end: nat, marker: seq<Byte>) returns (replaced: seq<Byte>)
    requires start <= end <= |output|
    ensures replaced == output[..start] + marker + output[end..]
  {
    replaced := output[..start] + marker + output[end..];
  }

  /** Replacing from the right keeps every offset still to be used valid. */
  method Replace(content: seq<Byte>, ranges: seq<Range>) returns (output: seq<Byte>)
    requires Laid(ranges, 0, |content|)
    ensures output == Rendered(content, ranges, 0)
  {
    output := content;
    var i := |ranges|;
    while i > 0
      invariant 0 <= i <= |ranges|
      invariant Laid(ranges[i..], 0, |content|)
      invariant output == Rendered(content, ranges[i..], 0)
    {
      i := i - 1;
      var range := ranges[i];
      ghost var rest := ranges[i + 1..];
      LaidSuffix(ranges, i, 0, |content|);
      assert ranges[i..][1..] == rest;
      LaidWithin(ranges[i..], 0, |content|);
      RenderedFrom(content, rest, range.end);
      ghost var tail := Rendered(content, rest, range.end);
      assert output == content[..range.end] + tail;
      CutAt(content, tail, range.start, range.end);
      output := ReplaceRange(output, range.start, range.end, Marker(range.rule));
      assert output == content[0..range.start] + Marker(range.rule) + tail;
    }
    assert ranges[0..] == ranges;
  }

  lemma CutAt(content: seq<Byte>, tail: seq<Byte>, start: nat, end: nat)
    requires start <= end <= |content|
    ensures (content[..end] + tail)[..start] == content[0..start] && (content[..end] + tail)[end..] == tail
  {
  }

  lemma {:induction false} LaidSuffix(ranges: seq<Range>, i: nat, from: nat, end: nat)
    requires Laid(ranges, from, end) && i <= |ranges|
    ensures Laid(ranges[i..], from, end)
  {
    if i > 0 {
      LaidSuffix(ranges[1..], i - 1, ranges[0].end, end);
      assert ranges[1..][i - 1..] == ranges[i..];
      LaidWithin(ranges, from, end);
      LaidEarlier(ranges[i..], ranges[0].end, from, end);
    } else {
      assert ranges[0..] == ranges;
    }
  }

  lemma LaidEarlier(ranges: seq<Range>, from: nat, earlier: nat, end: nat)
    requires Laid(ranges, from, end) && earlier <= from
    ensures Laid(ranges, earlier, end)
  {
  }

  lemma NotAfterIsAnOrder()
    ensures Sorting.TotalPreorder(NotAfter)
  {
  }

  /** `output` is `content` with exactly the matched bytes cut out. */
  ghost predicate CutsOut(output: seq<Byte>, content: seq<Byte>, matches: seq<Match>, ranges: seq<Range>) {
    && Separate(ranges, content) && Merges(ranges, matches)
    && Laid(ranges, 0, |content|) && output == Rendered(content, ranges, 0)
  }

  /** In whatever order the matches arrive. The ranges are returned for the contract;
      a caller uses the text. */
  method Redact(content: seq<Byte>, matches: seq<Match>)
    returns (outcome: Outcome, ghost ranges: seq<Range>, ghost sorted: seq<Match>)
    // It fails when a match is empty, out of bounds, or would split a character.
    ensures outcome.Redacted? <==>
      forall m :: m in matches ==>
        m.start < m.end <= |content| && !Inside(content, m.start) && !Inside(content, m.end)
    // The matches are read by where they start, the longest first, and in their own order
    // when they are the same stretch.
    ensures multiset(sorted) == multiset(matches)
    ensures forall i, j :: 0 <= i < j < |sorted| ==>
      sorted[i].start < sorted[j].start || (sorted[i].start == sorted[j].start && sorted[i].end >= sorted[j].end)
    ensures forall m :: Sorting.Tied(sorted, m, NotAfter) == Sorting.Tied(matches, m, NotAfter)
    ensures outcome.Redacted? ==> CutsOut(outcome.content, content, sorted, ranges)
    ensures outcome.Redacted? ==> forall p: nat :: Cut(ranges, p) <==> Matched(matches, p)
    ensures outcome.Redacted? ==> forall p: nat :: CutTogether(ranges, p) <==> Joined(matches, p)
  {
    NotAfterIsAnOrder();
    Sorting.SortSorts(matches, NotAfter);
    var arranged := Sorting.Sort(matches, NotAfter);
    sorted := arranged;
    Sorting.SameMembers(matches, sorted);
    ReadInOrder(matches);
    AllUsable(content, matches, sorted);
    var merged, valid := Merge(content, arranged);
    ranges := merged;
    if !valid {
      return InvalidRange, ranges, sorted;
    }
    SeparateIsLaid(merged, content, 0);
    var output := Replace(content, merged);
    outcome := Redacted(output);
    SameMatched(matches, sorted);
  }

  /** A byte 10xxxxxx, past the first, goes on with a character that began before it. */
  ghost predicate Inside(content: seq<Byte>, at: nat) {
    0 < at < |content| && content[at] as int / 64 == 2
  }

  lemma ReadInOrder(matches: seq<Match>)
    ensures var sorted := Sorting.Sort(matches, NotAfter);
      && (forall i, j :: 0 <= i < j < |sorted| ==>
            sorted[i].start < sorted[j].start || (sorted[i].start == sorted[j].start && sorted[i].end >= sorted[j].end))
      && (forall m :: Sorting.Tied(sorted, m, NotAfter) == Sorting.Tied(matches, m, NotAfter))
  {
    NotAfterIsAnOrder();
    Sorting.SortSorts(matches, NotAfter);
    var sorted := Sorting.Sort(matches, NotAfter);
    assert forall i, j :: 0 <= i < j < |sorted| ==> NotAfter(sorted[i], sorted[j]);
    forall m ensures Sorting.Tied(sorted, m, NotAfter) == Sorting.Tied(matches, m, NotAfter) {
      Sorting.SortIsStable(matches, m, NotAfter);
    }
  }

  lemma AllUsable(content: seq<Byte>, matches: seq<Match>, sorted: seq<Match>)
    requires forall m :: m in matches <==> m in sorted
    ensures (forall i :: 0 <= i < |sorted| ==> Usable(content, sorted[i])) <==>
      (forall m :: m in matches ==>
         m.start < m.end <= |content| && !Inside(content, m.start) && !Inside(content, m.end))
  {
    forall m ensures Usable(content, m) <==>
      (m.start < m.end <= |content| && !Inside(content, m.start) && !Inside(content, m.end)) {}
    assert forall i :: 0 <= i < |sorted| ==> sorted[i] in sorted;
  }

  lemma SameMatched(matches: seq<Match>, sorted: seq<Match>)
    requires forall m :: m in matches <==> m in sorted
    ensures forall p: nat :: Matched(matches, p) <==> Matched(sorted, p)
    ensures forall p: nat :: Joined(matches, p) <==> Joined(sorted, p)
  {
  }

  // ---------------------------------------------------------------------
  // One answer
  // ---------------------------------------------------------------------

  ghost predicate HasSpan(ranges: seq<Range>, span: Range) {
    exists j :: 0 <= j < |ranges| && ranges[j].start == span.start && ranges[j].end == span.end
  }

  ghost predicate SameSpans(a: seq<Range>, b: seq<Range>) {
    |a| == |b| && forall i :: 0 <= i < |a| ==> a[i].start == b[i].start && a[i].end == b[i].end
  }

  /** The bytes and the joins leave no choice of ranges. */
  lemma SpansAreDetermined(a: seq<Range>, b: seq<Range>, content: seq<Byte>)
    requires Separate(a, content) && Separate(b, content)
    requires forall p: nat :: Cut(a, p) <==> Cut(b, p)
    requires forall p: nat :: CutTogether(a, p) <==> CutTogether(b, p)
    ensures SameSpans(a, b)
  {
    SpansEmbed(a, b, content);
    SpansEmbed(b, a, content);
    var s, t := SpansOf(a), SpansOf(b);
    SpanMembers(a, b);
    SpanMembers(b, a);
    Sorting.OneArrangement(s, t, (x: (nat, nat), y: (nat, nat)) => x.0 < y.0);
    forall i | 0 <= i < |a| ensures a[i].start == b[i].start && a[i].end == b[i].end {
      assert s[i] == t[i];
    }
  }

  ghost function SpansOf(ranges: seq<Range>): (spans: seq<(nat, nat)>)
    ensures |spans| == |ranges|
    ensures forall i :: 0 <= i < |ranges| ==> spans[i] == (ranges[i].start, ranges[i].end)
  {
    seq(|ranges|, i requires 0 <= i < |ranges| => (ranges[i].start, ranges[i].end))
  }

  lemma SpanMembers(a: seq<Range>, b: seq<Range>)
    requires forall i :: 0 <= i < |a| ==> HasSpan(b, a[i])
    ensures forall x :: x in SpansOf(a) ==> x in SpansOf(b)
  {
    forall x | x in SpansOf(a) ensures x in SpansOf(b) {
      var i :| 0 <= i < |a| && SpansOf(a)[i] == x;
      assert HasSpan(b, a[i]);
      var j :| 0 <= j < |b| && b[j].start == a[i].start && b[j].end == a[i].end;
      assert SpansOf(b)[j] == x;
    }
  }

  lemma SpansEmbed(a: seq<Range>, b: seq<Range>, content: seq<Byte>)
    requires Separate(a, content) && Separate(b, content)
    requires forall p: nat :: Cut(a, p) <==> Cut(b, p)
    requires forall p: nat :: CutTogether(a, p) <==> CutTogether(b, p)
    ensures forall i :: 0 <= i < |a| ==> HasSpan(b, a[i])
  {
    forall i | 0 <= i < |a| ensures HasSpan(b, a[i]) {
      SpanMatches(a, b, content, i);
    }
  }

  /** The range of `b` that holds the first byte of `a[i]` starts and ends with it. */
  lemma SpanMatches(a: seq<Range>, b: seq<Range>, content: seq<Byte>, i: nat)
    requires i < |a| && Separate(a, content) && Separate(b, content)
    requires forall p: nat :: Cut(a, p) <==> Cut(b, p)
    requires forall p: nat :: CutTogether(a, p) <==> CutTogether(b, p)
    ensures HasSpan(b, a[i])
  {
    assert a[i] in a;
    assert Cut(a, a[i].start);
    var r :| r in b && r.start <= a[i].start < r.end;
    var j :| 0 <= j < |b| && b[j] == r;
    assert r.start < a[i].start ==> CutTogether(b, a[i].start);
    assert r.end < a[i].end ==> CutTogether(a, r.end);
    assert a[i].end < r.end ==> CutTogether(b, a[i].end);
    NotJoinedAtEnds(a, content, i);
    NotJoinedAtEnds(b, content, j);
  }

  lemma NotJoinedAtEnds(a: seq<Range>, content: seq<Byte>, i: nat)
    requires i < |a| && Separate(a, content)
    ensures !CutTogether(a, a[i].start) && !CutTogether(a, a[i].end)
  {
    forall r | r in a ensures !(r.start < a[i].start < r.end) && !(r.start < a[i].end < r.end) {
      var k :| 0 <= k < |a| && a[k] == r;
    }
  }
}
