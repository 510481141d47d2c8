/** Whether one record answers a context request, and where a request's coordinates
    went when nothing answered. */
module Matching {
  import opened Ledger
  import opened JsonPointer

  datatype Entry = Entry(id: Id, namespace: string, kind: string, payload: Json, tags: seq<string>,
                         supersedes: Option<Id>, observedAt: string, validAt: string)

  datatype ReadGrant = ReadGrant(namespace: string, kinds: seq<string>)
  datatype Profile = Profile(grants: seq<ReadGrant>)

  datatype Strategy = Exact | Tag | Recency | Fts | Hybrid
  datatype Tier = Required | Core | Relevant
  datatype RankOrder = Desc | Asc
  datatype Expectation = Any | AtLeastOne | ExactlyOne

  /** `wildcards` are the coordinates in set-or-wildcard mode. */
  datatype Selector = Selector(id: string, kind: string, strategies: seq<Strategy>, requiredTags: seq<string>,
                               coreTags: seq<string>, kindPointer: Option<string>, expiresAtPointer: Option<string>,
                               rankPointer: Option<string>, rankOrder: RankOrder, bound: Expectation,
                               coordinatePointers: map<string, string>, wildcards: set<string>)

  datatype Request = Request(includeSuperseded: bool, coordinates: map<string, Json>, kinds: seq<string>,
                             tags: seq<string>, query: string)

  datatype Reason =
    FilterMismatch | Unauthorized | Superseded | Revoked | InvalidAtRequestTime | Expired | SelectorMismatch

  predicate WithdrawnTags(tags: seq<string>) {
    exists tag :: tag in tags && (tag == REVOKED_TAG || tag == LEGACY_REVOKED_TAG)
  }

  predicate ReadAuthorized(record: Entry, profile: Profile) {
    exists grant :: grant in profile.grants && grant.namespace == record.namespace && record.kind in grant.kinds
  }

  // ---------------------------------------------------------------------
  // Coordinates
  // ---------------------------------------------------------------------

  function SetOrWildcard(actual: Option<Json>, expected: Json): bool {
    match (actual, expected)
    case (None, _) => true
    case (Some(Null), _) => true
    case (Some(Array(held)), Array(wanted)) => exists value :: value in held && value in wanted
    case (Some(Array(held)), _) => expected in held
    case (Some(held), Array(wanted)) => held in wanted
    case (Some(held), _) => held == expected
  }

  /** A value names itself, a list names its members. */
  ghost function Named(value: Json): set<Json> {
    if value.Array? then set item | item in value.items else {value}
  }

  /** The rule is one rule: an absent value is universal, and otherwise the two
      sides meet, however either is spelled. */
  lemma SetOrWildcardMeets(actual: Option<Json>, expected: Json)
    ensures SetOrWildcard(actual, expected)
      <==> actual.None? || actual.value.Null? || Named(actual.value) * Named(expected) != {}
  {
    if actual.Some? && !actual.value.Null? {
      var both := Named(actual.value) * Named(expected);
      if both != {} {
        var value :| value in both;
        assert value in Named(actual.value) && value in Named(expected);
      }
      if SetOrWildcard(actual, expected) {
        if actual.value.Array? && expected.Array? {
          var value :| value in actual.value.items && value in expected.items;
          assert value in both;
        } else if actual.value.Array? {
          assert expected in both;
        } else {
          assert actual.value in both;
        }
      }
    }
  }

  /** The wider mode is wider, with one exception: a record that holds exactly the empty
      list a request asks for meets it in exact mode only. */
  lemma WildcardIsWider(actual: Option<Json>, expected: Json)
    requires actual == Some(expected)
    ensures SetOrWildcard(actual, expected) <==> expected != Array([])
  {
    SetOrWildcardMeets(actual, expected);
    if expected.Array? && expected.items != [] {
      assert expected.items[0] in Named(expected);
    }
  }

  /** Either side may be the list, and neither order matters; only absence is
      one-sided. */
  lemma MeetingIsSymmetric(a: Json, b: Json)
    requires !a.Null? && !b.Null?
    ensures SetOrWildcard(Some(a), b) <==> SetOrWildcard(Some(b), a)
  {
    SetOrWildcardMeets(Some(a), b);
    SetOrWildcardMeets(Some(b), a);
    assert Named(a) * Named(b) == Named(b) * Named(a);
  }

  /** What a record's value at a coordinate has to be: in set-or-wildcard mode absent, or
      with something in common with what is asked; otherwise just that. */
  ghost predicate AtCoordinate(actual: Option<Json>, wildcard: bool, expected: Json) {
    if wildcard
    then actual == None || actual == Some(Null) || Named(actual.value) * Named(expected) != {}
    else actual == Some(expected)
  }

  predicate CoordinateMatches(record: Entry, selector: Selector, key: string, expected: Json)
    requires key in selector.coordinatePointers
  {
    var actual := Resolve(record.payload, selector.coordinatePointers[key]);
    if key in selector.wildcards then SetOrWildcard(actual, expected) else actual == Some(expected)
  }

  lemma CoordinateMeans(record: Entry, selector: Selector, key: string, expected: Json)
    requires key in selector.coordinatePointers
    ensures CoordinateMatches(record, selector, key, expected) <==>
      AtCoordinate(Resolve(record.payload, selector.coordinatePointers[key]), key in selector.wildcards, expected)
  {
    SetOrWildcardMeets(Resolve(record.payload, selector.coordinatePointers[key]), expected);
  }

  /** A record that names nothing at a coordinate applies to everything exactly when the
      selector reads the coordinate as a set. */
  lemma AbsenceMatchesOnlyAsASet(record: Entry, selector: Selector, key: string, expected: Json)
    requires key in selector.coordinatePointers
    requires Resolve(record.payload, selector.coordinatePointers[key]) == None
    ensures CoordinateMatches(record, selector, key, expected) <==> key in selector.wildcards
  {
    SetOrWildcardMeets(None, expected);
  }

  predicate CoordinatesMatch(record: Entry, selector: Selector, request: Request) {
    forall key :: key in selector.coordinatePointers && key in request.coordinates ==>
      CoordinateMatches(record, selector, key, request.coordinates[key])
  }

  // ---------------------------------------------------------------------
  // The gate
  // ---------------------------------------------------------------------

  function TextAt(record: Entry, pointer: Option<string>): Option<string> {
    if pointer.None? then None
    else
      var value := Resolve(record.payload, pointer.value);
      if value.Some? && value.value.Text? then Some(value.value.text) else None
  }

  function StripPrefix(s: string, prefix: string): Option<string> {
    if |prefix| <= |s| && s[..|prefix|] == prefix then Some(s[|prefix|..]) else None
  }

  function FirstExpiryTag(tags: seq<string>): Option<string> {
    if tags == [] then None
    else if StripPrefix(tags[0], "expires:").Some? then StripPrefix(tags[0], "expires:")
    else FirstExpiryTag(tags[1..])
  }

  datatype Expiry = Live | Past | Unreadable

  function ExpiryOf(record: Entry, selector: Selector, at: int, parse: string -> Option<int>): Expiry {
    var pointed := TextAt(record, selector.expiresAtPointer);
    var value := if pointed.Some? then pointed else FirstExpiryTag(record.tags);
    if value.None? then Live
    else if parse(value.value).None? then Unreadable
    else if parse(value.value).value < at then Past
    else Live
  }

  predicate KindMatches(record: Entry, selector: Selector, kinds: seq<string>) {
    var kind := TextAt(record, selector.kindPointer);
    kind.Some? && kind.value in kinds
  }

  datatype Verdict = Pass | Excluded(reason: Reason) | Malformed

  function Gate(record: Entry, profile: Profile, selectors: map<string, Selector>, request: Request, at: int,
                superseded: set<Id>, parse: string -> Option<int>): Verdict {
    if !ReadAuthorized(record, profile) then Excluded(Unauthorized)
    else if record.id in superseded then Excluded(Reason.Superseded)
    else if !request.includeSuperseded && WithdrawnTags(record.tags) then Excluded(Revoked)
    else if parse(record.validAt).None? then Malformed
    else if parse(record.validAt).value > at then Excluded(InvalidAtRequestTime)
    else if record.kind !in selectors then Excluded(SelectorMismatch)
    else
      var selector := selectors[record.kind];
      match ExpiryOf(record, selector, at, parse)
      case Unreadable => Malformed
      case Past => Excluded(Expired)
      case Live =>
        if !CoordinatesMatch(record, selector, request) then Excluded(SelectorMismatch)
        else if request.kinds != [] && !KindMatches(record, selector, request.kinds) then Excluded(SelectorMismatch)
        else Pass
  }

  /** What the payload says at a pointer, if that is text. */
  ghost function PointedText(record: Entry, pointer: Option<string>): Option<string> {
    if pointer.Some? && Resolve(record.payload, pointer.value).Some?
       && Resolve(record.payload, pointer.value).value.Text?
    then Some(Resolve(record.payload, pointer.value).value.text)
    else None
  }

  /** The first tag that begins with `expires:` is the `i`th. */
  ghost predicate FirstExpires(tags: seq<string>, i: nat)
    requires i < |tags|
  {
    "expires:" <= tags[i] && forall k :: 0 <= k < i ==> !("expires:" <= tags[k])
  }

  /** The expiry says so: the text at the pointer, or else the first such tag, or nothing. */
  ghost predicate Expires(record: Entry, selector: Selector, says: string -> bool) {
    var pointed := PointedText(record, selector.expiresAtPointer);
    if pointed.Some? then says(pointed.value)
    else
      (forall tag :: tag in record.tags ==> !("expires:" <= tag))
      || exists i :: 0 <= i < |record.tags| && FirstExpires(record.tags, i) && says(record.tags[i][8..])
  }

  /** Not past its expiry, and with an expiry that can be read. */
  ghost predicate InForce(record: Entry, selector: Selector, at: int, parse: string -> Option<int>) {
    Expires(record, selector, text => NotBefore(parse(text), at))
  }

  ghost predicate Legible(record: Entry, selector: Selector, parse: string -> Option<int>) {
    Expires(record, selector, text => parse(text).Some?)
  }

  ghost predicate NotBefore(instant: Option<int>, at: int) {
    instant.Some? && at <= instant.value
  }

  lemma StripPrefixIs(tag: string)
    ensures StripPrefix(tag, "expires:") == if "expires:" <= tag then Some(tag[8..]) else None
  {
    assert |"expires:"| == 8;
  }

  lemma NotTheFirst(tags: seq<string>, i: nat)
    requires 0 < i < |tags| && "expires:" <= tags[0]
    ensures !FirstExpires(tags, i)
  {
    assert "expires:" <= tags[0];
  }

  lemma {:induction false} FirstExpiryTagIs(tags: seq<string>)
    ensures FirstExpiryTag(tags).None? <==> forall tag :: tag in tags ==> !("expires:" <= tag)
    ensures forall i :: 0 <= i < |tags| && FirstExpires(tags, i) ==> FirstExpiryTag(tags) == Some(tags[i][8..])
    ensures FirstExpiryTag(tags).Some? ==> exists i :: 0 <= i < |tags| && FirstExpires(tags, i)
  {
    if tags != [] {
      FirstExpiryTagIs(tags[1..]);
      StripPrefixIs(tags[0]);
      assert tags == [tags[0]] + tags[1..];
      assert forall tag :: tag in tags <==> tag == tags[0] || tag in tags[1..];
      if "expires:" <= tags[0] {
        assert FirstExpires(tags, 0) && tags[0] in tags;
        forall i: nat | i < |tags| && FirstExpires(tags, i) ensures i == 0 {
          if i > 0 {
            NotTheFirst(tags, i);
          }
        }
      } else {
        forall i | 0 <= i < |tags| && FirstExpires(tags, i)
          ensures FirstExpiryTag(tags) == Some(tags[i][8..])
        {
          assert FirstExpires(tags[1..], i - 1);
        }
        if FirstExpiryTag(tags).Some? {
          var i :| 0 <= i < |tags[1..]| && FirstExpires(tags[1..], i);
          assert FirstExpires(tags, i + 1);
        }
      }
    }
  }

  /** The text an expiry is read from. */
  ghost function ExpiryText(record: Entry, selector: Selector): Option<string> {
    var pointed := TextAt(record, selector.expiresAtPointer);
    if pointed.Some? then pointed else FirstExpiryTag(record.tags)
  }

  lemma ExpiresIs(record: Entry, selector: Selector, says: string -> bool)
    ensures Expires(record, selector, says) <==>
      ExpiryText(record, selector).None? || says(ExpiryText(record, selector).value)
  {
    FirstExpiryTagIs(record.tags);
    assert TextAt(record, selector.expiresAtPointer) == PointedText(record, selector.expiresAtPointer);
  }

  lemma ExpiryIsLiveInForce(record: Entry, selector: Selector, at: int, parse: string -> Option<int>)
    ensures ExpiryOf(record, selector, at, parse) == Live <==> InForce(record, selector, at, parse)
    ensures ExpiryOf(record, selector, at, parse) == Unreadable <==> !Legible(record, selector, parse)
  {
    ExpiresIs(record, selector, text => NotBefore(parse(text), at));
    ExpiresIs(record, selector, text => parse(text).Some?);
  }

  /** The profile may read records like it. */
  ghost predicate Granted(record: Entry, profile: Profile) {
    exists grant :: grant in profile.grants && grant.namespace == record.namespace && record.kind in grant.kinds
  }

  ghost predicate Tombstoned(record: Entry) {
    "equill:revoked" in record.tags || "status:revoked" in record.tags
  }

  /** It is at every coordinate that is asked for and that the selector knows. */
  ghost predicate AtCoordinates(record: Entry, selector: Selector, request: Request) {
    forall key :: key in selector.coordinatePointers && key in request.coordinates ==>
      AtCoordinate(Resolve(record.payload, selector.coordinatePointers[key]), key in selector.wildcards,
                   request.coordinates[key])
  }

  ghost predicate OfKind(record: Entry, selector: Selector, kinds: seq<string>) {
    kinds == [] || (PointedText(record, selector.kindPointer).Some?
                    && PointedText(record, selector.kindPointer).value in kinds)
  }

  /** Nothing has replaced or withdrawn it, as far as the request minds. */
  ghost predicate Open(record: Entry, profile: Profile, request: Request, superseded: set<Id>) {
    Granted(record, profile) && record.id !in superseded && (Tombstoned(record) ==> request.includeSuperseded)
  }

  ghost predicate Begun(record: Entry, at: int, parse: string -> Option<int>) {
    parse(record.validAt).Some? && parse(record.validAt).value <= at
  }

  /** What a request asks of a record, all at once and in no order. */
  ghost predicate Eligible(record: Entry, profile: Profile, selectors: map<string, Selector>, request: Request, at: int,
                           superseded: set<Id>, parse: string -> Option<int>) {
    && Open(record, profile, request, superseded) && Begun(record, at, parse)
    && record.kind in selectors
    && InForce(record, selectors[record.kind], at, parse)
    && AtCoordinates(record, selectors[record.kind], request)
    && OfKind(record, selectors[record.kind], request.kinds)
  }

  /** The gate lets through exactly what is eligible, and gives each reason exactly when it
      is the first that holds. A record outside the grants is never looked into: it cannot
      so much as make the request fail. */
  lemma GateIsEligibility(record: Entry, profile: Profile, selectors: map<string, Selector>, request: Request, at: int,
                          superseded: set<Id>, parse: string -> Option<int>)
    ensures var verdict := Gate(record, profile, selectors, request, at, superseded, parse);
      var granted, open := Granted(record, profile), Open(record, profile, request, superseded);
      var begun, known := open && Begun(record, at, parse), record.kind in selectors;
      && (verdict == Pass <==> Eligible(record, profile, selectors, request, at, superseded, parse))
      && (verdict == Excluded(Unauthorized) <==> !granted)
      && (verdict == Excluded(Reason.Superseded) <==> granted && record.id in superseded)
      && (verdict == Excluded(Revoked) <==>
            granted && record.id !in superseded && Tombstoned(record) && !request.includeSuperseded)
      && (verdict == Excluded(InvalidAtRequestTime) <==>
            open && parse(record.validAt).Some? && at < parse(record.validAt).value)
      && (verdict == Malformed <==>
            open && (parse(record.validAt).None?
                     || (begun && known && !Legible(record, selectors[record.kind], parse))))
      && (verdict == Excluded(Expired) <==>
            begun && known && Legible(record, selectors[record.kind], parse)
            && !InForce(record, selectors[record.kind], at, parse))
  {
    GateReasons(record, profile);
    if record.kind in selectors {
      ExpiryIsLiveInForce(record, selectors[record.kind], at, parse);
      CoordinatesMean(record, selectors[record.kind], request);
    }
  }

  lemma GateReasons(record: Entry, profile: Profile)
    ensures ReadAuthorized(record, profile) <==> Granted(record, profile)
    ensures WithdrawnTags(record.tags) <==> Tombstoned(record)
  {
    if Tombstoned(record) {
      var tag := if "equill:revoked" in record.tags then "equill:revoked" else "status:revoked";
      assert tag in record.tags;
    }
  }

  lemma CoordinatesMean(record: Entry, selector: Selector, request: Request)
    ensures CoordinatesMatch(record, selector, request) <==> AtCoordinates(record, selector, request)
    ensures KindMatches(record, selector, request.kinds) || request.kinds == []
      <==> OfKind(record, selector, request.kinds)
  {
    forall key | key in selector.coordinatePointers && key in request.coordinates
      ensures CoordinateMatches(record, selector, key, request.coordinates[key]) <==>
        AtCoordinate(Resolve(record.payload, selector.coordinatePointers[key]), key in selector.wildcards,
                     request.coordinates[key])
    {
      CoordinateMeans(record, selector, key, request.coordinates[key]);
    }
    assert TextAt(record, selector.kindPointer) == PointedText(record, selector.kindPointer);
  }

  // ---------------------------------------------------------------------
  // Classification
  // ---------------------------------------------------------------------

  predicate HasAny(values: seq<string>, expected: seq<string>) {
    exists value :: value in values && value in expected
  }

  /** `mentions` is the literal search of payload and tags for the query. */
  predicate Matches(strategy: Strategy, record: Entry, request: Request, fts: set<Id>, semantic: set<Id>,
                    mentions: Entry -> bool) {
    match strategy
    case Exact => mentions(record)
    case Tag => HasAny(record.tags, request.tags)
    case Recency => true
    case Fts => record.id in fts
    case Hybrid => record.id in semantic
  }

  function Matched(strategies: seq<Strategy>, record: Entry, request: Request, fts: set<Id>, semantic: set<Id>,
                   mentions: Entry -> bool): (matched: seq<Strategy>)
    ensures forall s :: s in matched <==> s in strategies && Matches(s, record, request, fts, semantic, mentions)
  {
    if strategies == [] then []
    else
      var last := strategies[|strategies| - 1];
      Matched(strategies[..|strategies| - 1], record, request, fts, semantic, mentions)
      + if Matches(last, record, request, fts, semantic, mentions) then [last] else []
  }

  function Classify(record: Entry, selector: Selector, request: Request, fts: set<Id>, semantic: set<Id>,
                    mentions: Entry -> bool): (found: Option<(Tier, seq<Strategy>)>)
    ensures found.Some? && found.value.0 != Relevant ==> found.value.1 == [Tag]
    ensures found.Some? && found.value.1 == [Hybrid] ==> found.value.0 == Relevant && record.id in semantic
  {
    if HasAny(record.tags, selector.requiredTags) then Some((Required, [Tag]))
    else if HasAny(record.tags, selector.coreTags) then Some((Core, [Tag]))
    else
      var matched := Matched(selector.strategies, record, request, fts, semantic, mentions);
      assert matched == [Hybrid] ==> matched[0] in matched;
      if matched == [] then None else Some((Relevant, matched))
  }

  ghost predicate Tagged(record: Entry, tags: seq<string>) {
    exists tag :: tag in record.tags && tag in tags
  }

  /** What each strategy finds a record by. */
  ghost predicate FoundBy(s: Strategy, record: Entry, request: Request, fts: set<Id>, semantic: set<Id>,
                          mentions: Entry -> bool) {
    || (s == Exact && mentions(record))
    || (s == Tag && Tagged(record, request.tags))
    || s == Recency
    || (s == Fts && record.id in fts)
    || (s == Hybrid && record.id in semantic)
  }

  ghost predicate SomeFinds(selector: Selector, record: Entry, request: Request, fts: set<Id>, semantic: set<Id>,
                            mentions: Entry -> bool) {
    exists s :: s in selector.strategies && FoundBy(s, record, request, fts, semantic, mentions)
  }

  lemma {:induction false} MatchedCounts(strategies: seq<Strategy>, record: Entry, request: Request, fts: set<Id>,
                                         semantic: set<Id>, mentions: Entry -> bool, s: Strategy)
    ensures multiset(Matched(strategies, record, request, fts, semantic, mentions))[s] ==
      if FoundBy(s, record, request, fts, semantic, mentions) then multiset(strategies)[s] else 0
  {
    if strategies != [] {
      var front, last := strategies[..|strategies| - 1], strategies[|strategies| - 1];
      MatchedCounts(front, record, request, fts, semantic, mentions, s);
      FoundByIs(last, record, request, fts, semantic, mentions);
      assert strategies == front + [last];
    }
  }

  ghost function Finding(record: Entry, request: Request, fts: set<Id>, semantic: set<Id>, mentions: Entry -> bool)
    : Strategy -> Option<Strategy>
  {
    s => if FoundBy(s, record, request, fts, semantic, mentions) then Some(s) else None
  }

  lemma FoundByIs(s: Strategy, record: Entry, request: Request, fts: set<Id>, semantic: set<Id>,
                  mentions: Entry -> bool)
    ensures Matches(s, record, request, fts, semantic, mentions)
      <==> FoundBy(s, record, request, fts, semantic, mentions)
  {
  }

  /** The strategies that find a record, in the order the selector names them. */
  lemma {:induction false} MatchedInOrder(strategies: seq<Strategy>, record: Entry, request: Request, fts: set<Id>,
                                          semantic: set<Id>, mentions: Entry -> bool)
    ensures Matched(strategies, record, request, fts, semantic, mentions)
      == Picked(strategies, Finding(record, request, fts, semantic, mentions))
  {
    if strategies != [] {
      MatchedInOrder(strategies[..|strategies| - 1], record, request, fts, semantic, mentions);
      FoundByIs(strategies[|strategies| - 1], record, request, fts, semantic, mentions);
    }
  }

  /** A required tag outranks a core tag, either outranks any strategy, and a record
      is left out exactly when it has neither and no strategy of its selector finds
      it. A relevant one lists each strategy as often as the selector does. */
  lemma ClassifyMeans(record: Entry, selector: Selector, request: Request, fts: set<Id>, semantic: set<Id>,
                      mentions: Entry -> bool)
    ensures var found := Classify(record, selector, request, fts, semantic, mentions);
      var required, core := Tagged(record, selector.requiredTags), Tagged(record, selector.coreTags);
      && (found.Some? <==> required || core || SomeFinds(selector, record, request, fts, semantic, mentions))
      && (found.Some? ==>
            && (found.value.0 == Required <==> required)
            && (found.value.0 == Core <==> core && !required)
            && (found.value.0 != Relevant ==> found.value.1 == [Tag])
            && (found.value.0 == Relevant ==>
                  forall s :: multiset(found.value.1)[s] ==
                    if FoundBy(s, record, request, fts, semantic, mentions)
                    then multiset(selector.strategies)[s] else 0))
  {
    var matched := Matched(selector.strategies, record, request, fts, semantic, mentions);
    forall s ensures multiset(matched)[s] ==
      if FoundBy(s, record, request, fts, semantic, mentions) then multiset(selector.strategies)[s] else 0
    {
      MatchedCounts(selector.strategies, record, request, fts, semantic, mentions, s);
    }
    assert matched != [] ==> matched[0] in matched;
  }

  // ---------------------------------------------------------------------
  // Why a coordinate matched nothing
  // ---------------------------------------------------------------------

  datatype Unmatched = Unmatched(key: string, declared: bool, exactOnly: bool)

  ghost predicate Declares(selectors: seq<Selector>, key: string) {
    exists s :: s in selectors && key in s.coordinatePointers
  }

  ghost predicate DeclaresWildcard(selectors: seq<Selector>, key: string) {
    exists s :: s in selectors && key in s.coordinatePointers && key in s.wildcards
  }

  ghost predicate ReachedBy(records: seq<Entry>, selector: Selector, key: string, expected: Json) {
    key in selector.coordinatePointers && exists r :: r in records && Answers(r, selector, key, expected)
  }

  ghost predicate Answers(record: Entry, selector: Selector, key: string, expected: Json)
    requires key in selector.coordinatePointers
  {
    AtCoordinate(Resolve(record.payload, selector.coordinatePointers[key]), key in selector.wildcards, expected)
  }

  ghost predicate Reached(records: seq<Entry>, selectors: seq<Selector>, key: string, expected: Json) {
    exists s :: s in selectors && ReachedBy(records, s, key, expected)
  }

  ghost function PickUnmatched(records: seq<Entry>, selectors: seq<Selector>, request: Request)
    : string -> Option<Unmatched>
  {
    (key: string) =>
      if key in request.coordinates && !Reached(records, selectors, key, request.coordinates[key])
      then Some(Unmatched(key, Declares(selectors, key), Declares(selectors, key) && !DeclaresWildcard(selectors, key)))
      else None
  }

  /** Reported, each once and in order, exactly when no readable record meets it through
      any selector. */
  method CoordinateDiagnosis(records: seq<Entry>, selectors: seq<Selector>, request: Request, keys: seq<string>)
    returns (unmatched: seq<Unmatched>)
    requires forall key :: key in keys <==> key in request.coordinates
    ensures unmatched == Picked(keys, PickUnmatched(records, selectors, request))
    ensures forall item :: item in unmatched <==>
      && item.key in request.coordinates
      && !Reached(records, selectors, item.key, request.coordinates[item.key])
      && item.declared == Declares(selectors, item.key)
      && item.exactOnly == (Declares(selectors, item.key) && !DeclaresWildcard(selectors, item.key))
  {
    unmatched := [];
    ghost var pick := PickUnmatched(records, selectors, request);
    for i := 0 to |keys|
      invariant unmatched == Picked(keys[..i], pick)
    {
      var key := keys[i];
      assert keys[..i + 1] == keys[..i] + [key];
      PickedStep(keys[..i], key, pick);
      var declared, matched, exactOnly := Diagnose(records, selectors, key, request.coordinates[key]);
      if !matched {
        unmatched := unmatched + [Unmatched(key, declared, declared && exactOnly)];
      }
    }
    assert keys[..|keys|] == keys;
    PickedMeans(keys, pick);
    forall item: Unmatched ensures item in unmatched <==> item.key in keys && pick(item.key) == Some(item) {}
  }

  lemma ReachedIs(records: seq<Entry>, selector: Selector, key: string, expected: Json)
    requires key in selector.coordinatePointers
    ensures ReachedBy(records, selector, key, expected)
      <==> exists r :: r in records && CoordinateMatches(r, selector, key, expected)
  {
    forall r ensures CoordinateMatches(r, selector, key, expected) <==> Answers(r, selector, key, expected) {
      CoordinateMeans(r, selector, key, expected);
    }
  }

  method Diagnose(records: seq<Entry>, selectors: seq<Selector>, key: string, expected: Json)
    returns (declared: bool, matched: bool, exactOnly: bool)
    ensures declared == Declares(selectors, key)
    ensures matched == Reached(records, selectors, key, expected)
    ensures exactOnly == !DeclaresWildcard(selectors, key)
  {
    declared, matched, exactOnly := false, false, true;
    for j := 0 to |selectors|
      invariant declared == Declares(selectors[..j], key)
      invariant matched == Reached(records, selectors[..j], key, expected)
      invariant exactOnly == !DeclaresWildcard(selectors[..j], key)
    {
      var selector := selectors[j];
      assert selectors[..j + 1] == selectors[..j] + [selector];
      if key !in selector.coordinatePointers {
        continue;
      }
      declared := true;
      if key in selector.wildcards {
        exactOnly := false;
      }
      var met := exists r :: r in records && CoordinateMatches(r, selector, key, expected);
      ReachedIs(records, selector, key, expected);
      matched := matched || met;
    }
    assert selectors[..|selectors|] == selectors;
  }

  /** The diagnosis speaks for the gate: once a coordinate is reported, no record
      read through a selector that declares it can have passed. */
  lemma UnmatchedExcludes(records: seq<Entry>, selectors: seq<Selector>, request: Request, key: string,
                          record: Entry, selector: Selector)
    requires key in request.coordinates && !Reached(records, selectors, key, request.coordinates[key])
    requires record in records && selector in selectors && key in selector.coordinatePointers
    ensures !CoordinatesMatch(record, selector, request)
  {
    assert !ReachedBy(records, selector, key, request.coordinates[key]);
    CoordinateMeans(record, selector, key, request.coordinates[key]);
  }
}
