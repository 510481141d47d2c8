/** Who may govern a store and who may append to it: the metadata rules, the four
    permission checks, and the five governance actions that change the answer. */
module Authority {
  import opened Ledger
  import opened JsonPointer
  import Sorting

  datatype WriteGrant = WriteGrant(
    actors: seq<string>,
    namespace: string,
    types: seq<string>,
    payloadEquals: map<string, Json>)

  /** `rest` stands for the fields no rule here reads: version, creation time,
      default profile and whatever a newer build wrote. */
  datatype StoreConfig = StoreConfig(
    rootOwner: string,
    namespaces: seq<string>,
    writers: seq<string>,
    readOnly: seq<string>,
    writeGrants: seq<WriteGrant>,
    rest: string)

  datatype Error =
    | InvalidOwner | InvalidNamespace | InvalidActor | InvalidType | Governance | PermissionDenied | ReadOnlyActor
    | Integrity

  datatype Result<+T> = Ok(value: T) | Err(error: Error)

  // ---------------------------------------------------------------------
  // Identities (kernel/identity)
  // ---------------------------------------------------------------------

  /** Unicode Cc. */
  predicate Control(c: char) {
    c < ' ' || '\U{7f}' <= c <= '\U{9f}'
  }

  /** Unicode White_Space, as `trim` reads it. */
  predicate Whitespace(c: char) {
    || '\U{9}' <= c <= '\U{d}' || c == ' ' || c == '\U{85}' || c == '\U{a0}' || c == '\U{1680}'
    || '\U{2000}' <= c <= '\U{200a}' || c == '\U{2028}' || c == '\U{2029}' || c == '\U{202f}'
    || c == '\U{205f}' || c == '\U{3000}'
  }

  /** The two tables, character by character. */
  lemma CharacterClasses(c: char)
    ensures Whitespace(c) <==>
      (c as int in {0x9, 0xa, 0xb, 0xc, 0xd, 0x20, 0x85, 0xa0, 0x1680, 0x2000, 0x2001, 0x2002, 0x2003, 0x2004, 0x2005,
                    0x2006, 0x2007, 0x2008, 0x2009, 0x200a, 0x2028, 0x2029, 0x202f, 0x205f, 0x3000})
    ensures Control(c) <==> c as int <= 31 || 127 <= c as int <= 159
  {
  }

  predicate Blank(s: string) {
    forall i :: 0 <= i < |s| ==> Whitespace(s[i])
  }

  predicate ValidIdentity(s: string) {
    !Blank(s) && forall i :: 0 <= i < |s| ==> !Control(s[i])
  }

  predicate ValidMatch(s: string) {
    s == "*" || ValidIdentity(s)
  }

  /** `*` in an allow-list means any valid actor. */
  predicate Permits(allowed: seq<string>, actor: string) {
    ValidIdentity(actor) && ("*" in allowed || actor in allowed)
  }

  // ---------------------------------------------------------------------
  // Metadata rules (kernel/store)
  // ---------------------------------------------------------------------

  ghost predicate Distinct(s: seq<string>) {
    forall i, j :: 0 <= i < j < |s| ==> s[i] != s[j]
  }

  ghost predicate ReadOnlyOk(owner: string, readOnly: seq<string>) {
    && (forall actor :: actor in readOnly ==> actor != "*" && ValidIdentity(actor) && actor != owner)
    && Distinct(readOnly)
  }

  predicate UnusableBound(value: Json) {
    value.Null? || (value.Text? && (value.text == "*" || Blank(value.text)))
  }

  /** A value a payload can be bound to: not null, not the wildcard, not blank. */
  ghost predicate BoundOk(pointer: string, expected: Json) {
    && IsPointer(pointer) && expected != Null && expected != Text("*")
    && (expected.Text? ==> exists i :: 0 <= i < |expected.text| && !Whitespace(expected.text[i]))
  }

  ghost predicate GrantOk(namespaces: seq<string>, grant: WriteGrant) {
    && grant.actors != [] && (forall actor :: actor in grant.actors ==> actor == "*" || ValidIdentity(actor))
    && (grant.namespace == "*" || (ValidIdentity(grant.namespace) && grant.namespace in namespaces))
    && grant.types != [] && (forall name :: name in grant.types ==> name == "*" || ValidIdentity(name))
    && (grant.payloadEquals != map[] ==>
          && "*" !in grant.actors && grant.namespace != "*" && "*" !in grant.types
          && forall pointer :: pointer in grant.payloadEquals ==> BoundOk(pointer, grant.payloadEquals[pointer]))
  }

  ghost predicate ValidConfig(config: StoreConfig) {
    && ValidIdentity(config.rootOwner)
    && config.namespaces != []
    && (forall writer :: writer in config.writers ==> writer == "*" || ValidIdentity(writer))
    && ReadOnlyOk(config.rootOwner, config.readOnly)
    && (forall grant :: grant in config.writeGrants ==> GrantOk(config.namespaces, grant))
  }

  /** The first rule a grant breaks. */
  ghost function GrantFault(namespaces: seq<string>, grant: WriteGrant): (fault: Option<Error>)
    ensures fault.None? <==> GrantOk(namespaces, grant)
  {
    if grant.actors == [] || exists actor :: actor in grant.actors && !ValidMatch(actor) then Some(InvalidActor)
    else if !ValidMatch(grant.namespace) || (grant.namespace != "*" && grant.namespace !in namespaces)
    then Some(InvalidNamespace)
    else if grant.types == [] || exists name :: name in grant.types && !ValidMatch(name) then Some(InvalidType)
    else if GrantOk(namespaces, grant) then None
    else Some(Governance)
  }

  ghost function GrantsFault(namespaces: seq<string>, grants: seq<WriteGrant>): (fault: Option<Error>)
    ensures fault.None? <==> forall grant :: grant in grants ==> GrantOk(namespaces, grant)
  {
    if grants == [] then None
    else
      var front, last := grants[..|grants| - 1], grants[|grants| - 1];
      assert grants == front + [last];
      var earlier := GrantsFault(namespaces, front);
      if earlier.Some? then earlier else GrantFault(namespaces, last)
  }

  /** The first rule the metadata breaks. */
  ghost function Fault(config: StoreConfig): (fault: Option<Error>)
    ensures fault.None? <==> ValidConfig(config)
  {
    if !ValidIdentity(config.rootOwner) then Some(InvalidOwner)
    else if config.namespaces == [] then Some(InvalidNamespace)
    else if exists writer :: writer in config.writers && !ValidMatch(writer) then Some(InvalidActor)
    else if !ReadOnlyOk(config.rootOwner, config.readOnly) then Some(Governance)
    else GrantsFault(config.namespaces, config.writeGrants)
  }

  method ValidateReadOnly(config: StoreConfig) returns (error: Option<Error>)
    ensures error.None? <==> ReadOnlyOk(config.rootOwner, config.readOnly)
    ensures error.Some? ==> error.value == Governance
  {
    var seen: set<string> := {};
    for i := 0 to |config.readOnly|
      invariant seen == set k | 0 <= k < i :: config.readOnly[k]
      invariant forall k :: 0 <= k < i ==>
        config.readOnly[k] != "*" && ValidIdentity(config.readOnly[k]) && config.readOnly[k] != config.rootOwner
      invariant Distinct(config.readOnly[..i])
    {
      var actor := config.readOnly[i];
      if actor == "*" || !ValidIdentity(actor) || actor == config.rootOwner {
        assert actor in config.readOnly;
        return Some(Governance);
      }
      if actor in seen {
        return Some(Governance);
      }
      seen := seen + {actor};
    }
    assert config.readOnly[..|config.readOnly|] == config.readOnly;
    error := None;
  }

  method ValidateGrant(namespaces: seq<string>, grant: WriteGrant) returns (error: Option<Error>)
    ensures error == GrantFault(namespaces, grant)
    ensures error.None? <==> GrantOk(namespaces, grant)
  {
    if grant.actors == [] || exists actor :: actor in grant.actors && !ValidMatch(actor) {
      return Some(InvalidActor);
    }
    if !ValidMatch(grant.namespace) || (grant.namespace != "*" && grant.namespace !in namespaces) {
      return Some(InvalidNamespace);
    }
    if grant.types == [] || exists name :: name in grant.types && !ValidMatch(name) {
      return Some(InvalidType);
    }
    if grant.payloadEquals != map[] {
      if "*" in grant.actors || grant.namespace == "*" || "*" in grant.types {
        return Some(Governance);
      }
      var pointers := grant.payloadEquals.Keys;
      while pointers != {}
        invariant pointers <= grant.payloadEquals.Keys
        invariant forall pointer :: pointer in grant.payloadEquals && pointer !in pointers ==>
          BoundOk(pointer, grant.payloadEquals[pointer])
        decreases pointers
      {
        var pointer :| pointer in pointers;
        var spelled := ValidPointer(pointer);
        if !spelled || UnusableBound(grant.payloadEquals[pointer]) {
          assert pointer in grant.payloadEquals && !BoundOk(pointer, grant.payloadEquals[pointer]);
          return Some(Governance);
        }
        pointers := pointers - {pointer};
      }
    }
    error := None;
  }

  /** Every rule a store's metadata has to satisfy to be loadable. */
  method Validate(config: StoreConfig) returns (error: Option<Error>)
    ensures error == Fault(config)
    ensures error.None? <==> ValidConfig(config)
  {
    if !ValidIdentity(config.rootOwner) {
      return Some(InvalidOwner);
    }
    if config.namespaces == [] {
      return Some(InvalidNamespace);
    }
    if exists writer :: writer in config.writers && !ValidMatch(writer) {
      return Some(InvalidActor);
    }
    error := ValidateReadOnly(config);
    if error.Some? {
      return;
    }
    error := ValidateGrants(config.namespaces, config.writeGrants);
  }

  method ValidateGrants(namespaces: seq<string>, grants: seq<WriteGrant>) returns (error: Option<Error>)
    ensures error == GrantsFault(namespaces, grants)
  {
    for i := 0 to |grants|
      invariant GrantsFault(namespaces, grants[..i]).None?
    {
      assert grants[..i + 1][..i] == grants[..i];
      error := ValidateGrant(namespaces, grants[i]);
      if error.Some? {
        FaultStays(namespaces, grants, i + 1);
        return;
      }
    }
    assert grants[..|grants|] == grants;
    error := None;
  }

  lemma {:induction false} FaultStays(namespaces: seq<string>, grants: seq<WriteGrant>, i: nat)
    requires i <= |grants| && GrantsFault(namespaces, grants[..i]).Some?
    ensures GrantsFault(namespaces, grants) == GrantsFault(namespaces, grants[..i])
  {
    if i == |grants| {
      assert grants[..i] == grants;
    } else {
      assert grants[..|grants| - 1][..i] == grants[..i];
      FaultStays(namespaces, grants[..|grants| - 1], i);
    }
  }

  // ---------------------------------------------------------------------
  // Permission checks (kernel/identity)
  // ---------------------------------------------------------------------

  datatype Verdict = Granted | HeldToReading | Denied

  datatype Target = Target(namespace: string, kind: string, payload: Json)

  /** A refusal comes before anything that grants. */
  function Judge(config: StoreConfig, actor: string, allowed: bool): Verdict {
    if actor in config.readOnly then HeldToReading else if allowed then Granted else Denied
  }

  function RequireRoot(config: StoreConfig, actor: string): Verdict {
    Judge(config, actor, actor == config.rootOwner)
  }

  predicate StoreWide(config: StoreConfig, actor: string) {
    ValidIdentity(actor) && (actor == config.rootOwner || Permits(config.writers, actor))
  }

  function RequireWriter(config: StoreConfig, actor: string): Verdict {
    Judge(config, actor, StoreWide(config, actor))
  }

  predicate Matches(expected: string, actual: string) {
    expected == "*" || expected == actual
  }

  predicate Scopes(grant: WriteGrant, actor: string, namespace: string, kind: string) {
    && Permits(grant.actors, actor)
    && Matches(grant.namespace, namespace)
    && (exists item :: item in grant.types && Matches(item, kind))
  }

  predicate CoversType(grant: WriteGrant, actor: string, namespace: string, kind: string) {
    Scopes(grant, actor, namespace, kind) && grant.payloadEquals == map[]
  }

  predicate TypeGranted(grants: seq<WriteGrant>, actor: string, namespace: string, kind: string) {
    exists grant :: grant in grants && CoversType(grant, actor, namespace, kind)
  }

  function RequireTypeWriter(config: StoreConfig, actor: string, namespace: string, kind: string): Verdict {
    Judge(config, actor, StoreWide(config, actor) || TypeGranted(config.writeGrants, actor, namespace, kind))
  }

  predicate Covers(grant: WriteGrant, actor: string, target: Target) {
    && Scopes(grant, actor, target.namespace, target.kind)
    && forall pointer :: pointer in grant.payloadEquals ==>
         Resolve(target.payload, pointer) == Some(grant.payloadEquals[pointer])
  }

  /** One grant must cover both ends of a replacement. */
  predicate CoversBoth(grant: WriteGrant, actor: string, record: Target, predecessor: Option<Target>) {
    Covers(grant, actor, record) && (predecessor.Some? ==> Covers(grant, actor, predecessor.value))
  }

  predicate RecordGranted(grants: seq<WriteGrant>, actor: string, record: Target, predecessor: Option<Target>) {
    exists grant :: grant in grants && CoversBoth(grant, actor, record, predecessor)
  }

  function RequireRecordWriter(
    config: StoreConfig, actor: string, record: Target, predecessor: Option<Target>): Verdict
  {
    Judge(config, actor, StoreWide(config, actor) || RecordGranted(config.writeGrants, actor, record, predecessor))
  }

  /** The two configurations answer every question about this actor alike. */
  ghost predicate SameAnswers(a: StoreConfig, b: StoreConfig, actor: string) {
    && RequireRoot(a, actor) == RequireRoot(b, actor)
    && RequireWriter(a, actor) == RequireWriter(b, actor)
    && (forall namespace, kind ::
          RequireTypeWriter(a, actor, namespace, kind) == RequireTypeWriter(b, actor, namespace, kind))
    && (forall record, predecessor ::
          RequireRecordWriter(a, actor, record, predecessor) == RequireRecordWriter(b, actor, record, predecessor))
  }

  ghost predicate RefusedEverything(config: StoreConfig, actor: string) {
    && RequireRoot(config, actor) != Granted
    && RequireWriter(config, actor) != Granted
    && (forall namespace, kind :: RequireTypeWriter(config, actor, namespace, kind) != Granted)
    && (forall record, predecessor :: RequireRecordWriter(config, actor, record, predecessor) != Granted)
  }

  // ---------------------------------------------------------------------
  // Actions (governance/owner, grant, reader)
  // ---------------------------------------------------------------------

  datatype Action =
    | Transfer(newOwner: string)
    | AddGrant(subject: string, namespace: string, types: seq<string>, payloadEquals: map<string, Json>)
    | Revoke(subject: string)
    | Deny(subject: string)
    | Allow(subject: string)

  function Without(items: seq<string>, item: string): (kept: seq<string>)
    ensures forall x :: x in kept <==> x in items && x != item
  {
    if items == [] then []
    else Without(items[..|items| - 1], item) + if items[|items| - 1] == item then [] else [items[|items| - 1]]
  }

  /** The actor off every grant, and grants left with nobody dropped. */
  function StripActor(grants: seq<WriteGrant>, actor: string): (kept: seq<WriteGrant>)
    ensures forall g :: g in kept <==>
      g.actors != [] && exists was :: was in grants && g == was.(actors := Without(was.actors, actor))
  {
    if grants == [] then []
    else
      var last := grants[|grants| - 1];
      var stripped := last.(actors := Without(last.actors, actor));
      var front := grants[..|grants| - 1];
      assert grants == front + [last];
      StripActor(front, actor) + if stripped.actors == [] then [] else [stripped]
  }

  function NewGrant(action: Action): WriteGrant
    requires action.AddGrant?
  {
    WriteGrant([action.subject], action.namespace, action.types, action.payloadEquals)
  }

  /** The change each action makes to the loaded metadata. */
  function Change(config: StoreConfig, action: Action): StoreConfig {
    match action
    case Transfer(newOwner) =>
      config.(rootOwner := newOwner,
              writers := Without(config.writers, config.rootOwner),
              writeGrants := StripActor(config.writeGrants, config.rootOwner))
    case AddGrant(_, _, _, _) => config.(writeGrants := config.writeGrants + [NewGrant(action)])
    case Revoke(subject) => config.(writeGrants := StripActor(config.writeGrants, subject))
    case Deny(subject) => config.(readOnly := Sorting.Sort(config.readOnly + [subject], Sorting.Leq))
    case Allow(subject) => config.(readOnly := Without(config.readOnly, subject))
  }

  /** What an action refuses before it touches anything. */
  function Refusal(config: StoreConfig, action: Action): Option<Error> {
    match action
    case Transfer(newOwner) =>
      if !ValidIdentity(newOwner) || newOwner == config.rootOwner then Some(InvalidOwner)
      else if newOwner in config.readOnly then Some(Governance)
      else if "*" in config.writers then Some(Governance)
      else if exists grant :: grant in config.writeGrants && "*" in grant.actors then Some(Governance)
      else None
    case AddGrant(subject, _, types, _) =>
      if !ValidIdentity(subject) then Some(InvalidActor) else if types == [] then Some(InvalidType) else None
    case Revoke(_) => None
    case Deny(subject) =>
      if !ValidIdentity(subject) || subject == "*" || subject == config.rootOwner then Some(Governance) else None
    case Allow(subject) => if !ValidIdentity(subject) then Some(Governance) else None
  }

  /** An action that would change nothing writes nothing. */
  predicate Effective(config: StoreConfig, action: Action) {
    match action
    case Transfer(_) => true
    case AddGrant(_, _, _, _) => NewGrant(action) !in config.writeGrants
    case Revoke(subject) => exists grant :: grant in config.writeGrants && subject in grant.actors
    case Deny(subject) => subject !in config.readOnly
    case Allow(subject) => subject in config.readOnly
  }

  /** One governance command against loaded metadata: authority first, then the
      action's own refusals, then the change, and its result validated. */
  ghost function Govern(config: StoreConfig, action: Action, actor: string): Result<StoreConfig> {
    match RequireRoot(config, actor)
    case HeldToReading => Err(ReadOnlyActor)
    case Denied => Err(PermissionDenied)
    case Granted =>
      var refusal := Refusal(config, action);
      if refusal.Some? then Err(refusal.value)
      else if !Effective(config, action) then Ok(config)
      else
        var fault := Fault(Change(config, action));
        if fault.Some? then Err(fault.value) else Ok(Change(config, action))
  }

  // ---------------------------------------------------------------------
  // The same change, made in place as the commands make it
  // ---------------------------------------------------------------------

  method Retain(items: seq<string>, item: string) returns (kept: seq<string>)
    ensures kept == Without(items, item)
  {
    kept := [];
    for i := 0 to |items|
      invariant kept == Without(items[..i], item)
    {
      assert items[..i + 1][..i] == items[..i];
      if items[i] != item {
        kept := kept + [items[i]];
      }
    }
    assert items[..|items|] == items;
  }

  ghost function Stripped(grants: seq<WriteGrant>, actor: string): (out: seq<WriteGrant>)
    ensures |out| == |grants|
    ensures forall i :: 0 <= i < |out| ==> out[i] == grants[i].(actors := Without(grants[i].actors, actor))
  {
    seq(|grants|, i requires 0 <= i < |grants| => grants[i].(actors := Without(grants[i].actors, actor)))
  }

  lemma {:induction false} StripActorStep(grants: seq<WriteGrant>, actor: string, i: nat)
    requires i < |grants|
    ensures StripActor(grants[..i + 1], actor) ==
      StripActor(grants[..i], actor)
      + if Stripped(grants, actor)[i].actors == [] then [] else [Stripped(grants, actor)[i]]
  {
    assert grants[..i + 1][..i] == grants[..i];
  }

  /** Takes the actor off each grant, then drops the grants left empty. */
  method StripGrants(grants: seq<WriteGrant>, actor: string) returns (kept: seq<WriteGrant>)
    ensures kept == StripActor(grants, actor)
  {
    var edited := grants;
    for i := 0 to |grants|
      invariant |edited| == |grants|
      invariant forall k :: 0 <= k < i ==> edited[k] == Stripped(grants, actor)[k]
      invariant forall k :: i <= k < |grants| ==> edited[k] == grants[k]
    {
      var actors := Retain(edited[i].actors, actor);
      edited := edited[i := edited[i].(actors := actors)];
    }
    kept := [];
    for i := 0 to |edited|
      invariant kept == StripActor(grants[..i], actor)
    {
      StripActorStep(grants, actor, i);
      if edited[i].actors != [] {
        kept := kept + [edited[i]];
      }
    }
    assert grants[..|grants|] == grants;
  }

  method MakeChange(config: StoreConfig, action: Action) returns (changed: StoreConfig)
    ensures changed == Change(config, action)
  {
    changed := config;
    match action {
      case Transfer(newOwner) =>
        var previous := config.rootOwner;
        changed := changed.(rootOwner := newOwner);
        var writers := Retain(changed.writers, previous);
        changed := changed.(writers := writers);
        var grants := StripGrants(changed.writeGrants, previous);
        changed := changed.(writeGrants := grants);
      case AddGrant(_, _, _, _) =>
        changed := changed.(writeGrants := changed.writeGrants + [NewGrant(action)]);
      case Revoke(subject) =>
        var grants := StripGrants(changed.writeGrants, subject);
        changed := changed.(writeGrants := grants);
      case Deny(subject) =>
        changed := changed.(readOnly := changed.readOnly + [subject]);
        changed := changed.(readOnly := Sorting.Sort(changed.readOnly, Sorting.Leq));
      case Allow(subject) =>
        var readOnly := Retain(changed.readOnly, subject);
        changed := changed.(readOnly := readOnly);
    }
  }
}
