/** What governance keeps over every run, and what each action does to every
    permission decision. */
module AuthorityRuns {
  import opened Ledger
  import opened JsonPointer
  import opened Authority
  import Sorting

  // ---------------------------------------------------------------------
  // Validity
  // ---------------------------------------------------------------------

  lemma {:induction false} WithoutDistinct(items: seq<string>, item: string)
    requires Distinct(items)
    ensures Distinct(Without(items, item))
  {
    if items != [] {
      var front := items[..|items| - 1];
      assert Distinct(front);
      WithoutDistinct(front, item);
      var kept := Without(front, item);
      forall i | 0 <= i < |kept| ensures kept[i] != items[|items| - 1] {
        assert kept[i] in front;
        var k :| 0 <= k < |front| && front[k] == kept[i];
        assert items[k] != items[|items| - 1];
      }
    }
  }

  lemma SortedDistinct(s: seq<string>, x: string)
    requires Distinct(s) && x !in s
    ensures Distinct(Sorting.Sort(s + [x], Sorting.Leq))
  {
    var t := Sorting.Sort(s + [x], Sorting.Leq);
    Sorting.DistinctIsOnce(s + [x]);
    forall i, j | 0 <= i < j < |t| ensures t[i] != t[j] {
      Sorting.OnceIsDistinct(t, i, j);
    }
  }

  lemma StrippedGrantsOk(config: StoreConfig, actor: string)
    requires forall grant :: grant in config.writeGrants ==> GrantOk(config.namespaces, grant)
    ensures forall grant :: grant in StripActor(config.writeGrants, actor) ==> GrantOk(config.namespaces, grant)
  {
    forall grant | grant in StripActor(config.writeGrants, actor) ensures GrantOk(config.namespaces, grant) {
      var was :| was in config.writeGrants && grant == was.(actors := Without(was.actors, actor));
      assert GrantOk(config.namespaces, was);
    }
  }

  lemma HeldMembers(readOnly: seq<string>, subject: string)
    ensures forall actor ::
      (actor in Sorting.Sort(readOnly + [subject], Sorting.Leq)) <==> (actor in readOnly || actor == subject)
  {
    Sorting.SameMembers(readOnly + [subject], Sorting.Sort(readOnly + [subject], Sorting.Leq));
  }

  lemma HoldStaysOk(owner: string, readOnly: seq<string>, subject: string)
    requires ReadOnlyOk(owner, readOnly) && subject !in readOnly
    requires ValidIdentity(subject) && subject != "*" && subject != owner
    ensures ReadOnlyOk(owner, Sorting.Sort(readOnly + [subject], Sorting.Leq))
  {
    SortedDistinct(readOnly, subject);
    HeldMembers(readOnly, subject);
  }

  /** Only a grant can be refused by the validation of its result. Every other
      action the preliminary checks let through leaves loadable metadata, and the
      owner is never among the actors held to reading. */
  lemma ChangeStaysValid(config: StoreConfig, action: Action)
    requires ValidConfig(config) && Refusal(config, action).None? && Effective(config, action)
    ensures action.AddGrant? ==> (ValidConfig(Change(config, action)) <==> GrantOk(config.namespaces, NewGrant(action)))
    ensures !action.AddGrant? ==> ValidConfig(Change(config, action))
  {
    match action
    case Transfer(newOwner) =>
      StrippedGrantsOk(config, config.rootOwner);
    case AddGrant(_, _, _, _) =>
      assert forall g ::
        g in config.writeGrants + [NewGrant(action)] <==> g in config.writeGrants || g == NewGrant(action);
    case Revoke(subject) =>
      StrippedGrantsOk(config, subject);
    case Deny(subject) =>
      HoldStaysOk(config.rootOwner, config.readOnly, subject);
    case Allow(subject) =>
      WithoutDistinct(config.readOnly, subject);
  }

  /** A run of governance commands, each by whichever actor issued it. */
  ghost predicate Governed(configs: seq<StoreConfig>, actions: seq<Action>, actors: seq<string>) {
    && |configs| == |actions| + 1 && |actors| == |actions|
    && ValidConfig(configs[0])
    && forall i :: 0 <= i < |actions| ==>
         Govern(configs[i], actions[i], actors[i]) == Ok(configs[i + 1])
         || (Govern(configs[i], actions[i], actors[i]).Err? && configs[i + 1] == configs[i])
  }

  /** Every reachable configuration is valid, and its owner governs it. */
  lemma {:induction false} EveryConfigIsValid(configs: seq<StoreConfig>, actions: seq<Action>, actors: seq<string>,
                                              i: nat)
    requires Governed(configs, actions, actors) && i < |configs|
    ensures ValidConfig(configs[i])
    ensures RequireRoot(configs[i], configs[i].rootOwner) == Granted
  {
    if i > 0 {
      EveryConfigIsValid(configs, actions, actors, i - 1);
      assert Govern(configs[i - 1], actions[i - 1], actors[i - 1]) == Ok(configs[i])
        || configs[i] == configs[i - 1];
    }
  }

  /** Governance is never lost: at any reachable point the owner can lift any hold, */
  lemma OwnerCanAlwaysLift(configs: seq<StoreConfig>, actions: seq<Action>, actors: seq<string>, i: nat,
                           subject: string)
    requires Governed(configs, actions, actors) && i < |configs|
    requires subject in configs[i].readOnly
    ensures Govern(configs[i], Allow(subject), configs[i].rootOwner).Ok?
    ensures subject !in Govern(configs[i], Allow(subject), configs[i].rootOwner).value.readOnly
  {
    EveryConfigIsValid(configs, actions, actors, i);
    ChangeStaysValid(configs[i], Allow(subject));
  }

  ghost predicate NoWildcard(config: StoreConfig) {
    "*" !in config.writers && forall g :: g in config.writeGrants ==> "*" !in g.actors
  }

  /** and hand the store to anybody else who is well-formed and not held to reading,
      exactly as long as no wildcard stands in the way. */
  lemma OwnerCanHandOverIff(configs: seq<StoreConfig>, actions: seq<Action>, actors: seq<string>, i: nat, heir: string)
    requires Governed(configs, actions, actors) && i < |configs|
    ensures var config := configs[i]; var handed := Govern(config, Transfer(heir), config.rootOwner);
      && (handed.Ok? <==>
            ValidIdentity(heir) && heir != config.rootOwner && heir !in config.readOnly && NoWildcard(config))
      && (handed.Ok? ==> RequireRoot(handed.value, heir) == Granted)
  {
    EveryConfigIsValid(configs, actions, actors, i);
    if Refusal(configs[i], Transfer(heir)).None? {
      ChangeStaysValid(configs[i], Transfer(heir));
    }
  }

  // ---------------------------------------------------------------------
  // What each command does
  // ---------------------------------------------------------------------

  /** What each command asks of its arguments and of the metadata it finds. */
  ghost predicate Admissible(config: StoreConfig, action: Action) {
    match action
    case Transfer(heir) =>
      ValidIdentity(heir) && heir != config.rootOwner && heir !in config.readOnly && NoWildcard(config)
    case AddGrant(subject, namespace, types, payloadEquals) =>
      ValidIdentity(subject) && GrantOk(config.namespaces, WriteGrant([subject], namespace, types, payloadEquals))
    case Revoke(_) => true
    case Deny(subject) => ValidIdentity(subject) && subject != "*" && subject != config.rootOwner
    case Allow(subject) => ValidIdentity(subject)
  }

  /** The name is off every grant, and nobody else is off any. */
  ghost predicate OffEveryGrant(was: seq<WriteGrant>, gone: string, now: seq<WriteGrant>) {
    && (forall g :: g in now ==> gone !in g.actors && exists first :: first in was && Narrowed(first, gone, g))
    && (forall first, other :: first in was && other in first.actors && other != gone ==>
          exists g :: g in now && Narrowed(first, gone, g))
  }

  ghost predicate Narrowed(was: WriteGrant, gone: string, now: WriteGrant) {
    && now.namespace == was.namespace && now.types == was.types && now.payloadEquals == was.payloadEquals
    && forall actor :: actor in now.actors <==> actor in was.actors && actor != gone
  }

  /** What each command leaves, field by field. */
  ghost predicate Carried(was: StoreConfig, action: Action, now: StoreConfig) {
    now.namespaces == was.namespaces && now.rest == was.rest &&
    match action
    case Transfer(heir) =>
      && now.rootOwner == heir && now.readOnly == was.readOnly
      && (forall writer :: writer in now.writers <==> writer in was.writers && writer != was.rootOwner)
      && OffEveryGrant(was.writeGrants, was.rootOwner, now.writeGrants)
    case AddGrant(subject, namespace, types, payloadEquals) =>
      var added := WriteGrant([subject], namespace, types, payloadEquals);
      && now.rootOwner == was.rootOwner && now.readOnly == was.readOnly && now.writers == was.writers
      && now.writeGrants == if added in was.writeGrants then was.writeGrants else was.writeGrants + [added]
    case Revoke(subject) =>
      && now.rootOwner == was.rootOwner && now.readOnly == was.readOnly && now.writers == was.writers
      && OffEveryGrant(was.writeGrants, subject, now.writeGrants)
    case Deny(subject) =>
      && now == was.(readOnly := now.readOnly)
      && forall actor :: actor in now.readOnly <==> (actor in was.readOnly || actor == subject)
    case Allow(subject) =>
      && now == was.(readOnly := now.readOnly)
      && forall actor :: actor in now.readOnly <==> (actor in was.readOnly && actor != subject)
  }

  lemma StrippedIsOff(grants: seq<WriteGrant>, gone: string)
    ensures OffEveryGrant(grants, gone, StripActor(grants, gone))
  {
    forall g | g in StripActor(grants, gone)
      ensures gone !in g.actors && exists first :: first in grants && Narrowed(first, gone, g)
    {
      var was :| was in grants && g == was.(actors := Without(was.actors, gone));
      assert Narrowed(was, gone, g);
    }
    forall first, other | first in grants && other in first.actors && other != gone
      ensures exists g :: g in StripActor(grants, gone) && Narrowed(first, gone, g)
    {
      var g := first.(actors := Without(first.actors, gone));
      assert other in g.actors;
      assert g in StripActor(grants, gone) && Narrowed(first, gone, g);
    }
  }

  lemma UntouchedIsOff(grants: seq<WriteGrant>, gone: string)
    requires forall g :: g in grants ==> gone !in g.actors
    ensures OffEveryGrant(grants, gone, grants)
  {
    forall g | g in grants ensures Narrowed(g, gone, g) {
    }
  }

  lemma CommandsCarry(config: StoreConfig, action: Action, actor: string)
    requires ValidConfig(config) && Govern(config, action, actor).Ok?
    ensures Carried(config, action, Govern(config, action, actor).value)
  {
    match action
    case Transfer(_) => StrippedIsOff(config.writeGrants, config.rootOwner);
    case AddGrant(_, _, _, _) =>
    case Revoke(subject) =>
      if Effective(config, action) {
        StrippedIsOff(config.writeGrants, subject);
      } else {
        UntouchedIsOff(config.writeGrants, subject);
      }
    case Deny(subject) => HeldMembers(config.readOnly, subject);
    case Allow(_) =>
  }

  /** A command is carried out exactly when its issuer owns the store and what it asks is
      admissible, and then the metadata is what it says, field by field. */
  lemma CommandsMean(config: StoreConfig, action: Action, actor: string)
    requires ValidConfig(config)
    ensures var answer := Govern(config, action, actor);
      && (answer.Ok? <==> actor == config.rootOwner && Admissible(config, action))
      && (answer.Ok? ==> Carried(config, action, answer.value) && ValidConfig(answer.value))
  {
    if actor == config.rootOwner && Refusal(config, action).None? && Effective(config, action) {
      ChangeStaysValid(config, action);
    }
    if Govern(config, action, actor).Ok? {
      CommandsCarry(config, action, actor);
    }
  }

  /** Everyone on a list but one. */
  ghost function But(gone: string): string -> Option<string> {
    name => if name == gone then None else Some(name)
  }

  /** A grant with one name off it; none when nobody is left. */
  ghost function Narrowing(gone: string): WriteGrant -> Option<WriteGrant> {
    (g: WriteGrant) =>
      var kept := Picked(g.actors, But(gone));
      if kept == [] then None else Some(g.(actors := kept))
  }

  lemma {:induction false} WithoutIsPicked(items: seq<string>, gone: string)
    ensures Without(items, gone) == Picked(items, But(gone))
  {
    if items != [] {
      WithoutIsPicked(items[..|items| - 1], gone);
    }
  }

  lemma {:induction false} StripIsPicked(grants: seq<WriteGrant>, gone: string)
    ensures StripActor(grants, gone) == Picked(grants, Narrowing(gone))
  {
    if grants != [] {
      StripIsPicked(grants[..|grants| - 1], gone);
      WithoutIsPicked(grants[|grants| - 1].actors, gone);
    }
  }

  /** What stays on a list stays in its place; a hold goes where the order of names puts it. */
  lemma CommandsKeepOrder(config: StoreConfig, action: Action, actor: string)
    requires Govern(config, action, actor).Ok? && Effective(config, action)
    ensures var now := Govern(config, action, actor).value;
      match action
      case Transfer(_) =>
        && now.writers == Picked(config.writers, But(config.rootOwner))
        && now.writeGrants == Picked(config.writeGrants, Narrowing(config.rootOwner))
      case AddGrant(_, _, _, _) => config.writeGrants <= now.writeGrants
      case Revoke(subject) => now.writeGrants == Picked(config.writeGrants, Narrowing(subject))
      case Deny(subject) =>
        && Sorting.Sorted(now.readOnly, Sorting.Leq)
        && multiset(now.readOnly) == multiset(config.readOnly) + multiset{subject}
      case Allow(subject) => now.readOnly == Picked(config.readOnly, But(subject))
  {
    match action
    case Transfer(_) =>
      WithoutIsPicked(config.writers, config.rootOwner);
      StripIsPicked(config.writeGrants, config.rootOwner);
    case AddGrant(_, _, _, _) =>
    case Revoke(subject) => StripIsPicked(config.writeGrants, subject);
    case Deny(subject) =>
      Sorting.LeqIsAnOrder();
      Sorting.SortSorts(config.readOnly + [subject], Sorting.Leq);
    case Allow(subject) => WithoutIsPicked(config.readOnly, subject);
  }

  /** Which error a command of the owner that is not admissible gives. */
  ghost function Objection(config: StoreConfig, action: Action): Error {
    match action
    case Transfer(heir) => if !ValidIdentity(heir) || heir == config.rootOwner then InvalidOwner else Governance
    case AddGrant(subject, namespace, types, _) =>
      if !ValidIdentity(subject) then InvalidActor
      else if types == [] then InvalidType
      else if namespace != "*" && !(ValidIdentity(namespace) && namespace in config.namespaces) then InvalidNamespace
      else if exists name :: name in types && name != "*" && !ValidIdentity(name) then InvalidType
      else Governance
    case _ => Governance
  }

  /** And why a command is refused: a hold, then not being the owner, then what it asks. */
  lemma RefusalsMean(config: StoreConfig, action: Action, actor: string)
    requires ValidConfig(config) && Govern(config, action, actor).Err?
    ensures Govern(config, action, actor).error ==
      if actor in config.readOnly then ReadOnlyActor
      else if actor != config.rootOwner then PermissionDenied
      else Objection(config, action)
  {
    if actor == config.rootOwner && Refusal(config, action).None? && Effective(config, action) {
      ChangeStaysValid(config, action);
      if action.AddGrant? {
        GrantObjection(config, action);
      }
    }
  }

  lemma GrantObjection(config: StoreConfig, action: Action)
    requires ValidConfig(config) && action.AddGrant? && Refusal(config, action).None?
    ensures Fault(Change(config, action)) == GrantFault(config.namespaces, NewGrant(action))
    ensures Fault(Change(config, action)).Some? ==> Fault(Change(config, action)).value == Objection(config, action)
  {
    var next := Change(config, action);
    assert next.writeGrants[..|config.writeGrants|] == config.writeGrants;
    assert NewGrant(action).actors == [action.subject];
  }

  // ---------------------------------------------------------------------
  // Decisions
  // ---------------------------------------------------------------------

  /** Store-wide append, and a grant for every record of a type, in plain words. */
  ghost predicate Everywhere(config: StoreConfig, actor: string) {
    ValidIdentity(actor) && (actor == config.rootOwner || actor in config.writers || "*" in config.writers)
  }

  ghost predicate SpellsType(grant: WriteGrant, actor: string, namespace: string, kind: string) {
    && ValidIdentity(actor) && (actor in grant.actors || "*" in grant.actors)
    && (grant.namespace == namespace || grant.namespace == "*")
    && (kind in grant.types || "*" in grant.types)
    && grant.payloadEquals == map[]
  }

  /** What the four checks ask, and that a hold comes before all of it. */
  lemma ChecksMean(config: StoreConfig, actor: string, namespace: string, kind: string,
                   record: Target, predecessor: Option<Target>)
    ensures RequireRoot(config, actor) == Granted <==> actor !in config.readOnly && actor == config.rootOwner
    ensures RequireWriter(config, actor) == Granted <==> actor !in config.readOnly && Everywhere(config, actor)
    ensures RequireTypeWriter(config, actor, namespace, kind) == Granted <==>
      && actor !in config.readOnly
      && (Everywhere(config, actor) || exists g :: g in config.writeGrants && SpellsType(g, actor, namespace, kind))
    ensures RequireRecordWriter(config, actor, record, predecessor) == Granted <==>
      && actor !in config.readOnly
      && (Everywhere(config, actor) || exists g :: g in config.writeGrants && SpellsBoth(g, actor, record, predecessor))
    ensures actor in config.readOnly <==> RequireRecordWriter(config, actor, record, predecessor) == HeldToReading
    ensures actor in config.readOnly <==> RequireTypeWriter(config, actor, namespace, kind) == HeldToReading
    ensures actor in config.readOnly <==> RequireWriter(config, actor) == HeldToReading
    ensures actor in config.readOnly <==> RequireRoot(config, actor) == HeldToReading
  {
    forall g ensures CoversType(g, actor, namespace, kind) <==> SpellsType(g, actor, namespace, kind) {
      TypesMatch(g.types, kind);
    }
    if !StoreWide(config, actor) {
      ScopedWritesStayInOneGrant(config, actor, record, predecessor);
    }
  }

  lemma TypesMatch(types: seq<string>, kind: string)
    ensures (exists item :: item in types && Matches(item, kind)) <==> kind in types || "*" in types
  {
    assert "*" in types ==> Matches("*", kind);
    assert kind in types ==> Matches(kind, kind);
  }

  /** Each check is implied by the one above it: who governs may append, who may append
      may append any type, and who may append a type may append every record of it, or
      replace one by another, whatever the payloads. */
  lemma ChecksNest(config: StoreConfig, actor: string, namespace: string, kind: string, payload: Json, was: Json)
    requires ValidConfig(config)
    ensures RequireRoot(config, actor) == Granted ==> RequireWriter(config, actor) == Granted
    ensures RequireWriter(config, actor) == Granted ==> RequireTypeWriter(config, actor, namespace, kind) == Granted
    ensures RequireTypeWriter(config, actor, namespace, kind) == Granted ==>
      && RequireRecordWriter(config, actor, Target(namespace, kind, payload), None) == Granted
      && RequireRecordWriter(config, actor, Target(namespace, kind, payload), Some(Target(namespace, kind, was)))
           == Granted
  {
    if g :| g in config.writeGrants && CoversType(g, actor, namespace, kind) {
      assert CoversBoth(g, actor, Target(namespace, kind, payload), None);
      assert CoversBoth(g, actor, Target(namespace, kind, payload), Some(Target(namespace, kind, was)));
    }
  }

  /** Everything one grant has to say about a record before it lets an actor write it. */
  ghost predicate Spells(grant: WriteGrant, actor: string, target: Target) {
    && ValidIdentity(actor) && (actor in grant.actors || "*" in grant.actors)
    && (grant.namespace == target.namespace || grant.namespace == "*")
    && (target.kind in grant.types || "*" in grant.types)
    && forall pointer :: pointer in grant.payloadEquals ==>
         Resolve(target.payload, pointer) == Some(grant.payloadEquals[pointer])
  }

  ghost predicate SpellsBoth(grant: WriteGrant, actor: string, record: Target, predecessor: Option<Target>) {
    Spells(grant, actor, record) && (predecessor.Some? ==> Spells(grant, actor, predecessor.value))
  }

  /** An actor without store-wide access writes a record only inside one grant, both
      ends of a replacement, down to every value its payload is bound to. */
  lemma ScopedWritesStayInOneGrant(config: StoreConfig, actor: string, record: Target, predecessor: Option<Target>)
    requires !StoreWide(config, actor)
    ensures RequireRecordWriter(config, actor, record, predecessor) == Granted <==>
      actor !in config.readOnly && exists g :: g in config.writeGrants && SpellsBoth(g, actor, record, predecessor)
  {
    forall g, target ensures Covers(g, actor, target) <==> Spells(g, actor, target) {
      assert "*" in g.types ==> Matches("*", target.kind);
      assert target.kind in g.types ==> Matches(target.kind, target.kind);
    }
    if g :| g in config.writeGrants && CoversBoth(g, actor, record, predecessor) {
      assert SpellsBoth(g, actor, record, predecessor);
    }
    if g :| g in config.writeGrants && SpellsBoth(g, actor, record, predecessor) {
      assert CoversBoth(g, actor, record, predecessor);
    }
  }

  /** Two grants cannot be combined to cross a boundary neither permits by itself. */
  lemma TwoGrantsDoNotCombine() returns (config: StoreConfig, record: Target, predecessor: Target)
    ensures RequireRecordWriter(config, "agent", record, None) == Granted
    ensures RequireRecordWriter(config, "agent", predecessor, None) == Granted
    ensures RequireRecordWriter(config, "agent", record, Some(predecessor)) == Denied
  {
    var first := WriteGrant(["agent"], "one", ["note"], map[]);
    var second := WriteGrant(["agent"], "two", ["note"], map[]);
    config := StoreConfig("owner", ["one", "two"], [], [], [first, second], "");
    record, predecessor := Target("one", "note", Null), Target("two", "note", Null);
    assert ValidIdentity("agent") by {
      assert !Whitespace("agent"[0]);
    }
    assert Matches("note", "note");
    assert CoversBoth(first, "agent", record, None) && CoversBoth(second, "agent", predecessor, None);
    assert !Covers(second, "agent", record) && !Covers(first, "agent", predecessor);
  }

  /** The list lets the actor in by a name other than the one taken off. */
  predicate PermitsBesides(allowed: seq<string>, gone: string, actor: string) {
    ValidIdentity(actor) && (("*" in allowed && gone != "*") || (actor in allowed && actor != gone))
  }

  ghost predicate TypeBesides(grants: seq<WriteGrant>, gone: string, actor: string, namespace: string, kind: string) {
    exists g :: g in grants && PermitsBesides(g.actors, gone, actor) && CoversType(g, actor, namespace, kind)
  }

  ghost predicate RecordBesides(
    grants: seq<WriteGrant>, gone: string, actor: string, record: Target, predecessor: Option<Target>)
  {
    exists g :: g in grants && PermitsBesides(g.actors, gone, actor) && CoversBoth(g, actor, record, predecessor)
  }

  lemma StrippedPermits(g: WriteGrant, gone: string, actor: string)
    ensures Permits(Without(g.actors, gone), actor) <==> PermitsBesides(g.actors, gone, actor)
  {
  }

  lemma StrippedTypes(grants: seq<WriteGrant>, gone: string, actor: string, namespace: string, kind: string)
    ensures TypeGranted(StripActor(grants, gone), actor, namespace, kind)
      <==> TypeBesides(grants, gone, actor, namespace, kind)
  {
    if g :| g in grants && PermitsBesides(g.actors, gone, actor) && CoversType(g, actor, namespace, kind) {
      assert CoversType(g.(actors := Without(g.actors, gone)), actor, namespace, kind);
    }
    if g :| g in StripActor(grants, gone) && CoversType(g, actor, namespace, kind) {
      var was :| was in grants && g == was.(actors := Without(was.actors, gone));
      StrippedPermits(was, gone, actor);
      assert CoversType(was, actor, namespace, kind);
    }
  }

  lemma StrippedRecords(
    grants: seq<WriteGrant>, gone: string, actor: string, record: Target, predecessor: Option<Target>)
    ensures RecordGranted(StripActor(grants, gone), actor, record, predecessor)
      <==> RecordBesides(grants, gone, actor, record, predecessor)
  {
    if g :| g in grants && PermitsBesides(g.actors, gone, actor) && CoversBoth(g, actor, record, predecessor) {
      assert CoversBoth(g.(actors := Without(g.actors, gone)), actor, record, predecessor);
    }
    if g :| g in StripActor(grants, gone) && CoversBoth(g, actor, record, predecessor) {
      var was :| was in grants && g == was.(actors := Without(was.actors, gone));
      StrippedPermits(was, gone, actor);
      assert CoversBoth(was, actor, record, predecessor);
    }
  }

  /** What is left of an actor's answers once a name is off every grant: what it has
      store-wide, and what a grant gives it by another name. */
  ghost predicate AnswersBesides(config: StoreConfig, gone: string, next: StoreConfig, actor: string) {
    && RequireRoot(next, actor) == RequireRoot(config, actor)
    && RequireWriter(next, actor) == RequireWriter(config, actor)
    && (forall namespace, kind ::
          RequireTypeWriter(next, actor, namespace, kind) == Judge(config, actor,
            StoreWide(config, actor) || TypeBesides(config.writeGrants, gone, actor, namespace, kind)))
    && (forall record, predecessor ::
          RequireRecordWriter(next, actor, record, predecessor) == Judge(config, actor,
            StoreWide(config, actor) || RecordBesides(config.writeGrants, gone, actor, record, predecessor)))
  }

  lemma StrippedAnswers(config: StoreConfig, gone: string, next: StoreConfig, actor: string)
    requires next.writeGrants == StripActor(config.writeGrants, gone) && next.readOnly == config.readOnly
    requires RequireRoot(next, actor) == RequireRoot(config, actor)
    requires StoreWide(next, actor) == StoreWide(config, actor)
    ensures AnswersBesides(config, gone, next, actor)
  {
    forall namespace, kind
      ensures RequireTypeWriter(next, actor, namespace, kind) == Judge(config, actor,
        StoreWide(config, actor) || TypeBesides(config.writeGrants, gone, actor, namespace, kind))
    {
      StrippedTypes(config.writeGrants, gone, actor, namespace, kind);
    }
    forall record, predecessor
      ensures RequireRecordWriter(next, actor, record, predecessor) == Judge(config, actor,
        StoreWide(config, actor) || RecordBesides(config.writeGrants, gone, actor, record, predecessor))
    {
      StrippedRecords(config.writeGrants, gone, actor, record, predecessor);
    }
  }

  /** The name is not what lets this actor in. */
  ghost predicate Spared(grants: seq<WriteGrant>, gone: string, actor: string) {
    forall g :: g in grants ==> (Permits(g.actors, actor) <==> PermitsBesides(g.actors, gone, actor))
  }

  lemma SparedAnswers(config: StoreConfig, gone: string, next: StoreConfig, actor: string)
    requires Spared(config.writeGrants, gone, actor)
    ensures AnswersBesides(config, gone, next, actor) <==> SameAnswers(config, next, actor)
  {
    var grants := config.writeGrants;
    forall namespace, kind
      ensures TypeGranted(grants, actor, namespace, kind) <==> TypeBesides(grants, gone, actor, namespace, kind) {}
    forall record, predecessor
      ensures RecordGranted(grants, actor, record, predecessor)
        <==> RecordBesides(grants, gone, actor, record, predecessor) {}
  }

  lemma NothingBesides(grants: seq<WriteGrant>, owner: string)
    requires forall g :: g in grants ==> "*" !in g.actors
    ensures forall namespace, kind :: !TypeBesides(grants, owner, owner, namespace, kind)
    ensures forall record, predecessor :: !RecordBesides(grants, owner, owner, record, predecessor)
  {
  }

  lemma NotStoreWide(config: StoreConfig, newOwner: string, actor: string, next: StoreConfig)
    requires Govern(config, Transfer(newOwner), actor) == Ok(next)
    ensures !StoreWide(next, config.rootOwner) && config.rootOwner != next.rootOwner
    ensures next.writeGrants == StripActor(config.writeGrants, config.rootOwner)
    ensures forall g :: g in config.writeGrants ==> "*" !in g.actors
  {
  }

  /** A transfer takes everything from the previous owner - root, store-wide and
      scoped append - whatever the metadata said before. */
  lemma TransferStripsThePreviousOwner(config: StoreConfig, newOwner: string, actor: string, next: StoreConfig)
    requires Govern(config, Transfer(newOwner), actor) == Ok(next)
    ensures RefusedEverything(next, config.rootOwner)
  {
    var grants, owner := config.writeGrants, config.rootOwner;
    NotStoreWide(config, newOwner, actor, next);
    NothingBesides(grants, owner);
    forall namespace, kind ensures RequireTypeWriter(next, owner, namespace, kind) != Granted {
      StrippedTypes(grants, owner, owner, namespace, kind);
    }
    forall record, predecessor ensures RequireRecordWriter(next, owner, record, predecessor) != Granted {
      StrippedRecords(grants, owner, owner, record, predecessor);
    }
  }

  /** A transfer changes nothing for anybody but the two owners. */
  lemma TransferLeavesTheRest(config: StoreConfig, newOwner: string, issuer: string, next: StoreConfig, actor: string)
    requires Govern(config, Transfer(newOwner), issuer) == Ok(next)
    requires actor != config.rootOwner && actor != newOwner
    ensures SameAnswers(config, next, actor)
  {
    StrippedAnswers(config, config.rootOwner, next, actor);
    SparedAnswers(config, config.rootOwner, next, actor);
  }

  /** A revoke takes exactly what its subject's name gave, the wildcard's included: of
      an actor that is not the subject nothing, unless the subject is the wildcard. */
  lemma RevokeLeavesTheRest(config: StoreConfig, subject: string, issuer: string, next: StoreConfig, actor: string)
    requires Govern(config, Revoke(subject), issuer) == Ok(next)
    ensures AnswersBesides(config, subject, next, actor)
    ensures actor != subject && subject != "*" ==> SameAnswers(config, next, actor)
  {
    if Effective(config, Revoke(subject)) {
      StrippedAnswers(config, subject, next, actor);
    } else {
      assert Spared(config.writeGrants, subject, actor);
    }
    if Spared(config.writeGrants, subject, actor) {
      SparedAnswers(config, subject, next, actor);
    }
  }

  /** What a grant was asked to let its subject write. */
  ghost predicate Asked(action: Action, actor: string, namespace: string, kind: string)
    requires action.AddGrant?
  {
    && ValidIdentity(actor) && (actor == action.subject || action.subject == "*")
    && (namespace == action.namespace || action.namespace == "*")
    && (kind in action.types || "*" in action.types)
  }

  ghost predicate AskedOf(action: Action, actor: string, target: Target)
    requires action.AddGrant?
  {
    && Asked(action, actor, target.namespace, target.kind)
    && forall pointer :: pointer in action.payloadEquals ==>
         Resolve(target.payload, pointer) == Some(action.payloadEquals[pointer])
  }

  lemma NewGrantIsAsked(action: Action, actor: string, namespace: string, kind: string, target: Target)
    requires action.AddGrant?
    ensures CoversType(NewGrant(action), actor, namespace, kind)
      <==> Asked(action, actor, namespace, kind) && action.payloadEquals == map[]
    ensures Covers(NewGrant(action), actor, target) <==> AskedOf(action, actor, target)
  {
    TypesMatch(action.types, kind);
    TypesMatch(action.types, target.kind);
  }

  /** A grant adds exactly what it says, down to every value it is bound to, at both ends
      of a replacement, and for nobody who is held to reading. Only one that is bound to
      no value opens a type. */
  lemma GrantAddsExactlyItself(config: StoreConfig, action: Action, issuer: string, next: StoreConfig,
                               actor: string, record: Target, predecessor: Option<Target>,
                               namespace: string, kind: string)
    requires action.AddGrant? && Govern(config, action, issuer) == Ok(next)
    ensures RequireRecordWriter(next, actor, record, predecessor) == Granted <==>
      RequireRecordWriter(config, actor, record, predecessor) == Granted
      || (actor !in config.readOnly && AskedOf(action, actor, record)
          && (predecessor.Some? ==> AskedOf(action, actor, predecessor.value)))
    ensures RequireTypeWriter(next, actor, namespace, kind) == Granted <==>
      RequireTypeWriter(config, actor, namespace, kind) == Granted
      || (actor !in config.readOnly && action.payloadEquals == map[] && Asked(action, actor, namespace, kind))
    ensures RequireRoot(next, actor) == RequireRoot(config, actor)
    ensures RequireWriter(next, actor) == RequireWriter(config, actor)
  {
    assert forall g :: g in next.writeGrants <==> g in config.writeGrants || g == NewGrant(action);
    assert StoreWide(config, actor) == StoreWide(next, actor);
    NewGrantIsAsked(action, actor, namespace, kind, record);
    if predecessor.Some? {
      NewGrantIsAsked(action, actor, namespace, kind, predecessor.value);
    }
  }

  lemma AnswersDependOnTheHold(a: StoreConfig, b: StoreConfig, actor: string)
    requires b == a.(readOnly := b.readOnly)
    ensures SameAnswers(a, b, actor) <==> (actor in a.readOnly <==> actor in b.readOnly)
  {
    assert StoreWide(a, actor) == StoreWide(b, actor);
    if actor in a.readOnly <==> actor in b.readOnly {
      forall namespace, kind
        ensures RequireTypeWriter(a, actor, namespace, kind) == RequireTypeWriter(b, actor, namespace, kind) {}
      forall record, predecessor
        ensures RequireRecordWriter(a, actor, record, predecessor)
          == RequireRecordWriter(b, actor, record, predecessor) {}
    } else {
      assert RequireWriter(a, actor) != RequireWriter(b, actor);
    }
  }

  lemma DeniedReadOnly(config: StoreConfig, subject: string, issuer: string, denied: StoreConfig)
    requires Govern(config, Deny(subject), issuer) == Ok(denied)
    ensures denied == config.(readOnly := denied.readOnly)
    ensures forall actor :: actor in denied.readOnly <==> actor in config.readOnly || actor == subject
  {
    HeldMembers(config.readOnly, subject);
  }

  lemma AllowedReadOnly(config: StoreConfig, subject: string, issuer: string, allowed: StoreConfig)
    requires Govern(config, Allow(subject), issuer) == Ok(allowed) && subject in config.readOnly
    ensures allowed == config.(readOnly := allowed.readOnly)
    ensures forall actor :: actor in allowed.readOnly <==> actor in config.readOnly && actor != subject
  {
  }

  /** Holding an actor to reading and letting it go again restores every decision
      about everyone exactly when it was not already held: denying an actor who
      already is changes nothing, and the release then lifts the earlier hold. */
  lemma DenyThenAllowRestores(config: StoreConfig, subject: string, issuer: string, denied: StoreConfig,
                              allowed: StoreConfig)
    requires Govern(config, Deny(subject), issuer) == Ok(denied)
    requires Govern(denied, Allow(subject), issuer) == Ok(allowed)
    ensures (forall actor :: SameAnswers(config, allowed, actor)) <==> subject !in config.readOnly
  {
    DeniedReadOnly(config, subject, issuer, denied);
    AllowedReadOnly(denied, subject, issuer, allowed);
    forall actor
      ensures SameAnswers(config, allowed, actor) <==> (actor in config.readOnly <==> actor in allowed.readOnly)
    {
      AnswersDependOnTheHold(config, allowed, actor);
    }
  }

  /** Concretely: an agent already held to reading, denied once more and let go. */
  lemma DeniedTwiceIsLetGo() returns (config: StoreConfig, denied: StoreConfig, allowed: StoreConfig)
    ensures ValidConfig(config)
    ensures Govern(config, Deny("agent"), "owner") == Ok(denied)
    ensures Govern(denied, Allow("agent"), "owner") == Ok(allowed)
    ensures !SameAnswers(config, allowed, "agent")
  {
    config := StoreConfig("owner", ["memory"], [], ["agent"], [], "");
    assert ValidIdentity("owner") && ValidIdentity("agent") by {
      assert !Whitespace("owner"[0]) && !Whitespace("agent"[0]);
    }
    denied := config;
    ChangeStaysValid(denied, Allow("agent"));
    allowed := Change(denied, Allow("agent"));
    AnswersDependOnTheHold(config, allowed, "agent");
    assert "agent" in config.readOnly && "agent" !in allowed.readOnly;
  }

  /** A hold beats everything that grants. */
  lemma HeldActorIsRefused(config: StoreConfig, subject: string, issuer: string, denied: StoreConfig)
    requires Govern(config, Deny(subject), issuer) == Ok(denied)
    ensures RefusedEverything(denied, subject)
    ensures forall actor :: actor != subject ==> SameAnswers(config, denied, actor)
  {
    DeniedReadOnly(config, subject, issuer, denied);
    forall actor | actor != subject ensures SameAnswers(config, denied, actor) {
      AnswersDependOnTheHold(config, denied, actor);
    }
  }
}
