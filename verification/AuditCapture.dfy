/** How an invocation comes to its event: what it is when it begins, what it is when
    its output is known, and that both are events the ledger accepts. */
module AuditCapture {
  import opened Ledger
  import opened AuditEvent

  /** What a process knows of itself and of its caller. `env` and `flag` answer for a
      coordinate's name; a flag outranks the environment. */
  datatype Caller = Caller(id: Id, month: nat, observedAt: string, surface: string, words: seq<string>,
                           arguments: Arguments, pid: U32, actor: Option<string>, instance: Id,
                           env: string -> Option<string>, flag: string -> Option<string>)

  /** The machinery of capture: the credential scanner and the digest. */
  datatype Tools = Tools(isPublic: string -> bool, sha: string -> string)

  ghost predicate Sound(t: Tools) {
    forall s :: HexDigest(t.sha(s))
  }

  /** One command word, or two for a command that has subcommands; a known surface; a
      formatted timestamp. */
  predicate Genuine(c: Caller) {
    && (c.surface == "cli" || c.surface == "mcp") && 1 <= |c.words| <= 2
    && HexDigest(c.arguments.sha256)
    && |c.observedAt| <= 40 && forall i :: 0 <= i < |c.observedAt| ==> StampChar(c.observedAt[i])
  }

  /** Nothing that could be a credential is written down: a value stands as it is only when
      it is one to sixty-four plain characters, begins like no known token and the scanner
      finds it public; anything else stands as its digest. */
  ghost predicate ShownAs(text: string, value: string, t: Tools) {
    if && 1 <= |value| <= 64
       && (forall i :: 0 <= i < |value| ==>
             'a' <= value[i] <= 'z' || 'A' <= value[i] <= 'Z' || '0' <= value[i] <= '9' || value[i] in "._-")
       && (forall token :: token in ["sk-", "ghp_", "github_pat_", "xox", "AKIA", "ASIA", "eyJ"] ==> !(token <= value))
       && t.isPublic(value)
    then text == value
    else text == "sha256:" + t.sha(value)
  }

  lemma CoordinateIsAccepted(value: string, t: Tools)
    requires Sound(t)
    ensures Coordinate(CoordinateOf(value, t.isPublic, t.sha))
    ensures ShownAs(CoordinateOf(value, t.isPublic, t.sha), value, t)
  {
    CoordinateIsShown(value, t);
    if !(Readable(value) && t.isPublic(value)) {
      var s := CoordinateOf(value, t.isPublic, t.sha);
      assert s[7..] == t.sha(value);
    }
  }

  lemma CoordinateIsShown(value: string, t: Tools)
    ensures ShownAs(CoordinateOf(value, t.isPublic, t.sha), value, t)
  {
    var tokens := ["sk-", "ghp_", "github_pat_", "xox", "AKIA", "ASIA", "eyJ"];
    forall token ensures StartsWith(value, token) <==> token <= value {
    }
    assert tokens[0] in tokens && tokens[1] in tokens && tokens[2] in tokens && tokens[3] in tokens;
    assert tokens[4] in tokens && tokens[5] in tokens && tokens[6] in tokens;
    forall i | 0 <= i < |value|
      ensures Plain(value[i]) <==>
        'a' <= value[i] <= 'z' || 'A' <= value[i] <= 'Z' || '0' <= value[i] <= '9' || value[i] in "._-"
    {
    }
  }

  /** The first of two values that is there, as it may be shown, or else the default. */
  ghost predicate Tells(field: Option<string>, first: Option<string>, second: Option<string>, default: Option<string>,
                        t: Tools) {
    if first.Some? then field.Some? && ShownAs(field.value, first.value, t)
    else if second.Some? then field.Some? && ShownAs(field.value, second.value, t)
    else field == default
  }

  function Hashed(value: Option<string>, t: Tools): Option<string> {
    if value.None? then None else Some(CoordinateOf(value.value, t.isPublic, t.sha))
  }

  function Or(value: Option<string>, other: Option<string>): Option<string> {
    if value.Some? then value else other
  }

  function Picked(c: Caller, key: string, t: Tools): Option<string> {
    Or(Hashed(c.flag(key), t), Hashed(c.env(key), t))
  }

  lemma PickedIsAccepted(c: Caller, key: string, t: Tools)
    requires Sound(t)
    ensures Absent(Picked(c, key, t)) && Absent(Hashed(c.env(key), t)) && Absent(Hashed(c.actor, t))
  {
    if c.flag(key).Some? { CoordinateIsAccepted(c.flag(key).value, t); }
    if c.env(key).Some? { CoordinateIsAccepted(c.env(key).value, t); }
    if c.actor.Some? { CoordinateIsAccepted(c.actor.value, t); }
  }

  function Operations(words: seq<string>): (known: seq<string>)
    ensures |known| == |words|
    ensures forall word :: word in known ==> OperationOf(word) == word
    ensures forall i :: 0 <= i < |known| ==> known[i] == if Known(words[i]) then words[i] else "invalid"
  {
    if words == [] then [] else [OperationOf(words[0])] + Operations(words[1..])
  }

  /** At most sixteen ids, whatever the output names. */
  function FirstIds(ids: seq<Id>): (few: seq<Id>)
    ensures |few| <= 16 && few <= ids && (few == ids || |few| == 16)
  {
    if |ids| <= 16 then ids else ids[..16]
  }

  function OutputOf(bytes: string, size: U64, durable: Option<bool>, count: Option<U64>, ids: seq<Id>,
                    receipt: Option<string>, t: Tools): Output {
    Output(durable, t.sha(bytes), size, count, FirstIds(ids),
           if receipt.None? then None else Some(t.sha(receipt.value)))
  }

  /** Invocation::new: an error until it is known to be otherwise. */
  function Intent(c: Caller, t: Tools): Event {
    var instance := Some(Uuid(c.instance));
    Event(1, c.id, c.month, c.observedAt, 0, c.surface, Operations(c.words),
          Picked(c, "project", t), Picked(c, "role", t), Or(Picked(c, "process", t), Some("equill")), c.pid,
          Or(Hashed(c.actor, t), Hashed(c.env("actor"), t)), Picked(c, "lane", t),
          Or(Picked(c, "instance", t), instance), Or(Picked(c, "session", t), instance),
          "error", "unknown", Some("interrupted"), c.arguments, OutputOf("", 0, None, None, [], None, t))
  }

  lemma UuidIsReadable(id: Id)
    ensures Coordinate(Uuid(id))
  {
    UuidLength(id);
    var s := Uuid(id);
    assert forall i :: 0 <= i < 36 ==> Plain(s[i]);
    assert s[0] != 's' && s[0] != 'g' && s[0] != 'x' && s[0] != 'A' && s[1] != 'y';
  }

  /** An intent has failed until it is known otherwise, and says of its caller what the
      flags say, or else the environment; over a protocol the actor is the session's. */
  ghost predicate Begun(e: Event, c: Caller, t: Tools) {
    && e.outcome == "error" && e.domainOutcome == "unknown" && e.errorClass == Some("interrupted") && e.duration == 0
    && e.schemaVersion == 1 && e.id == c.id && e.month == c.month && e.observedAt == c.observedAt
    && e.surface == c.surface && e.pid == c.pid && e.arguments == c.arguments && |e.operation| == |c.words|
    && (forall i :: 0 <= i < |c.words| ==> e.operation[i] == if Known(c.words[i]) then c.words[i] else "invalid")
    && e.output == Output(None, t.sha(""), 0, None, [], None)
    && Tells(e.project, c.flag("project"), c.env("project"), None, t)
    && Tells(e.role, c.flag("role"), c.env("role"), None, t)
    && Tells(e.lane, c.flag("lane"), c.env("lane"), None, t)
    && Tells(e.actor, c.actor, c.env("actor"), None, t)
    && Tells(e.process, c.flag("process"), c.env("process"), Some("equill"), t)
    && Tells(e.instance, c.flag("instance"), c.env("instance"), Some(Uuid(c.instance)), t)
    && Tells(e.session, c.flag("session"), c.env("session"), Some(Uuid(c.instance)), t)
  }

  lemma OrTells(first: Option<string>, second: Option<string>, default: Option<string>, t: Tools)
    ensures Tells(Or(Or(Hashed(first, t), Hashed(second, t)), default), first, second, default, t)
  {
    if first.Some? { CoordinateIsShown(first.value, t); }
    if second.Some? { CoordinateIsShown(second.value, t); }
  }

  lemma IntentBegins(c: Caller, t: Tools)
    ensures Begun(Intent(c, t), c, t)
  {
    var instance := Some(Uuid(c.instance));
    OrTells(c.flag("project"), c.env("project"), None, t);
    OrTells(c.flag("role"), c.env("role"), None, t);
    OrTells(c.flag("lane"), c.env("lane"), None, t);
    OrTells(c.actor, c.env("actor"), None, t);
    OrTells(c.flag("process"), c.env("process"), Some("equill"), t);
    OrTells(c.flag("instance"), c.env("instance"), instance, t);
    OrTells(c.flag("session"), c.env("session"), instance, t);
  }

  /** Every intent is an event the ledger accepts, so one that is abandoned can always
      be accounted for. */
  lemma IntentIsCaptured(c: Caller, t: Tools)
    requires Sound(t) && Genuine(c)
    ensures Captured(Intent(c, t)) && Begun(Intent(c, t), c, t)
  {
    IntentBegins(c, t);
    PickedIsAccepted(c, "project", t);
    PickedIsAccepted(c, "role", t);
    PickedIsAccepted(c, "process", t);
    PickedIsAccepted(c, "actor", t);
    PickedIsAccepted(c, "lane", t);
    PickedIsAccepted(c, "instance", t);
    PickedIsAccepted(c, "session", t);
    UuidIsReadable(c.instance);
    NameIsReadable();
    forall f ensures Accepted(Intent(c, t), f) {
    }
  }

  lemma NameIsReadable()
    ensures Readable("equill")
  {
    var s := "equill";
    assert |s| == 6 && s[0] == 'e' && s[1] == 'q' && s[2] == 'u' && s[3] == 'i' && s[4] == 'l' && s[5] == 'l';
    assert !StartsWith(s, "eyJ") by {
      assert "eyJ"[1] == 'y';
    }
  }

  /** Invocation::prepare, once the output is known. */
  function Prepared(e: Event, output: Output, errorClass: Option<string>, elapsed: nat): Event {
    var timed :=
      e.(output := output, duration := if elapsed < 0x1_0000_0000_0000_0000 then elapsed else 0xFFFF_FFFF_FFFF_FFFF);
    if errorClass.None? then timed.(outcome := "success", domainOutcome := "success", errorClass := None)
    else timed.(outcome := "error", domainOutcome := "error", errorClass := Some(ErrorClassOf(errorClass.value)))
  }

  /** Invocation::settle. */
  function Settled(e: Event, transportFailed: bool): Event {
    if transportFailed then e.(outcome := "error", errorClass := Some("transport")) else e
  }

  /** What an invocation ends with: success exactly when it gave no error and its answer got
      through, and otherwise which class of error - one of a few words, never the text. */
  ghost predicate Ended(done: Event, e: Event, errorClass: Option<string>, elapsed: nat, transportFailed: bool) {
    && done == e.(outcome := done.outcome, domainOutcome := done.domainOutcome, errorClass := done.errorClass,
                  duration := done.duration, output := done.output)
    && done.outcome == (if errorClass.None? && !transportFailed then "success" else "error")
    && done.domainOutcome == (if errorClass.None? then "success" else "error")
    && (errorClass.None? && !transportFailed ==> done.errorClass == None)
    && (transportFailed ==> done.errorClass == Some("transport"))
    && (errorClass.Some? && !transportFailed ==>
          done.errorClass == Some(
            if errorClass.value in ["io", "validation", "authorization", "post_commit", "audit", "integrity",
                                    "execution", "transport", "interrupted"]
            then errorClass.value else "execution"))
    && done.duration == if elapsed < 0x1_0000_0000_0000_0000 then elapsed else 0xFFFF_FFFF_FFFF_FFFF
  }

  /** The outcome of any invocation is accepted too, unless it ran for more than 292
      thousand years; and then its intent still is. */
  lemma OutcomeIsCapturedIff(e: Event, bytes: string, size: U64, durable: Option<bool>, count: Option<U64>,
                             ids: seq<Id>, receipt: Option<string>, errorClass: Option<string>, elapsed: nat,
                             transportFailed: bool, t: Tools)
    requires Sound(t) && Captured(e)
    ensures var output := OutputOf(bytes, size, durable, count, ids, receipt, t);
      var done := Settled(Prepared(e, output, errorClass, elapsed), transportFailed);
      && Bounded(done) && done.id == e.id && done.month == e.month
      && (Captured(done) <==> elapsed <= 0x7FFF_FFFF_FFFF_FFFF)
      && Ended(done, e, errorClass, elapsed, transportFailed)
      && done.output.sha256 == t.sha(bytes) && done.output.bytes == size && done.output.durable == durable
      && done.output.count == count && done.output.ids == (if |ids| <= 16 then ids else ids[..16])
      && (done.output.receipt.Some? <==> receipt.Some?)
      && (receipt.Some? ==> done.output.receipt == Some(t.sha(receipt.value)))
  {
    if errorClass.Some? {
      ErrorClassSettles(errorClass.value);
    }
    var output := OutputOf(bytes, size, durable, count, ids, receipt, t);
    var done := Settled(Prepared(e, output, errorClass, elapsed), transportFailed);
    assert Accepted(done, Duration) <==> elapsed <= 0x7FFF_FFFF_FFFF_FFFF;
    forall f | f != Duration ensures Accepted(done, f) {
      assert Accepted(e, f);
    }
  }

  lemma ErrorClassSettles(class': string)
    ensures ErrorClassOf(ErrorClassOf(class')) == ErrorClassOf(class')
    ensures ErrorClassOf(class') ==
      if class' in ["io", "validation", "authorization", "post_commit", "audit", "integrity", "execution",
                    "transport", "interrupted"]
      then class' else "execution"
  {
  }
}
