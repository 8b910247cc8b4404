/** The immutable ledger: content-addressed files plus an append-only audit log, under
    interrupted writes and truncated leftovers. */
module Ledger {
  import opened Prelude
  import opened Ordering
  import opened Artifacts

  /** A file's bytes: a parseable document in some spelling, spelling 0 being the
      canonical one, or bytes that do not parse. */
  datatype File = Json(artifact: Artifact, spelling: nat) | Torn(leftover: nat)

  /** One line of `audit.jsonl`. */
  datatype Event = Event(id: Id, createdAt: int, digest: Digest, status: Status, supersedes: Option<Id>)

  function EventOf(a: Artifact): Event {
    Event(a.id, a.body.createdAt, a.digest, a.body.status, a.body.supersedes)
  }

  /** `canonical_bytes(artifact) + b"\n"` */
  function BytesOf(a: Artifact): File { Json(ReadBack(a), 0) }

  /** `_is_valid_artifact_bytes` */
  ghost predicate IsValidFor(f: File, id: Id) {
    f.Json? && Intact(f.artifact) && f.artifact.id == id
  }

  datatype State = State(files: map<Id, File>, audit: seq<Event>)

  /** Where a write is cut short: not at all, before the file replace, or between the
      replace and the audit append. */
  datatype Crash = Never | BeforeReplace | BeforeAppend

  /** A valid rival under the same id, spelled differently. */
  ghost predicate Collides(s: State, a: Artifact) {
    a.id in s.files && s.files[a.id] != BytesOf(a) && IsValidFor(s.files[a.id], a.id)
  }

  /** The ledger after one `_write_artifact`; an invalid artifact or a collision raises
      before anything is touched. */
  ghost function After(s: State, a: Artifact, crash: Crash): State {
    if !Validates(a.body) || Collides(s, a) then s
    else if a.id in s.files && s.files[a.id] == BytesOf(a) then
      if crash == Never then Audited(s, a) else s
    else if crash == BeforeReplace then s
    else
      var replaced := State(s.files[a.id := BytesOf(a)], s.audit);
      if crash == BeforeAppend then replaced else Audited(replaced, a)
  }

  /** `_append_audit_event` */
  ghost function Audited(s: State, a: Artifact): State {
    if EventOf(a) in s.audit then s else State(s.files, s.audit + [EventOf(a)])
  }

  datatype Written = Done | Interrupted | Refused

  class Store {
    var files: map<Id, File>
    var audit: seq<Event>

    ghost function Now(): State
      reads this
    {
      State(files, audit)
    }

    constructor ()
      ensures Now() == State(map[], [])
    {
      files, audit := map[], [];
    }

    method IsValid(f: File, id: Id) returns (valid: bool)
      ensures valid <==> IsValidFor(f, id)
    {
      match f
      case Torn(_) => return false;
      case Json(artifact, _) =>
        var r := VerifyIntegrity(artifact, Some(id));
        return r.Ok?;
    }

    method AppendAudit(a: Artifact)
      modifies this`audit
      ensures Now() == Audited(old(Now()), a)
    {
      if EventOf(a) !in audit { audit := audit + [EventOf(a)]; }
    }

    /** `_write_artifact`, with the point at which the process is killed. */
    method Write(a: Artifact, crash: Crash) returns (r: Written)
      modifies this
      ensures Now() == After(old(Now()), a, crash)
      ensures r == Refused <==> !Validates(a.body) || Collides(old(Now()), a)
      ensures r == Done ==> a.id in files && files[a.id] == BytesOf(a)
      ensures r == Done ==> Event(a.id, a.body.createdAt, a.digest, a.body.status, a.body.supersedes) in audit
      ensures r == Done <==> r != Refused && crash == Never
      ensures r != Done ==> audit == old(audit)
      ensures r == Refused || crash == BeforeReplace ==> files == old(files)
      ensures forall id :: id != a.id ==> (id in files <==> id in old(files))
      ensures forall id :: id != a.id && id in files ==> files[id] == old(files)[id]
    {
      var valid := ValidateArtifact(a.body);
      if !valid { return Refused; }
      var writeNeeded := true;
      if a.id in files {
        if files[a.id] == BytesOf(a) {
          writeNeeded := false;
        } else {
          var rival := IsValid(files[a.id], a.id);
          if rival { return Refused; }
        }
      }
      if writeNeeded {
        if crash == BeforeReplace { return Interrupted; }
        files := files[a.id := BytesOf(a)];
      }
      if crash != Never { return Interrupted; }
      AppendAudit(a);
      return Done;
    }
  }

  // ---------------------------------------------------------------------
  // Runs of writes, interruptions and leftovers
  // ---------------------------------------------------------------------

  /** A write, or a truncated leftover appearing at a path that holds no valid artifact. */
  datatype Step = Put(artifact: Artifact, crash: Crash) | Leftover(id: Id, bytes: nat)

  ghost function Apply(s: State, step: Step): State {
    match step
    case Put(a, crash) => After(s, a, crash)
    case Leftover(id, bytes) =>
      if id in s.files && IsValidFor(s.files[id], id) then s else s.(files := s.files[id := Torn(bytes)])
  }

  ghost function Run(s: State, steps: seq<Step>): State
    decreases |steps|
  {
    if steps == [] then s else Run(Apply(s, steps[0]), steps[1..])
  }

  /** A written artifact is always stamped by its own content. */
  ghost predicate Stamped(step: Step) {
    step.Put? ==> step.artifact == Stamp(step.artifact.body) && Intact(ReadBack(step.artifact))
  }

  /** The later ledger keeps every valid artifact byte for byte and only adds audit lines. */
  ghost predicate Extends(s: State, t: State) {
    && (forall id :: id in s.files && IsValidFor(s.files[id], id) ==> id in t.files && t.files[id] == s.files[id])
    && s.audit <= t.audit
    && (Distinct(s.audit) ==> Distinct(t.audit))
  }

  lemma StepExtends(s: State, step: Step)
    ensures Extends(s, Apply(s, step))
  {
    hide Intact, Validates;
  }

  /** Over any run, a valid stored artifact never changes, and audit lines are only
      appended, never duplicated. */
  lemma {:induction false} RunExtends(s: State, steps: seq<Step>)
    ensures Extends(s, Run(s, steps))
    decreases |steps|
  {
    hide Intact, Apply;
    if steps != [] {
      StepExtends(s, steps[0]);
      RunExtends(Apply(s, steps[0]), steps[1..]);
    }
  }

  /** Every valid file is in canonical spelling, and every audit line has its artifact
      on disk. */
  ghost predicate Sound(s: State) {
    && (forall id :: id in s.files && IsValidFor(s.files[id], id) ==>
          s.files[id].spelling == 0 && ReadBack(s.files[id].artifact) == s.files[id].artifact)
    && (forall e :: e in s.audit ==>
          && e.id in s.files && IsValidFor(s.files[e.id], e.id) && e == EventOf(s.files[e.id].artifact))
  }

  lemma WrittenIsValid(a: Artifact)
    requires a == Stamp(a.body) && Intact(ReadBack(a))
    ensures IsValidFor(BytesOf(a), a.id) && EventOf(ReadBack(a)) == EventOf(a)
    ensures ReadBack(ReadBack(a)) == ReadBack(a)
  {
    hide Intact, Canonical;
    CanonicalIdempotent(a.body);
    CanonicalKeepsEvent(a.body);
  }

  lemma CanonicalKeepsEvent(b: Body)
    ensures var c := Canonical(b);
      c.createdAt == b.createdAt && c.status == b.status && c.supersedes == b.supersedes
  {
  }

  /** Two intact canonical documents under one name are the same document. */
  lemma NoRival(s: State, a: Artifact)
    requires Sound(s) && a == Stamp(a.body) && Intact(ReadBack(a))
    ensures !Collides(s, a)
  {
    hide Intact, Canonical;
    if a.id in s.files && IsValidFor(s.files[a.id], a.id) {
      SameIdSameContent(s.files[a.id].artifact, ReadBack(a));
      WrittenIsValid(a);
    }
  }

  lemma StepSound(s: State, step: Step)
    requires Sound(s) && Stamped(step)
    ensures Sound(Apply(s, step))
  {
    hide Intact, Validates, Stamp, Sound, IsValidFor;
    match step
    case Leftover(id, bytes) =>
      if !(id in s.files && IsValidFor(s.files[id], id)) { TornSound(s, id, bytes); }
    case Put(a, crash) =>
      NoRival(s, a);
      ReplacedSound(s, a);
      if a.id in s.files && s.files[a.id] == BytesOf(a) { AuditedSound(s, a); }
      AuditedSound(State(s.files[a.id := BytesOf(a)], s.audit), a);
  }

  lemma TornSound(s: State, id: Id, bytes: nat)
    requires Sound(s) && !(id in s.files && IsValidFor(s.files[id], id))
    ensures Sound(s.(files := s.files[id := Torn(bytes)]))
  {
    hide Intact;
  }

  lemma ReplacedSound(s: State, a: Artifact)
    requires Sound(s) && a == Stamp(a.body) && Intact(ReadBack(a))
    ensures Sound(State(s.files[a.id := BytesOf(a)], s.audit))
  {
    hide Intact, Stamp;
    WrittenIsValid(a);
    var t := State(s.files[a.id := BytesOf(a)], s.audit);
    forall e | e in t.audit
      ensures e.id in t.files && IsValidFor(t.files[e.id], e.id) && e == EventOf(t.files[e.id].artifact)
    {
      if e.id == a.id { SameEvent(s, a, e); }
    }
  }

  /** An audit line about a's name is a's own line. */
  lemma SameEvent(s: State, a: Artifact, e: Event)
    requires Sound(s) && a == Stamp(a.body) && Intact(ReadBack(a)) && e in s.audit && e.id == a.id
    ensures e == EventOf(ReadBack(a))
  {
    hide Intact, Stamp;
    SameIdSameContent(s.files[a.id].artifact, ReadBack(a));
    WrittenIsValid(a);
  }

  lemma AuditedSound(s: State, a: Artifact)
    requires Sound(s) && a == Stamp(a.body) && Intact(ReadBack(a))
    requires a.id in s.files && s.files[a.id] == BytesOf(a)
    ensures Sound(Audited(s, a))
  {
    hide Intact, Stamp, IsValidFor;
    WrittenIsValid(a);
  }

  /** Starting from nothing, no write is ever refused as a collision: with an injective
      hash a collision can only be a file someone respelled by hand. */
  lemma {:induction false} RunSound(s: State, steps: seq<Step>)
    requires Sound(s) && forall step :: step in steps ==> Stamped(step)
    ensures Sound(Run(s, steps))
    decreases |steps|
  {
    hide Sound, Stamped, Apply;
    if steps != [] {
      assert steps[0] in steps;
      StepSound(s, steps[0]);
      forall step | step in steps[1..] ensures Stamped(step) { assert step in steps; }
      RunSound(Apply(s, steps[0]), steps[1..]);
    }
  }

  /** Exactly when a stamped write is refused as a collision. */
  lemma CollisionIff(s: State, a: Artifact)
    requires a == Stamp(a.body) && Intact(ReadBack(a))
    ensures Collides(s, a) <==>
      && a.id in s.files && s.files[a.id].Json? && Intact(s.files[a.id].artifact) && s.files[a.id].artifact.id == a.id
      && (s.files[a.id].spelling != 0 || s.files[a.id].artifact != ReadBack(s.files[a.id].artifact))
  {
    hide Intact, Canonical;
    if a.id in s.files && IsValidFor(s.files[a.id], a.id) {
      SameIdSameContent(s.files[a.id].artifact, ReadBack(a));
      WrittenIsValid(a);
    }
  }

  /** Retrying an interrupted write reaches the ledger of the uninterrupted one. */
  lemma RetryCompletes(s: State, a: Artifact, crash: Crash)
    requires a == Stamp(a.body) && Intact(ReadBack(a))
    ensures After(After(s, a, crash), a, Never) == After(s, a, Never)
  {
    hide Intact, Validates, Stamp, ReadBack, EventOf;
    WrittenIsValid(a);
  }

  /** Writing the same artifact again changes nothing. */
  lemma WriteIdempotent(s: State, a: Artifact)
    requires a == Stamp(a.body) && Intact(ReadBack(a))
    ensures After(After(s, a, Never), a, Never) == After(s, a, Never)
  {
    RetryCompletes(s, a, Never);
  }

  /** Every valid write takes effect: the file is there, intact, and audited. */
  lemma WriteTakesEffect(s: State, a: Artifact)
    requires Sound(s) && a == Stamp(a.body) && Intact(ReadBack(a)) && Validates(a.body)
    ensures var t := After(s, a, Never);
      a.id in t.files && t.files[a.id] == BytesOf(a) && IsValidFor(t.files[a.id], a.id) && EventOf(a) in t.audit
  {
    hide Intact, Validates, Stamp, ReadBack, EventOf;
    WrittenIsValid(a);
    NoRival(s, a);
  }
}
