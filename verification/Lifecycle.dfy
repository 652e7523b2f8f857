/** `experiments/contracts.py`: the lifecycles of an experiment specification, a run and an attempt. The
    source's records are immutable: an operation returns a new record or raises. */
module Lifecycle {
  import opened Wrappers
  import opened Sequences
  import Text
  import opened Canonical
  import opened JsonStrings
  import opened JsonText
  import CanonicalLaws

  datatype LifecycleError =
    | InvalidTransition | NaiveTime | BadHash | DuplicateAttempts
    | ForeignAttempt | AttemptOverwritten | OrdinalGap | OrdinalNotPositive | BadText
    | NotADraft | NotPreregistered | InvalidField | NotCanonical(cause: CanonError)

  /** A datetime; a naive one is refused everywhere. */
  datatype Moment = Moment(aware: bool, at: int)

  predicate IsHash(s: string) {
    |s| == 64 && forall c :: c in s ==> Text.IsHexDigit(c)
  }

  /** `_required`: not empty, and no white space at either end. */
  predicate Normalized(s: string) {
    s != "" && !Text.IsSpace(s[0]) && !Text.IsSpace(s[|s| - 1])
  }

  // ---------- attempts ----------

  datatype AttemptState = AttemptQueued | AttemptRunning | AttemptSucceeded | AttemptFailed | AttemptCancelled | TimedOut

  datatype Attempt = Attempt(attemptId: string, runId: string, ordinal: int, state: AttemptState, queuedAt: Moment, updatedAt: Moment)

  predicate AttemptMoves(a: AttemptState, b: AttemptState) {
    match a
    case AttemptQueued => b == AttemptRunning || b == AttemptCancelled
    case AttemptRunning => b == AttemptSucceeded || b == AttemptFailed || b == AttemptCancelled || b == TimedOut
    case _ => false
  }

  function AttemptError(a: Attempt): Option<LifecycleError> {
    if !Normalized(a.attemptId) || !Normalized(a.runId) then Some(BadText)
    else if a.ordinal < 1 then Some(OrdinalNotPositive)
    else if !a.queuedAt.aware || !a.updatedAt.aware then Some(NaiveTime)
    else None
  }

  function TransitionAttempt(a: Attempt, to: AttemptState, at: Moment): (r: Result<Attempt, LifecycleError>)
    requires AttemptError(a).None?
    ensures r.Ok? <==> AttemptMoves(a.state, to) && at.aware
    ensures r.Ok? ==> r.value == a.(state := to, updatedAt := at) && AttemptError(r.value).None?
  {
    if !AttemptMoves(a.state, to) then Err(InvalidTransition)
    else if !at.aware then Err(NaiveTime)
    else Ok(a.(state := to, updatedAt := at))
  }

  // ---------- runs ----------

  datatype RunState =
    | Queued | Running | Succeeded | FailedRetryable | FailedTerminal
    | WaitingInput | BlockedPolicy | Quarantined | NonReproducible | Cancelled

  datatype ExperimentRun = ExperimentRun(
    runId: string, experimentId: string, specHash: string, fingerprint: string,
    state: RunState, queuedAt: Moment, updatedAt: Moment, attemptIds: seq<string>)

  /** `_RUN_TRANSITIONS` */
  predicate RunMoves(a: RunState, b: RunState) {
    match a
    case Queued => b == Running || b == Cancelled
    case Running => b != Queued && b != Running
    case FailedRetryable => b == Running || b == Cancelled
    case _ => false
  }

  ghost predicate ValidRun(r: ExperimentRun) {
    IsHash(r.specHash) && IsHash(r.fingerprint) && r.queuedAt.aware && r.updatedAt.aware && Distinct(r.attemptIds)
  }

  function QueueRun(runId: string, experimentId: string, specHash: string, fingerprint: string, at: Moment): (r: Result<ExperimentRun, LifecycleError>)
    ensures r.Ok? <==> IsHash(specHash) && IsHash(fingerprint) && at.aware
    ensures r.Ok? ==> ValidRun(r.value)
  {
    if !IsHash(specHash) || !IsHash(fingerprint) then Err(BadHash)
    else if !at.aware then Err(NaiveTime)
    else Ok(ExperimentRun(runId, experimentId, specHash, fingerprint, Queued, at, at, []))
  }

  function TransitionRun(r: ExperimentRun, to: RunState, at: Moment): (n: Result<ExperimentRun, LifecycleError>)
    ensures n.Ok? <==> RunMoves(r.state, to) && at.aware
    ensures n.Ok? && ValidRun(r) ==> ValidRun(n.value)
  {
    if !RunMoves(r.state, to) then Err(InvalidTransition)
    else if !at.aware then Err(NaiveTime)
    else Ok(r.(state := to, updatedAt := at))
  }

  /** The state of the run plays no part: attempts may still be appended after an absorbing state. */
  function AddAttempt(r: ExperimentRun, a: Attempt): (n: Result<ExperimentRun, LifecycleError>)
    ensures n.Ok? <==> a.runId == r.runId && a.attemptId !in r.attemptIds && a.ordinal == |r.attemptIds| + 1
    ensures n.Ok? && ValidRun(r) ==> ValidRun(n.value)
  {
    if a.runId != r.runId then Err(ForeignAttempt)
    else if a.attemptId in r.attemptIds then Err(AttemptOverwritten)
    else if a.ordinal != |r.attemptIds| + 1 then Err(OrdinalGap)
    else Ok(r.(attemptIds := r.attemptIds + [a.attemptId]))
  }

  // ---------- whole runs ----------

  datatype RunOp = Move(to: RunState, at: Moment) | Append(attempt: Attempt)

  function RunOutcome(r: ExperimentRun, op: RunOp): Result<ExperimentRun, LifecycleError> {
    match op
    case Move(to, at) => TransitionRun(r, to, at)
    case Append(a) => AddAttempt(r, a)
  }

  /** The run after a history of operations; those that raise leave it as it was. */
  function AfterOps(r: ExperimentRun, ops: seq<RunOp>): ExperimentRun {
    if ops == [] then r
    else
      var before := AfterOps(r, ops[..|ops| - 1]);
      var n := RunOutcome(before, ops[|ops| - 1]);
      if n.Ok? then n.value else before
  }

  /** The states the run went through. */
  function States(r: ExperimentRun, ops: seq<RunOp>): seq<RunState> {
    if ops == [] then [r.state]
    else
      var op := ops[|ops| - 1];
      var earlier := States(r, ops[..|ops| - 1]);
      if op.Move? && RunOutcome(AfterOps(r, ops[..|ops| - 1]), op).Ok? then earlier + [op.to] else earlier
  }

  /** The attempts that were accepted, in order. */
  function Accepted(r: ExperimentRun, ops: seq<RunOp>): seq<Attempt> {
    if ops == [] then []
    else
      var op := ops[|ops| - 1];
      var earlier := Accepted(r, ops[..|ops| - 1]);
      if op.Append? && RunOutcome(AfterOps(r, ops[..|ops| - 1]), op).Ok? then earlier + [op.attempt] else earlier
  }

  function AlternatingState(i: nat): RunState {
    if i == 0 then Queued else if i % 2 == 1 then Running else FailedRetryable
  }

  /** The trace language: queued, then running and failed-retryable in turn, and only the last state may be
      another one: any absorbing state out of running, cancelled out of the others. */
  ghost predicate InLanguage(states: seq<RunState>) {
    && states != [] && states[0] == Queued
    && (forall i | 0 <= i < |states| - 1 :: states[i] == AlternatingState(i))
    && (|states| > 1 ==>
          var n := |states| - 1;
          || states[n] == AlternatingState(n)
          || states[n] == Cancelled
          || (n % 2 == 0 && states[n] != Queued && states[n] != Running))
  }

  ghost predicate IsPath(states: seq<RunState>) {
    && states != [] && states[0] == Queued
    && (forall i | 0 <= i < |states| - 1 :: RunMoves(states[i], states[i + 1]))
  }

  /** The transition table allows exactly that language. */
  lemma {:induction false} PathsAreTheLanguage(states: seq<RunState>)
    ensures IsPath(states) <==> InLanguage(states)
  {
    if |states| > 1 {
      var n := |states| - 1;
      var front := states[..n];
      PathsAreTheLanguage(front);
      PathSnoc(front, states[n]);
      LanguageSnoc(front, states[n]);
      SplitLast(states);
    }
  }

  lemma {:induction false} PathSnoc(front: seq<RunState>, s: RunState)
    requires front != []
    ensures IsPath(front + [s]) <==> IsPath(front) && RunMoves(front[|front| - 1], s)
  {
    var states := front + [s];
    assert forall i :: 0 <= i < |front| ==> states[i] == front[i];
    if IsPath(states) {
      forall i | 0 <= i < |front| - 1 ensures RunMoves(front[i], front[i + 1]) {
        assert RunMoves(states[i], states[i + 1]);
      }
      assert RunMoves(states[|front| - 1], states[|front| - 1 + 1]);
    }
  }

  lemma {:induction false} LanguageSnoc(front: seq<RunState>, s: RunState)
    requires front != []
    ensures InLanguage(front + [s]) <==> InLanguage(front) && RunMoves(front[|front| - 1], s)
  {
    var states := front + [s];
    assert forall i :: 0 <= i < |front| ==> states[i] == front[i];
    if InLanguage(states) {
      assert forall i :: 0 <= i < |front| ==> front[i] == AlternatingState(i);
    }
  }

  /** Whatever operations are tried on a queued run, its states form a word of the language, ending in the
      run's current state. */
  lemma {:induction false} StatesAreInLanguage(r: ExperimentRun, ops: seq<RunOp>)
    requires r.state == Queued
    ensures InLanguage(States(r, ops))
    ensures States(r, ops)[|States(r, ops)| - 1] == AfterOps(r, ops).state
  {
    if ops != [] {
      var front, op := ops[..|ops| - 1], ops[|ops| - 1];
      StatesAreInLanguage(r, front);
      if op.Move? && RunOutcome(AfterOps(r, front), op).Ok? {
        LanguageSnoc(States(r, front), op.to);
      }
    }
  }

  function MovesAlong(states: seq<RunState>, at: Moment): (ops: seq<RunOp>)
    requires states != []
    ensures |ops| == |states| - 1 && forall i :: 0 <= i < |ops| ==> ops[i] == Move(states[i + 1], at)
  {
    seq(|states| - 1, i requires 0 <= i < |states| - 1 => Move(states[i + 1], at))
  }

  /** Conversely every word of the language is the history of some run. */
  lemma {:induction false} LanguageIsReached(r: ExperimentRun, states: seq<RunState>, at: Moment)
    requires r.state == Queued && at.aware && InLanguage(states)
    ensures States(r, MovesAlong(states, at)) == states
  {
    var n := |states| - 1;
    if n == 0 {
      assert MovesAlong(states, at) == [];
    } else {
      var front, ops := states[..n], MovesAlong(states, at);
      SplitLast(states);
      LanguageSnoc(front, states[n]);
      LanguageIsReached(r, front, at);
      assert ops[..n - 1] == MovesAlong(front, at);
      StatesAreInLanguage(r, MovesAlong(front, at));
    }
  }

  /** Absorbing states absorb. */
  lemma {:induction false} AbsorbingStays(r: ExperimentRun, ops: seq<RunOp>)
    requires r.state != Queued && r.state != Running && r.state != FailedRetryable
    ensures AfterOps(r, ops).state == r.state
  {
    if ops != [] {
      AbsorbingStays(r, ops[..|ops| - 1]);
    }
  }

  /** Absorbing states do not close the attempt list: a cancelled run still takes its first attempt. */
  lemma {:induction false} CancelledRunTakesAttempt(r: ExperimentRun, at: Moment)
    requires r.state == Queued && r.attemptIds == [] && at.aware
    ensures var a := Attempt("attempt-1", r.runId, 1, AttemptQueued, at, at);
            var n := AfterOps(r, [Move(Cancelled, at), Append(a)]);
            n.state == Cancelled && n.attemptIds == ["attempt-1"]
  {
    var a := Attempt("attempt-1", r.runId, 1, AttemptQueued, at, at);
    var ops := [Move(Cancelled, at), Append(a)];
    assert ops[..1] == [Move(Cancelled, at)] && ops[..1][..0] == [];
    assert AfterOps(r, ops[..1]) == r.(state := Cancelled, updatedAt := at);
    assert r.attemptIds + ["attempt-1"] == ["attempt-1"];
  }

  function AttemptIds(attempts: seq<Attempt>): (ids: seq<string>)
    ensures |ids| == |attempts| && forall i :: 0 <= i < |ids| ==> ids[i] == attempts[i].attemptId
  {
    seq(|attempts|, i requires 0 <= i < |attempts| => attempts[i].attemptId)
  }

  /** Identity and validity of a run never change, and its attempt list is the accepted attempts in order:
      the k-th belongs to this run and has ordinal k, and no identifier repeats. */
  lemma {:induction false} RunKeepsItsHistory(r: ExperimentRun, ops: seq<RunOp>)
    requires ValidRun(r) && r.attemptIds == []
    ensures var n := AfterOps(r, ops);
            && ValidRun(n)
            && n.runId == r.runId && n.experimentId == r.experimentId
            && n.specHash == r.specHash && n.fingerprint == r.fingerprint && n.queuedAt == r.queuedAt
    ensures AfterOps(r, ops).attemptIds == AttemptIds(Accepted(r, ops))
    ensures forall k :: 0 <= k < |Accepted(r, ops)| ==> Accepted(r, ops)[k].ordinal == k + 1 && Accepted(r, ops)[k].runId == r.runId
  {
    if ops != [] {
      RunKeepsItsHistory(r, ops[..|ops| - 1]);
    }
  }

  // ---------- specifications ----------

  datatype SpecState = Draft | Preregistered | Superseded | Closed

  datatype Stamp = Stamp(actor: string, at: Moment)

  /** `identity` is everything the hash covers. */
  datatype ExperimentSpec = ExperimentSpec(
    identity: Value, state: SpecState, specHash: string, preregistered: Option<Stamp>, closed: Option<Stamp>)

  /** What a spec is built with: SHA-256 over text, and the field checks of the constructor. */
  datatype Rules = Rules(sha: string -> string, fieldsOk: Value -> bool)

  function DraftSpec(rules: Rules, identity: Value): Result<ExperimentSpec, LifecycleError> {
    var text := CanonicalJson(identity);
    if text.Err? then Err(NotCanonical(text.error))
    else if !rules.fieldsOk(identity) then Err(InvalidField)
    else Ok(ExperimentSpec(identity, Draft, rules.sha(text.value), None, None))
  }

  datatype SpecOp = Revise(identity: Value) | Preregister(stamp: Stamp) | Close(stamp: Stamp)

  function StampError(s: Stamp): Option<LifecycleError> {
    if !Normalized(s.actor) then Some(BadText) else if !s.at.aware then Some(NaiveTime) else None
  }

  function SpecOutcome(rules: Rules, s: ExperimentSpec, op: SpecOp): Result<ExperimentSpec, LifecycleError> {
    match op
    case Revise(identity) => if s.state != Draft then Err(NotADraft) else DraftSpec(rules, identity)
    case Preregister(stamp) =>
      if s.state != Draft then Err(NotADraft)
      else if StampError(stamp).Some? then Err(StampError(stamp).value)
      else Ok(s.(state := Preregistered, preregistered := Some(stamp)))
    case Close(stamp) =>
      if s.state != Preregistered then Err(NotPreregistered)
      else if StampError(stamp).Some? then Err(StampError(stamp).value)
      else Ok(s.(state := Closed, closed := Some(stamp)))
  }

  function AfterSpecOps(rules: Rules, s: ExperimentSpec, ops: seq<SpecOp>): ExperimentSpec {
    if ops == [] then s
    else
      var before := AfterSpecOps(rules, s, ops[..|ops| - 1]);
      var n := SpecOutcome(rules, before, ops[|ops| - 1]);
      if n.Ok? then n.value else before
  }

  /** What is known of SHA-256: a digest is 64 lower-case hex digits. */
  ghost predicate YieldsHashes(rules: Rules) {
    forall text :: IsHash(rules.sha(text))
  }

  /** The hash is that of the identity, and the stamps tell the state. */
  ghost predicate SpecInvariant(rules: Rules, s: ExperimentSpec) {
    && IsHash(s.specHash)
    && CanonicalJson(s.identity).Ok? && s.specHash == rules.sha(CanonicalJson(s.identity).value)
    && rules.fieldsOk(s.identity)
    && s.state != Superseded
    && (s.state == Draft <==> s.preregistered.None?)
    && (s.state == Closed <==> s.closed.Some?)
  }

  lemma {:induction false} SpecStepKeepsInvariant(rules: Rules, s: ExperimentSpec, op: SpecOp)
    requires YieldsHashes(rules) && SpecInvariant(rules, s) && SpecOutcome(rules, s, op).Ok?
    ensures SpecInvariant(rules, SpecOutcome(rules, s, op).value)
  {
  }

  lemma {:induction false} SpecKeepsInvariant(rules: Rules, s: ExperimentSpec, ops: seq<SpecOp>)
    requires YieldsHashes(rules) && SpecInvariant(rules, s)
    ensures SpecInvariant(rules, AfterSpecOps(rules, s, ops))
  {
    if ops != [] {
      var front := ops[..|ops| - 1];
      SpecKeepsInvariant(rules, s, front);
      if SpecOutcome(rules, AfterSpecOps(rules, s, front), ops[|ops| - 1]).Ok? {
        SpecStepKeepsInvariant(rules, AfterSpecOps(rules, s, front), ops[|ops| - 1]);
      }
    }
  }

  /** From preregistration on, identity, hash and the preregistration stamp are fixed, and the spec can at
      most be closed, once. */
  lemma {:induction false} PreregisteredIsFrozen(rules: Rules, s: ExperimentSpec, ops: seq<SpecOp>)
    requires YieldsHashes(rules) && SpecInvariant(rules, s) && s.state != Draft
    ensures var n := AfterSpecOps(rules, s, ops);
            && n.identity == s.identity && n.specHash == s.specHash && n.preregistered == s.preregistered
            && (n.state == s.state || (s.state == Preregistered && n.state == Closed))
            && (s.closed.Some? ==> n == s)
  {
    if ops != [] {
      PreregisteredIsFrozen(rules, s, ops[..|ops| - 1]);
      SpecKeepsInvariant(rules, s, ops[..|ops| - 1]);
    }
  }

  /** Where SHA-256 does not collide on the two identity texts, specs have the same hash iff their identities
      have the same canonical form, up to joining surrogates. */
  lemma {:induction false} SpecHashIdentifies(rules: Rules, s: ExperimentSpec, t: ExperimentSpec)
    requires YieldsHashes(rules) && SpecInvariant(rules, s) && SpecInvariant(rules, t)
    requires var x, y := CanonicalJson(s.identity).value, CanonicalJson(t.identity).value;
             rules.sha(x) == rules.sha(y) ==> x == y
    ensures Acceptable(s.identity) && Acceptable(t.identity)
    ensures s.specHash == t.specHash <==> Joined(Form(s.identity)) == Joined(Form(t.identity))
    ensures NoPairs(Form(s.identity)) && NoPairs(Form(t.identity))
            ==> (s.specHash == t.specHash <==> Form(s.identity) == Form(t.identity))
  {
    CanonicalLaws.CanonicalTextIdentifiesForm(s.identity, t.identity);
  }

  /** The identity with one of its fields set to a text. */
  function WithText(fs: seq<Field>, i: nat, text: PyStr): Value
    requires i < |fs|
  {
    Mapping(PlainDict, fs[i := Field(fs[i].name, Plain(Str(text)))])
  }

  /** And whatever the hash is, identities that differ only in how a field spells U+1F600, as one character or
      as its two surrogates, share their hash. */
  lemma {:induction false} SpelledApartSharesHash(rules: Rules, fs: seq<Field>, i: nat)
    requires i < |fs|
    requires var v, w := WithText(fs, i, [0xD83D, 0xDE00]), WithText(fs, i, [0x1F600]);
             DraftSpec(rules, v).Ok? && DraftSpec(rules, w).Ok?
    ensures var v, w := WithText(fs, i, [0xD83D, 0xDE00]), WithText(fs, i, [0x1F600]);
            v != w && DraftSpec(rules, v).value.specHash == DraftSpec(rules, w).value.specHash
  {
    var v, w := WithText(fs, i, [0xD83D, 0xDE00]), WithText(fs, i, [0x1F600]);
    CanonicalLaws.CanonicalTextsCollide(Plain(Str([0xD83D, 0xDE00])), Plain(Str([0x1F600])));
    CanonIsForm(v);
    CanonIsForm(w);
    SpelledAlike(v.pairs, w.pairs);
    assert v.pairs[i] != w.pairs[i];
  }

  lemma {:induction false} SpelledAlike(fs: seq<Field>, gs: seq<Field>)
    requires |fs| == |gs| && forall k :: 0 <= k < |fs| ==> fs[k] == gs[k] || SpellsAlike(fs[k], gs[k])
    ensures CanonicalLaws.SameText(Mapping(PlainDict, fs), Mapping(PlainDict, gs))
  {
    CanonicalLaws.SameTextFields(fs, gs, PlainDict, PlainDict);
  }

  ghost predicate SpellsAlike(f: Field, g: Field) {
    f.name == g.name && CanonicalLaws.SameText(f.value, g.value)
  }

  // ---------- attempts and stamps, spelled out ----------

  ghost predicate IsAttemptPath(states: seq<AttemptState>) {
    && states != [] && states[0] == AttemptQueued
    && (forall i | 0 <= i < |states| - 1 :: AttemptMoves(states[i], states[i + 1]))
  }

  /** An attempt waits, runs and ends, or is cancelled while it waits. */
  lemma {:induction false} AttemptPathsAre(states: seq<AttemptState>)
    ensures IsAttemptPath(states) <==>
              || states == [AttemptQueued] || states == [AttemptQueued, AttemptCancelled] || states == [AttemptQueued, AttemptRunning]
              || states == [AttemptQueued, AttemptRunning, AttemptSucceeded] || states == [AttemptQueued, AttemptRunning, AttemptFailed]
              || states == [AttemptQueued, AttemptRunning, AttemptCancelled] || states == [AttemptQueued, AttemptRunning, TimedOut]
  {
    if IsAttemptPath(states) {
      assert |states| > 1 ==> AttemptMoves(states[0], states[1]);
      assert |states| > 2 ==> AttemptMoves(states[1], states[2]);
      assert |states| > 3 ==> AttemptMoves(states[2], states[3]);
    }
  }

  /** What each operation on a spec asks for, and what it does. */
  lemma {:induction false} SpecMoves(rules: Rules, s: ExperimentSpec, stamp: Stamp, identity: Value)
    ensures SpecOutcome(rules, s, Preregister(stamp)).Ok? <==>
              s.state == Draft && stamp.at.aware && stamp.actor != ""
              && !Text.IsSpace(stamp.actor[0]) && !Text.IsSpace(stamp.actor[|stamp.actor| - 1])
    ensures SpecOutcome(rules, s, Close(stamp)).Ok? <==>
              s.state == Preregistered && stamp.at.aware && stamp.actor != ""
              && !Text.IsSpace(stamp.actor[0]) && !Text.IsSpace(stamp.actor[|stamp.actor| - 1])
    ensures SpecOutcome(rules, s, Revise(identity)).Ok? <==> s.state == Draft && CanonicalJson(identity).Ok? && rules.fieldsOk(identity)
    ensures SpecOutcome(rules, s, Preregister(stamp)).Ok? ==>
              SpecOutcome(rules, s, Preregister(stamp)).value == s.(state := Preregistered, preregistered := Some(stamp))
    ensures SpecOutcome(rules, s, Close(stamp)).Ok? ==> SpecOutcome(rules, s, Close(stamp)).value == s.(state := Closed, closed := Some(stamp))
  {
  }

  /** A hash is 64 lower-case hexadecimal digits. */
  lemma {:induction false} HashIff(s: string)
    ensures IsHash(s) <==> |s| == 64 && forall i | 0 <= i < |s| :: s[i] in "0123456789abcdef"
  {
    forall i | 0 <= i < |s| ensures Text.IsHexDigit(s[i]) <==> s[i] in "0123456789abcdef" {
      Text.HexDigits(s[i]);
    }
    assert forall c :: c in s <==> exists i :: 0 <= i < |s| && s[i] == c;
  }

  /** A text of a record: not empty and without white space at its ends. */
  predicate Trimmed(s: string) {
    |s| > 0 && !Text.IsSpace(s[0]) && !Text.IsSpace(s[|s| - 1])
  }

  /** An attempt is accepted iff its identifiers are trimmed, its ordinal is positive and both times are aware; the
      refusals come in this order. */
  lemma {:induction false} AttemptRefusals(a: Attempt)
    ensures AttemptError(a) == None <==> Trimmed(a.attemptId) && Trimmed(a.runId) && a.ordinal > 0 && a.queuedAt.aware && a.updatedAt.aware
    ensures AttemptError(a) == Some(BadText) <==> !(Trimmed(a.attemptId) && Trimmed(a.runId))
    ensures AttemptError(a) == Some(OrdinalNotPositive) <==> Trimmed(a.attemptId) && Trimmed(a.runId) && a.ordinal <= 0
  {
  }
}
