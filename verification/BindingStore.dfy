/**
  Bindings as values. A binding is one lease; each function below gives the lease that takes its place.
*/
module BindingStore {
  import opened Wrappers
  import opened Ids
  import Numbers
  import TargetKey

  datatype State = Staging | Active | Detaching | Detached

  datatype Binding = Binding(
    bindingId: Id, cosSessionId: string, provider: string, threadId: string, targetKey: Key,
    workspaceFingerprint: string, sourceFingerprint: string, headAtAttach: Option<string>,
    epoch: int, state: State, expiresAt: int, pinnedJobs: seq<Job>)

  datatype Rejection =
    | InvalidThreadId | InvalidProvider | InvalidBindingId | InvalidEpoch | InvalidTtl
    | UnknownBinding | BindingNotActive | BindingDetached | BindingExpired
    | StaleEpoch | TargetMismatch | MissingTargetKey | BindingPinned | TerminalState
    // What only the registry answers.
    | StoreUnavailable | PersistFailed | ReentrantMutation | TargetBusy | BindingIdInUse
    | InvalidJobId | TooManyPins | RegistryFull | EpochLedgerFull

  datatype Outcome = Bound(binding: Binding) | Refused(reason: Rejection)

  datatype Check = Ok | No(reason: Rejection)

  predicate IsAlnum(c: char) { '0' <= c <= '9' || 'A' <= c <= 'Z' || 'a' <= c <= 'z' }

  /** A binding id is 1 to 128 of `[A-Za-z0-9_-]`, starting with a letter or a digit. */
  predicate IsBindingId(s: string) {
    1 <= |s| <= 128 && IsAlnum(s[0]) && forall i :: 0 <= i < |s| ==> IsAlnum(s[i]) || s[i] in {'_', '-'}
  }

  datatype Attach = Attach(
    bindingId: Id, cosSessionId: string, provider: string, threadId: string,
    workspaceFingerprint: string, sourceFingerprint: string, headAtAttach: Option<string>, ttlMs: int)

  function Create(a: Attach, priorEpoch: int, now: int): Outcome {
    if !TargetKey.IsBindableProvider(a.provider) then Refused(InvalidProvider)
    else if !TargetKey.IsValidThreadId(a.threadId) then Refused(InvalidThreadId)
    else if !IsBindingId(a.bindingId) then Refused(InvalidBindingId)
    else if priorEpoch < 0 then Refused(InvalidEpoch)
    else if a.ttlMs <= 0 then Refused(InvalidTtl)
    else Bound(Binding(
      a.bindingId, a.cosSessionId, a.provider, a.threadId, TargetKey.Make(a.provider, a.threadId),
      a.workspaceFingerprint, a.sourceFingerprint, a.headAtAttach,
      priorEpoch + 1, Staging, now + a.ttlMs, []))
  }

  predicate IsTerminal(b: Binding) { b.state.Detached? || b.state.Detaching? }

  predicate IsPinned(b: Binding) { |b.pinnedJobs| > 0 }

  /** Past its expiry with nothing pinned. */
  predicate IsExpired(b: Binding, now: int) { !IsPinned(b) && now >= b.expiresAt }

  function Activate(b: Binding): Outcome {
    if b.state != Staging then Refused(TerminalState) else Bound(b.(state := Active))
  }

  function BeginDetach(b: Binding): Binding { if IsTerminal(b) then b else b.(state := Detaching) }

  function Pin(b: Binding, job: Job): Binding {
    if IsTerminal(b) || job in b.pinnedJobs then b else b.(pinnedJobs := b.pinnedJobs + [job])
  }

  /** The jobs but for this one. */
  function Without(jobs: seq<Job>, job: Job): (rest: seq<Job>)
    ensures forall j :: j in rest <==> j in jobs && j != job
    ensures job !in jobs ==> rest == jobs
    ensures |rest| <= |jobs|
    ensures Distinct(jobs) ==> Distinct(rest)
  {
    if jobs == [] then []
    else if jobs[0] == job then Without(jobs[1..], job)
    else
      var rest := Without(jobs[1..], job);
      assert Distinct(jobs) ==> Distinct(jobs[1..]) && jobs[0] !in jobs[1..];
      [jobs[0]] + rest
  }

  predicate Distinct(jobs: seq<Job>) { forall i, j :: 0 <= i < j < |jobs| ==> jobs[i] != jobs[j] }

  function Unpin(b: Binding, job: Job): Binding { b.(pinnedJobs := Without(b.pinnedJobs, job)) }

  /**
    Move the expiry out to `ttlMs` from now, if that is later and the binding is not terminal. A lapsed one is
    moved too.
  */
  function Renew(b: Binding, ttlMs: int, now: int): Binding {
    if !IsTerminal(b) && now + ttlMs > b.expiresAt then b.(expiresAt := now + ttlMs) else b
  }

  function ForceDetach(b: Binding): Binding { b.(state := Detached, pinnedJobs := []) }

  function Detach(b: Binding): Outcome { if IsPinned(b) then Refused(BindingPinned) else Bound(ForceDetach(b)) }

  /** May work run under this lease: it is known, active and not lapsed. */
  function AssertUsable(b: Option<Binding>, now: int): Check {
    match b
    case None => No(UnknownBinding)
    case Some(b) =>
      if IsTerminal(b) then No(BindingDetached)
      else if b.state != Active then No(BindingNotActive)
      else if IsExpired(b, now) then No(BindingExpired)
      else Ok
  }

  datatype Claim = Claim(bindingId: Id, epoch: int, targetKey: Key)

  function CheckQueuedPrompt(claim: Claim, b: Option<Binding>, now: int): Check {
    match b
    case None => No(UnknownBinding)
    case Some(b) =>
      if claim.bindingId != b.bindingId then No(UnknownBinding)
      else if claim.targetKey == "" then No(MissingTargetKey)
      else
        var usable := AssertUsable(Some(b), now);
        if usable != Ok && usable != No(BindingExpired) then usable
        else if claim.epoch != b.epoch then No(StaleEpoch)
        else if claim.targetKey != b.targetKey then No(TargetMismatch)
        else usable
  }

  function BoundToMarker(b: Binding): string
    requires b.epoch >= 0
  {
    TargetKey.Prefixed(b.bindingId) + TargetKey.Prefixed(Numbers.Decimal(b.epoch)) + TargetKey.Prefixed(b.targetKey)
  }

  function VerifyBoundTo(marker: string, b: Option<Binding>, now: int): Check
    requires b.Some? ==> b.value.epoch >= 0
  {
    var usable := AssertUsable(b, now);
    if usable != Ok then usable
    else if marker != BoundToMarker(b.value) then No(TargetMismatch)
    else Ok
  }

  /** What a claim or a marker names. */
  function ClaimOf(b: Binding): Claim { Claim(b.bindingId, b.epoch, b.targetKey) }

  /** Two bindings share a marker only when they share id, epoch and target: markers are injective. */
  lemma MarkerInjective(a: Binding, b: Binding)
    requires a.epoch >= 0 && b.epoch >= 0
    ensures BoundToMarker(a) == BoundToMarker(b) <==> ClaimOf(a) == ClaimOf(b)
  {
    if BoundToMarker(a) == BoundToMarker(b) {
      var ea, eb := Numbers.Decimal(a.epoch), Numbers.Decimal(b.epoch);
      var ta, tb := TargetKey.Prefixed(a.targetKey), TargetKey.Prefixed(b.targetKey);
      var xa, xb := TargetKey.Prefixed(ea) + ta, TargetKey.Prefixed(eb) + tb;
      assert BoundToMarker(a) == TargetKey.Prefixed(a.bindingId) + xa;
      assert BoundToMarker(b) == TargetKey.Prefixed(b.bindingId) + xb;
      TargetKey.PrefixedInjective(a.bindingId, xa, b.bindingId, xb);
      TargetKey.PrefixedInjective(ea, ta, eb, tb);
      TargetKey.PrefixedInjective(a.targetKey, "", b.targetKey, "") by {
        assert ta + "" == ta && tb + "" == tb;
      }
      Numbers.DecimalValue(a.epoch);
      Numbers.DecimalValue(b.epoch);
    }
  }

  /**
    The marker gate and the queued-prompt gate cannot disagree: for a marker minted from `source`,
    verification accepts exactly when the claim of `source` would be accepted.
  */
  lemma GatesAgree(source: Binding, b: Binding, now: int)
    requires source.epoch >= 0 && b.epoch >= 0 && source.targetKey != ""
    ensures VerifyBoundTo(BoundToMarker(source), Some(b), now) == Ok
       <==> CheckQueuedPrompt(ClaimOf(source), Some(b), now) == Ok
  {
    MarkerInjective(source, b);
  }

  /** The binding still claims its target: it is pinned, whatever its state, or alive and not lapsed. */
  predicate BlocksTarget(b: Binding, now: int) {
    IsPinned(b) || (!IsTerminal(b) && !IsExpired(b, now))
  }
}
