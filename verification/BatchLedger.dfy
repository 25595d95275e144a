/**
 The durable job ledger: insert-once rows, compare-and-swap on a revision, and ordered recovery
 pages (crates/voicetext-gateway/src/storage/postgres.rs and records.rs).

 The ledger is a linearizable map whose rows are never deleted.
 */
module BatchLedger {
  import opened Base
  import opened BatchDomain
  import opened BatchResults

  const MAX_RETRY_AFTER_MILLIS: nat := 3_600_000

  type Digest = string

  /** Name of a spool artifact: the job and the digest of the audio. */
  datatype Handle = Handle(job: JobId, digest: Digest)

  /** What admission fixes for the life of the row. */
  datatype Identity = Identity(
    profile: Profile,
    fingerprint: Fingerprint,
    audio: Handle,
    durationMillis: nat,
    keyterms: seq<string>)

  datatype Row = Row(
    identity: Identity,
    state: JobState,
    providerReference: Option<string>,
    retryAfterMillis: Option<nat>,
    result: Option<RecognitionResult>,
    revision: nat)

  type Ledger = map<JobId, Row>

  datatype InsertOutcome = Inserted(row: Row) | Existing(row: Row)

  datatype UpdateOutcome = Stored(row: Row) | RevisionConflict(row: Row) | Missing | Rejected

  function NewRow(identity: Identity): Row {
    Row(identity, Accepted, None, None, None, 0)
  }

  /** Record checks made before any statement is sent. */
  predicate Storable(id: JobId, row: Row) {
    && row.identity.audio.job == id
    && row.revision <= I64_MAX
    && (row.retryAfterMillis.Some? ==>
          row.state.Retryable? && row.retryAfterMillis.value <= MAX_RETRY_AFTER_MILLIS)
    && (row.result.Some? <==> row.state.Completed?)
    && (row.result.Some? ==>
          && row.result.value.profile == row.identity.profile
          && row.result.value.durationMillis == row.identity.durationMillis
          && row.result.value.providerReference == row.providerReference)
  }

  /** INSERT ... ON CONFLICT DO NOTHING, then the row as it stands. */
  function Insert(ledger: Ledger, id: JobId, identity: Identity): (Ledger, InsertOutcome) {
    if id in ledger then (ledger, Existing(ledger[id]))
    else (ledger[id := NewRow(identity)], Inserted(NewRow(identity)))
  }

  /** UPDATE ... WHERE revision and the whole immutable identity still match. */
  function CompareAndSwap(ledger: Ledger, id: JobId, expected: nat, replacement: Row): (Ledger, UpdateOutcome) {
    if replacement.revision != expected || !Storable(id, replacement) then
      (ledger, Rejected)
    else if id !in ledger then
      (ledger, Missing)
    else if ledger[id].revision != expected then
      (ledger, RevisionConflict(ledger[id]))
    else if ledger[id].identity != replacement.identity then
      (ledger, Rejected)
    else
      var stored := replacement.(revision := expected + 1);
      (ledger[id := stored], Stored(stored))
  }

  // ---- what every reachable row satisfies --------------------------------------------------

  /** Each accepted transition costs one revision, so the state fixes the revision exactly. */
  function RevisionOf(state: JobState): nat {
    if state.Submitting? then 2 * state.attempt - 1 else 2 * state.Attempts()
  }

  predicate RowOk(id: JobId, row: Row) {
    && row.identity.audio.job == id
    && row.revision == RevisionOf(row.state)
    && (row.retryAfterMillis.Some? ==>
          row.state.Retryable? && row.retryAfterMillis.value <= MAX_RETRY_AFTER_MILLIS)
    && (row.result.Some? <==> row.state.Completed?)
    && (row.result.Some? ==>
          && ValidResult(row.identity.profile, row.identity.durationMillis, row.result.value)
          && row.result.value.providerReference == row.providerReference)
  }

  predicate LedgerOk(ledger: Ledger) {
    forall id :: id in ledger ==> RowOk(id, ledger[id])
  }

  /** One ledger is a later version of another: rows stay, and only open rows move forward. */
  predicate Advances(before: Ledger, after: Ledger) {
    forall id :: id in before ==>
      && id in after
      && after[id].identity == before[id].identity
      && (after[id] == before[id] || (after[id].revision > before[id].revision && !before[id].state.IsTerminal()))
  }

  lemma {:induction false} AdvancesItself(ledger: Ledger)
    ensures Advances(ledger, ledger)
  {
  }

  lemma {:induction false} AdvancesTransitively(a: Ledger, b: Ledger, c: Ledger)
    requires Advances(a, b) && Advances(b, c)
    ensures Advances(a, c)
  {
  }

  /** A snapshot read at some time in the past: it can be behind the ledger, never beside it. */
  predicate SnapshotOf(ledger: Ledger, id: JobId, row: Row) {
    && RowOk(id, row)
    && id in ledger
    && row.identity == ledger[id].identity
    && row.revision <= ledger[id].revision
    && (row.revision == ledger[id].revision ==> row == ledger[id])
  }

  lemma {:induction false} SnapshotKept(before: Ledger, after: Ledger, id: JobId, row: Row)
    requires SnapshotOf(before, id, row) && Advances(before, after)
    ensures SnapshotOf(after, id, row)
  {
  }

  /** The revision tells how many submissions were begun. */
  lemma {:induction false} AttemptsFromRevision(row: Row, id: JobId)
    requires RowOk(id, row)
    ensures row.state.Attempts() == (row.revision + 1) / 2
    ensures row.revision % 2 == 1 <==> row.state.Submitting?
  {
  }

  /** A replacement made from a snapshot by one legal transition keeps the ledger well formed. */
  lemma {:induction false} SwapAdvances(ledger: Ledger, id: JobId, snapshot: Row, replacement: Row)
    requires LedgerOk(ledger) && SnapshotOf(ledger, id, snapshot)
    requires replacement.identity == snapshot.identity && replacement.revision == snapshot.revision
    requires Edge(snapshot.state, replacement.state)
    requires Storable(id, replacement) && replacement.result.Some? ==>
               ValidResult(replacement.identity.profile, replacement.identity.durationMillis, replacement.result.value)
    ensures var (after, outcome) := CompareAndSwap(ledger, id, snapshot.revision, replacement);
            && LedgerOk(after) && Advances(ledger, after)
            && (outcome.Stored? ==>
                  && ledger[id] == snapshot
                  && outcome.row == replacement.(revision := snapshot.revision + 1)
                  && after == ledger[id := outcome.row])
            && (!outcome.Stored? ==> after == ledger)
            && !outcome.Missing?
  {
  }

  // ---- recovery pages ----------------------------------------------------------------------

  predicate IsOpen(row: Row) {
    row.state.IsActionable() || row.state.Submitting?
  }

  predicate InWindow(after: Option<JobId>, through: JobId, id: JobId) {
    (after.Some? ==> after.value < id) && id <= through
  }

  predicate Listed(ledger: Ledger, after: Option<JobId>, through: JobId, id: JobId) {
    id in ledger && IsOpen(ledger[id]) && InWindow(after, through, id)
  }

  /** SELECT of the open rows in a half-open window, ordered by id, cut at a limit. */
  ghost predicate IsPage(ledger: Ledger, after: Option<JobId>, through: JobId, limit: nat, ids: seq<JobId>) {
    && |ids| <= limit
    && (forall i :: 0 <= i < |ids| ==> Listed(ledger, after, through, ids[i]))
    && (forall i, j :: 0 <= i < j < |ids| ==> ids[i] < ids[j])
    && (forall id :: Listed(ledger, after, through, id) && id !in ids ==>
          |ids| == limit && (forall i :: 0 <= i < |ids| ==> ids[i] < id))
  }

  /** The greatest open id, or nothing when no row is open. */
  ghost predicate IsHead(ledger: Ledger, head: Option<JobId>) {
    if head.None? then forall id :: id in ledger ==> !IsOpen(ledger[id])
    else
      && head.value in ledger && IsOpen(ledger[head.value])
      && (forall id :: id in ledger && IsOpen(ledger[id]) ==> id <= head.value)
  }

  method RecoveryHead(ledger: Ledger) returns (head: Option<JobId>)
    ensures IsHead(ledger, head)
  {
    head := None;
    var rest := ledger.Keys;
    while rest != {}
      invariant rest <= ledger.Keys
      invariant head.Some? ==> head.value in ledger && IsOpen(ledger[head.value])
      invariant forall id :: id in ledger && id !in rest && IsOpen(ledger[id]) ==> head.Some? && id <= head.value
    {
      var id :| id in rest;
      if IsOpen(ledger[id]) && (head.None? || head.value < id) {
        head := Some(id);
      }
      rest := rest - {id};
    }
  }

  method RecoveryPage(ledger: Ledger, after: Option<JobId>, through: JobId, limit: nat) returns (ids: seq<JobId>)
    ensures IsPage(ledger, after, through, limit, ids)
  {
    ids := [];
    var rest := set id | id in ledger && Listed(ledger, after, through, id);
    while |ids| < limit && rest != {}
      invariant |ids| <= limit
      invariant forall i :: 0 <= i < |ids| ==> Listed(ledger, after, through, ids[i])
      invariant forall i, j :: 0 <= i < j < |ids| ==> ids[i] < ids[j]
      invariant forall id :: id in rest ==> Listed(ledger, after, through, id)
      invariant forall id, i :: id in rest && 0 <= i < |ids| ==> ids[i] < id
      invariant forall id :: Listed(ledger, after, through, id) ==> id in ids || id in rest
      decreases limit - |ids|
    {
      var least := LeastOf(rest);
      ids := ids + [least];
      rest := rest - {least};
    }
  }

  method LeastOf(ids: set<JobId>) returns (least: JobId)
    requires ids != {}
    ensures least in ids && forall id :: id in ids ==> least <= id
  {
    var rest := ids;
    least :| least in rest;
    while rest != {}
      invariant rest <= ids && least in ids
      invariant forall id :: id in ids && id !in rest ==> least <= id
    {
      var id :| id in rest;
      if id < least {
        least := id;
      }
      rest := rest - {id};
    }
  }
}
