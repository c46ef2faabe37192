/** Immutable observation revisions, their stream heads, and tombstones inferred from full snapshots.
    The lease check that guards every operation here is applied in Store. */
module Revisions {
  import opened Base
  import opened Jobs
  import opened Leases

  /** One record stream; the key hash is represented by the key. */
  datatype Stream = Stream(datasource: string, lane: Lane, keyVersion: string, key: string)

  datatype Action = Upsert | Tombstone

  datatype Envelope = Envelope(recordType: string, details: string, payload: string)

  /** The preimage of `record_hash`. An upsert's digest leaves the snapshot scope out. */
  datatype Digest = Digest(version: nat, action: Action, envelope: Envelope, scope: Option<string>)

  datatype Revision = Revision(
    stream: Stream, no: nat, action: Action, digest: Digest, scope: Option<string>, supersedes: Option<Id>)

  datatype Head = Head(observation: Id, digest: Digest, no: nat, action: Action)

  /** The snapshot and counter columns of `ingestion_run`. */
  datatype RunMeta = RunMeta(scope: Option<string>, complete: bool, recordCount: nat)

  /** `observation_revision` with its unique index (stream, revision_no), `record_stream_head`,
      `run_observation`, the run columns above, and `run_evidence` with its required flag. */
  datatype Obs = Obs(
    revisions: map<Id, Revision>, revisionAt: map<(Stream, nat), Id>, heads: map<Stream, Head>,
    links: map<Id, set<Id>>, meta: map<Id, RunMeta>, evidence: map<Id, map<Id, bool>>)

  datatype Proof = Proof(complete: bool, scope: Option<string>, hasSchemaVersion: bool)

  const EMPTY_OBS := Obs(map[], map[], map[], map[], map[], map[])

  function Meta(o: Obs, run: Id): RunMeta {
    if run in o.meta then o.meta[run] else RunMeta(None, false, 0)
  }

  function Links(o: Obs, run: Id): set<Id> {
    if run in o.links then o.links[run] else {}
  }

  function Evidence(o: Obs, run: Id): map<Id, bool> {
    if run in o.evidence then o.evidence[run] else map[]
  }

  // ---------------------------------------------------------------- operations

  function Append(o: Obs, id: Id, r: Revision): Obs {
    o.(revisions := o.revisions[id := r],
       revisionAt := o.revisionAt[(r.stream, r.no) := id],
       heads := o.heads[r.stream := Head(id, r.digest, r.no, r.action)])
  }

  /** `INSERT OR IGNORE INTO run_observation`, counting the row only when it is new and `running`, the
      guard `status = 'running'` on the run's own row. */
  function Link(o: Obs, run: Id, id: Id, running: bool): Obs {
    if id in Links(o, run) then o
    else
      var linked := o.(links := o.links[run := Links(o, run) + {id}]);
      if running then linked.(meta := o.meta[run := Meta(o, run).(recordCount := Meta(o, run).recordCount + 1)])
      else linked
  }

  /** The evidence rows of `persist_evidence`. */
  function PersistEvidence(o: Obs, run: Id, id: Id, required: bool): Obs {
    o.(evidence := o.evidence[run := Evidence(o, run)[id := required]])
  }

  function StreamOf(h: RunHandle, d: Definition, key: string): Stream {
    Stream(h.datasource, h.lane, d.keyVersion, key)
  }

  function UpsertDigest(h: RunHandle, e: Envelope): Digest {
    Digest(h.version, Upsert, e, None)
  }

  predicate Reuses(o: Obs, s: Stream, digest: Digest) {
    s in o.heads && o.heads[s].digest == digest && o.heads[s].action.Upsert?
  }

  function NextRevision(o: Obs, s: Stream, action: Action, digest: Digest, scope: Option<string>): Revision {
    if s in o.heads then Revision(s, o.heads[s].no + 1, action, digest, scope, Some(o.heads[s].observation))
    else Revision(s, 1, action, digest, scope, None)
  }

  /** `persist_observation` behind its lease check: reuse the head when it is the same upsert,
      otherwise append a revision; attach it to the run either way. */
  function Persist(o: Obs, h: RunHandle, d: Definition, key: string, e: Envelope, evidence: set<Id>, id: Id,
                   running: bool)
    : (Obs, Result<Id>)
  {
    if evidence == {} || !(evidence <= Evidence(o, h.run).Keys) then (o, Err(EvidenceMissing))
    else if d.fullSnapshot && Meta(o, h.run).scope.None? then (o, Err(ScopeMissing))
    else
      var s := StreamOf(h, d, key);
      if Reuses(o, s, UpsertDigest(h, e)) then
        (Link(o, h.run, o.heads[s].observation, running), Ok(o.heads[s].observation))
      else
        var r := NextRevision(o, s, Upsert, UpsertDigest(h, e), Meta(o, h.run).scope);
        (Link(Append(o, id, r), h.run, id, running), Ok(id))
  }

  /** `begin_full_snapshot` */
  function BeginSnapshot(o: Obs, h: RunHandle, d: Definition, scope: string, running: bool): (Obs, Result<()>) {
    if !d.fullSnapshot then (o, Err(NotPermitted))
    else if !running || Meta(o, h.run).scope.Some? then (o, Err(ScopeAlreadySet))
    else (o.(meta := o.meta[h.run := Meta(o, h.run).(scope := Some(scope), complete := false)]), Ok(()))
  }

  /** The keys that the run's own rows show as present. */
  function Seen(o: Obs, run: Id): set<string> {
    set id | id in Links(o, run) && id in o.revisions && o.revisions[id].action.Upsert? :: o.revisions[id].stream.key
  }

  /** A head that a snapshot of `scope` is entitled to judge. */
  predicate InScope(o: Obs, h: RunHandle, d: Definition, scope: string, s: Stream) {
    && s in o.heads
    && s.datasource == h.datasource && s.lane == h.lane && s.keyVersion == d.keyVersion
    && o.heads[s].action.Upsert?
    && o.heads[s].observation in o.revisions
    && o.revisions[o.heads[s].observation].scope == Some(scope)
  }

  /** The heads a complete snapshot proves gone. */
  function Missing(o: Obs, h: RunHandle, d: Definition, scope: string): set<Stream> {
    set s | s in o.heads && InScope(o, h, d, scope, s) && s.key !in Seen(o, h.run)
  }

  function TombstoneDigest(h: RunHandle, e: Envelope, scope: string): Digest {
    Digest(h.version, Tombstone, e.(payload := "{}"), Some(scope))
  }

  function TombstoneOne(o: Obs, h: RunHandle, scope: string, s: Stream, id: Id): Obs {
    var e := if s in o.heads then o.heads[s].digest.envelope else Envelope("", "", "");
    Link(Append(o, id, NextRevision(o, s, Tombstone, TombstoneDigest(h, e, scope), Some(scope))), h.run, id, true)
  }

  /** The tombstones in the order the heads were read; `plan` pairs each stream with its new id. */
  function TombstoneAll(o: Obs, h: RunHandle, scope: string, plan: seq<(Stream, Id)>): Obs {
    if plan == [] then o
    else
      var last := plan[|plan| - 1];
      TombstoneOne(TombstoneAll(o, h, scope, plan[..|plan| - 1]), h, scope, last.0, last.1)
  }

  predicate ProofAccepted(p: Proof, scope: string) {
    p.complete && p.scope == Some(scope) && p.hasSchemaVersion
  }

  predicate HasRequiredEvidence(o: Obs, run: Id) {
    exists e :: e in Evidence(o, run) && Evidence(o, run)[e]
  }

  /** `finalize_full_snapshot` behind its lease check. */
  function Finalize(o: Obs, h: RunHandle, d: Definition, p: Proof, plan: seq<(Stream, Id)>, running: bool)
    : (Obs, Result<()>)
  {
    if !d.fullSnapshot then (o, Err(NotPermitted))
    else if !running || Meta(o, h.run).scope.None? then (o, Err(ScopeMissing))
    else if !ProofAccepted(p, Meta(o, h.run).scope.value) then (o, Err(ProofRejected))
    else if !HasRequiredEvidence(o, h.run) then (o, Err(EvidenceMissing))
    else
      var o1 := TombstoneAll(o, h, Meta(o, h.run).scope.value, plan);
      (o1.(meta := o1.meta[h.run := Meta(o1, h.run).(complete := true)]), Ok(()))
  }

  function PlanStreams(plan: seq<(Stream, Id)>): set<Stream> {
    if plan == [] then {} else PlanStreams(plan[..|plan| - 1]) + {plan[|plan| - 1].0}
  }

  function PlanIds(plan: seq<(Stream, Id)>): set<Id> {
    if plan == [] then {} else PlanIds(plan[..|plan| - 1]) + {plan[|plan| - 1].1}
  }

  /** A plan names live heads, each once, with distinct new ids. */
  predicate PlanOk(o: Obs, plan: seq<(Stream, Id)>) {
    plan != [] ==>
      var rest, s, id := plan[..|plan| - 1], plan[|plan| - 1].0, plan[|plan| - 1].1;
      && PlanOk(o, rest)
      && s in o.heads && o.heads[s].action.Upsert? && s !in PlanStreams(rest)
      && id !in o.revisions && id !in PlanIds(rest)
  }

  lemma NoPlan(o: Obs)
    ensures PlanOk(o, []) && PlanStreams([]) == {} && PlanIds([]) == {}
  {
  }

  lemma NoTombstones(o: Obs, h: RunHandle, scope: string)
    ensures TombstoneAll(o, h, scope, []) == o
  {
  }

  // ---------------------------------------------------------------- the invariant

  type Revs = map<Id, Revision>
  type Index = map<(Stream, nat), Id>
  type Heads = map<Stream, Head>

  /** Each head row is the last revision of its stream. */
  ghost predicate HeadsOk(heads: Heads, at: Index, revs: Revs) {
    forall s :: s in heads ==> HeadOk(heads[s], at, revs, s)
  }

  predicate HeadOk(head: Head, at: Index, revs: Revs, s: Stream) {
    && head.no >= 1
    && (s, head.no) in at && at[(s, head.no)] == head.observation
    && head.observation in revs
    && revs[head.observation].digest == head.digest
    && revs[head.observation].action == head.action
  }

  /** Revision numbers of a stream are exactly 1..n, and the index names each revision once. */
  ghost predicate NumbersOk(heads: Heads, at: Index, revs: Revs) {
    && (forall s, k: nat :: s in heads && 1 <= k <= heads[s].no ==> (s, k) in at)
    && (forall sk :: sk in at ==> IndexOk(heads, at, revs, sk))
    && (forall id :: id in revs ==> (revs[id].stream, revs[id].no) in at && at[(revs[id].stream, revs[id].no)] == id)
  }

  predicate IndexOk(heads: Heads, at: Index, revs: Revs, sk: (Stream, nat))
    requires sk in at
  {
    && sk.0 in heads && 1 <= sk.1 <= heads[sk.0].no
    && at[sk] in revs && revs[at[sk]].stream == sk.0 && revs[at[sk]].no == sk.1
  }

  /** Neighbouring revisions never repeat an upsert and never stack tombstones. */
  predicate Differs(older: Revision, newer: Revision) {
    && !(older.action.Upsert? && newer.action.Upsert? && older.digest == newer.digest)
    && !(older.action.Tombstone? && newer.action.Tombstone?)
  }

  /** A revision supersedes exactly the one numbered just before it. */
  predicate ChainedTo(at: Index, revs: Revs, r: Revision) {
    if r.no <= 1 then r.supersedes.None?
    else
      && (r.stream, r.no - 1) in at
      && r.supersedes == Some(at[(r.stream, r.no - 1)])
      && at[(r.stream, r.no - 1)] in revs
      && Differs(revs[at[(r.stream, r.no - 1)]], r)
  }

  ghost predicate ChainOk(at: Index, revs: Revs) {
    forall id :: id in revs ==> ChainedTo(at, revs, revs[id])
  }

  /** record_count equals the number of linked observations, run by run. */
  ghost predicate CountsOk(o: Obs) {
    && (forall run :: Meta(o, run).recordCount == |Links(o, run)|)
    && (forall run :: Links(o, run) <= o.revisions.Keys)
  }

  ghost predicate StreamsOk(o: Obs) {
    && HeadsOk(o.heads, o.revisionAt, o.revisions)
    && NumbersOk(o.heads, o.revisionAt, o.revisions)
    && ChainOk(o.revisionAt, o.revisions)
    && CountsOk(o)
  }

  /** The append-only history that the head table caches the end of. */
  ghost function History(o: Obs, s: Stream): seq<Revision>
    requires NumbersOk(o.heads, o.revisionAt, o.revisions)
  {
    HistoryOf(o.heads, o.revisionAt, o.revisions, s)
  }

  ghost function HistoryOf(heads: Heads, at: Index, revs: Revs, s: Stream): seq<Revision>
    requires NumbersOk(heads, at, revs)
  {
    if s in heads
    then seq(heads[s].no, k requires 0 <= k < heads[s].no => RevisionAt(heads, at, revs, s, k + 1))
    else []
  }

  ghost function RevisionAt(heads: Heads, at: Index, revs: Revs, s: Stream, no: nat): Revision
    requires NumbersOk(heads, at, revs) && s in heads && 1 <= no <= heads[s].no
  {
    assert (s, no) in at && IndexOk(heads, at, revs, (s, no));
    revs[at[(s, no)]]
  }

  // ---------------------------------------------------------------- proofs

  /** The row that `Append` adds fits the stream it extends. */
  ghost predicate Fits(heads: Heads, revs: Revs, id: Id, r: Revision) {
    && id !in revs
    && (if r.stream in heads then
          && r.no == heads[r.stream].no + 1
          && r.supersedes == Some(heads[r.stream].observation)
          && heads[r.stream].observation in revs
          && Differs(revs[heads[r.stream].observation], r)
        else r.no == 1 && r.supersedes.None?)
  }

  lemma AppendHeads(heads: Heads, at: Index, revs: Revs, id: Id, r: Revision)
    requires HeadsOk(heads, at, revs) && Fits(heads, revs, id, r)
    ensures HeadsOk(heads[r.stream := Head(id, r.digest, r.no, r.action)], at[(r.stream, r.no) := id], revs[id := r])
  {
    var heads' := heads[r.stream := Head(id, r.digest, r.no, r.action)];
    forall s | s in heads'
      ensures HeadOk(heads'[s], at[(r.stream, r.no) := id], revs[id := r], s)
    {
      if s != r.stream {
        assert HeadOk(heads[s], at, revs, s);
      }
    }
  }

  lemma AppendNumbers(heads: Heads, at: Index, revs: Revs, id: Id, r: Revision)
    requires NumbersOk(heads, at, revs) && Fits(heads, revs, id, r)
    ensures NumbersOk(heads[r.stream := Head(id, r.digest, r.no, r.action)], at[(r.stream, r.no) := id], revs[id := r])
  {
    var heads' := heads[r.stream := Head(id, r.digest, r.no, r.action)];
    var at', revs' := at[(r.stream, r.no) := id], revs[id := r];
    assert (r.stream, r.no) in at ==> IndexOk(heads, at, revs, (r.stream, r.no));
    forall sk | sk in at'
      ensures IndexOk(heads', at', revs', sk)
    {
      if sk != (r.stream, r.no) {
        assert IndexOk(heads, at, revs, sk);
      }
    }
  }

  lemma AppendChain(heads: Heads, at: Index, revs: Revs, id: Id, r: Revision)
    requires HeadsOk(heads, at, revs) && NumbersOk(heads, at, revs) && ChainOk(at, revs) && Fits(heads, revs, id, r)
    ensures ChainOk(at[(r.stream, r.no) := id], revs[id := r])
  {
    var at', revs' := at[(r.stream, r.no) := id], revs[id := r];
    assert r.stream in heads ==> HeadOk(heads[r.stream], at, revs, r.stream);
    hide HeadsOk;
    forall x | x in revs
      ensures ChainedTo(at', revs', revs[x])
    {
      assert ChainedTo(at, revs, revs[x]) && IndexOk(heads, at, revs, (revs[x].stream, revs[x].no));
      OldLinkKept(heads, at, revs, id, r, revs[x]);
    }
    NewLink(heads, at, revs, id, r);
    hide NumbersOk, ChainedTo;
  }

  /** An earlier revision keeps the predecessor it had. */
  lemma OldLinkKept(heads: Heads, at: Index, revs: Revs, id: Id, r: Revision, x: Revision)
    requires ChainedTo(at, revs, x) && (x.stream, x.no) in at && IndexOk(heads, at, revs, (x.stream, x.no))
             && Fits(heads, revs, id, r)
    ensures ChainedTo(at[(r.stream, r.no) := id], revs[id := r], x)
  {
  }

  /** The new revision supersedes the old head. */
  lemma NewLink(heads: Heads, at: Index, revs: Revs, id: Id, r: Revision)
    requires Fits(heads, revs, id, r) && (r.stream in heads ==> HeadOk(heads[r.stream], at, revs, r.stream))
    ensures ChainedTo(at[(r.stream, r.no) := id], revs[id := r], r)
  {
  }

  lemma AppendHistoryOf(heads: Heads, at: Index, revs: Revs, id: Id, r: Revision, s: Stream)
    requires NumbersOk(heads, at, revs) && Fits(heads, revs, id, r)
    requires NumbersOk(heads[r.stream := Head(id, r.digest, r.no, r.action)], at[(r.stream, r.no) := id], revs[id := r])
    ensures HistoryOf(heads[r.stream := Head(id, r.digest, r.no, r.action)], at[(r.stream, r.no) := id],
                      revs[id := r], s)
         == HistoryOf(heads, at, revs, s) + (if s == r.stream then [r] else [])
  {
    if s in heads {
      forall k: nat | 1 <= k <= heads[s].no
        ensures (s, k) in at && at[(s, k)] != id
      {
        assert IndexOk(heads, at, revs, (s, k));
      }
    }
    hide NumbersOk;
  }

  lemma AppendGrows(o: Obs, id: Id, r: Revision)
    requires NumbersOk(o.heads, o.revisionAt, o.revisions) && Fits(o.heads, o.revisions, id, r)
    requires var o' := Append(o, id, r); NumbersOk(o'.heads, o'.revisionAt, o'.revisions)
    ensures GrowsBy(o, Append(o, id, r), r.stream, [r])
  {
    hide NumbersOk, HistoryOf;
    forall s
      ensures History(Append(o, id, r), s) == History(o, s) + (if s == r.stream then [r] else [])
    {
      AppendHistoryOf(o.heads, o.revisionAt, o.revisions, id, r, s);
    }
  }

  lemma AppendOk(o: Obs, id: Id, r: Revision)
    requires StreamsOk(o) && Fits(o.heads, o.revisions, id, r)
    ensures StreamsOk(Append(o, id, r))
    ensures GrowsBy(o, Append(o, id, r), r.stream, [r])
  {
    hide HeadsOk, NumbersOk, ChainOk, Fits, GrowsBy;
    AppendHeads(o.heads, o.revisionAt, o.revisions, id, r);
    AppendNumbers(o.heads, o.revisionAt, o.revisions, id, r);
    AppendChain(o.heads, o.revisionAt, o.revisions, id, r);
    AppendGrows(o, id, r);
    var o' := Append(o, id, r);
    assert forall run :: Meta(o', run) == Meta(o, run) && Links(o', run) == Links(o, run);
  }

  /** Linking touches neither revisions nor heads and keeps the count exact. */
  lemma LinkOk(o: Obs, run: Id, id: Id)
    requires StreamsOk(o) && id in o.revisions
    ensures var o' := Link(o, run, id, true);
            && StreamsOk(o') && o'.revisions == o.revisions && o'.heads == o.heads && o'.revisionAt == o.revisionAt
            && (forall r :: Links(o', r) == if r == run then Links(o, r) + {id} else Links(o, r))
  {
    hide HeadsOk, NumbersOk, ChainOk;
    var o' := Link(o, run, id, true);
    assert Links(o', run) == Links(o, run) + {id};
    forall r
      ensures Meta(o', r).recordCount == |Links(o', r)| && Links(o', r) <= o'.revisions.Keys
    {
      assert Meta(o, r).recordCount == |Links(o, r)|;
    }
  }

  /** What one change does to the histories: at most one stream grows, by the given tail. */
  ghost predicate GrowsBy(o: Obs, o': Obs, s: Stream, tail: seq<Revision>)
    requires NumbersOk(o.heads, o.revisionAt, o.revisions) && NumbersOk(o'.heads, o'.revisionAt, o'.revisions)
  {
    && History(o', s) == History(o, s) + tail
    && (forall x :: x != s ==> History(o', x) == History(o, x))
  }

  lemma SameHistories(o: Obs, o': Obs, s: Stream)
    requires NumbersOk(o.heads, o.revisionAt, o.revisions)
    requires o'.heads == o.heads && o'.revisionAt == o.revisionAt && o'.revisions == o.revisions
    ensures GrowsBy(o, o', s, [])
  {
    hide NumbersOk;
    assert forall x :: History(o', x) == History(o, x);
  }

  /** Persisting an observation either reuses the stream's last revision, leaving every history as it
      was, or appends one upsert to exactly that stream; the answered id is then the stream's head. */
  lemma PersistRefinesHistory(o: Obs, h: RunHandle, d: Definition, key: string, e: Envelope, evidence: set<Id>, id: Id)
    requires StreamsOk(o) && id !in o.revisions
    ensures var (o', r) := Persist(o, h, d, key, e, evidence, id, true);
            var s := StreamOf(h, d, key);
            && StreamsOk(o')
            && (r.Ok? <==> evidence != {} && evidence <= Evidence(o, h.run).Keys
                           && (d.fullSnapshot ==> Meta(o, h.run).scope.Some?))
            && (r.Err? ==> o' == o)
            && (r.Ok? ==>
                  && s in o'.heads && o'.heads[s].observation == r.value && r.value in o'.revisions
                  && o'.heads[s].action.Upsert? && o'.heads[s].digest == UpsertDigest(h, e)
                  && r.value in Links(o', h.run)
                  && (!Reuses(o, s, UpsertDigest(h, e)) ==>
                        r.value == id && o'.revisions[id].scope == Meta(o, h.run).scope)
                  && GrowsBy(o, o', s, if Reuses(o, s, UpsertDigest(h, e)) then [] else [o'.revisions[r.value]]))
  {
    hide NumbersOk, ChainOk, CountsOk, GrowsBy;
    var (o', r) := Persist(o, h, d, key, e, evidence, id, true);
    var s := StreamOf(h, d, key);
    if r.Ok? {
      assert s in o.heads ==> HeadOk(o.heads[s], o.revisionAt, o.revisions, s);
      hide HeadsOk;
      if Reuses(o, s, UpsertDigest(h, e)) {
        LinkOk(o, h.run, o.heads[s].observation);
        SameHistories(o, o', s);
      } else {
        var rev := NextRevision(o, s, Upsert, UpsertDigest(h, e), Meta(o, h.run).scope);
        AppendOk(o, id, rev);
        LinkOk(Append(o, id, rev), h.run, id);
        GrowsThenSame(o, Append(o, id, rev), o', s, [rev]);
      }
    }
  }

  lemma HeadStream(o: Obs, s: Stream)
    requires StreamsOk(o) && s in o.heads
    ensures o.heads[s].observation in o.revisions && o.revisions[o.heads[s].observation].stream == s
  {
    hide ChainOk, CountsOk;
    assert HeadOk(o.heads[s], o.revisionAt, o.revisions, s);
    assert IndexOk(o.heads, o.revisionAt, o.revisions, (s, o.heads[s].no));
  }

  /** A key that a run has persisted counts as seen by it, so its own finalization cannot bury it: in no
      scope is the stream's head missing. */
  lemma PersistedIsSeen(o: Obs, h: RunHandle, d: Definition, key: string, e: Envelope, evidence: set<Id>, id: Id,
                        scope: string)
    requires StreamsOk(o) && id !in o.revisions && Persist(o, h, d, key, e, evidence, id, true).1.Ok?
    ensures var o' := Persist(o, h, d, key, e, evidence, id, true).0;
            key in Seen(o', h.run) && StreamOf(h, d, key) !in Missing(o', h, d, scope)
  {
    var (o', r) := Persist(o, h, d, key, e, evidence, id, true);
    PersistRefinesHistory(o, h, d, key, e, evidence, id);
    var s := StreamOf(h, d, key);
    HeadStream(o', s);
    assert HeadOk(o'.heads[s], o'.revisionAt, o'.revisions, s);
    hide HeadsOk, NumbersOk, ChainOk, CountsOk, Persist;
    assert o'.revisions[r.value].action.Upsert?;
  }

  /** Revisions are immutable: every one that exists stays under its id as it is. */
  ghost predicate RevisionsKept(o: Obs, o': Obs) {
    forall id :: id in o.revisions ==> id in o'.revisions && o'.revisions[id] == o.revisions[id]
  }

  lemma PersistKeepsRevisions(o: Obs, h: RunHandle, d: Definition, key: string, e: Envelope, evidence: set<Id>, id: Id)
    requires id !in o.revisions
    ensures var o' := Persist(o, h, d, key, e, evidence, id, true).0;
            && RevisionsKept(o, o')
            && (forall x :: x in o'.revisions && x !in o.revisions ==> x == id)
  {
  }

  /** What a run is known to have seen: nothing at first, and an accepted persist adds exactly its own key, for
      its own run, and nothing for any other. */
  lemma SeenAfterPersist(o: Obs, h: RunHandle, d: Definition, key: string, e: Envelope, evidence: set<Id>, id: Id,
                         run: Id, k: string)
    requires StreamsOk(o) && id !in o.revisions && Persist(o, h, d, key, e, evidence, id, true).1.Ok?
    ensures Seen(EMPTY_OBS, run) == {}
    ensures var o' := Persist(o, h, d, key, e, evidence, id, true).0;
            k in Seen(o', run) <==> k in Seen(o, run) || (run == h.run && k == key)
  {
    hide StreamsOk, Persist, Seen;
    assert Seen(EMPTY_OBS, run) == {} by { NothingSeen(run); }
    var (o', r) := Persist(o, h, d, key, e, evidence, id, true);
    PersistKeepsRevisions(o, h, d, key, e, evidence, id);
    PersistLinks(o, h, d, key, e, evidence, id);
    AnswerIsUpsert(o, h, d, key, e, evidence, id);
    LinksExist(o, run);
    SeenGrows(o, o', run, run == h.run, r.value, k);
  }

  lemma NothingSeen(run: Id)
    ensures Seen(EMPTY_OBS, run) == {}
  {
  }

  lemma LinksExist(o: Obs, run: Id)
    requires StreamsOk(o)
    ensures Links(o, run) <= o.revisions.Keys
  {
    hide HeadsOk, NumbersOk, ChainOk;
  }

  lemma AnswerIsUpsert(o: Obs, h: RunHandle, d: Definition, key: string, e: Envelope, evidence: set<Id>, id: Id)
    requires StreamsOk(o) && id !in o.revisions && Persist(o, h, d, key, e, evidence, id, true).1.Ok?
    ensures var (o', r) := Persist(o, h, d, key, e, evidence, id, true);
            && r.value in o'.revisions && o'.revisions[r.value].stream == StreamOf(h, d, key)
            && o'.revisions[r.value].action.Upsert? && o'.revisions[r.value].digest == UpsertDigest(h, e)
  {
    hide NumbersOk, ChainOk, CountsOk, Persist, GrowsBy;
    var (o', r) := Persist(o, h, d, key, e, evidence, id, true);
    var s := StreamOf(h, d, key);
    PersistRefinesHistory(o, h, d, key, e, evidence, id);
    HeadStream(o', s);
    assert HeadOk(o'.heads[s], o'.revisionAt, o'.revisions, s);
  }

  /** A run that links one more upsert has seen one more key. */
  lemma SeenGrows(o: Obs, o': Obs, run: Id, mine: bool, x: Id, k: string)
    requires Links(o, run) <= o.revisions.Keys && RevisionsKept(o, o')
    requires Links(o', run) == if mine then Links(o, run) + {x} else Links(o, run)
    requires x in o'.revisions && o'.revisions[x].action.Upsert?
    ensures k in Seen(o', run) <==> k in Seen(o, run) || (mine && k == o'.revisions[x].stream.key)
  {
    hide Links;
    if k in Seen(o, run) {
      var y :| y in Links(o, run) && y in o.revisions && o.revisions[y].action.Upsert?
               && o.revisions[y].stream.key == k;
      assert y in Links(o', run) && o'.revisions[y] == o.revisions[y];
    }
    if mine && k == o'.revisions[x].stream.key {
      assert x in Links(o', run);
    }
    if k in Seen(o', run) {
      var y :| y in Links(o', run) && y in o'.revisions && o'.revisions[y].action.Upsert?
               && o'.revisions[y].stream.key == k;
      assert y in Links(o, run) ==> y in o.revisions;
    }
  }

  lemma PersistLinks(o: Obs, h: RunHandle, d: Definition, key: string, e: Envelope, evidence: set<Id>, id: Id)
    requires Persist(o, h, d, key, e, evidence, id, true).1.Ok?
    ensures var (o', r) := Persist(o, h, d, key, e, evidence, id, true);
            forall run :: Links(o', run) == if run == h.run then Links(o, run) + {r.value} else Links(o, run)
  {
    var (o', r) := Persist(o, h, d, key, e, evidence, id, true);
    forall run
      ensures Links(o', run) == if run == h.run then Links(o, run) + {r.value} else Links(o, run)
    {
    }
  }

  /** A stream tells content apart: of two persists in a row on one stream, by whatever runs, the second is
      answered with the first one's revision exactly when it brings the same envelope of the same definition
      version; anything else becomes a revision of its own. */
  lemma PersistTwice(o: Obs, h: RunHandle, d: Definition, key: string, e: Envelope, evidence: set<Id>, id: Id,
                     h': RunHandle, d': Definition, e': Envelope, evidence': set<Id>, id': Id)
    requires StreamsOk(o) && id !in o.revisions && Persist(o, h, d, key, e, evidence, id, true).1.Ok?
    requires h'.datasource == h.datasource && h'.lane == h.lane && d'.keyVersion == d.keyVersion
    requires var o1 := Persist(o, h, d, key, e, evidence, id, true).0;
             id' !in o1.revisions && Persist(o1, h', d', key, e', evidence', id', true).1.Ok?
    ensures var (o1, r1) := Persist(o, h, d, key, e, evidence, id, true);
            var r2 := Persist(o1, h', d', key, e', evidence', id', true).1;
            && (r2.value == r1.value <==> e' == e && h'.version == h.version)
            && (r2.value != r1.value ==> r2.value == id')
  {
    hide StreamsOk, GrowsBy, Persist;
    var o1 := Persist(o, h, d, key, e, evidence, id, true).0;
    PersistRefinesHistory(o, h, d, key, e, evidence, id);
    PersistAnswers(o1, h', d', key, e', evidence', id');
  }

  lemma PersistAnswers(o: Obs, h: RunHandle, d: Definition, key: string, e: Envelope, evidence: set<Id>, id: Id)
    requires Persist(o, h, d, key, e, evidence, id, true).1.Ok?
    ensures Persist(o, h, d, key, e, evidence, id, true).1.value ==
              if Reuses(o, StreamOf(h, d, key), UpsertDigest(h, e)) then o.heads[StreamOf(h, d, key)].observation
              else id
  {
  }

  /** Streams are told apart by datasource, lane, key version and key, and by nothing else. */
  lemma StreamsApart(h: RunHandle, d: Definition, key: string, h': RunHandle, d': Definition, key': string)
    ensures StreamOf(h, d, key) == StreamOf(h', d', key') <==>
              h.datasource == h'.datasource && h.lane == h'.lane && d.keyVersion == d'.keyVersion && key == key'
  {
  }

  lemma GrowsThenSame(o: Obs, o1: Obs, o2: Obs, s: Stream, tail: seq<Revision>)
    requires NumbersOk(o.heads, o.revisionAt, o.revisions) && NumbersOk(o1.heads, o1.revisionAt, o1.revisions)
    requires GrowsBy(o, o1, s, tail)
    requires o2.heads == o1.heads && o2.revisionAt == o1.revisionAt && o2.revisions == o1.revisions
    ensures GrowsBy(o, o2, s, tail)
  {
    hide NumbersOk;
    assert forall x :: History(o2, x) == History(o1, x);
  }

  /** Changes to run columns or evidence alone leave revisions, heads and histories untouched. */
  lemma ColumnsOnly(o: Obs, o': Obs)
    requires StreamsOk(o) && o' == o.(meta := o'.meta, evidence := o'.evidence)
    requires forall r :: Meta(o', r).recordCount == Meta(o, r).recordCount
    ensures StreamsOk(o') && AppendOnly(o, o')
  {
    hide HeadsOk, NumbersOk, ChainOk, History;
    assert forall r :: Links(o', r) == Links(o, r);
    forall s
      ensures History(o', s) == History(o, s)
    {
      SameHistories(o, o', s);
    }
  }

  lemma BeginKeeps(o: Obs, h: RunHandle, d: Definition, scope: string)
    requires StreamsOk(o)
    ensures var (o', r) := BeginSnapshot(o, h, d, scope, true);
            && StreamsOk(o')
            && (r.Ok? <==> d.fullSnapshot && Meta(o, h.run).scope.None?)
            && (r.Err? ==> o' == o)
            && (r.Ok? ==>
                  && o' == o.(meta := o'.meta)
                  && Meta(o', h.run) == Meta(o, h.run).(scope := Some(scope), complete := false)
                  && forall run :: run != h.run ==> Meta(o', run) == Meta(o, run))
  {
    hide StreamsOk, AppendOnly;
    var (o', r) := BeginSnapshot(o, h, d, scope, true);
    if r.Ok? {
      ColumnsOnly(o, o');
    }
  }

  // ---------------------------------------------------------------- full snapshots

  /** A later state in which every stream's history only got longer. */
  ghost predicate AppendOnly(o: Obs, o': Obs)
    requires NumbersOk(o.heads, o.revisionAt, o.revisions) && NumbersOk(o'.heads, o'.revisionAt, o'.revisions)
  {
    forall s :: History(o, s) <= History(o', s)
  }

  /** Tombstoning one live head appends to its stream alone. */
  lemma TombstoneOneOk(o: Obs, h: RunHandle, scope: string, s: Stream, id: Id)
    requires StreamsOk(o) && s in o.heads && o.heads[s].action.Upsert? && id !in o.revisions
    ensures var o' := TombstoneOne(o, h, scope, s, id);
            && StreamsOk(o') && AppendOnly(o, o') && Buried(o, o', h.run, {s}, {id}, scope)
  {
    assert HeadOk(o.heads[s], o.revisionAt, o.revisions, s);
    assert Links(o, h.run) <= o.revisions.Keys;
    hide HeadsOk, NumbersOk, ChainOk, CountsOk, GrowsBy, AppendOnly, Buried, Fits, Link;
    var rev := NextRevision(o, s, Tombstone, TombstoneDigest(h, o.heads[s].digest.envelope, scope), Some(scope));
    var o1, o' := Append(o, id, rev), TombstoneOne(o, h, scope, s, id);
    FitsNext(o, s, id, rev);
    AppendOk(o, id, rev);
    LinkOk(o1, h.run, id);
    GrowsThenSame(o, o1, o', s, [rev]);
    GrowsAppendOnly(o, o', s, [rev]);
    TombstoneOneBuries(o, h, scope, s, id);
  }

  /** What a tombstone records: the next number of its stream, superseding the head it buries, under the declared scope
      and the run's definition version, with the head's envelope emptied of its payload. */
  lemma TombstoneRecords(o: Obs, h: RunHandle, scope: string, s: Stream, id: Id)
    requires s in o.heads
    ensures var o', head := TombstoneOne(o, h, scope, s, id), o.heads[s];
            var digest := Digest(h.version, Tombstone, head.digest.envelope.(payload := "{}"), Some(scope));
            && id in o'.revisions
            && o'.revisions[id] == Revision(s, head.no + 1, Tombstone, digest, Some(scope), Some(head.observation))
            && s in o'.heads && o'.heads[s] == Head(id, digest, head.no + 1, Tombstone)
  {
  }

  lemma FitsNext(o: Obs, s: Stream, id: Id, r: Revision)
    requires id !in o.revisions && r == NextRevision(o, s, r.action, r.digest, r.scope)
    requires s in o.heads ==> o.heads[s].observation in o.revisions && Differs(o.revisions[o.heads[s].observation], r)
    ensures Fits(o.heads, o.revisions, id, r)
  {
  }

  lemma TombstoneOneBuries(o: Obs, h: RunHandle, scope: string, s: Stream, id: Id)
    requires s in o.heads && id !in o.revisions && id !in Links(o, h.run)
    ensures Buried(o, TombstoneOne(o, h, scope, s, id), h.run, {s}, {id}, scope)
  {
  }

  lemma GrowsAppendOnly(o: Obs, o': Obs, s: Stream, tail: seq<Revision>)
    requires NumbersOk(o.heads, o.revisionAt, o.revisions) && NumbersOk(o'.heads, o'.revisionAt, o'.revisions)
    requires GrowsBy(o, o', s, tail)
    ensures AppendOnly(o, o')
  {
    hide NumbersOk, History;
  }

  lemma AppendOnlyTransitive(o: Obs, o1: Obs, o2: Obs)
    requires StreamsOk(o) && StreamsOk(o1) && StreamsOk(o2)
    requires AppendOnly(o, o1) && AppendOnly(o1, o2)
    ensures AppendOnly(o, o2)
  {
    hide HeadsOk, NumbersOk, ChainOk, CountsOk, History;
    forall s
      ensures History(o, s) <= History(o2, s)
    {
      assert History(o, s) <= History(o1, s) <= History(o2, s);
    }
  }

  /** Exactly the heads of `streams` are tombstoned, by new revisions `ids`; nothing else moved. */
  ghost predicate Buried(o: Obs, o': Obs, run: Id, streams: set<Stream>, ids: set<Id>, scope: string) {
    && BuriedHeads(o.heads, o'.heads, streams)
    && BuriedRevisions(o.revisions, o'.revisions, ids, scope)
    && (forall r :: Links(o', r) == if r == run then Links(o, r) + ids else Links(o, r))
  }

  ghost predicate BuriedHeads(heads: Heads, heads': Heads, streams: set<Stream>) {
    && heads'.Keys == heads.Keys
    && (forall s :: s in heads ==>
          if s in streams then heads'[s].action.Tombstone? && heads'[s].no == heads[s].no + 1
          else heads'[s] == heads[s])
  }

  ghost predicate BuriedRevisions(revs: Revs, revs': Revs, ids: set<Id>, scope: string) {
    && revs'.Keys == revs.Keys + ids
    && (forall id :: id in revs ==> revs'[id] == revs[id])
    && (forall id :: id in revs' && id !in revs ==> revs'[id].action.Tombstone? && revs'[id].scope == Some(scope))
  }

  lemma {:induction false} TombstoneAllOk(o: Obs, h: RunHandle, scope: string, plan: seq<(Stream, Id)>)
    requires StreamsOk(o) && PlanOk(o, plan)
    ensures var o' := TombstoneAll(o, h, scope, plan);
            StreamsOk(o') && AppendOnly(o, o') && Buried(o, o', h.run, PlanStreams(plan), PlanIds(plan), scope)
  {
    hide HeadsOk, NumbersOk, ChainOk, CountsOk, History;
    if plan == [] {
      assert o.revisions.Keys + {} == o.revisions.Keys;
    } else {
      var rest, s, id := plan[..|plan| - 1], plan[|plan| - 1].0, plan[|plan| - 1].1;
      var o1 := TombstoneAll(o, h, scope, rest);
      var o' := TombstoneOne(o1, h, scope, s, id);
      TombstoneAllOk(o, h, scope, rest);
      TombstoneOneOk(o1, h, scope, s, id);
      AppendOnlyTransitive(o, o1, o');
      hide AppendOnly, StreamsOk;
      BuriedStep(o, o1, o', h.run, PlanStreams(rest), PlanIds(rest), s, id, scope);
    }
  }

  lemma BuriedStep(o: Obs, o1: Obs, o2: Obs, run: Id, streams: set<Stream>, ids: set<Id>, s: Stream, id: Id,
                   scope: string)
    requires Buried(o, o1, run, streams, ids, scope) && Buried(o1, o2, run, {s}, {id}, scope) && s !in streams
    ensures Buried(o, o2, run, streams + {s}, ids + {id}, scope)
  {
    assert BuriedHeads(o.heads, o2.heads, streams + {s}) by {
      hide BuriedRevisions;
    }
    assert BuriedRevisions(o.revisions, o2.revisions, ids + {id}, scope) by {
      hide BuriedHeads;
    }
    hide BuriedHeads, BuriedRevisions;
    assert forall x: set<Id> :: x + ids + {id} == x + (ids + {id});
  }

  /** The keys any run saw do not change while one of them tombstones others. */
  lemma SeenKept(o: Obs, o': Obs, owner: Id, streams: set<Stream>, ids: set<Id>, scope: string, run: Id)
    requires StreamsOk(o) && Buried(o, o', owner, streams, ids, scope) && ids !! o.revisions.Keys
    ensures Seen(o', run) == Seen(o, run)
  {
    hide HeadsOk, NumbersOk, ChainOk, BuriedHeads;
    forall k
      ensures k in Seen(o', run) <==> k in Seen(o, run)
    {
      if k in Seen(o, run) {
        var id :| id in Links(o, run) && id in o.revisions && o.revisions[id].action.Upsert?
                  && o.revisions[id].stream.key == k;
        assert id in Links(o', run) && o'.revisions[id] == o.revisions[id];
      }
      if k in Seen(o', run) {
        var id :| id in Links(o', run) && id in o'.revisions && o'.revisions[id].action.Upsert?
                  && o'.revisions[id].stream.key == k;
        assert id in o.revisions && id in Links(o, run);
      }
    }
  }

  lemma {:induction false} PlanIdsNew(o: Obs, plan: seq<(Stream, Id)>)
    requires PlanOk(o, plan)
    ensures PlanIds(plan) !! o.revisions.Keys
  {
    if plan != [] {
      PlanIdsNew(o, plan[..|plan| - 1]);
    }
  }

  /** What an accepted finalization under `scope` leaves behind. */
  ghost predicate SnapshotExact(o: Obs, o': Obs, h: RunHandle, d: Definition, scope: string) {
    // every live head recorded under the scope is a key the run saw
    && (forall s :: InScope(o', h, d, scope, s) ==> s.key in Seen(o, h.run))
    // a head changed exactly when it was missing, to the next revision of its stream, a tombstone
    && BuriedHeads(o.heads, o'.heads, Missing(o, h, d, scope))
    // so no seen key and no head of another datasource, lane, key version or scope changed
    && (forall s :: s in o.heads && s in o'.heads && o'.heads[s] != o.heads[s] ==>
          && s.datasource == h.datasource && s.lane == h.lane && s.keyVersion == d.keyVersion
          && o.heads[s].observation in o.revisions && o.revisions[o.heads[s].observation].scope == Some(scope)
          && s.key !in Seen(o, h.run))
    // finalizing again at once would tombstone nothing
    && Missing(o', h, d, scope) == {}
  }

  /** Full-snapshot tombstones are exact: see `SnapshotExact`; and histories only ever grow. */
  lemma FinalizeExact(o: Obs, h: RunHandle, d: Definition, p: Proof, plan: seq<(Stream, Id)>)
    requires StreamsOk(o) && PlanOk(o, plan)
    requires Meta(o, h.run).scope.Some? ==> PlanStreams(plan) == Missing(o, h, d, Meta(o, h.run).scope.value)
    ensures var (o', r) := Finalize(o, h, d, p, plan, true);
            && StreamsOk(o') && AppendOnly(o, o')
            && (r.Ok? <==> && d.fullSnapshot && Meta(o, h.run).scope.Some?
                           && p.complete && p.scope == Meta(o, h.run).scope && p.hasSchemaVersion
                           && exists x :: x in Evidence(o, h.run) && Evidence(o, h.run)[x])
            && (r.Err? ==> o' == o)
            && (r.Ok? ==> SnapshotExact(o, o', h, d, Meta(o, h.run).scope.value) && Meta(o', h.run).complete)
  {
    hide StreamsOk, AppendOnly, TombstoneAll, PlanOk, Missing, SnapshotExact;
    var (o', r) := Finalize(o, h, d, p, plan, true);
    if r.Ok? {
      FinalizeAccepted(o, h, d, plan, Meta(o, h.run).scope.value, o');
    } else {
      SameAppends(o);
    }
  }

  lemma SameAppends(o: Obs)
    requires StreamsOk(o)
    ensures AppendOnly(o, o)
  {
    hide HeadsOk, NumbersOk, ChainOk, CountsOk, History;
  }

  lemma FinalizeAccepted(o: Obs, h: RunHandle, d: Definition, plan: seq<(Stream, Id)>, scope: string, o': Obs)
    requires StreamsOk(o) && PlanOk(o, plan) && PlanStreams(plan) == Missing(o, h, d, scope)
    requires var o1 := TombstoneAll(o, h, scope, plan);
             o' == o1.(meta := o1.meta[h.run := Meta(o1, h.run).(complete := true)])
    ensures StreamsOk(o') && AppendOnly(o, o') && SnapshotExact(o, o', h, d, scope) && Meta(o', h.run).complete
  {
    hide HeadsOk, NumbersOk, ChainOk, CountsOk, History, AppendOnly, TombstoneAll, PlanOk, Missing, SnapshotExact,
         BuriedHeads;
    var o1 := TombstoneAll(o, h, scope, plan);
    TombstoneAllOk(o, h, scope, plan);
    PlanIdsNew(o, plan);
    SeenKept(o, o1, h.run, PlanStreams(plan), PlanIds(plan), scope, h.run);
    BuriedExactly(o, o1, h, d, scope);
    hide Buried, BuriedRevisions;
    MetaOnly(o, o1, o');
    SnapshotExactSame(o, o1, o', h, d, scope);
  }

  lemma SnapshotExactSame(o: Obs, o1: Obs, o': Obs, h: RunHandle, d: Definition, scope: string)
    requires SnapshotExact(o, o1, h, d, scope) && o' == o1.(meta := o'.meta)
    ensures SnapshotExact(o, o', h, d, scope)
  {
    hide BuriedHeads;
    SameScope(o1, o', h, d, scope);
    hide Missing, InScope, Seen;
  }

  lemma SameScope(o: Obs, o': Obs, h: RunHandle, d: Definition, scope: string)
    requires o'.heads == o.heads && o'.revisions == o.revisions && o'.links == o.links
    ensures forall s :: InScope(o', h, d, scope, s) <==> InScope(o, h, d, scope, s)
    ensures Missing(o', h, d, scope) == Missing(o, h, d, scope)
  {
    assert Seen(o', h.run) == Seen(o, h.run);
  }

  lemma MetaOnly(o: Obs, o1: Obs, o': Obs)
    requires StreamsOk(o) && StreamsOk(o1) && AppendOnly(o, o1)
    requires o' == o1.(meta := o'.meta) && forall r :: Meta(o', r).recordCount == Meta(o1, r).recordCount
    ensures StreamsOk(o') && AppendOnly(o, o')
  {
    hide HeadsOk, NumbersOk, ChainOk, History;
    assert forall r :: Links(o', r) == Links(o1, r);
    assert forall s :: History(o', s) == History(o1, s) by {
      forall s
        ensures History(o', s) == History(o1, s)
      {
        SameHistories(o1, o', s);
      }
    }
    assert AppendOnly(o, o') by {
      hide CountsOk;
      forall s
        ensures History(o, s) <= History(o', s)
      {
        assert History(o, s) <= History(o1, s);
      }
    }
  }

  lemma BuriedExactly(o: Obs, o': Obs, h: RunHandle, d: Definition, scope: string)
    requires StreamsOk(o) && BuriedHeads(o.heads, o'.heads, Missing(o, h, d, scope))
    requires Seen(o', h.run) == Seen(o, h.run)
    requires forall id :: id in o.revisions ==> id in o'.revisions && o'.revisions[id] == o.revisions[id]
    ensures SnapshotExact(o, o', h, d, scope)
  {
    hide NumbersOk, ChainOk, CountsOk, Seen;
    forall s | InScope(o', h, d, scope, s)
      ensures s.key in Seen(o, h.run)
    {
      LiveHeadIsSeen(o, o', h, d, scope, s);
    }
    hide HeadsOk;
    assert Missing(o', h, d, scope) == {};
    hide InScope, BuriedHeads;
    ChangedIsMissing(o, o', h, d, scope);
  }

  lemma LiveHeadIsSeen(o: Obs, o': Obs, h: RunHandle, d: Definition, scope: string, s: Stream)
    requires HeadsOk(o.heads, o.revisionAt, o.revisions) && BuriedHeads(o.heads, o'.heads, Missing(o, h, d, scope))
    requires forall id :: id in o.revisions ==> id in o'.revisions && o'.revisions[id] == o.revisions[id]
    requires InScope(o', h, d, scope, s)
    ensures s.key in Seen(o, h.run)
  {
    hide Seen;
    assert s !in Missing(o, h, d, scope);
    assert HeadOk(o.heads[s], o.revisionAt, o.revisions, s);
    assert InScope(o, h, d, scope, s);
  }

  lemma ChangedIsMissing(o: Obs, o': Obs, h: RunHandle, d: Definition, scope: string)
    requires BuriedHeads(o.heads, o'.heads, Missing(o, h, d, scope))
    ensures forall s :: s in o.heads && s in o'.heads && o'.heads[s] != o.heads[s] ==>
              && s.datasource == h.datasource && s.lane == h.lane && s.keyVersion == d.keyVersion
              && o.heads[s].observation in o.revisions && o.revisions[o.heads[s].observation].scope == Some(scope)
              && s.key !in Seen(o, h.run)
  {
    hide Seen;
    forall s | s in o.heads && s in o'.heads && o'.heads[s] != o.heads[s]
      ensures s in Missing(o, h, d, scope)
    {
    }
  }

  /** An upsert's digest leaves the scope out, so content first recorded under another scope keeps
      that scope when a snapshot sees it again: the later snapshot's scope does not own the head. */
  lemma ReusedHeadKeepsScope(o: Obs, h: RunHandle, d: Definition, key: string, e: Envelope, evidence: set<Id>, id: Id)
    requires StreamsOk(o) && id !in o.revisions
    requires Reuses(o, StreamOf(h, d, key), UpsertDigest(h, e)) && Persist(o, h, d, key, e, evidence, id, true).1.Ok?
    ensures var o', s := Persist(o, h, d, key, e, evidence, id, true).0, StreamOf(h, d, key);
            && o'.heads[s] == o.heads[s]
            && (forall scope :: InScope(o', h, d, scope, s) <==> InScope(o, h, d, scope, s))
  {
    assert HeadOk(o.heads[StreamOf(h, d, key)], o.revisionAt, o.revisions, StreamOf(h, d, key));
  }

  /** So a persisted key is under the run's declared scope exactly unless its content was reused from a
      revision recorded under another scope. */
  lemma JoinsScopeExactly(o: Obs, h: RunHandle, d: Definition, key: string, e: Envelope, evidence: set<Id>, id: Id,
                          scope: string)
    requires StreamsOk(o) && id !in o.revisions && Persist(o, h, d, key, e, evidence, id, true).1.Ok?
    requires Meta(o, h.run).scope == Some(scope)
    ensures var o', s := Persist(o, h, d, key, e, evidence, id, true).0, StreamOf(h, d, key);
            InScope(o', h, d, scope, s) <==>
              (Reuses(o, s, UpsertDigest(h, e)) ==>
                 o.heads[s].observation in o.revisions && o.revisions[o.heads[s].observation].scope == Some(scope))
  {
    var s := StreamOf(h, d, key);
    PersistRefinesHistory(o, h, d, key, e, evidence, id);
    assert s in o.heads ==> HeadOk(o.heads[s], o.revisionAt, o.revisions, s);
    if Reuses(o, s, UpsertDigest(h, e)) {
      ReusedHeadKeepsScope(o, h, d, key, e, evidence, id);
    }
    hide HeadsOk, NumbersOk, ChainOk, CountsOk, Persist, GrowsBy;
  }

  const NORTH := RunHandle(1, Lease(1, 1, 1), "d", 1, AdHocResearch)
  const SOUTH := RunHandle(2, Lease(2, 2, 2), "d", 1, AdHocResearch)

  /** The tables once a run of scope "north" has recorded one key. */
  function Recorded(d: Definition, e: Envelope): Obs {
    var o := BeginSnapshot(PersistEvidence(EMPTY_OBS, NORTH.run, 7, true), NORTH, d, "north", true).0;
    Persist(o, NORTH, d, "k", e, {7}, 21, true).0
  }

  lemma RecordedInNorth(d: Definition, e: Envelope)
    requires d.fullSnapshot
    ensures var o, s := Recorded(d, e), StreamOf(NORTH, d, "k");
            && s in o.heads && o.heads[s] == Head(21, UpsertDigest(NORTH, e), 1, Upsert)
            && 21 in o.revisions && o.revisions[21].scope == Some("north")
            && SOUTH.run !in o.meta && SOUTH.run !in o.evidence && SOUTH.run !in o.links
  {
  }

  /** The family is not empty: a run of scope "south" that sees what a run of scope "north" recorded leaves
      the head under "north", where its own finalization cannot judge it. */
  lemma ScopeStaysBehind(d: Definition, e: Envelope)
    requires d.fullSnapshot
    ensures var o := BeginSnapshot(PersistEvidence(Recorded(d, e), SOUTH.run, 8, true), SOUTH, d, "south", true).0;
            var (o', r) := Persist(o, SOUTH, d, "k", e, {8}, 22, true);
            var s := StreamOf(SOUTH, d, "k");
            && r == Ok(21) && Meta(o', SOUTH.run).scope == Some("south")
            && InScope(o', SOUTH, d, "north", s) && !InScope(o', SOUTH, d, "south", s)
  {
    hide Recorded;
    RecordedInNorth(d, e);
  }
}
