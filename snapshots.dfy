/**
 * The two Lambda handlers of snapshots.py. Each one lists resources through
 * the client, selects some of them in listing order and issues calls for
 * each; the calls are specified as functions of the listing, the clock
 * readings and the snapshot ids the service hands out.
 */
module Snapshots {
  import opened Options
  import opened Ec2
  import opened Tags
  import opened Clock
  import opened Naming
  import opened Selection

  /** DAYS_TO_KEEP */
  const DaysToKeep: int := 30

  /** has_backup_tag, as a selection over positions in the listing. */
  predicate MarkedForBackup(v: Volume, i: nat) {
    HasBackupTag(v)
  }

  /** Positions, in increasing order, of the volumes marked for backup. */
  function BackupIndices(vs: seq<Volume>): seq<nat> {
    Kept(vs, MarkedForBackup)
  }

  /** The positions are exactly those of the backup-tagged volumes, each once, in listing order. */
  lemma BackupIndicesSpec(vs: seq<Volume>)
    ensures forall j :: 0 <= j < |BackupIndices(vs)| ==> BackupIndices(vs)[j] < |vs| && HasBackupTag(vs[BackupIndices(vs)[j]])
    ensures forall j, l :: 0 <= j < l < |BackupIndices(vs)| ==> BackupIndices(vs)[j] < BackupIndices(vs)[l]
    ensures forall i :: 0 <= i < |vs| && HasBackupTag(vs[i]) ==> i in BackupIndices(vs)
  {
    KeptSpec(vs, MarkedForBackup);
  }

  /**
   * The two calls made for one backup-tagged volume: the snapshot, then its
   * Name tag, `stamp` being the `%Y%m%d%H%M%S` rendering of the clock reading.
   */
  function SnapshotCalls(v: Volume, stamp: string, snapshotId: string): seq<Call> {
    [Call.CreateSnapshot(v.volumeId, VolumeDesc(v)),
     Call.CreateTags([snapshotId], [Tag("Name", NameWithStamp(v, stamp))])]
  }

  /**
   * The calls for the k-th volume snapshotted: its name carries the stamp
   * `stamps(k)` and the tag goes on the id `issuedId(base + k)` that its
   * create call returned.
   */
  function SnapshotBatch(stamps: nat -> string, issuedId: nat -> string, base: nat): (Volume, nat) -> seq<Call> {
    (v: Volume, k: nat) => SnapshotCalls(v, stamps(k), issuedId(base + k))
  }

  /** The calls make_snapshots issues after listing `vs`. */
  function CreateCalls(vs: seq<Volume>, stamps: nat -> string, issuedId: nat -> string, base: nat): seq<Call> {
    Issued(vs, MarkedForBackup, SnapshotBatch(stamps, issuedId, base))
  }

  /**
   * make_snapshots issues two calls per backup-tagged volume, in listing
   * order: calls 2j and 2j + 1 are the SnapshotCalls of the j-th volume
   * marked for backup, made with the j-th stamp and the j-th id
   * handed out. Other volumes cause no call.
   */
  lemma CreateCallsSelection(vs: seq<Volume>, stamps: nat -> string, issuedId: nat -> string, base: nat)
    ensures |CreateCalls(vs, stamps, issuedId, base)| == 2 * |BackupIndices(vs)|
    ensures forall j :: 0 <= j < |BackupIndices(vs)| ==>
      && CreateCalls(vs, stamps, issuedId, base)[2 * j]
           == SnapshotCalls(vs[BackupIndices(vs)[j]], stamps(j), issuedId(base + j))[0]
      && CreateCalls(vs, stamps, issuedId, base)[2 * j + 1]
           == SnapshotCalls(vs[BackupIndices(vs)[j]], stamps(j), issuedId(base + j))[1]
  {
    SnapshotBatchPairs(stamps, issuedId, base);
    IssuedPairs(vs, MarkedForBackup, SnapshotBatch(stamps, issuedId, base));
    forall j | 0 <= j < |BackupIndices(vs)|
      ensures SnapshotBatch(stamps, issuedId, base)(vs[BackupIndices(vs)[j]], j)
        == SnapshotCalls(vs[BackupIndices(vs)[j]], stamps(j), issuedId(base + j))
    {
    }
  }

  /** Every batch of make_snapshots is two calls. */
  lemma SnapshotBatchPairs(stamps: nat -> string, issuedId: nat -> string, base: nat)
    ensures forall v: Volume, k: nat :: |SnapshotBatch(stamps, issuedId, base)(v, k)| == 2
  {
    forall v: Volume, k: nat ensures |SnapshotBatch(stamps, issuedId, base)(v, k)| == 2 {
      assert SnapshotBatch(stamps, issuedId, base)(v, k) == SnapshotCalls(v, stamps(k), issuedId(base + k));
    }
  }

  /** Extending the listing by one volume extends the calls by that volume's calls. */
  lemma CreateCallsStep(vs: seq<Volume>, i: nat, stamps: nat -> string, issuedId: nat -> string, base: nat)
    requires i < |vs|
    ensures |BackupIndices(vs[..i + 1])| == |BackupIndices(vs[..i])| + (if HasBackupTag(vs[i]) then 1 else 0)
    ensures CreateCalls(vs[..i + 1], stamps, issuedId, base) == CreateCalls(vs[..i], stamps, issuedId, base)
      + (if HasBackupTag(vs[i])
         then SnapshotCalls(vs[i], stamps(|BackupIndices(vs[..i])|), issuedId(base + |BackupIndices(vs[..i])|))
         else [])
  {
    IssuedStep(vs, i, MarkedForBackup, SnapshotBatch(stamps, issuedId, base));
  }

  /** No volume marked for backup, no call. */
  lemma NoBackupTagNoCalls(vs: seq<Volume>, stamps: nat -> string, issuedId: nat -> string, base: nat)
    requires forall i :: 0 <= i < |vs| ==> !HasBackupTag(vs[i])
    ensures CreateCalls(vs, stamps, issuedId, base) == []
  {
    NoneKeptNoneIssued(vs, MarkedForBackup, SnapshotBatch(stamps, issuedId, base));
  }

  /** A tagged volume named `db`, an untagged one and a tagged one without a Name tag. */
  function MixedVolumes(): seq<Volume> {
    [Volume("v-1", Some([Tag("Backup", "true"), Tag("Name", "db")])),
     Volume("v-9", Some([Tag("Name", "scratch")])),
     Volume("v-2", Some([Tag("Backup", "true")]))]
  }

  /** Which of MixedVolumes carry the backup tag. */
  lemma MixedVolumesTags()
    ensures HasBackupTag(MixedVolumes()[0]) && !HasBackupTag(MixedVolumes()[1]) && HasBackupTag(MixedVolumes()[2])
  {
  }

  /**
   * Of MixedVolumes the first and last are snapshotted, in that order (their
   * descriptions and names are those of `Naming.NamingExamples`).
   */
  lemma MakeSnapshotsScenario(stamps: nat -> string, issuedId: nat -> string)
    ensures CreateCalls(MixedVolumes(), stamps, issuedId, 0)
      == SnapshotCalls(MixedVolumes()[0], stamps(0), issuedId(0)) + SnapshotCalls(MixedVolumes()[2], stamps(1), issuedId(1))
  {
    var vs := MixedVolumes();
    MixedVolumesTags();
    assert vs[..0] == [] && vs[..3] == vs;
    CreateCallsStep(vs, 0, stamps, issuedId, 0);
    assert CreateCalls(vs[..1], stamps, issuedId, 0) == SnapshotCalls(vs[0], stamps(0), issuedId(0));
    CreateCallsStep(vs, 1, stamps, issuedId, 0);
    CreateCallsStep(vs, 2, stamps, issuedId, 0);
  }

  /** The stamps of successive clock readings. */
  function Stamps(clock: nat -> DateTime): nat -> string {
    (k: nat) => DateStamp(clock(k))
  }

  /** The body of make_snapshots' loop for one backup-tagged volume `v`, named at clock reading `clock(k)`. */
  method SnapshotVolume(client: Client, v: Volume, clock: nat -> DateTime, k: nat)
    modifies client
    ensures client.created == old(client.created) + 1
    ensures client.trace == old(client.trace) + SnapshotCalls(v, Stamps(clock)(k), client.issuedId(old(client.created)))
  {
    var snapshotId := client.CreateSnapshot(v.volumeId, VolumeDesc(v));
    var name := SnapshotName(v, clock(k));
    client.CreateTags([snapshotId], [Tag("Name", name)]);
  }

  /**
   * `make_snapshots(event, context)`; the event is not read. The k-th
   * snapshot is named at clock reading `clock(k)`.
   */
  method MakeSnapshots(client: Client, clock: nat -> DateTime)
    modifies client
    ensures client.trace == old(client.trace) + [Call.DescribeVolumes]
      + CreateCalls(client.volumes, Stamps(clock), client.issuedId, old(client.created))
    ensures client.created == old(client.created) + |BackupIndices(client.volumes)|
  {
    var vols := client.DescribeVolumes();
    ghost var start := client.trace;
    var base := client.created;
    var i, k := 0, 0;
    while i < |vols|
      invariant 0 <= i <= |vols| && vols == client.volumes
      invariant k == |BackupIndices(vols[..i])| && client.created == base + k
      invariant client.trace == start + CreateCalls(vols[..i], Stamps(clock), client.issuedId, base)
    {
      var v := vols[i];
      CreateCallsStep(vols, i, Stamps(clock), client.issuedId, base);
      if HasBackupTag(v) {
        SnapshotVolume(client, v, clock, k);
        k := k + 1;
      }
      i := i + 1;
    }
    assert vols[..i] == vols;
  }

  /** older_than(start_time, DAYS_TO_KEEP), snapshot i being judged at clock reading `clock(i)`. */
  function Expired(clock: nat -> int): (Snapshot, nat) -> bool {
    (s: Snapshot, i: nat) => OlderThan(clock(i), s.startTime, DaysToKeep)
  }

  /** The call made for one expired snapshot. */
  function Deletion(s: Snapshot, k: nat): seq<Call> {
    [Call.DeleteSnapshot(s.snapshotId)]
  }

  /** Positions, in increasing order, of the snapshots past the retention window. */
  function ExpiredIndices(ss: seq<Snapshot>, clock: nat -> int): seq<nat> {
    Kept(ss, Expired(clock))
  }

  /** The positions are exactly those of the expired snapshots, each once, in listing order. */
  lemma ExpiredIndicesSpec(ss: seq<Snapshot>, clock: nat -> int)
    ensures forall j :: 0 <= j < |ExpiredIndices(ss, clock)| ==>
      && ExpiredIndices(ss, clock)[j] < |ss|
      && OlderThan(clock(ExpiredIndices(ss, clock)[j]), ss[ExpiredIndices(ss, clock)[j]].startTime, DaysToKeep)
    ensures forall j, l :: 0 <= j < l < |ExpiredIndices(ss, clock)| ==> ExpiredIndices(ss, clock)[j] < ExpiredIndices(ss, clock)[l]
    ensures forall i :: 0 <= i < |ss| && OlderThan(clock(i), ss[i].startTime, DaysToKeep) ==> i in ExpiredIndices(ss, clock)
  {
    KeptSpec(ss, Expired(clock));
  }

  /** The calls delete_old_snapshots issues after listing `ss`. */
  function DeleteCalls(ss: seq<Snapshot>, clock: nat -> int): seq<Call> {
    Issued(ss, Expired(clock), Deletion)
  }

  /** delete_old_snapshots deletes exactly the expired snapshots, in listing order, and does nothing else. */
  lemma DeleteCallsSelection(ss: seq<Snapshot>, clock: nat -> int)
    ensures |DeleteCalls(ss, clock)| == |ExpiredIndices(ss, clock)|
    ensures forall j :: 0 <= j < |ExpiredIndices(ss, clock)| ==>
      DeleteCalls(ss, clock)[j] == Call.DeleteSnapshot(ss[ExpiredIndices(ss, clock)[j]].snapshotId)
  {
    IssuedSingles(ss, Expired(clock), Deletion);
  }

  /** With the clock at `now`, a 31-day-old snapshot is deleted and a 29-day-old one kept. */
  lemma RetentionScenario(clock: nat -> int, now: int)
    requires forall i :: clock(i) == now
    ensures DeleteCalls([Snapshot("snap-29", now - 29 * MicrosPerDay), Snapshot("snap-31", now - 31 * MicrosPerDay)], clock)
      == [Call.DeleteSnapshot("snap-31")]
  {
    var ss := [Snapshot("snap-29", now - 29 * MicrosPerDay), Snapshot("snap-31", now - 31 * MicrosPerDay)];
    OlderThanIff(clock(0), ss[0].startTime, DaysToKeep);
    OlderThanIff(clock(1), ss[1].startTime, DaysToKeep);
    assert ss[..0] == [] && ss[..2] == ss;
    DeleteCallsStep(ss, 0, clock);
    DeleteCallsStep(ss, 1, clock);
  }

  /** No snapshot past the retention window, no deletion. */
  lemma NothingExpiredNoDeletes(ss: seq<Snapshot>, clock: nat -> int)
    requires forall i :: 0 <= i < |ss| ==> !OlderThan(clock(i), ss[i].startTime, DaysToKeep)
    ensures DeleteCalls(ss, clock) == []
  {
    NoneKeptNoneIssued(ss, Expired(clock), Deletion);
  }

  /** Snapshots 3, 6 and 10 days older than `now`. */
  function RecentSnapshots(now: int): seq<Snapshot> {
    [Snapshot("s-3", now - 3 * MicrosPerDay), Snapshot("s-6", now - 6 * MicrosPerDay),
     Snapshot("s-10", now - 10 * MicrosPerDay)]
  }

  /**
   * An event asking for a 5-day window still gets the 30-day one: of
   * snapshots 3, 6 and 10 days old none is deleted.
   */
  lemma DaysKeyScenario(clock: nat -> int, now: int)
    requires forall i :: clock(i) == now
    ensures PruneCalls(map["account" := "123", "days" := "5"], RecentSnapshots(now), clock)
      == Some([Call.DescribeSnapshots(["123"])])
  {
    var ss := RecentSnapshots(now);
    forall i | 0 <= i < |ss| ensures !OlderThan(clock(i), ss[i].startTime, DaysToKeep) {
      OlderThanIff(clock(i), ss[i].startTime, DaysToKeep);
    }
    NothingExpiredNoDeletes(ss, clock);
    var event := map["account" := "123", "days" := "5"];
    assert "account" in event && event["account"] == "123";
    assert [Call.DescribeSnapshots(["123"])] + [] == [Call.DescribeSnapshots(["123"])];
  }

  /** Extending the listing by one snapshot extends the calls by that snapshot's deletion, if due. */
  lemma DeleteCallsStep(ss: seq<Snapshot>, i: nat, clock: nat -> int)
    requires i < |ss|
    ensures DeleteCalls(ss[..i + 1], clock) == DeleteCalls(ss[..i], clock)
      + (if OlderThan(clock(i), ss[i].startTime, DaysToKeep) then [Call.DeleteSnapshot(ss[i].snapshotId)] else [])
  {
    IssuedStep(ss, i, Expired(clock), Deletion);
  }

  /** Outcome of a handler: it ran, or it stopped at once on a missing event key. */
  datatype Outcome = Done | KeyError(key: string)

  /**
   * The calls of delete_old_snapshots for an event, or None when the event
   * has no `account` (the KeyError is raised before any call). The owner id
   * is the account, and no other event key is read.
   */
  function PruneCalls(event: map<string, string>, ss: seq<Snapshot>, clock: nat -> int): Option<seq<Call>> {
    if "account" in event then Some([Call.DescribeSnapshots([event["account"]])] + DeleteCalls(ss, clock))
    else None
  }

  /** The event's `days` key, or any key other than `account`, changes nothing. */
  lemma PruneIgnoresOtherKeys(event: map<string, string>, key: string, value: string, ss: seq<Snapshot>, clock: nat -> int)
    requires key != "account"
    ensures PruneCalls(event[key := value], ss, clock) == PruneCalls(event, ss, clock)
  {
  }

  /** The only mutating calls of delete_old_snapshots are delete_snapshot calls. */
  lemma {:induction false} PruneOnlyDeletes(event: map<string, string>, ss: seq<Snapshot>, clock: nat -> int)
    requires "account" in event
    ensures forall c :: c in PruneCalls(event, ss, clock).value && c.IsMutating() ==> c.DeleteSnapshot?
  {
    DeleteCallsSelection(ss, clock);
    var calls := DeleteCalls(ss, clock);
    assert forall c :: c in calls ==> c.DeleteSnapshot?;
  }

  /** `delete_old_snapshots(event, context)` */
  method DeleteOldSnapshots(client: Client, event: map<string, string>, clock: nat -> int) returns (outcome: Outcome)
    modifies client
    ensures outcome == (if "account" in event then Done else KeyError("account"))
    ensures client.created == old(client.created)
    ensures client.trace == old(client.trace)
      + match PruneCalls(event, client.snapshots, clock) case Some(calls) => calls case None => []
  {
    if "account" !in event {
      return KeyError("account");
    }
    var account := event["account"];
    var snaps := client.DescribeSnapshots([account]);
    ghost var start := client.trace;
    var i := 0;
    while i < |snaps|
      invariant 0 <= i <= |snaps| && snaps == client.snapshots
      invariant client.created == old(client.created)
      invariant client.trace == start + DeleteCalls(snaps[..i], clock)
    {
      DeleteCallsStep(snaps, i, clock);
      if OlderThan(clock(i), snaps[i].startTime, DaysToKeep) {
        client.DeleteSnapshot(snaps[i].snapshotId);
      }
      i := i + 1;
    }
    assert snaps[..i] == snaps;
    outcome := Done;
  }
}
