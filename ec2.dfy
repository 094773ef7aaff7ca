/**
 * The records the two handlers read from the EC2 API, and the client they
 * talk to. The client is not implemented here: it answers the list calls
 * with fixed listings, answers each create_snapshot call with the next of a
 * given supply of snapshot ids, and records every call in a trace.
 */
module Ec2 {
  import opened Options

  /** One `{'Key': ..., 'Value': ...}` record of a resource's `Tags` list. */
  datatype Tag = Tag(key: string, value: string)

  /** A volume as listed by describe_volumes; `tags` is `None` when the record has no `Tags` key. */
  datatype Volume = Volume(volumeId: string, tags: Option<seq<Tag>>)

  /** A snapshot as listed by describe_snapshots; `startTime` is an instant in microseconds. */
  datatype Snapshot = Snapshot(snapshotId: string, startTime: int)

  /** One call issued to the EC2 client, with the arguments the handlers pass. */
  datatype Call =
    | DescribeVolumes
    | CreateSnapshot(volumeId: string, description: string)
    | CreateTags(resources: seq<string>, tags: seq<Tag>)
    | DescribeSnapshots(ownerIds: seq<string>)
    | DeleteSnapshot(snapshotId: string)
  {
    /** True of the calls that change the account's state. */
    predicate IsMutating() {
      CreateSnapshot? || CreateTags? || DeleteSnapshot?
    }
  }

  /**
   * The EC2 client seen from the handlers: `volumes` and `snapshots` are
   * what the service lists, `issuedId(n)` is the SnapshotId the service
   * returns for the n-th create_snapshot call, `created` counts those calls
   * and `trace` holds every call issued, oldest first.
   */
  class Client {
    const volumes: seq<Volume>
    const snapshots: seq<Snapshot>
    const issuedId: nat -> string
    var created: nat
    var trace: seq<Call>

    constructor (volumes: seq<Volume>, snapshots: seq<Snapshot>, issuedId: nat -> string)
      ensures this.volumes == volumes && this.snapshots == snapshots && this.issuedId == issuedId
      ensures created == 0 && trace == []
    {
      this.volumes := volumes;
      this.snapshots := snapshots;
      this.issuedId := issuedId;
      created := 0;
      trace := [];
    }

    /** describe_volumes()['Volumes'] */
    method DescribeVolumes() returns (vs: seq<Volume>)
      modifies this
      ensures vs == volumes
      ensures created == old(created) && trace == old(trace) + [Call.DescribeVolumes]
    {
      vs := volumes;
      trace := trace + [Call.DescribeVolumes];
    }

    /** create_snapshot(VolumeId=..., Description=...)['SnapshotId'] */
    method CreateSnapshot(volumeId: string, description: string) returns (snapshotId: string)
      modifies this
      ensures snapshotId == issuedId(old(created))
      ensures created == old(created) + 1
      ensures trace == old(trace) + [Call.CreateSnapshot(volumeId, description)]
    {
      snapshotId := issuedId(created);
      created := created + 1;
      trace := trace + [Call.CreateSnapshot(volumeId, description)];
    }

    /** create_tags(Resources=..., Tags=...) */
    method CreateTags(resources: seq<string>, tags: seq<Tag>)
      modifies this
      ensures created == old(created) && trace == old(trace) + [Call.CreateTags(resources, tags)]
    {
      trace := trace + [Call.CreateTags(resources, tags)];
    }

    /** describe_snapshots(OwnerIds=...)['Snapshots'] */
    method DescribeSnapshots(ownerIds: seq<string>) returns (ss: seq<Snapshot>)
      modifies this
      ensures ss == snapshots
      ensures created == old(created) && trace == old(trace) + [Call.DescribeSnapshots(ownerIds)]
    {
      ss := snapshots;
      trace := trace + [Call.DescribeSnapshots(ownerIds)];
    }

    /** delete_snapshot(SnapshotId=...) */
    method DeleteSnapshot(snapshotId: string)
      modifies this
      ensures created == old(created) && trace == old(trace) + [Call.DeleteSnapshot(snapshotId)]
    {
      trace := trace + [Call.DeleteSnapshot(snapshotId)];
    }
  }
}
