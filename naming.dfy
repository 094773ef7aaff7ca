/** The description and the Name tag given to each new snapshot (`volume_desc`, `snapshot_name`). */
module Naming {
  import opened Options
  import opened Ec2
  import opened Tags
  import opened Clock

  const DescriptionPrefix: string := "Backup of "

  /** What a volume is called: its Name tag when that is non-empty, otherwise its VolumeId. */
  function Label(v: Volume): string {
    var name := NameTag(Some(TagsOf(v)));
    if name != "" then name else v.volumeId
  }

  /** `volume_desc(volume)` */
  function VolumeDesc(v: Volume): string {
    DescriptionPrefix + Label(v)
  }

  /** Every description starts with "Backup of ". */
  lemma VolumeDescPrefix(v: Volume)
    ensures |DescriptionPrefix| <= |VolumeDesc(v)| && VolumeDesc(v)[..|DescriptionPrefix|] == DescriptionPrefix
  {
  }

  /** A snapshot name: the volume's label, a space and a time stamp. */
  function NameWithStamp(v: Volume, stamp: string): string {
    Label(v) + " " + stamp
  }

  /** `snapshot_name(volume)` with the clock reading `t`. */
  function SnapshotName(v: Volume, t: DateTime): string {
    NameWithStamp(v, DateStamp(t))
  }

  /** A snapshot name ends in a space and the 14-digit stamp of the clock reading it was made with. */
  lemma SnapshotNameEndsWithStamp(v: Volume, t: DateTime)
    ensures var r := SnapshotName(v, t);
      && 15 <= |r| && r[|r| - 15] == ' '
      && r[|r| - 14..] == DateStamp(t) && AllDigits(r[|r| - 14..])
  {
    var r := SnapshotName(v, t);
    DateStampShape(t);
    assert r[|r| - 14..] == DateStamp(t);
  }

  /** A volume whose first Name tag is non-empty is described and named by that tag. */
  lemma NamedVolume(v: Volume, i: int, t: DateTime)
    requires IsFirstMatch("Name", TagsOf(v), i) && TagsOf(v)[i].value != ""
    ensures VolumeDesc(v) == DescriptionPrefix + TagsOf(v)[i].value
    ensures SnapshotName(v, t) == TagsOf(v)[i].value + " " + DateStamp(t)
  {
    NameTagIsTagValue(Some(TagsOf(v)));
    LookupFirstMatch("Name", TagsOf(v), i);
  }

  /**
   * A volume with no Name tag, or whose first Name tag is empty, is described
   * and named by its VolumeId.
   */
  lemma UnnamedVolume(v: Volume, t: DateTime)
    requires forall i :: IsFirstMatch("Name", TagsOf(v), i) ==> TagsOf(v)[i].value == ""
    ensures VolumeDesc(v) == DescriptionPrefix + v.volumeId
    ensures SnapshotName(v, t) == v.volumeId + " " + DateStamp(t)
  {
    NameTagIsTagValue(Some(TagsOf(v)));
    TagValueEmpty("Name", TagsOf(v));
  }

  /** Description and name agree on the label: what follows "Backup of " is what precedes the stamp. */
  lemma DescriptionMatchesName(v: Volume, t: DateTime)
    ensures var d, n := VolumeDesc(v), SnapshotName(v, t);
      |DescriptionPrefix| <= |d| && 15 <= |n| && d[|DescriptionPrefix|..] == n[..|n| - 15]
  {
    var n := SnapshotName(v, t);
    DateStampShape(t);
    assert n[..|n| - 15] == Label(v);
  }

  /** The two volumes of the usual scenario: one named `db`, one without a Name tag. */
  lemma NamingExamples(t: DateTime)
    ensures VolumeDesc(Volume("v-1", Some([Tag("Backup", "true"), Tag("Name", "db")]))) == "Backup of db"
    ensures SnapshotName(Volume("v-1", Some([Tag("Backup", "true"), Tag("Name", "db")])), t) == "db " + DateStamp(t)
    ensures VolumeDesc(Volume("v-2", Some([Tag("Backup", "true")]))) == "Backup of v-2"
    ensures SnapshotName(Volume("v-2", Some([Tag("Backup", "true")])), t) == "v-2 " + DateStamp(t)
    ensures VolumeDesc(Volume("v-3", Some([Tag("Name", ""), Tag("Name", "late")]))) == "Backup of v-3"
  {
  }
}
