/**
 * Tag helpers of snapshots.py: the first-match lookup of a tag's value and
 * the exact `"true"` test, each both as the source writes it (key fixed to
 * `Name` or `Backup`) and in the key-parametric form the tests call.
 */
module Tags {
  import opened Options
  import opened Ec2

  /** `volume.get('Tags', [])`: the tag list, empty when the record has none. */
  function TagsOf(v: Volume): seq<Tag> {
    match v.tags
    case None => []
    case Some(ts) => ts
  }

  /** Index `i` holds the first tag of `ts` whose key is `key`. */
  ghost predicate IsFirstMatch(key: string, ts: seq<Tag>, i: int) {
    0 <= i < |ts| && ts[i].key == key && forall j :: 0 <= j < i ==> ts[j].key != key
  }

  /** The value of the first tag of `ts` with key `key`, or "" when there is none. */
  function Lookup(key: string, ts: seq<Tag>): string {
    if ts == [] then ""
    else if ts[0].key == key then ts[0].value
    else Lookup(key, ts[1..])
  }

  /** `tag(key, tags)`: a missing tag list reads as empty. */
  function TagValue(key: string, tags: Option<seq<Tag>>): string {
    match tags
    case None => ""
    case Some(ts) => Lookup(key, ts)
  }

  /** The lookup returns the value of the first matching tag; later duplicates are ignored. */
  lemma {:induction false} LookupFirstMatch(key: string, ts: seq<Tag>, i: int)
    requires IsFirstMatch(key, ts, i)
    ensures Lookup(key, ts) == ts[i].value
  {
    if i > 0 {
      assert ts[0].key != key;
      assert IsFirstMatch(key, ts[1..], i - 1);
      LookupFirstMatch(key, ts[1..], i - 1);
    }
  }

  /** With no tag carrying `key`, the lookup gives "". */
  lemma {:induction false} LookupMissing(key: string, ts: seq<Tag>)
    requires forall i :: 0 <= i < |ts| ==> ts[i].key != key
    ensures Lookup(key, ts) == ""
  {
    if ts != [] {
      LookupMissing(key, ts[1..]);
    }
  }

  /** When some tag carries `key`, one of them is the first. */
  lemma {:induction false} FirstMatchExists(key: string, ts: seq<Tag>, k: int)
    requires 0 <= k < |ts| && ts[k].key == key
    ensures exists i :: IsFirstMatch(key, ts, i)
  {
    if ts[0].key == key {
      assert IsFirstMatch(key, ts, 0);
    } else {
      FirstMatchExists(key, ts[1..], k - 1);
      var i :| IsFirstMatch(key, ts[1..], i);
      assert IsFirstMatch(key, ts, i + 1);
    }
  }

  /** `tag(key, tags)` is "" exactly when no tag has the key or the first one that has it is empty. */
  lemma TagValueEmpty(key: string, ts: seq<Tag>)
    ensures Lookup(key, ts) == "" <==> forall i :: IsFirstMatch(key, ts, i) ==> ts[i].value == ""
  {
    if exists k :: 0 <= k < |ts| && ts[k].key == key {
      var k :| 0 <= k < |ts| && ts[k].key == key;
      FirstMatchExists(key, ts, k);
      var i :| IsFirstMatch(key, ts, i);
      LookupFirstMatch(key, ts, i);
      assert forall i' :: IsFirstMatch(key, ts, i') ==> i' == i;
    } else {
      LookupMissing(key, ts);
    }
  }

  /** name_tag's loop, with the key fixed to 'Name'. */
  function FirstName(ts: seq<Tag>): string {
    if ts == [] then ""
    else if ts[0].key == "Name" then ts[0].value
    else FirstName(ts[1..])
  }

  /** `name_tag(tags)`: "" for a missing or empty list, else the first Name tag's value. */
  function NameTag(tags: Option<seq<Tag>>): string {
    if tags.Some? && tags.value != [] then FirstName(tags.value) else ""
  }

  lemma {:induction false} FirstNameIsLookup(ts: seq<Tag>)
    ensures FirstName(ts) == Lookup("Name", ts)
  {
    if ts != [] && ts[0].key != "Name" {
      FirstNameIsLookup(ts[1..]);
    }
  }

  /** `name_tag(ts) == tag('Name', ts)`, also for a missing or empty list. */
  lemma NameTagIsTagValue(tags: Option<seq<Tag>>)
    ensures NameTag(tags) == TagValue("Name", tags)
  {
    if tags.Some? {
      FirstNameIsLookup(tags.value);
    }
  }

  /** True when some tag of `ts` has key `key` and value exactly "true". */
  function AnyTrueTag(key: string, ts: seq<Tag>): (r: bool)
    ensures r <==> exists i :: 0 <= i < |ts| && ts[i].key == key && ts[i].value == "true"
  {
    if ts == [] then false
    else if ts[0].key == key && ts[0].value == "true" then true
    else
      var r := AnyTrueTag(key, ts[1..]);
      assert forall i :: 1 <= i < |ts| ==> ts[i] == ts[1..][i - 1];
      r
  }

  /** `has_true_tag(key, resource)`: the resource's Tags hold key `key` with value exactly "true". */
  function HasTrueTag(key: string, v: Volume): (r: bool)
    ensures r <==> v.tags.Some? && exists i :: 0 <= i < |v.tags.value| && v.tags.value[i].key == key && v.tags.value[i].value == "true"
  {
    AnyTrueTag(key, TagsOf(v))
  }

  /** has_backup_tag's loop, with the key fixed to 'Backup'. */
  function AnyBackupTag(ts: seq<Tag>): bool {
    if ts == [] then false
    else if ts[0].key == "Backup" && ts[0].value == "true" then true
    else AnyBackupTag(ts[1..])
  }

  /** `has_backup_tag(volume)` */
  function HasBackupTag(v: Volume): bool {
    AnyBackupTag(TagsOf(v))
  }

  lemma {:induction false} AnyBackupTagIsAnyTrueTag(ts: seq<Tag>)
    ensures AnyBackupTag(ts) == AnyTrueTag("Backup", ts)
  {
    if ts != [] && !(ts[0].key == "Backup" && ts[0].value == "true") {
      AnyBackupTagIsAnyTrueTag(ts[1..]);
    }
  }

  /** `has_backup_tag(v) == has_true_tag('Backup', v)` */
  lemma HasBackupTagIsHasTrueTag(v: Volume)
    ensures HasBackupTag(v) == HasTrueTag("Backup", v)
  {
    AnyBackupTagIsAnyTrueTag(TagsOf(v));
  }

  /** A volume is marked for backup exactly when one of its tags is `Backup` = `true`. */
  lemma HasBackupTagIff(v: Volume)
    ensures HasBackupTag(v) <==> exists i :: 0 <= i < |TagsOf(v)| && TagsOf(v)[i] == Tag("Backup", "true")
  {
    HasBackupTagIsHasTrueTag(v);
  }

  /** test_tag_found and test_tag_not_found */
  lemma TagExamples()
    ensures TagValue("Test", Some([Tag("Test", "test_value")])) == "test_value"
    ensures TagValue("Test", Some([Tag("X", "x")])) == ""
    ensures TagValue("Name", Some([Tag("Name", "a"), Tag("Name", "b")])) == "a"
    ensures TagValue("Name", None) == "" && NameTag(Some([])) == ""
  {
  }

  /** test_has_true_tag_true and test_has_true_tag_false; no truthy coercion of the value */
  lemma HasTrueTagExamples(id: string)
    ensures HasTrueTag("Test", Volume(id, Some([Tag("Test", "true")])))
    ensures !HasTrueTag("Test", Volume(id, Some([Tag("X", "true"), Tag("Test", "false")])))
    ensures !HasTrueTag("Test", Volume(id, Some([])))
    ensures !HasTrueTag("Test", Volume(id, None))
    ensures !HasTrueTag("Backup", Volume(id, Some([Tag("Backup", "True"), Tag("Backup", "1"), Tag("Backup", "yes")])))
  {
  }
}
