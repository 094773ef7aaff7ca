# lambda-snapshots: the EBS snapshot handlers, modelled in Dafny

`snapshots.py` contains two AWS Lambda handlers.

- `make_snapshots` lists the account's EBS volumes. For every volume tagged `Backup` = `true`, it creates a snapshot described as `Backup of <label>`. It then tags that snapshot `Name` = `<label> <YYYYMMDDHHMMSS>`. The label is the volume's `Name` tag, or its VolumeId when that tag is missing or empty.
- `delete_old_snapshots` lists the snapshots owned by the event's `account`. It deletes every snapshot whose age in whole days exceeds `DAYS_TO_KEEP` = 30.

The helpers `name_tag`, `has_backup_tag`, `volume_desc`, `snapshot_name` and `older_than` decide what is selected and how each new snapshot is named.

The model has seven modules, one file each.

- `Ec2` (`ec2.dfy`) holds the records the handlers read: `Tag`, `Volume` and `Snapshot`. It also holds the `Call` records the handlers issue.
  - The EC2 client is a `class Client`. It answers the two list calls with fixed listings.
  - It answers the n-th `create_snapshot` with the id `issuedId(n)`.
  - It appends every call to a `trace`, so a handler's effect is what it appends.
- `Tags` (`tags.dfy`) holds the tag helpers.
  - `name_tag` is `NameTag`/`FirstName`. `has_backup_tag` is `HasBackupTag`/`AnyBackupTag`. Both are first-match linear searches over `seq<Tag>`.
  - The key-parametric `tag(key, tags)` and `has_true_tag(key, resource)` are `TagValue`/`Lookup` and `HasTrueTag`/`AnyTrueTag`. These are the functions the tests call.
  - Lemmas tie each helper to its key-parametric form.
- `Clock` (`clock.dfy`) holds `older_than` as `OlderThan`, over integer microseconds.
  - `timedelta.days` is `WholeDays`, the floor of the difference over one day.
  - It also holds a calendar `DateTime` (the field ranges of a Python `datetime`) and the `%Y%m%d%H%M%S` stamp, built from the zero-padded fields (`DateStamp`).
- `Naming` (`naming.dfy`) holds `volume_desc` as `VolumeDesc` and `snapshot_name` as `SnapshotName`, with the label shared by both.
- `Selection` (`selection.dfy`) holds the pattern both handlers follow: walk a listing, keep some items, issue a batch of calls per kept item.
  - `Kept` gives the kept positions. `Issued` gives the calls.
- `Snapshots` (`snapshots.dfy`) holds the two handlers.
  - Each is a method with a loop, proved against a specification function of the listing: `CreateCalls` for `make_snapshots`, and `DeleteCalls` inside `PruneCalls` for `delete_old_snapshots`.
  - Lemmas state what those functions select, in which order and with which arguments.

Clocks and ids are inputs.

- `snapshot_name` reads `datetime.now` once per snapshotted volume, so `make_snapshots` takes `clock: nat -> DateTime`. The k-th snapshot is named at `clock(k)`.
- `older_than` reads the clock once per listed snapshot, so `delete_old_snapshots` takes `clock: nat -> int`. Snapshot i is judged at `clock(i)`.

No relation between successive readings is assumed.

Three facts about the code shape the model.

- `timedelta.days` floors (snapshots.py:58), so a start one microsecond in the future is day -1 (`Clock.WholeDaysFloors`). For every threshold `days >= 0`, `older_than` gives the same answer as a day count rounded toward zero (`Clock.TruncatedDays`, `Clock.FloorAgreesWithTruncation`). The two part only at negative thresholds.
- The docstring (snapshots.py:43-47) suggests that the number of days could come from the scheduled event. The code never reads an event key `days`: `delete_old_snapshots` always uses `DAYS_TO_KEEP` = 30 (snapshots.py:6, 52).
  - `Snapshots.PruneIgnoresOtherKeys` shows that no key other than `account` changes the calls.
  - `Snapshots.DaysKeyScenario` takes the event `{account: "123", days: "5"}` with snapshots 3, 6 and 10 days old. The code deletes none of them.
- The tests call `snapshots.tag` and `snapshots.has_true_tag` (tests/test_snapshots.py:11, 16, 32, 42). Neither function is defined in `snapshots.py`, so as written those four tests would stop with `AttributeError`.
  - The model defines them from the tests' own expectations (`Tags.TagValue`, `Tags.HasTrueTag`).
  - It proves that `name_tag(ts) == tag("Name", ts)` and `has_backup_tag(v) == has_true_tag("Backup", v)`.

## Model

| member | source | states |
|---|---|---|
| `Tags.TagsOf` | snapshots.py:61 | `volume.get('Tags', [])`: the tag list, empty when the record has none; `Tags.HasBackupTagIff` and `Naming.UnnamedVolume` state its use |
| `Tags.Lookup` | tests/test_snapshots.py:8-16 | `tag(key, tags)` on a list; its contract is `Tags.LookupFirstMatch`, `Tags.LookupMissing` and `Tags.TagValueEmpty` |
| `Tags.TagValue` | tests/test_snapshots.py:8-16 | `tag(key, tags)` with a possibly missing list, read as empty; `Tags.NameTagIsTagValue` ties it to name_tag |
| `Tags.FirstName` | snapshots.py:77-80 | name_tag's early-return loop; `Tags.FirstNameIsLookup` proves it is the first-match lookup of `Name` |
| `Tags.NameTag` | snapshots.py:75-80 | `name_tag(tags)`, with the `if tags:` guard; `Tags.NameTagIsTagValue` proves it equals `tag("Name", tags)` |
| `Tags.AnyBackupTag` | snapshots.py:62-65 | has_backup_tag's early-return loop; `Tags.AnyBackupTagIsAnyTrueTag` proves it is the search for `Backup` = `true` |
| `Tags.HasBackupTag` | snapshots.py:60-65 | `has_backup_tag(volume)`; `Tags.HasBackupTagIff` states when it holds |
| `Clock.OlderThan` | snapshots.py:56-58 | `older_than(startdate, days)` read at a given instant; `Clock.OlderThanIff` states when it holds |
| `Clock.TruncatedDays` | snapshots.py:58 | a day count rounded toward zero, the reading the code does not use: it is the d with d days <= delta < d + 1 days for delta >= 0, and with d - 1 days < delta <= d days below zero |
| `Clock.FloorAgreesWithTruncation` | snapshots.py:56-58 | for days >= 0, older_than's floored day count and a truncated one decide alike; at days = -1 they differ |
| `Clock.StampPrefix` | snapshots.py:84 | the first n zero-padded fields of `%Y%m%d%H%M%S`; `Clock.DateStampPieces` unfolds it |
| `Clock.DateStamp` | snapshots.py:84 | `strftime("%Y%m%d%H%M%S")`; `Clock.DateStampShape`, `Clock.DateStampFields` and `Clock.DateStampInjective` carry its contract |
| `Naming.Label` | snapshots.py:69-73 | the non-empty Name tag, otherwise the VolumeId; `Naming.NamedVolume` and `Naming.UnnamedVolume` state both branches |
| `Naming.VolumeDesc` | snapshots.py:67-73 | `volume_desc(volume)`; `Naming.VolumeDescPrefix`, `Naming.NamedVolume` and `Naming.UnnamedVolume` carry its contract |
| `Naming.NameWithStamp` | snapshots.py:85-88 | the label, a space and a stamp, as the `"%s %s"` formats build them |
| `Naming.SnapshotName` | snapshots.py:82-88 | `snapshot_name(volume)` at a clock reading; `Naming.SnapshotNameEndsWithStamp` and `Naming.DescriptionMatchesName` carry its contract |
| `Selection.Kept` | snapshots.py:32 | the positions a generator's filter keeps; every one is a position of the listing, and `Selection.KeptSpec` says which |
| `Selection.Issued` | snapshots.py:33-40 | the calls a loop over the kept items makes; `Selection.IssuedPairs` and `Selection.IssuedSingles` say which |
| `Snapshots.BackupIndices` | snapshots.py:32 | `vols_to_do` as positions of the listing; `Snapshots.BackupIndicesSpec` says which |
| `Snapshots.SnapshotCalls` | snapshots.py:34-40 | the two calls made for one volume: create_snapshot with its VolumeId and description, then create_tags on the returned id |
| `Snapshots.CreateCalls` | snapshots.py:32-40 | every call of make_snapshots's loop; `Snapshots.CreateCallsSelection` states it call by call and `Snapshots.MakeSnapshots` is proved equal to it |
| `Snapshots.ExpiredIndices` | snapshots.py:52 | `old_snaps` as positions of the listing; `Snapshots.ExpiredIndicesSpec` says which |
| `Snapshots.DeleteCalls` | snapshots.py:52-54 | every call of delete_old_snapshots's loop; `Snapshots.DeleteCallsSelection` states it call by call |
| `Snapshots.PruneCalls` | snapshots.py:49-54 | the whole handler on an event: KeyError without `account`, else describe_snapshots then `DeleteCalls`; `Snapshots.DeleteOldSnapshots` is proved equal to it |
| `Tags.LookupFirstMatch` | tests/test_snapshots.py:8-11 | `tag(key, ts)` is the value of the first tag with that key; later tags with the same key are ignored |
| `Tags.LookupMissing` | tests/test_snapshots.py:13-16 | `tag(key, ts)` is "" when no tag has the key |
| `Tags.TagValueEmpty` | snapshots.py:75-80 | the lookup gives "" exactly when no tag has the key or the first one that has it has an empty value (both directions) |
| `Tags.FirstNameIsLookup` | snapshots.py:77-79 | name_tag's loop is the first-match lookup of key `Name` |
| `Tags.NameTagIsTagValue` | snapshots.py:75-80 | `name_tag(tags) == tag("Name", tags)`, including for an empty or missing list |
| `Tags.AnyTrueTag` | tests/test_snapshots.py:29-42 | true exactly when some tag has the key and the value exactly "true" |
| `Tags.HasTrueTag` | tests/test_snapshots.py:29-42 | `has_true_tag(key, r)` holds exactly when r has a Tags list with a tag of that key whose value is exactly "true" |
| `Tags.AnyBackupTagIsAnyTrueTag` | snapshots.py:62-65 | has_backup_tag's loop is the "true"-tag search for key `Backup` |
| `Tags.HasBackupTagIsHasTrueTag` | snapshots.py:60-65 | `has_backup_tag(v) == has_true_tag("Backup", v)` |
| `Tags.HasBackupTagIff` | snapshots.py:60-65 | a volume is marked for backup exactly when one of its tags is `Backup` = `true` |
| `Tags.TagExamples` | tests/test_snapshots.py:8-16 | found and not-found lookups, first match among duplicates, missing and empty lists |
| `Tags.HasTrueTagExamples` | tests/test_snapshots.py:29-42 | the tests' records, plus "True", "1" and "yes" all reading as false |
| `Clock.WholeDays` | snapshots.py:58 | `timedelta.days`: the d with d days <= delta < d + 1 days, that is, the floor |
| `Clock.OlderThanIff` | snapshots.py:56-58 | `older_than(start, days)` holds exactly when at least days + 1 whole days have elapsed |
| `Clock.OlderThanIsStrict` | snapshots.py:58 | exactly `days` days is not older than `days`; `days + 1` days is |
| `Clock.FutureIsNeverOlder` | snapshots.py:58 | a start at or after now is never older, for any days >= 0 |
| `Clock.OlderThanMonotone` | snapshots.py:56-58 | a later clock, an earlier start or a lower threshold keep a snapshot old |
| `Clock.OlderThanExamples` | tests/test_snapshots.py:18-27 | 2 days old is older than 1; 1 day old is not older than 2, nor than 1 |
| `Clock.WholeDaysFloors` | snapshots.py:58 | day counts floor: one microsecond in the future is day -1 |
| `Clock.PadDecimal` | snapshots.py:84 | a number below 10^width is written in exactly `width` decimal digits |
| `Clock.PadDecimalRoundTrip` | snapshots.py:84 | the zero-padded digits read back as the number |
| `Clock.DateStampPieces` | snapshots.py:84 | `%Y%m%d%H%M%S` is the year in four digits, then month, day, hour, minute and second in two each |
| `Clock.DateStampShape` | snapshots.py:84 | the stamp is exactly 14 decimal digits |
| `Clock.DateStampSlices` | snapshots.py:84 | each field's digits sit at a fixed offset of the stamp |
| `Clock.DateStampFields` | snapshots.py:84 | each field reads back from its offset as its value |
| `Clock.DateStampInjective` | snapshots.py:84 | distinct clock readings give distinct stamps |
| `Clock.ZeroPaddingExample` | snapshots.py:84 | 7 is written `07`, 0 is written `00`, 2016 is written `2016` |
| `Naming.VolumeDescPrefix` | snapshots.py:67-73 | every description starts with "Backup of " |
| `Naming.NamedVolume` | snapshots.py:67-88 | a volume whose first Name tag is non-empty is described and named by that tag |
| `Naming.UnnamedVolume` | snapshots.py:67-88 | a volume with no Name tag, or whose first Name tag is empty, is described and named by its VolumeId |
| `Naming.SnapshotNameEndsWithStamp` | snapshots.py:82-88 | a snapshot name ends in a space and the 14-digit stamp of its clock reading |
| `Naming.DescriptionMatchesName` | snapshots.py:67-88 | the text after "Backup of " is the text before the stamp |
| `Naming.NamingExamples` | snapshots.py:67-88 | a volume named `db`, a volume with no Name tag, and one whose first Name tag is empty |
| `Selection.KeptSpec` | snapshots.py:32 | the kept positions are exactly those passing the filter, each once, in increasing order |
| `Selection.IssuedStep` | snapshots.py:33 | one more listed item adds that item's batch, if it is kept, after the calls made so far |
| `Selection.IssuedSingles` | snapshots.py:53-54 | with one call per kept item, call j belongs to the j-th kept item |
| `Selection.IssuedPairs` | snapshots.py:33-40 | with two calls per kept item, calls 2j and 2j + 1 belong to the j-th kept item |
| `Selection.NoneKeptNoneIssued` | snapshots.py:32-33 | nothing kept, nothing issued |
| `Snapshots.BackupIndicesSpec` | snapshots.py:31-32 | the volumes snapshotted are exactly the backup-tagged ones, each once, in listing order |
| `Snapshots.CreateCallsSelection` | snapshots.py:31-40 | two calls per backup-tagged volume, in listing order. The j-th such volume gets create_snapshot(VolumeId, volume_desc), then create_tags on the j-th returned id with the j-th name |
| `Snapshots.SnapshotBatchPairs` | snapshots.py:34-40 | each snapshotted volume costs exactly two calls |
| `Snapshots.CreateCallsStep` | snapshots.py:33-40 | one more listed volume adds its two calls, if it is backup-tagged, and nothing otherwise |
| `Snapshots.NoBackupTagNoCalls` | snapshots.py:32 | with no backup-tagged volume, make_snapshots creates and tags nothing |
| `Snapshots.MixedVolumesTags` | snapshots.py:60-65 | which volumes of a mixed listing are backup-tagged |
| `Snapshots.MakeSnapshotsScenario` | snapshots.py:31-40 | of a tagged, an untagged and a tagged volume, the first and the last are snapshotted, in that order |
| `Snapshots.SnapshotVolume` | snapshots.py:34-40 | one loop iteration: create the snapshot, then tag the returned id with its name |
| `Snapshots.MakeSnapshots` | snapshots.py:28-40 | the trace gains describe_volumes followed by exactly `CreateCalls` of the listing; one id is consumed per backup-tagged volume |
| `Snapshots.ExpiredIndicesSpec` | snapshots.py:51-52 | the snapshots deleted are exactly those older than DAYS_TO_KEEP at their reading, each once, in listing order |
| `Snapshots.DeleteCallsSelection` | snapshots.py:52-54 | one delete_snapshot per expired snapshot, on its id, in listing order, and no other call |
| `Snapshots.DeleteCallsStep` | snapshots.py:53-54 | one more listed snapshot adds its deletion if it is expired, and nothing otherwise |
| `Snapshots.NothingExpiredNoDeletes` | snapshots.py:52-54 | with no snapshot past the window, nothing is deleted |
| `Snapshots.RetentionScenario` | snapshots.py:6 | with DAYS_TO_KEEP = 30, a 31-day-old snapshot is deleted and a 29-day-old one is kept |
| `Snapshots.DaysKeyScenario` | snapshots.py:42-54 | an event carrying `days: 5` still gets the 30-day window: snapshots 3, 6 and 10 days old are all kept |
| `Snapshots.PruneIgnoresOtherKeys` | snapshots.py:49-52 | no event key other than `account` changes the calls |
| `Snapshots.PruneOnlyDeletes` | snapshots.py:51-54 | the only state-changing calls of delete_old_snapshots are delete_snapshot calls |
| `Snapshots.DeleteOldSnapshots` | snapshots.py:42-54 | a missing `account` raises KeyError before any call. Otherwise the trace gains describe_snapshots(OwnerIds=[account]) and then exactly the deletions of `DeleteCalls` |

## Left out

- The boto3 client is not modelled. `Ec2.Client` stands in for it with fixed listings, a supply of snapshot ids and a call trace. Pagination, API errors, retries and exceptions raised by the service are not modelled.
- The `UTC` tzinfo class and `datetime.now` are not modelled. The clock readings are parameters (`clock(k)`), with no assumption that they increase.
- Converting an instant to calendar fields is not modelled. `older_than` works on instants and `snapshot_name` on calendar fields, and the model does not relate the two readings.
- General `strftime` behaviour is not modelled. `%Y` is taken as four zero-padded digits for every year from 1 to 9999. Some C libraries print years below 1000 without padding.
- Sub-second parts of a datetime are not modelled: `%S` drops them, and instants are whole microseconds.
- `StartTime` is taken as an instant. The codec that turns the API's timestamp into a `datetime` is not modelled.
- The event is a `map<string, string>` and the `context` argument is dropped. `make_snapshots` reads neither.
- A `Tags` key present with the value `None` is not modelled. `Volume.tags` is `None` only when the key is absent. With a present `None`, `has_backup_tag` would raise a `TypeError` and `name_tag` would return "".
- The docstring's configurable `days` window (snapshots.py:43-47) is not modelled, because the code never implements it.
- Malformed records are not modelled. `Ec2.Tag` always has a `Key` and a `Value`, and `Ec2.Volume` and `Ec2.Snapshot` always have their ids (and `StartTime`), because EC2 always sends these fields. The `KeyError` that snapshots.py:35, 52, 54, 63, 73, 78 and 88 would raise on a record without one is therefore not modelled.
- The generators in both handlers are lazy. The model keeps the resulting order of calls and clock readings, one item at a time, but does not model the generator objects themselves.
