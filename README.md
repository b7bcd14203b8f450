# Home screen skill: notification store and wallpaper rotation

This project models the state-keeping core of the Mycroft home screen skill and proves properties of the model.
The skill is the idle screen of a voice assistant. It keeps two notification lists and a wallpaper selection.

- **Notifications** (`__init__.py`). The skill holds the active notifications (`notificationsModel`) and an archive (`notificationsStorageModel`). Five bus/GUI handlers edit these lists in place:
  - display a notification, with duplicate suppression;
  - pop-clear, which archives the payload and deletes the active entry;
  - clear-delete, which deletes the active entry without archiving;
  - clear the archive;
  - remove one archived item.
- **Legacy wallpaper rotation** (`__init__.py`). The skill rotates through the file names of its wallpaper folder and persists the selection in its settings.
- **`Wallpaper` class** (`skill/wallpaper.py`). A collection of wallpaper paths (the skill directory's entries, then the user directory's), a `selected` path and a `default` path. Its methods append the skill and user directory listings to the collection, rotate with wrap-around, add a new wallpaper and resolve a file name to a path.

Modules:

- `Wrappers`: `Option` and `Result`.
- `Messages`: `Value`, a bus payload, which is a dict of string fields or a bare string. Also the Python exceptions a handler can raise (`KeyError`, `TypeError`, `IndexError`) and a handler `Outcome`.
- `Sequences`: `Distinct`, for sequences without repeats.
- `Notifications`: the handlers' list edits as functions. Each index loop is written as a recursive function over its index.
- `Rotation`: `list.index` as `IndexOf`, the two successor rules, and the cycle property.
- `DateStrings`: `str.split`, `str.join` and `split_month_string`.
- `Homescreen`: class `MycroftHomescreen`. It has the skill's fields and GUI keys, and one method per handler, each with the source's loop.
- `Wallpapers`: class `Wallpaper`, and the generated file name for an added wallpaper.

Modelling choices:

- A raised exception becomes `Outcome.Raised`. State changed before the raise is kept, as in Python. For example, pop-clear has already archived the payload when a lookup fails.
- The archive holds the raw payloads that pop-clear receives, not the removed active entries. The handler appends `notification_data` itself (`__init__.py:190-191`), so an archived entry looks like whatever the GUI sent, possibly with only sender and text.
- A notification's `type` field is called `kind`, because `type` is a Dafny keyword.
- GUI keys are fields holding `Option` values, where `None` means the key was never set. The key "notification" has three states in `Homescreen.Shown`: `Unset`, `Empty` for the empty dict `{}`, and `Shows(n)`.
- Paths are strings. `joinpath` is `base + "/" + name`.
- The file system's existence test is a function parameter. Directory listings are sequence parameters. The time of day is a `TimeOfDay` parameter.
- `change_wallpaper` is given the precondition that the selection is in the collection. Without it, the skill computes `None + 1` (`__init__.py:153`) and raises.
- In `Wallpaper.change` a stale selection falls back to `default` (`skill/wallpaper.py:65-66`), not to the first entry of the collection.
- The two rotation rules differ on collections with repeated entries. `change_wallpaper` compares the first index with the last index. `Wallpaper.change` compares the value with the last entry. `Rotation.NextDiffersFromLegacyOnRepeats` shows the difference. `Rotation.NextAt` proves the two rules agree on distinct collections.
- The branch `if not len(self.notifications_model) > 0` inside the deletion loops (`__init__.py:197-199` and `218-220`) can never run. The model keeps it as an `assert false`, which the verifier proves unreachable.

## Model

| member | source | states |
|---|---|---|
| `Notifications.Normalise` | __init__.py:175-180 | the built record has exactly the four keys; each field is the message's value when present and "" when missing |
| `Notifications.NormaliseRecord` | __init__.py:175-180 | normalising an already normalised record changes nothing |
| `Notifications.Accept` | __init__.py:181-182 | the notification is in the new list; the old list is a prefix; the list grows by one exactly when no equal record was present; no-duplicates is preserved |
| `Notifications.AcceptIdempotent` | __init__.py:181-182 | delivering the same notification twice gives the same active list as delivering it once |
| `Notifications.AcceptExtends` | __init__.py:181-182 | Accept's contract determines its result: the old list, followed by the record only if the record was absent |
| `Notifications.SenderTextEqual` | __init__.py:193-196 | the sender/text condition yields True exactly when both dicts have both keys and agree on them; with all keys present it never raises; it never raises IndexError |
| `Notifications.DeleteFrom` | __init__.py:192-202 | the deletion loop from index i removes at most one entry, returns the list itself when it removes none, and never raises IndexError |
| `Notifications.DeleteFromSkip` | __init__.py:192-196 | entries that the loop examines and misses do not change its result |
| `Notifications.DeleteFromIgnoresOtherKeys` | __init__.py:193-196 | the loop's result depends on the payload only through its "sender" and "text" lookups |
| `Notifications.SenderTextEqualOnRecord` | __init__.py:193-196 | against an active record and a payload that has both keys, the condition is sender equality and text equality |
| `Notifications.DeleteFirstMatch` | __init__.py:192-202 | the active-list deletion loop of the pop-clear handler, repeated in clear-delete at __init__.py:213-223: an empty list is returned unchanged; on success at most one entry is gone, and a list of the same length is the same list; it never raises IndexError |
| `Notifications.DeleteFirstMatchSpec` | __init__.py:192-202 | with both keys in the payload, the first active entry whose sender and text match is deleted and all others keep their order; with no match the list is unchanged |
| `Notifications.DeleteFromMissingText` | __init__.py:193-196 | with "sender" but no "text" in the payload, the loop raises KeyError("text") exactly when some active sender matches |
| `Notifications.DeleteFirstMatchErrors` | __init__.py:190-196 | on a non-empty list: a string payload raises TypeError and a payload without "sender" raises KeyError("sender"); on an empty list nothing is looked up |
| `Notifications.DeleteFirstMatchIgnoresActionAndType` | __init__.py:213-217 | payloads that agree on sender and text delete the same active entry |
| `Notifications.DeletedOnlyHitsProperties` | __init__.py:236-243 | removing only matching entries never lengthens the archive, keeps only original entries, and removes nothing when no entry matches |
| `Notifications.ScanRemove` | __init__.py:236-243 | the storage-item loop as written, under the bound fixed before the loop: the archive never grows and keeps only entries it had |
| `Notifications.ScanRemoveShape` | __init__.py:236-243 | the scan from index i keeps the first i entries and deletes only matching entries after them |
| `Notifications.ScanRemoveAllMiss` | __init__.py:236-243 | when every archived entry is examined and misses, the scan ends normally and removes nothing |
| `Notifications.ScanRemoveSpec` | __init__.py:233-247 | the storage-item handler removes only matching entries and never grows the archive; with no match the archive is unchanged, and when every entry is well formed and none matches the handler ends normally |
| `Notifications.ScanRemoveSkip` | __init__.py:236-242 | entries the scan examines and misses before any pop do not change its result |
| `Notifications.ScanRemoveAfterPopRaises` | __init__.py:236-243 | once the archive is shorter than the fixed loop bound and the remaining entries are well formed, the scan ends in IndexError |
| `Notifications.ScanRemoveEarlyHitRaises` | __init__.py:236-243 | as written, on every archive of well-formed entries whose first match is not the last entry, the handler raises IndexError |
| `Notifications.ScanRemoveSkipsAndRaises` | __init__.py:236-243 | as written, on the archives [a, b] and [a, a] with payload a: [a, b] ends as [b] with IndexError; [a, a] ends as [a] with IndexError, so the second match survives |
| `Notifications.RemoveFirstArchived` | __init__.py:233-234 | the corrected removal deletes at most one entry and never raises IndexError |
| `Notifications.RemoveFirstArchivedSpec` | __init__.py:233-234 | the corrected removal deletes exactly the first matching archived entry, keeps the rest in order, and leaves the archive as it was when nothing matches |
| `Rotation.IndexOf` | __init__.py:163-168 | None exactly when the file name is absent; otherwise the index of its first occurrence |
| `Rotation.Next` | skill/wallpaper.py:59-66 | with the selection in the collection the successor is in the collection; with a stale selection it is the default |
| `Rotation.LegacyNext` | __init__.py:150-159 | with the selection in the collection, the next selection is in the collection |
| `Rotation.NextAt` | skill/wallpaper.py:59-64 | on distinct entries both rules step from c[k] to c[k+1], and from the last entry to the first |
| `Rotation.NextDiffersFromLegacyOnRepeats` | __init__.py:150-159 | on [a, b, a] from a, the skill's rule gives b and the class's rule gives a |
| `Rotation.IterateFrom` | skill/wallpaper.py:52-64 | on distinct entries, n rotation steps from c[k] reach c[(k + n) mod len(c)], for n up to len(c) |
| `Rotation.RotationCycles` | skill/wallpaper.py:52-64 | on distinct entries, len(c) rotation steps return the selection to where it started |
| `DateStrings.Split` | __init__.py:114 | a split has at least one piece, and no piece contains the separator |
| `DateStrings.JoinSplit` | __init__.py:114 | joining the pieces of a split with the separator gives back the string |
| `DateStrings.SplitJoin` | __init__.py:114 | splitting a join of separator-free words gives back the words |
| `DateStrings.SplitHasTwo` | __init__.py:114-120 | a split has two or more pieces exactly when the separator occurs |
| `DateStrings.SplitMonthString` | __init__.py:113-122 | the result is a two-word [day, month] exactly when the string has a space; otherwise it is IndexError |
| `DateStrings.SplitMonthStringOfWords` | __init__.py:115-122 | under 'MDY' the day is the second word and the month the first; under any other format the day is the first and the month the second |
| `Wallpapers.WallpaperFileName` | skill/wallpaper.py:70 | the name is 20 characters long: "wallpaper-", six digits, ".jpg" |
| `Wallpapers.WallpaperFileNameRoundTrip` | skill/wallpaper.py:70 | the six digits read back as the hour, minute and second the name was made from |
| `Wallpapers.WallpaperFileNameInjective` | skill/wallpaper.py:70 | different times of day give different file names |
| `Wallpapers.Wallpaper.GetFilePath` | skill/wallpaper.py:77-86 | the path is skill_directory/name when that file exists, otherwise user_directory/name, and never anything else |
| `Wallpapers.Wallpaper.constructor` | skill/wallpaper.py:31-38 | selected equals default, which is the resolved path of the given name; the collection is the skill listing followed by the user listing |
| `Wallpapers.Wallpaper.Collect` | skill/wallpaper.py:45-50 | the new collection is the old one, then the skill entries, then the user entries |
| `Wallpapers.Wallpaper.Change` | skill/wallpaper.py:52-66 | the new selection is the successor of the old one under the wrap-around rule, or the default when the old one is stale; the collection is unchanged |
| `Wallpapers.Wallpaper.Add` | skill/wallpaper.py:68-75 | the collection grows by exactly the new user-directory path, which is last and selected |
| `Wallpapers.ChangeRoundTrip` | skill/wallpaper.py:52-64 | on a distinct collection, changing len(collection) times restores the selection; the collection and the default are untouched |
| `Homescreen.MycroftHomescreen.constructor` | __init__.py:30-37 | both lists start empty; the selection is the persisted "wallpaper" setting, or "default.png" when it is unset |
| `Homescreen.MycroftHomescreen.CollectWallpapers` | __init__.py:143-145 | the collection is the file list of the last directory walked, or is unchanged when none is walked |
| `Homescreen.MycroftHomescreen.ChangeWallpaper` | __init__.py:147-161 | the selection moves by the skill's rotation rule; the "wallpaper" setting and the displayed selection equal it; other settings are unchanged |
| `Homescreen.MycroftHomescreen.HandleDisplayNotification` | __init__.py:173-186 | a new record is appended last, the counter shows the new length, and the show event fires; a duplicate changes nothing and fires nothing; no-duplicates is kept |
| `Homescreen.MycroftHomescreen.HandleClearNotificationData` | __init__.py:188-208 | the archive always grows by the payload; the first sender/text match is deleted; on success the displayed count equals the archive length; a raising lookup leaves the active list and the display as they were |
| `Homescreen.MycroftHomescreen.HandleClearDeleteNotificationData` | __init__.py:210-223 | the same first-match deletion as pop-clear; the archive is never touched |
| `Homescreen.MycroftHomescreen.HandleClearNotificationStorage` | __init__.py:225-231 | the archive is empty and the displayed count is 0 |
| `Homescreen.MycroftHomescreen.HandleClearNotificationStorageItem` | __init__.py:233-247 | archive and outcome are those of the as-written scan; after any pop the display shows the current archive and its length; otherwise nothing changes |
| `Homescreen.NotifyTwice` | __init__.py:181-186 | the same notification delivered twice to an empty list leaves exactly one record |
| `Homescreen.PopOnly` | __init__.py:188-208 | popping the only active notification empties the list and archives its payload with a displayed count of 1 |

## Findings

| source | as written | input that shows it | evidently intended | confidence | as-written member | corrected member |
|---|---|---|---|---|---|---|
| __init__.py:236-243 | the loop bound is the archive length taken before any `pop(i)`, and the loop goes on after a pop; later indices shift, so the entry after a popped one is skipped and the loop finally indexes past the end | archive `[a, b]`, payload `a` (sender "s", text "t"): `a` is popped, then index 1 raises IndexError; archive `[a, a]`, payload `a`: one `a` survives and IndexError is raised | remove the single archived item the user deleted ("Clear Single Item From Notification Storage Model"), without raising | high; not executed | `Notifications.ScanRemoveEarlyHitRaises` | `Notifications.RemoveFirstArchived` |

`Homescreen.MycroftHomescreen.HandleClearNotificationStorageItem` models the handler as written. `Notifications.ScanRemoveSkipsAndRaises` gives the two concrete archives. The entry right after a popped one moves into the popped index and is never examined, so archive `[a, Str("x")]` with payload `a` still ends as `[Str("x")]` with IndexError. A malformed entry that the loop still reaches raises its own error (TypeError or KeyError) instead of IndexError. The corrected removal is proved in `Notifications.RemoveFirstArchivedSpec`.

## Left out

- `initialize`, `handle_idle`, `handle_idle_update_time` and `update_dt`: scheduling, message-bus and GUI registration, dynamic loading of the date-time skill, and calls into it.
- `build_info`: reading and parsing a JSON file.
- The `os.walk` in `collect_wallpapers`: directory I/O. The walk's per-directory file lists are an input sequence.
- `time.sleep(2)` in `handle_display_notification`: a delay. The `homescreen.notification.show` bus event is the method's `shown` result.
- GUI keys other than "notifcation_counter", "notification", "notification_model" and "selected_wallpaper".
- Aliasing: the skill puts the archive list object itself into the GUI dict. The model stores a copy of its value each time the handler writes the key.
- Message values are strings or string dicts. Other JSON values are not modelled.
- `_ensure_user_directory_exists`, `Path.exists` and `iterdir`: file-system I/O. These are replaced by an existence predicate and listing sequences.
- The image write in `add`: file I/O. `datetime.now()` is replaced by a `TimeOfDay` parameter.
- Path normalisation by `pathlib` (absolute parts, duplicate separators): paths are plain strings joined with "/".
- `Homescreen.MycroftHomescreen.ChangeWallpaper`: does not model the TypeError raised when the selection is missing from the collection. It requires the selection to be present.
- `test/behave/steps/homescreen_steps.py`: an integration-test step that waits for a bus event. It contains no logic.
