# M2 widget and sleep-timer Live Activity, modelled in Dafny

This project models the two pieces of logic behind M2's display extensions.

**The home-screen widget's track pipeline** (`M2LovelyWidget.swift`). The app
stores two lists of track records, "lovely" and "random", in the app-group
`UserDefaults`. The widget reads them back. `loadTracks` decodes the untyped
records into validated tracks:

- A record without a text `id`, or whose `id` is blank after trimming, is dropped.
- A blank title becomes "Unknown Song", and a blank artist becomes "Unknown Artist".
- The artwork file name is resolved inside the shared container.
- A blank inline thumbnail becomes nil.

`sharedTracks` falls back from the requested list to the other one. `makeEntry`
picks a track at random. If there is none, it yields the preview track in a
preview and an empty entry otherwise. `timeline` builds eight entries, 30
minutes apart, and asks to be refreshed after 30 minutes. `widgetURL` builds the
`m2://widget/play?trackID=…` deep link.

**The sleep timer's Live Activity bridge** (`M2SleepTimerLiveActivityBridge.swift`).
`syncSleepTimer` works on the system's list of running activities:

- With no time left, it ends every activity.
- If the user has disabled Live Activities, it does nothing.
- If an activity is running, it updates the first one in place.
- Otherwise it requests a new activity.

`endSleepTimerActivity` ends them all. The system's list is the class
`ActivityCenter`, with `Request`, `Update` and `End` as its primitive
operations. The bridge's two methods change it, and their contracts tie the
new list to the pure function `Synced` (or `Ended`) of the old one. The
properties are proved about those functions. The main one is the single-slot
invariant, proved both for one sync and for any sequence of calls.

Modules: `Wrappers` (Option), `Dates`, `Strings` (whitespace trimming),
`WidgetConfig` (the widget's constants), `TrackStore`, `WidgetTimeline`,
`DeepLink`, `SleepTimerActivity`.

Modelling choices for inputs the code takes from the system:

- The `UserDefaults` suite is an `Option` of a map from keys to property-list
  values (`TrackStore.Value`). `None` means the suite cannot be opened.
- The shared container directory is an `Option<FileURL>`.
- `Date()` is a `now` parameter.
- `Calendar.date(byAdding: .minute, …)` adds 60 seconds per minute.
- `randomElement()` is an arbitrary choice (`:|`) among the tracks. The contracts
  promise only that the chosen track is a member of the list.
- `#available(iOS 16.1, *)` is the constant field `ActivityCenter.supported`.
- `ActivityAuthorizationInfo().areActivitiesEnabled` is the `enabled` parameter.
- Whether `Activity.request` succeeds is the `requestSucceeds` parameter.
- Identities of new activities come from a counter in `ActivityCenter`.

Behaviour of the code that the model keeps:

- On a system without Live Activities, `syncSleepTimer` returns before looking
  at `remaining`, so even a non-positive `remaining` ends nothing
  (M2/M2SleepTimerLiveActivityBridge.swift:20-24). `ActivityCenter.Valid` states
  that such a system has no activities, so "nothing is running after a sync with
  no time left" still holds.
- A new activity is requested only when the user has enabled Live Activities.
- A track keeps both artwork fields independently. It may have both a file URL
  and a thumbnail.

## Model

| member | source | states |
|---|---|---|
| Strings.TrimStartSpec | M2LovelyWidget/M2LovelyWidget.swift:147 | Trimming the front keeps a suffix, drops only whitespace, and stops at a non-whitespace character |
| Strings.TrimEndSpec | M2LovelyWidget/M2LovelyWidget.swift:147 | Trimming the back keeps a prefix, drops only whitespace, and stops at a non-whitespace character |
| Strings.TrimStartSkipsWhitespace | M2LovelyWidget/M2LovelyWidget.swift:147 | Leading whitespace of any length does not change the result of trimming the front |
| Strings.TrimEndSkipsWhitespace | M2LovelyWidget/M2LovelyWidget.swift:147 | Trailing whitespace of any length does not change the result of trimming the back |
| Strings.TrimCore | M2LovelyWidget/M2LovelyWidget.swift:147 | For any split into whitespace, a core with non-whitespace ends, and whitespace, trimming returns exactly the core |
| Strings.TrimFixesTrimmed | M2LovelyWidget/M2LovelyWidget.swift:147 | A string is unchanged by trimming exactly when neither end is whitespace |
| Strings.TrimIsTrimmed | M2LovelyWidget/M2LovelyWidget.swift:147 | A trimmed string has no whitespace at either end |
| Strings.TrimIdempotent | M2LovelyWidget/M2LovelyWidget.swift:147 | Trimming twice equals trimming once |
| Strings.TrimEmpty | M2LovelyWidget/M2LovelyWidget.swift:147-148 | A string trims to empty exactly when it is all whitespace, so an all-blank id is dropped |
| TrackStore.WidgetArtworkURL | M2LovelyWidget/M2LovelyWidget.swift:168-177 | No URL exactly when the file name is empty or the container is missing; otherwise the container path, then `m2_widget_artwork_v1`, then the file name |
| TrackStore.DecodeTrack | M2LovelyWidget/M2LovelyWidget.swift:143-165 | A record is dropped exactly when its `id` is absent, not text, or blank after trimming. A kept track is well formed, with the trimmed id. Title and artist are trimmed or fall back to their placeholders. The artwork URL is resolved from the trimmed file name. The thumbnail is nil exactly when the trimmed thumbnail is empty, and otherwise is that string unvalidated |
| TrackStore.DecodeRecords | M2LovelyWidget/M2LovelyWidget.swift:143-165 | compactMap: no more tracks than records, and every track is well formed |
| TrackStore.DecodeRecordsAppend | M2LovelyWidget/M2LovelyWidget.swift:143 | Decoding works record by record: the tracks of a concatenation are the tracks of each part, in input order |
| TrackStore.DecodeRecordsSkipsDropped | M2LovelyWidget/M2LovelyWidget.swift:143-150 | A record that does not decode does not affect its siblings' tracks |
| TrackStore.DecodeRecordsKeepsAll | M2LovelyWidget/M2LovelyWidget.swift:143-165 | When every record decodes, the output has the input's length, and track i is the decoding of record i |
| TrackStore.DecodeRecordsOrigin | M2LovelyWidget/M2LovelyWidget.swift:143-165 | Every decoded track is the decoding of some input record |
| TrackStore.DecodeEncode | M2LovelyWidget/M2LovelyWidget.swift:143-165 | Round trip: decoding the app's record of a well-formed track returns that track, with the artwork URL resolved from the trimmed file name |
| TrackStore.RecordList | M2LovelyWidget/M2LovelyWidget.swift:139 | `as? [[String: Any]]` succeeds exactly when the value is an array whose every element is a record, and keeps them in order |
| TrackStore.LoadTracks | M2LovelyWidget/M2LovelyWidget.swift:137-166 | Every loaded track is well formed. When the suite opens and the key holds an array of records, the result is their decoding; when the suite cannot be opened, the key is absent or the value is not an array of records, the result is empty |
| TrackStore.OtherSource | M2LovelyWidget/M2LovelyWidget.swift:120-135 | The fallback source is always the other one |
| TrackStore.SharedTracks | M2LovelyWidget/M2LovelyWidget.swift:120-135 | Returns the requested list if it is non-empty, else the other list. The result is empty exactly when both lists are empty |
| TrackStore.SharedTracksMirror | M2LovelyWidget/M2LovelyWidget.swift:120-135 | Lovely and random are mirror images: with the stored lists swapped, the other source yields the same tracks |
| WidgetTimeline.MakeEntry | M2LovelyWidget/M2LovelyWidget.swift:101-118 | The entry keeps the requested source and the given date. Its track is a member of the resolved list when that list is non-empty. Otherwise it is the preview track in a preview, and no track outside one |
| WidgetTimeline.Timeline | M2LovelyWidget/M2LovelyWidget.swift:87-99 | Exactly 8 entries; entry i is dated now + 30·i minutes and is a possible makeEntry outcome for the configured source (default lovely); the refresh is now + 30 minutes |
| WidgetTimeline.Snapshot | M2LovelyWidget/M2LovelyWidget.swift:83-85 | One possible makeEntry outcome for now and the configured source |
| WidgetTimeline.Placeholder | M2LovelyWidget/M2LovelyWidget.swift:73-81 | A lovely entry dated now showing the fixed placeholder track (id "placeholder", "Lovely Song" by "M2"), which is well formed and has neither an artwork URL nor a thumbnail |
| WidgetTimeline.EntryTrackOrigin | M2LovelyWidget/M2LovelyWidget.swift:101-135 | A shown track is well formed. It comes from the requested list, from the other list, or, in a preview, is the preview track |
| WidgetTimeline.EntryWhenBothEmpty | M2LovelyWidget/M2LovelyWidget.swift:107-117 | With both lists empty, a preview shows the `preview` track, and outside a preview there is no track |
| WidgetTimeline.EntryFallsBack | M2LovelyWidget/M2LovelyWidget.swift:102-104 | With the requested list empty and the other list non-empty, the track comes from the other list, while the entry still names the requested source |
| WidgetTimeline.TimelineSpacing | M2LovelyWidget/M2LovelyWidget.swift:92-97 | The first entry is at now, consecutive entries are 1800 s apart, the last is 3.5 h after now, and the refresh falls on the second entry's date |
| DeepLink.ComponentsURL | M2LovelyWidget/M2LovelyWidget.swift:285 | A built URL carries exactly the components. With a host and a path starting with "/", building always succeeds |
| DeepLink.WidgetURL | M2LovelyWidget/M2LovelyWidget.swift:273-286 | Always scheme `m2`, host `widget` and path `/play`. There is a query exactly when the entry has a track with a non-empty id, and the link reader recovers that id |
| DeepLink.EntryTracksHaveIDs | M2LovelyWidget/M2LovelyWidget.swift:279-283 | Every track an entry can show has a non-empty id, so its link always names it |
| SleepTimerActivity.TimerState | M2/M2SleepTimerLiveActivityBridge.swift:29-37 | The state starts now and ends `remaining` later, so a positive `remaining` gives endDate > startDate. Title and subtitle pass through |
| SleepTimerActivity.WithoutFirst | M2/M2SleepTimerLiveActivityBridge.swift:55-57 | When identities are distinct, ending the first activity removes exactly that one |
| SleepTimerActivity.WithStateFirst | M2/M2SleepTimerLiveActivityBridge.swift:39-40 | When identities are distinct, updating the first activity replaces only its state |
| SleepTimerActivity.WithoutKeepsIDs | M2/M2SleepTimerLiveActivityBridge.swift:56 | Ending an activity leaves a sub-list without it and keeps identities distinct |
| SleepTimerActivity.WithStatePreservesIDs | M2/M2SleepTimerLiveActivityBridge.swift:40 | An update keeps the length of the list and every identity |
| SleepTimerActivity.ActivityCenter.Request | M2/M2SleepTimerLiveActivityBridge.swift:42-46 | A granted request appends one activity with a fresh identity. A refused request changes nothing |
| SleepTimerActivity.ActivityCenter.Update | M2/M2SleepTimerLiveActivityBridge.swift:40 | The activity keeps its identity and takes the new state |
| SleepTimerActivity.ActivityCenter.End | M2/M2SleepTimerLiveActivityBridge.swift:56 | The activity leaves the list at once |
| SleepTimerActivity.SyncSleepTimer | M2/M2SleepTimerLiveActivityBridge.swift:17-49 | The new list of activities is `Synced` of the old one, and the host invariant (distinct, fresh identities) is kept |
| SleepTimerActivity.EndSleepTimerActivity | M2/M2SleepTimerLiveActivityBridge.swift:51-59 | Ends every running activity one after the other. Afterwards none is running, and identities are not reused |
| SleepTimerActivity.SyncExpiredEndsAll | M2/M2SleepTimerLiveActivityBridge.swift:21-24 | A sync with `remaining <= 0` behaves as end: nothing is running afterwards, whatever ran before |
| SleepTimerActivity.SyncDisabledKeepsAll | M2/M2SleepTimerLiveActivityBridge.swift:27 | With Live Activities disabled, a sync with time left leaves the list unchanged |
| SleepTimerActivity.SyncUpdatesFirstInPlace | M2/M2SleepTimerLiveActivityBridge.swift:39-40 | With an activity running, only the first activity's state is replaced. Nothing is created, and count, identities and attributes stay |
| SleepTimerActivity.SyncCreatesAtMostOne | M2/M2SleepTimerLiveActivityBridge.swift:41-46 | With nothing running, at most one activity is created. It has the sleep-timer id and the new state, and it is absent exactly when the request fails |
| SleepTimerActivity.SyncSingleSlot | M2/M2SleepTimerLiveActivityBridge.swift:39-47 | A sync never adds an activity beside a running one. At most one activity before means at most one after |
| SleepTimerActivity.EndedIdempotent | M2/M2SleepTimerLiveActivityBridge.swift:51-58 | Ending is a no-op on an empty list and idempotent |
| SleepTimerActivity.SyncTwiceUpdatesOnce | M2/M2SleepTimerLiveActivityBridge.swift:39-46 | Sync at 300 s then at 250 s, starting with nothing running, gives one activity: it is created once, then updated with the same identity |
| SleepTimerActivity.RunSingleSlot | M2/M2SleepTimerLiveActivityBridge.swift:17-59 | After any sequence of syncs and ends that starts with at most one activity, at most one is running |

## Left out

- Rendering: `LovelyWidgetView.body` and its colours, `artworkImage` (image loading and base64 decoding), the `M2LovelyWidget` configuration, the `View` helpers, the `AppEnum` display names, the view's rule that hides an artist shown as "unknown artist", and the Live Activity's layout (M2LiveActivityExtension/M2SleepTimerLiveActivity.swift). These are user interface and foreign image code.
- The documentation site's script (docs/main.js) and the Objective-C headers. They are not part of this model: they hold no logic, or none with bodies.
- Asynchrony: the `Task` in both bridge methods runs synchronously here. Calls that overlap are not modelled, and neither is any lock that would make check-then-create atomic (the code has none).
- Floating point: `Date` and `TimeInterval` are exact reals, so `Double` rounding is not modelled. Calendar arithmetic is 60 s per minute, with no time-zone or leap-second effects, so the `?? now` fallbacks never arise.
- Unicode: strings are sequences of scalars, not grapheme clusters. The whitespace set is `CharacterSet.whitespacesAndNewlines`, written out by its general categories.
- `URLComponents` percent-encoding and the textual form of the URL: the deep link is kept as its components. `appendingPathComponent`'s treatment of a file name containing "/" is not modelled.
- WidgetTimeline.MakeEntry: promises only that the track is a member of the resolved list, not that the choice is uniform, because randomness has no counterpart in the verifier.
- Run: an identity is used up only by a sync that creates an activity, as in `ActivityCenter.Request`. Only the number of running activities is claimed along a run; which identity each activity gets is not.
- WidgetTimeline.Timeline: the source opens the `UserDefaults` suite and reads the key again on every `loadTracks` call, once or twice per `makeEntry` and eight `makeEntry` calls per timeline (M2LovelyWidget/M2LovelyWidget.swift:92-95, 123-133, 138-139). The model reads one `Store` throughout, so the promise that each entry is a possible `makeEntry` outcome for that store assumes the app does not rewrite the lists while a timeline is built.
- SleepTimerActivity.Synced: `remaining` is a `Double`, and a NaN fails `remaining > 0` (M2/M2SleepTimerLiveActivityBridge.swift:21), so it ends every activity. The model's `remaining` is a real, so NaN and infinities do not arise.
- The app-group identifier and the `UserDefaults`/`FileManager` lookups are inputs (`Store`). How the app writes the lists is not part of this model; `EncodeTrack` is a reference writer for the round-trip property only, and `SwapLists` exists only to state the mirror property.
