/**
 * The widget's timeline provider: each entry shows a track picked at random
 * from the shared lists, and a timeline is a fixed batch of such entries.
 */
module WidgetTimeline {
  import opened Wrappers
  import opened Dates
  import opened TrackStore

  /** Entries per timeline, the minutes between them, and the minutes until the next refresh. */
  const EntryCount: nat := 8
  const StepMinutes: int := 30
  const RefreshMinutes: int := 30

  /** `LovelyEntry`. */
  datatype Entry = Entry(date: Date, source: Source, track: Option<Track>)

  /** `Timeline(entries:policy: .after(refreshAfter))`. */
  datatype TimelineBatch = TimelineBatch(entries: seq<Entry>, refreshAfter: Date)

  /** The track shown in a preview when both lists are empty. */
  const PreviewTrack: Track := Track("preview", "Song", "M2", None, None)

  /** The track of the widget gallery's placeholder. */
  const PlaceholderTrack: Track := Track("placeholder", "Lovely Song", "M2", None, None)

  /** `configuration.source ?? .lovely`. */
  function ConfiguredSource(configured: Option<Source>): Source {
    configured.GetOr(Lovely)
  }

  /**
   * The outcomes `makeEntry(for:source:preview:)` may produce: a member of the
   * resolved list when it is non-empty (the pick is random), else the preview
   * track in a preview, else no track. The requested source and the date are
   * kept whichever list supplied the track.
   */
  predicate IsEntryFor(e: Entry, date: Date, source: Source, preview: bool, store: Store) {
    var tracks := SharedTracks(store, source);
    && e.date == date
    && e.source == source
    && (tracks != [] ==> e.track.Some? && e.track.value in tracks)
    && (tracks == [] ==> e.track == if preview then Some(PreviewTrack) else None)
  }

  /** `makeEntry(for:source:preview:)`; `randomElement()` is an arbitrary choice among the tracks. */
  method MakeEntry(date: Date, source: Source, preview: bool, store: Store) returns (e: Entry)
    ensures IsEntryFor(e, date, source, preview, store)
  {
    var tracks := SharedTracks(store, source);
    if tracks != [] {
      assert tracks[0] in tracks;
      var track :| track in tracks;
      return Entry(date, source, Some(track));
    }
    if preview {
      return Entry(date, source, Some(PreviewTrack));
    }
    return Entry(date, source, None);
  }

  /** The date of the entry at position `step` of a timeline generated at `now`. */
  function EntryDate(now: Date, step: int): Date {
    AddingMinutes(now, step * StepMinutes)
  }

  /**
   * `timeline(for:in:)`: eight entries, the i-th dated `now` plus 30·i minutes
   * and each picked independently, and a refresh 30 minutes after `now`.
   */
  method Timeline(now: Date, configured: Option<Source>, preview: bool, store: Store)
    returns (timeline: TimelineBatch)
    ensures |timeline.entries| == EntryCount
    ensures forall i :: 0 <= i < |timeline.entries| ==>
      IsEntryFor(timeline.entries[i], EntryDate(now, i), ConfiguredSource(configured), preview, store)
    ensures timeline.refreshAfter == AddingMinutes(now, RefreshMinutes)
  {
    var source := ConfiguredSource(configured);
    var entries: seq<Entry> := [];
    for step := 0 to EntryCount
      invariant |entries| == step
      invariant forall i :: 0 <= i < step ==> IsEntryFor(entries[i], EntryDate(now, i), source, preview, store)
    {
      var date := AddingMinutes(now, step * StepMinutes);
      var entry := MakeEntry(date, source, preview, store);
      entries := entries + [entry];
    }
    var nextUpdate := AddingMinutes(now, RefreshMinutes);
    return TimelineBatch(entries, nextUpdate);
  }

  /** `snapshot(for:in:)`: one entry for the present moment. */
  method Snapshot(now: Date, configured: Option<Source>, preview: bool, store: Store) returns (e: Entry)
    ensures IsEntryFor(e, now, ConfiguredSource(configured), preview, store)
  {
    e := MakeEntry(now, ConfiguredSource(configured), preview, store);
  }

  /** `placeholder(in:)`: a fixed lovely entry, independent of the store. */
  function Placeholder(now: Date): (e: Entry)
    ensures e.date == now && e.source == Lovely
    ensures e.track == Some(PlaceholderTrack)
    ensures e.track.Some? && WellFormed(e.track.value)
    ensures e.track.value.artworkURL.None? && e.track.value.artworkThumb.None?
  {
    Entry(now, Lovely, Some(PlaceholderTrack))
  }

  /**
   * A present track is either one of the stored tracks, from the requested
   * list or from the other one, or the preview track.
   */
  lemma EntryTrackOrigin(e: Entry, date: Date, source: Source, preview: bool, store: Store)
    requires IsEntryFor(e, date, source, preview, store)
    ensures e.track.Some? ==>
      || e.track.value in LoadTracks(store, KeyFor(source))
      || e.track.value in LoadTracks(store, KeyFor(OtherSource(source)))
      || (preview && e.track.value == PreviewTrack)
    ensures e.track.Some? ==> WellFormed(e.track.value)
  {
  }

  /** With both lists empty, a preview shows the preview track and otherwise there is no track. */
  lemma EntryWhenBothEmpty(e: Entry, date: Date, source: Source, preview: bool, store: Store)
    requires IsEntryFor(e, date, source, preview, store)
    requires LoadTracks(store, KeyFor(Lovely)) == [] && LoadTracks(store, KeyFor(Random)) == []
    ensures preview ==> e.track == Some(PreviewTrack)
    ensures !preview ==> e.track.None?
  {
  }

  /**
   * With the requested list empty and the other non-empty, every track comes
   * from the other list, while the entry still names the requested source.
   */
  lemma EntryFallsBack(e: Entry, date: Date, source: Source, preview: bool, store: Store)
    requires IsEntryFor(e, date, source, preview, store)
    requires LoadTracks(store, KeyFor(source)) == [] && LoadTracks(store, KeyFor(OtherSource(source))) != []
    ensures e.track.Some? && e.track.value in LoadTracks(store, KeyFor(OtherSource(source)))
    ensures e.source == source
  {
  }

  /**
   * The timeline covers three and a half hours from `now` in equal 30-minute
   * steps, and the host is asked back at the second entry's date.
   */
  lemma TimelineSpacing(now: Date)
    ensures EntryDate(now, 0) == now
    ensures forall i :: 0 <= i < EntryCount - 1 ==> EntryDate(now, i + 1) == AddingTimeInterval(EntryDate(now, i), 1800.0)
    ensures EntryDate(now, EntryCount - 1) == AddingTimeInterval(now, 12600.0)
    ensures AddingMinutes(now, RefreshMinutes) == EntryDate(now, 1)
  {
  }
}
