/**
 * The widget's reader of the shared track lists: untyped records from the
 * app-group `UserDefaults` are decoded into validated tracks, and the lovely
 * and random lists fall back on each other.
 */
module TrackStore {
  import opened Wrappers
  import opened Strings
  import opened WidgetConfig

  /**
   * A property-list value as `UserDefaults` hands it back. `Other` stands for
   * every kind that is neither text nor a collection (numbers, booleans,
   * dates, data).
   */
  datatype Value =
    | Str(text: string)
    | Dict(fields: map<string, Value>)
    | Array(items: seq<Value>)
    | Other

  /** A `[String: Any]` record. */
  type Record = map<string, Value>

  /** A file URL, as its path components from the root. */
  datatype FileURL = FileURL(components: seq<string>)

  /**
   * What the widget process can see: the app-group `UserDefaults` suite
   * (`None` when it cannot be opened) and the app-group container
   * directory (`None` when the entitlement is missing).
   */
  datatype Store = Store(defaults: Option<map<string, Value>>, container: Option<FileURL>)

  /** `M2WidgetSongSource`. */
  datatype Source = Lovely | Random

  datatype Track = Track(
    id: string,
    title: string,
    artist: string,
    artworkURL: Option<FileURL>,
    artworkThumb: Option<string>)

  /** The invariant every decoded track satisfies. */
  predicate WellFormed(t: Track) {
    && t.id != [] && Trimmed(t.id)
    && t.title != [] && Trimmed(t.title)
    && t.artist != [] && Trimmed(t.artist)
    && (t.artworkThumb.Some? ==> t.artworkThumb.value != [] && Trimmed(t.artworkThumb.value))
  }

  /** `raw[key] as? String`. */
  function StringField(raw: Record, key: string): Option<string> {
    if key in raw && raw[key].Str? then Some(raw[key].text) else None
  }

  /** `(raw[key] as? String ?? "").trimmingCharacters(in: .whitespacesAndNewlines)`. */
  function TrimmedField(raw: Record, key: string): string {
    Trim(StringField(raw, key).GetOr(""))
  }

  /** A trimmed field, or the placeholder when it is blank. */
  function OrPlaceholder(trimmed: string, placeholder: string): string {
    if trimmed == [] then placeholder else trimmed
  }

  /**
   * `widgetArtworkURL(fileName:)`: the artwork file inside the shared
   * container's artwork directory, or nothing for an empty name or a missing
   * container.
   */
  function WidgetArtworkURL(fileName: string, container: Option<FileURL>): (r: Option<FileURL>)
    ensures r.Some? <==> fileName != [] && container.Some?
    ensures r.Some? ==>
      && |r.value.components| == |container.value.components| + 2
      && r.value.components[..|container.value.components|] == container.value.components
      && r.value.components[|container.value.components|] == ArtworkDirectoryName
      && r.value.components[|container.value.components| + 1] == fileName
  {
    if fileName == [] || container.None? then None
    else Some(FileURL(container.value.components + [ArtworkDirectoryName, fileName]))
  }

  /**
   * The closure given to `compactMap` in `loadTracks(key:)`: a record without
   * a text `id`, or whose `id` trims to nothing, is dropped; otherwise the
   * fields are trimmed, a blank title or artist becomes its placeholder, and
   * the artwork fields are normalised.
   */
  function DecodeTrack(raw: Record, container: Option<FileURL>): (r: Option<Track>)
    ensures r.None? <==> StringField(raw, IdKey).None? || |TrimmedField(raw, IdKey)| == 0
    ensures r.Some? ==> WellFormed(r.value)
    ensures r.Some? ==> r.value.id == TrimmedField(raw, IdKey)
    ensures r.Some? ==> r.value.title == OrPlaceholder(TrimmedField(raw, TitleKey), UnknownSong)
    ensures r.Some? ==> r.value.artist == OrPlaceholder(TrimmedField(raw, ArtistKey), UnknownArtist)
    ensures r.Some? ==> r.value.artworkURL == WidgetArtworkURL(TrimmedField(raw, ArtworkFileNameKey), container)
    ensures r.Some? ==> (r.value.artworkThumb.None? <==> |TrimmedField(raw, ArtworkThumbKey)| == 0)
    ensures r.Some? && r.value.artworkThumb.Some? ==> r.value.artworkThumb.value == TrimmedField(raw, ArtworkThumbKey)
  {
    match StringField(raw, IdKey)
    case None => None
    case Some(rawID) =>
      var id := Trim(rawID);
      if id == [] then None
      else
        var title := TrimmedField(raw, TitleKey);
        var artist := TrimmedField(raw, ArtistKey);
        var fileName := TrimmedField(raw, ArtworkFileNameKey);
        var thumb := TrimmedField(raw, ArtworkThumbKey);
        PlaceholdersTrimmed();
        TrimIsTrimmed(rawID);
        TrimIsTrimmed(StringField(raw, TitleKey).GetOr(""));
        TrimIsTrimmed(StringField(raw, ArtistKey).GetOr(""));
        TrimIsTrimmed(StringField(raw, ArtworkThumbKey).GetOr(""));
        Some(Track(
          id,
          OrPlaceholder(title, UnknownSong),
          OrPlaceholder(artist, UnknownArtist),
          WidgetArtworkURL(fileName, container),
          if thumb == [] then None else Some(thumb)))
  }

  lemma PlaceholdersTrimmed()
    ensures UnknownSong != [] && Trimmed(UnknownSong)
    ensures UnknownArtist != [] && Trimmed(UnknownArtist)
  {
  }

  /** `rawTracks.compactMap { … }`: the decodable records, in input order. */
  function DecodeRecords(raws: seq<Record>, container: Option<FileURL>): (r: seq<Track>)
    ensures |r| <= |raws|
    ensures forall t :: t in r ==> WellFormed(t)
  {
    if raws == [] then []
    else
      var rest := DecodeRecords(raws[1..], container);
      var head := DecodeTrack(raws[0], container);
      if head.None? then rest
      else
        [head.value] + rest
  }

  /**
   * Decoding works record by record: the tracks of a concatenation are the
   * tracks of each part, in order.
   */
  lemma {:induction false} DecodeRecordsAppend(a: seq<Record>, b: seq<Record>, container: Option<FileURL>)
    ensures DecodeRecords(a + b, container) == DecodeRecords(a, container) + DecodeRecords(b, container)
    decreases |a|
  {
    if a == [] {
      assert a + b == b;
    } else {
      assert (a + b)[0] == a[0];
      assert (a + b)[1..] == a[1..] + b;
      DecodeRecordsAppend(a[1..], b, container);
    }
  }

  /** A record that does not decode leaves its siblings' tracks as they were. */
  lemma DecodeRecordsSkipsDropped(a: seq<Record>, x: Record, b: seq<Record>, container: Option<FileURL>)
    requires DecodeTrack(x, container).None?
    ensures DecodeRecords(a + [x] + b, container) == DecodeRecords(a + b, container)
  {
    var none := DecodeRecords([x], container);
    assert none == [] by {
      assert [x][1..] == [];
      assert none == DecodeRecords([], container);
    }
    DecodeRecordsAppend(a + [x], b, container);
    DecodeRecordsAppend(a, [x], container);
    DecodeRecordsAppend(a, b, container);
    assert DecodeRecords(a + [x], container) == DecodeRecords(a, container) + none;
    assert DecodeRecords(a, container) + none == DecodeRecords(a, container);
  }

  /** When every record decodes, the i-th track comes from the i-th record. */
  lemma {:induction false} DecodeRecordsKeepsAll(raws: seq<Record>, container: Option<FileURL>)
    requires forall i :: 0 <= i < |raws| ==> DecodeTrack(raws[i], container).Some?
    ensures |DecodeRecords(raws, container)| == |raws|
    ensures forall i :: 0 <= i < |raws| ==> DecodeRecords(raws, container)[i] == DecodeTrack(raws[i], container).value
    decreases |raws|
  {
    if raws != [] {
      var tail := raws[1..];
      assert forall i :: 0 <= i < |tail| ==> tail[i] == raws[i + 1];
      DecodeRecordsKeepsAll(tail, container);
    }
  }

  /** Every decoded track is the decoding of some input record. */
  lemma {:induction false} DecodeRecordsOrigin(raws: seq<Record>, container: Option<FileURL>, t: Track)
    requires t in DecodeRecords(raws, container)
    ensures exists i :: 0 <= i < |raws| && DecodeTrack(raws[i], container) == Some(t)
    decreases |raws|
  {
    if DecodeTrack(raws[0], container) != Some(t) {
      DecodeRecordsOrigin(raws[1..], container, t);
      var i :| 0 <= i < |raws[1..]| && DecodeTrack(raws[1..][i], container) == Some(t);
      assert raws[1..][i] == raws[i + 1];
    }
  }

  /**
   * A track record as the app writes it into the shared store: the track's
   * fields under their keys, the artwork file name, and the thumbnail when
   * there is one.
   */
  function EncodeTrack(t: Track, artworkFileName: string): (raw: Record)
    ensures StringField(raw, IdKey) == Some(t.id)
  {
    var fields := map[
      IdKey := Str(t.id),
      TitleKey := Str(t.title),
      ArtistKey := Str(t.artist),
      ArtworkFileNameKey := Str(artworkFileName)];
    match t.artworkThumb
    case None => fields
    case Some(thumb) => fields[ArtworkThumbKey := Str(thumb)]
  }

  /**
   * Decoding inverts encoding: a well-formed track comes back unchanged, with
   * its artwork URL resolved from the trimmed file name.
   */
  lemma DecodeEncode(t: Track, artworkFileName: string, container: Option<FileURL>)
    requires WellFormed(t)
    ensures DecodeTrack(EncodeTrack(t, artworkFileName), container)
      == Some(t.(artworkURL := WidgetArtworkURL(Trim(artworkFileName), container)))
  {
    var raw := EncodeTrack(t, artworkFileName);
    TrimFixesTrimmed(t.id);
    TrimFixesTrimmed(t.title);
    TrimFixesTrimmed(t.artist);
    assert TrimmedField(raw, IdKey) == t.id;
    assert TrimmedField(raw, TitleKey) == t.title;
    assert TrimmedField(raw, ArtistKey) == t.artist;
    assert TrimmedField(raw, ArtworkFileNameKey) == Trim(artworkFileName);
    match t.artworkThumb
    case None =>
      assert ArtworkThumbKey !in raw;
      assert Trim("") == "";
    case Some(thumb) =>
      TrimFixesTrimmed(thumb);
      assert TrimmedField(raw, ArtworkThumbKey) == thumb;
  }

  /** `value as? [[String: Any]]`: an array all of whose elements are records. */
  function RecordList(v: Value): (r: Option<seq<Record>>)
    ensures r.Some? <==> v.Array? && forall i :: 0 <= i < |v.items| ==> v.items[i].Dict?
    ensures r.Some? ==> |r.value| == |v.items|
    ensures r.Some? ==> forall i :: 0 <= i < |r.value| ==> v.items[i] == Dict(r.value[i])
  {
    if v.Array? && forall i :: 0 <= i < |v.items| ==> v.items[i].Dict? then
      Some(seq(|v.items|, i requires 0 <= i < |v.items| => v.items[i].fields))
    else
      None
  }

  /**
   * `loadTracks(key:)`: the decoded list stored under `key`, or nothing when
   * the suite cannot be opened, the key is absent, or the stored value is not
   * an array of records.
   */
  function LoadTracks(store: Store, key: string): (r: seq<Track>)
    ensures forall t :: t in r ==> WellFormed(t)
    ensures r != [] ==>
      && store.defaults.Some? && key in store.defaults.value
      && RecordList(store.defaults.value[key]).Some?
      && r == DecodeRecords(RecordList(store.defaults.value[key]).value, store.container)
    ensures (store.defaults.Some? && key in store.defaults.value && RecordList(store.defaults.value[key]).Some?)
      ==> r == DecodeRecords(RecordList(store.defaults.value[key]).value, store.container)
    ensures !(store.defaults.Some? && key in store.defaults.value && RecordList(store.defaults.value[key]).Some?)
      ==> r == []
  {
    match store.defaults
    case None => []
    case Some(defaults) =>
      if key !in defaults then []
      else
        match RecordList(defaults[key])
        case None => []
        case Some(raws) => DecodeRecords(raws, store.container)
  }

  function KeyFor(source: Source): string {
    match source
    case Lovely => LovelyTracksKey
    case Random => RandomTracksKey
  }

  function OtherSource(source: Source): (r: Source)
    ensures r != source
  {
    match source
    case Lovely => Random
    case Random => Lovely
  }

  /**
   * `sharedTracks(for:)`: the requested list when it is non-empty, otherwise
   * the other one.
   */
  function SharedTracks(store: Store, source: Source): (r: seq<Track>)
    ensures LoadTracks(store, KeyFor(source)) != [] ==> r == LoadTracks(store, KeyFor(source))
    ensures LoadTracks(store, KeyFor(source)) == [] ==> r == LoadTracks(store, KeyFor(OtherSource(source)))
    ensures r == [] <==> LoadTracks(store, LovelyTracksKey) == [] && LoadTracks(store, RandomTracksKey) == []
    ensures forall t :: t in r ==> WellFormed(t)
  {
    var requested := LoadTracks(store, KeyFor(source));
    if requested != [] then requested else LoadTracks(store, KeyFor(OtherSource(source)))
  }

  /** The store with the lovely and random lists exchanged. */
  function SwapLists(store: Store): (r: Store)
    ensures r.container == store.container
    ensures LoadTracks(r, LovelyTracksKey) == LoadTracks(store, RandomTracksKey)
    ensures LoadTracks(r, RandomTracksKey) == LoadTracks(store, LovelyTracksKey)
  {
    match store.defaults
    case None => store
    case Some(d) =>
      var rest := d - {LovelyTracksKey, RandomTracksKey};
      var withLovely := if RandomTracksKey in d then rest[LovelyTracksKey := d[RandomTracksKey]] else rest;
      var swapped := if LovelyTracksKey in d then withLovely[RandomTracksKey := d[LovelyTracksKey]] else withLovely;
      store.(defaults := Some(swapped))
  }

  /** The two sources are mirror images: each falls back on the other in the same way. */
  lemma SharedTracksMirror(store: Store, source: Source)
    ensures SharedTracks(SwapLists(store), OtherSource(source)) == SharedTracks(store, source)
  {
  }
}
