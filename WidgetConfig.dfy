/** The widget's fixed identifiers: the shared-store keys, the artwork directory and the deep link. */
module WidgetConfig {

  const LovelyTracksKey: string := "m2_widget_lovely_tracks_v1"
  const RandomTracksKey: string := "m2_widget_random_tracks_v1"
  const ArtworkDirectoryName: string := "m2_widget_artwork_v1"

  /** Field names of a stored track record. */
  const IdKey: string := "id"
  const TitleKey: string := "title"
  const ArtistKey: string := "artist"
  const ArtworkFileNameKey: string := "artworkFileName"
  const ArtworkThumbKey: string := "artworkThumb"

  /** Placeholders for a blank title or artist. */
  const UnknownSong: string := "Unknown Song"
  const UnknownArtist: string := "Unknown Artist"

  const DeepLinkScheme: string := "m2"
  const DeepLinkHost: string := "widget"
  const DeepLinkPath: string := "/play"
  const DeepLinkTrackIDQueryItem: string := "trackID"
}
