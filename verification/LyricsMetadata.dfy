/** What the lyrics service knows of a track (lyrics.rs, struct Metadata). */
module LyricsMetadata {
  import opened Wrappers

  datatype Metadata = Metadata(id: string, title: string, artist: string, album: string, duration: Option<nat>)
}
