/**
 * The records of lfcircle: the run configuration (`Behaviour`), an item with a
 * play count (`ThingWithScrobbles`) and one user's weekly summary
 * (`ListeningReport`). All are immutable values.
 */
module Records {
  import opened Wrappers

  /** The output style; the source's enum has exactly these two members. */
  datatype FormatType = Ascii | Telegram

  /** Run-wide settings, as the command line produces them. */
  datatype Behaviour = Behaviour(
    targets: seq<string>,
    header: string,
    truncateScheme: bool,
    lowercase: bool,
    allTheLinks: bool,
    format: FormatType,
    verbose: bool)

  /** An artist, album or track with its play count; secondary list items carry no link. */
  datatype ThingWithScrobbles = ThingWithScrobbles(name: string, scrobbles: nat, url: Option<string>)

  /** One user's weekly listening summary. */
  datatype ListeningReport = ListeningReport(
    user: string,
    url: string,
    scrobblesCount: nat,
    scrobblesDailyAvg: nat,
    artistsCount: nat,
    albumsCount: nat,
    tracksCount: nat,
    artists: seq<ThingWithScrobbles>,
    albums: seq<ThingWithScrobbles>,
    tracks: seq<ThingWithScrobbles>,
    artistsTopNew: ThingWithScrobbles,
    albumsTopNew: ThingWithScrobbles,
    tracksTopNew: ThingWithScrobbles,
    listeningTimeHours: nat)

  /** What rendering relies on: each top list has its top item in front. */
  predicate WellFormed(r: ListeningReport) {
    |r.artists| > 0 && |r.albums| > 0 && |r.tracks| > 0
  }

  /** The key of the primary leaderboard order: listening hours plus scrobbles. */
  function CompositeKey(r: ListeningReport): int {
    r.listeningTimeHours + r.scrobblesCount
  }

  function ScrobblesKey(r: ListeningReport): int {
    r.scrobblesCount
  }

  function ArtistsKey(r: ListeningReport): int {
    r.artistsCount
  }

  function AlbumsKey(r: ListeningReport): int {
    r.albumsCount
  }

  function TracksKey(r: ListeningReport): int {
    r.tracksCount
  }
}
