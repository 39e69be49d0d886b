/**
 * One entry of the `targets` list of the song configuration, with the
 * defaults the callers apply to missing fields: an empty title or artist,
 * no aliases, no platforms, no YouTube reference.
 */
module Targets {
  import opened Wrappers
  import opened History

  /** The `youtube` field of a target: an `id`, a `url`, either or neither. */
  datatype YoutubeRef = YoutubeRef(id: Option<string>, url: Option<string>)

  datatype Target = Target(
    title: string,
    artist: string,
    titleAliases: seq<string>,
    artistAliases: seq<string>,
    platforms: seq<string>,
    youtube: Option<YoutubeRef>)

  /** `platform in t.get("platforms", [])`. */
  predicate Lists(t: Target, platform: string)
  {
    platform in t.platforms
  }

  /** The history key of a target, from its raw title and artist (never its aliases). */
  function TargetKey(t: Target): string
  {
    ResultKey(t.title, t.artist)
  }
}
