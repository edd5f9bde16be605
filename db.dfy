/**
 * The shared in-memory store: the `Video` record and the `db` object whose
 * `videos` list every request handler reads, appends to, overwrites,
 * splices and resets.
 */
module Db {
  import opened Js

  /**
   * A stored video. `title` and `author` are always strings and
   * `availableResolutions` the elements of an array, because every path
   * that stores them validates them first. The other three fields are
   * written with `supplied || stored`, so they hold whatever JSON value won
   * that expression; the declared types (`boolean`, `null`, `string`) are
   * not enforced at run time.
   */
  datatype Video = Video(
    id: int,
    title: string,
    author: string,
    canBeDownloaded: JsonValue,
    minAgeRestriction: JsonValue,
    createdAt: string,
    publicationDate: JsonValue,
    availableResolutions: seq<JsonValue>)

  /**
   * `canBeDownloaded` holds a boolean and `minAgeRestriction` holds null or
   * a number from 1 to 18: the shapes the update rules of src/app.ts admit.
   */
  predicate TypedFlags(v: Video) {
    v.canBeDownloaded.Bool? && AcceptedAgeLimit(v.minAgeRestriction)
  }

  /** An age limit the update rules let through: null, or a number from 1 to 18 (not necessarily whole). */
  predicate AcceptedAgeLimit(m: JsonValue) {
    m == Null || (m.Num? && 1.0 <= m.n <= 18.0)
  }

  /** The record the store is seeded with; both timestamps are clock readings taken at start-up. */
  function SeedVideo(createdAt: string, publicationDate: string): Video {
    Video(
      1,
      "My First Video",
      "John Doe",
      Bool(true),
      Null,
      createdAt,
      Str(publicationDate),
      [Str("P144"), Str("P240"), Str("P360")])
  }

  /** The exported `db` object. */
  class Store {
    var videos: seq<Video>

    /** The store at start-up: the seed record alone. */
    constructor (createdAt: string, publicationDate: string)
      ensures videos == [SeedVideo(createdAt, publicationDate)]
      ensures |videos| == 1 && videos[0].id == 1
    {
      videos := [SeedVideo(createdAt, publicationDate)];
    }
  }
}
