/**
 * Request sequences against a fresh store holding the seed record, as a
 * client of either build would send them: they pin down the id rule, the
 * 404 paths and what a round trip through the store gives back.
 */
module Scenarios {
  import opened Wrappers
  import opened Js
  import opened Db
  import opened Videos
  import opened Http
  import opened Handlers
  import opened App

  /** A create body that passes the rules of both builds. */
  function OceanBody(): Payload {
    Payload(Str("Ocean"), Str("Jane Doe"), Arr([Str("P720")]), Absent, Absent, Absent)
  }

  /** It passes the create rules of src/app.ts. */
  lemma OceanBodyAccepted()
    ensures CreateAccepted(OceanBody())
  {
    FirstCharMakesText("Ocean");
    FirstCharMakesText("Jane Doe");
  }

  /** The first record created after start-up gets id 2 (the seed has 1) and can then be read back. */
  method CreateThenRead(createdAt: string, publicationDate: string, now: string, tomorrow: string)
    returns (created: Response, read: Response, listed: Response)
    ensures created.Created? && created.video.id == 2 && created.Status() == 201
    ensures read == Found(created.video)
    ensures listed == Listed([SeedVideo(createdAt, publicationDate), created.video])
  {
    var db := new Store(createdAt, publicationDate);
    OceanBodyAccepted();
    var seed := [SeedVideo(createdAt, publicationDate)];
    created := PostVideo(db, OceanBody(), now, tomorrow);
    FindAppended(seed, created.video);
    read := GetVideo(db, Some(2));
    listed := GetVideos(db);
  }

  /** Deleting the seed twice: 204, then 404, and the list is empty. */
  method DeleteTwice(createdAt: string, publicationDate: string)
    returns (first: Response, second: Response, listed: Response)
    ensures first == NoContent && first.Status() == 204
    ensures second == NotFound && second.Status() == 404
    ensures listed == Listed([])
  {
    var db := new Store(createdAt, publicationDate);
    first := DeleteVideo(db, Some(1));
    second := DeleteVideo(db, Some(1));
    listed := GetVideos(db);
  }

  /** An id that `parseInt` cannot read (NaN) matches no record: GET, PUT and DELETE are all 404. */
  method UnparsableIdIsNotFound(createdAt: string, publicationDate: string, body: Payload, isDate: JsonValue -> bool)
    returns (read: Response, replaced: Response, deleted: Response)
    ensures read == NotFound && replaced == NotFound && deleted == NotFound
  {
    var db := new Store(createdAt, publicationDate);
    read := GetVideo(db, None);
    replaced := PutVideo(db, None, body, isDate);
    deleted := DeleteVideo(db, None);
  }

  /**
   * The next id is the last record's id plus one, not a counter: once the
   * newest record is deleted, the next create hands out its id again.
   */
  method DeletedIdIsReused(createdAt: string, publicationDate: string, now: string, tomorrow: string)
    returns (first: Response, second: Response)
    ensures first.Created? && second.Created?
    ensures first.video.id == 2 && second.video.id == 2
  {
    var db := new Store(createdAt, publicationDate);
    OceanBodyAccepted();
    first := PostVideo(db, OceanBody(), now, tomorrow);
    var _ := DeleteVideo(db, Some(2));
    second := PostVideo(db, OceanBody(), now, tomorrow);
  }

  /** Deleting an older record does not lower the next id: it follows the last record. */
  method NextIdFollowsLastRecord(createdAt: string, publicationDate: string, now: string, tomorrow: string)
    returns (first: Response, second: Response)
    ensures first.Created? && second.Created?
    ensures first.video.id == 2 && second.video.id == 3
  {
    var db := new Store(createdAt, publicationDate);
    OceanBodyAccepted();
    first := PostVideo(db, OceanBody(), now, tomorrow);
    var _ := DeleteVideo(db, Some(1));
    second := PostVideo(db, OceanBody(), now, tomorrow);
  }

  /** After the reset route the ids start over at 1. */
  method ResetRestartsIds(createdAt: string, publicationDate: string, now: string, tomorrow: string)
    returns (reset: Response, created: Response)
    ensures reset == NoContent
    ensures created.Created? && created.video.id == 1
  {
    var db := new Store(createdAt, publicationDate);
    reset := DeleteAllData(db);
    OceanBodyAccepted();
    created := PostVideo(db, OceanBody(), now, tomorrow);
  }

  /**
   * Sending the seed record back unchanged keeps it as it was, given that
   * its publication timestamp parses.
   */
  method ResendSeedKeepsIt(createdAt: string, publicationDate: string, isDate: JsonValue -> bool)
    returns (replaced: Response, read: Response)
    requires isDate(Str(publicationDate))
    ensures replaced == NoContent
    ensures read == Found(SeedVideo(createdAt, publicationDate))
  {
    var db := new Store(createdAt, publicationDate);
    SeedPassesUpdateRules(createdAt, publicationDate, isDate);
    replaced := PutVideo(db, Some(1), AsPayload(SeedVideo(createdAt, publicationDate)), isDate);
    read := GetVideo(db, Some(1));
  }
}
