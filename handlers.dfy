/**
 * The handlers that src/app.ts and dist/app.js implement identically:
 * GET /videos, GET /videos/:id, DELETE /videos/:id and
 * DELETE /testing/all-data, and the record built by a successful POST or
 * PUT once the variant's own validation has passed.
 */
module Handlers {
  import opened Wrappers
  import opened Js
  import opened Db
  import opened Videos
  import opened Http

  /** GET /videos: the whole list, in insertion order. */
  method GetVideos(db: Store) returns (res: Response)
    ensures res == Listed(db.videos) && res.Status() == 200
  {
    res := Listed(db.videos);
  }

  /** GET /videos/:id: the first record with the given id, or 404. */
  method GetVideo(db: Store, videoId: Option<int>) returns (res: Response)
    ensures res.NotFound? <==> forall i :: 0 <= i < |db.videos| ==> !Matches(db.videos[i], videoId)
    ensures res.NotFound? || res.Found?
    ensures res.Found? ==> res.video == db.videos[FindIndex(db.videos, videoId)] && Matches(res.video, videoId)
  {
    var video := Find(db.videos, videoId);
    if video.None? {
      return NotFound;
    }
    res := Found(video.value);
  }

  /** DELETE /videos/:id: splice out the first record with the given id, or 404 with the list untouched. */
  method DeleteVideo(db: Store, videoId: Option<int>) returns (res: Response)
    modifies db
    ensures var k := FindIndex(old(db.videos), videoId);
      if k == -1 then res == NotFound && db.videos == old(db.videos)
      else res == NoContent && db.videos == RemoveAt(old(db.videos), k)
    ensures IdsIncreasing(old(db.videos)) ==> IdsIncreasing(db.videos)
    ensures IdsIncreasing(old(db.videos)) ==> forall i :: 0 <= i < |db.videos| ==> !Matches(db.videos[i], videoId)
  {
    var videoIndex := FindIndex(db.videos, videoId);
    if videoIndex == -1 {
      return NotFound;
    }
    if IdsIncreasing(db.videos) {
      RemoveKeepsIdsIncreasing(db.videos, videoIndex);
      RemovedIdIsGone(db.videos, videoIndex);
    }
    db.videos := RemoveAt(db.videos, videoIndex);
    res := NoContent;
  }

  /** DELETE /testing/all-data: replace the list with an empty one. */
  method DeleteAllData(db: Store) returns (res: Response)
    modifies db
    ensures db.videos == [] && res == NoContent
  {
    db.videos := [];
    res := NoContent;
  }

  /**
   * The record a successful POST appends: the next id, the validated title,
   * author and resolutions, downloads off, no age restriction, created now
   * and published at the supplied "tomorrow" timestamp.
   */
  function NewVideo(vs: seq<Video>, title: string, author: string, resolutions: seq<JsonValue>,
                    now: string, tomorrow: string): Video
  {
    Video(NextId(vs), title, author, Bool(false), Null, now, Str(tomorrow), resolutions)
  }

  /**
   * The record a successful PUT writes back: a copy of the stored one whose
   * title, author and resolution list are replaced by the supplied ones, and
   * whose three optional fields take the supplied value when it is truthy
   * and keep the stored value otherwise (JavaScript's `||`).
   */
  function Updated(current: Video, title: string, author: string, resolutions: seq<JsonValue>, body: Payload): Video {
    current.(
      title := title,
      author := author,
      availableResolutions := resolutions,
      canBeDownloaded := Or(body.canBeDownloaded, current.canBeDownloaded),
      minAgeRestriction := Or(body.minAgeRestriction, current.minAgeRestriction),
      publicationDate := Or(body.publicationDate, current.publicationDate))
  }

  /** A stored record sent back as a PUT body, as a client holding its JSON would. */
  function AsPayload(v: Video): Payload {
    Payload(Str(v.title), Str(v.author), Arr(v.availableResolutions), v.canBeDownloaded, v.minAgeRestriction, v.publicationDate)
  }
}
