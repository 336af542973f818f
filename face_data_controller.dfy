/**
 * The five request handlers of the API (api/controllers/faceDataController.js).
 * Each one is a single sequential step over the storage directory that ends
 * in a response; the directory after the step and the response are given by
 * the step functions below, and the handlers of `Controller` are proved to
 * compute them by calling the storage helpers.
 */
module FaceDataController {
  import opened Wrappers
  import opened JsValues
  import opened FaceModel

  // ---------------------------------------------------------------------------
  // File names
  // ---------------------------------------------------------------------------

  const RecordPrefix: string := "face_data_"
  const RecordSuffix: string := ".json"
  const ImagePrefix: string := "screenshot_"
  const ImageSuffix: string := ".png"

  /** The record file of a timestamp. */
  function RecordName(timestamp: string): string
  {
    RecordPrefix + timestamp + RecordSuffix
  }

  /** The screenshot file of a timestamp. */
  function ImageName(timestamp: string): string
  {
    ImagePrefix + timestamp + ImageSuffix
  }

  /** `s` is `prefix + middle + suffix` for some middle part; gives that part. */
  function Middle(s: string, prefix: string, suffix: string): string
    requires |prefix| + |suffix| <= |s|
  {
    s[|prefix|..|s| - |suffix|]
  }

  /** The timestamp can be read back from a record name. */
  lemma RecordNameMiddle(timestamp: string)
    ensures |RecordPrefix| + |RecordSuffix| <= |RecordName(timestamp)|
    ensures Middle(RecordName(timestamp), RecordPrefix, RecordSuffix) == timestamp
  {
    var s := RecordName(timestamp);
    assert s[|RecordPrefix|..|s| - |RecordSuffix|] == timestamp;
  }

  /** The timestamp can be read back from a screenshot name. */
  lemma ImageNameMiddle(timestamp: string)
    ensures |ImagePrefix| + |ImageSuffix| <= |ImageName(timestamp)|
    ensures Middle(ImageName(timestamp), ImagePrefix, ImageSuffix) == timestamp
  {
    var s := ImageName(timestamp);
    assert s[|ImagePrefix|..|s| - |ImageSuffix|] == timestamp;
  }

  /** Different timestamps give different record names and different screenshot names. */
  lemma NamesInjective(t1: string, t2: string)
    ensures RecordName(t1) == RecordName(t2) ==> t1 == t2
    ensures ImageName(t1) == ImageName(t2) ==> t1 == t2
  {
    RecordNameMiddle(t1);
    RecordNameMiddle(t2);
    ImageNameMiddle(t1);
    ImageNameMiddle(t2);
  }

  /** No record name is ever a screenshot name. */
  lemma NamesDisjoint(t1: string, t2: string)
    ensures RecordName(t1) != ImageName(t2)
  {
    assert RecordName(t1)[0] == 'f';
    assert ImageName(t2)[0] == 's';
  }

  // ---------------------------------------------------------------------------
  // The server's timestamp: `Date.now()` written in decimal
  // ---------------------------------------------------------------------------

  function Digit(d: nat): char
    requires d < 10
  {
    ('0' as int + d) as char
  }

  /** How a template literal renders a non-negative integer number of milliseconds. */
  function Decimal(n: nat): (s: string)
    ensures |s| >= 1
    ensures n >= 10 ==> |s| >= 2
  {
    if n < 10 then [Digit(n)] else Decimal(n / 10) + [Digit(n % 10)]
  }

  /** Two different instants never render to the same timestamp. */
  lemma {:induction false} DecimalInjective(m: nat, n: nat)
    requires Decimal(m) == Decimal(n)
    ensures m == n
  {
    var s := Decimal(m);
    assert Digit(m % 10) == s[|s| - 1] == Digit(n % 10);
    if m >= 10 && n >= 10 {
      assert Decimal(m / 10) == s[..|s| - 1] == Decimal(n / 10);
      DecimalInjective(m / 10, n / 10);
    }
  }

  // ---------------------------------------------------------------------------
  // Requests, responses and the step of each handler
  // ---------------------------------------------------------------------------

  /** The two fields of a create or update body; an absent field is `Undefined`. */
  datatype Body = Body(faceData: JsValue, screenshot: JsValue)

  /** What a response carries. */
  datatype Reply =
    | Message(text: string)
    | FileNames(names: set<string>)
    | Record(data: JsValue)
    | ServerError   // a synchronous exception in a handler, which Express's default handler answers

  datatype Response = Response(status: nat, reply: Reply)

  /** A handler's outcome: the directory after it and its response. */
  datatype Step = Step(dir: Dir, response: Response)

  const InvalidData := Response(400, Message("Invalid data"))
  const NotFound := Response(404, Message("File not found"))
  const Saved := Response(200, Message("Data saved successfully"))
  const Updated := Response(200, Message("Data updated successfully"))
  const Deleted := Response(200, Message("Data deleted successfully"))
  const Crashed := Response(500, ServerError)

  /**
   * Create and update: after the presence check, the record is written, then
   * the screenshot. A screenshot that is not a string throws in `split`
   * after the record's write was issued, which leaves the record alone.
   */
  function SaveStep(dir: Dir, timestamp: string, body: Body, success: Response): Step
  {
    if Falsy(body.faceData) || Falsy(body.screenshot) then
      Step(dir, InvalidData)
    else
      var withRecord := dir[RecordName(timestamp) := Json(body.faceData)];
      if body.screenshot.Str? then
        Step(withRecord[ImageName(timestamp) := Png(Payload(body.screenshot.s))], success)
      else
        Step(withRecord, Crashed)
  }

  /** Get-all: the names in the directory. */
  function ListStep(dir: Dir): Response
  {
    Response(200, FileNames(dir.Keys))
  }

  /** Get-by-timestamp: the parsed record, or 404 for a missing file. */
  function GetStep(dir: Dir, timestamp: string): Response
  {
    var name := RecordName(timestamp);
    if name !in dir then NotFound
    else match dir[name]
      case Json(v) => Response(200, Record(v))
      // JSON.parse throws inside the read callback, where Express cannot catch
      // it: the process exits and no response goes out. `Crashed` stands for
      // that here; `WellFormed` storage never reaches this case.
      case Png(_) => Crashed
  }

  /** Delete: both sibling files go, whether or not they existed. */
  function DeleteStep(dir: Dir, timestamp: string): Step
  {
    Step(dir - {RecordName(timestamp), ImageName(timestamp)}, Deleted)
  }

  // ---------------------------------------------------------------------------
  // What the handlers promise
  // ---------------------------------------------------------------------------

  /** Every record file holds JSON: what the handlers write under record names. */
  ghost predicate WellFormed(dir: Dir)
  {
    forall t :: RecordName(t) in dir ==> dir[RecordName(t)].Json?
  }

  /** Record files and screenshot files come in pairs. */
  ghost predicate Paired(dir: Dir)
  {
    forall t :: RecordName(t) in dir <==> ImageName(t) in dir
  }

  /** A body without both fields gives 400 and writes nothing. */
  lemma InvalidBodyWritesNothing(dir: Dir, timestamp: string, body: Body, success: Response)
    requires Falsy(body.faceData) || Falsy(body.screenshot)
    ensures SaveStep(dir, timestamp, body, success) == Step(dir, InvalidData)
  {
  }

  /**
   * A valid body with a string screenshot sets exactly the two sibling files
   * of the timestamp, replacing what they held, and reports success.
   */
  lemma SaveWritesPair(dir: Dir, timestamp: string, body: Body, success: Response)
    requires !Falsy(body.faceData) && !Falsy(body.screenshot) && body.screenshot.Str?
    ensures var step := SaveStep(dir, timestamp, body, success);
      && step.response == success
      && step.dir.Keys == dir.Keys + {RecordName(timestamp), ImageName(timestamp)}
      && step.dir[RecordName(timestamp)] == Json(body.faceData)
      && step.dir[ImageName(timestamp)] == Png(Payload(body.screenshot.s))
      && forall name :: name in dir && name != RecordName(timestamp) && name != ImageName(timestamp) ==>
           step.dir[name] == dir[name]
  {
    NamesDisjoint(timestamp, timestamp);
  }

  /** A screenshot that is not a string leaves the new record without its image. */
  lemma NonStringScreenshotUnpairs(dir: Dir, timestamp: string, body: Body, success: Response)
    requires !Falsy(body.faceData) && !Falsy(body.screenshot) && !body.screenshot.Str?
    requires ImageName(timestamp) !in dir
    ensures var step := SaveStep(dir, timestamp, body, success);
      && step.response == Crashed
      && RecordName(timestamp) in step.dir && ImageName(timestamp) !in step.dir
      && !Paired(step.dir)
  {
    NamesDisjoint(timestamp, timestamp);
  }

  /** Delete removes exactly the two sibling files and always reports success. */
  lemma DeleteRemovesPair(dir: Dir, timestamp: string)
    ensures var step := DeleteStep(dir, timestamp);
      && step.response == Deleted
      && step.dir.Keys == dir.Keys - {RecordName(timestamp), ImageName(timestamp)}
      && forall name :: name in step.dir ==> step.dir[name] == dir[name]
  {
  }

  /** Saving keeps record files JSON. */
  lemma {:induction false} SavePreservesWellFormed(dir: Dir, timestamp: string, body: Body, success: Response)
    requires WellFormed(dir)
    ensures WellFormed(SaveStep(dir, timestamp, body, success).dir)
  {
    var after := SaveStep(dir, timestamp, body, success).dir;
    forall t | RecordName(t) in after
      ensures after[RecordName(t)].Json?
    {
      NamesDisjoint(t, timestamp);
      if RecordName(t) != RecordName(timestamp) {
        assert RecordName(t) in dir;
      }
    }
  }

  /** Saving a valid body with a string screenshot keeps records and images paired. */
  lemma {:induction false} SavePreservesPaired(dir: Dir, timestamp: string, body: Body, success: Response)
    requires Paired(dir)
    requires !Falsy(body.faceData) && !Falsy(body.screenshot) ==> body.screenshot.Str?
    ensures Paired(SaveStep(dir, timestamp, body, success).dir)
  {
    var after := SaveStep(dir, timestamp, body, success).dir;
    forall t
      ensures RecordName(t) in after <==> ImageName(t) in after
    {
      NamesDisjoint(t, timestamp);
      NamesDisjoint(timestamp, t);
      NamesInjective(t, timestamp);
      assert RecordName(t) in dir <==> ImageName(t) in dir;
    }
  }

  /** Deleting keeps record files JSON and keeps records and images paired. */
  lemma {:induction false} DeletePreserves(dir: Dir, timestamp: string)
    ensures WellFormed(dir) ==> WellFormed(DeleteStep(dir, timestamp).dir)
    ensures Paired(dir) ==> Paired(DeleteStep(dir, timestamp).dir)
  {
    var after := DeleteStep(dir, timestamp).dir;
    if Paired(dir) {
      forall t
        ensures RecordName(t) in after <==> ImageName(t) in after
      {
        NamesDisjoint(t, timestamp);
        NamesDisjoint(timestamp, t);
        NamesInjective(t, timestamp);
        assert RecordName(t) in dir <==> ImageName(t) in dir;
      }
    }
  }

  /** Over a well-formed directory, get-by-timestamp answers 200 or 404. */
  lemma GetAnswers(dir: Dir, timestamp: string)
    requires WellFormed(dir)
    ensures GetStep(dir, timestamp).status == 200 <==> RecordName(timestamp) in dir
    ensures GetStep(dir, timestamp) == NotFound <==> RecordName(timestamp) !in dir
  {
  }

  /** A saved record is what a get of the same timestamp returns. */
  lemma GetAfterSave(dir: Dir, timestamp: string, body: Body, success: Response)
    requires !Falsy(body.faceData) && !Falsy(body.screenshot)
    ensures GetStep(SaveStep(dir, timestamp, body, success).dir, timestamp) == Response(200, Record(body.faceData))
  {
    NamesDisjoint(timestamp, timestamp);
  }

  /** After a delete, a get of the same timestamp is 404. */
  lemma GetAfterDelete(dir: Dir, timestamp: string)
    ensures GetStep(DeleteStep(dir, timestamp).dir, timestamp) == NotFound
  {
  }

  /** Saving under one timestamp leaves what a get of another timestamp returns. */
  lemma {:induction false} SaveLeavesOthers(dir: Dir, t1: string, t2: string, body: Body, success: Response)
    requires t1 != t2
    ensures GetStep(SaveStep(dir, t1, body, success).dir, t2) == GetStep(dir, t2)
  {
    NamesInjective(t2, t1);
    NamesDisjoint(t2, t1);
  }

  /**
   * Two creates at different instants do not collide: the first record can
   * still be read after the second create.
   */
  lemma {:induction false} CreatesAtDistinctInstants(dir: Dir, now1: nat, now2: nat, body1: Body, body2: Body)
    requires now1 != now2
    requires !Falsy(body1.faceData) && !Falsy(body1.screenshot)
    ensures var first := SaveStep(dir, Decimal(now1), body1, Saved).dir;
      GetStep(SaveStep(first, Decimal(now2), body2, Saved).dir, Decimal(now1)) == Response(200, Record(body1.faceData))
  {
    if Decimal(now1) == Decimal(now2) {
      DecimalInjective(now1, now2);
    }
    var first := SaveStep(dir, Decimal(now1), body1, Saved).dir;
    GetAfterSave(dir, Decimal(now1), body1, Saved);
    SaveLeavesOthers(first, Decimal(now2), Decimal(now1), body2, Saved);
  }

  // ---------------------------------------------------------------------------
  // The handlers
  // ---------------------------------------------------------------------------

  /** The handlers, sharing the one face-data directory. */
  class Controller {
    const store: FaceStore

    /** Record files hold JSON; every handler keeps this. */
    ghost predicate Valid()
      reads this, store
    {
      WellFormed(store.files)
    }

    /** The server at startup: an empty directory. */
    constructor ()
      ensures fresh(store) && store.files == map[] && Valid()
    {
      store := new FaceStore();
    }

    /** POST /face-data: saves under the current instant `now` in milliseconds. */
    method CreateFaceData(body: Body, now: nat) returns (response: Response)
      requires Valid()
      modifies store
      ensures Valid()
      ensures Step(store.files, response) == SaveStep(old(store.files), Decimal(now), body, Saved)
    {
      if Falsy(body.faceData) || Falsy(body.screenshot) {
        return InvalidData;
      }
      var timestamp := Decimal(now);
      response := Save(RecordName(timestamp), ImageName(timestamp), body, Saved);
      SavePreservesWellFormed(old(store.files), timestamp, body, Saved);
    }

    /** GET /face-data: every name in the directory. */
    method GetAllFaceData() returns (response: Response)
      ensures response.status == 200 && response.reply.FileNames?
      ensures forall name :: name in response.reply.names <==> name in store.files
      ensures response == ListStep(store.files)
    {
      var names := store.GetAllFaceData();
      response := Response(200, FileNames(names));
    }

    /** GET /face-data/:timestamp: the stored record, or 404. */
    method GetFaceDataByTimestamp(timestamp: string) returns (response: Response)
      requires Valid()
      ensures response == GetStep(store.files, timestamp)
      ensures response.status == 200 <==> RecordName(timestamp) in store.files
      ensures response.status == 200 ==> store.files[RecordName(timestamp)] == Json(response.reply.data)
      ensures response.status != 200 ==> response == NotFound
    {
      var r := store.GetFaceData(RecordName(timestamp));
      match r
      case Success(data) => response := Response(200, Record(data));
      case Failure(NoSuchFile) => response := NotFound;
      case Failure(NotJson) => response := Crashed;
    }

    /** PUT /face-data/:timestamp: saves under the caller's timestamp. */
    method UpdateFaceDataByTimestamp(timestamp: string, body: Body) returns (response: Response)
      requires Valid()
      modifies store
      ensures Valid()
      ensures Step(store.files, response) == SaveStep(old(store.files), timestamp, body, Updated)
    {
      if Falsy(body.faceData) || Falsy(body.screenshot) {
        return InvalidData;
      }
      response := Save(RecordName(timestamp), ImageName(timestamp), body, Updated);
      SavePreservesWellFormed(old(store.files), timestamp, body, Updated);
    }

    /** DELETE /face-data/:timestamp: unlinks both files; a missing one is ignored. */
    method DeleteFaceDataByTimestamp(timestamp: string) returns (response: Response)
      requires Valid()
      modifies store
      ensures Valid()
      ensures Step(store.files, response) == DeleteStep(old(store.files), timestamp)
    {
      var recordGone := store.DeleteFaceData(RecordName(timestamp));
      var imageGone := store.DeleteScreenshot(ImageName(timestamp));
      response := Deleted;
      DeletePreserves(old(store.files), timestamp);
    }

    /** The two writes shared by create and update, once the body passed the check. */
    method Save(recordPath: string, imagePath: string, body: Body, success: Response) returns (response: Response)
      requires !Falsy(body.faceData) && !Falsy(body.screenshot)
      modifies store
      ensures store.files == (
        var withRecord := old(store.files)[recordPath := Json(body.faceData)];
        if body.screenshot.Str? then withRecord[imagePath := Png(Payload(body.screenshot.s))] else withRecord)
      ensures response == if body.screenshot.Str? then success else Crashed
    {
      store.SaveFaceData(recordPath, body.faceData);
      var threw := store.SaveScreenshot(imagePath, body.screenshot);
      response := if threw then Crashed else success;
    }
  }
}
