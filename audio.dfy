/** `generateAudio`: text-to-speech through MiniMax, upload of the MP3 to the
    `scripts-audio` bucket under a timestamped name, and the row update that records the
    file's public URL. The outcome of each remote step, the clock reading and the URL the
    storage client derives from a path are parameters. */
module Audio {
  import opened Wrappers
  import opened Text
  import opened Scripts

  const AUDIO_BUCKET := "scripts-audio"
  const VOICE_ID := "female-shaonv"
  const CONTENT_TYPE := "audio/mpeg"

  /** The only error `generateAudio` lets escape, whichever step failed. */
  const FAILURE_MESSAGE := "Failed to generate audio. Please try again."

  /** `${scriptId}_${timestamp}.mp3`. */
  function FileName(scriptId: string, timestamp: nat): string {
    scriptId + "_" + Decimal(timestamp) + ".mp3"
  }

  /** `public/${fileName}`. */
  function StoragePath(scriptId: string, timestamp: nat): string {
    "public/" + FileName(scriptId, timestamp)
  }

  /** The path lies under `public/`, ends in `.mp3`, and mentions the script and the
      decimal timestamp. */
  lemma StoragePathShape(scriptId: string, timestamp: nat)
    ensures var p := StoragePath(scriptId, timestamp);
      StartsWith(p, "public/") && EndsWith(p, ".mp3") &&
      Contains(p, scriptId) && Contains(p, Decimal(timestamp))
  {
    var p := StoragePath(scriptId, timestamp);
    var d := Decimal(timestamp);
    assert p == "public/" + scriptId + "_" + d + ".mp3";
    assert p[..7] == "public/";
    assert p[|p| - 4..] == ".mp3";
    assert OccursAt(p, scriptId, 7);
    assert OccursAt(p, d, 8 + |scriptId|);
  }

  /** For one script, distinct timestamps give distinct paths. */
  lemma StoragePathInjective(scriptId: string, t1: nat, t2: nat)
    requires StoragePath(scriptId, t1) == StoragePath(scriptId, t2)
    ensures t1 == t2
  {
    var p1, p2 := StoragePath(scriptId, t1), StoragePath(scriptId, t2);
    var n := 8 + |scriptId|;
    var d1, d2 := Decimal(t1), Decimal(t2);
    assert p1 == ("public/" + scriptId + "_") + d1 + ".mp3";
    assert p2 == ("public/" + scriptId + "_") + d2 + ".mp3";
    assert |d1| == |p1| - n - 4 == |d2|;
    assert d1 == p1[n..|p1| - 4];
    assert d2 == p2[n..|p2| - 4];
    DecimalInjective(t1, t2);
  }

  /** `audio_url` set to `url` on the rows whose `id` is `scriptId`. */
  function SetAudioUrl(rows: seq<Script>, scriptId: string, url: string): (r: seq<Script>)
    ensures |r| == |rows|
    ensures forall i :: 0 <= i < |rows| ==>
      if rows[i].id == scriptId then r[i] == rows[i].(audioUrl := Some(url)) else r[i] == rows[i]
  {
    seq(|rows|, i requires 0 <= i < |rows| =>
      if rows[i].id == scriptId then rows[i].(audioUrl := Some(url)) else rows[i])
  }

  /** The remote requests `generateAudio` makes, in order. */
  datatype Request =
    | Speech(text: string, voiceId: string)
    | Upload(bucket: string, path: string, contentType: string, upsert: bool)
    | UpdateAudioUrl(scriptId: string, url: string)

  /** `generateAudio(text, scriptId)`: `speechOk` says whether the MiniMax response is OK
      and its body can be read, `now` is `Date.now()`, `uploadOk` and `updateOk` whether the
      storage upload and the row update report no error, and `publicUrlOf` is what
      `getPublicUrl` gives for a path. `rows` is the `scripts` table before the call. */
  method GenerateAudio(text: string, scriptId: string, speechOk: bool, now: nat, uploadOk: bool,
                       publicUrlOf: string -> string, updateOk: bool, rows: seq<Script>)
    returns (result: Result<string, string>, requests: seq<Request>, newRows: seq<Script>)
    ensures result.Ok? <==> speechOk && uploadOk && updateOk
    ensures result.Ok? ==> result.value == publicUrlOf(StoragePath(scriptId, now))
    ensures result.Err? ==> result.error == FAILURE_MESSAGE
    ensures |requests| >= 1 && requests[0] == Speech(text, VOICE_ID)
    ensures |requests| >= 2 <==> speechOk
    ensures |requests| >= 3 <==> speechOk && uploadOk
    ensures |requests| <= 3
    ensures |requests| >= 2 ==> requests[1] == Upload(AUDIO_BUCKET, StoragePath(scriptId, now), CONTENT_TYPE, false)
    ensures |requests| >= 3 ==> requests[2] == UpdateAudioUrl(scriptId, publicUrlOf(StoragePath(scriptId, now)))
    ensures newRows == if result.Ok? then SetAudioUrl(rows, scriptId, result.value) else rows
  {
    newRows := rows;
    requests := [Speech(text, VOICE_ID)];
    if !speechOk {
      return Err(FAILURE_MESSAGE), requests, newRows;
    }
    var filePath := StoragePath(scriptId, now);
    requests := requests + [Upload(AUDIO_BUCKET, filePath, CONTENT_TYPE, false)];
    if !uploadOk {
      return Err(FAILURE_MESSAGE), requests, newRows;
    }
    var publicUrl := publicUrlOf(filePath);
    requests := requests + [UpdateAudioUrl(scriptId, publicUrl)];
    if !updateOk {
      return Err(FAILURE_MESSAGE), requests, newRows;
    }
    newRows := SetAudioUrl(rows, scriptId, publicUrl);
    result := Ok(publicUrl);
  }
}
