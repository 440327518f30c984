/** `extractSoundFilesFromObservation`: every sound of an observation is downloaded into the
    temp directory and converted to WAV, always into the same file, temp/temp.wav. */
module Sounds {
  import opened Wrappers
  import opened Exceptions
  import opened Json
  import opened Urls
  import opened Io
  import opened Oracles

  /** `sound["file_url"]`, which must be a string, since it is concatenated to a log message. */
  function FileUrl(sound: Json): (r: Result<string, Error>)
    ensures r.Ok? <==> sound.JObj? && "file_url" in sound.fields && sound.fields["file_url"].JStr?
    ensures r.Ok? ==> r.value == sound.fields["file_url"].s
  {
    var value :- Lookup(sound, "file_url");
    if value.JStr? then Ok(value.s) else Err(TypeError)
  }

  /** What `for sound in sounds` visits: the items of a list. Iterating an object yields its
      keys and iterating a string its characters, and either fails at `sound["file_url"]`
      before anything is written, unless there is nothing to visit; any other value is not
      iterable. */
  function SoundEntries(sounds: Json): (r: Result<seq<Json>, Error>)
    ensures sounds.JArr? ==> r == Ok(sounds.items)
    ensures r.Ok? && !sounds.JArr? ==> r.value == []
    ensures (sounds.JObj? && sounds.fields != map[]) || (sounds.JStr? && sounds.s != []) ==> r == Err(TypeError)
    ensures (sounds.JObj? && sounds.fields == map[]) || (sounds.JStr? && sounds.s == []) ==> r == Ok([])
    ensures sounds.JNull? || sounds.JBool? || sounds.JInt? || sounds.JReal? ==> r == Err(TypeError)
  {
    match sounds
    case JArr(items) => Ok(items)
    case JObj(fields) => if fields == map[] then Ok([]) else Err(TypeError)
    case JStr(s) => if s == [] then Ok([]) else Err(TypeError)
    case _ => Err(TypeError)
  }

  /** `observation_fields["sounds"]`, as iterated. */
  function SoundList(observation: Json): Result<seq<Json>, Error> {
    var sounds :- Lookup(observation, "sounds");
    SoundEntries(sounds)
  }

  /** Where a sound is fetched from, and the extension `getFileExtension` gives that URL. */
  datatype Source = Source(url: string, ext: string)

  /** The `sound["file_url"]` and `getFileExtension(sound_url)` part of a turn of the loop. */
  function SourceOf(sound: Json): (r: Result<Source, Error>)
    ensures r.Ok? <==> FileUrl(sound).Ok?
    ensures r.Ok? ==> r.value.url == FileUrl(sound).value && '.' !in r.value.ext
    ensures r.Err? ==> r == Err(FileUrl(sound).error)
  {
    var url :- FileUrl(sound);
    Ok(Source(url, GetFileExtension(url)))
  }

  /** A sound's extension is `getFileExtension` of its own `file_url`. */
  lemma SourceExtension(sound: Json)
    ensures SourceOf(sound).Ok? ==> SourceOf(sound).value.ext == GetFileExtension(FileUrl(sound).value)
  {
  }

  /** The source of every sound, in order. */
  function Sources(sounds: seq<Json>): (r: seq<Result<Source, Error>>)
    ensures |r| == |sounds| && forall j | 0 <= j < |sounds| :: r[j] == SourceOf(sounds[j])
  {
    seq(|sounds|, j requires 0 <= j < |sounds| => SourceOf(sounds[j]))
  }

  /** The source's URL answers `requests.get`. */
  predicate Fetches(source: Result<Source, Error>, env: Env) {
    source.Ok? && env.web(source.value.url).Some?
  }

  /** The downloaded body of a sound. */
  function Content(source: Result<Source, Error>, env: Env): Bytes
    requires Fetches(source, env)
  {
    env.web(source.value.url).value.content
  }

  /** The WAV export of a sound's download, when pydub can decode it. */
  function Conversion(source: Result<Source, Error>, env: Env): Option<Bytes> {
    if Fetches(source, env) then env.convert(Content(source, env), source.value.ext) else None
  }

  /** Everything the `i`-th sound (counting from 1) needs in order to be processed. */
  predicate StepSucceeds(i: nat, source: Result<Source, Error>, env: Env) {
    && source.Ok?
    && OpenError(DownloadName(i, source.value.ext)).None?
    && Fetches(source, env)
    && Conversion(source, env).Some?
  }

  /** One turn of the loop, for the `i`-th sound: open the download file (which empties it),
      fetch the URL, write the body, convert it, and export the WAV over temp/temp.wav. An
      exception leaves the files written so far in place. */
  function SoundStep(files: map<string, Bytes>, i: nat, source: Result<Source, Error>, env: Env): (r: Outcome<string>)
    ensures r.result.Ok? <==> StepSucceeds(i, source, env)
    ensures r.result.Ok? ==>
      && r.result.value == OutputPath
      && r.files == files[DownloadName(i, source.value.ext) := Content(source, env)][OutputName := Conversion(source, env).value]
    ensures files.Keys <= r.files.Keys
  {
    match source
    case Err(e) => Outcome(files, Err(e))
    case Ok(Source(url, ext)) =>
      var name := DownloadName(i, ext);
      match OpenError(name)
      case Some(e) => Outcome(files, Err(e))
      case None =>
        var emptied := files[name := []];
        match env.web(url)
        case None => Outcome(emptied, Err(RequestFailed(url)))
        case Some(response) =>
          var written := emptied[name := response.content];
          match env.convert(response.content, ext)
          case None => Outcome(written, Err(DecodeFailed(TempPath(name))))
          case Some(wav) => Outcome(written[OutputName := wav], Ok(OutputPath))
  }

  /** The only names a step can write: its own download name and temp.wav. */
  predicate WrittenBy(name: string, i: nat, source: Result<Source, Error>) {
    name == OutputName || (source.Ok? && name == DownloadName(i, source.value.ext))
  }

  lemma StepFrame(files: map<string, Bytes>, i: nat, source: Result<Source, Error>, env: Env, name: string)
    requires !WrittenBy(name, i, source)
    ensures var r := SoundStep(files, i, source, env);
      (name in r.files <==> name in files) && (name in files ==> r.files[name] == files[name])
  {
  }

  /** The loop from the `k`-th sound on (counting from 0), with `paths` returned so far. */
  function ProcessFrom(files: map<string, Bytes>, sources: seq<Result<Source, Error>>, k: nat, paths: seq<string>, env: Env): Outcome<seq<string>>
    requires k <= |sources|
    decreases |sources| - k
  {
    if k == |sources| then Outcome(files, Ok(paths))
    else
      var step := SoundStep(files, k + 1, sources[k], env);
      match step.result
      case Err(e) => Outcome(step.files, Err(e))
      case Ok(path) => ProcessFrom(step.files, sources, k + 1, paths + [path], env)
  }

  /** `extractSoundFilesFromObservation(observation_fields)` on a temp directory holding
      `files`. */
  function ExtractSounds(files: map<string, Bytes>, observation: Json, env: Env): Outcome<seq<string>> {
    match SoundList(observation)
    case Err(e) => Outcome(files, Err(e))
    case Ok(sounds) => ProcessFrom(files, Sources(sounds), 0, [], env)
  }

  /** The loop, updating the temp directory in place. */
  method ExtractSoundFilesFromObservation(dir: TempDir, observation: Json, env: Env) returns (r: Result<seq<string>, Error>)
    modifies dir
    ensures Outcome(dir.files, r) == ExtractSounds(old(dir.files), observation, env)
  {
    var sounds :- SoundList(observation);
    ghost var sources := Sources(sounds);
    var outputPaths: seq<string> := [];
    var i := 1;
    var k := 0;
    while k < |sounds|
      invariant k <= |sounds| && i == k + 1
      invariant ProcessFrom(dir.files, sources, k, outputPaths, env) == ProcessFrom(old(dir.files), sources, 0, [], env)
    {
      var sound := sounds[k];
      assert sources[k] == SourceOf(sound);
      var url :- FileUrl(sound);
      var ext := GetFileExtension(url);
      var name := DownloadName(i, ext);
      var err := dir.OpenForWriting(name);
      if err.Some? {
        return Err(err.value);
      }
      var response := env.web(url);
      if response.None? {
        return Err(RequestFailed(url));
      }
      dir.Write(name, response.value.content);
      var wav := env.convert(response.value.content, ext);
      if wav.None? {
        return Err(DecodeFailed(TempPath(name)));
      }
      dir.Write(OutputName, wav.value);
      outputPaths := outputPaths + [OutputPath];
      i := i + 1;
      k := k + 1;
    }
    r := Ok(outputPaths);
  }
}

/** What the sound loop promises about the paths it returns and the files it leaves. */
module SoundProperties {
  import opened Wrappers
  import opened Exceptions
  import opened Json
  import opened Io
  import opened Oracles
  import opened Sounds

  type SourceList = seq<Result<Source, Error>>

  /** The loop succeeds exactly when every remaining sound can be processed: no step depends
      on what an earlier one wrote. */
  lemma {:induction false} ProcessFromSucceeds(files: map<string, Bytes>, sources: SourceList, k: nat, paths: seq<string>, env: Env)
    requires k <= |sources|
    ensures ProcessFrom(files, sources, k, paths, env).result.Ok? <==>
      forall j | k <= j < |sources| :: StepSucceeds(j + 1, sources[j], env)
    decreases |sources| - k
  {
    if k < |sources| {
      var step := SoundStep(files, k + 1, sources[k], env);
      if step.result.Ok? {
        ProcessFromSucceeds(step.files, sources, k + 1, paths + [step.result.value], env);
      }
    }
  }

  /** Every path returned is temp/temp.wav, one per sound. */
  lemma {:induction false} ProcessFromPaths(files: map<string, Bytes>, sources: SourceList, k: nat, paths: seq<string>, env: Env)
    requires k <= |sources|
    ensures var out := ProcessFrom(files, sources, k, paths, env);
      out.result.Ok? ==>
        && |out.result.value| == |paths| + |sources| - k
        && out.result.value[..|paths|] == paths
        && forall j | |paths| <= j < |out.result.value| :: out.result.value[j] == OutputPath
    decreases |sources| - k
  {
    if k < |sources| {
      var step := SoundStep(files, k + 1, sources[k], env);
      if step.result.Ok? {
        var paths' := paths + [step.result.value];
        ProcessFromPaths(step.files, sources, k + 1, paths', env);
        assert paths'[..|paths|] == paths;
      }
    }
  }

  /** A file that no remaining step writes keeps its contents, or stays absent. */
  lemma {:induction false} ProcessFromFrame(files: map<string, Bytes>, sources: SourceList, k: nat, paths: seq<string>, env: Env, name: string)
    requires k <= |sources|
    requires forall j | k <= j < |sources| :: !WrittenBy(name, j + 1, sources[j])
    ensures var out := ProcessFrom(files, sources, k, paths, env);
      (name in out.files <==> name in files) && (name in files ==> out.files[name] == files[name])
    decreases |sources| - k
  {
    if k < |sources| {
      var step := SoundStep(files, k + 1, sources[k], env);
      StepFrame(files, k + 1, sources[k], env, name);
      if step.result.Ok? {
        ProcessFromFrame(step.files, sources, k + 1, paths + [step.result.value], env, name);
      }
    }
  }

  /** No file is ever removed, whether the loop succeeds or raises. */
  lemma {:induction false} ProcessFromKeepsNames(files: map<string, Bytes>, sources: SourceList, k: nat, paths: seq<string>, env: Env)
    requires k <= |sources|
    ensures files.Keys <= ProcessFrom(files, sources, k, paths, env).files.Keys
    decreases |sources| - k
  {
    if k < |sources| {
      var step := SoundStep(files, k + 1, sources[k], env);
      if step.result.Ok? {
        ProcessFromKeepsNames(step.files, sources, k + 1, paths + [step.result.value], env);
      }
    }
  }

  /** Every extension is free of '.', as `getFileExtension` guarantees. */
  predicate DotFree(sources: SourceList) {
    forall j | 0 <= j < |sources| :: sources[j].Ok? ==> '.' !in sources[j].value.ext
  }

  /** Every source's extension comes from `getFileExtension`, so none holds a '.'. */
  lemma SourcesDotFree(sounds: seq<Json>)
    ensures DotFree(Sources(sounds))
  {
    var sources := Sources(sounds);
    forall j | 0 <= j < |sources| && sources[j].Ok?
      ensures '.' !in sources[j].value.ext
    {
      assert sources[j] == SourceOf(sounds[j]);
    }
  }

  /** The `j`-th sound's body is in its own download file. */
  predicate Downloaded(files: map<string, Bytes>, j: nat, source: Result<Source, Error>, env: Env) {
    && Fetches(source, env)
    && DownloadName(j + 1, source.value.ext) in files
    && files[DownloadName(j + 1, source.value.ext)] == Content(source, env)
  }

  /** A download name, once written, is written by no later step: the counters differ and an
      extension holds no '.'. */
  lemma LaterStepsSkipDownload(sources: SourceList, k: nat, ext: string)
    requires k <= |sources| && DotFree(sources) && '.' !in ext
    ensures forall j | k <= j < |sources| :: !WrittenBy(DownloadName(k, ext), j + 1, sources[j])
  {
    DownloadNameIsNotOutputName(k, ext);
    forall j | k <= j < |sources| && sources[j].Ok?
      ensures DownloadName(k, ext) != DownloadName(j + 1, sources[j].value.ext)
    {
      DownloadNamesDistinct(k, j + 1, ext, sources[j].value.ext);
    }
  }

  /** Every download survives the rest of the loop. */
  lemma {:induction false} ProcessFromDownloads(files: map<string, Bytes>, sources: SourceList, k: nat, paths: seq<string>, env: Env)
    requires k <= |sources| && DotFree(sources)
    ensures var out := ProcessFrom(files, sources, k, paths, env);
      out.result.Ok? ==> forall j | k <= j < |sources| :: Downloaded(out.files, j, sources[j], env)
    decreases |sources| - k
  {
    if k < |sources| {
      var step := SoundStep(files, k + 1, sources[k], env);
      if step.result.Ok? {
        var paths' := paths + [step.result.value];
        var name := DownloadName(k + 1, sources[k].value.ext);
        ProcessFromDownloads(step.files, sources, k + 1, paths', env);
        LaterStepsSkipDownload(sources, k + 1, sources[k].value.ext);
        ProcessFromFrame(step.files, sources, k + 1, paths', env, name);
        DownloadNameIsNotOutputName(k + 1, sources[k].value.ext);
        assert step.files[name] == Content(sources[k], env);
      }
    }
  }

  /** After a successful loop over at least one sound, temp/temp.wav holds the conversion of
      the LAST sound: each export overwrites the previous one. */
  lemma {:induction false} ProcessFromOutput(files: map<string, Bytes>, sources: SourceList, k: nat, paths: seq<string>, env: Env)
    requires k < |sources|
    ensures var out := ProcessFrom(files, sources, k, paths, env);
      out.result.Ok? ==> OutputName in out.files && Some(out.files[OutputName]) == Conversion(sources[|sources| - 1], env)
    decreases |sources| - k
  {
    var step := SoundStep(files, k + 1, sources[k], env);
    if step.result.Ok? && k + 1 < |sources| {
      ProcessFromOutput(step.files, sources, k + 1, paths + [step.result.value], env);
    }
  }

  /** The whole function: on success it returns temp/temp.wav once per sound, leaves each
      download in place, and temp/temp.wav holds the last sound's WAV. */
  lemma ExtractSoundsResult(files: map<string, Bytes>, observation: Json, env: Env)
    ensures var out := ExtractSounds(files, observation, env);
      out.result.Ok? ==>
        && SoundList(observation).Ok?
        && var sources := Sources(SoundList(observation).value);
        && |out.result.value| == |sources|
        && (forall j | 0 <= j < |sources| :: out.result.value[j] == OutputPath && Downloaded(out.files, j, sources[j], env))
        && (|sources| > 0 ==> OutputName in out.files && Some(out.files[OutputName]) == Conversion(sources[|sources| - 1], env))
  {
    if SoundList(observation).Ok? {
      var sources := Sources(SoundList(observation).value);
      SourcesDotFree(SoundList(observation).value);
      ProcessFromPaths(files, sources, 0, [], env);
      ProcessFromDownloads(files, sources, 0, [], env);
      if |sources| > 0 {
        ProcessFromOutput(files, sources, 0, [], env);
      }
    }
  }

  /** The loop succeeds exactly when every sound can be processed, and never removes a file. */
  lemma ExtractSoundsSucceeds(files: map<string, Bytes>, observation: Json, env: Env)
    ensures var out := ExtractSounds(files, observation, env);
      && (out.result.Ok? <==>
            (&& SoundList(observation).Ok?
             && var sources := Sources(SoundList(observation).value);
                forall j | 0 <= j < |sources| :: StepSucceeds(j + 1, sources[j], env)))
      && files.Keys <= out.files.Keys
  {
    if SoundList(observation).Ok? {
      var sources := Sources(SoundList(observation).value);
      ProcessFromSucceeds(files, sources, 0, [], env);
      ProcessFromKeepsNames(files, sources, 0, [], env);
    }
  }
}
