/** `getDetectionsFromObservationUrl`: from an iNaturalist observation URL to the BirdNET
    detections of each of its recordings, through the temp directory. */
module App {
  import opened Wrappers
  import opened Exceptions
  import opened Urls
  import opened Io
  import opened Oracles
  import opened Observation
  import opened Detections

  /** The module-level switches that replace the requested URL by a fixed observation. */
  datatype TestFlags = TestFlags(singleRecording: bool, multipleRecordings: bool)

  /** A Boreal Chickadee observation with one recording. */
  const SingleRecordingUrl := "https://www.inaturalist.org/observations/333479462"
  /** A Marsh Tit observation with several recordings. */
  const MultipleRecordingsUrl := "https://www.inaturalist.org/observations/332146765"

  /** The URL actually used: the single-recording switch wins over the other. */
  function EffectiveUrl(flags: TestFlags, observationUrl: string): (url: string)
    ensures flags.singleRecording ==> url == SingleRecordingUrl
    ensures !flags.singleRecording && flags.multipleRecordings ==> url == MultipleRecordingsUrl
    ensures !flags.singleRecording && !flags.multipleRecordings ==> url == observationUrl
  {
    if flags.singleRecording then SingleRecordingUrl
    else if flags.multipleRecordings then MultipleRecordingsUrl
    else observationUrl
  }

  /** The API response for the observation, if the request does not raise. */
  function ApiResponse(flags: TestFlags, observationUrl: string, env: Env): Option<HttpResponse> {
    env.web(ApiUrl(EffectiveUrl(flags, observationUrl)))
  }

  /** The whole function on a temp directory holding `files`: the temp directory is emptied
      only when every step succeeds. */
  function Pipeline(files: map<string, Bytes>, flags: TestFlags, observationUrl: string, env: Env): Outcome<Batch> {
    var apiUrl := ApiUrl(EffectiveUrl(flags, observationUrl));
    match env.web(apiUrl)
    case None => Outcome(files, Err(RequestFailed(apiUrl)))
    case Some(response) =>
      var vars := ExtractVariables(files, response, env);
      match vars.result
      case Err(e) => Outcome(vars.files, Err(e))
      case Ok(v) =>
        match AggregateFrom(Analyses(vars.files, v, env.analyze), 0, [])
        case Err(e) => Outcome(vars.files, Err(e))
        case Ok(allDetections) => Outcome(map[], Ok(allDetections))
  }

  /** `for filename in os.listdir(temp_dir): os.remove(...)`, over the names listed once. */
  method ClearTempDir(dir: TempDir)
    modifies dir
    ensures dir.files == map[]
  {
    var listed := dir.files.Keys;
    while listed != {}
      invariant dir.files.Keys == listed
      decreases |listed|
    {
      var filename :| filename in listed;
      dir.Remove(filename);
      listed := listed - {filename};
    }
  }

  method GetDetectionsFromObservationUrl(dir: TempDir, flags: TestFlags, observationUrl: string, env: Env)
    returns (r: Result<Batch, Error>)
    modifies dir
    ensures Outcome(dir.files, r) == Pipeline(old(dir.files), flags, observationUrl, env)
  {
    var url := observationUrl;
    if flags.singleRecording {
      url := SingleRecordingUrl;
    } else if flags.multipleRecordings {
      url := MultipleRecordingsUrl;
    }
    var apiUrl := ApiUrl(url);
    var response := env.web(apiUrl);
    if response.None? {
      return Err(RequestFailed(apiUrl));
    }
    var v :- ExtractVariablesFromApiResponse(dir, response.value, env);
    var allDetections :- CollectDetections(dir.files, v, env.analyze);
    ClearTempDir(dir);
    r := Ok(allDetections);
  }
}

/** What a request promises: its keys, what each recording's detections are, and what is left
    in the temp directory. */
module AppProperties {
  import opened Wrappers
  import opened Json
  import opened Io
  import opened Classifier
  import opened Oracles
  import opened Sounds
  import opened Observation
  import opened ObservationProperties
  import opened Detections
  import opened App

  /** The temp directory is emptied after a success, and nothing is removed after a failure:
      there is no cleanup on the error paths. */
  lemma PipelineFiles(files: map<string, Bytes>, flags: TestFlags, observationUrl: string, env: Env)
    ensures var out := Pipeline(files, flags, observationUrl, env);
      && (out.result.Ok? ==> out.files == map[])
      && (out.result.Err? ==> files.Keys <= out.files.Keys)
  {
    var out := Pipeline(files, flags, observationUrl, env);
    var response := ApiResponse(flags, observationUrl, env);
    if response.Some? {
      var vars := ExtractVariables(files, response.value, env);
      ExtractVariablesKeepsNames(files, response.value, env);
      if vars.result.Err? {
        assert out == Outcome(vars.files, Err(vars.result.error));
      } else {
        var aggregate := AggregateFrom(Analyses(vars.files, vars.result.value, env.analyze), 0, []);
        assert out.files == if aggregate.Ok? then map[] else vars.files;
      }
    }
  }

  /** The first result of the API response, when the request got that far. */
  function FirstResultOf(flags: TestFlags, observationUrl: string, env: Env): Result<Json, Exceptions.Error> {
    var response := ApiResponse(flags, observationUrl, env);
    if response.None? || response.value.json.None? then Err(Exceptions.JsonDecodeError)
    else FirstResult(response.value.json.value)
  }

  /** A successful request returns one entry per sound of the observation's first result,
      keyed recording_1 .. recording_N in the order of the sounds, with no key twice. */
  lemma PipelineKeys(files: map<string, Bytes>, flags: TestFlags, observationUrl: string, env: Env)
    ensures var out := Pipeline(files, flags, observationUrl, env);
      out.result.Ok? ==>
        && FirstResultOf(flags, observationUrl, env).Ok?
        && SoundList(FirstResultOf(flags, observationUrl, env).value).Ok?
        && |out.result.value| == |SoundList(FirstResultOf(flags, observationUrl, env).value).value|
        && NumberedFrom1(out.result.value)
        && UniqueKeys(out.result.value)
  {
    var out := Pipeline(files, flags, observationUrl, env);
    if out.result.Ok? {
      var response := ApiResponse(flags, observationUrl, env).value;
      var vars := ExtractVariables(files, response, env);
      var analyses := Analyses(vars.files, vars.result.value, env.analyze);
      ExtractVariablesResult(files, response, env);
      AggregateAppends(analyses, 0, []);
      AggregateKeys(analyses, 0, []);
      NumberedKeysUnique(out.result.value);
    }
  }

  /** Every entry of `batch` holds the analysis of the LAST sound of `result`, with the
      observation's coordinates and date, at confidence floor 0.25 and overlap 0.5. */
  predicate AllFromLastSound(batch: Batch, result: Json, env: Env) {
    && SoundList(result).Ok? && ObservedOn(result).Ok? && Coordinates(result).Ok?
    && var sources := Sources(SoundList(result).value);
    && |sources| > 0
    && Conversion(sources[|sources| - 1], env).Some?
    && var audio := Conversion(sources[|sources| - 1], env).value;
    && forall t | 0 <= t < |batch| ::
         Some(batch[t].detections) ==
           env.analyze(Recording(audio, Coordinates(result).value.0, Coordinates(result).value.1, ObservedOn(result).value, 0.25, 0.5))
  }

  /** The aggregation over the variables of a response analyses the last sound every time. */
  lemma VariablesAnalyseLastSound(files: map<string, Bytes>, response: HttpResponse, env: Env)
    ensures var vars := ExtractVariables(files, response, env);
      vars.result.Ok? ==>
        var r := AggregateFrom(Analyses(vars.files, vars.result.value, env.analyze), 0, []);
        r.Ok? && |r.value| > 0 ==>
          response.json.Some? && FirstResult(response.json.value).Ok? &&
          AllFromLastSound(r.value, FirstResult(response.json.value).value, env)
  {
    var vars := ExtractVariables(files, response, env);
    if vars.result.Ok? {
      var v := vars.result.value;
      ExtractVariablesResult(files, response, env);
      ExtractVariablesOutput(files, response, env);
      OnePathOneAnalysis(vars.files, v, OutputPath, env.analyze);
    }
  }

  /** Every recording's detections are those of the LAST sound: each sound is converted into
      the same temp/temp.wav, and every returned path names that file. */
  lemma PipelineAnalysesLastSound(files: map<string, Bytes>, flags: TestFlags, observationUrl: string, env: Env)
    ensures var out := Pipeline(files, flags, observationUrl, env);
      out.result.Ok? && |out.result.value| > 0 ==>
        FirstResultOf(flags, observationUrl, env).Ok? &&
        AllFromLastSound(out.result.value, FirstResultOf(flags, observationUrl, env).value, env)
  {
    var response := ApiResponse(flags, observationUrl, env);
    if response.Some? {
      VariablesAnalyseLastSound(files, response.value, env);
    }
  }
}
