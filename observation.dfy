/** `extractVariablesFromAPIResponse`: the observation's date, its sounds (downloaded and
    converted on the way) and its coordinates, read from the iNaturalist API response. */
module Observation {
  import opened Wrappers
  import opened Exceptions
  import opened Json
  import opened Calendar
  import opened Io
  import opened Oracles
  import opened Sounds

  /** `[filepaths, lat, lon, observed_on_date]`; a missing coordinate is JNull (None). */
  datatype Variables = Variables(paths: seq<string>, lat: Json, lon: Json, date: Date)

  /** `response_body["results"][0]`: only the first result is ever read. */
  function FirstResult(body: Json): (r: Result<Json, Error>)
    ensures r.Ok? ==> Lookup(body, "results").Ok? && Index(Lookup(body, "results").value, 0) == r
    ensures Lookup(body, "results").Ok? && Lookup(body, "results").value.JArr? ==>
      var items := Lookup(body, "results").value.items;
      r == if items == [] then Err(IndexError) else Ok(items[0])
    ensures body.JObj? && "results" !in body.fields ==> r == Err(KeyError("results"))
  {
    var results :- Lookup(body, "results");
    Index(results, 0)
  }

  /** `observed_on_details["year"]`, `["month"]`, `["day"]` and the `datetime` built from them. */
  function ObservedOn(result: Json): (r: Result<Date, Error>)
    ensures r.Ok? ==>
      && Lookup(result, "observed_on_details").Ok?
      && var details := Lookup(result, "observed_on_details").value;
      && details.JObj? && "year" in details.fields && "month" in details.fields && "day" in details.fields
      && MakeDate(details.fields["year"], details.fields["month"], details.fields["day"]) == r
      && ValidDate(r.value.year, r.value.month, r.value.day)
    ensures result.JObj? && "observed_on_details" !in result.fields ==> r == Err(KeyError("observed_on_details"))
    ensures Lookup(result, "observed_on_details").Ok? && Lookup(result, "observed_on_details").value.JObj? ==>
      var details := Lookup(result, "observed_on_details").value.fields;
      && ("year" !in details ==> r == Err(KeyError("year")))
      && ("year" in details && "month" !in details ==> r == Err(KeyError("month")))
      && ("year" in details && "month" in details && "day" !in details ==> r == Err(KeyError("day")))
      && ("year" in details && "month" in details && "day" in details ==>
            r == MakeDate(details["year"], details["month"], details["day"]))
  {
    var details :- Lookup(result, "observed_on_details");
    var year :- Lookup(details, "year");
    var month :- Lookup(details, "month");
    var day :- Lookup(details, "day");
    MakeDate(year, month, day)
  }

  /** `(lat, lon)` read from `result["geojson"]`, whose `coordinates` are in GeoJSON order,
      longitude first. Without geometry, both stay None. */
  function Coordinates(result: Json): (r: Result<(Json, Json), Error>)
    ensures Lookup(result, "geojson").Err? ==> r == Err(Lookup(result, "geojson").error)
    ensures Lookup(result, "geojson") == Ok(JNull) ==> r == Ok((JNull, JNull))
    ensures Lookup(result, "geojson").Ok? && Lookup(result, "geojson").value.JObj? ==>
      var geometry := Lookup(result, "geojson").value.fields;
      && ("coordinates" !in geometry ==> r == Ok((JNull, JNull)))
      && ("coordinates" in geometry && geometry["coordinates"].JArr? && |geometry["coordinates"].items| >= 2 ==>
            r == Ok((geometry["coordinates"].items[1], geometry["coordinates"].items[0])))
  {
    var geojson :- Lookup(result, "geojson");
    if geojson.JNull? then Ok((JNull, JNull))
    else
      var present :- Contains(geojson, "coordinates");
      if !present then Ok((JNull, JNull))
      else
        var coordinates :- Lookup(geojson, "coordinates");
        var lon :- Index(coordinates, 0);
        var lat :- Index(coordinates, 1);
        Ok((lat, lon))
  }

  /** `extractVariablesFromAPIResponse(response)` on a temp directory holding `files`: the
      date is checked before any sound is downloaded, and the coordinates are read after. */
  function ExtractVariables(files: map<string, Bytes>, response: HttpResponse, env: Env): Outcome<Variables> {
    match response.json
    case None => Outcome(files, Err(JsonDecodeError))
    case Some(body) =>
      match FirstResult(body)
      case Err(e) => Outcome(files, Err(e))
      case Ok(result) =>
        match ObservedOn(result)
        case Err(e) => Outcome(files, Err(e))
        case Ok(date) =>
          var sounds := ExtractSounds(files, result, env);
          match sounds.result
          case Err(e) => Outcome(sounds.files, Err(e))
          case Ok(paths) =>
            match Coordinates(result)
            case Err(e) => Outcome(sounds.files, Err(e))
            case Ok((lat, lon)) => Outcome(sounds.files, Ok(Variables(paths, lat, lon, date)))
  }

  /** The function itself, step by step on the temp directory. */
  method ExtractVariablesFromApiResponse(dir: TempDir, response: HttpResponse, env: Env) returns (r: Result<Variables, Error>)
    modifies dir
    ensures Outcome(dir.files, r) == ExtractVariables(old(dir.files), response, env)
  {
    if response.json.None? {
      return Err(JsonDecodeError);
    }
    var body := response.json.value;
    var results :- Lookup(body, "results");
    var result :- Index(results, 0);
    var details :- Lookup(result, "observed_on_details");
    var year :- Lookup(details, "year");
    var month :- Lookup(details, "month");
    var day :- Lookup(details, "day");
    var date :- MakeDate(year, month, day);
    var paths :- ExtractSoundFilesFromObservation(dir, result, env);
    var lat := JNull;
    var lon := JNull;
    var geojson :- Lookup(result, "geojson");
    if !geojson.JNull? {
      var present :- Contains(geojson, "coordinates");
      if present {
        var coordinates :- Lookup(geojson, "coordinates");
        lon :- Index(coordinates, 0);
        lat :- Index(coordinates, 1);
      }
    }
    r := Ok(Variables(paths, lat, lon, date));
  }
}

/** What the variables promise, and what an error leaves behind. */
module ObservationProperties {
  import opened Wrappers
  import opened Exceptions
  import opened Json
  import opened Calendar
  import opened Io
  import opened Oracles
  import opened Sounds
  import opened SoundProperties
  import opened Observation

  /** On success: the date is a valid calendar date taken from the first result, there is one
      path, temp/temp.wav, per sound of the first result, and the coordinates are the first
      result's. */
  lemma ExtractVariablesResult(files: map<string, Bytes>, response: HttpResponse, env: Env)
    ensures var out := ExtractVariables(files, response, env);
      out.result.Ok? ==>
        && response.json.Some?
        && FirstResult(response.json.value).Ok?
        && var result := FirstResult(response.json.value).value;
        && var v := out.result.value;
        && ObservedOn(result) == Ok(v.date)
        && ValidDate(v.date.year, v.date.month, v.date.day)
        && SoundList(result).Ok?
        && |v.paths| == |SoundList(result).value|
        && (forall j | 0 <= j < |v.paths| :: v.paths[j] == OutputPath)
        && Coordinates(result) == Ok((v.lat, v.lon))
  {
    var out := ExtractVariables(files, response, env);
    if out.result.Ok? {
      ExtractSoundsResult(files, FirstResult(response.json.value).value, env);
    }
  }

  /** On success with at least one sound, temp/temp.wav, the file every path names, holds the
      WAV of the first result's last sound. */
  lemma ExtractVariablesOutput(files: map<string, Bytes>, response: HttpResponse, env: Env)
    ensures var out := ExtractVariables(files, response, env);
      out.result.Ok? && |out.result.value.paths| > 0 ==>
        && response.json.Some?
        && FirstResult(response.json.value).Ok?
        && SoundList(FirstResult(response.json.value).value).Ok?
        && var sources := Sources(SoundList(FirstResult(response.json.value).value).value);
        && |sources| == |out.result.value.paths|
        && FileAt(out.files, OutputPath) == Conversion(sources[|sources| - 1], env)
  {
    var out := ExtractVariables(files, response, env);
    if out.result.Ok? && |out.result.value.paths| > 0 {
      ExtractSoundsResult(files, FirstResult(response.json.value).value, env);
      FileAtTempPath(out.files, OutputName);
    }
  }

  /** A response without a usable date fails before anything is downloaded. */
  lemma DateCheckedFirst(files: map<string, Bytes>, response: HttpResponse, env: Env)
    requires response.json.Some? && FirstResult(response.json.value).Ok?
    requires ObservedOn(FirstResult(response.json.value).value).Err?
    ensures ExtractVariables(files, response, env) ==
      Outcome(files, Err(ObservedOn(FirstResult(response.json.value).value).error))
  {
  }

  /** The coordinates are read only after every sound is downloaded: a first result without
      "geojson" raises KeyError, and the downloads stay in the temp directory. */
  lemma MissingGeoJsonKeepsDownloads(files: map<string, Bytes>, response: HttpResponse, env: Env)
    requires response.json.Some? && FirstResult(response.json.value).Ok?
    requires var result := FirstResult(response.json.value).value;
      ObservedOn(result).Ok? && ExtractSounds(files, result, env).result.Ok?
      && result.JObj? && "geojson" !in result.fields
    ensures var result := FirstResult(response.json.value).value;
      ExtractVariables(files, response, env) == Outcome(ExtractSounds(files, result, env).files, Err(KeyError("geojson")))
  {
  }

  /** No error path removes a file: the function has no cleanup. */
  lemma ExtractVariablesKeepsNames(files: map<string, Bytes>, response: HttpResponse, env: Env)
    ensures files.Keys <= ExtractVariables(files, response, env).files.Keys
  {
    if response.json.Some? && FirstResult(response.json.value).Ok? {
      ExtractSoundsSucceeds(files, FirstResult(response.json.value).value, env);
    }
  }
}
