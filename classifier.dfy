/** The BirdNET analysis that analyzer.py wraps: a Recording built with fixed parameters and
    analysed by a library whose behaviour is not modelled. */
module Classifier {
  import opened Wrappers
  import opened Json
  import opened Calendar
  import opened Io

  /** The confidence floor and the window overlap analyzer.py always passes. */
  const MinConfidence: real := 0.25
  const Overlap: real := 0.5

  datatype Detection = Detection(
    commonName: string,
    scientificName: string,
    startTime: real,
    endTime: real,
    confidence: real,
    speciesLabel: string)

  /** `Recording(analyzer, filepath, lat=lat, lon=lon, date=date, min_conf=..., overlap=...)`,
      with the file's contents in place of its path; a missing coordinate is JNull (None). */
  datatype Recording = Recording(
    audio: Bytes,
    lat: Json,
    lon: Json,
    date: Date,
    minConf: real,
    overlap: real)

  /** The analysis: the detections of a recording, or None when the library raises. */
  type Analyze = Recording -> Option<seq<Detection>>
}

/** The collaborators app.py calls but whose behaviour is outside the model. */
module Oracles {
  import opened Wrappers
  import opened Io
  import opened Classifier

  datatype Env = Env(
    /** `requests.get(url)`: None when it raises. */
    web: string -> Option<HttpResponse>,
    /** `AudioSegment.from_file(path, format=ext)` followed by `export(..., format='wav')`:
        the WAV bytes of the downloaded contents, or None when pydub raises. */
    convert: (Bytes, string) -> Option<Bytes>,
    /** `recording.analyze()` and `recording.detections` */
    analyze: Analyze)
}
