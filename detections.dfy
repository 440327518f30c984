/** The detections of an observation: `analyzer.getBirdNetDetections` on each returned path,
    gathered in a dictionary under the keys recording_1, recording_2, ... */
module Detections {
  import opened Wrappers
  import opened Exceptions
  import opened Strings
  import opened Io
  import opened Classifier
  import opened Observation

  /** One `all_detections[key] = detections` entry. */
  datatype Entry = Entry(key: string, detections: seq<Detection>)

  /** A Python dict of detections, in insertion order. */
  type Batch = seq<Entry>

  /** A dict never holds a key twice. */
  predicate UniqueKeys(b: Batch) {
    forall j, k | 0 <= j < k < |b| :: b[j].key != b[k].key
  }

  /** `all_detections.get(key)` */
  function Get(b: Batch, key: string): Option<seq<Detection>> {
    if b == [] then None
    else if b[0].key == key then Some(b[0].detections)
    else Get(b[1..], key)
  }

  /** `all_detections[key] = detections`: replaces the value of a present key in place, and
      appends a new key at the end. */
  function Put(b: Batch, key: string, detections: seq<Detection>): (r: Batch)
    ensures (forall j | 0 <= j < |b| :: b[j].key != key) ==> r == b + [Entry(key, detections)]
    ensures (exists j | 0 <= j < |b| :: b[j].key == key) ==> |r| == |b|
  {
    if b == [] then [Entry(key, detections)]
    else if b[0].key == key then [Entry(key, detections)] + b[1..]
    else [b[0]] + Put(b[1..], key, detections)
  }

  /** Reading a key after assigning it gives the assigned value, and every other key keeps
      its value. */
  lemma {:induction false} GetAfterPut(b: Batch, key: string, detections: seq<Detection>, other: string)
    ensures Get(Put(b, key, detections), key) == Some(detections)
    ensures other != key ==> Get(Put(b, key, detections), other) == Get(b, other)
  {
    if b != [] && b[0].key != key {
      GetAfterPut(b[1..], key, detections, other);
      assert Put(b, key, detections)[1..] == Put(b[1..], key, detections);
    }
  }

  /** `"recording_" + str(i)` */
  function RecordingKey(i: nat): string {
    "recording_" + NatToString(i)
  }

  lemma RecordingKeysDistinct(i: nat, j: nat)
    requires i != j
    ensures RecordingKey(i) != RecordingKey(j)
  {
    if RecordingKey(i) == RecordingKey(j) {
      assert NatToString(i) == RecordingKey(i)[10..] == RecordingKey(j)[10..] == NatToString(j);
      NatToStringInjective(i, j);
    }
  }

  /** `analyzer.getBirdNetDetections(filepath, lat, lon, timestamp)`: the file is read into a
      Recording with the fixed confidence floor and overlap, and analysed. */
  function GetBirdNetDetections(files: map<string, Bytes>, path: string, v: Variables, analyze: Analyze): (r: Result<seq<Detection>, Error>)
    ensures r.Ok? <==> FileAt(files, path).Some? && analyze(Recording(FileAt(files, path).value, v.lat, v.lon, v.date, 0.25, 0.5)).Some?
    ensures r.Ok? ==> Some(r.value) == analyze(Recording(FileAt(files, path).value, v.lat, v.lon, v.date, 0.25, 0.5))
  {
    match FileAt(files, path)
    case None => Err(OpenFailed(path))
    case Some(audio) =>
      match analyze(Recording(audio, v.lat, v.lon, v.date, MinConfidence, Overlap))
      case None => Err(ClassifierFailed(path))
      case Some(detections) => Ok(detections)
  }

  /** What the analyzer gives each returned path; analysing reads files and writes none, so
      these do not depend on the order of the calls. */
  function Analyses(files: map<string, Bytes>, v: Variables, analyze: Analyze): (r: seq<Result<seq<Detection>, Error>>)
    ensures |r| == |v.paths| && forall t | 0 <= t < |v.paths| :: r[t] == GetBirdNetDetections(files, v.paths[t], v, analyze)
  {
    seq(|v.paths|, t requires 0 <= t < |v.paths| => GetBirdNetDetections(files, v.paths[t], v, analyze))
  }

  /** The aggregation loop from the `j`-th path on (counting from 0). */
  function AggregateFrom(analyses: seq<Result<seq<Detection>, Error>>, j: nat, acc: Batch): Result<Batch, Error>
    requires j <= |analyses|
    decreases |analyses| - j
  {
    if j == |analyses| then Ok(acc)
    else
      match analyses[j]
      case Err(e) => Err(e)
      case Ok(detections) => AggregateFrom(analyses, j + 1, Put(acc, RecordingKey(j + 1), detections))
  }

  /** The aggregation loop; it reads the temp directory and writes nothing. */
  method CollectDetections(files: map<string, Bytes>, v: Variables, analyze: Analyze) returns (r: Result<Batch, Error>)
    ensures r == AggregateFrom(Analyses(files, v, analyze), 0, [])
  {
    ghost var analyses := Analyses(files, v, analyze);
    var allDetections: Batch := [];
    var i := 1;
    var j := 0;
    while j < |v.paths|
      invariant j <= |v.paths| && i == j + 1
      invariant AggregateFrom(analyses, j, allDetections) == AggregateFrom(analyses, 0, [])
    {
      var detections :- GetBirdNetDetections(files, v.paths[j], v, analyze);
      allDetections := Put(allDetections, RecordingKey(i), detections);
      i := i + 1;
      j := j + 1;
    }
    r := Ok(allDetections);
  }

  /** The loop succeeds exactly when every path can be analysed. */
  lemma {:induction false} AggregateSucceeds(analyses: seq<Result<seq<Detection>, Error>>, j: nat, acc: Batch)
    requires j <= |analyses|
    ensures AggregateFrom(analyses, j, acc).Ok? <==> forall t | j <= t < |analyses| :: analyses[t].Ok?
    decreases |analyses| - j
  {
    if j < |analyses| && analyses[j].Ok? {
      AggregateSucceeds(analyses, j + 1, Put(acc, RecordingKey(j + 1), analyses[j].value));
    }
  }

  /** The `t`-th entry (counting from 0) is keyed recording_<t+1>. */
  predicate NumberedFrom1(b: Batch) {
    forall t | 0 <= t < |b| :: b[t].key == RecordingKey(t + 1)
  }

  /** The next numbered key is not in the dict yet. */
  lemma NextKeyIsNew(acc: Batch)
    requires NumberedFrom1(acc)
    ensures forall t | 0 <= t < |acc| :: acc[t].key != RecordingKey(|acc| + 1)
  {
    forall t | 0 <= t < |acc|
      ensures acc[t].key != RecordingKey(|acc| + 1)
    {
      RecordingKeysDistinct(t + 1, |acc| + 1);
    }
  }

  /** So assigning the next numbered key appends it. */
  lemma PutNextKey(acc: Batch, detections: seq<Detection>)
    requires NumberedFrom1(acc)
    ensures Put(acc, RecordingKey(|acc| + 1), detections) == acc + [Entry(RecordingKey(|acc| + 1), detections)]
    ensures NumberedFrom1(acc + [Entry(RecordingKey(|acc| + 1), detections)])
  {
    NextKeyIsNew(acc);
  }

  /** On success the loop has appended one entry per remaining path, each holding the
      detections of its own path: no key is ever overwritten. */
  lemma {:induction false} AggregateAppends(analyses: seq<Result<seq<Detection>, Error>>, j: nat, acc: Batch)
    requires j <= |analyses| && |acc| == j && NumberedFrom1(acc)
    ensures var r := AggregateFrom(analyses, j, acc);
      r.Ok? ==>
        && |r.value| == |analyses|
        && r.value[..j] == acc
        && forall t | j <= t < |analyses| :: Ok(r.value[t].detections) == analyses[t]
    decreases |analyses| - j
  {
    if j < |analyses| && analyses[j].Ok? {
      var d := analyses[j].value;
      var acc' := acc + [Entry(RecordingKey(j + 1), d)];
      PutNextKey(acc, d);
      assert AggregateFrom(analyses, j, acc) == AggregateFrom(analyses, j + 1, acc');
      AggregateAppends(analyses, j + 1, acc');
      var r := AggregateFrom(analyses, j + 1, acc');
      if r.Ok? {
        var b := r.value;
        assert b[..j + 1] == acc';
        assert b[..j] == acc'[..j] == acc;
        assert b[j] == acc'[j];
        forall t | j <= t < |analyses|
          ensures Ok(b[t].detections) == analyses[t]
        {
          if t == j {
            assert b[t].detections == d;
          }
        }
      }
    }
  }

  /** ... keyed recording_1 .. recording_N in path order. */
  lemma {:induction false} AggregateKeys(analyses: seq<Result<seq<Detection>, Error>>, j: nat, acc: Batch)
    requires j <= |analyses| && |acc| == j && NumberedFrom1(acc)
    ensures var r := AggregateFrom(analyses, j, acc);
      r.Ok? ==> NumberedFrom1(r.value)
    decreases |analyses| - j
  {
    if j < |analyses| && analyses[j].Ok? {
      PutNextKey(acc, analyses[j].value);
      AggregateKeys(analyses, j + 1, acc + [Entry(RecordingKey(j + 1), analyses[j].value)]);
    }
  }

  /** When every returned path names the same file, every entry holds the analysis of that one
      file. */
  lemma OnePathOneAnalysis(files: map<string, Bytes>, v: Variables, path: string, analyze: Analyze)
    requires forall t | 0 <= t < |v.paths| :: v.paths[t] == path
    ensures var r := AggregateFrom(Analyses(files, v, analyze), 0, []);
      r.Ok? ==>
        && |r.value| == |v.paths|
        && forall t | 0 <= t < |r.value| ::
             FileAt(files, path).Some? &&
             Some(r.value[t].detections) == analyze(Recording(FileAt(files, path).value, v.lat, v.lon, v.date, 0.25, 0.5))
  {
    var analyses := Analyses(files, v, analyze);
    AggregateAppends(analyses, 0, []);
    var r := AggregateFrom(analyses, 0, []);
    if r.Ok? {
      forall t | 0 <= t < |r.value|
        ensures FileAt(files, path).Some?
        ensures Some(r.value[t].detections) == analyze(Recording(FileAt(files, path).value, v.lat, v.lon, v.date, 0.25, 0.5))
      {
        assert Ok(r.value[t].detections) == GetBirdNetDetections(files, v.paths[t], v, analyze);
      }
    }
  }

  /** Numbered keys are distinct, as a dict's must be. */
  lemma NumberedKeysUnique(b: Batch)
    requires NumberedFrom1(b)
    ensures UniqueKeys(b)
  {
    forall j, k | 0 <= j < k < |b|
      ensures b[j].key != b[k].key
    {
      RecordingKeysDistinct(j + 1, k + 1);
    }
  }
}
