# birdnet-web-interface: the detection pipeline

The web interface identifies birds in the sound recordings attached to an iNaturalist
observation. The user gives the URL of an observation. The service takes the observation
identifier from that URL and asks the iNaturalist API about the observation. From the first
result it reads:

- the observation date;
- its coordinates;
- its sounds.

Each sound is downloaded into a `temp` directory and converted to WAV with pydub. Every
returned file path goes through BirdNET (`analyzer.getBirdNetDetections`, with a confidence
floor of 0.25 and a window overlap of 0.5). The detections are gathered in a dictionary keyed
`recording_1`, `recording_2`, …, and the `temp` directory is then emptied.

This project models that pipeline, `getDetectionsFromObservationUrl` and the functions it
calls in `app.py`, and proves what it does. It follows the code as written:

- The extension keeps its case.
- A trailing dot gives the empty extension.
- Every download shares one `temp` directory.
- No file is removed on an error path.
- Every sound is exported over the same `temp/temp.wav`. Every returned path is that one file,
  so every recording's detections are those of the observation's LAST sound. `AppProperties.PipelineAnalysesLastSound` states this.

Structure:

- `wrappers.dfy`: `Option`, `Result`, and the Python exceptions as values (`Exceptions.Error`).
- `strings.dfy`: `str.find`, `str.rfind`, `str(int)`.
- `urls.dfy`:
  - the `path` component of `urllib.parse.urlparse`;
  - `unquote`;
  - `getFileExtension`;
  - the observation identifier and the API URL.
- `json.dfy`: the decoded API response, and Python's `value[key]`, `value[i]` and `key in value` on it.
- `calendar.dfy`: `datetime.datetime(year=…, month=…, day=…)`, with its argument conversions and range checks.
- `io.dfy`: the `temp` directory as a class whose `files` map is updated in place, and the names written into it.
- `classifier.dfy`: BirdNET's `Recording` and detections. `requests.get`, pydub and the analysis are given as functions (`Oracles.Env`).
- `sounds.dfy`: `extractSoundFilesFromObservation`.
- `observation.dfy`: `extractVariablesFromAPIResponse`.
- `detections.dfy`: `getBirdNetDetections` and the aggregation loop.
- `app.dfy`: the temp-directory clearing loop and `getDetectionsFromObservationUrl`.

The `TempDir` primitives and the clearing loop state the new contents of the directory
directly. The three pipeline functions work through the temp directory:
`extractSoundFilesFromObservation`, `extractVariablesFromAPIResponse` and
`getDetectionsFromObservationUrl`. Each is proved equal to a specification function of the
form `Outcome(files, result)`. The result is the value returned or the exception raised.
The files are what the directory holds afterwards, including what was written before an
exception. The lemmas state the properties of those functions.

## Model

| member | source | states |
|---|---|---|
| Strings.LastIndexOf | app.py:56 | `rfind`: -1 exactly when the character is absent; otherwise an index holding it, with no occurrence after it |
| Strings.NatToString | app.py:108 | `str(i)` is non-empty, has two or more characters from 10 on, holds no '.', and has no leading zero unless it is "0" itself |
| Strings.NatToStringDigits | app.py:108 | `str(i)` consists of decimal digits only |
| Strings.NatToStringValue | app.py:108 | reading the digits of `str(i)` back gives `i`: the rendering spells the number |
| Strings.NatToStringInjective | app.py:108 | distinct counters render as distinct strings |
| Urls.UrlPath | app.py:161-162 | the parsed path holds neither '?' nor '#' |
| Urls.Unquote | app.py:165 | percent-decoding never lengthens the path |
| Urls.AfterLastDot | app.py:168-173 | the result has no '.'; it is "" when the path has no '.'; otherwise the path ends with '.' followed by the result |
| Urls.GetFileExtension | app.py:160-173 | the extension has no '.'; it is "" when the decoded path has no '.'; otherwise it is the decoded path's tail after a '.' |
| Urls.ObservationId | app.py:56-57 | the identifier holds no '/'; it is the whole URL when there is no '/', otherwise the URL's tail after its last '/' |
| UrlProperties.UrlPathIgnoresQueryAndFragment | app.py:161-162 | appending a query or a fragment to a URL leaves its path unchanged |
| UrlProperties.ExtensionIgnoresQueryAndFragment | app.py:160-173 | appending a query or a fragment to a URL leaves its extension unchanged |
| UrlProperties.UrlPathOfAuthorityUrl | app.py:161-162 | for `scheme://host/path` followed by an optional query or fragment, the path component is exactly `/path` |
| UrlProperties.ExtensionOfAuthorityUrl | app.py:160-173 | the extension of such a URL is the text after the last '.' of its percent-decoded path |
| UrlProperties.ExtensionIsAfterLastDot | app.py:168-173 | any dot-free tail that follows a '.' of the decoded path is the extension: it is unique and its case is kept |
| UrlProperties.AfterLastDotUnique | app.py:168-173 | a path has only one dot-free tail after a '.' |
| UrlProperties.EmptyExtension | app.py:168-173 | the extension is "" exactly when the decoded path has no '.' or ends with '.' |
| UrlProperties.UnquoteKeepsPlainPrefix | app.py:165 | text without '%' passes through `unquote` unchanged |
| UrlProperties.UnquoteEncodedDot | app.py:165 | "%2E" and "%2e" both decode to '.' |
| UrlProperties.UnquoteKeepsLonePercent | app.py:165 | a '%' not followed by two hexadecimal digits is kept as it is |
| UrlProperties.UnquotePercentEncode | app.py:165 | `unquote` undoes percent-encoding: any ASCII text, written entirely as %XX escapes, decodes back to itself |
| UrlProperties.EncodedDotStartsExtension | app.py:165-173 | an encoded dot, "%2E" or "%2e", followed by a plain dot-free tail makes that tail the extension, since decoding comes before the search |
| UrlProperties.ApiUrlNamesObservation | app.py:55-59 | the API URL starts with the iNaturalist API prefix, and its identifier is the one of the observation URL |
| Json.Lookup | app.py:133 | `value[key]` succeeds exactly on an object holding the key, giving its value; a missing key raises KeyError(key); other values raise TypeError |
| Json.Index | app.py:134 | `value[i]` on a list succeeds exactly when the index is in range, giving that item, and raises IndexError otherwise |
| Json.Contains | app.py:146 | `key in value` on an object is key membership; on None, numbers and booleans it raises |
| Calendar.DaysInMonth | app.py:140 | every month has 28 to 31 days |
| Calendar.AsInt | app.py:140 | a datetime argument is accepted exactly when it is an int within a C int or a bool; the int is kept; other kinds raise TypeError |
| Calendar.MakeDate | app.py:140 | `datetime(year, month, day)` succeeds exactly when all three arguments convert and form a valid calendar date, which it returns |
| Io.DownloadNamesDistinct | app.py:108 | two sounds with different counters never share a download file, whatever their dot-free extensions |
| Io.DownloadNameIsNotOutputName | app.py:108-109 | a download never has the converted file's name |
| Io.OpenError | app.py:110 | opening a download file for writing fails exactly when its name holds a NUL or a '/' |
| Io.FileAtTempPath | app.py:109 | a file of the temp directory is read back under its joined path |
| Io.TempDir.constructor | app.py:9-11 | the temp directory starts with whatever files it already holds |
| Io.TempDir.OpenForWriting | app.py:110 | opening for writing empties or creates the file, or raises and changes nothing |
| Io.TempDir.Write | app.py:112 | the file's contents become the data written, and every other file is unchanged |
| Io.TempDir.Remove | app.py:83 | exactly the named file is removed |
| Sounds.FileUrl | app.py:101-102 | `sound["file_url"]` succeeds exactly on an object whose "file_url" is a string, which it returns |
| Sounds.SoundEntries | app.py:98-99 | iterating a list visits its items; an empty object or string visits nothing; a non-empty object or string fails at its first entry with TypeError; None, numbers and booleans are not iterable (TypeError) |
| Sounds.SourceOf | app.py:101-104 | a sound's source is its URL with a dot-free extension; it fails exactly when its URL cannot be read, with that error |
| Sounds.SourceExtension | app.py:101-104 | a sound's extension is `getFileExtension` of its own `file_url` |
| Sounds.SoundStep | app.py:100-119 | one turn succeeds exactly when the name opens, the URL answers and pydub decodes the body. It then returns temp/temp.wav, the body is in the sound's own download file and the WAV is in temp.wav. No file is ever removed |
| Sounds.StepFrame | app.py:108-116 | a turn writes only its own download file and temp.wav |
| Sounds.ExtractSoundFilesFromObservation | app.py:94-121 | the loop leaves the temp directory, and returns or raises, as the specification function `Sounds.ExtractSounds` says |
| SoundProperties.ProcessFromSucceeds | app.py:99-119 | the loop succeeds exactly when every sound's turn can succeed |
| SoundProperties.ProcessFromPaths | app.py:109-118 | the loop returns one path per sound, each one temp/temp.wav |
| SoundProperties.ProcessFromFrame | app.py:108-116 | a file that no later turn writes keeps its contents |
| SoundProperties.ProcessFromKeepsNames | app.py:99-119 | the loop never removes a file, even when it raises |
| SoundProperties.SourcesDotFree | app.py:104 | no sound's extension holds a '.' |
| SoundProperties.LaterStepsSkipDownload | app.py:108-109 | no later turn writes a download file once it has been written |
| SoundProperties.ProcessFromDownloads | app.py:108-112 | after a successful loop, every sound's body is in its own download file |
| SoundProperties.ProcessFromOutput | app.py:109-116 | after a successful loop, temp.wav holds the WAV of the LAST sound |
| SoundProperties.ExtractSoundsResult | app.py:94-121 | on success the function returns temp/temp.wav once per sound and keeps every download, and temp.wav holds the last sound's WAV |
| SoundProperties.ExtractSoundsSucceeds | app.py:94-121 | the function succeeds exactly when the sounds are iterable and every turn can succeed; it never removes a file |
| Observation.FirstResult | app.py:133-134 | only `results[0]` is read; an empty list raises IndexError and a missing "results" raises KeyError |
| Observation.ObservedOn | app.py:135-140 | the date is built from `observed_on_details`' year, month and day and is a valid calendar date; a details object holding all three keys gives `datetime` of them, so a valid date is accepted; a missing key raises KeyError, in the order the keys are read |
| Observation.Coordinates | app.py:143-149 | a null geojson or one without coordinates gives (None, None); otherwise the latitude is the second coordinate and the longitude the first; a missing "geojson" raises |
| Observation.ExtractVariablesFromApiResponse | app.py:130-151 | the function changes the temp directory, and returns or raises, as the specification function `Observation.ExtractVariables` says |
| ObservationProperties.ExtractVariablesResult | app.py:130-151 | on success the date is the first result's valid date, there is one temp/temp.wav path per sound, and the coordinates are the first result's |
| ObservationProperties.ExtractVariablesOutput | app.py:109-141 | on success with a sound, the file every path names holds the last sound's WAV |
| ObservationProperties.DateCheckedFirst | app.py:135-141 | a bad date raises before anything is downloaded, leaving the directory unchanged |
| ObservationProperties.MissingGeoJsonKeepsDownloads | app.py:141-145 | a first result without "geojson" raises KeyError only after every sound has been downloaded, and the downloads stay |
| ObservationProperties.ExtractVariablesKeepsNames | app.py:130-151 | no error path removes a file |
| Detections.Put | app.py:77 | assigning a new key appends it at the end, and assigning a present key keeps the dictionary's size |
| Detections.GetAfterPut | app.py:77 | reading an assigned key gives the value assigned, and every other key keeps its value |
| Detections.RecordingKeysDistinct | app.py:77 | distinct counters give distinct recording_<i> keys |
| Detections.GetBirdNetDetections | analyzer.py:11-27 | succeeds exactly when the file exists and the analysis of a Recording with its contents, the coordinates, the date, 0.25 and 0.5 succeeds, and returns those detections |
| Detections.CollectDetections | app.py:72-78 | the aggregation loop returns, or raises, what the specification function gives |
| Detections.AggregateSucceeds | app.py:74-78 | the aggregation succeeds exactly when every path can be analysed |
| Detections.NextKeyIsNew | app.py:77 | the next recording_<i> key is not in the dictionary yet |
| Detections.PutNextKey | app.py:77 | so assigning it appends an entry and keeps the keys numbered from 1 |
| Detections.AggregateAppends | app.py:72-78 | on success there is one entry per path, and each holds its own path's detections: no entry is overwritten |
| Detections.AggregateKeys | app.py:72-78 | on success the keys are recording_1 .. recording_N in path order |
| Detections.OnePathOneAnalysis | app.py:74-75 | when every path names the same file, every entry holds the analysis of that one file |
| Detections.NumberedKeysUnique | app.py:77 | keys numbered from 1 are pairwise distinct |
| App.EffectiveUrl | app.py:47-53 | the single-recording test switch wins over the multiple-recordings one; with neither, the user's URL is used |
| App.ClearTempDir | app.py:80-83 | the temp directory is left empty |
| App.GetDetectionsFromObservationUrl | app.py:46-85 | the function changes the temp directory, and returns or raises, as the specification function `App.Pipeline` says |
| AppProperties.PipelineFiles | app.py:80-85 | after a success the temp directory is empty; after an exception no file has been removed |
| AppProperties.PipelineKeys | app.py:72-78 | a success returns one entry per sound of the first result, keyed recording_1 .. recording_N, with no key twice |
| AppProperties.VariablesAnalyseLastSound | app.py:65-78 | aggregating over the extracted variables analyses the last sound's WAV for every entry |
| AppProperties.PipelineAnalysesLastSound | app.py:46-85 | every recording's detections are the analysis of the observation's LAST sound, at the observation's coordinates and date, with 0.25 and 0.5 |

## Left out

- The Flask routes (`home`, `getDetections`), the `use_test_detections` switch and its canned detections: they are the web front end, not the pipeline.
- The two test switches are parameters (`App.TestFlags`) rather than module globals.
- `log` and the messages it prints: only their effect is kept, namely that `sound["file_url"]` must be a string (`Sounds.FileUrl`).
- `async`/`await`: the pipeline is modelled as sequential.
- `makeHttpRequest`, `requests.get`, pydub and BirdNET are not part of this model: they are given as functions that may fail (`Oracles.Env`). HTTP status codes and headers are not modelled, and a response is its body and its decoded JSON.
- `observed_on_date.timestamp()` and `datetime.fromtimestamp` in `getBirdNetDetections`: the round trip is taken to give back the same local midnight, so the date is passed as is. Daylight-saving gaps and platform limits on timestamps are not modelled.
- `urlparse` follows Python 3.12: a scheme must start with an ASCII letter, with no port-number heuristic as in Python 3.8. The stripping of leading C0 control characters and spaces is not modelled, nor the removal of tab and newline characters, the IPv6 bracket checks, or the NFKC check on the network location.
- UrlProperties.UrlPathOfAuthorityUrl: stated for paths without ';'. For such a path with an http(s) scheme, `UrlPath` also cuts the ";params" of the last segment, but no lemma states it.
- `Urls.Unquote`: a `%XX` escape is decoded to the character with that code; the UTF-8 decoding of escapes at 0x80 and above is not modelled.
- `Json.Index`: indexing an object with an integer raises KeyError of the integer, modelled as KeyError of its decimal text.
- `Json.Contains`: on a list and a string its result is given, but only the object case and the raising cases are stated as properties.
- JSON numbers are ints or reals; floats as datetime arguments fall into the TypeError case. The float precision of the coordinates is not modelled, since they are passed through unchanged.
- The file system: only the `temp` directory and its regular files are modelled. Name length limits, permissions, a full disk and sub-directories of `temp` are not modelled, and `os.listdir` yields the names in an unspecified order.
- pydub writing part of `temp.wav` before it raises is not modelled: a failed conversion leaves `temp.wav` unchanged.
- `Detections.Put`: the case where a key is already present only states the size. The pipeline's keys never repeat (`Detections.PutNextKey`).
