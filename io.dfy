/** The filesystem app.py works in: the "temp" directory beside it, which holds regular files
    only, and the names the pipeline gives the files it writes there. */
module Io {
  import opened Wrappers
  import opened Exceptions
  import opened Json
  import opened Strings

  type Bytes = seq<bv8>

  const TempDirName := "temp"

  /** The name every converted recording is exported under. */
  const OutputName := "temp.wav"

  /** `os.path.join(temp_dir, name)` */
  function TempPath(name: string): string {
    TempDirName + "/" + name
  }

  const OutputPath := TempPath(OutputName)

  /** `"temp" + str(i) + "." + file_extension`: where sound `i` is downloaded to. */
  function DownloadName(i: nat, ext: string): string {
    "temp" + NatToString(i) + "." + ext
  }

  /** Two sounds never share a download name, since the counter is rendered in digits and an
      extension holds no '.'. */
  lemma {:induction false} DownloadNamesDistinct(i: nat, j: nat, e1: string, e2: string)
    requires i != j && '.' !in e1 && '.' !in e2
    ensures DownloadName(i, e1) != DownloadName(j, e2)
  {
    var a, b := NatToString(i), NatToString(j);
    var x, y := DownloadName(i, e1), DownloadName(j, e2);
    if x == y {
      assert x[4 + |a|] == '.' && y[4 + |b|] == '.';
      assert |a| == |b|;
      assert a == x[4..4 + |a|] == y[4..4 + |b|] == b;
      NatToStringInjective(i, j);
    }
  }

  /** A download never overwrites the converted file. */
  lemma DownloadNameIsNotOutputName(i: nat, ext: string)
    ensures DownloadName(i, ext) != OutputName
  {
    assert DownloadName(i, ext)[4] == NatToString(i)[0];
  }

  /** What `open(temp_dir + "/" + name, "wb")` raises, if anything: a NUL character is refused
      outright, and a '/' names a sub-directory, which the temp directory never has. */
  function OpenError(name: string): (r: Option<Error>)
    ensures r.None? <==> '\0' !in name && '/' !in name
  {
    if '\0' in name then Some(ValueError)
    else if '/' in name then Some(OpenFailed(TempPath(name)))
    else None
  }

  /** What `open(path, "rb")` reads, for a path relative to the working directory: only files
      of the temp directory are modelled. */
  function FileAt(files: map<string, Bytes>, path: string): Option<Bytes> {
    var prefix := TempDirName + "/";
    if |prefix| <= |path| && path[..|prefix|] == prefix && path[|prefix|..] in files
    then Some(files[path[|prefix|..]])
    else None
  }

  /** A file of the temp directory is read back under its joined path. */
  lemma FileAtTempPath(files: map<string, Bytes>, name: string)
    ensures FileAt(files, TempPath(name)) == if name in files then Some(files[name]) else None
  {
    assert TempPath(name)[|TempDirName + "/"|..] == name;
  }

  /** A response from `requests.get`: its body, and what `.json()` decodes it to (None when it
      is not JSON). */
  datatype HttpResponse = HttpResponse(content: Bytes, json: Option<Json>)

  /** The temp directory after a step, and what the step returned or raised. */
  datatype Outcome<T> = Outcome(files: map<string, Bytes>, result: Result<T, Error>)

  /** The temp directory: a map from file name to contents, updated in place. */
  class TempDir {
    var files: map<string, Bytes>

    /** The directory as found at start-up, possibly holding files of earlier runs. */
    constructor (existing: map<string, Bytes>)
      ensures files == existing
    {
      files := existing;
    }

    /** `open(path, mode="wb")`: creates the file, or empties it if it exists. */
    method OpenForWriting(name: string) returns (err: Option<Error>)
      modifies this
      ensures err == OpenError(name)
      ensures files == if err.None? then old(files)[name := []] else old(files)
    {
      err := OpenError(name);
      if err.None? {
        files := files[name := []];
      }
    }

    /** `file.write(data)` on a file opened for writing, or `export` over an existing file. */
    method Write(name: string, data: Bytes)
      modifies this
      ensures files == old(files)[name := data]
    {
      files := files[name := data];
    }

    /** `os.remove(path)`; the only caller removes names it has just listed. */
    method Remove(name: string)
      requires name in files
      modifies this
      ensures files == old(files) - {name}
    {
      files := files - {name};
    }
  }
}
