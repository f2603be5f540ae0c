/**
 * What `uploadFile` does with the files picked in the open dialog: each one,
 * in order, is read from its place and written under its own name into the
 * current directory; a file that fails is reported and the next one goes on.
 */
module Upload {
  import opened Results
  import opened Text
  import opened Paths
  import opened FileSystem
  import opened Logging

  /** The volume after one file and the console line that reports it. */
  datatype Copy = Copy(volume: Volume, line: LogLine)

  function UploadFailed(name: string, message: string): LogLine {
    LogLine(Error, "Error uploading file " + name + ": " + message)
  }

  /** One turn of the loop: read the source, write it as `dir` + separator + its file name. */
  function CopyOne(platform: Platform, v: Volume, dir: string, source: string): Copy {
    var name := Basename(source);
    match FileOf(v, source)
    case Err(m) => Copy(v, UploadFailed(name, m))
    case Ok(content) =>
      match AfterWrite(platform, v, Child(platform, dir, name), content)
      case Ok(w) => Copy(w, LogLine(Success, "File uploaded: " + name))
      case Err(m) => Copy(v, UploadFailed(name, m))
  }

  /** The volume after the whole selection, the files taken in order. */
  function CopyAll(platform: Platform, v: Volume, dir: string, sources: seq<string>): Volume
    decreases |sources|
  {
    if sources == [] then v
    else CopyOne(platform, CopyAll(platform, v, dir, sources[..|sources| - 1]), dir, Last(sources)).volume
  }

  /** The console lines the selection writes, one per file, in order. */
  function UploadLog(platform: Platform, v: Volume, dir: string, sources: seq<string>): seq<LogLine>
    decreases |sources|
  {
    if sources == [] then []
    else
      var prefix := sources[..|sources| - 1];
      UploadLog(platform, v, dir, prefix) + [CopyOne(platform, CopyAll(platform, v, dir, prefix), dir, Last(sources)).line]
  }

  /** A copy that is reported as failed leaves the volume as it was; a reported success wrote the file. */
  lemma CopyOneReports(platform: Platform, v: Volume, dir: string, source: string)
    ensures var c := CopyOne(platform, v, dir, source);
      && (c.line.level == Error <==> c.volume == v && c.line.level != Success)
      && (c.line.level == Success ==> FileOf(c.volume, Child(platform, dir, Basename(source))) == FileOf(v, source))
      && c.line.level != Info
  {
    var name := Basename(source);
    BasenameShape(source);
    assert Free(name, {Separator(platform)});
    if FileOf(v, source).Ok? {
      WriteChild(platform, v, dir, name, FileOf(v, source).value);
    }
  }

  /**
   * A readable file lands in the directory, under its own name and with its
   * content, exactly when the target is neither locked nor a directory and
   * the directory exists.
   */
  lemma UploadedFileArrives(platform: Platform, v: Volume, dir: string, source: string)
    requires FileOf(v, source).Ok?
    ensures var target := Child(platform, dir, Basename(source));
      var c := CopyOne(platform, v, dir, source);
      && (c.line.level == Success <==> target !in v.locked && target !in v.dirs && dir in v.dirs)
      && (c.line.level == Success ==>
            FileOf(c.volume, target) == FileOf(v, source) && Entry(Basename(source), File) in c.volume.dirs[dir])
  {
    BasenameShape(source);
    WriteChild(platform, v, dir, Basename(source), FileOf(v, source).value);
  }

  /** Processing a selection in two parts is processing it whole. */
  lemma {:induction false} CopyAllAppend(platform: Platform, v: Volume, dir: string, a: seq<string>, b: seq<string>)
    ensures CopyAll(platform, v, dir, a + b) == CopyAll(platform, CopyAll(platform, v, dir, a), dir, b)
    decreases |b|
  {
    if b == [] {
      assert a + b == a;
    } else {
      var b' := b[..|b| - 1];
      assert (a + b)[..|a + b| - 1] == a + b';
      assert Last(a + b) == Last(b);
      CopyAllAppend(platform, v, dir, a, b');
    }
  }

  lemma {:induction false} UploadLogLength(platform: Platform, v: Volume, dir: string, sources: seq<string>)
    ensures |UploadLog(platform, v, dir, sources)| == |sources|
    decreases |sources|
  {
    if sources != [] {
      UploadLogLength(platform, v, dir, sources[..|sources| - 1]);
    }
  }

  lemma {:induction false} UploadLogLine(platform: Platform, v: Volume, dir: string, sources: seq<string>, i: nat)
    requires i < |sources|
    ensures |UploadLog(platform, v, dir, sources)| == |sources|
    ensures UploadLog(platform, v, dir, sources)[i] == CopyOne(platform, CopyAll(platform, v, dir, sources[..i]), dir, sources[i]).line
    decreases |sources|
  {
    var n := |sources| - 1;
    var prefix := sources[..n];
    UploadLogLength(platform, v, dir, sources);
    UploadLogLength(platform, v, dir, prefix);
    var log := UploadLog(platform, v, dir, sources);
    var earlier := UploadLog(platform, v, dir, prefix);
    assert log == earlier + [CopyOne(platform, CopyAll(platform, v, dir, prefix), dir, sources[n]).line];
    if i < n {
      UploadLogLine(platform, v, dir, prefix, i);
      assert log[i] == earlier[i];
      assert prefix[..i] == sources[..i] && prefix[i] == sources[i];
    } else {
      assert sources[..i] == prefix;
    }
  }

  /**
   * The log holds one line per selected file, in selection order, each
   * reporting that file as processed after all the files before it.
   */
  lemma UploadLogLines(platform: Platform, v: Volume, dir: string, sources: seq<string>)
    ensures |UploadLog(platform, v, dir, sources)| == |sources|
    ensures forall i :: 0 <= i < |sources| ==>
      UploadLog(platform, v, dir, sources)[i] == CopyOne(platform, CopyAll(platform, v, dir, sources[..i]), dir, sources[i]).line
  {
    UploadLogLength(platform, v, dir, sources);
    forall i | 0 <= i < |sources|
      ensures UploadLog(platform, v, dir, sources)[i] == CopyOne(platform, CopyAll(platform, v, dir, sources[..i]), dir, sources[i]).line
    {
      UploadLogLine(platform, v, dir, sources, i);
    }
  }

  /**
   * A file that fails does not stop the upload: the files after it are
   * processed exactly as if it had not been selected.
   */
  lemma FailedFileSkipped(platform: Platform, v: Volume, dir: string, a: seq<string>, s: string, b: seq<string>)
    requires CopyOne(platform, CopyAll(platform, v, dir, a), dir, s).line.level == Error
    ensures CopyAll(platform, v, dir, a + [s] + b) == CopyAll(platform, v, dir, a + b)
  {
    var before := CopyAll(platform, v, dir, a);
    CopyOneReports(platform, before, dir, s);
    CopyAllAppend(platform, v, dir, a + [s], b);
    CopyAllAppend(platform, v, dir, a, b);
    assert (a + [s])[..|a + [s]| - 1] == a;
    assert CopyAll(platform, v, dir, a + [s]) == before;
  }
}
