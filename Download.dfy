/** `download_media`: the yt-dlp options dictionary it builds from the format
    choice, and the name of the file it reports back. The library calls
    themselves (`extract_info`, `prepare_filename`) are not modelled; their
    outcome is an input, `Extraction`. */
module Download {
  import opened Strings
  import opened Paths

  const AudioFormat := "audio"
  const AudioExtension := ".mp3"
  const OutputTemplate := "%(title)s.%(ext)s"
  const MiB := 1024 * 1024

  /** One entry of the `postprocessors` list. */
  datatype PostProcessor = PostProcessor(key: string, preferredCodec: string, preferredQuality: string)

  /** The values that occur in the options dictionary. */
  datatype OptionValue =
    | Str(s: string)
    | Flag(b: bool)
    | Num(n: int)
    | Args(items: seq<string>)
    | PostProcessors(list: seq<PostProcessor>)

  type Options = map<string, OptionValue>

  /** The keys present whatever the format. */
  const BaseKeys: set<string> := {
    "format", "outtmpl", "noplaylist", "continuedl", "retries", "fragment_retries",
    "socket_timeout", "http_chunk_size", "external_downloader",
    "external_downloader_args", "quiet"
  }

  /** What the options for a download of format `fmt` into `dir` hold: the
      quality selector chosen by the format, the output template rooted in
      the directory, single-item mode, resumption, ten retries overall and
      per fragment, a ten-second socket timeout, ten-MiB chunks, aria2c with
      16 connections and 1M splits, quiet output, and, for audio only,
      re-encoding to 192 kbit/s MP3. */
  ghost predicate ConfiguredFor(opts: Options, dir: string, fmt: string) {
    && opts.Keys == BaseKeys + (if fmt == AudioFormat then {"postprocessors"} else {})
    && opts["format"] == Str(if fmt == AudioFormat then "bestaudio/best" else "bestvideo+bestaudio/best")
    && opts["outtmpl"] == Str(Join(dir, OutputTemplate))
    && opts["noplaylist"] == Flag(true)
    && opts["continuedl"] == Flag(true)
    && opts["retries"] == Num(10)
    && opts["fragment_retries"] == Num(10)
    && opts["socket_timeout"] == Num(10)
    && opts["http_chunk_size"] == Num(10 * MiB)
    && opts["external_downloader"] == Str("aria2c")
    && opts["external_downloader_args"] == Args(["-x", "16", "-k", "1M"])
    && opts["quiet"] == Flag(true)
    && (fmt == AudioFormat ==>
          opts["postprocessors"] == PostProcessors([PostProcessor("FFmpegExtractAudio", "mp3", "192")]))
  }

  /** Builds the dictionary, then adds the audio post-processor in place. */
  method BuildOptions(dir: string, fmt: string) returns (opts: Options)
    ensures ConfiguredFor(opts, dir, fmt)
    ensures "postprocessors" in opts <==> fmt == AudioFormat
  {
    opts := map[
      "format" := Str(if fmt == AudioFormat then "bestaudio/best" else "bestvideo+bestaudio/best"),
      "outtmpl" := Str(Join(dir, OutputTemplate)),
      "noplaylist" := Flag(true),
      "continuedl" := Flag(true),
      "retries" := Num(10),
      "fragment_retries" := Num(10),
      "socket_timeout" := Num(10),
      "http_chunk_size" := Num(10_485_760),
      "external_downloader" := Str("aria2c"),
      "external_downloader_args" := Args(["-x", "16", "-k", "1M"]),
      "quiet" := Flag(true)
    ];
    if fmt == AudioFormat {
      opts := opts["postprocessors" := PostProcessors([PostProcessor("FFmpegExtractAudio", "mp3", "192")])];
    }
  }

  /** The options are fully determined by the directory and the format. */
  lemma ConfiguredForUnique(a: Options, b: Options, dir: string, fmt: string)
    requires ConfiguredFor(a, dir, fmt) && ConfiguredFor(b, dir, fmt)
    ensures a == b
  {
    forall k | k in a.Keys ensures a[k] == b[k] {
      assert k in BaseKeys || k == "postprocessors";
    }
  }

  /** The codec the audio post-processor produces is the extension the
      reported file name is given. */
  lemma AudioCodecMatchesExtension(opts: Options, dir: string)
    requires ConfiguredFor(opts, dir, AudioFormat)
    ensures opts["postprocessors"].list[0].preferredCodec == AudioExtension[1..]
  {
  }

  /** The audio file name: the `splitext` stem followed by `.mp3`. */
  function AudioFilename(name: string): string {
    Splitext(name).0 + AudioExtension
  }

  /** The name `download_media` returns for the name yt-dlp prepared. */
  function FinalFilename(fmt: string, prepared: string): string {
    if fmt == AudioFormat then AudioFilename(prepared) else prepared
  }

  /** The audio name ends in `.mp3` and differs from the prepared name only
      in what follows the stem: the stem is a prefix of the prepared name and
      what it dropped is empty or a single extension. */
  lemma AudioFilenameShape(name: string)
    ensures EndsWith(AudioFilename(name), AudioExtension)
    ensures StartsWith(name, Splitext(name).0)
    ensures var ext := name[|Splitext(name).0|..];
      ext == [] || (ext[0] == ExtSep && ExtSep !in ext[1..] && Sep !in ext)
  {
    var (root, ext) := Splitext(name);
    assert name == root + ext;
    assert name[..|root|] == root && name[|root|..] == ext;
    var r := AudioFilename(name);
    assert r[|r| - |AudioExtension|..] == AudioExtension;
  }

  /** Rewriting an audio name twice changes nothing, as long as its last
      component is not made of dots only. */
  lemma AudioFilenameIdempotent(name: string)
    requires NamedLastComponent(name)
    ensures AudioFilename(AudioFilename(name)) == AudioFilename(name)
  {
    StemKeepsName(name);
    SplitextOfAppended(Splitext(name).0, AudioExtension);
  }

  /** A name that lacks a named last component is not idempotent: the
      directory `a/` gives `a/.mp3`, and that becomes `a/.mp3.mp3`. */
  lemma AudioFilenameOfBareDirectory()
    ensures AudioFilename("a/") == "a/.mp3"
    ensures AudioFilename(AudioFilename("a/")) == "a/.mp3.mp3"
  {
    assert LastIndex("a/", Sep) == 1;
    assert Splitext("a/") == ("a/", "");
    var p := "a/.mp3";
    assert p == "a/." + "mp3";
    LastIndexAppend("a/.", "mp3", Sep);
    LastIndexAppend("a/.", "mp3", ExtSep);
    assert "a/."[..2] == "a/";
    assert LastIndex(p, Sep) == 1;
    assert LastIndex(p, ExtSep) == 2;
    assert !HasNonDot(p, 2, 2);
    assert Splitext(p) == (p, "");
  }

  /** A name laid out by the output template, `dir/title.ext`, turns into
      `dir/title.mp3`: the same directory and title, for any title without a
      separator that is not made of dots only, and any extension without a
      dot or separator. */
  lemma AudioFilenameOfTemplate(dir: string, title: string, ext: string)
    requires Sep !in title && exists k :: 0 <= k < |title| && title[k] != ExtSep
    requires ExtSep !in ext && Sep !in ext
    ensures AudioFilename(Join(dir, title + [ExtSep] + ext)) == Join(dir, title + AudioExtension)
  {
    var prefix := if dir == [] || EndsWith(dir, [Sep]) then dir else dir + [Sep];
    assert !StartsWith(title + [ExtSep] + ext, [Sep]) by {
      assert (title + [ExtSep] + ext)[0] == title[0];
    }
    assert !StartsWith(title + AudioExtension, [Sep]) by {
      assert (title + AudioExtension)[0] == title[0];
    }
    var root := prefix + title;
    assert Join(dir, title + [ExtSep] + ext) == root + ([ExtSep] + ext);
    assert Join(dir, title + AudioExtension) == root + AudioExtension;
    // The last component of `root` is the title.
    var sep := LastIndex(root, Sep);
    LastIndexAppend(prefix, title, Sep);
    var k :| 0 <= k < |title| && title[k] != ExtSep;
    assert root[|prefix| + k] == title[k];
    assert NamedLastComponent(root);
    var e := [ExtSep] + ext;
    assert e[1..] == ext;
    SplitextOfAppended(root, e);
  }

  /** What `extract_info` followed by `prepare_filename` gave: the name the
      library prepared, or the text of the exception it raised. */
  datatype Extraction = Extracted(preparedName: string) | ExtractFailed(message: string)

  /** What `download_media` gives its caller: a file path, or the exception. */
  datatype DownloadResult = Downloaded(path: string) | DownloadFailed(message: string)

  /** The download's result for a given extraction. */
  function ResultOf(fmt: string, x: Extraction): (r: DownloadResult)
    ensures r.Downloaded? <==> x.Extracted?
    ensures r.DownloadFailed? ==> r.message == x.message
    ensures r.Downloaded? && fmt == AudioFormat ==>
      EndsWith(r.path, AudioExtension) && StartsWith(x.preparedName, r.path[..|r.path| - |AudioExtension|])
    ensures r.Downloaded? && fmt != AudioFormat ==> r.path == x.preparedName
  {
    match x
    case Extracted(name) =>
      AudioFilenameShape(name);
      var path := FinalFilename(fmt, name);
      assert fmt == AudioFormat ==> path[..|path| - |AudioExtension|] == Splitext(name).0;
      Downloaded(path)
    case ExtractFailed(msg) => DownloadFailed(msg)
  }

  /** `download_media(url, download_dir, fmt)`: the options handed to
      yt-dlp, and the path of the file or the error. */
  method DownloadMedia(url: string, dir: string, fmt: string, x: Extraction)
    returns (opts: Options, result: DownloadResult)
    ensures ConfiguredFor(opts, dir, fmt)
    ensures result == ResultOf(fmt, x)
  {
    opts := BuildOptions(dir, fmt);
    match x {
      case Extracted(name) =>
        var filename := name;
        if fmt == AudioFormat {
          filename := Splitext(filename).0 + AudioExtension;
        }
        result := Downloaded(filename);
      case ExtractFailed(msg) =>
        result := DownloadFailed(msg);
    }
  }
}
