/** `convertFile` of src/lib/utils.ts: drive the transcoding engine through
    write-input, exec, read-output, and package the bytes read back as an
    image blob. The engine is a class over its virtual file system; what the
    engine's `exec` does to that file system belongs to the external FFmpeg
    library, so it is a function the engine is created with and nothing is
    assumed about it. */
module Conversion {
  import opened Wrappers
  import opened FileName
  import opened Constants

  newtype byte = x: int | 0 <= x < 256

  /** The engine's virtual file system: file names to contents. */
  type FileSystem = map<string, seq<byte>>

  /** The effect of one `exec` call with the given arguments. */
  type Transcoder = (seq<string>, FileSystem) -> FileSystem

  /** The browser file handed to `convertFile`: its name and its bytes (what
      `fetchFile` reads). */
  datatype InputFile = InputFile(name: string, bytes: seq<byte>)

  /** A typed binary object: its bytes and its MIME type. */
  datatype Blob = Blob(bytes: seq<byte>, mimeType: string)

  /** The record `convertFile` returns. The object URL of the source stands
      for the blob; here the record holds the blob itself. */
  datatype ConversionResult = ConversionResult(output: Blob, outputFileSize: nat, outputFullName: string)

  /** Why a conversion throws: no engine, or no output file to read back. */
  datatype ConvertError = EngineNotLoaded | FileNotFound(path: string)

  /** The blob's type: "image/" followed by the extension of the output name. */
  function MimeTag(outputFullName: string): (tag: string)
    ensures forall stem, ext :: outputFullName == stem + "." + ext && '.' !in ext ==> tag == "image/" + ext
    ensures '.' !in outputFullName ==> tag == "image/" + outputFullName
  {
    forall stem, ext | outputFullName == stem + "." + ext && '.' !in ext
      ensures SplitExtension(outputFullName).extension == ext
    {
      SplitAtLastDot(outputFullName, stem, ext);
    }
    "image/" + SplitExtension(outputFullName).extension
  }

  /** Reference definition of a conversion on a loaded engine whose file
      system is `fs`: the file system afterwards and the outcome. The
      conversion succeeds exactly when the output name is present after
      `exec`; the result then keeps the output name, carries the bytes
      stored under it with their count, and is tagged with `MimeTag`
      of the output name. Otherwise it fails with `FileNotFound` of the
      output name. */
  function Convert(fs: FileSystem, transcode: Transcoder, file: InputFile, outputFullName: string)
    : (out: (FileSystem, Result<ConversionResult, ConvertError>))
    ensures var (after, r) := out;
      && (r.Ok? <==> outputFullName in after)
      && (r.Ok? ==>
            && r.value.outputFullName == outputFullName
            && r.value.output.bytes == after[outputFullName]
            && r.value.outputFileSize == |after[outputFullName]|
            && r.value.output.mimeType == MimeTag(outputFullName))
      && (r.Err? ==> r.error == FileNotFound(outputFullName))
  {
    var staged := fs[file.name := file.bytes];
    var after := transcode(["-i", file.name, outputFullName], staged);
    if outputFullName in after then
      var blob := Blob(after[outputFullName], MimeTag(outputFullName));
      (after, Ok(ConversionResult(blob, |blob.bytes|, outputFullName)))
    else
      (after, Err(FileNotFound(outputFullName)))
  }

  /** The transcoding engine with its virtual file system. */
  class Engine {
    /** The virtual file system. */
    var files: FileSystem
    /** Every argument vector passed to `exec`, oldest first. */
    ghost var commands: seq<seq<string>>
    /** What one `exec` does to the file system. */
    const transcode: Transcoder

    constructor (transcode: Transcoder)
      ensures files == map[] && commands == [] && this.transcode == transcode
    {
      files := map[];
      commands := [];
      this.transcode := transcode;
    }

    /** `writeFile(path, data)`: store `data` under `path`. */
    method WriteFile(path: string, data: seq<byte>)
      modifies this
      ensures files == old(files)[path := data]
      ensures commands == old(commands)
    {
      files := files[path := data];
    }

    /** `exec(args)`: run the engine once on its file system. */
    method Exec(args: seq<string>)
      modifies this
      ensures files == transcode(args, old(files))
      ensures commands == old(commands) + [args]
    {
      files := transcode(args, files);
      commands := commands + [args];
    }

    /** `readFile(path)`: the bytes stored under `path`; a missing file is an
        error. */
    method ReadFile(path: string) returns (r: Result<seq<byte>, ConvertError>)
      ensures path in files ==> r == Ok(files[path])
      ensures path !in files ==> r == Err(FileNotFound(path))
    {
      if path in files {
        r := Ok(files[path]);
      } else {
        r := Err(FileNotFound(path));
      }
    }
  }

  /** `convertFile(ffmpeg, file, outputFullName)`. With no engine it fails
      with `EngineNotLoaded` and touches nothing; otherwise it writes the
      input, runs exactly one `exec` with `["-i", file.name, outputFullName]`
      and leaves the engine and the outcome as `Convert` describes. */
  method ConvertFile(engine: Engine?, file: InputFile, outputFullName: string)
    returns (r: Result<ConversionResult, ConvertError>)
    modifies engine
    ensures engine == null ==> r == Err(EngineNotLoaded)
    ensures engine != null ==>
      (engine.files, r) == Convert(old(engine.files), engine.transcode, file, outputFullName)
    ensures engine != null ==>
      engine.commands == old(engine.commands) + [["-i", file.name, outputFullName]]
  {
    var inputFullName := file.name;
    if engine == null {
      return Err(EngineNotLoaded);
    }
    var outputFormat := SplitExtension(outputFullName).extension;
    engine.WriteFile(inputFullName, file.bytes);
    var ffmpegCmd := ["-i", inputFullName, outputFullName];
    engine.Exec(ffmpegCmd);
    var data := engine.ReadFile(outputFullName);
    if data.Err? {
      return Err(data.error);
    }
    var blob := Blob(data.value, "image/" + outputFormat);
    var size := |blob.bytes|;
    r := Ok(ConversionResult(blob, size, outputFullName));
  }

  /** The file system after a conversion is what one `exec` with the
      conversion's command makes of the staged file system. */
  lemma ConvertState(fs: FileSystem, transcode: Transcoder, file: InputFile, outputFullName: string)
    ensures Convert(fs, transcode, file, outputFullName).0
         == transcode(["-i", file.name, outputFullName], fs[file.name := file.bytes])
  {
  }

  /** An output name ending in `.<format>` for a supported output format is
      tagged `image/<format>`, and that type is in the allow-list. */
  lemma SupportedOutputIsAccepted(stem: string, format: string)
    requires IsOutputFormat(format)
    ensures MimeTag(stem + "." + format) == "image/" + format
    ensures IsAcceptedMimeType(MimeTag(stem + "." + format))
  {
    OutputFormatsHaveNoDot();
    OutputFormatsAreAccepted();
  }

  /** The output name of the source's own comment, "output.jpg", is tagged
      "image/jpg", which the allow-list does not contain, although its
      `image/jpeg` entry lists ".jpg". */
  lemma JpgOutputTagNotAccepted()
    ensures MimeTag("output.jpg") == "image/jpg"
    ensures !IsAcceptedMimeType(MimeTag("output.jpg"))
    ensures AcceptsExtension("image/jpeg", ".jpg")
  {
    SplitAtLastDot("output.jpg", "output", "jpg");
    JpegAliases();
  }

  /** Converting to "out.jpeg" on a loaded engine: if the engine produced
      that file, the result is named "out.jpeg", tagged "image/jpeg" and its
      size is the byte count of the output. */
  lemma ConvertToJpeg(fs: FileSystem, transcode: Transcoder, file: InputFile)
    requires "out.jpeg" in transcode(["-i", file.name, "out.jpeg"], fs[file.name := file.bytes])
    ensures var (after, r) := Convert(fs, transcode, file, "out.jpeg");
      && r.Ok? && r.value.outputFullName == "out.jpeg"
      && r.value.output.mimeType == "image/jpeg"
      && r.value.outputFileSize == |after["out.jpeg"]|
  {
    assert "out.jpeg" == "out" + "." + "jpeg" && '.' !in "jpeg";
    assert MimeTag("out.jpeg") == "image/jpeg";
  }
}
