/**
 * The upload route (backend/routes/uploadRoutes.js): a base64 image is
 * written to a temporary file, its background removed, the result
 * compressed, the compressed file uploaded to cloud storage, and the
 * temporary files deleted.
 *
 * The background remover, the image compressor and the cloud upload are
 * parameters: a content transformation each, plus whether the step
 * succeeds and, for the upload, the URL it answers. Base64 decoding is not
 * modelled: the stored content is the base64 text itself.
 */
module UploadRoutes {
  import opened Common

  const DataUrlHead := "data:image/"
  const Base64Marker := ";base64,"
  const UploadErrorMessage := "Image upload failed"

  // ---------------------------------------------------------------------
  // The data-URL prefix strip: `image.replace(/^data:image\/\w+;base64,/, '')`
  // ---------------------------------------------------------------------

  /** A character of the regular-expression class `\w`. */
  predicate IsWordChar(c: char) {
    ('a' <= c <= 'z') || ('A' <= c <= 'Z') || ('0' <= c <= '9') || c == '_'
  }

  /** `\w+`: one or more word characters. */
  predicate IsWord(w: string) {
    |w| >= 1 && forall i :: 0 <= i < |w| ==> IsWordChar(w[i])
  }

  /** `t` is exactly one match of `data:image\/\w+;base64,`. */
  predicate IsDataUrlPrefix(t: string) {
    |t| >= |DataUrlHead| + 1 + |Base64Marker| &&
    t[..|DataUrlHead|] == DataUrlHead &&
    t[|t| - |Base64Marker|..] == Base64Marker &&
    IsWord(t[|DataUrlHead|..|t| - |Base64Marker|])
  }

  /** The length of the longest run of word characters at the start of `s`. */
  function WordRun(s: string): (n: nat)
    ensures n <= |s|
    ensures forall i :: 0 <= i < n ==> IsWordChar(s[i])
    ensures n < |s| ==> !IsWordChar(s[n])
  {
    if s == [] || !IsWordChar(s[0]) then 0 else 1 + WordRun(s[1..])
  }

  /** A run of word characters that ends at a non-word character (or the end) is the longest one. */
  lemma WordRunIs(s: string, m: nat)
    requires m <= |s|
    requires forall i :: 0 <= i < m ==> IsWordChar(s[i])
    requires m < |s| ==> !IsWordChar(s[m])
    ensures WordRun(s) == m
  {
  }

  /**
   * The length of the prefix the regular expression matches at the start
   * of `s`, if it matches: `\w+` is greedy and `;` is not a word
   * character, so the match ends after the longest word run.
   */
  function DataUrlPrefixLength(s: string): (r: Option<nat>)
    ensures r.Some? ==> r.value <= |s| && IsDataUrlPrefix(s[..r.value])
    ensures forall k :: 0 <= k <= |s| && IsDataUrlPrefix(s[..k]) ==> r == Some(k)
  {
    if StartsWith(s, DataUrlHead) then
      var rest := s[|DataUrlHead|..];
      var n := WordRun(rest);
      if n >= 1 && StartsWith(rest[n..], Base64Marker) then
        var k := |DataUrlHead| + n + |Base64Marker|;
        GreedyMatch(s, n);
        PrefixMatchIsUnique(s);
        Some(k)
      else
        PrefixMatchIsUnique(s);
        None
    else
      PrefixMatchIsUnique(s);
      None
  }

  /** The head, the longest word run when it is not empty, then the marker: a match. */
  lemma GreedyMatch(s: string, n: nat)
    requires StartsWith(s, DataUrlHead)
    requires n == WordRun(s[|DataUrlHead|..]) && n >= 1
    requires StartsWith(s[|DataUrlHead|..][n..], Base64Marker)
    ensures |DataUrlHead| + n + |Base64Marker| <= |s|
    ensures IsDataUrlPrefix(s[..|DataUrlHead| + n + |Base64Marker|])
  {
    var rest := s[|DataUrlHead|..];
    var k := |DataUrlHead| + n + |Base64Marker|;
    var t := s[..k];
    assert t[..|DataUrlHead|] == s[..|DataUrlHead|];
    assert t[|DataUrlHead|..k - |Base64Marker|] == rest[..n];
    assert t[k - |Base64Marker|..] == rest[n..][..|Base64Marker|];
  }

  /** Any match at the start of `s` has the length the greedy word run determines. */
  lemma PrefixMatchIsUnique(s: string)
    ensures forall k :: 0 <= k <= |s| && IsDataUrlPrefix(s[..k]) ==>
      && StartsWith(s, DataUrlHead)
      && WordRun(s[|DataUrlHead|..]) == k - |DataUrlHead| - |Base64Marker|
      && StartsWith(s[|DataUrlHead|..][k - |DataUrlHead| - |Base64Marker|..], Base64Marker)
  {
    forall k | 0 <= k <= |s| && IsDataUrlPrefix(s[..k])
      ensures StartsWith(s, DataUrlHead)
      ensures WordRun(s[|DataUrlHead|..]) == k - |DataUrlHead| - |Base64Marker|
      ensures StartsWith(s[|DataUrlHead|..][k - |DataUrlHead| - |Base64Marker|..], Base64Marker)
    {
      var t := s[..k];
      var rest := s[|DataUrlHead|..];
      var m := k - |DataUrlHead| - |Base64Marker|;
      assert s[..|DataUrlHead|] == t[..|DataUrlHead|];
      assert forall i :: 0 <= i < m ==> rest[i] == t[|DataUrlHead|..k - |Base64Marker|][i];
      assert rest[m] == t[k - |Base64Marker|..][0];
      WordRunIs(rest, m);
      assert rest[m..][..|Base64Marker|] == t[k - |Base64Marker|..];
    }
  }

  /** The strip: exactly one leading match is removed, or nothing when there is none. */
  function StripDataUrlPrefix(s: string): (r: string)
    ensures |r| <= |s| && r == s[|s| - |r|..]
    ensures r != s ==> IsDataUrlPrefix(s[..|s| - |r|])
  {
    match DataUrlPrefixLength(s)
    case None => s
    case Some(k) => s[k..]
  }

  /** Whatever follows one `data:image/<word>;base64,` head is recovered exactly, even if it starts with another head. */
  lemma StripRoundTrip(w: string, payload: string)
    requires IsWord(w)
    ensures StripDataUrlPrefix(DataUrlHead + w + Base64Marker + payload) == payload
  {
    var s := DataUrlHead + w + Base64Marker + payload;
    var k := |DataUrlHead| + |w| + |Base64Marker|;
    assert s[..k] == DataUrlHead + w + Base64Marker;
    assert s[..k][|DataUrlHead|..k - |Base64Marker|] == w;
    assert IsDataUrlPrefix(s[..k]);
    assert s[k..] == payload;
  }

  /** A string with no match at its start is kept as it is. */
  lemma StripWithoutPrefix(s: string)
    requires forall k :: 0 <= k <= |s| ==> !IsDataUrlPrefix(s[..k])
    ensures StripDataUrlPrefix(s) == s
  {
  }

  // ---------------------------------------------------------------------
  // Temporary file names
  // ---------------------------------------------------------------------

  /** `path.resolve(`./temp/${uuid}.png`)` from working directory `cwd`. */
  function InputPath(cwd: string, uuid: string): string {
    cwd + "/temp/" + uuid + ".png"
  }

  /** `inputPath.replace('.png', '-no-bg.png')`: the first ".png" is replaced. */
  function OutputPath(input: string): string {
    ReplaceFirst(input, ".png", "-no-bg.png")
  }

  /** `outputPath.replace('.png', '-compressed.png')`. */
  function CompressedPath(output: string): string {
    ReplaceFirst(output, ".png", "-compressed.png")
  }

  /** The three temporary paths of one request are pairwise different, whatever the directory. */
  lemma PathsDistinct(cwd: string, uuid: string)
    ensures
      var input := InputPath(cwd, uuid);
      var output := OutputPath(input);
      var compressed := CompressedPath(output);
      |input| < |output| < |compressed| && input != output && output != compressed && input != compressed
  {
    var base := cwd + "/temp/" + uuid;
    var input := InputPath(cwd, uuid);
    assert input[|base|..|base| + 4] == ".png";
    assert OccursAt(input, ".png", |base|);
    var j := IndexOf(input, ".png").value;
    var output := OutputPath(input);
    assert output == input[..j] + "-no-bg.png" + input[j + 4..];
    assert output[j + 6..j + 10] == ".png";
    assert OccursAt(output, ".png", j + 6);
    assert IndexOf(output, ".png").Some?;
  }

  /** ".png" first occurs at the end of `pre` in `pre + post` when `post` starts with it and `pre` has none. */
  lemma DotPngFirstAt(pre: string, post: string)
    requires !Contains(pre, ".png")
    requires StartsWith(post, ".png")
    ensures IndexOf(pre + post, ".png") == Some(|pre|)
  {
    var s := pre + post;
    assert s[|pre|..|pre| + 4] == post[..4];
    assert OccursAt(s, ".png", |pre|);
    forall j | 0 <= j < |pre| ensures !OccursAt(s, ".png", j) {
      if j + 4 <= |pre| {
        assert s[j..j + 4] == pre[j..j + 4];
        assert !OccursAt(pre, ".png", j);
      } else {
        assert s[|pre|] == '.';
        assert ".png"[|pre| - j] != '.';
        assert |pre| - j < 4;
      }
    }
  }

  /** Appending "-no-bg" cannot create a ".png". */
  lemma NoBgAddsNoDotPng(base: string)
    requires !Contains(base, ".png")
    ensures !Contains(base + "-no-bg", ".png")
  {
    var t := base + "-no-bg";
    forall j | 0 <= j <= |t| - 4 ensures !OccursAt(t, ".png", j) {
      if j + 4 <= |base| {
        assert t[j..j + 4] == base[j..j + 4];
        assert !OccursAt(base, ".png", j);
      } else if j >= |base| {
        assert t[j] != '.';
      } else {
        assert t[|base|] == '-';
        assert ".png"[|base| - j] != '-';
        assert |base| - j < 4;
      }
    }
  }

  /** Replacing the first ".png" of `pre + ".png"` replaces that suffix when `pre` has none of its own. */
  lemma ReplaceTrailingDotPng(pre: string, rep: string)
    requires !Contains(pre, ".png")
    ensures ReplaceFirst(pre + ".png", ".png", rep) == pre + rep
  {
    DotPngFirstAt(pre, ".png");
    var s := pre + ".png";
    assert s[..|pre|] == pre;
    assert s[|pre| + 4..] == [];
  }

  /** When neither the directory nor the id contains ".png", the names are the intended siblings. */
  lemma PathsConcrete(cwd: string, uuid: string)
    requires !Contains(cwd + "/temp/" + uuid, ".png")
    ensures OutputPath(InputPath(cwd, uuid)) == cwd + "/temp/" + uuid + "-no-bg.png"
    ensures CompressedPath(OutputPath(InputPath(cwd, uuid))) == cwd + "/temp/" + uuid + "-no-bg-compressed.png"
  {
    var base := cwd + "/temp/" + uuid;
    assert InputPath(cwd, uuid) == base + ".png";
    ReplaceTrailingDotPng(base, "-no-bg.png");
    assert OutputPath(InputPath(cwd, uuid)) == (base + "-no-bg") + ".png";
    NoBgAddsNoDotPng(base);
    ReplaceTrailingDotPng(base + "-no-bg", "-compressed.png");
  }

  // ---------------------------------------------------------------------
  // The handler's stages and its temporary files
  // ---------------------------------------------------------------------

  /** How the external steps turn out: write, background removal, compression, and the upload's URL. */
  datatype Effects = Effects(writeOk: bool, removeBgOk: bool, compressOk: bool, uploadUrl: Option<string>)

  datatype UploadReply = Uploaded(url: string) | UploadFailed(status: int, error: string)

  /** The compressed file gets written: the image is present and the three steps before the upload succeed. */
  predicate ReachesCompressed(image: Option<string>, e: Effects) {
    image.Some? && e.writeOk && e.removeBgOk && e.compressOk
  }

  /**
   * The temporary directory after the handler's stages, stopping at the
   * first failing one: the stripped payload written to the input path, the
   * background-free image to the output path, the compressed image to the
   * compressed path.
   */
  function Written(m: map<string, string>, input: string, output: string, compressed: string,
                   image: Option<string>, e: Effects, removeBg: string -> string, compress: string -> string)
    : map<string, string>
  {
    if image.None? || !e.writeOk then m
    else
      var payload := StripDataUrlPrefix(image.value);
      if !e.removeBgOk then m[input := payload]
      else if !e.compressOk then m[input := payload][output := removeBg(payload)]
      else m[input := payload][output := removeBg(payload)][compressed := compress(removeBg(payload))]
  }

  /**
   * What deleting temporary paths leaves after the stages: without the
   * compressed path, a stage's writes vanish entirely once the input and
   * output paths are deleted; with it, the compressed file remains.
   */
  lemma CleanupOfWrites(m: map<string, string>, input: string, output: string, compressed: string,
                        image: Option<string>, e: Effects, removeBg: string -> string, compress: string -> string)
    requires input != output && compressed != input && compressed != output
    ensures !ReachesCompressed(image, e) ==>
      Written(m, input, output, compressed, image, e, removeBg, compress) - {input, output} == m - {input, output}
    ensures ReachesCompressed(image, e) ==>
      Written(m, input, output, compressed, image, e, removeBg, compress) - {input, output}
      == (m - {input, output})[compressed := compress(removeBg(StripDataUrlPrefix(image.value)))]
    ensures Written(m, input, output, compressed, image, e, removeBg, compress) - {input, output, compressed}
      == m - {input, output, compressed}
  {
    if image.Some? && e.writeOk {
      var payload := StripDataUrlPrefix(image.value);
      var w := Written(m, input, output, compressed, image, e, removeBg, compress);
      if !e.removeBgOk {
        assert w == m[input := payload];
      } else if !e.compressOk {
        assert w == m[input := payload][output := removeBg(payload)];
      } else {
        var c := compress(removeBg(payload));
        assert w == m[input := payload][output := removeBg(payload)][compressed := c];
        assert w - {input, output} == (m - {input, output})[compressed := c];
      }
    }
  }

  /** The temporary directory (path to content) and the contents uploaded to cloud storage. */
  class UploadService {
    var files: map<string, string>
    var uploads: seq<string>

    constructor ()
      ensures files == map[] && uploads == []
    {
      files := map[];
      uploads := [];
    }

    /**
     * `POST /api/upload` as written. On success the three temporary files are
     * deleted and the URL returned. On any failure, a missing image included,
     * only the input and output paths are deleted: a compressed file that was
     * written stays in the directory.
     */
    method Handle(image: Option<string>, cwd: string, uuid: string, e: Effects,
                  removeBg: string -> string, compress: string -> string)
      returns (res: UploadReply)
      modifies this
      ensures
        var input := InputPath(cwd, uuid);
        var output := OutputPath(input);
        var compressed := CompressedPath(output);
        && (res.Uploaded? <==> ReachesCompressed(image, e) && e.uploadUrl.Some?)
        && (res.Uploaded? ==>
              && res.url == e.uploadUrl.value
              && uploads == old(uploads) + [compress(removeBg(StripDataUrlPrefix(image.value)))]
              && files == old(files) - {input, output, compressed})
        && (res.UploadFailed? ==>
              && res == UploadFailed(500, UploadErrorMessage)
              && uploads == old(uploads))
        && (res.UploadFailed? && !ReachesCompressed(image, e) ==>
              files == old(files) - {input, output})
        && (res.UploadFailed? && ReachesCompressed(image, e) ==>
              files == (old(files) - {input, output})[compressed := compress(removeBg(StripDataUrlPrefix(image.value)))])
    {
      var input := InputPath(cwd, uuid);
      var output := OutputPath(input);
      var compressed := CompressedPath(output);
      PathsDistinct(cwd, uuid);
      res := HandleAt(image, input, output, compressed, e, removeBg, compress);
      CleanupOfWrites(old(files), input, output, compressed, image, e, removeBg, compress);
    }

    /** The body of `Handle` once the three temporary paths are fixed. */
    method HandleAt(image: Option<string>, input: string, output: string, compressed: string, e: Effects,
                    removeBg: string -> string, compress: string -> string)
      returns (res: UploadReply)
      requires input != output && compressed != input && compressed != output
      modifies this
      ensures res.Uploaded? <==> ReachesCompressed(image, e) && e.uploadUrl.Some?
      ensures res.Uploaded? ==>
        && res.url == e.uploadUrl.value
        && uploads == old(uploads) + [compress(removeBg(StripDataUrlPrefix(image.value)))]
        && files == Written(old(files), input, output, compressed, image, e, removeBg, compress) - {input, output, compressed}
      ensures res.UploadFailed? ==>
        && res == UploadFailed(500, UploadErrorMessage) && uploads == old(uploads)
        && files == Written(old(files), input, output, compressed, image, e, removeBg, compress) - {input, output}
    {
      var ok := Stages(image, input, output, compressed, e, removeBg, compress);
      if ok {
        files := files - {input};
        files := files - {output};
        files := files - {compressed};
        return Uploaded(e.uploadUrl.value);
      }
      RemoveIfPresent(input);
      RemoveIfPresent(output);
      res := UploadFailed(500, UploadErrorMessage);
    }

    /** `if (fs.existsSync(p)) fs.unlinkSync(p)`: afterwards `p` is gone and nothing else changed. */
    method RemoveIfPresent(p: string)
      modifies this
      ensures files == old(files) - {p} && uploads == old(uploads)
    {
      if p in files {
        files := files - {p};
      }
    }

    /**
     * The same handler with the failure path deleting the compressed file too:
     * every exit leaves none of the three temporary paths behind.
     */
    method HandleWithFullCleanup(image: Option<string>, cwd: string, uuid: string, e: Effects,
                                 removeBg: string -> string, compress: string -> string)
      returns (res: UploadReply)
      modifies this
      ensures
        var input := InputPath(cwd, uuid);
        var output := OutputPath(input);
        var compressed := CompressedPath(output);
        && (res.Uploaded? <==> ReachesCompressed(image, e) && e.uploadUrl.Some?)
        && (res.Uploaded? ==>
              && res.url == e.uploadUrl.value
              && uploads == old(uploads) + [compress(removeBg(StripDataUrlPrefix(image.value)))])
        && (res.UploadFailed? ==> res == UploadFailed(500, UploadErrorMessage) && uploads == old(uploads))
        && files == old(files) - {input, output, compressed}
    {
      var input := InputPath(cwd, uuid);
      var output := OutputPath(input);
      var compressed := CompressedPath(output);
      PathsDistinct(cwd, uuid);
      var ok := Stages(image, input, output, compressed, e, removeBg, compress);
      files := files - {input, output, compressed};
      CleanupOfWrites(old(files), input, output, compressed, image, e, removeBg, compress);
      if ok {
        return Uploaded(e.uploadUrl.value);
      }
      res := UploadFailed(500, UploadErrorMessage);
    }

    /**
     * Steps 2 to 5 of the handler, stopping at the first failing one: write
     * the stripped payload, remove the background, compress, upload. The
     * upload happens only after both image steps have completed.
     */
    method Stages(image: Option<string>, input: string, output: string, compressed: string, e: Effects,
                  removeBg: string -> string, compress: string -> string)
      returns (ok: bool)
      requires input != output && compressed != input && compressed != output
      modifies this
      ensures ok <==> ReachesCompressed(image, e) && e.uploadUrl.Some?
      ensures ok ==> uploads == old(uploads) + [compress(removeBg(StripDataUrlPrefix(image.value)))]
      ensures !ok ==> uploads == old(uploads)
      ensures files == Written(old(files), input, output, compressed, image, e, removeBg, compress)
    {
      if image.None? || !e.writeOk {
        return false;
      }
      var payload := StripDataUrlPrefix(image.value);
      files := files[input := payload];
      if !e.removeBgOk {
        return false;
      }
      files := files[output := removeBg(payload)];
      if !e.compressOk {
        return false;
      }
      files := files[compressed := compress(files[output])];
      if e.uploadUrl.None? {
        return false;
      }
      uploads := uploads + [files[compressed]];
      ok := true;
    }
  }

  /** As written, an upload that fails after compression leaves the compressed file behind. */
  method FailedUploadLeavesCompressedFile(service: UploadService, image: string, cwd: string, uuid: string,
                                          removeBg: string -> string, compress: string -> string)
    returns (res: UploadReply)
    modifies service
    ensures res == UploadFailed(500, UploadErrorMessage)
    ensures CompressedPath(OutputPath(InputPath(cwd, uuid))) in service.files
  {
    res := service.Handle(Some(image), cwd, uuid, Effects(true, true, true, None), removeBg, compress);
  }
}
