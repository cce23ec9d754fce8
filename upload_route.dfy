/**
 * The report upload endpoint: it checks the JSON body's `name` and `dataUri`, matches the
 * data URI against `^data:(.+);base64,(.+)$`, makes the file name safe, refuses payloads
 * over 20 MiB and writes one file of the reports directory. The directory is modelled as
 * a map from file name to bytes; Base64 decoding is the `decode` parameter.
 */
module UploadRoute {
  import opened Wrappers
  import opened Strings

  type Byte = b: int | 0 <= b < 256

  const MaxUploadBytes := 20 * 1024 * 1024

  /** The request body: `Malformed` when it is not JSON, or is JSON `null`, so that
      destructuring it throws; otherwise its two fields, `None` when absent. A JSON
      number, string or array has neither field and is `Body(None, None)`. */
  datatype Request = Malformed | Body(name: Option<string>, dataUri: Option<string>)

  datatype Response = Saved(path: string) | Rejected(status: int, message: string)

  // ------------------------------------------------------------ the data URI

  predicate NoLineTerminators(s: string) { forall i :: 0 <= i < |s| ==> !IsLineTerminator(s[i]) }

  /** `k` is where the regular expression can place `;base64,`: after `data:` and a
      non-empty media type, and before a non-empty payload. */
  predicate SplitPoint(s: string, k: int) {
    StartsWith(s, "data:") && 6 <= k && k + 8 < |s| && s[k..k + 8] == ";base64,"
  }

  /** The largest split point not after `k`. */
  function LastSplitPoint(s: string, k: int): (r: Option<int>)
    ensures r.Some? ==> SplitPoint(s, r.value) && r.value <= k
    ensures r.Some? ==> forall j :: r.value < j <= k ==> !SplitPoint(s, j)
    ensures r.None? ==> forall j :: j <= k ==> !SplitPoint(s, j)
    decreases k
  {
    if k < 6 then None else if SplitPoint(s, k) then Some(k) else LastSplitPoint(s, k - 1)
  }

  /** The match of `^data:(.+);base64,(.+)$` as (media type, payload). `.` matches no line
      terminator, and the first group is greedy: the payload follows the LAST `;base64,`
      that still leaves a non-empty payload. */
  function MatchDataUri(s: string): (r: Option<(string, string)>)
    ensures r.Some? <==> NoLineTerminators(s) && exists k :: SplitPoint(s, k)
    ensures r.Some? ==>
      |r.value.0| >= 1 && |r.value.1| >= 1 && s == "data:" + r.value.0 + ";base64," + r.value.1
    ensures r.Some? ==> forall k :: SplitPoint(s, k) ==> k <= 5 + |r.value.0|
  {
    if !NoLineTerminators(s) then None
    else
      match LastSplitPoint(s, |s| - 9)
      case None => None
      case Some(k) =>
        assert s == s[..5] + s[5..k] + s[k..k + 8] + s[k + 8..];
        Some((s[5..k], s[k + 8..]))
  }

  /** A well-formed data URI whose payload has no `;` (Base64 text never has one) matches
      with exactly its own media type and payload. */
  lemma MatchDataUriExact(mime: string, payload: string)
    requires |mime| >= 1 && |payload| >= 1
    requires NoLineTerminators(mime) && NoLineTerminators(payload) && ';' !in payload
    ensures MatchDataUri("data:" + mime + ";base64," + payload) == Some((mime, payload))
  {
    var s := "data:" + mime + ";base64," + payload;
    var k0 := 5 + |mime|;
    assert s[..5] == "data:";
    assert s[k0..k0 + 8] == ";base64,";
    assert SplitPoint(s, k0);
    forall i | 0 <= i < |s| ensures !IsLineTerminator(s[i]) {
      if k0 <= i < k0 + 8 {
        assert s[i] == ";base64,"[i - k0];
      } else if i >= k0 + 8 {
        assert s[i] == payload[i - k0 - 8];
      } else if i >= 5 {
        assert s[i] == mime[i - 5];
      }
    }
    forall j | k0 < j < |s| ensures !SplitPoint(s, j) {
      if j < k0 + 8 {
        assert s[j] == ";base64,"[j - k0];
      } else {
        assert s[j] == payload[j - k0 - 8];
      }
    }
    var r := MatchDataUri(s);
    assert r.Some?;
    var kr := 5 + |r.value.0|;
    assert s[kr..kr + 8] == ";base64,";
    assert SplitPoint(s, kr);
    assert kr == k0;
    assert r.value.0 == s[5..k0] == mime;
    assert r.value.1 == s[k0 + 8..] == payload;
  }

  /** The greedy group: with two markers, the payload is what follows the second. */
  lemma MatchDataUriIsGreedy()
    ensures MatchDataUri("data:a;base64,b;base64,c") == Some(("a;base64,b", "c"))
  {
    MatchDataUriExact("a;base64,b", "c");
    assert "data:" + "a;base64,b" + ";base64," + "c" == "data:a;base64,b;base64,c";
  }

  /** The data URI a client builds for a payload: `data:<mime>;base64,<payload>`. */
  function DataUri(mime: string, payload: string): string { "data:" + mime + ";base64," + payload }

  predicate IsBase64Char(c: char) { IsAsciiAlnum(c) || c == '+' || c == '/' || c == '=' }

  /** What a Base64 encoder produces for a non-empty input. */
  predicate IsBase64Text(t: string) { |t| >= 1 && forall i :: 0 <= i < |t| ==> IsBase64Char(t[i]) }

  // ------------------------------------------------------------ the file name

  /** The characters `[a-zA-Z0-9._-]` that the sanitiser keeps. */
  predicate IsSafeChar(c: char) { IsAsciiAlnum(c) || c == '.' || c == '_' || c == '-' }

  /** `name.replace(/[^a-zA-Z0-9._-]/g, '_')`. */
  function SafeName(name: string): (r: string)
    ensures |r| == |name|
    ensures forall i :: 0 <= i < |name| ==> r[i] == (if IsSafeChar(name[i]) then name[i] else '_')
  {
    if name == [] then "" else [if IsSafeChar(name[0]) then name[0] else '_'] + SafeName(name[1..])
  }

  /** Only safe characters remain, so no path separator survives; sanitising twice is the
      same as sanitising once; `.` and `..` pass through unchanged. */
  lemma SafeNameProperties(name: string)
    ensures forall i :: 0 <= i < |SafeName(name)| ==> IsSafeChar(SafeName(name)[i])
    ensures '/' !in SafeName(name) && '\\' !in SafeName(name)
    ensures SafeName(SafeName(name)) == SafeName(name)
    ensures SafeName(".") == "." && SafeName("..") == ".."
  {
  }

  /** A name made only of safe characters is its own safe name. */
  lemma SafeNameFixesSafeNames(name: string)
    requires forall i :: 0 <= i < |name| ==> IsSafeChar(name[i])
    ensures SafeName(name) == name
  {
  }

  // ------------------------------------------------------------ the handler

  /** The outcome of the checks that run before anything is decoded or written. */
  datatype Validation = Invalid(response: Response) | Valid(safeName: string, payload: string)

  /** The field check, then the URI check. */
  function Validate(req: Request): (v: Validation)
    ensures v.Valid? ==> req.Body? && Truthy(req.name) && Truthy(req.dataUri)
    ensures v.Valid? ==> v.safeName == SafeName(req.name.value) && |v.safeName| >= 1
    ensures v.Valid? ==> MatchDataUri(req.dataUri.value).Some? && MatchDataUri(req.dataUri.value).value.1 == v.payload
  {
    match req
    case Malformed => Invalid(Rejected(500, "Server error"))
    case Body(name, dataUri) =>
      if !Truthy(name) || !Truthy(dataUri) then Invalid(Rejected(400, "Missing name or dataUri"))
      else
        match MatchDataUri(dataUri.value)
        case None => Invalid(Rejected(400, "Invalid data URI"))
        case Some(parts) => Valid(SafeName(name.value), parts.1)
  }

  /** `path.join` of the reports directory with `.` or `..` names a directory, and
      writing a file there fails. */
  predicate NamesDirectory(safeName: string) { safeName == "." || safeName == ".." }

  /** The response to a request: the field check, the URI check, the size check, then the write. */
  function Respond(req: Request, decode: string -> seq<Byte>): (resp: Response)
    ensures resp.Saved? ==> Validate(req).Valid? && resp.path == "/reports/" + Validate(req).safeName
    ensures resp.Saved? ==> |decode(Validate(req).payload)| <= MaxUploadBytes
    ensures resp.Rejected? ==> resp.status in {400, 413, 500}
  {
    match Validate(req)
    case Invalid(resp) => resp
    case Valid(safeName, payload) =>
      if |decode(payload)| > MaxUploadBytes then Rejected(413, "File too large")
      else if NamesDirectory(safeName) then Rejected(500, "Server error")
      else Saved("/reports/" + safeName)
  }

  /** Missing or empty fields are reported first, whatever the URI and the payload. */
  lemma MissingFieldsFirst(name: Option<string>, dataUri: Option<string>, decode: string -> seq<Byte>)
    requires !Truthy(name) || !Truthy(dataUri)
    ensures Respond(Body(name, dataUri), decode) == Rejected(400, "Missing name or dataUri")
  {
  }

  /** A URI that does not match is reported next, whatever its size. */
  lemma InvalidUriBeforeSize(name: string, dataUri: string, decode: string -> seq<Byte>)
    requires name != "" && dataUri != ""
    ensures MatchDataUri(dataUri).None? <==>
      Respond(Body(Some(name), Some(dataUri)), decode) == Rejected(400, "Invalid data URI")
  {
  }

  /** The size limit is inclusive: exactly 20 MiB is accepted, one byte more is refused. */
  lemma SizeLimit(req: Request, decode: string -> seq<Byte>)
    requires Validate(req).Valid?
    ensures |decode(Validate(req).payload)| > MaxUploadBytes <==> Respond(req, decode) == Rejected(413, "File too large")
    ensures |decode(Validate(req).payload)| == MaxUploadBytes && !NamesDirectory(Validate(req).safeName) ==>
      Respond(req, decode) == Saved("/reports/" + Validate(req).safeName)
  {
  }

  /** A saved upload is named by the sanitised name, which holds no path separator. */
  lemma SavedPathIsSanitised(req: Request, decode: string -> seq<Byte>)
    requires Respond(req, decode).Saved?
    ensures req.Body? && req.name.Some?
    ensures Respond(req, decode).path == "/reports/" + SafeName(req.name.value)
    ensures '/' !in SafeName(req.name.value) && |SafeName(req.name.value)| == |req.name.value|
  {
    SafeNameProperties(req.name.value);
  }

  /** The reports directory. */
  class ReportStore {
    var files: map<string, seq<Byte>>
    var dirExists: bool

    constructor (files0: map<string, seq<Byte>>, dirExists0: bool)
      ensures files == files0 && dirExists == dirExists0
    {
      files := files0;
      dirExists := dirExists0;
    }

    /** Handles one POST. The directory is created once the URI is valid, before the size
        check; on success exactly the sanitised entry is set, overwriting any old value. */
    method Post(req: Request, decode: string -> seq<Byte>) returns (resp: Response)
      modifies this
      ensures resp == Respond(req, decode)
      ensures files == if resp.Saved?
        then old(files)[Validate(req).safeName := decode(Validate(req).payload)]
        else old(files)
      ensures dirExists == (old(dirExists) || Validate(req).Valid?)
    {
      if req.Malformed? {
        return Rejected(500, "Server error");
      }
      var name, dataUri := req.name, req.dataUri;
      if !Truthy(name) || !Truthy(dataUri) {
        return Rejected(400, "Missing name or dataUri");
      }
      var matches := MatchDataUri(dataUri.value);
      if matches.None? {
        return Rejected(400, "Invalid data URI");
      }
      var buffer := decode(matches.value.1);
      if !dirExists {
        dirExists := true;
      }
      var safeName := SafeName(name.value);
      if |buffer| > MaxUploadBytes {
        return Rejected(413, "File too large");
      }
      if NamesDirectory(safeName) {
        return Rejected(500, "Server error");
      }
      files := files[safeName := buffer];
      resp := Saved("/reports/" + safeName);
    }
  }

  /** A client upload of Base64 text under a name of safe characters is saved under that
      very name, with that very payload, as long as it fits the size limit. */
  lemma AcceptsClientUpload(name: string, mime: string, b64: string, decode: string -> seq<Byte>)
    requires |name| >= 1 && !NamesDirectory(name) && forall i :: 0 <= i < |name| ==> IsSafeChar(name[i])
    requires |mime| >= 1 && NoLineTerminators(mime)
    requires IsBase64Text(b64) && |decode(b64)| <= MaxUploadBytes
    ensures Validate(Body(Some(name), Some(DataUri(mime, b64)))) == Valid(name, b64)
    ensures Respond(Body(Some(name), Some(DataUri(mime, b64))), decode) == Saved("/reports/" + name)
  {
    assert forall i :: 0 <= i < |b64| ==> !IsLineTerminator(b64[i]) && b64[i] != ';';
    MatchDataUriExact(mime, b64);
    SafeNameFixesSafeNames(name);
  }
}
