/** The validation and naming rules of server/routes/uploadRoutes.js: the
    `sanitize` helper, the profile-image and resource uploads (the image host
    itself is a parameter: what it answered), and the proxy download's file
    name and headers. */
module UploadRoutes {
  import opened Strings
  import opened Models

  // ---------------------------------------------------------------------------
  // sanitize

  /** The characters `[a-zA-Z0-9._-]` that `sanitize` keeps. */
  predicate Allowed(c: char) {
    ('a' <= c <= 'z') || ('A' <= c <= 'Z') || ('0' <= c <= '9') || c == '.' || c == '_' || c == '-'
  }

  predicate AllAllowed(s: string) {
    forall i | 0 <= i < |s| :: Allowed(s[i])
  }

  /** Every character lies in the Basic Multilingual Plane, so JavaScript
      stores each as one UTF-16 code unit. */
  predicate Bmp(s: string) {
    forall i | 0 <= i < |s| :: s[i] <= '\U{FFFF}'
  }

  /** The length of `s` in UTF-16 code units, the unit JavaScript strings and
      regular expressions without the `u` flag work in. */
  function Utf16Length(s: string): (n: nat)
    ensures |s| <= n <= 2 * |s|
    ensures Bmp(s) ==> n == |s|
  {
    if s == [] then 0 else (if s[0] <= '\U{FFFF}' then 1 else 2) + Utf16Length(s[1..])
  }

  /** What the regular expression writes for one character: the character
      if allowed, else one `_` per UTF-16 code unit it occupies. */
  function SanitizeChar(c: char): string {
    if Allowed(c) then [c] else if c <= '\U{FFFF}' then "_" else "__"
  }

  /** `s.replace(/[^a-zA-Z0-9._-]/g, "_")`: one code unit for one. */
  function Sanitize(s: string): (r: string)
    ensures |r| == Utf16Length(s)
    ensures AllAllowed(r)
    ensures forall c | c in r :: c in s || c == '_'
    ensures Bmp(s) ==> forall i | 0 <= i < |s| :: r[i] == (if Allowed(s[i]) then s[i] else '_')
  {
    if s == [] then []
    else
      var t := Sanitize(s[1..]);
      assert Bmp(s) ==> Bmp(s[1..]) by {
        if Bmp(s) {
          forall i | 0 <= i < |s[1..]| ensures s[1..][i] <= '\U{FFFF}' {
            assert s[1..][i] == s[i + 1];
          }
        }
      }
      SanitizeChar(s[0]) + t
  }

  /** A character outside the Basic Multilingual Plane occupies two code
      units, and each becomes a `_`. */
  lemma SanitizeAstral()
    ensures Sanitize("a\U{1F600}b") == "a__b"
  {
    assert "a\U{1F600}b"[1..] == "\U{1F600}b";
    assert "\U{1F600}b"[1..] == "b";
  }

  /** A string of allowed characters comes back unchanged, so sanitising
      twice is sanitising once. */
  lemma SanitizeIdempotent(s: string)
    ensures AllAllowed(s) ==> Sanitize(s) == s
    ensures Sanitize(Sanitize(s)) == Sanitize(s)
  {
    var t := Sanitize(s);
    assert Sanitize(t) == t by {
      assert Bmp(t);
      assert forall i | 0 <= i < |t| :: Sanitize(t)[i] == t[i];
    }
    if AllAllowed(s) {
      assert Bmp(s);
      assert forall i | 0 <= i < |s| :: Sanitize(s)[i] == s[i];
    }
  }

  /** `req.user?.email || "user"`, sanitised. */
  function SafeEmail(email: Option<string>): (r: string)
    ensures AllAllowed(r) && r != []
  {
    Sanitize(if Truthy(email) then email.value else "user")
  }

  /** A folder one level below `root`: the sanitised part holds no '/'. */
  predicate OneLevelBelow(folder: string, root: string) {
    StartsWith(folder, root) && folder != root && '/' !in folder[|root|..]
  }

  // ---------------------------------------------------------------------------
  // The two upload routes

  /** The file multer parsed from the form, if any. */
  datatype UploadFile = UploadFile(originalname: string, mimetype: string, size: nat)

  /** What the image host's upload callback received. */
  datatype HostResult = Stored(secureUrl: string) | HostFailed(error: string)

  /** The options handed to `upload_stream`. */
  datatype HostRequest = HostRequest(folder: string, publicId: string, resourceType: string)

  /** The JSON reply, with the upload request the handler made (None when it
      answered before uploading). */
  datatype UploadReply = UploadReply(status: nat, message: string, request: Option<HostRequest>,
                                     url: Option<string>, name: Option<string>)

  /** POST /profile-image. `now` is `Date.now()`, `host` the upload's outcome. */
  function ProfileImage(file: Option<UploadFile>, email: Option<string>, now: nat, host: HostResult): (r: UploadReply)
    ensures file.None? ==> r == UploadReply(400, "No file uploaded", None, None, None)
    ensures file.Some? && !StartsWith(file.value.mimetype, "image/") ==>
      r == UploadReply(400, "Only image files are allowed", None, None, None)
    ensures r.request.Some? <==> file.Some? && StartsWith(file.value.mimetype, "image/")
    ensures r.request.Some? ==>
      && r.request.value.folder == "profile-images/" + SafeEmail(email)
      && r.request.value.publicId == "profile_" + Show(now)
      && OneLevelBelow(r.request.value.folder, "profile-images/")
      && r.request.value.resourceType == "image"
      && (host.Stored? ==> r.status == 201 && r.url == Some(host.secureUrl))
      && (host.HostFailed? ==> r.status == 500 && r.message == "Failed to upload profile image" && r.url == None)
  {
    if file.None? then UploadReply(400, "No file uploaded", None, None, None)
    else if !StartsWith(file.value.mimetype, "image/") then UploadReply(400, "Only image files are allowed", None, None, None)
    else
      var folder := "profile-images/" + SafeEmail(email);
      assert folder[|"profile-images/"|..] == SafeEmail(email);
      var req := HostRequest(folder, "profile_" + Show(now), "image");
      if host.Stored? then UploadReply(201, "Profile image uploaded successfully", Some(req), Some(host.secureUrl), None)
      else UploadReply(500, "Failed to upload profile image", Some(req), None, None)
  }

  /** `req.file.originalname.split(".")[0]`, sanitised. */
  function ResourceId(originalname: string): (r: string)
    ensures r == Sanitize(BeforeFirst(originalname, '.'))
    ensures AllAllowed(r) && '.' !in r
    ensures |r| <= 2 * |originalname|
    ensures Bmp(originalname) ==> |r| <= |originalname|
  {
    var stem := BeforeFirst(originalname, '.');
    assert Bmp(originalname) ==> Bmp(stem) by {
      assert forall i | 0 <= i < |stem| :: stem[i] == originalname[i];
    }
    Sanitize(stem)
  }

  /** POST /resource: any file type is accepted. */
  function Resource(file: Option<UploadFile>, email: Option<string>, host: HostResult): (r: UploadReply)
    ensures file.None? <==> r == UploadReply(400, "No file uploaded", None, None, None)
    ensures file.Some? ==>
      && r.request.Some?
      && r.request.value.folder == "resources/" + SafeEmail(email)
      && OneLevelBelow(r.request.value.folder, "resources/")
      && r.request.value.publicId == ResourceId(file.value.originalname)
      && r.request.value.resourceType == "auto"
      && (host.Stored? ==> r.status == 201 && r.url == Some(host.secureUrl) && r.name == Some(file.value.originalname))
      && (host.HostFailed? ==> r.status == 500 && r.message == "Failed to upload resource" && r.url == None)
  {
    if file.None? then UploadReply(400, "No file uploaded", None, None, None)
    else
      var folder := "resources/" + SafeEmail(email);
      assert folder[|"resources/"|..] == SafeEmail(email);
      var req := HostRequest(folder, ResourceId(file.value.originalname), "auto");
      if host.Stored? then
        UploadReply(201, "Resource uploaded successfully", Some(req), Some(host.secureUrl), Some(file.value.originalname))
      else UploadReply(500, "Failed to upload resource", Some(req), None, None)
  }

  /** Only the profile route looks at the mimetype: a file the image route
      refuses for its type still reaches the host through the resource route. */
  lemma ResourceIgnoresType(f: UploadFile, email: Option<string>, now: nat, host: HostResult)
    requires !StartsWith(f.mimetype, "image/")
    ensures ProfileImage(Some(f), email, now, host).status == 400
    ensures Resource(Some(f), email, host).request.Some?
  {
  }

  // ---------------------------------------------------------------------------
  // The proxy download

  /** Node's `path.basename` for POSIX paths: the last segment, ignoring
      trailing slashes. */
  function Basename(p: string): (r: string)
    ensures var q := StripTrailing(p, '/');
      && EndsWith(q, r) && '/' !in r
      && (|r| < |q| ==> q[|q| - |r| - 1] == '/')
  {
    AfterLast(StripTrailing(p, '/'), '/')
  }

  /** The base name takes its characters from the path. */
  lemma BasenameWithin(p: string, c: char)
    requires c !in p
    ensures c !in Basename(p)
  {
  }

  /** `name || path.basename(url.split("?")[0])`. */
  function FileName(url: string, name: Option<string>): (r: string)
    ensures Truthy(name) ==> r == name.value
    ensures !Truthy(name) ==> r == Basename(BeforeFirst(url, '?'))
    ensures !Truthy(name) ==> '/' !in r && '?' !in r
  {
    if Truthy(name) then name.value
    else
      var r := Basename(BeforeFirst(url, '?'));
      BasenameWithin(BeforeFirst(url, '?'), '?');
      r
  }

  /** The characters Node accepts in a header value (it throws on any other):
      tab, visible ASCII and space, and the octets 0x80-0xFF. */
  predicate HeaderChar(c: char) {
    c == '\t' || (' ' <= c <= '~') || ('\U{80}' <= c <= '\U{FF}')
  }

  predicate HeaderSafe(s: string) {
    forall i | 0 <= i < |s| :: HeaderChar(s[i])
  }

  /** qdtext of section 3.2.6 of RFC 7230: a header character other than the
      double quote and the backslash. */
  predicate QdText(c: char) {
    HeaderChar(c) && c != '"' && c != '\\'
  }

  /** The inside of a quoted-string (section 3.2.6 of RFC 7230): qdtext and
      quoted-pairs (a backslash and any header character). */
  predicate QuotedText(t: string)
    decreases |t|
  {
    t == [] ||
    (t[0] == '\\' && |t| >= 2 && HeaderChar(t[1]) && QuotedText(t[2..])) ||
    (QdText(t[0]) && QuotedText(t[1..]))
  }

  const DispositionPrefix: string := "attachment; filename=\""

  /** An `attachment` disposition whose filename parameter is one
      quoted-string, as section 4.1 of RFC 6266 requires. */
  predicate WellFormedDisposition(v: string) {
    && StartsWith(v, DispositionPrefix)
    && |v| >= |DispositionPrefix| + 1
    && v[|v| - 1] == '"'
    && QuotedText(v[|DispositionPrefix|..|v| - 1])
  }

  /** The header exactly as the route builds it: the name between quotes,
      unescaped. */
  function DispositionAsWritten(fileName: string): (r: string)
    ensures r == DispositionPrefix + fileName + "\""
  {
    DispositionPrefix + fileName + "\""
  }

  /** A file name holding a double quote gives a header that is not one
      quoted-string: the recipient reads the name `a` and stray text after it. */
  lemma AsWrittenBreaksQuoting()
    ensures !WellFormedDisposition(DispositionAsWritten("a\"b"))
  {
    var v := DispositionAsWritten("a\"b");
    assert v[|DispositionPrefix|..|v| - 1] == "a\"b";
    assert !QuotedText("\"b");
    assert !QuotedText("a\"b");
  }

  function EscapeChar(c: char): string {
    if c == '"' || c == '\\' then ['\\', c] else [c]
  }

  /** The quoted-pair escaping of double quotes and backslashes. */
  function Escape(s: string): string {
    if s == [] then [] else EscapeChar(s[0]) + Escape(s[1..])
  }

  /** What a recipient reads back from the inside of a quoted-string. */
  function Unescape(t: string): string
    decreases |t|
  {
    if t == [] then []
    else if t[0] == '\\' && |t| >= 2 then [t[1]] + Unescape(t[2..])
    else [t[0]] + Unescape(t[1..])
  }

  /** Escaping makes a well-formed quoted-string of any header-safe name. */
  lemma {:induction false} EscapeQuoted(s: string)
    requires HeaderSafe(s)
    ensures QuotedText(Escape(s))
  {
    if s != [] {
      EscapeQuoted(s[1..]);
      var e := Escape(s);
      assert e == EscapeChar(s[0]) + Escape(s[1..]);
      if s[0] == '"' || s[0] == '\\' {
        assert e[2..] == Escape(s[1..]);
      } else {
        assert e[1..] == Escape(s[1..]);
      }
    }
  }

  /** The recipient reads back exactly the name that was escaped. */
  lemma {:induction false} UnescapeEscape(s: string)
    ensures Unescape(Escape(s)) == s
  {
    if s != [] {
      UnescapeEscape(s[1..]);
      var e := Escape(s);
      assert e == EscapeChar(s[0]) + Escape(s[1..]);
      if s[0] == '"' || s[0] == '\\' {
        assert e[2..] == Escape(s[1..]);
      } else {
        assert e[1..] == Escape(s[1..]);
      }
    }
  }

  lemma {:induction false} EscapeHeaderSafe(s: string)
    requires HeaderSafe(s)
    ensures HeaderSafe(Escape(s))
  {
    if s != [] {
      EscapeHeaderSafe(s[1..]);
      assert Escape(s) == EscapeChar(s[0]) + Escape(s[1..]);
    }
  }

  /** The disposition with the name escaped. */
  function Disposition(fileName: string): string {
    DispositionPrefix + Escape(fileName) + "\""
  }

  /** For every header-safe name the corrected header is well formed and
      carries that name. */
  lemma DispositionSpec(fileName: string)
    requires HeaderSafe(fileName)
    ensures var v := Disposition(fileName);
      && WellFormedDisposition(v)
      && Unescape(v[|DispositionPrefix|..|v| - 1]) == fileName
  {
    var v := Disposition(fileName);
    assert v[|DispositionPrefix|..|v| - 1] == Escape(fileName);
    EscapeQuoted(fileName);
    UnescapeEscape(fileName);
  }

  /** What `axios.get(url)` gave: a failure, or the upstream Content-Type. */
  datatype Fetched = FetchFailed | Fetched(contentType: Option<string>)

  datatype DownloadReply =
    | DownloadError(status: nat, message: string)
    | Download(contentType: string, disposition: string)

  /** The unescaped header is well formed exactly when the name is already
      the inside of a quoted-string. */
  lemma AsWrittenWellFormed(fileName: string)
    ensures WellFormedDisposition(DispositionAsWritten(fileName)) <==> QuotedText(fileName)
  {
    var v := DispositionAsWritten(fileName);
    assert v[|DispositionPrefix|..|v| - 1] == fileName;
  }

  /** A name of qdtext alone (no `"` and no `\`) needs no escaping. */
  lemma {:induction false} PlainNameQuoted(fileName: string)
    requires forall i | 0 <= i < |fileName| :: QdText(fileName[i])
    ensures QuotedText(fileName)
  {
    if fileName != [] {
      PlainNameQuoted(fileName[1..]);
    }
  }

  /** `response.headers["content-type"] || "application/octet-stream"`. */
  function ContentType(fetched: Fetched): string
    requires fetched.Fetched?
  {
    if Truthy(fetched.contentType) then fetched.contentType.value else "application/octet-stream"
  }

  /** GET /download, as the route is written. Setting a header with a
      character Node refuses throws, which the route's catch turns into the
      500. The name goes into the header unescaped, so the header is well
      formed only for a name that is already a quoted-string's inside. */
  function DownloadFile(url: Option<string>, name: Option<string>, fetched: Fetched): (r: DownloadReply)
    ensures !Truthy(url) ==> r == DownloadError(400, "Missing url query param")
    ensures Truthy(url) && fetched.FetchFailed? ==> r == DownloadError(500, "Failed to proxy download")
    ensures Truthy(url) && fetched.Fetched? ==>
      var fileName := FileName(url.value, name);
      && (HeaderSafe(fileName) ==>
            && r == Download(ContentType(fetched), DispositionAsWritten(fileName))
            && (WellFormedDisposition(r.disposition) <==> QuotedText(fileName)))
      && (!HeaderSafe(fileName) ==> r == DownloadError(500, "Failed to proxy download"))
  {
    if !Truthy(url) then DownloadError(400, "Missing url query param")
    else if fetched.FetchFailed? then DownloadError(500, "Failed to proxy download")
    else
      var fileName := FileName(url.value, name);
      if HeaderSafe(fileName) then
        AsWrittenWellFormed(fileName);
        Download(ContentType(fetched), DispositionAsWritten(fileName))
      else DownloadError(500, "Failed to proxy download")
  }

  /** The route fails to quote the name `a"b` it was asked to send. */
  lemma DownloadFileBreaksQuoting(url: string, fetched: Fetched)
    requires url != "" && fetched.Fetched?
    ensures DownloadFile(Some(url), Some("a\"b"), fetched).Download?
    ensures !WellFormedDisposition(DownloadFile(Some(url), Some("a\"b"), fetched).disposition)
  {
    AsWrittenBreaksQuoting();
    assert HeaderSafe("a\"b");
  }

  /** GET /download with the name escaped: every header it sends is a
      well-formed disposition that reads back as the name. */
  function DownloadFileCorrected(url: Option<string>, name: Option<string>, fetched: Fetched): (r: DownloadReply)
    ensures !Truthy(url) ==> r == DownloadError(400, "Missing url query param")
    ensures Truthy(url) && fetched.FetchFailed? ==> r == DownloadError(500, "Failed to proxy download")
    ensures Truthy(url) && fetched.Fetched? ==>
      var fileName := FileName(url.value, name);
      && (HeaderSafe(fileName) ==>
            && r == Download(ContentType(fetched), Disposition(fileName))
            && WellFormedDisposition(r.disposition)
            && Unescape(r.disposition[|DispositionPrefix|..|r.disposition| - 1]) == fileName)
      && (!HeaderSafe(fileName) ==> r == DownloadError(500, "Failed to proxy download"))
  {
    if !Truthy(url) then DownloadError(400, "Missing url query param")
    else if fetched.FetchFailed? then DownloadError(500, "Failed to proxy download")
    else
      var fileName := FileName(url.value, name);
      if HeaderSafe(fileName) then
        DispositionSpec(fileName);
        Download(ContentType(fetched), Disposition(fileName))
      else DownloadError(500, "Failed to proxy download")
  }

  /** The two routes agree on every name that needs no escaping. */
  lemma {:induction false} EscapePlain(fileName: string)
    requires forall i | 0 <= i < |fileName| :: QdText(fileName[i])
    ensures Escape(fileName) == fileName
  {
    if fileName != [] {
      EscapePlain(fileName[1..]);
    }
  }
}
