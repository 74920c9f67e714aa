/** The Excel-to-JSON plugin tool: how it picks a readable source for an
    uploaded workbook out of the upload metadata, and how it reports a
    failure of the whole invocation.

    The filesystem is a parameter: `fs` is the set of paths that exist at the
    moment of resolution. Reading the workbook and turning its sheets into
    JSON records is done by a spreadsheet library and is a parameter of
    `Invoke` as well. */
module Excel2Json {
  import opened Wrappers

  type Bytes = seq<bv8>

  /** Upload metadata as handed over by the host. A field the host did not set
      is `None`; a `url` that is not a string is `None` too, since the
      resolver ignores it exactly as it ignores a missing one. */
  datatype Meta = Meta(
    path: Option<string>,
    localPath: Option<string>,
    filePath: Option<string>,
    url: Option<string>,
    blob: Option<Bytes>)

  /** What the resolver hands to the workbook reader. The first two are the
      same plain string at run time; the tag records why it was chosen. */
  datatype Source =
    | LocalPath(path: string)       // a path that existed when it was resolved
    | RemoteLocator(url: string)    // a url passed on unverified
    | InMemoryBytes(bytes: Bytes)   // the uploaded content itself

  const FileScheme: string := "file://"
  const NoSourceMessage: string := "No readable file source found in upload metadata."
  const ErrorPrefix: string := "Error processing Excel file: "

  /** `os.path.exists`: the empty path never exists. */
  predicate Exists(p: string, fs: set<string>) {
    p != "" && p in fs
  }

  /** `os.path.isabs` under POSIX rules. */
  predicate IsAbs(p: string) {
    |p| > 0 && p[0] == '/'
  }

  /** Python truthiness of an optional string. */
  predicate Truthy(s: Option<string>) {
    s.Some? && s.value != ""
  }

  /** Python truthiness of an optional byte string. */
  predicate BlobTruthy(b: Option<Bytes>) {
    b.Some? && b.value != []
  }

  /** A path field is accepted when it is set, non-empty and exists. */
  predicate Qualifies(c: Option<string>, fs: set<string>) {
    Truthy(c) && Exists(c.value, fs)
  }

  predicate HasFileScheme(u: string) {
    |FileScheme| <= |u| && u[..|FileScheme|] == FileScheme
  }

  /** The path fields, in the order the resolver tries them. */
  function Candidates(meta: Meta): seq<Option<string>> {
    [meta.path, meta.localPath, meta.filePath]
  }

  /** Candidate `i` is accepted and no earlier candidate is. */
  ghost predicate FirstQualifyingAt(cands: seq<Option<string>>, fs: set<string>, i: int) {
    0 <= i < |cands| && Qualifies(cands[i], fs) &&
    forall j :: 0 <= j < i ==> !Qualifies(cands[j], fs)
  }

  ghost predicate IsFirstQualifying(cands: seq<Option<string>>, fs: set<string>, p: string) {
    exists i :: FirstQualifyingAt(cands, fs, i) && cands[i] == Some(p)
  }

  ghost predicate NoneQualifies(cands: seq<Option<string>>, fs: set<string>) {
    forall i :: 0 <= i < |cands| ==> !Qualifies(cands[i], fs)
  }

  /** The candidate loop: the first path field that is set, non-empty and
      exists, or `None` when there is none. */
  function FirstExisting(cands: seq<Option<string>>, fs: set<string>): (r: Option<string>)
    ensures r.Some? ==> Exists(r.value, fs) && IsFirstQualifying(cands, fs, r.value)
    ensures r.None? <==> NoneQualifies(cands, fs)
    decreases |cands|
  {
    if cands == [] then None
    else if Qualifies(cands[0], fs) then
      cands[0]
    else
      FirstExisting(cands[1..], fs)
  }

  /** The url starts with `file://` and what follows the scheme exists. */
  predicate StripSucceeds(u: string, fs: set<string>) {
    HasFileScheme(u) && Exists(u[|FileScheme|..], fs)
  }

  /** The url branch, taken once no path field was accepted and the url is a
      non-empty string. */
  function ResolveUrl(u: string, fs: set<string>): (s: Source)
    requires u != ""
    ensures !s.InMemoryBytes?
    ensures s.LocalPath? ==> Exists(s.path, fs)
    ensures StripSucceeds(u, fs) ==> s == LocalPath(u[|FileScheme|..])
    ensures !StripSucceeds(u, fs) ==> Locator(s) == u && (s.LocalPath? <==> IsAbs(u) && Exists(u, fs))
  {
    if StripSucceeds(u, fs) then LocalPath(u[|FileScheme|..])
    else if IsAbs(u) && Exists(u, fs) then LocalPath(u)
    else RemoteLocator(u)
  }

  /** `_resolve_excel_source`: path fields first, then the url, then the
      blob; otherwise the resolver fails. */
  function ResolveExcelSource(meta: Meta, fs: set<string>): (r: Result<Source, string>)
    ensures r.Failure? <==>
      NoneQualifies(Candidates(meta), fs) && !Truthy(meta.url) && !BlobTruthy(meta.blob)
    ensures r.Failure? ==> r.error == NoSourceMessage
    ensures r.Success? && r.value.LocalPath? ==> Exists(r.value.path, fs)
    ensures r.Success? && r.value.InMemoryBytes? ==>
      meta.blob == Some(r.value.bytes) && r.value.bytes != []
  {
    match FirstExisting(Candidates(meta), fs)
    case Some(p) => Success(LocalPath(p))
    case None =>
      if Truthy(meta.url) then Success(ResolveUrl(meta.url.value, fs))
      else if BlobTruthy(meta.blob) then Success(InMemoryBytes(meta.blob.value))
      else Failure(NoSourceMessage)
  }

  /** The string the workbook reader receives for a path or a url. */
  function Locator(s: Source): string
    requires !s.InMemoryBytes?
  {
    match s
    case LocalPath(p) => p
    case RemoteLocator(u) => u
  }

  /** What the workbook reader is actually given: a plain string, whichever
      way it was chosen, or a buffer over the blob's bytes. */
  datatype ReaderInput = PathOrUrl(text: string) | Buffer(data: Bytes)

  function ReaderArgument(s: Source): ReaderInput {
    match s
    case InMemoryBytes(b) => Buffer(b)
    case _ => PathOrUrl(Locator(s))
  }

  // ---------------------------------------------------------------------
  // Properties of the resolver

  /** The path fields are tried in the order path, local_path, file_path. */
  lemma PathFieldsInOrder(meta: Meta, fs: set<string>)
    ensures Qualifies(meta.path, fs) ==>
      ResolveExcelSource(meta, fs) == Success(LocalPath(meta.path.value))
    ensures !Qualifies(meta.path, fs) && Qualifies(meta.localPath, fs) ==>
      ResolveExcelSource(meta, fs) == Success(LocalPath(meta.localPath.value))
    ensures !Qualifies(meta.path, fs) && !Qualifies(meta.localPath, fs) && Qualifies(meta.filePath, fs) ==>
      ResolveExcelSource(meta, fs) == Success(LocalPath(meta.filePath.value))
  {
    var cs := Candidates(meta);
    if !Qualifies(meta.path, fs) {
      assert FirstExisting(cs, fs) == FirstExisting(cs[1..], fs);
      if !Qualifies(meta.localPath, fs) {
        assert FirstExisting(cs[1..], fs) == FirstExisting(cs[1..][1..], fs);
      }
    }
  }

  /** Once a path field is accepted, neither the url nor the blob is looked at. */
  lemma UrlAndBlobIgnoredWhenPathQualifies(meta: Meta, fs: set<string>, url: Option<string>, blob: Option<Bytes>)
    requires !NoneQualifies(Candidates(meta), fs)
    ensures ResolveExcelSource(meta.(url := url, blob := blob), fs) == ResolveExcelSource(meta, fs)
    ensures ResolveExcelSource(meta, fs).Success? && ResolveExcelSource(meta, fs).value.LocalPath?
  {
  }

  /** A path taken from the candidate loop is one of the three path fields and exists. */
  lemma CandidatePathProvenance(meta: Meta, fs: set<string>, p: string)
    requires FirstExisting(Candidates(meta), fs) == Some(p)
    ensures p in fs && p != ""
    ensures meta.path == Some(p) || meta.localPath == Some(p) || meta.filePath == Some(p)
  {
  }

  /** A `file://` url whose remainder exists resolves to that remainder. */
  lemma FileUrlIsStripped(meta: Meta, fs: set<string>)
    requires NoneQualifies(Candidates(meta), fs)
    requires meta.url.Some? && HasFileScheme(meta.url.value)
    requires Exists(meta.url.value[|FileScheme|..], fs)
    ensures ResolveExcelSource(meta, fs) == Success(LocalPath(meta.url.value[|FileScheme|..]))
    ensures FileScheme + ResolveExcelSource(meta, fs).value.path == meta.url.value
  {
  }

  /** With no accepted path field, a non-empty url always yields a locator:
      never a failure and never the blob. */
  lemma UrlNeverFailsNorFallsToBlob(meta: Meta, fs: set<string>)
    requires NoneQualifies(Candidates(meta), fs) && Truthy(meta.url)
    ensures ResolveExcelSource(meta, fs).Success?
    ensures !ResolveExcelSource(meta, fs).value.InMemoryBytes?
  {
  }

  /** Unless the `file://` strip succeeds, the url is passed on unchanged,
      tagged as a local path exactly when it is an existing absolute path. */
  lemma UrlPassedOnUnchanged(meta: Meta, fs: set<string>)
    requires NoneQualifies(Candidates(meta), fs) && Truthy(meta.url)
    requires !(HasFileScheme(meta.url.value) && Exists(meta.url.value[|FileScheme|..], fs))
    ensures ResolveExcelSource(meta, fs).Success?
    ensures !ResolveExcelSource(meta, fs).value.InMemoryBytes?
    ensures Locator(ResolveExcelSource(meta, fs).value) == meta.url.value
    ensures ResolveExcelSource(meta, fs).value.LocalPath? <==>
      IsAbs(meta.url.value) && Exists(meta.url.value, fs)
  {
  }

  /** The blob is the last resort, and its bytes are passed on as they are. */
  lemma BlobOnlyAsLastResort(meta: Meta, fs: set<string>)
    ensures ResolveExcelSource(meta, fs).Success? && ResolveExcelSource(meta, fs).value.InMemoryBytes? <==>
      NoneQualifies(Candidates(meta), fs) && !Truthy(meta.url) && BlobTruthy(meta.blob)
    ensures ResolveExcelSource(meta, fs).Success? && ResolveExcelSource(meta, fs).value.InMemoryBytes? ==>
      ResolveExcelSource(meta, fs).value.bytes == meta.blob.value
  {
  }

  // ---------------------------------------------------------------------
  // A declarative reference definition of the resolver

  /** `r` is an outcome the priority rules allow for `meta`, stated case by
      case without the candidate loop. */
  ghost predicate Admissible(meta: Meta, fs: set<string>, r: Result<Source, string>) {
    var cands := Candidates(meta);
    match r
    case Success(LocalPath(p)) =>
      IsFirstQualifying(cands, fs, p) ||
      (NoneQualifies(cands, fs) && Truthy(meta.url) &&
        ((StripSucceeds(meta.url.value, fs) && p == meta.url.value[|FileScheme|..]) ||
         (!StripSucceeds(meta.url.value, fs) && p == meta.url.value && IsAbs(p) && Exists(p, fs))))
    case Success(RemoteLocator(u)) =>
      NoneQualifies(cands, fs) && meta.url == Some(u) && u != "" &&
      !StripSucceeds(u, fs) && !(IsAbs(u) && Exists(u, fs))
    case Success(InMemoryBytes(b)) =>
      NoneQualifies(cands, fs) && !Truthy(meta.url) && meta.blob == Some(b) && b != []
    case Failure(e) =>
      NoneQualifies(cands, fs) && !Truthy(meta.url) && !BlobTruthy(meta.blob) && e == NoSourceMessage
  }

  /** At most one path can be the first accepted candidate. */
  lemma FirstQualifyingUnique(cands: seq<Option<string>>, fs: set<string>, p: string, q: string)
    requires IsFirstQualifying(cands, fs, p) && IsFirstQualifying(cands, fs, q)
    ensures p == q
  {
  }

  /** The priority rules allow exactly one outcome. */
  lemma AdmissibleUnique(meta: Meta, fs: set<string>, r1: Result<Source, string>, r2: Result<Source, string>)
    requires Admissible(meta, fs, r1) && Admissible(meta, fs, r2)
    ensures r1 == r2
  {
  }

  /** The resolver produces the outcome the priority rules allow. */
  lemma ResolveIsAdmissible(meta: Meta, fs: set<string>)
    ensures Admissible(meta, fs, ResolveExcelSource(meta, fs))
  {
  }

  /** Hence any outcome the rules allow is the one the resolver produces. */
  lemma AdmissibleIsResolve(meta: Meta, fs: set<string>, r: Result<Source, string>)
    requires Admissible(meta, fs, r)
    ensures r == ResolveExcelSource(meta, fs)
  {
  }

  // ---------------------------------------------------------------------
  // Failure reporting of the invocation

  /** The message of the exception raised for any failure inside `_invoke`. */
  function WrapError(cause: string): (m: string)
    ensures |m| == |ErrorPrefix| + |cause|
    ensures m[..|ErrorPrefix|] == ErrorPrefix && m[|ErrorPrefix|..] == cause
  {
    ErrorPrefix + cause
  }

  /** Recovers the cause from a wrapped message. */
  function UnwrapError(m: string): (c: Option<string>)
    ensures c.Some? ==> |c.value| + |ErrorPrefix| == |m|
  {
    if |ErrorPrefix| <= |m| && m[..|ErrorPrefix|] == ErrorPrefix then Some(m[|ErrorPrefix|..]) else None
  }

  /** Wrapping keeps the cause recoverable ... */
  lemma UnwrapWrap(cause: string)
    ensures UnwrapError(WrapError(cause)) == Some(cause)
  {
  }

  /** ... and every message that carries the prefix is a wrapped cause. */
  lemma WrapUnwrap(m: string, cause: string)
    requires UnwrapError(m) == Some(cause)
    ensures WrapError(cause) == m
  {
  }

  /** `_invoke` with the workbook reader and JSON conversion given as
      `convert`: resolve, convert, and turn any failure of either step into
      one wrapped message. */
  function Invoke<D>(meta: Meta, fs: set<string>, convert: ReaderInput -> Result<D, string>): (r: Result<D, string>)
    ensures r.Failure? ==> UnwrapError(r.error).Some?
    ensures ResolveExcelSource(meta, fs).Failure? ==>
      r == Failure(ErrorPrefix + NoSourceMessage)
    ensures r.Success? <==>
      ResolveExcelSource(meta, fs).Success? &&
      convert(ReaderArgument(ResolveExcelSource(meta, fs).value)).Success?
    ensures r.Success? ==> r == convert(ReaderArgument(ResolveExcelSource(meta, fs).value))
    ensures ResolveExcelSource(meta, fs).Success? &&
            convert(ReaderArgument(ResolveExcelSource(meta, fs).value)).Failure? ==>
      UnwrapError(r.error) == Some(convert(ReaderArgument(ResolveExcelSource(meta, fs).value)).error)
  {
    match ResolveExcelSource(meta, fs)
    case Failure(e) =>
      UnwrapWrap(e);
      Failure(WrapError(e))
    case Success(src) =>
      match convert(ReaderArgument(src))
      case Success(doc) => Success(doc)
      case Failure(e) =>
        UnwrapWrap(e);
        Failure(WrapError(e))
  }

  // ---------------------------------------------------------------------
  // Worked cases

  const NoMeta: Meta := Meta(None, None, None, None, None)

  /** A valid path wins over a valid url. */
  lemma PathBeatsUrlExample()
    ensures ResolveExcelSource(NoMeta.(path := Some("/up/a.xlsx"), url := Some("/up/b.xlsx")),
                               {"/up/a.xlsx", "/up/b.xlsx"})
      == Success(LocalPath("/up/a.xlsx"))
  {
  }

  /** `file:///tmp/x.xlsx` resolves to `/tmp/x.xlsx` when that exists. */
  lemma FileUrlExample()
    ensures ResolveExcelSource(NoMeta.(url := Some("file:///tmp/x.xlsx")), {"/tmp/x.xlsx"})
      == Success(LocalPath("/tmp/x.xlsx"))
  {
  }

  /** A missing absolute path is passed on, not rejected. */
  lemma MissingAbsoluteUrlExample()
    ensures ResolveExcelSource(NoMeta.(url := Some("/tmp/missing.xlsx")), {})
      == Success(RemoteLocator("/tmp/missing.xlsx"))
  {
  }

  /** Empty metadata fails with the fixed message, wrapped once by `_invoke`. */
  lemma NothingUsableExample<D>(convert: ReaderInput -> Result<D, string>)
    ensures ResolveExcelSource(NoMeta.(path := Some(""), blob := Some([])), {""}) == Failure(NoSourceMessage)
    ensures Invoke(NoMeta, {}, convert) == Failure(WrapError(NoSourceMessage))
    ensures UnwrapError(Invoke(NoMeta, {}, convert).error) == Some(NoSourceMessage)
  {
  }
}
