# Excel-to-JSON plugin tool: source resolution

A Dafny model of the decision logic of the `excel2json` plugin tool. The tool
takes upload metadata from its host, resolves a readable source for the
workbook, reads every sheet through a spreadsheet library, and returns the
sheets as JSON records. A failure while resolving or reading is re-raised as a single
exception whose message names the operation.

The model covers the two parts of this that have decision structure:

- `Excel2Json.ResolveExcelSource` models `_resolve_excel_source`. It is a
  first-match rule over the metadata. The path fields `path`, `local_path` and
  `file_path` come first, in that order; a field is taken when it is set,
  non-empty and exists. Then comes a non-empty string `url`: a `file://` url
  whose remainder exists resolves to that remainder, and any other url is
  passed on unchanged. Then comes a non-empty `blob`, passed on as bytes.
  When none of these apply, the resolver fails with
  "No readable file source found in upload metadata.".
- `Excel2Json.Invoke` models the `try`/`except` of `_invoke`. A failure,
  whether from the resolver or from reading the workbook, becomes a failure
  whose message is "Error processing Excel file: " followed by the cause.

The environment is made explicit:

- The filesystem is a parameter `fs: set<string>`, the set of paths that exist.
  `os.path.exists` is `Exists(p, fs)`, which is false for the empty path, as
  in Python.
- `os.path.isabs` is the POSIX rule: the path starts with `/`.
- Reading the workbook and converting its sheets is a function parameter
  `convert` of `Invoke`. It receives what `pd.read_excel` receives: a plain
  string for a path or a url, or a buffer over the blob (`ReaderArgument`).
- Metadata fields are typed options. A missing field is `None`, and so is a
  `url` that is not a string, because the `isinstance` guard treats both alike.

The resolver's result is tagged `LocalPath`, `RemoteLocator` or
`InMemoryBytes`. In the Python code the first two are the same plain string.
On the url branch, an existing absolute url and any other url both return the
url unchanged (tools/excel2json.py:60-62). The model tags the first
`LocalPath` and the second `RemoteLocator`. `Locator` gives the string that
the reader receives in both cases, and `UrlPassedOnUnchanged` proves that this
string is the url.

Besides the direct properties, the resolver is tied to an independent
declarative definition, `Admissible`. That definition states case by case,
with quantifiers rather than the candidate loop, which outcome the priority
rules allow. `ResolveIsAdmissible` and `AdmissibleUnique` show that the
resolver's outcome is the only one allowed.

## Model

| member | source | states |
|---|---|---|
| `Excel2Json.FirstExisting` | tools/excel2json.py:45-52 | the result is the first candidate that is set, non-empty and existing, with no earlier candidate accepted; it is `None` exactly when no candidate is accepted |
| `Excel2Json.ResolveUrl` | tools/excel2json.py:55-62 | a non-empty url never yields bytes and any local path it yields exists; when the url starts with `file://` and the remainder exists, the result is exactly that remainder; otherwise the url itself is passed on, tagged local exactly when it is an existing absolute path |
| `Excel2Json.ResolveExcelSource` | tools/excel2json.py:36-68 | resolution fails exactly when no path field is accepted, the url is absent or empty, and the blob is absent or empty; the failure message is the fixed text; a local path always exists; bytes are exactly the non-empty blob |
| `Excel2Json.Exists` | tools/excel2json.py:51 | definition, no contract: `os.path.exists`, membership in the existing-path set, false for the empty path |
| `Excel2Json.IsAbs` | tools/excel2json.py:60 | definition, no contract: `os.path.isabs` under POSIX, a leading `/` |
| `Excel2Json.Truthy` | tools/excel2json.py:55 | definition, no contract: a string field that is set and non-empty |
| `Excel2Json.BlobTruthy` | tools/excel2json.py:65 | definition, no contract: a blob that is set and non-empty |
| `Excel2Json.Qualifies` | tools/excel2json.py:51 | definition, no contract: the test `path and os.path.exists(path)` |
| `Excel2Json.Candidates` | tools/excel2json.py:45-49 | definition, no contract: the three path fields in the order they are tried |
| `Excel2Json.HasFileScheme` | tools/excel2json.py:56 | definition, no contract: `url.startswith("file://")` |
| `Excel2Json.StripSucceeds` | tools/excel2json.py:56-58 | definition, no contract: the url starts with `file://` and `url[7:]` exists |
| `Excel2Json.Locator` | tools/excel2json.py:61-62 | definition, no contract: the one string returned for a local path or a url |
| `Excel2Json.ReaderArgument` | tools/excel2json.py:18 | definition, no contract: what `pd.read_excel` receives, the plain string or a buffer over the blob |
| `Excel2Json.PathFieldsInOrder` | tools/excel2json.py:45-52 | `path` wins when accepted, then `local_path`, then `file_path` |
| `Excel2Json.UrlAndBlobIgnoredWhenPathQualifies` | tools/excel2json.py:50-52 | once a path field is accepted, the result is a local path and does not depend on `url` or `blob` |
| `Excel2Json.CandidatePathProvenance` | tools/excel2json.py:50-52 | a path from the candidate loop is non-empty, is in the existing-path set and equals one of the three path fields |
| `Excel2Json.FileUrlIsStripped` | tools/excel2json.py:56-59 | with no accepted path field, a `file://` url whose remainder exists resolves to exactly that remainder, and prefixing `file://` gives the url back |
| `Excel2Json.UrlNeverFailsNorFallsToBlob` | tools/excel2json.py:55-62 | with no accepted path field and a non-empty url, resolution succeeds and never yields the blob |
| `Excel2Json.UrlPassedOnUnchanged` | tools/excel2json.py:60-62 | unless the `file://` strip succeeds, the reader receives the url unchanged; it is tagged local exactly when it is an existing absolute path |
| `Excel2Json.BlobOnlyAsLastResort` | tools/excel2json.py:64-66 | the blob is used if and only if no path field is accepted, the url is absent or empty, and the blob is non-empty; its bytes are passed on unchanged |
| `Excel2Json.FirstQualifyingUnique` | tools/excel2json.py:50-52 | at most one path can be the first accepted candidate |
| `Excel2Json.AdmissibleUnique` | tools/excel2json.py:45-68 | the priority rules allow at most one outcome for given metadata and filesystem |
| `Excel2Json.ResolveIsAdmissible` | tools/excel2json.py:45-68 | the resolver's outcome is one the priority rules allow |
| `Excel2Json.AdmissibleIsResolve` | tools/excel2json.py:45-68 | any outcome the priority rules allow is the resolver's outcome |
| `Excel2Json.WrapError` | tools/excel2json.py:33-34 | the invocation's error message is the fixed prefix followed by the cause's text |
| `Excel2Json.UnwrapError` | tools/excel2json.py:34 | not in the source: the inverse of the prefixing at line 34, used by `UnwrapWrap` and `WrapUnwrap` to state the round-trip; a recovered cause is as long as the message minus the prefix |
| `Excel2Json.UnwrapWrap` | tools/excel2json.py:34 | the cause can always be recovered from a wrapped message |
| `Excel2Json.WrapUnwrap` | tools/excel2json.py:34 | every message that carries the prefix is the wrapping of the recovered cause |
| `Excel2Json.Invoke` | tools/excel2json.py:15-34 | every failure inside the `try` carries the prefix; the reader receives the resolved string or the blob's bytes; a resolution failure yields the prefixed "No readable file source" message; success happens exactly when resolution and conversion both succeed, and then the converted document is returned; a conversion failure keeps the converter's text as the cause |
| `Excel2Json.PathBeatsUrlExample` | tools/excel2json.py:45-52 | a valid `path` wins over a valid `url` |
| `Excel2Json.FileUrlExample` | tools/excel2json.py:56-59 | `file:///tmp/x.xlsx` resolves to `/tmp/x.xlsx` when that exists |
| `Excel2Json.MissingAbsoluteUrlExample` | tools/excel2json.py:60-62 | a missing absolute-path url is passed on as it is, not rejected |
| `Excel2Json.NothingUsableExample` | tools/excel2json.py:64-68 | metadata with only an empty path and an empty blob fails with the fixed message; empty metadata fails the invocation with that message wrapped once |

## Left out

- Reading the workbook with `pd.read_excel(..., sheet_name=None, dtype=str)` and converting each sheet with `to_json(orient="records", force_ascii=False)` and `json.loads` (tools/excel2json.py:18-24). These are library calls whose behaviour is not visible here. They are the `convert` parameter of `Invoke`. Sheet order, string-typed cells, duplicate headers and Unicode handling are therefore not modelled.
- The host plugin runtime: the `Tool` base class, `ToolInvokeMessage`, `create_json_message` and the generator protocol (tools/excel2json.py:8-14, 27). `Invoke` returns the converted document instead of yielding a message.
- The real filesystem. `os.path.exists` is membership in the `fs` parameter. Races between the check and the later read are not modelled, nor is `os.path.exists` returning false for paths it cannot stat, such as paths with a NUL byte.
- `os.path.isabs` on platforms other than POSIX.
- `BytesIO` construction (tools/excel2json.py:66). The blob's bytes are passed through as a byte sequence.
- The commented-out text-message output (tools/excel2json.py:28-31). It is dead code.
- `getattr` on arbitrary objects. Path fields holding truthy non-string values and blobs of types other than bytes are not modelled, because the fields are typed options.
- Exception types and chaining. The exception raised at tools/excel2json.py:34 is raised inside the `except` block, so the original exception stays reachable as `__context__`; the model keeps only the message text.
- The lookup `tool_parameters["file"]` (tools/excel2json.py:14) happens before the `try`, so a missing `file` parameter raises a `KeyError` without the prefix. `Invoke` starts after this lookup and takes the metadata as given.
