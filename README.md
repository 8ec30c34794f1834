# Mechanic 2 core, modelled in Dafny

Mechanic 2 is the RoboFont extension manager. This project models the parts of it that are
sequential logic rather than user interface, and proves what they promise:

- **URL reading** (`urlreader.py`): the rewrite `URLReader.fetch` applies to a URL before
  downloading it. The path is percent-encoded the way `urllib.parse.quote` does it, and then
  `http` is upgraded to `https`. The `_NSURLSessionBackgroundReader` is modelled as a class over
  its own fields. It takes one download at a time, collects the received chunks, and delivers one
  `(url, data, error)` callback on completion, where the URL is the task's current request
  (the redirect target after a redirect). A fetch given no callback never completes. The network is replaced by the events it sends,
  and the main-thread dispatch by a queue of deliveries (module `UrlReader`, with `Urls` for
  `urlparse` and `quote`).
- **Extension items** (`mechanic2/extensionItem.py`):
  - the key/type validation and its report (module `Validation`), both as it is written and
    corrected, see Findings;
  - `ExtensionRepository`: the default `extensionName`, service detection, the zip and
    info.plist URLs with their caches and space escaping;
  - `ExtensionStoreItem`: its bundle name and zip URL;
  - `ExtensionYamlItem`: its `tags` conversion;
  - the search string, the update and skip-install decisions, and the optional-key accessors
    (module `ExtensionItem`).
- **The `remember` memo** (`mechanic2/mechacnicTools.py` and its independent copy
  `mechanic2/mechanicTools.py`): a memo table per decorated function, selective reset, and the
  module-global registry that `clearRemembered` walks (module `Remember`). The space escaping of
  `getDataFromURL` is in module `MechacnicTools`.
- **The settings sheet** (`mechanic2/ui/settings.py`):
  - multi-delete and drag-and-drop reordering of a list, as in-place loops proved against
    sequence functions (modules `ListEdit` and `Settings`);
  - the URL row wrap/unwrap pair;
  - the order of checks in `validateURL`;
  - registering, loading and saving the defaults.

Python values are modelled by the datatype `Validation.Value`: strings, lists, tuples,
dictionaries (by their keys), ints, bools, `None`, and other objects by class name. An exception
is the `Err` case of `Common.Result`, and `Common.PyError` names its class. Collaborators outside
the core are parameters:
- the download (`urlopen(...).read()`);
- `json.loads`;
- the wrapped function of a memo;
- the version order (`LooseVersion`);
- the bundle's store key.

URL canonicalisation is not idempotent: `quote` encodes `%` itself, so a path that was encoded
once is encoded again on each pass. `Urls.CanonicalizeNotIdempotent` exhibits this on the
parsed components.

## Model

| member | source | states |
|---|---|---|
| Urls.Quote | Mechanic2.roboFontExt/lib/urlreader.py:40-42 | `quote` output consists only of safe characters, `%` and hex digits, and is never shorter than its input |
| Urls.QuoteRoundTrip | Mechanic2.roboFontExt/lib/urlreader.py:40-42 | decoding the quoted path gives back the UTF-8 bytes of the original: quoting loses nothing |
| Urls.PercentBytesDecode | Mechanic2.roboFontExt/lib/urlreader.py:40-42 | every `%XY` triple `quote` writes for a byte decodes back to that byte |
| Urls.QuoteSafeIsIdentity | Mechanic2.roboFontExt/lib/urlreader.py:40-42 | a path made only of unreserved characters and `/` is left unchanged |
| Urls.QuoteExamples | Mechanic2.roboFontExt/lib/urlreader.py:40-42 | `/` is kept, a space becomes `%20`, `%` becomes `%25`, and quoting twice differs from quoting once |
| Urls.QuoteUrlPath | Mechanic2.roboFontExt/lib/urlreader.py:40-42 | only the path component changes, and it becomes its quoted form |
| Urls.SplitScheme | Mechanic2.roboFontExt/lib/urlreader.py:40-48 | a scheme is split off only when it starts with an ASCII letter and is made of scheme characters; it is lower-cased; otherwise the URL is left whole |
| Urls.Parse | Mechanic2.roboFontExt/lib/urlreader.py:40-48 | `urlparse` fails only with ValueError `Invalid IPv6 URL`; the scheme is the one `SplitScheme` finds on the cleaned URL; the netloc stops before the first `/`, `?` or `#`, the query before `#`, the path and params before `?` |
| Urls.Unparse | Mechanic2.roboFontExt/lib/urlreader.py:40-48 | `urlunparse` writes `scheme:` first when there is a scheme, and ends with `#fragment`, or else with `?query`, when those are present |
| Urls.RtspsKeepsParams | Mechanic2.roboFontExt/lib/urlreader.py:40-48 | for the scheme `rtsps`, `;params` after the last path segment are split off into their own component |
| Urls.SplitSchemeOf | Mechanic2.roboFontExt/lib/urlreader.py:40-48 | a lower-case scheme written before `:` is split off as it is, whatever follows |
| Urls.UnparseExamples | Mechanic2.roboFontExt/lib/urlreader.py:40-48 | params are written back after `;`, and `itms-services` gets an empty `//` authority |
| Urls.UpgradedParsesAsHttps | Mechanic2.roboFontExt/lib/urlreader.py:44-48 | a URL upgraded from `http` and written back is parsed with scheme `https` |
| Urls.StripLeading | Mechanic2.roboFontExt/lib/urlreader.py:40-48 | `urlsplit` first drops the leading run of control characters and spaces, and nothing else |
| Urls.RemoveUnsafe | Mechanic2.roboFontExt/lib/urlreader.py:40-48 | `urlsplit` then deletes every tab, CR and LF |
| Urls.RemoveUnsafeAppend | Mechanic2.roboFontExt/lib/urlreader.py:40-48 | the deletion works character by character: it distributes over concatenation |
| Urls.RemoveUnsafeKeeps | Mechanic2.roboFontExt/lib/urlreader.py:40-48 | a URL without tab, CR or LF is kept as it is |
| Urls.ParseScheme | Mechanic2.roboFontExt/lib/urlreader.py:40-48 | a parsed scheme starts with a lower-case letter and holds only scheme characters |
| Urls.ParseIgnoresLeadingSpace | Mechanic2.roboFontExt/lib/urlreader.py:40-48 | a leading space never changes what `urlparse` finds |
| Urls.SchemeStartsWithLetter | Mechanic2.roboFontExt/lib/urlreader.py:40-48 | `1x://h/p` has no scheme, `x1://h/p` has scheme `x1` |
| Urls.CleanDropsWhitespace | Mechanic2.roboFontExt/lib/urlreader.py:40-48 | a leading space and an embedded line feed are removed before splitting |
| Urls.HttpsUrlScheme | Mechanic2.roboFontExt/lib/urlreader.py:44-48 | scheme `http` becomes `https` with every other component kept; any other URL is returned unchanged; the result never has scheme `http` |
| Urls.HttpsUrlSchemeIdempotent | Mechanic2.roboFontExt/lib/urlreader.py:44-48 | upgrading twice is upgrading once |
| Urls.Canonicalize | Mechanic2.roboFontExt/lib/urlreader.py:50-58 | the path is quoted exactly when `quote_url_path` is set, the scheme upgraded exactly when `force_https` is set, and netloc, params, query and fragment are kept |
| Urls.RewritesCommute | Mechanic2.roboFontExt/lib/urlreader.py:50-58 | the two rewrites touch different components, so their order does not matter |
| Urls.CanonicalizeNotIdempotent | Mechanic2.roboFontExt/lib/urlreader.py:50-58 | on the URL `http://example.com/%`, canonicalising twice differs from canonicalising once |
| UrlReader.ConcatAppend | Mechanic2.roboFontExt/lib/urlreader.py:97-98 | appending a chunk to the buffer extends the in-order concatenation of the chunks by that chunk |
| UrlReader.BackgroundReader.constructor | Mechanic2.roboFontExt/lib/urlreader.py:63-72 | a fresh reader is idle, with no session, task or callback, an empty buffer, and the default seven-day timeout |
| UrlReader.BackgroundReader.SetTimeout | Mechanic2.roboFontExt/lib/urlreader.py:74-75 | the configured timeout becomes the given one |
| UrlReader.BackgroundReader.MakeSessionWithTimeout | Mechanic2.roboFontExt/lib/urlreader.py:77-81 | the timeout is always updated; a session with that timeout is created only when none exists |
| UrlReader.BackgroundReader.FetchURL | Mechanic2.roboFontExt/lib/urlreader.py:83-95 | an idle reader stores the task and the callback as given (possibly none), empties the buffer and becomes busy; a busy reader raises RuntimeError `Cannot fetch <url>, busy downloading: <current request URL>` and changes nothing; without a session it raises AttributeError; the buffer stays the concatenation of the received chunks |
| UrlReader.BackgroundReader.ReceiveData | Mechanic2.roboFontExt/lib/urlreader.py:97-98 | the chunk is appended to the buffer, which stays the concatenation of all chunks since the fetch |
| UrlReader.BackgroundReader.Redirect | Mechanic2.roboFontExt/lib/urlreader.py:107 | following a redirect makes the running task's current request URL the new location; an idle reader without a task is unchanged |
| UrlReader.BackgroundReader.CompleteWithError | Mechanic2.roboFontExt/lib/urlreader.py:100-121 | with a callback stored, exactly one `(current request URL, buffer, error)` delivery is queued, the error passed through as given, and the reader is idle again; without one nothing is queued and `done` is not set |
| UrlReader.BackgroundReader.Done | Mechanic2.roboFontExt/lib/urlreader.py:123-124 | reports the `done` flag |
| UrlReader.URLReader.constructor | Mechanic2.roboFontExt/lib/urlreader.py:30-34 | a new idle reader whose session has the given timeout, with the two flags recorded |
| UrlReader.URLReader.Fetch | Mechanic2.roboFontExt/lib/urlreader.py:50-58 | the background reader receives `Target(url, ...)` with the callback as given and an empty buffer, or refuses it with the busy RuntimeError naming that string; when a rewrite step's `urlparse` raises, Fetch raises that ValueError and changes nothing; with both flags off the URL is never parsed |
| UrlReader.QuoteUrlPathText | Mechanic2.roboFontExt/lib/urlreader.py:40-42 | fails exactly when `urlparse` rejects the URL, with its error; the quoted URL keeps the scheme in front and the fragment at the end |
| UrlReader.HttpsUrlSchemeText | Mechanic2.roboFontExt/lib/urlreader.py:44-48 | fails exactly when `urlparse` rejects the URL, with its error; a URL whose scheme is not `http` comes back as the same string; the result is never parsed as `http` again |
| UrlReader.Target | Mechanic2.roboFontExt/lib/urlreader.py:50-54 | with both flags off the URL passes unchanged and unparsed; it fails only when a flag is set, and then with the `Invalid IPv6 URL` ValueError; a URL `urlparse` rejects fails whichever flag is set; with `force_https` the result is never read back as `http` |
| UrlReader.SingleFlightScenario | Mechanic2.roboFontExt/lib/urlreader.py:83-124 | while one fetch runs a second is refused with the RuntimeError naming both URLs; the completion delivers once, to the first callback, with the first URL and every chunk in order, and leaves the reader idle |
| UrlReader.FetchWithoutCallback | Mechanic2.roboFontExt/lib/urlreader.py:100-121 | after a fetch with no callback completes, nothing has been delivered, the reader is still busy, and the next fetch raises the RuntimeError naming the stuck URL |
| UrlReader.RedirectedDelivery | Mechanic2.roboFontExt/lib/urlreader.py:107 | after a redirect the delivery carries the redirect target, not the requested URL |
| Remember.ResetTable | Mechanic2.roboFontExt/lib/mechanic2/mechanicTools.py:39-50 | a reset with no arguments empties the memo; otherwise exactly the keys that contain every argument are gone, and the other entries keep their values |
| Remember.ResetTableIdempotent | Mechanic2.roboFontExt/lib/mechanic2/mechacnicTools.py:52-63 | resetting twice with the same arguments is resetting once |
| Remember.KeyContainsAll | Mechanic2.roboFontExt/lib/mechanic2/mechanicTools.py:43-50 | the inner loop of `_reset` reports true exactly when the key holds every argument |
| Remember.Memo.Call | Mechanic2.roboFontExt/lib/mechanic2/mechacnicTools.py:44-50 | a hit returns the stored value without calling the function; a miss calls it once, stores a successful result (`None` included), and stores nothing when it raises |
| Remember.Memo.Reset | Mechanic2.roboFontExt/lib/mechanic2/mechacnicTools.py:52-63 | the key-deleting loop leaves exactly `ResetTable` of the old memo |
| Remember.Registry.Remember | Mechanic2.roboFontExt/lib/mechanic2/mechanicTools.py:51-53 | each decoration makes a new empty memo and appends it to `remembered` |
| Remember.Registry.ClearRemembered | Mechanic2.roboFontExt/lib/mechanic2/mechacnicTools.py:31-35 | every registered memo is reset with the same arguments |
| Remember.ClearOneOfTwoRegistries | Mechanic2.roboFontExt/lib/mechanic2/mechanicTools.py:18-22 | clearing one module's registry resets its memos and leaves the memos of the other module's registry untouched |
| MechacnicTools.EscapeSpaces | Mechanic2.roboFontExt/lib/mechanic2/mechacnicTools.py:11 | the escaped URL contains no space |
| MechacnicTools.EscapeSpacesAppend | Mechanic2.roboFontExt/lib/mechanic2/mechacnicTools.py:11 | escaping works character by character: it distributes over concatenation |
| MechacnicTools.EscapeSpacesWithoutSpaces | Mechanic2.roboFontExt/lib/mechanic2/mechacnicTools.py:11 | a URL without spaces is not changed |
| MechacnicTools.EscapeSpacesIdempotent | Mechanic2.roboFontExt/lib/mechanic2/mechacnicTools.py:11 | escaping twice is escaping once |
| MechacnicTools.EscapeSpacesAgreesWithQuote | Mechanic2.roboFontExt/lib/mechanic2/mechacnicTools.py:11 | on text of safe characters and spaces, escaping spaces is exactly `quote` |
| MechacnicTools.SpaceAndEscapeFetchTheSame | Mechanic2.roboFontExt/lib/mechanic2/mechacnicTools.py:10-18 | a URL with a space and the same URL with `%20` in its place download, and format, the same thing |
| Validation.KeyMessage | Mechanic2.roboFontExt/lib/mechanic2/extensionItem.py:199-208 | a key adds a message exactly when it is required and missing, or present with a wrong type; the message is `'k' key is required` or `'k' key must be a 'X', a 'Y' is given.` |
| Validation.MessagesComplete | Mechanic2.roboFontExt/lib/mechanic2/extensionItem.py:199-208 | a message is in the report of a pass exactly when some key of that pass produces it |
| Validation.MessagesEmpty | Mechanic2.roboFontExt/lib/mechanic2/extensionItem.py:199-208 | a pass reports nothing exactly when no key is missing-and-required or wrongly typed |
| Validation.ValidateValidIff | Mechanic2.roboFontExt/lib/mechanic2/extensionItem.py:194-216 | data is valid exactly when every required key is present and every present key has an expected type |
| Validation.ValidateReport | Mechanic2.roboFontExt/lib/mechanic2/extensionItem.py:194-216 | an invalid result reads `Incoming data not valid: <messages joined by ', '>.`, required keys' messages first, and each message comes from a required or an optional key |
| Validation.ValidateKeys | Mechanic2.roboFontExt/lib/mechanic2/extensionItem.py:199-208 | the loop appends to the report exactly the messages of the pass, in key order |
| Validation.ValidateData | Mechanic2.roboFontExt/lib/mechanic2/extensionItem.py:194-216 | the two passes, required then optional, give exactly `Validate` |
| Validation.ValidateKeysAsWritten | Mechanic2.roboFontExt/lib/mechanic2/extensionItem.py:199-208 | the loop as written gives the report prefix followed by the as-written pass, raising where it raises |
| Validation.ValidateDataAsWritten | Mechanic2.roboFontExt/lib/mechanic2/extensionItem.py:194-216 | the validation as written gives exactly `AsWrittenValidate`, the outcome or the UnboundLocalError |
| Validation.AsWrittenRaises | Mechanic2.roboFontExt/lib/mechanic2/extensionItem.py:204-208 | the first wrongly typed key of a pass that expects a single class raises UnboundLocalError for `clssName` |
| Validation.AsWrittenAgrees | Mechanic2.roboFontExt/lib/mechanic2/extensionItem.py:199-208 | when every wrongly typed key expects a tuple of classes, the pass as written reports exactly what the corrected pass reports |
| Validation.AsWrittenAgreesOnValid | Mechanic2.roboFontExt/lib/mechanic2/extensionItem.py:194-216 | on data the corrected validation accepts, the code as written also accepts it |
| Validation.FirstWrongType | Mechanic2.roboFontExt/lib/mechanic2/extensionItem.py:200-204 | a wrongly typed key has a first wrongly typed key at or before it |
| Validation.SingleClassTablesRaise | Mechanic2.roboFontExt/lib/mechanic2/extensionItem.py:204-208 | with single-class tables, the code as written raises exactly when some present key has a wrong type, and otherwise agrees with the corrected validation |
| Validation.AsWrittenSameCount | Mechanic2.roboFontExt/lib/mechanic2/extensionItem.py:199-208 | a pass as written raises only UnboundLocalError for `clssName`, and otherwise reports as many messages as the corrected pass |
| Validation.AsWrittenValidOutcome | Mechanic2.roboFontExt/lib/mechanic2/extensionItem.py:194-216 | whenever the validation as written returns, it accepts exactly the data the corrected validation accepts |
| ExtensionItem.RepositoryWrongTypeRaises | Mechanic2.roboFontExt/lib/mechanic2/extensionItem.py:204-208 | for `{"repository": 5, "extensionPath": "x"}` the validation as written raises UnboundLocalError, while the corrected validation reports the data invalid |
| ExtensionItem.StoreAsWrittenRaisesOnWrongType | Mechanic2.roboFontExt/lib/mechanic2/extensionItem.py:383-396 | as written, store data with any wrongly typed value raises instead of being reported; otherwise the outcome is the corrected one |
| ExtensionItem.RepositoryAccessors | Mechanic2.roboFontExt/lib/mechanic2/extensionItem.py:38-76 | on validated repository data `developer` and `developerURL` read as strings (empty when missing), `tags` as a list or tuple (empty list when missing), `extensionName` and `description` as strings, raising KeyError exactly when missing |
| ExtensionItem.StoreAccessors | Mechanic2.roboFontExt/lib/mechanic2/extensionItem.py:38-76 | on validated store data the same accessors read as strings, and `tags` as a list |
| ExtensionItem.JoinItems | Mechanic2.roboFontExt/lib/mechanic2/extensionItem.py:106 | joining a list or tuple of tags joins exactly its string items, in order |
| ExtensionItem.StringItems | Mechanic2.roboFontExt/lib/mechanic2/extensionItem.py:106 | `join` succeeds exactly when every item is a string, and then uses those strings in order; otherwise TypeError |
| ExtensionItem.SearchStringParts | Mechanic2.roboFontExt/lib/mechanic2/extensionItem.py:96-107 | on validated shapes, the search string exists exactly when name and description are present and the tags are strings, and it is the lower-cased name, developer (default empty), description and space-joined tags, joined by spaces |
| ExtensionItem.SearchStringFindsFields | Mechanic2.roboFontExt/lib/mechanic2/extensionItem.py:96-107 | the search string contains the lower-cased name, developer, description and each tag |
| ExtensionItem.InstallDecision | Mechanic2.roboFontExt/lib/mechanic2/extensionItem.py:119-145 | an update is needed exactly when both versions are known and the local one is older; the install is skipped exactly when installed, not forced and no update is needed |
| ExtensionItem.LastSegment | Mechanic2.roboFontExt/lib/mechanic2/extensionItem.py:265 | `path.split("/")[-1]` is a `/`-free suffix of the path, preceded by `/` whenever it is not the whole path |
| ExtensionItem.WithDefaultName | Mechanic2.roboFontExt/lib/mechanic2/extensionItem.py:264-265 | a missing `extensionName` becomes the last segment of `extensionPath`; a present one and every other entry are kept |
| ExtensionItem.DefaultNameKeepsValid | Mechanic2.roboFontExt/lib/mechanic2/extensionItem.py:257-267 | filling in the default name keeps validated data valid |
| ExtensionItem.ServiceOf | Mechanic2.roboFontExt/lib/mechanic2/extensionItem.py:358-378 | GitHub exactly when `github.com/` occurs; GitLab when `gitlab.com/` occurs and `github.com/` does not; Bitbucket likewise after both; otherwise ExtensionRepoError naming the netloc |
| ExtensionItem.DerivedZipPath | Mechanic2.roboFontExt/lib/mechanic2/extensionItem.py:291-300 | a derived zip URL exists exactly when the service is supported, and contains no space |
| ExtensionItem.ExtensionRepository.constructor | Mechanic2.roboFontExt/lib/mechanic2/extensionItem.py:257-267 | `_init` on valid data (`InitializedFrom`): repository and extension path taken from the data, given `zipPath`/`infoPath` cached as they are, the default name filled in, the repository URL parsed |
| ExtensionItem.ExtensionRepository.RemoteZipPath | Mechanic2.roboFontExt/lib/mechanic2/extensionItem.py:286-301 | a stored path (given or derived earlier) is returned verbatim; otherwise the template is filled, spaces replaced by `%20`, and the result stored; an unsupported service raises and stores nothing |
| ExtensionItem.ExtensionRepository.RemoteInfoPath | Mechanic2.roboFontExt/lib/mechanic2/extensionItem.py:305-319 | the returned URL always has its spaces replaced by `%20`; a derived path is stored unescaped |
| ExtensionItem.NewExtensionRepository | Mechanic2.roboFontExt/lib/mechanic2/extensionItem.py:19-24 | runs the validation as written: its UnboundLocalError escapes, invalid data raises ExtensionRepoError carrying the report; a repository URL `urlparse` rejects raises its error; otherwise the new item is what `_init` makes of the data (`InitializedFrom`): the repository URL and its parse, the extension path, the data with the default name filled in, and the given `zipPath`/`infoPath` as caches |
| ExtensionItem.ToList | Mechanic2.roboFontExt/lib/mechanic2/extensionItem.py:443 | `list(v)` of a list or tuple keeps its items, of a dictionary gives its keys, of a string its characters as one-character strings; other values raise |
| ExtensionItem.YamlData | Mechanic2.roboFontExt/lib/mechanic2/extensionItem.py:441-444 | only `tags` is changed, to a list, and only when present; a non-iterable `tags` raises |
| ExtensionItem.YamlTagsPassValidation | Mechanic2.roboFontExt/lib/mechanic2/extensionItem.py:441-444 | after the conversion `tags` never fails the repository's type check |
| ExtensionItem.NewExtensionYamlItem | Mechanic2.roboFontExt/lib/mechanic2/extensionItem.py:441-444 | the `tags` conversion comes before validation and its TypeError escapes; then the repository constructor runs on the converted data, with the same outcomes, the new item being what `_init` makes of the converted data |
| ExtensionItem.ExtensionStoreItem.constructor | Mechanic2.roboFontExt/lib/mechanic2/extensionItem.py:398-400 | the bundle name is the extension name followed by `.roboFontExt` |
| ExtensionItem.ExtensionStoreItem.RemoteZipPath | Mechanic2.roboFontExt/lib/mechanic2/extensionItem.py:408-415 | no URL without a store key; otherwise link + key + `/` + bundle name + `.zip`, which ends in `.roboFontExt.zip` |
| ExtensionItem.StoreLink | Mechanic2.roboFontExt/lib/mechanic2/extensionItem.py:402-403 | `remoteURL` is the `link` string of validated store data |
| ExtensionItem.StoreVersion | Mechanic2.roboFontExt/lib/mechanic2/extensionItem.py:405-406 | `remoteVersion` is the `version` string of validated store data |
| ExtensionItem.NewExtensionStoreItem | Mechanic2.roboFontExt/lib/mechanic2/extensionItem.py:19-24 | runs the validation as written: its UnboundLocalError escapes, invalid data raises ExtensionRepoError with the report; valid data without `extensionName` raises KeyError in `_init` |
| ListEdit.Sort | Mechanic2.roboFontExt/lib/mechanic2/ui/settings.py:245-246 | the sorted indexes are strictly increasing and a permutation of the dragged ones |
| ListEdit.InsertSorted | Mechanic2.roboFontExt/lib/mechanic2/ui/settings.py:245-246 | inserting into a sorted sequence keeps it sorted and adds exactly the element |
| ListEdit.RemoveIdxNothingInRange | Mechanic2.roboFontExt/lib/mechanic2/ui/settings.py:237-239 | removing no index in range changes nothing |
| ListEdit.RemoveIdxPrefix | Mechanic2.roboFontExt/lib/mechanic2/ui/settings.py:237-239 | removing only indexes above `i` keeps the items up to `i` |
| ListEdit.RemoveIdxLowest | Mechanic2.roboFontExt/lib/mechanic2/ui/settings.py:237-239 | deleting index `i` after all higher selected indexes is removing `i` too: deleting from highest to lowest is sound |
| ListEdit.RemoveIdxLength | Mechanic2.roboFontExt/lib/mechanic2/ui/settings.py:237-239 | removing `k` distinct in-range indexes shortens the list by `k` |
| ListEdit.RemoveIdxAt | Mechanic2.roboFontExt/lib/mechanic2/ui/settings.py:253-256 | a kept item at `a` ends at `a` less the number of removed indexes below `a` |
| ListEdit.CountBelowBounds | Mechanic2.roboFontExt/lib/mechanic2/ui/settings.py:256 | the number of moved indexes below the drop row is at most the row, and those at or above it fit below the end |
| ListEdit.CountBelowStep | Mechanic2.roboFontExt/lib/mechanic2/ui/settings.py:256 | between two rows `a < b` with `a` not moved, fewer than `b - a` moved indexes lie in `[a, b)` |
| ListEdit.RemoveAndPickPartition | Mechanic2.roboFontExt/lib/mechanic2/ui/settings.py:251-254 | the kept items and the picked items together are the original multiset |
| ListEdit.DropTargetBounds | Mechanic2.roboFontExt/lib/mechanic2/ui/settings.py:256 | the adjusted drop row is within the remaining list |
| ListEdit.MovedIsPermutation | Mechanic2.roboFontExt/lib/mechanic2/ui/settings.py:245-261 | a real drop is a permutation of the original items |
| ListEdit.MovedBlock | Mechanic2.roboFontExt/lib/mechanic2/ui/settings.py:245-261 | the moved items occupy consecutive slots from the drop row less the moved rows above it, in ascending original order, and the rest is the list without them |
| ListEdit.MovedKeptRow | Mechanic2.roboFontExt/lib/mechanic2/ui/settings.py:253-259 | a row not moved lands at its place among the kept rows, shifted past the block when at or after the drop row |
| ListEdit.MovedKeepsOthersInOrder | Mechanic2.roboFontExt/lib/mechanic2/ui/settings.py:253-259 | two rows not moved, `a < b`, appear in the moved list at positions `pa < pb`, each holding its original item |
| Settings.DeleteIndexes | Mechanic2.roboFontExt/lib/mechanic2/ui/settings.py:237-239 | deleting the selected indexes from highest to lowest removes exactly them |
| Settings.InsertBlock | Mechanic2.roboFontExt/lib/mechanic2/ui/settings.py:257-259 | inserting the moved items one by one at a running row places the whole block at the row |
| Settings.ItemList.DeleteSelection | Mechanic2.roboFontExt/lib/mechanic2/ui/settings.py:237-239 | the list loses exactly the selected rows; the others keep their order |
| Settings.ItemList.DropSelf | Mechanic2.roboFontExt/lib/mechanic2/ui/settings.py:241-262 | always returns true; a proposal leaves the list unchanged; a real drop leaves `Moved` of the old list, the sorted indexes and the row |
| Settings.SortedInRange | Mechanic2.roboFontExt/lib/mechanic2/ui/settings.py:245-246 | sorting keeps the dragged indexes in range |
| Settings.CreateURLItem | Mechanic2.roboFontExt/lib/mechanic2/ui/settings.py:175-176 | a row is `{"url": url}` and nothing else |
| Settings.CreateURLItems | Mechanic2.roboFontExt/lib/mechanic2/ui/settings.py:172-173 | one row per URL, in order |
| Settings.GetURLItems | Mechanic2.roboFontExt/lib/mechanic2/ui/settings.py:178-179 | every row's `url` in order, or KeyError when some row has none |
| Settings.URLItemsRoundTrip | Mechanic2.roboFontExt/lib/mechanic2/ui/settings.py:172-179 | `getURLItems(createURLItems(urls)) == urls` |
| Settings.URLItemsRebuild | Mechanic2.roboFontExt/lib/mechanic2/ui/settings.py:172-179 | rows that hold only `url` are rebuilt exactly from the URLs read out of them |
| Settings.ValidateURL | Mechanic2.roboFontExt/lib/mechanic2/ui/settings.py:60-71 | an unreadable stream or one without `extensions` is "Unable to read the stream." before any duplicate check; a readable duplicate is "Duplicated stream."; otherwise `(True, "")` |
| Settings.ExtensionDefaults.SetDefault | Mechanic2.roboFontExt/lib/mechanic2/ui/settings.py:161-170 | the user's value for the key is replaced; registered fallbacks are kept |
| Settings.ExtensionDefaults.RegisterMechanicDefaults | Mechanic2.roboFontExt/lib/mechanic2/ui/settings.py:20-29 | the three defaults are registered; with `reset` the user's values for those keys are removed first |
| Settings.ResetRestoresDefaults | Mechanic2.roboFontExt/lib/mechanic2/ui/settings.py:20-29 | after a reset the three keys read as their defaults; without one a stored user value still wins |
| Settings.Settings.AddURL | Mechanic2.roboFontExt/lib/mechanic2/ui/settings.py:184-190 | a non-empty entry is appended as a new row; an empty one changes nothing |
| Settings.Settings.AddURLWithSheet | Mechanic2.roboFontExt/lib/mechanic2/ui/settings.py:73-80 | the current URLs are read (KeyError for a row without `url`), the entry is validated against them, and only a valid entry reaches the append rule |
| Settings.Settings.GetFromDefaults | Mechanic2.roboFontExt/lib/mechanic2/ui/settings.py:149-159 | succeeds exactly when the three defaults have their types, and then sets the flag, the URL rows built from the stored URLs and the single extension items |
| Settings.Settings.SaveToDefaults | Mechanic2.roboFontExt/lib/mechanic2/ui/settings.py:161-170 | the flag is stored first; the URLs read from the rows next (a row without `url` raises and stops); then the single extension items |
| Settings.SaveThenLoad | Mechanic2.roboFontExt/lib/mechanic2/ui/settings.py:149-179 | saving rows that hold only `url` and loading them back restores the rows, the single items and the flag |

## Left out

- The network (`NSURLSession`, `urlopen`, SSL) and `callAfter`: downloads are parameters or incoming chunk and completion events, and dispatch appends to a queue of deliveries.
- Urls.Parse: follows `urlparse` of Python 3.12 (stripping, deletion of tab, CR and LF, the scheme rule, the authority, `#`, `?` and `;params`), but not the check of a bracketed IPv6 or IPvFuture host beyond the balance of `[` and `]`, nor the NFKC check of a non-ASCII authority; both raise ValueError in Python.
- `NSURL.URLWithString_` and `str(NSURL)`: the model takes the URL string as the URL and its string form as the same string. `NSURL`'s own normalisation, and the nil it returns for a string it rejects, are not modelled.
- Urls.Canonicalize: applies both rewrites to the components of one parse. `URLReader.fetch` writes the URL back and parses it again between the two steps, which `UrlReader.Target` models. That the round trip keeps the components is not proved.
- Common.Lower: only ASCII letters are lower-cased; Python's full Unicode case mapping is not modelled.
- The response cache and per-URL de-duplication: they are absent from `urlreader.py`, although `__init__.py` passes `use_cache`/`cache_location` and imports names that `urlreader.py` does not define. `__init__.py` is not part of this model.
- `LooseVersion` and `readPlistFromString`: the version order is a parameter `less`, the remote and local versions are options.
- The bundle, zip, temporary files, install and uninstall, `findExtensionInRoot`, `extensionIcon`, `yaml.load`, `open` and `openUrl`: filesystem and application services.
- `ExtensionStoreItem.extensionStoreKey`: it reads the installed bundle's info, so it is a parameter of `RemoteZipPath`.
- The `@remember` decoration of item methods (`service`, `extensionSearchString`, `extensionNeedsUpdate`, `remoteVersion`, ...): memoisation is modelled once in `Remember`; the item functions are the uncached results.
- Remember.Memo.Call: unhashable arguments (which make `args in memo` raise TypeError) are not modelled; keys are sequences of comparable values.
- Aliasing of the caller's data dictionary: `_init` and `ExtensionYamlItem.__init__` write into the dictionary they were given. The model returns new data instead, so a caller keeping that dictionary does not see the change. `_init`'s write happens before `urlparse` can raise; the model checks the URL first.
- ExtensionItem.JoinItems and ExtensionItem.ToList: iterating a value of another class (`VOther`) is taken to raise TypeError, although a user-defined iterable would not.
- Settings.Settings.GetFromDefaults: `DefaultValue` tells a list of strings from a list of records, while `list()` accepts either; a stored value of the other kind is taken to fail with TypeError.
- Settings.Settings.GetFromDefaults: a missing or non-boolean `checkForUpdate` default is taken to fail with TypeError; what the checkbox does with such a value is widget behaviour.
- `getSingleExtensionItems` and `addSingleExtension`: the first is never called; the second reads files and YAML, and its acceptance test is `ExtensionYamlItem`, modelled by `NewExtensionYamlItem`.
- Every widget, sheet, dialog and drawing routine (`ui/cells.py`, `ui/formatters.py`, `ui/controller.py`, `startup.py`), and `localTest.py`.
- UrlReader.BackgroundReader.CompleteWithError: follows the code as written, where only the branch with a callback sets `done`. A fetch without a callback therefore leaves the reader busy, and every later fetch raises RuntimeError (`UrlReader.FetchWithoutCallback`). No corrected reader is modelled, since it is not evident whether the flag was meant to be set outside the branch.
- `response.close()` and other resource release: no effect on the modelled state.

## Findings

| source | as written | input that shows it | evidently intended | confidence | as-written member | corrected member |
|---|---|---|---|---|---|---|
| Mechanic2.roboFontExt/lib/mechanic2/extensionItem.py:204-208 | `clssName` is assigned only when the expected class is a tuple, so a wrongly typed value whose expected class is a single class reaches the report line with `clssName` unbound and raises UnboundLocalError | `ExtensionRepository({"repository": 5, "extensionPath": "x"})` | the message names the expected class, e.g. `'repository' key must be a 'str', a 'int' is given.`, and construction raises ExtensionRepoError with the report | not executed | Validation.ValidateDataAsWritten (with ExtensionItem.RepositoryWrongTypeRaises; used by ExtensionItem.NewExtensionRepository and ExtensionItem.NewExtensionStoreItem) | Validation.ValidateData (with Validation.AsWrittenValidOutcome: the two accept the same data) |
