/** `ExtensionRepository`, `ExtensionStoreItem` and `ExtensionYamlItem`: construction from a
    validated data dictionary, the remote paths derived from it, the search string and the
    update decisions. The bundle, plist, zip and version collaborators are parameters. */
module ExtensionItem {
  import opened Common
  import opened Urls
  import opened Validation
  import MechacnicTools

  // ---------------------------------------------------------------------------------------
  // Validation tables

  const RepositoryRequiredKeys: seq<KeySpec> :=
    [KeySpec("repository", Single(Str)), KeySpec("extensionPath", Single(Str))]

  const RepositoryOptionalKeys: seq<KeySpec> :=
    [ KeySpec("infoPath", Single(Str)), KeySpec("zipPath", Single(Str)),
      KeySpec("extensionName", Single(Str)), KeySpec("developer", Single(Str)),
      KeySpec("developerURL", Single(Str)), KeySpec("description", Single(Str)),
      KeySpec("tags", AnyOf([List, Tuple])) ]

  const StoreRequiredKeys: seq<KeySpec> :=
    [KeySpec("version", Single(Str)), KeySpec("link", Single(Str)), KeySpec("purchaseURL", Single(Str))]

  const StoreOptionalKeys: seq<KeySpec> :=
    [ KeySpec("extensionName", Single(Str)), KeySpec("developer", Single(Str)),
      KeySpec("developerURL", Single(Str)), KeySpec("description", Single(Str)),
      KeySpec("tags", Single(List)), KeySpec("date", Single(Str)) ]

  /** A repository whose `repository` value is an int: the corrected validation reports it, the
      validation as written raises UnboundLocalError. */
  lemma RepositoryWrongTypeRaises()
    ensures var data := map["repository" := VInt(5), "extensionPath" := VStr("x")];
            && AsWrittenValidate(data, RepositoryRequiredKeys, RepositoryOptionalKeys) == Err(UnboundLocalError("clssName"))
            && Validate(data, RepositoryRequiredKeys, RepositoryOptionalKeys).Invalid?
  {
    var data := map["repository" := VInt(5), "extensionPath" := VStr("x")];
    assert WrongType(RepositoryRequiredKeys[0], data);
    AsWrittenRaises(RepositoryRequiredKeys, data, true, 0);
    assert KeyMessage(RepositoryRequiredKeys[0], data, true).Some?;
    MessagesEmpty(RepositoryRequiredKeys, data, true);
  }

  /** Every store entry expects a single class, so as written any wrong-typed store value
      raises instead of being reported; otherwise the outcome is the corrected one. */
  lemma StoreAsWrittenRaisesOnWrongType(data: Data)
    ensures AsWrittenValidate(data, StoreRequiredKeys, StoreOptionalKeys).Err? <==>
            (exists i :: 0 <= i < |StoreRequiredKeys| && WrongType(StoreRequiredKeys[i], data)) ||
            (exists i :: 0 <= i < |StoreOptionalKeys| && WrongType(StoreOptionalKeys[i], data))
    ensures AsWrittenValidate(data, StoreRequiredKeys, StoreOptionalKeys).Ok? ==>
            AsWrittenValidate(data, StoreRequiredKeys, StoreOptionalKeys) == Ok(Validate(data, StoreRequiredKeys, StoreOptionalKeys))
  {
    SingleClassTablesRaise(data, StoreRequiredKeys, StoreOptionalKeys);
  }

  // ---------------------------------------------------------------------------------------
  // Accessors

  /** `data.get(key, default)`. */
  function Get(data: Data, key: string, default: Value): Value
  {
    if key in data then data[key] else default
  }

  /** `data[key]`: KeyError for a missing key. */
  function Item(data: Data, key: string): Result<Value>
  {
    if key in data then Ok(data[key]) else Err(KeyError(key))
  }

  function ExtensionName(data: Data): Result<Value> { Item(data, "extensionName") }
  function ExtensionDeveloper(data: Data): Value { Get(data, "developer", VStr("")) }
  function ExtensionDeveloperURL(data: Data): Value { Get(data, "developerURL", VStr("")) }
  function ExtensionDescription(data: Data): Result<Value> { Item(data, "description") }
  function ExtensionTags(data: Data): Value { Get(data, "tags", VList([])) }
  function ExtensionPrice(data: Data): Value { Get(data, "price", VStr("")) }

  /** On validated repository data the accessors return what the tables promise: the developer
      fields are strings (the empty string when missing), the tags a list or a tuple (the empty
      list when missing), and the name and description strings whenever they are present; only
      a missing name or description raises. */
  lemma RepositoryAccessors(data: Data)
    requires Validate(data, RepositoryRequiredKeys, RepositoryOptionalKeys).Valid?
    ensures ExtensionDeveloper(data).VStr? && ExtensionDeveloperURL(data).VStr?
    ensures ExtensionTags(data).VList? || ExtensionTags(data).VTuple?
    ensures ExtensionName(data).Err? <==> "extensionName" !in data
    ensures ExtensionName(data).Ok? ==> ExtensionName(data).value.VStr?
    ensures ExtensionDescription(data).Err? <==> "description" !in data
    ensures ExtensionDescription(data).Ok? ==> ExtensionDescription(data).value.VStr?
  {
    ValidateValidIff(data, RepositoryRequiredKeys, RepositoryOptionalKeys);
    assert !WrongType(RepositoryOptionalKeys[2], data) && !WrongType(RepositoryOptionalKeys[3], data);
    assert !WrongType(RepositoryOptionalKeys[4], data) && !WrongType(RepositoryOptionalKeys[5], data);
    assert !WrongType(RepositoryOptionalKeys[6], data);
  }

  /** On validated store data the same holds, with the tags always a list. */
  lemma StoreAccessors(data: Data)
    requires Validate(data, StoreRequiredKeys, StoreOptionalKeys).Valid?
    ensures ExtensionDeveloper(data).VStr? && ExtensionDeveloperURL(data).VStr?
    ensures ExtensionTags(data).VList?
    ensures ExtensionName(data).Ok? ==> ExtensionName(data).value.VStr?
    ensures ExtensionDescription(data).Ok? ==> ExtensionDescription(data).value.VStr?
  {
    ValidateValidIff(data, StoreRequiredKeys, StoreOptionalKeys);
    assert !WrongType(StoreOptionalKeys[0], data) && !WrongType(StoreOptionalKeys[1], data);
    assert !WrongType(StoreOptionalKeys[2], data) && !WrongType(StoreOptionalKeys[3], data);
    assert !WrongType(StoreOptionalKeys[4], data);
  }

  // ---------------------------------------------------------------------------------------
  // Search string

  /** `s.lower()`: only strings have it. */
  function LowerValue(v: Value): Result<string>
  {
    if v.VStr? then Ok(Lower(v.s)) else Err(AttributeError("lower"))
  }

  /** The strings `" ".join(v)` iterates over: the items of a list, tuple or dictionary, which
      must all be strings, or the characters of a string. */
  function JoinItems(v: Value): (r: Result<seq<string>>)
    ensures r.Ok? && (v.VList? || v.VTuple?) ==>
              |r.value| == |v.items| && forall i :: 0 <= i < |v.items| ==> v.items[i] == VStr(r.value[i])
  {
    match v
    case VStr(s) => Ok(seq(|s|, i requires 0 <= i < |s| => [s[i]]))
    case VList(items) => StringItems(items)
    case VTuple(items) => StringItems(items)
    case VDict(keys) => StringItems(keys)
    case _ => Err(TypeError("can only join an iterable"))
  }

  function StringItems(items: seq<Value>): (r: Result<seq<string>>)
    ensures r.Ok? <==> forall i :: 0 <= i < |items| ==> items[i].VStr?
    ensures r.Ok? ==> |r.value| == |items| && forall i :: 0 <= i < |items| ==> items[i] == VStr(r.value[i])
    ensures r.Err? ==> r.error.TypeError?
  {
    if forall i :: 0 <= i < |items| ==> items[i].VStr?
    then Ok(seq(|items|, i requires 0 <= i < |items| && items[i].VStr? => items[i].s))
    else Err(TypeError("sequence item: expected str instance"))
  }

  /** `extensionSearchString`: name, developer, description and the space-joined tags, each
      lower-cased, joined by spaces. The four parts are looked up before any is lower-cased. */
  function SearchString(data: Data): (r: Result<string>)
  {
    match ExtensionName(data)
    case Err(e) => Err(e)
    case Ok(name) =>
      match ExtensionDescription(data)
      case Err(e) => Err(e)
      case Ok(description) =>
        match JoinItems(ExtensionTags(data))
        case Err(e) => Err(e)
        case Ok(tags) =>
          match (LowerValue(name), LowerValue(ExtensionDeveloper(data)), LowerValue(description))
          case (Ok(n), Ok(d), Ok(s)) => Ok(Join([n, d, s, Lower(Join(tags, " "))], " "))
          case _ => Err(AttributeError("lower"))
  }

  /** The data shapes validation guarantees for the fields the search string reads. */
  predicate SearchFieldsTyped(data: Data)
  {
    && ("extensionName" !in data || data["extensionName"].VStr?)
    && ("description" !in data || data["description"].VStr?)
    && ("developer" !in data || data["developer"].VStr?)
    && ("tags" !in data || data["tags"].VList? || data["tags"].VTuple?)
  }

  lemma JoinFour(n: string, d: string, s: string, t: string)
    ensures Join([n, d, s, t], " ") == n + " " + d + " " + s + " " + t
  {
    assert [n, d, s, t][1..] == [d, s, t] && [d, s, t][1..] == [s, t] && [s, t][1..] == [t];
    assert Join([s, t], " ") == s + " " + t;
  }

  /** The search string fails exactly on a missing name or description, or on tags that are not
      all strings; otherwise it is the four lower-cased parts joined by spaces. */
  lemma SearchStringParts(data: Data)
    requires SearchFieldsTyped(data)
    ensures SearchString(data).Ok? <==>
            && "extensionName" in data && "description" in data
            && ("tags" in data ==> forall i :: 0 <= i < |data["tags"].items| ==> data["tags"].items[i].VStr?)
    ensures SearchString(data).Ok? ==>
            SearchString(data).value ==
              Lower(data["extensionName"].s) + " " + Lower(ExtensionDeveloper(data).s) + " " +
              Lower(data["description"].s) + " " + Lower(Join(JoinItems(ExtensionTags(data)).value, " "))
  {
    if SearchString(data).Ok? {
      var n, d, s := Lower(data["extensionName"].s), Lower(ExtensionDeveloper(data).s), Lower(data["description"].s);
      var t := Lower(Join(JoinItems(ExtensionTags(data)).value, " "));
      assert ExtensionName(data) == Ok(data["extensionName"]) && LowerValue(data["extensionName"]) == Ok(n);
      assert ExtensionDescription(data) == Ok(data["description"]) && LowerValue(data["description"]) == Ok(s);
      assert LowerValue(ExtensionDeveloper(data)) == Ok(d);
      JoinFour(n, d, s, t);
    }
  }

  lemma FourPartsInside(n: string, d: string, s: string, t: string)
    ensures Contains(n + " " + d + " " + s + " " + t, n)
    ensures Contains(n + " " + d + " " + s + " " + t, d)
    ensures Contains(n + " " + d + " " + s + " " + t, s)
  {
    ContainsInside([], n, " " + d + " " + s + " " + t);
    assert n + " " + d + " " + s + " " + t == [] + n + (" " + d + " " + s + " " + t);
    ContainsInside(n + " ", d, " " + s + " " + t);
    assert n + " " + d + " " + s + " " + t == n + " " + d + (" " + s + " " + t);
    ContainsInside(n + " " + d + " ", s, " " + t);
    assert n + " " + d + " " + s + " " + t == n + " " + d + " " + s + (" " + t);
  }

  /** Each tag, lower-cased, sits inside the lower-cased space-joined tags. */
  lemma TagInsideJoin(prefix: string, tags: seq<string>, i: int)
    requires 0 <= i < |tags|
    ensures Contains(prefix + Lower(Join(tags, " ")), Lower(tags[i]))
  {
    var p, q := JoinAround(tags, " ", i);
    var joined := Join(tags, " ");
    LowerConcat(p + tags[i], q);
    LowerConcat(p, tags[i]);
    var a, b, c := prefix + Lower(p), Lower(tags[i]), Lower(q);
    assert Lower(joined) == Lower(p) + b + c;
    ContainsInside(a, b, c);
    assert prefix + Lower(joined) == a + b + c;
  }

  /** Searching for the lower-cased name, developer, description or any tag finds the
      extension. */
  lemma SearchStringFindsFields(data: Data)
    requires SearchFieldsTyped(data) && SearchString(data).Ok?
    ensures "extensionName" in data && "description" in data
    ensures Contains(SearchString(data).value, Lower(data["extensionName"].s))
    ensures Contains(SearchString(data).value, Lower(ExtensionDeveloper(data).s))
    ensures Contains(SearchString(data).value, Lower(data["description"].s))
    ensures forall i :: 0 <= i < |ExtensionTags(data).items| ==>
              Contains(SearchString(data).value, Lower(ExtensionTags(data).items[i].s))
  {
    SearchStringParts(data);
    var n, d, s := Lower(data["extensionName"].s), Lower(ExtensionDeveloper(data).s), Lower(data["description"].s);
    var tags := JoinItems(ExtensionTags(data)).value;
    var r := SearchString(data).value;
    FourPartsInside(n, d, s, Lower(Join(tags, " ")));
    forall i | 0 <= i < |ExtensionTags(data).items|
      ensures Contains(r, Lower(ExtensionTags(data).items[i].s))
    {
      TagInsideJoin(n + " " + d + " " + s + " ", tags, i);
    }
  }

  // ---------------------------------------------------------------------------------------
  // Update decisions

  /** `extensionNeedsUpdate`: the remote version is asked for first; an unknown remote or local
      version means no update; otherwise the local version must be older. `less` is
      `LooseVersion`'s order. */
  function NeedsUpdate<V>(remote: Option<V>, local: Option<V>, less: (V, V) -> bool): (r: bool)
  {
    if remote.None? then false
    else if local.None? then false
    else less(local.value, remote.value)
  }

  /** The guard at the top of `remoteInstall`: return without downloading. */
  function SkipsInstall(installed: bool, needsUpdate: bool, forced: bool): (r: bool)
  {
    installed && !needsUpdate && !forced
  }

  /** The local version exists exactly when the bundle is installed; then the install is
      skipped exactly when it is not forced and the remote version is unknown or not newer. */
  lemma InstallDecision<V>(installed: bool, remote: Option<V>, local: Option<V>, less: (V, V) -> bool, forced: bool)
    requires local.Some? <==> installed
    ensures NeedsUpdate(remote, local, less) <==> remote.Some? && local.Some? && less(local.value, remote.value)
    ensures SkipsInstall(installed, NeedsUpdate(remote, local, less), forced) <==>
            && installed && !forced
            && (remote.None? || !less(local.value, remote.value))
    ensures forced || !installed ==> !SkipsInstall(installed, NeedsUpdate(remote, local, less), forced)
  {
  }

  // ---------------------------------------------------------------------------------------
  // Repositories

  /** `path.split("/")[-1]`: what follows the last `/`, or the whole path without one. */
  function LastSegment(path: string): (r: string)
    ensures '/' !in r
    ensures |r| <= |path| && path[|path| - |r|..] == r
    ensures |r| < |path| ==> path[|path| - |r| - 1] == '/'
  {
    path[RFind(path, '/') + 1..]
  }

  /** `_init`'s default: a missing `extensionName` becomes the last segment of
      `extensionPath`; a present one is kept. */
  function WithDefaultName(data: Data, extensionPath: string): (r: Data)
    ensures r.Keys == data.Keys + {"extensionName"}
    ensures "extensionName" in data ==> r == data
    ensures "extensionName" !in data ==> r["extensionName"] == VStr(LastSegment(extensionPath))
    ensures forall k :: k in data ==> r[k] == data[k]
  {
    if "extensionName" in data then data else data["extensionName" := VStr(LastSegment(extensionPath))]
  }

  datatype Hosting = GitHub | GitLab | Bitbucket

  /** `service`: the first of `github.com/`, `gitlab.com/`, `bitbucket.org/` found anywhere in
      the repository URL decides; none found raises with the parsed netloc. */
  function ServiceOf(repository: string, netloc: string): (r: Result<Hosting>)
    ensures r == Ok(GitHub) <==> Contains(repository, "github.com/")
    ensures r == Ok(GitLab) <==> !Contains(repository, "github.com/") && Contains(repository, "gitlab.com/")
    ensures r == Ok(Bitbucket) <==>
              && !Contains(repository, "github.com/") && !Contains(repository, "gitlab.com/")
              && Contains(repository, "bitbucket.org/")
    ensures r.Err? ==> r.error == ExtensionRepoError("Unsupported service: '" + netloc + "'")
  {
    if Contains(repository, "github.com/") then Ok(GitHub)
    else if Contains(repository, "gitlab.com/") then Ok(GitLab)
    else if Contains(repository, "bitbucket.org/") then Ok(Bitbucket)
    else Err(ExtensionRepoError("Unsupported service: '" + netloc + "'"))
  }

  /** The `zipPath` template of a service, filled in. */
  function ZipTemplate(service: Hosting, repositoryPath: string, repositoryName: string): string
  {
    match service
    case GitHub => "https://github.com" + repositoryPath + "/archive/master.zip"
    case GitLab => "https://gitlab.com" + repositoryPath + "/-/archive/master/" + repositoryName + "-master.zip"
    case Bitbucket => "https://bitbucket.org" + repositoryPath + "/get/master.zip"
  }

  /** The `infoPlistPath` template of a service, filled in. */
  function InfoTemplate(service: Hosting, repositoryPath: string, extensionPath: string): string
  {
    match service
    case GitHub => "https://raw.githubusercontent.com" + repositoryPath + "/master/" + extensionPath + "/info.plist"
    case GitLab => "https://gitlab.com" + repositoryPath + "/raw/master/" + extensionPath + "/info.plist"
    case Bitbucket => "https://bitbucket.org" + repositoryPath + "/src/master/" + extensionPath + "/info.plist"
  }

  class ExtensionRepository {
    /** `_data`, once `_init` has filled in a missing `extensionName`. */
    const data: Data
    const repository: string
    const extensionPath: string
    const repositoryParsedURL: Url
    /** `_remoteZipPath`: the given `zipPath`, or the derived URL once computed. */
    var remoteZipPathCache: Option<string>
    /** `_remoteInfoPath`: the given `infoPath`, or the derived URL once computed (unescaped). */
    var remoteInfoPathCache: Option<string>

    /** The data was validated, and `extensionName` is a string. */
    predicate Valid()
    {
      && Validate(data, RepositoryRequiredKeys, RepositoryOptionalKeys).Valid?
      && "extensionName" in data && data["extensionName"].VStr?
    }

    /** What `_init` makes of `data0`: the repository URL and its parse, the extension path,
        the data with a missing `extensionName` filled in, and the given `zipPath` and
        `infoPath` as the initial caches. */
    predicate InitializedFrom(data0: Data)
      reads this
    {
      && "repository" in data0 && data0["repository"] == VStr(repository)
      && Parse(repository).Ok? && repositoryParsedURL == Parse(repository).value
      && "extensionPath" in data0 && data0["extensionPath"] == VStr(extensionPath)
      && data == WithDefaultName(data0, extensionPath)
      && ("zipPath" in data0 ==> remoteZipPathCache.Some? && data0["zipPath"] == VStr(remoteZipPathCache.value))
      && ("zipPath" !in data0 ==> remoteZipPathCache == None)
      && ("infoPath" in data0 ==> remoteInfoPathCache.Some? && data0["infoPath"] == VStr(remoteInfoPathCache.value))
      && ("infoPath" !in data0 ==> remoteInfoPathCache == None)
    }

    /** `_init`, on data that passed validation and whose repository URL parses. */
    constructor (data0: Data)
      requires Validate(data0, RepositoryRequiredKeys, RepositoryOptionalKeys).Valid?
      requires "repository" in data0 && data0["repository"].VStr? && Parse(data0["repository"].s).Ok?
      ensures Valid()
      ensures InitializedFrom(data0)
    {
      ValidateValidIff(data0, RepositoryRequiredKeys, RepositoryOptionalKeys);
      assert RepositoryRequiredKeys[1].key == "extensionPath";
      assert RepositoryOptionalKeys[0].key == "infoPath";
      assert RepositoryOptionalKeys[1].key == "zipPath";
      assert RepositoryOptionalKeys[2].key == "extensionName";
      var path := data0["extensionPath"].s;
      repository := data0["repository"].s;
      extensionPath := path;
      remoteZipPathCache := if "zipPath" in data0 then Some(data0["zipPath"].s) else None;
      remoteInfoPathCache := if "infoPath" in data0 then Some(data0["infoPath"].s) else None;
      data := WithDefaultName(data0, path);
      repositoryParsedURL := Parse(data0["repository"].s).value;
      new;
      DefaultNameKeepsValid(data0, path);
    }

    function ExtensionName(): string
      requires Valid()
    {
      data["extensionName"].s
    }

    function Service(): Result<Hosting>
    {
      ServiceOf(repository, repositoryParsedURL.netloc)
    }

    /** `remoteZipPath`: a stored path (given or derived before) is returned as it is, spaces
        included; otherwise the service's template is filled in, its spaces replaced by `%20`,
        and the result stored. An unsupported service raises and stores nothing. */
    method RemoteZipPath() returns (r: Result<string>)
      requires Valid()
      modifies this`remoteZipPathCache
      ensures old(remoteZipPathCache).Some? ==> r == Ok(old(remoteZipPathCache).value) && remoteZipPathCache == old(remoteZipPathCache)
      ensures old(remoteZipPathCache).None? ==> r == DerivedZipPath(Service(), repositoryParsedURL.path, ExtensionName())
      ensures old(remoteZipPathCache).None? ==> remoteZipPathCache == (if r.Ok? then Some(r.value) else None)
    {
      if remoteZipPathCache.None? {
        var service := Service();
        if service.Err? {
          return Err(service.error);
        }
        var path := ZipTemplate(service.value, repositoryParsedURL.path, ExtensionName());
        remoteZipPathCache := Some(MechacnicTools.EscapeSpaces(path));
      }
      r := Ok(remoteZipPathCache.value);
    }

    /** `remoteInfoPath`: the stored path, or the filled-in template stored as it is; either
        way the returned URL has its spaces replaced by `%20`. */
    method RemoteInfoPath() returns (r: Result<string>)
      requires Valid()
      modifies this`remoteInfoPathCache
      ensures r.Ok? ==> ' ' !in r.value
      ensures old(remoteInfoPathCache).Some? ==>
                r == Ok(MechacnicTools.EscapeSpaces(old(remoteInfoPathCache).value)) && remoteInfoPathCache == old(remoteInfoPathCache)
      ensures old(remoteInfoPathCache).None? && Service().Err? ==> r == Err(Service().error) && remoteInfoPathCache == None
      ensures old(remoteInfoPathCache).None? && Service().Ok? ==>
                && remoteInfoPathCache == Some(InfoTemplate(Service().value, repositoryParsedURL.path, extensionPath))
                && r == Ok(MechacnicTools.EscapeSpaces(remoteInfoPathCache.value))
    {
      if remoteInfoPathCache.None? {
        var service := Service();
        if service.Err? {
          return Err(service.error);
        }
        remoteInfoPathCache := Some(InfoTemplate(service.value, repositoryParsedURL.path, extensionPath));
      }
      r := Ok(MechacnicTools.EscapeSpaces(remoteInfoPathCache.value));
    }

    function RemoteURL(): string
    {
      repository
    }
  }

  /** The zip URL a repository derives when none was given. */
  function DerivedZipPath(service: Result<Hosting>, repositoryPath: string, repositoryName: string): (r: Result<string>)
    ensures r.Ok? <==> service.Ok?
    ensures r.Err? ==> r.error == service.error
    ensures r.Ok? ==> ' ' !in r.value
  {
    if service.Err? then Err(service.error)
    else Ok(MechacnicTools.EscapeSpaces(ZipTemplate(service.value, repositoryPath, repositoryName)))
  }

  /** Filling in the default name keeps the data valid: the new value is a string. */
  lemma DefaultNameKeepsValid(data0: Data, extensionPath: string)
    requires Validate(data0, RepositoryRequiredKeys, RepositoryOptionalKeys).Valid?
    ensures Validate(WithDefaultName(data0, extensionPath), RepositoryRequiredKeys, RepositoryOptionalKeys).Valid?
  {
    var data := WithDefaultName(data0, extensionPath);
    ValidateValidIff(data0, RepositoryRequiredKeys, RepositoryOptionalKeys);
    forall i | 0 <= i < |RepositoryRequiredKeys|
      ensures RepositoryRequiredKeys[i].key in data && !WrongType(RepositoryRequiredKeys[i], data)
    {
      assert RepositoryRequiredKeys[i].key in data0;
    }
    forall i | 0 <= i < |RepositoryOptionalKeys|
      ensures !WrongType(RepositoryOptionalKeys[i], data)
    {
      var k := RepositoryOptionalKeys[i].key;
      if k in data0 {
        assert data[k] == data0[k];
      } else if k == "extensionName" {
        assert i == 2;
      }
    }
    ValidateValidIff(data, RepositoryRequiredKeys, RepositoryOptionalKeys);
  }

  /** `ExtensionRepository(data)`, running `validateData` as written: a wrong-type entry it
      cannot name raises UnboundLocalError, a validation failure raises ExtensionRepoError with
      the report, a repository URL `urlparse` rejects raises its ValueError; otherwise `_init`. */
  method NewExtensionRepository(data: Data) returns (r: Result<ExtensionRepository>)
    ensures var v := AsWrittenValidate(data, RepositoryRequiredKeys, RepositoryOptionalKeys);
            && (v.Err? ==> r == Err(v.error))
            && (v.Ok? && v.value.Invalid? ==> r == Err(ExtensionRepoError(v.value.report)))
            && (v == Ok(Valid) ==>
                  "repository" in data && data["repository"].VStr? &&
                  (Parse(data["repository"].s).Err? ==> r == Err(Parse(data["repository"].s).error)) &&
                  (Parse(data["repository"].s).Ok? ==>
                     r.Ok? && fresh(r.value) && r.value.Valid() && r.value.InitializedFrom(data)))
  {
    var v := ValidateDataAsWritten(data, RepositoryRequiredKeys, RepositoryOptionalKeys);
    if v.Err? {
      return Err(v.error);
    }
    if v.value.Invalid? {
      return Err(ExtensionRepoError(v.value.report));
    }
    AsWrittenValidOutcome(data, RepositoryRequiredKeys, RepositoryOptionalKeys);
    ValidateValidIff(data, RepositoryRequiredKeys, RepositoryOptionalKeys);
    assert RepositoryRequiredKeys[0].key == "repository";
    var parsed := Parse(data["repository"].s);
    if parsed.Err? {
      return Err(parsed.error);
    }
    var item := new ExtensionRepository(data);
    r := Ok(item);
  }

  // ---------------------------------------------------------------------------------------
  // Yaml items

  /** `list(value)`: a list, tuple or dictionary gives its items (keys), a string its
      characters; other values are not iterable. */
  function ToList(v: Value): (r: Result<Value>)
    ensures r.Ok? ==> r.value.VList?
    ensures v.VList? || v.VTuple? ==> r == Ok(VList(v.items))
    ensures v.VDict? ==> r == Ok(VList(v.keys))
    ensures v.VStr? ==> r.Ok? && |r.value.items| == |v.s| &&
                        forall i :: 0 <= i < |v.s| ==> r.value.items[i] == VStr([v.s[i]])
    ensures r.Err? <==> !(v.VList? || v.VTuple? || v.VDict? || v.VStr?)
  {
    match v
    case VList(items) => Ok(VList(items))
    case VTuple(items) => Ok(VList(items))
    case VDict(keys) => Ok(VList(keys))
    case VStr(s) => Ok(VList(seq(|s|, i requires 0 <= i < |s| => VStr([s[i]]))))
    case _ => Err(TypeError("'" + TypeName(v) + "' object is not iterable"))
  }

  /** `ExtensionYamlItem.__init__`'s first step: `tags` becomes a list before validation. */
  function YamlData(data: Data): (r: Result<Data>)
    ensures "tags" !in data ==> r == Ok(data)
    ensures "tags" in data ==> (r.Ok? <==> ToList(data["tags"]).Ok?)
    ensures r.Ok? ==> r.value.Keys == data.Keys && forall k :: k in data && k != "tags" ==> r.value[k] == data[k]
  {
    if "tags" !in data then Ok(data)
    else
      match ToList(data["tags"])
      case Err(e) => Err(e)
      case Ok(tags) => Ok(data["tags" := tags])
  }

  /** After the conversion the `tags` entry can no longer fail the repository's type check:
      a string of tags, rejected by a plain repository, is accepted as its characters. */
  lemma YamlTagsPassValidation(data: Data)
    requires YamlData(data).Ok?
    ensures forall i :: 0 <= i < |RepositoryOptionalKeys| && RepositoryOptionalKeys[i].key == "tags" ==>
              !WrongType(RepositoryOptionalKeys[i], YamlData(data).value)
  {
    forall i | 0 <= i < |RepositoryOptionalKeys| && RepositoryOptionalKeys[i].key == "tags"
      ensures !WrongType(RepositoryOptionalKeys[i], YamlData(data).value)
    {
      assert i == 6;
      if "tags" in data {
        assert IsInstance(YamlData(data).value["tags"], [List, Tuple][0]);
      }
    }
  }

  /** `ExtensionYamlItem(data)`: `tags` made a list, then the repository constructor. */
  method NewExtensionYamlItem(data: Data) returns (r: Result<ExtensionRepository>)
    ensures YamlData(data).Err? ==> r == Err(YamlData(data).error)
    ensures YamlData(data).Ok? ==>
              var v := AsWrittenValidate(YamlData(data).value, RepositoryRequiredKeys, RepositoryOptionalKeys);
              && (v.Err? ==> r == Err(v.error))
              && (v.Ok? && v.value.Invalid? ==> r == Err(ExtensionRepoError(v.value.report)))
              && (v == Ok(Valid) ==>
                    var d := YamlData(data).value;
                    "repository" in d && d["repository"].VStr? &&
                    (Parse(d["repository"].s).Err? ==> r == Err(Parse(d["repository"].s).error)) &&
                    (Parse(d["repository"].s).Ok? ==>
                       r.Ok? && fresh(r.value) && r.value.Valid() && r.value.InitializedFrom(d)))
  {
    var converted := YamlData(data);
    if converted.Err? {
      return Err(converted.error);
    }
    r := NewExtensionRepository(converted.value);
  }

  // ---------------------------------------------------------------------------------------
  // Extension store items

  class ExtensionStoreItem {
    const data: Data
    const extensionPath: string

    predicate Valid()
    {
      && Validate(data, StoreRequiredKeys, StoreOptionalKeys).Valid?
      && "extensionName" in data && data["extensionName"].VStr?
      && extensionPath == data["extensionName"].s + ".roboFontExt"
    }

    /** `_init`: the bundle file name is the extension name with `.roboFontExt`. */
    constructor (data0: Data)
      requires Validate(data0, StoreRequiredKeys, StoreOptionalKeys).Valid? && "extensionName" in data0
      ensures Valid() && data == data0
      ensures extensionPath == data0["extensionName"].s + ".roboFontExt"
    {
      ValidateValidIff(data0, StoreRequiredKeys, StoreOptionalKeys);
      assert StoreOptionalKeys[0].key == "extensionName";
      data := data0;
      extensionPath := data0["extensionName"].s + ".roboFontExt";
    }

    function RemoteURL(): string
      requires Valid()
    {
      StoreLink(data)
    }

    function RemoteVersion(): string
      requires Valid()
    {
      StoreVersion(data)
    }

    /** `remoteZipPath`: nothing without a store key (the bundle's
        `com.roboFont.extenionsStore` info), else the link, the key, `/`, the bundle file name
        and `.zip`. */
    function RemoteZipPath(storeKey: Option<string>): (r: Option<string>)
      requires Valid()
      ensures r.None? <==> storeKey.None?
      ensures r.Some? ==> r.value == RemoteURL() + storeKey.value + "/" + extensionPath + ".zip"
      ensures r.Some? ==> |r.value| >= 16 && r.value[|r.value| - 16..] == ".roboFontExt.zip"
    {
      if storeKey.None? then None
      else
        var url := RemoteURL() + storeKey.value + "/" + extensionPath + ".zip";
        assert url == (RemoteURL() + storeKey.value + "/" + data["extensionName"].s) + ".roboFontExt.zip";
        Some(url)
    }
  }

  /** The `link` of validated store data. */
  function StoreLink(data: Data): (r: string)
    requires Validate(data, StoreRequiredKeys, StoreOptionalKeys).Valid?
    ensures "link" in data && data["link"] == VStr(r)
  {
    ValidateValidIff(data, StoreRequiredKeys, StoreOptionalKeys);
    assert StoreRequiredKeys[1].key == "link";
    data["link"].s
  }

  /** The `version` of validated store data. */
  function StoreVersion(data: Data): (r: string)
    requires Validate(data, StoreRequiredKeys, StoreOptionalKeys).Valid?
    ensures "version" in data && data["version"] == VStr(r)
  {
    ValidateValidIff(data, StoreRequiredKeys, StoreOptionalKeys);
    assert StoreRequiredKeys[0].key == "version";
    data["version"].s
  }

  /** `ExtensionStoreItem(data)`, running `validateData` as written: every store entry expects a
      single class, so any present value of the wrong type raises UnboundLocalError; other
      failures raise ExtensionRepoError with the report; valid data without `extensionName`
      raises KeyError in `_init`. */
  method NewExtensionStoreItem(data: Data) returns (r: Result<ExtensionStoreItem>)
    ensures var v := AsWrittenValidate(data, StoreRequiredKeys, StoreOptionalKeys);
            && (v.Err? ==> r == Err(v.error))
            && (v.Ok? && v.value.Invalid? ==> r == Err(ExtensionRepoError(v.value.report)))
            && (v == Ok(Valid) && "extensionName" !in data ==> r == Err(KeyError("extensionName")))
            && (v == Ok(Valid) && "extensionName" in data ==>
                  r.Ok? && fresh(r.value) && r.value.Valid() && r.value.data == data)
  {
    var v := ValidateDataAsWritten(data, StoreRequiredKeys, StoreOptionalKeys);
    if v.Err? {
      return Err(v.error);
    }
    if v.value.Invalid? {
      return Err(ExtensionRepoError(v.value.report));
    }
    AsWrittenValidOutcome(data, StoreRequiredKeys, StoreOptionalKeys);
    if "extensionName" !in data {
      return Err(KeyError("extensionName"));
    }
    var item := new ExtensionStoreItem(data);
    r := Ok(item);
  }
}
