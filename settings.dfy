/** The settings sheet without its widgets: the two editable tables (stream URLs and single
    extension items), the defaults they are loaded from and saved to, and the check run on a
    URL before it is added. */
module Settings {
  import opened Common
  import opened ListEdit
  import Validation
  import MechacnicTools

  // ---------------------------------------------------------------------------------------
  // In-place list edits

  /** The loop of `genericDelItem`: `del items[i]` for the selected rows, highest first. */
  method DeleteIndexes<T>(items: seq<T>, idx: seq<int>) returns (r: seq<T>)
    requires StrictlyIncreasing(idx) && InRange(idx, |items|)
    ensures r == RemoveIdx(items, Indexes(idx))
  {
    r := items;
    RemoveIdxNothingInRange(items, {});
    assert Indexes(idx[|idx|..]) == {};
    var k := |idx|;
    while k > 0
      invariant 0 <= k <= |idx|
      invariant r == RemoveIdx(items, Indexes(idx[k..]))
    {
      k := k - 1;
      var i := idx[k];
      RemoveIdxLowest(items, Indexes(idx[k + 1..]), i);
      assert Indexes(idx[k..]) == Indexes(idx[k + 1..]) + {i};
      r := r[..i] + r[i + 1..];
    }
    assert idx[0..] == idx;
  }

  /** The insertion loop of `genericDropSelfCallback`: each moved row is inserted at the
      running row index, which then moves past it. */
  method InsertBlock<T>(items: seq<T>, at: int, block: seq<T>) returns (r: seq<T>)
    requires 0 <= at <= |items|
    ensures r == items[..at] + block + items[at..]
  {
    r := items;
    var row := at;
    for j := 0 to |block|
      invariant row == at + j
      invariant r == items[..at] + block[..j] + items[at..]
    {
      r := r[..row] + [block[j]] + r[row..];
      assert block[..j + 1] == block[..j] + [block[j]];
      row := row + 1;
    }
    assert block[..|block|] == block;
  }

  /** A `vanilla.List`'s items. */
  class ItemList<T> {
    var items: seq<T>

    constructor (items: seq<T>)
      ensures this.items == items
    {
      this.items := items;
    }

    /** `list.set(items)`. */
    method Set(items: seq<T>)
      modifies this
      ensures this.items == items
    {
      this.items := items;
    }

    /** `list.append(item)`. */
    method Append(item: T)
      modifies this
      ensures items == old(items) + [item]
    {
      items := items + [item];
    }

    /** `genericDelItem`: the selected rows are removed, the others keep their order. */
    method DeleteSelection(selection: seq<int>)
      requires StrictlyIncreasing(selection) && InRange(selection, |items|)
      modifies this
      ensures items == RemoveIdx(old(items), Indexes(selection))
    {
      items := DeleteIndexes(items, selection);
    }

    /** `genericDropSelfCallback`: always accepts; a proposal changes nothing; a real drop
        takes the dragged rows out and inserts them, in ascending order, at the drop row less
        the number of dragged rows above it. */
    method DropSelf(isProposal: bool, data: seq<int>, rowIndex: int) returns (accepted: bool)
      requires !isProposal ==> Distinct(data) && InRange(data, |items|) && 0 <= rowIndex <= |items|
      modifies this
      ensures accepted
      ensures isProposal ==> items == old(items)
      ensures !isProposal ==> InRange(Sort(data), |old(items)|) && items == Moved(old(items), Sort(data), rowIndex)
    {
      if !isProposal {
        var indexes := Sort(data);
        SortedInRange(data, |items|);
        var toMove := Picked(items, indexes);
        var rest := DeleteIndexes(items, indexes);
        var row := rowIndex - CountBelow(indexes, rowIndex);
        DropTargetBounds(items, indexes, rowIndex);
        items := InsertBlock(rest, row, toMove);
      }
      accepted := true;
    }
  }

  /** Sorting keeps the indexes in range. */
  lemma SortedInRange(data: seq<int>, n: int)
    requires Distinct(data) && InRange(data, n)
    ensures InRange(Sort(data), n)
  {
    var s := Sort(data);
    forall i | 0 <= i < |s|
      ensures 0 <= s[i] < n
    {
      assert s[i] in multiset(s);
      assert s[i] in data;
    }
  }

  // ---------------------------------------------------------------------------------------
  // URL items

  /** One row of the URL table. */
  type UrlItem = map<string, string>

  /** `createURLItem`: `dict(url=url)`. */
  function CreateURLItem(url: string): (r: UrlItem)
    ensures r.Keys == {"url"} && r["url"] == url
  {
    map["url" := url]
  }

  /** `createURLItems`. */
  function CreateURLItems(urls: seq<string>): (r: seq<UrlItem>)
    ensures |r| == |urls| && forall i :: 0 <= i < |urls| ==> r[i] == CreateURLItem(urls[i])
  {
    seq(|urls|, i requires 0 <= i < |urls| => CreateURLItem(urls[i]))
  }

  /** `getURLItems`: every row's `url`, in order; a row without one raises KeyError. */
  function GetURLItems(items: seq<UrlItem>): (r: Result<seq<string>>)
    ensures r.Ok? <==> forall i :: 0 <= i < |items| ==> "url" in items[i]
    ensures r.Ok? ==> |r.value| == |items| && forall i :: 0 <= i < |items| ==> r.value[i] == items[i]["url"]
    ensures r.Err? ==> r.error == KeyError("url")
  {
    if forall i :: 0 <= i < |items| ==> "url" in items[i]
    then Ok(seq(|items|, i requires 0 <= i < |items| && "url" in items[i] => items[i]["url"]))
    else Err(KeyError("url"))
  }

  /** Wrapping URLs into rows and reading them back gives the URLs, in order. */
  lemma URLItemsRoundTrip(urls: seq<string>)
    ensures GetURLItems(CreateURLItems(urls)) == Ok(urls)
  {
    var r := GetURLItems(CreateURLItems(urls));
    assert r.Ok?;
    assert r.value == urls;
  }

  /** Rows that hold only a `url` are rebuilt exactly from the URLs read out of them. */
  lemma URLItemsRebuild(items: seq<UrlItem>)
    requires forall i :: 0 <= i < |items| ==> items[i].Keys == {"url"}
    ensures GetURLItems(items).Ok? && CreateURLItems(GetURLItems(items).value) == items
  {
    var urls := GetURLItems(items).value;
    forall i | 0 <= i < |items|
      ensures CreateURLItem(urls[i]) == items[i]
    {
      assert CreateURLItem(urls[i]).Keys == items[i].Keys;
    }
  }

  // ---------------------------------------------------------------------------------------
  // Adding a URL

  /** The decoded JSON of a stream, as far as `extensionData["extensions"]` can tell. */
  datatype Json = JObject(keys: set<string>) | JOther

  /** `AddURLSheet.validateURL`. `fetch` and `loads` stand for the download and `json.loads`;
      the stream must download, decode and be an object with `extensions` before the URL is
      looked up among the existing ones. */
  function ValidateURL(url: string, fetch: string -> Result<seq<byte>>, loads: seq<byte> -> Result<Json>,
                       existing: seq<string>): (r: (bool, string))
    ensures var stream := MechacnicTools.GetFormattedDataFromURL(url, fetch, loads);
            && (r.0 <==> stream.Ok? && stream.value.JObject? && "extensions" in stream.value.keys && url !in existing)
            && (!(stream.Ok? && stream.value.JObject? && "extensions" in stream.value.keys) ==>
                  r == (false, "Unable to read the stream."))
            && (stream.Ok? && stream.value.JObject? && "extensions" in stream.value.keys && url in existing ==>
                  r == (false, "Duplicated stream."))
            && (r.0 ==> r.1 == "")
  {
    var stream := MechacnicTools.GetFormattedDataFromURL(url, fetch, loads);
    if !(stream.Ok? && stream.value.JObject? && "extensions" in stream.value.keys) then (false, "Unable to read the stream.")
    else if url in existing then (false, "Duplicated stream.")
    else (true, "")
  }

  // ---------------------------------------------------------------------------------------
  // Defaults

  datatype DefaultValue = Flag(b: bool) | Strings(strings: seq<string>) | Records(records: seq<Validation.Data>)

  const UrlStreamsKey: string := "com.mechanic.urlstreams"
  const CheckForUpdateKey: string := "com.mechanic.checkForUpdate"
  const SingleExtensionItemsKey: string := "com.mechanic.singleExtensionItems"

  const ExtensionStoreDataURL: string := "http://extensionstore.robofont.com/data.json"
  const MechanicDataURL: string := "https://robofont-mechanic.github.io/mechanic2/api/extensions.json"

  /** The defaults `registerMechanicDefaults` registers. */
  const MechanicDefaults: map<string, DefaultValue> := map[
    UrlStreamsKey := Strings([ExtensionStoreDataURL, MechanicDataURL]),
    CheckForUpdateKey := Flag(true),
    SingleExtensionItemsKey := Records([])
  ]

  /** The extension defaults: values set by the user, over registered fallbacks. */
  class ExtensionDefaults {
    var stored: map<string, DefaultValue>
    var registered: map<string, DefaultValue>

    constructor ()
      ensures stored == map[] && registered == map[]
    {
      stored, registered := map[], map[];
    }

    /** `getExtensionDefault(key)`: the stored value, else the registered one, else `None`. */
    function Get(key: string): (r: Option<DefaultValue>)
      reads this
    {
      if key in stored then Some(stored[key])
      else if key in registered then Some(registered[key])
      else None
    }

    /** `setExtensionDefault(key, value)`. */
    method SetDefault(key: string, value: DefaultValue)
      modifies this
      ensures stored == old(stored)[key := value] && registered == old(registered)
    {
      stored := stored[key := value];
    }

    /** `registerMechanicDefaults(reset)`: with `reset`, the user's values for the three keys
        are removed first; then the defaults are registered as fallbacks. */
    method RegisterMechanicDefaults(reset: bool)
      modifies this
      ensures registered == old(registered) + MechanicDefaults
      ensures reset ==> stored == old(stored) - MechanicDefaults.Keys
      ensures !reset ==> stored == old(stored)
    {
      if reset {
        stored := stored - MechanicDefaults.Keys;
      }
      registered := registered + MechanicDefaults;
    }
  }

  /** After a reset the three keys read as the registered defaults; without one, a value the
      user stored still wins. */
  method ResetRestoresDefaults(store: ExtensionDefaults, reset: bool)
    modifies store
    ensures forall k :: k in MechanicDefaults ==>
              store.Get(k) == if reset || k !in old(store.stored) then Some(MechanicDefaults[k]) else Some(old(store.stored)[k])
  {
    store.RegisterMechanicDefaults(reset);
  }

  class Settings {
    const urls: ItemList<UrlItem>
    const singleExtensions: ItemList<Validation.Data>
    var checkForUpdate: bool

    ghost predicate Valid()
      reads this
    {
      urls as object != singleExtensions
    }

    /** The sheet's lists start empty. */
    constructor ()
      ensures Valid() && fresh(urls) && fresh(singleExtensions)
      ensures urls.items == [] && singleExtensions.items == [] && !checkForUpdate
    {
      urls := new ItemList([]);
      singleExtensions := new ItemList([]);
      checkForUpdate := false;
    }

    /** `addURL`'s `_addURL`: a non-empty entry is appended as a new row; an empty one is
        ignored. */
    method AddURL(entered: string)
      modifies urls
      ensures entered != "" ==> urls.items == old(urls.items) + [CreateURLItem(entered)]
      ensures entered == "" ==> urls.items == old(urls.items)
    {
      if entered != "" {
        urls.Append(CreateURLItem(entered));
      }
    }

    /** The whole add flow: the sheet gets the current URLs (a row without `url` raises
        before it opens), the entry is validated, and only a valid entry reaches `_addURL`. */
    method AddURLWithSheet(entered: string, fetch: string -> Result<seq<byte>>, loads: seq<byte> -> Result<Json>)
      returns (r: Result<(bool, string)>)
      modifies urls
      ensures GetURLItems(old(urls.items)).Err? ==> r == Err(KeyError("url")) && urls.items == old(urls.items)
      ensures GetURLItems(old(urls.items)).Ok? ==>
                && r == Ok(ValidateURL(entered, fetch, loads, GetURLItems(old(urls.items)).value))
                && urls.items == (if r.value.0 && entered != "" then old(urls.items) + [CreateURLItem(entered)] else old(urls.items))
    {
      var existing := GetURLItems(urls.items);
      if existing.Err? {
        return Err(existing.error);
      }
      var verdict := ValidateURL(entered, fetch, loads, existing.value);
      if verdict.0 {
        AddURL(entered);
      }
      r := Ok(verdict);
    }

    /** `getFromDefaults`: the flag, the URL rows built from the stored URLs, and the single
        extension items. A missing or mistyped default raises TypeError where `list()` meets it. */
    method GetFromDefaults(store: ExtensionDefaults) returns (r: Outcome)
      requires Valid()
      modifies this, urls, singleExtensions
      ensures Valid()
      ensures r == Pass <==>
              (store.Get(CheckForUpdateKey).Some? && store.Get(CheckForUpdateKey).value.Flag? &&
               store.Get(UrlStreamsKey).Some? && store.Get(UrlStreamsKey).value.Strings? &&
               store.Get(SingleExtensionItemsKey).Some? && store.Get(SingleExtensionItemsKey).value.Records?)
      ensures r.Fail? ==> r.error.TypeError?
      ensures (store.Get(CheckForUpdateKey).Some? && store.Get(CheckForUpdateKey).value.Flag? &&
               store.Get(UrlStreamsKey).Some? && store.Get(UrlStreamsKey).value.Strings? &&
               store.Get(SingleExtensionItemsKey).Some? && store.Get(SingleExtensionItemsKey).value.Records?)
              ==> && r == Pass
                  && checkForUpdate == store.Get(CheckForUpdateKey).value.b
                  && urls.items == CreateURLItems(store.Get(UrlStreamsKey).value.strings)
                  && singleExtensions.items == store.Get(SingleExtensionItemsKey).value.records
    {
      var flag := store.Get(CheckForUpdateKey);
      if flag.None? || !flag.value.Flag? {
        return Fail(TypeError("checkForUpdate"));
      }
      checkForUpdate := flag.value.b;
      var streams := store.Get(UrlStreamsKey);
      if streams.None? || !streams.value.Strings? {
        return Fail(TypeError("object is not iterable"));
      }
      urls.Set(CreateURLItems(streams.value.strings));
      var single := store.Get(SingleExtensionItemsKey);
      if single.None? || !single.value.Records? {
        return Fail(TypeError("object is not iterable"));
      }
      singleExtensions.Set(single.value.records);
      r := Pass;
    }

    /** `saveToDefaults`: the flag is stored first; the URLs are read out of the rows (a row
        without `url` raises and nothing more is stored); then the single extension items. */
    method SaveToDefaults(store: ExtensionDefaults) returns (r: Outcome)
      modifies store
      ensures store.registered == old(store.registered)
      ensures GetURLItems(urls.items).Err? ==>
                r == Fail(KeyError("url")) && store.stored == old(store.stored)[CheckForUpdateKey := Flag(checkForUpdate)]
      ensures GetURLItems(urls.items).Ok? ==>
                && r == Pass
                && store.stored == old(store.stored)[CheckForUpdateKey := Flag(checkForUpdate)]
                                                   [UrlStreamsKey := Strings(GetURLItems(urls.items).value)]
                                                   [SingleExtensionItemsKey := Records(singleExtensions.items)]
    {
      store.SetDefault(CheckForUpdateKey, Flag(checkForUpdate));
      var streams := GetURLItems(urls.items);
      if streams.Err? {
        return Fail(streams.error);
      }
      store.SetDefault(UrlStreamsKey, Strings(streams.value));
      store.SetDefault(SingleExtensionItemsKey, Records(singleExtensions.items));
      r := Pass;
    }
  }

  /** Saving the URL rows and loading them back gives the same rows. */
  method SaveThenLoad(s: Settings, store: ExtensionDefaults)
    requires s.Valid()
    requires forall i :: 0 <= i < |s.urls.items| ==> s.urls.items[i].Keys == {"url"}
    modifies s, s.urls, s.singleExtensions, store
    ensures s.urls.items == old(s.urls.items) && s.singleExtensions.items == old(s.singleExtensions.items)
    ensures s.checkForUpdate == old(s.checkForUpdate)
  {
    URLItemsRebuild(s.urls.items);
    var saved := s.SaveToDefaults(store);
    var loaded := s.GetFromDefaults(store);
  }
}
