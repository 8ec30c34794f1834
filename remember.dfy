/** The `remember` decorator: a memo dictionary per decorated function, and the module-global
    `remembered` list through which `clearRemembered` resets every memo. `mechacnicTools.py` and
    `mechanicTools.py` carry identical copies of this code, each with its own list; both are
    instances of the classes below. */
module Remember {
  import opened Common

  /** `all(arg in key for arg in args)`. */
  predicate ContainsAll<A(==)>(key: seq<A>, args: seq<A>)
  {
    forall a :: a in args ==> a in key
  }

  /** What `_reset(args)` leaves of a memo: nothing for empty `args`, otherwise every entry
      whose key lacks one of the arguments, with its value. */
  function ResetTable<A(==,!new), V>(t: map<seq<A>, V>, args: seq<A>): (r: map<seq<A>, V>)
    ensures args == [] ==> r == map[]
    ensures args != [] ==> forall k :: k in r <==> k in t && !ContainsAll(k, args)
    ensures forall k :: k in r ==> k in t && r[k] == t[k]
  {
    if args == [] then map[] else map k | k in t && !ContainsAll(k, args) :: t[k]
  }

  /** Resetting twice with the same arguments is resetting once. */
  lemma ResetTableIdempotent<A(!new), V>(t: map<seq<A>, V>, args: seq<A>)
    ensures ResetTable(ResetTable(t, args), args) == ResetTable(t, args)
  {
  }

  /** The inner loop of `_reset`: does `key` hold every argument? Stops at the first missing one. */
  method KeyContainsAll<A(==,!new)>(key: seq<A>, args: seq<A>) returns (found: bool)
    ensures found <==> ContainsAll(key, args)
  {
    found := true;
    var i := 0;
    while i < |args|
      invariant 0 <= i <= |args|
      invariant forall j :: 0 <= j < i ==> args[j] in key
    {
      if args[i] !in key {
        found := false;
        break;
      }
      i := i + 1;
    }
  }

  class Memo<A(==,!new), V> {
    /** `memo`: argument tuple -> stored result, `None` results included. */
    var table: map<seq<A>, V>

    constructor ()
      ensures table == map[]
    {
      table := map[];
    }

    /** `wrapper(*args)`. `compute` is what the wrapped function returns or raises if it is
        called now; it is called only on a miss. A hit returns the stored value; a successful
        miss stores its result; a raising miss stores nothing. */
    method Call(args: seq<A>, compute: Result<V>) returns (r: Result<V>, invoked: bool)
      modifies this
      ensures invoked <==> args !in old(table)
      ensures !invoked ==> r == Ok(old(table)[args]) && table == old(table)
      ensures invoked ==> r == compute
      ensures invoked && compute.Ok? ==> table == old(table)[args := compute.value]
      ensures invoked && compute.Err? ==> table == old(table)
    {
      if args in table {
        return Ok(table[args]), false;
      }
      invoked := true;
      r := compute;
      if compute.Ok? {
        table := table[args := compute.value];
      }
    }

    /** `_reset(args)`: clears the memo for empty `args`; otherwise deletes, key by key, every
        key that contains all the arguments. */
    method Reset(args: seq<A>)
      modifies this
      ensures table == ResetTable(old(table), args)
    {
      if args == [] {
        table := map[];
        return;
      }
      var todo := table.Keys;
      while todo != {}
        invariant todo <= old(table).Keys
        invariant forall k :: k in table <==> k in old(table) && (k in todo || !ContainsAll(k, args))
        invariant forall k :: k in table ==> table[k] == old(table)[k]
        decreases todo
      {
        var key :| key in todo;
        var found := KeyContainsAll(key, args);
        if found {
          table := table - {key};
        }
        todo := todo - {key};
      }
    }
  }

  class Registry<A(==,!new), V> {
    /** `remembered`: every wrapper made so far, in decoration order. */
    var memos: seq<Memo<A, V>>

    constructor ()
      ensures memos == []
    {
      memos := [];
    }

    /** `remember(function)`: a new, empty memo, appended to the list. */
    method Remember() returns (m: Memo<A, V>)
      modifies this
      ensures fresh(m) && m.table == map[]
      ensures memos == old(memos) + [m]
    {
      m := new Memo();
      memos := memos + [m];
    }

    /** `clearRemembered(*args)`: the same reset applied to every registered memo (a memo
        listed twice is reset twice, which changes nothing more). */
    method ClearRemembered(args: seq<A>)
      modifies set m | m in memos
      ensures forall m :: m in memos ==> m.table == ResetTable(old(m.table), args)
    {
      var i := 0;
      while i < |memos|
        invariant 0 <= i <= |memos|
        invariant forall m :: m in memos[..i] ==> m.table == ResetTable(old(m.table), args)
        invariant forall m :: m in memos && m !in memos[..i] ==> m.table == old(m.table)
      {
        var m := memos[i];
        if m in memos[..i] {
          ResetTableIdempotent(old(m.table), args);
        }
        m.Reset(args);
        assert memos[..i + 1] == memos[..i] + [m];
        i := i + 1;
      }
    }
  }

  /** The two source modules each keep their own `remembered` list: clearing one leaves the
      memos registered only in the other untouched. */
  method ClearOneOfTwoRegistries<A(==,!new), V>(own: Registry<A, V>, other: Registry<A, V>, args: seq<A>)
    requires forall m :: m in own.memos ==> m !in other.memos
    modifies set m | m in own.memos
    ensures forall m :: m in own.memos ==> m.table == ResetTable(old(m.table), args)
    ensures forall m :: m in other.memos ==> m.table == old(m.table)
  {
    own.ClearRemembered(args);
  }
}

/** The helpers of `mechacnicTools.py` other than `remember`. */
module MechacnicTools {
  import opened Common
  import Urls

  /** `url.replace(" ", "%20")`. */
  function EscapeSpaces(s: string): (r: string)
    ensures ' ' !in r
  {
    if s == [] then ""
    else (if s[0] == ' ' then "%20" else [s[0]]) + EscapeSpaces(s[1..])
  }

  /** Every character other than a space is kept, in order: escaping distributes over
      concatenation. */
  lemma {:induction false} EscapeSpacesAppend(a: string, b: string)
    ensures EscapeSpaces(a + b) == EscapeSpaces(a) + EscapeSpaces(b)
  {
    if a != [] {
      assert (a + b)[1..] == a[1..] + b;
      EscapeSpacesAppend(a[1..], b);
    } else {
      assert a + b == b;
    }
  }

  /** A URL without spaces is not changed, so escaping twice is escaping once. */
  lemma {:induction false} EscapeSpacesWithoutSpaces(s: string)
    requires ' ' !in s
    ensures EscapeSpaces(s) == s
  {
    if s != [] {
      EscapeSpacesWithoutSpaces(s[1..]);
    }
  }

  lemma EscapeSpacesIdempotent(s: string)
    ensures EscapeSpaces(EscapeSpaces(s)) == EscapeSpaces(s)
  {
    EscapeSpacesWithoutSpaces(EscapeSpaces(s));
  }

  /** On text made of `quote`'s safe characters and spaces, escaping spaces is exactly `quote`. */
  lemma {:induction false} EscapeSpacesAgreesWithQuote(s: string)
    requires forall i :: 0 <= i < |s| ==> Urls.IsSafe(s[i]) || s[i] == ' '
    ensures EscapeSpaces(s) == Urls.Quote(s)
  {
    if s != [] {
      EscapeSpacesAgreesWithQuote(s[1..]);
      if s[0] == ' ' {
        assert Urls.Utf8(' ') == [32];
        assert Urls.PercentBytes([32]) == "%20";
      }
    }
  }

  /** `getDataFromURL(url)`: `fetch` stands for `urlopen(...).read()`; it is asked for the URL
      with its spaces escaped and nothing else. */
  function GetDataFromURL(url: string, fetch: string -> Result<seq<byte>>): Result<seq<byte>>
  {
    fetch(EscapeSpaces(url))
  }

  /** A space and its escape `%20` ask for the same download, with or without a formatter. */
  lemma SpaceAndEscapeFetchTheSame<T>(a: string, b: string, fetch: string -> Result<seq<byte>>,
                                      formatter: seq<byte> -> Result<T>)
    ensures GetDataFromURL(a + " " + b, fetch) == GetDataFromURL(a + "%20" + b, fetch)
    ensures GetFormattedDataFromURL(a + " " + b, fetch, formatter)
            == GetFormattedDataFromURL(a + "%20" + b, fetch, formatter)
  {
    EscapeSpacesAppend(a + " ", b);
    EscapeSpacesAppend(a, " ");
    EscapeSpacesAppend(a + "%20", b);
    EscapeSpacesAppend(a, "%20");
    EscapeSpacesWithoutSpaces("%20");
    assert EscapeSpaces(" ") == "%20";
  }

  /** `getDataFromURL(url, formatter)`: the formatter is applied to the downloaded bytes only
      when the download succeeded. */
  function GetFormattedDataFromURL<T>(url: string, fetch: string -> Result<seq<byte>>,
                                      formatter: seq<byte> -> Result<T>): Result<T>
  {
    match GetDataFromURL(url, fetch)
    case Err(e) => Err(e)
    case Ok(data) => formatter(data)
  }
}
