/** `BaseExtensionItem.validateData`: the key and type checks every extension item runs on its
    data dictionary before construction, with the report they build. */
module Validation {
  import opened Common

  /** The Python values a data dictionary can hold, as far as validation can tell them apart. */
  datatype Value =
    | VStr(s: string)
    | VList(items: seq<Value>)
    | VTuple(items: seq<Value>)
    | VDict(keys: seq<Value>)
    | VInt(i: int)
    | VBool(b: bool)
    | VNone
    | VOther(className: string)

  /** `value.__class__.__name__`. */
  function TypeName(v: Value): string
  {
    match v
    case VStr(_) => "str"
    case VList(_) => "list"
    case VTuple(_) => "tuple"
    case VDict(_) => "dict"
    case VInt(_) => "int"
    case VBool(_) => "bool"
    case VNone => "NoneType"
    case VOther(name) => name
  }

  /** The classes that appear in the validation tables. */
  datatype PyClass = Str | List | Tuple

  function ClassName(c: PyClass): string
  {
    match c
    case Str => "str"
    case List => "list"
    case Tuple => "tuple"
  }

  predicate IsInstance(v: Value, c: PyClass)
  {
    match c
    case Str => v.VStr?
    case List => v.VList?
    case Tuple => v.VTuple?
  }

  /** The second element of a table entry: one class, or a tuple of classes. */
  datatype Expected = Single(cls: PyClass) | AnyOf(classes: seq<PyClass>)

  /** `isinstance(value, clss)`. */
  predicate Matches(v: Value, e: Expected)
  {
    match e
    case Single(c) => IsInstance(v, c)
    case AnyOf(cs) => exists i :: 0 <= i < |cs| && IsInstance(v, cs[i])
  }

  function ClassNames(cs: seq<PyClass>): (r: seq<string>)
    ensures |r| == |cs|
  {
    seq(|cs|, i requires 0 <= i < |cs| => ClassName(cs[i]))
  }

  /** The class name a wrong-type message should print: `" or ".join(...)` for a tuple, the
      class's own name otherwise. */
  function ExpectedName(e: Expected): string
  {
    match e
    case Single(c) => ClassName(c)
    case AnyOf(cs) => Join(ClassNames(cs), " or ")
  }

  type Data = map<string, Value>

  /** One `(key, clss)` entry of `validationRequiredKeys` or `validationNotRequiredKeys`. */
  datatype KeySpec = KeySpec(key: string, expected: Expected)

  function RequiredMessage(key: string): string
  {
    "'" + key + "' key is required"
  }

  function TypeMessage(key: string, className: string, given: string): string
  {
    "'" + key + "' key must be a '" + className + "', a '" + given + "' is given."
  }

  /** A present key whose value is not an instance of the expected class(es). */
  predicate WrongType(k: KeySpec, data: Data)
  {
    k.key in data && !Matches(data[k.key], k.expected)
  }

  /** What one table entry adds to the report: a missing required key, or a present key of the
      wrong type; a missing optional key adds nothing. */
  function KeyMessage(k: KeySpec, data: Data, isRequired: bool): (r: Option<string>)
    ensures r.None? <==> (!isRequired || k.key in data) && !WrongType(k, data)
    ensures isRequired && k.key !in data ==> r == Some(RequiredMessage(k.key))
    ensures WrongType(k, data) ==> r == Some(TypeMessage(k.key, ExpectedName(k.expected), TypeName(data[k.key])))
  {
    if isRequired && k.key !in data then Some(RequiredMessage(k.key))
    else if WrongType(k, data) then Some(TypeMessage(k.key, ExpectedName(k.expected), TypeName(data[k.key])))
    else None
  }

  function MessageList(m: Option<string>): seq<string>
  {
    if m.Some? then [m.value] else []
  }

  /** The messages of one `_validateKeys` pass, in table order. */
  function Messages(keys: seq<KeySpec>, data: Data, isRequired: bool): seq<string>
  {
    if keys == [] then []
    else MessageList(KeyMessage(keys[0], data, isRequired)) + Messages(keys[1..], data, isRequired)
  }

  /** What `validateData` returns: `(True, [])`, or `(False, report)`. */
  datatype Validation = Valid | Invalid(report: string)

  function Report(msgs: seq<string>): string
  {
    "Incoming data not valid: " + Join(msgs, ", ") + "."
  }

  /** The required pass runs before the optional pass; the data is valid exactly when neither
      reported anything. */
  function Validate(data: Data, required: seq<KeySpec>, optional: seq<KeySpec>): Validation
  {
    var msgs := Messages(required, data, true) + Messages(optional, data, false);
    if msgs == [] then Valid else Invalid(Report(msgs))
  }

  /** A message is reported exactly when some table entry produces it. */
  lemma {:induction false} MessagesComplete(keys: seq<KeySpec>, data: Data, isRequired: bool, m: string)
    ensures m in Messages(keys, data, isRequired) <==>
            exists i :: 0 <= i < |keys| && KeyMessage(keys[i], data, isRequired) == Some(m)
  {
    if keys != [] {
      MessagesComplete(keys[1..], data, isRequired, m);
      if KeyMessage(keys[0], data, isRequired) == Some(m) {
      } else if m in Messages(keys[1..], data, isRequired) {
        var i :| 0 <= i < |keys[1..]| && KeyMessage(keys[1..][i], data, isRequired) == Some(m);
        assert KeyMessage(keys[i + 1], data, isRequired) == Some(m);
      } else {
        forall i | 1 <= i < |keys|
          ensures KeyMessage(keys[i], data, isRequired) != Some(m)
        {
          assert keys[i] == keys[1..][i - 1];
        }
      }
    }
  }

  /** A pass reports nothing exactly when every entry is satisfied. */
  lemma {:induction false} MessagesEmpty(keys: seq<KeySpec>, data: Data, isRequired: bool)
    ensures Messages(keys, data, isRequired) == [] <==>
            forall i :: 0 <= i < |keys| ==> KeyMessage(keys[i], data, isRequired).None?
  {
    if keys != [] {
      MessagesEmpty(keys[1..], data, isRequired);
      assert forall i :: 1 <= i < |keys| ==> keys[i] == keys[1..][i - 1];
    }
  }

  /** `validateData` accepts exactly the data holding every required key, with every listed key
      that is present of its expected class. */
  lemma ValidateValidIff(data: Data, required: seq<KeySpec>, optional: seq<KeySpec>)
    ensures Validate(data, required, optional).Valid? <==>
            && (forall i :: 0 <= i < |required| ==> required[i].key in data)
            && (forall i :: 0 <= i < |required| ==> !WrongType(required[i], data))
            && (forall i :: 0 <= i < |optional| ==> !WrongType(optional[i], data))
  {
    MessagesEmpty(required, data, true);
    MessagesEmpty(optional, data, false);
  }

  /** The report lists the messages of the required pass before those of the optional pass. */
  lemma ValidateReport(data: Data, required: seq<KeySpec>, optional: seq<KeySpec>, m: string)
    requires Validate(data, required, optional).Invalid?
    ensures Validate(data, required, optional).report ==
            Report(Messages(required, data, true) + Messages(optional, data, false))
    ensures (exists i :: 0 <= i < |required| && KeyMessage(required[i], data, true) == Some(m)) ||
            (exists i :: 0 <= i < |optional| && KeyMessage(optional[i], data, false) == Some(m))
            <==> m in Messages(required, data, true) + Messages(optional, data, false)
  {
    MessagesComplete(required, data, true, m);
    MessagesComplete(optional, data, false, m);
  }

  /** One `_validateKeys(keys, isRequired)` call: appends a message for every entry that fails,
      in table order. (The source's `valid` list gets one `False` beside every message, so
      `all(valid)` holds exactly when the report is empty; it is not kept separately here.) */
  method ValidateKeys(keys: seq<KeySpec>, data: Data, isRequired: bool, report0: seq<string>)
    returns (report: seq<string>)
    ensures report == report0 + Messages(keys, data, isRequired)
  {
    report := report0;
    var i := 0;
    while i < |keys|
      invariant 0 <= i <= |keys|
      invariant report0 + Messages(keys, data, isRequired) == report + Messages(keys[i..], data, isRequired)
    {
      var k := keys[i];
      MessagesAt(keys, i, data, isRequired);
      var before := report;
      if isRequired && k.key !in data {
        report := report + [RequiredMessage(k.key)];
      } else if k.key in data && !Matches(data[k.key], k.expected) {
        report := report + [TypeMessage(k.key, ExpectedName(k.expected), TypeName(data[k.key]))];
      }
      assert report == before + MessageList(KeyMessage(k, data, isRequired));
      AppendAssoc(before, MessageList(KeyMessage(k, data, isRequired)), Messages(keys[i + 1..], data, isRequired));
      i := i + 1;
    }
  }

  /** The messages from entry `i` on are those of entry `i` and then those after it. */
  lemma MessagesAt(keys: seq<KeySpec>, i: int, data: Data, isRequired: bool)
    requires 0 <= i < |keys|
    ensures Messages(keys[i..], data, isRequired)
            == MessageList(KeyMessage(keys[i], data, isRequired)) + Messages(keys[i + 1..], data, isRequired)
  {
    assert keys[i..][1..] == keys[i + 1..];
  }

  lemma AppendAssoc(a: seq<string>, b: seq<string>, c: seq<string>)
    ensures a + (b + c) == (a + b) + c
  {
  }

  /** `validateData` with the class name of a single expected class printed. */
  method ValidateData(data: Data, required: seq<KeySpec>, optional: seq<KeySpec>) returns (r: Validation)
    ensures r == Validate(data, required, optional)
  {
    var report := ValidateKeys(required, data, true, []);
    report := ValidateKeys(optional, data, false, report);
    assert report == Messages(required, data, true) + Messages(optional, data, false);
    if report == [] {
      r := Valid;
    } else {
      r := Invalid(Report(report));
    }
  }

  // ---------------------------------------------------------------------------------------
  // validateData as written: `clssName` is bound only when the expected class is a tuple

  /** Continues a result by putting `prefix` in front of its messages. */
  function Prepend(prefix: seq<string>, r: Result<seq<string>>): Result<seq<string>>
  {
    match r
    case Ok(msgs) => Ok(prefix + msgs)
    case Err(e) => Err(e)
  }

  lemma PrependTwice(a: seq<string>, b: seq<string>, r: Result<seq<string>>)
    ensures Prepend(a, Prepend(b, r)) == Prepend(a + b, r)
  {
    if r.Ok? {
      assert a + (b + r.value) == a + b + r.value;
    }
  }

  /** One pass as written. `clssName` is the local of the current `_validateKeys` call: unbound
      (`None`) at its start, set by every wrong-type entry expecting a tuple, read by every
      wrong-type entry. */
  function AsWrittenPass(keys: seq<KeySpec>, data: Data, isRequired: bool, clssName: Option<string>)
    : Result<seq<string>>
  {
    if keys == [] then Ok([])
    else
      var k := keys[0];
      if isRequired && k.key !in data then
        Prepend([RequiredMessage(k.key)], AsWrittenPass(keys[1..], data, isRequired, clssName))
      else if WrongType(k, data) then
        var name := if k.expected.AnyOf? then Some(Join(ClassNames(k.expected.classes), " or ")) else clssName;
        if name.None? then Err(UnboundLocalError("clssName"))
        else Prepend([TypeMessage(k.key, name.value, TypeName(data[k.key]))],
                     AsWrittenPass(keys[1..], data, isRequired, name))
      else AsWrittenPass(keys[1..], data, isRequired, clssName)
  }

  function AsWrittenValidate(data: Data, required: seq<KeySpec>, optional: seq<KeySpec>): Result<Validation>
  {
    match AsWrittenPass(required, data, true, None)
    case Err(e) => Err(e)
    case Ok(m1) =>
      match AsWrittenPass(optional, data, false, None)
      case Err(e) => Err(e)
      case Ok(m2) => if m1 + m2 == [] then Ok(Valid) else Ok(Invalid(Report(m1 + m2)))
  }

  /** `_validateKeys` as written. */
  method ValidateKeysAsWritten(keys: seq<KeySpec>, data: Data, isRequired: bool, report0: seq<string>)
    returns (r: Result<seq<string>>)
    ensures r == Prepend(report0, AsWrittenPass(keys, data, isRequired, None))
  {
    var report := report0;
    var clssName: Option<string> := None;
    var i := 0;
    while i < |keys|
      invariant 0 <= i <= |keys|
      invariant Prepend(report0, AsWrittenPass(keys, data, isRequired, None))
                == Prepend(report, AsWrittenPass(keys[i..], data, isRequired, clssName))
    {
      var k := keys[i];
      var before := clssName;
      assert keys[i..][1..] == keys[i + 1..];
      if isRequired && k.key !in data {
        PrependTwice(report, [RequiredMessage(k.key)], AsWrittenPass(keys[i + 1..], data, isRequired, clssName));
        report := report + [RequiredMessage(k.key)];
      } else if k.key in data && !Matches(data[k.key], k.expected) {
        if k.expected.AnyOf? {
          clssName := Some(Join(ClassNames(k.expected.classes), " or "));
        }
        if clssName.None? {
          assert AsWrittenPass(keys[i..], data, isRequired, before) == Err(UnboundLocalError("clssName"));
          return Err(UnboundLocalError("clssName"));
        }
        var m := TypeMessage(k.key, clssName.value, TypeName(data[k.key]));
        assert AsWrittenPass(keys[i..], data, isRequired, before)
               == Prepend([m], AsWrittenPass(keys[i + 1..], data, isRequired, clssName));
        PrependTwice(report, [m], AsWrittenPass(keys[i + 1..], data, isRequired, clssName));
        report := report + [m];
      }
      i := i + 1;
    }
    assert keys[i..] == [] && report + [] == report;
    r := Ok(report);
  }

  /** `validateData` as written: an unbound `clssName` escapes as UnboundLocalError. */
  method ValidateDataAsWritten(data: Data, required: seq<KeySpec>, optional: seq<KeySpec>)
    returns (r: Result<Validation>)
    ensures r == AsWrittenValidate(data, required, optional)
  {
    var report := ValidateKeysAsWritten(required, data, true, []);
    var pass1 := AsWrittenPass(required, data, true, None);
    if report.Err? {
      return Err(report.error);
    }
    assert pass1.Ok? && report.value == [] + pass1.value == pass1.value;
    var all := ValidateKeysAsWritten(optional, data, false, report.value);
    if all.Err? {
      return Err(all.error);
    }
    if all.value == [] {
      r := Ok(Valid);
    } else {
      r := Ok(Invalid(Report(all.value)));
    }
  }

  /** When the first wrong-type entry of a pass expects a single class, the pass raises instead
      of reporting. */
  lemma {:induction false} AsWrittenRaises(keys: seq<KeySpec>, data: Data, isRequired: bool, i: int)
    requires 0 <= i < |keys| && WrongType(keys[i], data) && keys[i].expected.Single?
    requires forall j :: 0 <= j < i ==> !WrongType(keys[j], data)
    ensures AsWrittenPass(keys, data, isRequired, None) == Err(UnboundLocalError("clssName"))
  {
    if i > 0 {
      assert keys[1..][i - 1] == keys[i];
      AsWrittenRaises(keys[1..], data, isRequired, i - 1);
    }
  }

  /** Where no wrong-type entry expects a single class, the pass as written reports exactly what
      the corrected pass reports, whatever `clssName` held before. */
  lemma {:induction false} AsWrittenAgrees(keys: seq<KeySpec>, data: Data, isRequired: bool, c: Option<string>)
    requires forall j :: 0 <= j < |keys| && WrongType(keys[j], data) ==> keys[j].expected.AnyOf?
    ensures AsWrittenPass(keys, data, isRequired, c) == Ok(Messages(keys, data, isRequired))
  {
    if keys != [] {
      assert forall j :: 1 <= j < |keys| ==> keys[1..][j - 1] == keys[j];
      var k := keys[0];
      var name := if k.expected.AnyOf? then Some(Join(ClassNames(k.expected.classes), " or ")) else c;
      AsWrittenAgrees(keys[1..], data, isRequired, if WrongType(k, data) then name else c);
      if isRequired && k.key !in data {
      } else if WrongType(k, data) {
        assert name == Some(ExpectedName(k.expected));
        assert AsWrittenPass(keys, data, isRequired, c)
               == Prepend([TypeMessage(k.key, name.value, TypeName(data[k.key]))], Ok(Messages(keys[1..], data, isRequired)));
        assert MessageList(KeyMessage(k, data, isRequired)) == [TypeMessage(k.key, name.value, TypeName(data[k.key]))];
        assert Messages(keys, data, isRequired)
               == [TypeMessage(k.key, name.value, TypeName(data[k.key]))] + Messages(keys[1..], data, isRequired);
      } else {
        assert KeyMessage(k, data, isRequired).None?;
        assert Messages(keys, data, isRequired) == Messages(keys[1..], data, isRequired);
        assert AsWrittenPass(keys, data, isRequired, c) == AsWrittenPass(keys[1..], data, isRequired, c);
      }
    }
  }

  /** Data that validates is accepted as written too: the two differ only on invalid data. */
  lemma AsWrittenAgreesOnValid(data: Data, required: seq<KeySpec>, optional: seq<KeySpec>)
    requires Validate(data, required, optional).Valid?
    ensures AsWrittenValidate(data, required, optional) == Ok(Valid)
  {
    ValidateValidIff(data, required, optional);
    AsWrittenAgrees(required, data, true, None);
    AsWrittenAgrees(optional, data, false, None);
  }

  /** A pass as written either raises UnboundLocalError or reports one message for every entry
      the corrected pass reports on. */
  lemma {:induction false} AsWrittenSameCount(keys: seq<KeySpec>, data: Data, isRequired: bool, c: Option<string>)
    ensures AsWrittenPass(keys, data, isRequired, c).Err? ==>
            AsWrittenPass(keys, data, isRequired, c).error == UnboundLocalError("clssName")
    ensures AsWrittenPass(keys, data, isRequired, c).Ok? ==>
            |AsWrittenPass(keys, data, isRequired, c).value| == |Messages(keys, data, isRequired)|
  {
    if keys != [] {
      var k := keys[0];
      var name := if k.expected.AnyOf? then Some(Join(ClassNames(k.expected.classes), " or ")) else c;
      AsWrittenSameCount(keys[1..], data, isRequired, c);
      AsWrittenSameCount(keys[1..], data, isRequired, name);
    }
  }

  /** Whenever the validation as written returns, it accepts exactly what the corrected
      validation accepts; what it raises is always the unbound `clssName`. */
  lemma AsWrittenValidOutcome(data: Data, required: seq<KeySpec>, optional: seq<KeySpec>)
    ensures AsWrittenValidate(data, required, optional).Err? ==>
            AsWrittenValidate(data, required, optional).error == UnboundLocalError("clssName")
    ensures AsWrittenValidate(data, required, optional).Ok? ==>
            (AsWrittenValidate(data, required, optional).value.Valid? <==> Validate(data, required, optional).Valid?)
  {
    AsWrittenSameCount(required, data, true, None);
    AsWrittenSameCount(optional, data, false, None);
  }

  /** Some entry is of the wrong type: then there is a first one. */
  lemma {:induction false} FirstWrongType(keys: seq<KeySpec>, data: Data, j: int) returns (i: int)
    requires 0 <= j < |keys| && WrongType(keys[j], data)
    ensures 0 <= i <= j && WrongType(keys[i], data)
    ensures forall k :: 0 <= k < i ==> !WrongType(keys[k], data)
  {
    if k :| 0 <= k < j && WrongType(keys[k], data) {
      i := FirstWrongType(keys, data, k);
    } else {
      i := j;
    }
  }

  /** For tables whose entries all expect a single class, the validation as written raises
      exactly when some present value has the wrong type, and agrees with the corrected
      validation otherwise. */
  lemma SingleClassTablesRaise(data: Data, required: seq<KeySpec>, optional: seq<KeySpec>)
    requires forall i :: 0 <= i < |required| ==> required[i].expected.Single?
    requires forall i :: 0 <= i < |optional| ==> optional[i].expected.Single?
    ensures AsWrittenValidate(data, required, optional).Err? <==>
            (exists i :: 0 <= i < |required| && WrongType(required[i], data)) ||
            (exists i :: 0 <= i < |optional| && WrongType(optional[i], data))
    ensures AsWrittenValidate(data, required, optional).Ok? ==>
            AsWrittenValidate(data, required, optional) == Ok(Validate(data, required, optional))
  {
    if j :| 0 <= j < |required| && WrongType(required[j], data) {
      var i := FirstWrongType(required, data, j);
      AsWrittenRaises(required, data, true, i);
    } else {
      AsWrittenAgrees(required, data, true, None);
      if j :| 0 <= j < |optional| && WrongType(optional[j], data) {
        var i := FirstWrongType(optional, data, j);
        AsWrittenRaises(optional, data, false, i);
      } else {
        AsWrittenAgrees(optional, data, false, None);
      }
    }
  }
}
