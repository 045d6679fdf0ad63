/** Type-checked reading of one JSON mapping, with the first problem recorded.

    The functions say what reading a key means: a value and possibly a problem. The class
    `Reader` does it as the program does, recording into a shared collector. */
module JsonSchema {
  import opened Options
  import opened Json

  datatype Step = Key(name: string) | Index(i: nat)

  /** Where a value sits in its document; shown to the operator as a dotted path. */
  type Path = seq<Step>

  datatype Problem =
    | WrongType(path: Path, expected: string, got: string)
    | OutOfRange(path: Path, min: int, max: int, number: Option<int>)
    | NotOneOf(path: Path, got: string)
    | NotAMapping
    | WrongVersion(version: int)

  type Errs = Option<Problem>

  /** The first problem wins. */
  function First(a: Errs, b: Errs): Errs {
    if a.Some? then a else b
  }

  datatype Read<T> = Read(value: T, err: Errs)

  const INT64_MIN := -0x8000_0000_0000_0000
  const INT64_MAX := 0x7fff_ffff_ffff_ffff

  function TypeName(j: Json): string {
    match j
    case Null => "nothing"
    case Obj(_) => "a mapping"
    case Arr(_) => "a list"
    case Str(_) => "a string"
    case Bool(_) => "true or false"
    case Num(_) => "a whole number"
    case Float(_) => "a decimal number"
  }

  /** An absent key and an empty one both mean "not set". */
  function Present(j: Json, key: string): Option<Json> {
    match Get(j, key)
    case Some(Null) => None
    case v => v
  }

  function StrOf(j: Json, at: Path, key: string, dflt: string): Read<string> {
    match Present(j, key)
    case None => Read(dflt, None)
    case Some(Str(s)) => Read(s, None)
    case Some(v) => Read(dflt, Some(WrongType(at + [Key(key)], "a string", TypeName(v))))
  }

  function BoolOf(j: Json, at: Path, key: string, dflt: bool): Read<bool> {
    match Present(j, key)
    case None => Read(dflt, None)
    case Some(Bool(b)) => Read(b, None)
    case Some(v) => Read(dflt, Some(WrongType(at + [Key(key)], "true or false", TypeName(v))))
  }

  function IntOf(j: Json, at: Path, key: string, dflt: int, min: int, max: int): (r: Read<int>)
    requires min <= dflt <= max
    ensures min <= r.value <= max
  {
    match Present(j, key)
    case None => Read(dflt, None)
    case Some(Num(n)) =>
      if n > INT64_MAX then Read(dflt, Some(OutOfRange(at + [Key(key)], min, max, None)))
      else if n < min || n > max then Read(dflt, Some(OutOfRange(at + [Key(key)], min, max, Some(n))))
      else Read(n, None)
    case Some(v) => Read(dflt, Some(WrongType(at + [Key(key)], "a whole number", TypeName(v))))
  }

  /** The strings of a list, or the problem with its first entry that is none. */
  function StringsOf(items: seq<Json>, at: Path, i: nat): (r: Read<seq<string>>)
    requires i <= |items|
    ensures r.err.Some? <==> exists k | i <= k < |items| :: !items[k].Str?
    ensures r.err.Some? ==> r.value == []
    decreases |items| - i
  {
    if i == |items| then Read([], None)
    else if !items[i].Str? then Read([], Some(WrongType(at + [Index(i)], "a string", TypeName(items[i]))))
    else
      var rest := StringsOf(items, at, i + 1);
      if rest.err.Some? then rest else Read([items[i].text] + rest.value, None)
  }

  function StringListOf(j: Json, at: Path, key: string): Read<seq<string>> {
    match Present(j, key)
    case None => Read([], None)
    case Some(Arr(items)) => StringsOf(items, at + [Key(key)], 0)
    case Some(v) => Read([], Some(WrongType(at + [Key(key)], "a list of strings", TypeName(v))))
  }

  function MappingOf(j: Json, at: Path, key: string): Read<Option<Json>> {
    match Present(j, key)
    case None => Read(None, None)
    case Some(Obj(f)) => Read(Some(Obj(f)), None)
    case Some(v) => Read(None, Some(WrongType(at + [Key(key)], "a mapping", TypeName(v))))
  }

  function ListOf(j: Json, at: Path, key: string, expected: string): Read<Option<seq<Json>>> {
    match Present(j, key)
    case None => Read(None, None)
    case Some(Arr(items)) => Read(Some(items), None)
    case Some(v) => Read(None, Some(WrongType(at + [Key(key)], expected, TypeName(v))))
  }

  /** The collector: once it holds a problem it keeps that one. */
  class Errors {
    var first: Errs

    constructor ()
      ensures first == None
    {
      first := None;
    }

    method Note(p: Problem)
      modifies this
      ensures first == First(old(first), Some(p))
    {
      if first.None? { first := Some(p); }
    }
  }

  class Reader {
    const obj: Json
    const errors: Errors
    const prefix: Path

    constructor (obj: Json, errors: Errors, prefix: Path)
      ensures this.obj == obj && this.errors == errors && this.prefix == prefix
    {
      this.obj, this.errors, this.prefix := obj, errors, prefix;
    }

    method Mismatch(key: string, expected: string, got: Json)
      modifies errors
      ensures errors.first == First(old(errors.first), Some(WrongType(prefix + [Key(key)], expected, TypeName(got))))
    {
      errors.Note(WrongType(prefix + [Key(key)], expected, TypeName(got)));
    }

    method ReadStr(key: string, dflt: string) returns (r: string)
      modifies errors
      ensures r == StrOf(obj, prefix, key, dflt).value
      ensures errors.first == First(old(errors.first), StrOf(obj, prefix, key, dflt).err)
    {
      var v := Present(obj, key);
      if v.None? { return dflt; }
      if !v.value.Str? {
        Mismatch(key, "a string", v.value);
        return dflt;
      }
      return v.value.text;
    }

    method ReadBool(key: string, dflt: bool) returns (r: bool)
      modifies errors
      ensures r == BoolOf(obj, prefix, key, dflt).value
      ensures errors.first == First(old(errors.first), BoolOf(obj, prefix, key, dflt).err)
    {
      var v := Present(obj, key);
      if v.None? { return dflt; }
      if !v.value.Bool? {
        Mismatch(key, "true or false", v.value);
        return dflt;
      }
      return v.value.flag;
    }

    method ReadInt(key: string, dflt: int, min: int, max: int) returns (r: int)
      requires min <= dflt <= max
      modifies errors
      ensures r == IntOf(obj, prefix, key, dflt, min, max).value
      ensures errors.first == First(old(errors.first), IntOf(obj, prefix, key, dflt, min, max).err)
    {
      var v := Present(obj, key);
      if v.None? { return dflt; }
      if !v.value.Num? {
        Mismatch(key, "a whole number", v.value);
        return dflt;
      }
      var tooBig := v.value.number > INT64_MAX;
      var n := if tooBig then 0 else v.value.number;
      if tooBig || n < min || n > max {
        errors.Note(OutOfRange(prefix + [Key(key)], min, max, if tooBig then None else Some(n)));
        return dflt;
      }
      return n;
    }

    method ReadStringList(key: string) returns (out: seq<string>)
      modifies errors
      ensures out == StringListOf(obj, prefix, key).value
      ensures errors.first == First(old(errors.first), StringListOf(obj, prefix, key).err)
    {
      var v := Present(obj, key);
      if v.None? { return []; }
      if !v.value.Arr? {
        Mismatch(key, "a list of strings", v.value);
        return [];
      }
      var items, i := v.value.items, 0;
      out := [];
      while i < |items|
        invariant 0 <= i <= |items| && errors.first == old(errors.first)
        invariant var rest, whole := StringsOf(items, prefix + [Key(key)], i), StringsOf(items, prefix + [Key(key)], 0);
                  rest.err == whole.err && (rest.err.None? ==> whole.value == out + rest.value) && (rest.err.Some? ==> whole.value == [])
      {
        if !items[i].Str? {
          errors.Note(WrongType(prefix + [Key(key)] + [Index(i)], "a string", TypeName(items[i])));
          return [];
        }
        out := out + [items[i].text];
        i := i + 1;
      }
    }

    method ReadMapping(key: string) returns (r: Option<Json>)
      modifies errors
      ensures r == MappingOf(obj, prefix, key).value
      ensures errors.first == First(old(errors.first), MappingOf(obj, prefix, key).err)
    {
      var v := Present(obj, key);
      if v.None? { return None; }
      if !v.value.Obj? {
        Mismatch(key, "a mapping", v.value);
        return None;
      }
      return v;
    }

    method ReadList(key: string, expected: string) returns (r: Option<seq<Json>>)
      modifies errors
      ensures r == ListOf(obj, prefix, key, expected).value
      ensures errors.first == First(old(errors.first), ListOf(obj, prefix, key, expected).err)
    {
      var v := Present(obj, key);
      if v.None? { return None; }
      if !v.value.Arr? {
        Mismatch(key, expected, v.value);
        return None;
      }
      return Some(v.value.items);
    }
  }
}
