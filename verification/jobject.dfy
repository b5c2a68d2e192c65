/** The tagged container `json::JObject`: a type tag paired with a payload.
    Every constructor and setter replaces both together, typed access checks
    the tag, and the list and dictionary operations work in place. */
module JObjects {
  import opened Values

  /** The C++ types `is_basic_type<T>()` can be asked about: the aliases of
      JObject.h (`null_t` is the same type as `str_t`) and anything else. */
  datatype CxxType = StrType | BoolType | DoubleType | IntType | ListType | DictType | OtherType

  /** The tag that the converting constructor `JObject(T)` gives its object,
      or None when JObject has no constructor from T. */
  function ConstructedTag(t: CxxType): Option<Type>
  {
    match t
    case StrType => Some(TStr)
    case BoolType => Some(TBool)
    case DoubleType => Some(TDouble)
    case IntType => Some(TInt)
    case ListType => Some(TList)
    case DictType => Some(TDict)
    case OtherType => None
  }

  /** `is_basic_type<T>()`: exactly the types whose converting constructor
      makes a scalar (neither Null nor a container). */
  function IsBasicType(t: CxxType): (b: bool)
    ensures b <==> ConstructedTag(t).Some? && ConstructedTag(t).value in {TBool, TInt, TDouble, TStr}
  {
    t == StrType || t == BoolType || t == DoubleType || t == IntType
  }

  class JObject {
    /** `m_type` */
    var tag: Type
    /** `m_value` */
    var value: JValue

    /** Exactly one alternative is active, and it is the one the tag names. */
    ghost predicate Valid()
      reads this
    {
      tag == TypeOf(value)
    }

    /** `JObject()`: a fresh object is Null. */
    constructor ()
      ensures Valid() && tag == TNull && value == Null
    {
      tag, value := TNull, Null;
    }

    constructor FromInt(x: Int32)
      ensures Valid() && tag == TInt && value == Int(x)
    {
      tag, value := TInt, Int(x);
    }

    constructor FromBool(b: bool)
      ensures Valid() && tag == TBool && value == Bool(b)
    {
      tag, value := TBool, Bool(b);
    }

    constructor FromDouble(d: string)
      ensures Valid() && tag == TDouble && value == Double(d)
    {
      tag, value := TDouble, Double(d);
    }

    constructor FromStr(s: string)
      ensures Valid() && tag == TStr && value == Str(s)
    {
      tag, value := TStr, Str(s);
    }

    constructor FromList(items: seq<JValue>)
      ensures Valid() && tag == TList && value == List(items)
    {
      tag, value := TList, List(items);
    }

    constructor FromDict(entries: map<string, JValue>)
      ensures Valid() && tag == TDict && value == Dict(entries)
    {
      tag, value := TDict, Dict(entries);
    }

    /** The implicitly declared copy constructor: a deep copy of `v`. */
    constructor Of(v: JValue)
      ensures Valid() && value == v
    {
      tag, value := TypeOf(v), v;
    }

    /** `Null()` */
    method SetNull()
      modifies this
      ensures Valid() && tag == TNull && value == Null
    {
      tag := TNull;
      value := Null;
    }

    /** `Int(int_t)` */
    method SetInt(x: Int32)
      modifies this
      ensures Valid() && tag == TInt && value == Int(x)
    {
      tag := TInt;
      value := Int(x);
    }

    /** `Bool(bool_t)` */
    method SetBool(b: bool)
      modifies this
      ensures Valid() && tag == TBool && value == Bool(b)
    {
      tag := TBool;
      value := Bool(b);
    }

    /** `Double(double_t)` */
    method SetDouble(d: string)
      modifies this
      ensures Valid() && tag == TDouble && value == Double(d)
    {
      tag := TDouble;
      value := Double(d);
    }

    /** `Str(str_t)` */
    method SetStr(s: string)
      modifies this
      ensures Valid() && tag == TStr && value == Str(s)
    {
      tag := TStr;
      value := Str(s);
    }

    /** `List(list_t)` */
    method SetList(items: seq<JValue>)
      modifies this
      ensures Valid() && tag == TList && value == List(items)
    {
      tag := TList;
      value := List(items);
    }

    /** `Dict(dict_t)` */
    method SetDict(entries: map<string, JValue>)
      modifies this
      ensures Valid() && tag == TDict && value == Dict(entries)
    {
      tag := TDict;
      value := Dict(entries);
    }

    /** `Type()`: the tag, which is always the tag of the active payload. */
    function Type(): (t: Type)
      reads this
      requires Valid()
      ensures t == TypeOf(value)
    {
      tag
    }

    /** `Value<str_t>()` */
    function GetStr(): (r: Result<string>)
      reads this
      requires Valid()
      ensures r.Ok? <==> value.Str?
      ensures r.Ok? ==> value == Str(r.value)
      ensures r.Err? ==> r.error == TypeError(TStr)
    {
      if tag != TStr then Err(TypeError(TStr)) else Ok(value.chars)
    }

    /** `Value<bool_t>()` */
    function GetBool(): (r: Result<bool>)
      reads this
      requires Valid()
      ensures r.Ok? <==> value.Bool?
      ensures r.Ok? ==> value == Bool(r.value)
      ensures r.Err? ==> r.error == TypeError(TBool)
    {
      if tag != TBool then Err(TypeError(TBool)) else Ok(value.boolean)
    }

    /** `Value<double_t>()` */
    function GetDouble(): (r: Result<string>)
      reads this
      requires Valid()
      ensures r.Ok? <==> value.Double?
      ensures r.Ok? ==> value == Double(r.value)
      ensures r.Err? ==> r.error == TypeError(TDouble)
    {
      if tag != TDouble then Err(TypeError(TDouble)) else Ok(value.lexeme)
    }

    /** `Value<list_t>()` */
    function GetList(): (r: Result<seq<JValue>>)
      reads this
      requires Valid()
      ensures r.Ok? <==> value.List?
      ensures r.Ok? ==> value == List(r.value)
      ensures r.Err? ==> r.error == TypeError(TList)
    {
      if tag != TList then Err(TypeError(TList)) else Ok(value.items)
    }

    /** `Value<dict_t>()` */
    function GetDict(): (r: Result<map<string, JValue>>)
      reads this
      requires Valid()
      ensures r.Ok? <==> value.Dict?
      ensures r.Ok? ==> value == Dict(r.value)
      ensures r.Err? ==> r.error == TypeError(TDict)
    {
      if tag != TDict then Err(TypeError(TDict)) else Ok(value.entries)
    }

    /** `Value<int_t>()`: the source has no tag check for int_t, so the model
        asks the caller for the tag instead of inventing a failure. */
    function GetInt(): (x: Int32)
      reads this
      requires Valid() && tag == TInt
      ensures value == Int(x)
    {
      value.integer
    }

    /** `push_back(item)`: appends a copy of `item` to a list. */
    method PushBack(item: JValue) returns (r: Result<()>)
      requires Valid()
      modifies this
      ensures Valid() && tag == old(tag)
      ensures r.Ok? <==> old(tag) == TList
      ensures r.Ok? ==> value == List(old(value).items + [item])
      ensures r.Err? ==> r.error == NotAList && value == old(value)
    {
      if tag == TList {
        var list := value.items;
        value := List(list + [item]);
        return Ok(());
      }
      return Err(NotAList);
    }

    /** `pop_back()`: removes the last element of a list. Popping an empty
        vector is undefined behaviour, so the caller must not do it. */
    method PopBack() returns (r: Result<()>)
      requires Valid() && (tag == TList ==> |value.items| > 0)
      modifies this
      ensures Valid() && tag == old(tag)
      ensures r.Ok? <==> old(tag) == TList
      ensures r.Ok? ==> value == List(old(value).items[..|old(value).items| - 1])
      ensures r.Err? ==> r.error == NotAList && value == old(value)
    {
      if tag == TList {
        var list := value.items;
        value := List(list[..|list| - 1]);
        return Ok(());
      }
      return Err(NotAList);
    }

    /** `operator[](key)`: the entry under `key`, inserting Null when the key
        is absent; the C++ reference into the map is returned here as a copy
        of the entry (assignment through it is SetEntry). */
    method Index(key: string) returns (r: Result<JValue>)
      requires Valid()
      modifies this
      ensures Valid() && tag == old(tag)
      ensures r.Ok? <==> old(tag) == TDict
      ensures r.Ok? && key in old(value).entries ==> value == old(value) && r.value == value.entries[key]
      ensures r.Ok? && key !in old(value).entries ==> value == Dict(old(value).entries[key := Null]) && r.value == Null
      ensures r.Ok? ==> value.entries.Keys == old(value).entries.Keys + {key}
      ensures r.Err? ==> r.error == NotADict && value == old(value)
    {
      if tag == TDict {
        var dict := value.entries;
        if key !in dict {
          dict := dict[key := Null];
          value := Dict(dict);
        }
        return Ok(dict[key]);
      }
      return Err(NotADict);
    }

    /** `obj[key] = v`: operator[] followed by assignment through the reference
        it returns. An existing entry is overwritten; every other key keeps its
        entry. */
    method SetEntry(key: string, v: JValue) returns (r: Result<()>)
      requires Valid()
      modifies this
      ensures Valid() && tag == old(tag)
      ensures r.Ok? <==> old(tag) == TDict
      ensures r.Ok? ==> value == Dict(old(value).entries[key := v])
      ensures r.Ok? ==> forall k :: k in old(value).entries && k != key ==> value.entries[k] == old(value).entries[k]
      ensures r.Err? ==> r.error == NotADict && value == old(value)
    {
      var slot := Index(key);
      if slot.Err? {
        return Err(slot.error);
      }
      value := Dict(value.entries[key := v]);
      return Ok(());
    }
  }
}
