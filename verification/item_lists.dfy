/**
 * The keyed list behind every collection of the restore info: a list of
 * elements, each with a name given by the list's `GetName` key, that can be
 * looked up by name (first match, or null) or by position.
 * `ItemList<T>` and `VsItemList<T>` have the same `Item` and are both
 * modelled by the class `ItemList` below.
 */
module ItemLists {
  import opened Wrappers

  /** The argument of `Item(object index)`, classified as the C# code tests it. */
  datatype Index =
    | ByName(name: string)     // `index is string`
    | ByPosition(position: int) // `index is int`
    | OtherIndex                // anything else, including a null reference

  /** A nullable string boxed as `object`: `null` is not `string` and not `int`. */
  function NameIndex(s: Option<string>): (index: Index)
    ensures s.Some? <==> index.ByName?
    ensures s.Some? ==> index.name == s.value
    ensures index.ByPosition? == false
  {
    match s
    case Some(n) => ByName(n)
    case None => OtherIndex
  }

  /** Position of the first element whose key equals `name` (an ordinal compare), if any. */
  function FindFirst<T>(s: seq<T>, key: T -> Option<string>, name: string): (r: Option<nat>)
    ensures r.Some? ==> r.value < |s| && key(s[r.value]) == Some(name)
    ensures r.Some? ==> forall j :: 0 <= j < r.value ==> key(s[j]) != Some(name)
    ensures r.None? <==> forall j :: 0 <= j < |s| ==> key(s[j]) != Some(name)
    decreases |s|
  {
    if |s| == 0 then None
    else if key(s[0]) == Some(name) then Some(0)
    else
      match FindFirst(s[1..], key, name)
      case None => None
      case Some(i) => Some(i + 1)
  }

  /**
   * What `Item(index)` returns: by name, the first element with that key or
   * null; by position, the element there (the list indexer throws outside
   * the list, so that is excluded); otherwise `default(T)`, i.e. null.
   */
  function Lookup<T>(s: seq<T>, key: T -> Option<string>, index: Index): (r: Option<T>)
    requires index.ByPosition? ==> 0 <= index.position < |s|
    ensures index.ByName? ==>
      (r.None? <==> forall j :: 0 <= j < |s| ==> key(s[j]) != Some(index.name))
    ensures index.ByName? && r.Some? ==>
      exists k :: 0 <= k < |s| && s[k] == r.value && key(s[k]) == Some(index.name) &&
        forall j :: 0 <= j < k ==> key(s[j]) != Some(index.name)
    ensures index.ByPosition? ==> r == Some(s[index.position])
    ensures index.OtherIndex? ==> r == None
  {
    match index
    case ByName(n) =>
      (match FindFirst(s, key, n)
       case Some(k) => Some(s[k])
       case None => None)
    case ByPosition(i) => Some(s[i])
    case OtherIndex => None
  }

  /** An element whose key is `Some(name)` hides every later element with the same key. */
  lemma {:induction false} LookupFirstShadows<T>(s: seq<T>, key: T -> Option<string>, name: string, k: nat)
    requires k < |s| && key(s[k]) == Some(name)
    requires forall j :: 0 <= j < k ==> key(s[j]) != Some(name)
    ensures Lookup(s, key, ByName(name)) == Some(s[k])
  {
    var f := FindFirst(s, key, name);
    assert f.Some?;
  }

  /** Lookup by name in a list grown by one element: an earlier match still wins. */
  lemma {:induction false} LookupAppend<T>(s: seq<T>, key: T -> Option<string>, name: string, x: T)
    ensures Lookup(s + [x], key, ByName(name)) ==
      if Lookup(s, key, ByName(name)).Some? then Lookup(s, key, ByName(name))
      else if key(x) == Some(name) then Some(x)
      else None
  {
    var t := s + [x];
    assert forall j :: 0 <= j < |s| ==> t[j] == s[j];
    match FindFirst(s, key, name)
    case Some(k) =>
      LookupFirstShadows(t, key, name, k);
    case None =>
      if key(x) == Some(name) {
        LookupFirstShadows(t, key, name, |s|);
      } else {
        assert forall j :: 0 <= j < |t| ==> key(t[j]) != Some(name) by {
          forall j | 0 <= j < |t| ensures key(t[j]) != Some(name) {
            if j < |s| { assert t[j] == s[j]; } else { assert t[j] == x; }
          }
        }
      }
  }

  /**
   * A mutable list (a `List<T>` in the source) whose abstract `GetName` is
   * supplied as `getName`: the subclasses differ only in that key.
   */
  class ItemList<T> {
    var elements: seq<T>
    const getName: T -> Option<string>

    /** An empty list keyed by `getName`. */
    constructor (getName: T -> Option<string>)
      ensures elements == [] && this.getName == getName
    {
      elements := [];
      this.getName := getName;
    }

    /** `List<T>.Add`: appends one element at the end. */
    method Add(x: T)
      modifies this
      ensures elements == old(elements) + [x]
    {
      elements := elements + [x];
    }

    /** `Item(object index)`: reads the list and changes nothing. */
    method Item(index: Index) returns (r: Option<T>)
      requires index.ByPosition? ==> 0 <= index.position < |elements|
      ensures r == Lookup(elements, getName, index)
    {
      match index {
        case ByName(n) =>
          var i := FindFirst(elements, getName, n);
          r := if i.Some? then Some(elements[i.value]) else None;
        case ByPosition(p) =>
          r := Some(elements[p]);
        case OtherIndex =>
          r := None;
      }
    }
  }
}
