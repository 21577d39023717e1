/**
 * The part of the level's tag tree that the migration reads and writes,
 * and the "get with a default" lookups it uses on compounds.
 */
module Tags {
  import opened Wrappers

  /** One tag. Every numeric variant is a `TNumber`; the others are not distinguished further. */
  datatype Tag =
    | TString(str: string)
    | TNumber(num: int)
    | TList(items: seq<Tag>)
    | TCompound(entries: map<string, Tag>)

  /** The entries of a compound tag, by key. */
  type Compound = map<string, Tag>

  /** Why the level is left unedited. */
  datatype Failure =
    | NotALevelFile  // a KeyError, which the source catches and reports before returning
    | WrongTagType   // an entry of another tag type than the one accessed; the source raises

  /** A list of string tags holding the given names, in order. */
  function FromStrings(s: seq<string>): (r: seq<Tag>)
    ensures |r| == |s|
    ensures forall i :: 0 <= i < |s| ==> r[i] == TString(s[i])
  {
    if s == [] then [] else [TString(s[0])] + FromStrings(s[1..])
  }

  /** The names held by a list of tags, when every element is a string tag. */
  function StringsOf(items: seq<Tag>): (r: Option<seq<string>>)
    ensures r.Some? <==> forall i :: 0 <= i < |items| ==> items[i].TString?
    ensures r.Some? ==> items == FromStrings(r.value)
  {
    if items == [] then Some([])
    else match (items[0], StringsOf(items[1..]))
      case (TString(x), Some(rest)) => Some([x] + rest)
      case _ => None
  }

  /** Lists of string tags and lists of names correspond one to one. */
  lemma {:induction false} StringsRoundTrip(s: seq<string>)
    ensures StringsOf(FromStrings(s)) == Some(s)
  {
    if s != [] {
      var items := FromStrings(s);
      assert items[0] == TString(s[0]);
      assert items[1..] == FromStrings(s[1..]);
      StringsRoundTrip(s[1..]);
      assert StringsOf(items) == Some([s[0]] + s[1..]);
      assert [s[0]] + s[1..] == s;
    }
  }

  /** `entries.get(key, {})`, where the value found must be a compound. */
  function CompoundOrEmpty(entries: Compound, key: string): (r: Result<Compound, Failure>)
    ensures key !in entries ==> r == Ok(map[])
    ensures key in entries ==> (r.Ok? <==> entries[key].TCompound?)
    ensures key in entries && r.Ok? ==> entries[key] == TCompound(r.value)
    ensures r.Err? ==> r.error == WrongTagType
  {
    if key !in entries then Ok(map[])
    else if entries[key].TCompound? then Ok(entries[key].entries)
    else Err(WrongTagType)
  }

  /** The entry under `key` is missing or is a list of string tags. */
  predicate NamesOrAbsent(entries: Compound, key: string) {
    key in entries ==>
      entries[key].TList? && forall i :: 0 <= i < |entries[key].items| ==> entries[key].items[i].TString?
  }

  /** `entries.get(key, List[String]())`, where the value found must be a list of strings. */
  function StringListOrEmpty(entries: Compound, key: string): (r: Result<seq<string>, Failure>)
    ensures key !in entries ==> r == Ok([])
    ensures key in entries ==>
      (r.Ok? <==> entries[key].TList? &&
                  forall i :: 0 <= i < |entries[key].items| ==> entries[key].items[i].TString?)
    ensures key in entries && r.Ok? ==> entries[key] == TList(FromStrings(r.value))
    ensures r.Err? ==> r.error == WrongTagType
  {
    if key !in entries then Ok([])
    else match entries[key]
      case TList(items) =>
        (match StringsOf(items)
         case Some(names) => Ok(names)
         case None => Err(WrongTagType))
      case _ => Err(WrongTagType)
  }
}
