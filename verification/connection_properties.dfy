/** The connection settings view-model (`ConnectionProperties`): two
    string properties kept as named elements of the connection's driver
    data, each setter announcing the change of its property. */
module ConnectionProperties {
  import opened Wrappers

  /** The driver data: element name to element text. */
  type Store = map<string, string>

  const RepositoryPathKey := "RepositoryPath"
  const BeyondComparePathKey := "BeyondComparePath"
  const DefaultBeyondComparePath := "C:\\Program Files\\Beyond Compare 4\\BComp.exe"

  /** The driver data after a setter, and the property names it announced. */
  datatype Change = Change(store: Store, notified: seq<string>)

  /** `SetElementValue`: a null value removes the element, any other value
      creates or replaces it. */
  function SetElementValue(store: Store, key: string, value: Option<string>): (r: Store)
    ensures value.None? ==> key !in r
    ensures value.Some? ==> key in r && r[key] == value.value
    ensures forall k :: k != key ==> (k in r <==> k in store) && (k in store ==> r[k] == store[k])
  {
    match value
    case None => store - {key}
    case Some(v) => store[key := v]
  }

  /** The stored repository path, or "" when none is stored. */
  function RepositoryPath(store: Store): (r: string)
    ensures RepositoryPathKey in store ==> r == store[RepositoryPathKey]
    ensures RepositoryPathKey !in store ==> r == ""
  {
    if RepositoryPathKey in store then store[RepositoryPathKey] else ""
  }

  function SetRepositoryPath(store: Store, value: Option<string>): (r: Change)
    ensures r.notified == [RepositoryPathKey]
    ensures RepositoryPath(r.store) == if value.Some? then value.value else ""
    ensures forall k :: k != RepositoryPathKey ==>
      (k in r.store <==> k in store) && (k in store ==> r.store[k] == store[k])
  {
    Change(SetElementValue(store, RepositoryPathKey, value), [RepositoryPathKey])
  }

  /** The stored diff-tool path verbatim, even when it is ""; with nothing
      stored, the default install path when that file exists, else "".
      `fileExists` stands for the file-system check. */
  function BeyondComparePath(store: Store, fileExists: string -> bool): (r: string)
    ensures BeyondComparePathKey in store ==> r == store[BeyondComparePathKey]
    ensures BeyondComparePathKey !in store && fileExists(DefaultBeyondComparePath) ==>
      r == DefaultBeyondComparePath
    ensures BeyondComparePathKey !in store && !fileExists(DefaultBeyondComparePath) ==> r == ""
  {
    var saved := if BeyondComparePathKey in store then Some(store[BeyondComparePathKey]) else None;
    if saved.Some? then saved.value
    else if fileExists(DefaultBeyondComparePath) then DefaultBeyondComparePath
    else ""
  }

  function SetBeyondComparePath(store: Store, value: Option<string>): (r: Change)
    ensures r.notified == [BeyondComparePathKey]
    ensures value.Some? ==> BeyondComparePathKey in r.store && r.store[BeyondComparePathKey] == value.value
    ensures value.None? ==> BeyondComparePathKey !in r.store
    ensures forall k :: k != BeyondComparePathKey ==>
      (k in r.store <==> k in store) && (k in store ==> r.store[k] == store[k])
  {
    Change(SetElementValue(store, BeyondComparePathKey, value), [BeyondComparePathKey])
  }

  /** Reading the diff-tool path after setting it: a value is read back
      whatever the file system holds; clearing it brings back the default rule. */
  lemma BeyondComparePathRoundTrip(store: Store, value: Option<string>, fileExists: string -> bool)
    ensures value.Some? ==>
      BeyondComparePath(SetBeyondComparePath(store, value).store, fileExists) == value.value
    ensures value.None? ==>
      BeyondComparePath(SetBeyondComparePath(store, value).store, fileExists)
      == if fileExists(DefaultBeyondComparePath) then DefaultBeyondComparePath else ""
  {
  }

  /** Setting either property leaves what the other reads unchanged. */
  lemma SettersIndependent(store: Store, value: Option<string>, fileExists: string -> bool)
    ensures BeyondComparePath(SetRepositoryPath(store, value).store, fileExists)
         == BeyondComparePath(store, fileExists)
    ensures RepositoryPath(SetBeyondComparePath(store, value).store) == RepositoryPath(store)
  {
  }
}
