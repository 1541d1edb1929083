/**
  `_find_package_name`: the first entry of the project root, in the order
  the directory listing gives them, that holds an `__init__.py` file and is
  not named `tests` or `setup`.
 */
module Locator {
  import opened Wrappers

  /** An entry of the project root's listing: its name and whether `<name>/__init__.py` is a file. */
  datatype Entry = Entry(name: string, hasInit: bool)

  predicate IsPackageDir(e: Entry) {
    e.hasInit && e.name != "tests" && e.name != "setup"
  }

  /**
    The name of the first package directory of the listing, or `None` when
    there is none.
   */
  function FirstPackage(entries: seq<Entry>): (r: Option<string>)
    ensures r.None? <==> forall i | 0 <= i < |entries| :: !IsPackageDir(entries[i])
    ensures r.Some? ==> exists i | 0 <= i < |entries| ::
      IsPackageDir(entries[i]) && entries[i].name == r.value && forall j | 0 <= j < i :: !IsPackageDir(entries[j])
    decreases |entries|
  {
    if entries == [] then None
    else if IsPackageDir(entries[0]) then
      assert IsPackageDir(entries[0]) && entries[0].name == entries[0].name;
      Some(entries[0].name)
    else
      var r := FirstPackage(entries[1..]);
      assert forall i | 1 <= i < |entries| :: entries[i] == entries[1..][i - 1];
      if r.Some? then
        var i :| 0 <= i < |entries| - 1 && IsPackageDir(entries[1..][i]) && entries[1..][i].name == r.value
          && forall j | 0 <= j < i :: !IsPackageDir(entries[1..][j]);
        assert forall j | 0 <= j < i + 1 :: !IsPackageDir(entries[j]);
        r
      else r
  }

  /** The scan of migration.py: the first entry that qualifies is returned at once. */
  method FindPackageName(entries: seq<Entry>) returns (r: Option<string>)
    ensures r == FirstPackage(entries)
  {
    for i := 0 to |entries|
      invariant FirstPackage(entries) == FirstPackage(entries[i..])
    {
      assert entries[i..][1..] == entries[i + 1..];
      if IsPackageDir(entries[i]) {
        return Some(entries[i].name);
      }
    }
    return None;
  }
}
