/** The two `path` operations the core uses, on '/'-separated paths without trailing slashes:
    `path.join(folder, 'package.json')` and `path.dirname(file)`. */
module Paths {

  import opened Strings

  const ManifestFile := "package.json"

  /** `path.join(folder, 'package.json')` */
  function ManifestPath(folder: string): string {
    folder + "/" + ManifestFile
  }

  /** The index of the last `c` in `s`, or -1 when there is none. */
  function LastIndexOf(s: string, c: char): (r: int)
    ensures -1 <= r < |s|
    ensures r == -1 <==> c !in s
    ensures 0 <= r ==> s[r] == c && c !in s[r + 1..]
  {
    if s == [] then -1
    else if s[|s| - 1] == c then |s| - 1
    else
      assert s[..|s| - 1] + [s[|s| - 1]] == s;
      LastIndexOf(s[..|s| - 1], c)
  }

  /** `path.dirname(file)`: everything before the last '/', "/" when that is the only one at
      the front, "." when there is none. */
  function Dirname(file: string): (r: string)
    ensures '/' !in file ==> r == "."
    ensures '/' in file ==> |r| <= |file| && StartsWith(file, r)
  {
    var i := LastIndexOf(file, '/');
    if i == -1 then "."
    else if i == 0 then "/"
    else file[..i]
  }

  /** The directory of a package's manifest is the package folder it was joined from. */
  lemma DirnameOfManifestPath(folder: string)
    requires folder != ""
    ensures Dirname(ManifestPath(folder)) == folder
  {
    var file := ManifestPath(folder);
    assert file[|folder|] == '/';
    assert file[|folder| + 1..] == ManifestFile;
    assert LastIndexOf(file, '/') == |folder|;
    assert file[..|folder|] == folder;
  }
}
