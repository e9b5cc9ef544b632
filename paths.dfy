/** The parts of `pathlib.Path` the pipeline relies on: `name` and `suffix`. */
module Paths {
  import opened Strings

  /** Python's `s.rfind(c)`: the index of the last occurrence of `c`, or -1. */
  function RFind(s: string, c: char): (i: int)
    ensures -1 <= i < |s|
    ensures 0 <= i ==> s[i] == c
    ensures forall j :: i < j < |s| ==> s[j] != c
    decreases |s|
  {
    if |s| == 0 then -1
    else if s[|s| - 1] == c then |s| - 1
    else RFind(s[..|s| - 1], c)
  }

  /** `Path(path).name` for a '/'-separated path without a trailing separator. */
  function BaseName(path: string): (name: string)
    ensures '/' !in name
    ensures EndsWith(path, name)
  {
    path[RFind(path, '/') + 1..]
  }

  /** `Path(name).suffix`: from the last '.' on, provided that dot is neither
      the first nor the last character of the name; otherwise empty. */
  function Suffix(name: string): string
  {
    var i := RFind(name, '.');
    if 0 < i < |name| - 1 then name[i..] else ""
  }

  /** The test `path.suffix.lower() == ".csv"` made by the loader and the writer. */
  predicate HasCsvSuffix(name: string)
  {
    Lower(Suffix(name)) == ".csv"
  }

  /** The suffix test holds exactly for names longer than ".csv" whose last
      four characters are ".csv" in any letter case. */
  lemma {:induction false} CsvSuffixCharacterised(name: string)
    ensures HasCsvSuffix(name) <==> |name| > 4 && Lower(name[|name| - 4..]) == ".csv"
  {
    var n := |name|;
    var i := RFind(name, '.');
    if HasCsvSuffix(name) {
      assert |Suffix(name)| == 4;
      assert 0 < i < n - 1 && name[i..] == Suffix(name);
      assert i == n - 4;
    }
    if n > 4 && Lower(name[n - 4..]) == ".csv" {
      var tail := name[n - 4..];
      assert LowerChar(tail[0]) == '.' && LowerChar(tail[1]) == 'c';
      assert LowerChar(tail[2]) == 's' && LowerChar(tail[3]) == 'v';
      assert name[n - 4] == '.';
      assert name[n - 3] != '.' && name[n - 2] != '.' && name[n - 1] != '.';
      assert i == n - 4;
      assert Suffix(name) == tail;
    }
  }
}
