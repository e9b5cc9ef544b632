/** File discovery: the candidate list is every `*.csv` entry of the input
    folder, then every `*.xlsx`, then every `*.xls`. */
module Discovery {
  import opened Wrappers
  import opened Strings
  import opened Paths
  import opened Signals

  /** What the filesystem shows for the input folder: whether it is a
      directory and the names of its entries, in listing order. */
  datatype Listing = Listing(isDir: bool, names: seq<string>)

  /** The glob pattern `*<ext>`: the entries whose name ends with `ext`, in
      listing order. */
  function Glob(names: seq<string>, ext: string): (r: seq<string>)
    ensures forall k :: 0 <= k < |r| ==> EndsWith(r[k], ext)
    decreases |names|
  {
    if names == [] then []
    else (if EndsWith(names[0], ext) then [names[0]] else []) + Glob(names[1..], ext)
  }

  function Candidates(names: seq<string>): seq<string>
  {
    Glob(names, ".csv") + Glob(names, ".xlsx") + Glob(names, ".xls")
  }

  /** A name one of the three patterns matches. */
  predicate Qualifies(name: string)
  {
    EndsWith(name, ".csv") || EndsWith(name, ".xlsx") || EndsWith(name, ".xls")
  }

  /** The position of a name's pattern in the discovery order. */
  function Rank(name: string): nat
  {
    if EndsWith(name, ".csv") then 0 else if EndsWith(name, ".xlsx") then 1 else 2
  }

  function NotADirectoryMessage(folder: string): string
  {
    "The folder '" + folder + "' does not exist or is not a directory."
  }

  function NoCandidatesMessage(folder: string): string
  {
    "No CSV or Excel files found in the folder '" + folder + "'."
  }

  function Discover(folder: string, listing: Listing): Result<seq<string>, FusionError>
  {
    if !listing.isDir then Err(FileNotFound(NotADirectoryMessage(folder)))
    else
      var files := Candidates(listing.names);
      if files == [] then Err(FileNotFound(NoCandidatesMessage(folder))) else Ok(files)
  }

  /** No name ends with two of the three extensions. */
  lemma ExtensionsExclusive(name: string)
    ensures EndsWith(name, ".csv") ==> !EndsWith(name, ".xlsx") && !EndsWith(name, ".xls")
    ensures EndsWith(name, ".xlsx") ==> !EndsWith(name, ".xls")
  {
    var n := |name|;
    if EndsWith(name, ".csv") { assert name[n - 1] == ".csv"[3]; }
    if EndsWith(name, ".xlsx") { assert name[n - 1] == ".xlsx"[4]; }
  }

  /** A glob keeps each matching entry as often as the listing has it, and
      no other entry. */
  lemma {:induction false} GlobCount(names: seq<string>, ext: string, name: string)
    ensures multiset(Glob(names, ext))[name] == if EndsWith(name, ext) then multiset(names)[name] else 0
    decreases |names|
  {
    if names != [] {
      GlobCount(names[1..], ext, name);
      assert names == [names[0]] + names[1..];
    }
  }

  /** Every qualifying entry of the folder is a candidate exactly once per
      occurrence in the listing, and no other entry is. */
  lemma CandidatesComplete(names: seq<string>, name: string)
    ensures multiset(Candidates(names))[name] == if Qualifies(name) then multiset(names)[name] else 0
  {
    GlobCount(names, ".csv", name);
    GlobCount(names, ".xlsx", name);
    GlobCount(names, ".xls", name);
    ExtensionsExclusive(name);
  }

  /** Every entry one of the three patterns keeps has that pattern's rank. */
  lemma GlobRank(names: seq<string>, ext: string)
    requires ext == ".csv" || ext == ".xlsx" || ext == ".xls"
    ensures forall k :: 0 <= k < |Glob(names, ext)| ==> Rank(Glob(names, ext)[k]) == Rank(ext)
  {
    var r := Glob(names, ext);
    forall k | 0 <= k < |r| ensures Rank(r[k]) == Rank(ext) {
      ExtensionsExclusive(r[k]);
    }
  }

  /** Three runs of names of ranks 0, 1 and 2, in that order, are ordered by rank. */
  lemma RankedRuns(csv: seq<string>, xlsx: seq<string>, xls: seq<string>)
    requires forall k :: 0 <= k < |csv| ==> Rank(csv[k]) == 0
    requires forall k :: 0 <= k < |xlsx| ==> Rank(xlsx[k]) == 1
    requires forall k :: 0 <= k < |xls| ==> Rank(xls[k]) == 2
    ensures forall i, j :: 0 <= i < j < |csv + xlsx + xls| ==>
      Rank((csv + xlsx + xls)[i]) <= Rank((csv + xlsx + xls)[j])
  {
    var files := csv + xlsx + xls;
    forall k | 0 <= k < |files|
      ensures Rank(files[k]) == if k < |csv| then 0 else if k < |csv| + |xlsx| then 1 else 2
    {
      if k < |csv| {
        assert files[k] == csv[k];
      } else if k < |csv| + |xlsx| {
        assert files[k] == xlsx[k - |csv|];
      } else {
        assert files[k] == xls[k - |csv| - |xlsx|];
      }
    }
  }

  /** The candidate list holds all `.csv` names, then all `.xlsx`, then all `.xls`. */
  lemma CandidatesOrdered(names: seq<string>)
    ensures forall i, j :: 0 <= i < j < |Candidates(names)| ==>
      Rank(Candidates(names)[i]) <= Rank(Candidates(names)[j])
  {
    GlobRank(names, ".csv");
    GlobRank(names, ".xlsx");
    GlobRank(names, ".xls");
    RankedRuns(Glob(names, ".csv"), Glob(names, ".xlsx"), Glob(names, ".xls"));
  }

  /** Discovery fails for a non-directory, fails with a different message for
      a directory without candidates, and otherwise returns a non-empty list. */
  lemma DiscoverOutcome(folder: string, listing: Listing)
    ensures !listing.isDir ==> Discover(folder, listing) == Err(FileNotFound(NotADirectoryMessage(folder)))
    ensures listing.isDir ==>
      (Discover(folder, listing) == Err(FileNotFound(NoCandidatesMessage(folder))) <==>
       forall n :: n in listing.names ==> !Qualifies(n))
    ensures Discover(folder, listing).Ok? ==>
      |Discover(folder, listing).value| > 0 && Discover(folder, listing).value == Candidates(listing.names)
    ensures NotADirectoryMessage(folder) != NoCandidatesMessage(folder)
  {
    assert NotADirectoryMessage(folder)[0] == 'T';
    var head := "No CSV or Excel files found in the folder '";
    assert NoCandidatesMessage(folder) == head + (folder + "'.");
    assert NoCandidatesMessage(folder)[0] == head[0] == 'N';
    var files := Candidates(listing.names);
    if files != [] {
      CandidatesComplete(listing.names, files[0]);
      assert files[0] in multiset(files);
    } else {
      forall n | n in listing.names ensures !Qualifies(n) {
        CandidatesComplete(listing.names, n);
      }
    }
  }

  /** Of the discovered names, the loader's CSV test selects every `*.csv`
      match except one named exactly ".csv" (whose `Path.suffix` is empty),
      and never an `*.xlsx` or `*.xls` match. */
  lemma CsvDispatchOfCandidates(name: string)
    ensures EndsWith(name, ".csv") ==> (HasCsvSuffix(name) <==> name != ".csv")
    ensures EndsWith(name, ".xlsx") || EndsWith(name, ".xls") ==> !HasCsvSuffix(name)
  {
    CsvSuffixCharacterised(name);
    var n := |name|;
    if EndsWith(name, ".csv") && name != ".csv" {
      assert name[0..] == name;
      assert n != 4;
      LowerCsv(name[n - 4..]);
    }
    if n > 4 {
      var tail := Lower(name[n - 4..]);
      assert tail[3] == LowerChar(name[n - 1]);
      if EndsWith(name, ".xlsx") {
        assert name[n - 1] == ".xlsx"[4];
      } else if EndsWith(name, ".xls") {
        assert name[n - 1] == ".xls"[3];
      }
    }
  }

  lemma LowerCsv(s: string)
    requires s == ".csv"
    ensures Lower(s) == ".csv"
  {
    var t := Lower(s);
    assert t[0] == '.' && t[1] == 'c' && t[2] == 's' && t[3] == 'v';
  }
}
