/** `MotifAnalysis` of kimono/analysis/__init__.py: loads the dbPTM table into
    PTM sites, then resolves each site to an AlphaFold structure file and a
    motif, recording the sites whose file is missing.

    Reading the tab-separated file is I/O: the table arrives already parsed,
    as a sequence of rows in file order. Which structure files exist is a
    given set of paths. The motif itself is an opaque value recording the
    arguments it is built from. */
module Analysis {
  import opened Errors
  import opened Text
  import opened Tables
  import opened Utils
  import opened Ptm
  import IUPAC

  /** One dbPTM row; the columns in file order. */
  datatype Row = Row(
    entryName: string,
    accId: string,
    position: int,
    modType: string,
    pmids: string,
    seqWindow: string)

  /** The configuration values `MotifAnalysis.__init__` copies. */
  datatype Settings = Settings(
    useDataset: string,
    datasetPath: Option<string>,
    dbptmPath: Option<string>,
    structurePath: string,
    alphafoldStructureDir: Option<string>,
    afIgnoreFragments: bool,
    afModelVersion: int,
    afFileExtension: string,
    includeIsoforms: bool,
    speciesFilter: Option<seq<string>>,
    maxSites: int,
    radius: real)

  /** `StructuralMotif(site=..., structure_path=..., radius=...)`, kept opaque. */
  datatype Motif = StructuralMotif(site: PTMSite, structurePath: string, radius: real)

  // ---- _load_dbptm: the column derivations and filters ------------------

  /** The `species` column: the lower-cased text after the last "_" of the
      entry name, or the whole name when it has no "_". */
  function Species(entryName: string): (r: string)
    ensures '_' !in entryName ==> r == Lower(entryName)
    ensures |r| <= |entryName| && r == Lower(entryName[|entryName| - |r|..])
    ensures |r| < |entryName| ==> entryName[|entryName| - |r| - 1] == '_'
  {
    AfterLastWhole(entryName, '_');
    Lower(AfterLast(entryName, '_'))
  }

  /** A species holds no "_" and no upper-case letter. */
  lemma SpeciesCharacters(entryName: string)
    ensures '_' !in Species(entryName)
    ensures forall i :: 0 <= i < |Species(entryName)| ==> !IsUpperLetter(Species(entryName)[i])
  {
    LowerKeepsAbsent(AfterLast(entryName, '_'), '_');
  }

  /** The mask `df["species"].isin(filter)`. */
  function InSpecies(filter: seq<string>): Row -> bool {
    (row: Row) => Species(row.entryName) in filter
  }

  /** An isoform accession carries a "-" (`str.contains("-")`). */
  predicate IsIsoform(accId: string) {
    '-' in accId
  }

  predicate NotIsoform(row: Row) {
    !IsIsoform(row.accId)
  }

  /** The species filter step; no filter keeps every row. */
  function SpeciesSelected(table: seq<Row>, filter: Option<seq<string>>): seq<Row> {
    match filter
    case None => table
    case Some(f) => Filter(table, InSpecies(f))
  }

  /** The rows `_load_dbptm` keeps: species filter, then `head(max_sites)`,
      then isoform removal. */
  function RetainedRows(table: seq<Row>, s: Settings): seq<Row> {
    var truncated := Head(SpeciesSelected(table, s.speciesFilter), s.maxSites);
    if s.includeIsoforms then truncated else Filter(truncated, NotIsoform)
  }

  /** The `residue` column: the character at index `floor(len / 2)` of the
      sequence window; indexing an empty window raises `IndexError`. */
  function MiddleResidue(window: string): (r: Result<string>)
    ensures r.Success? <==> |window| > 0
    ensures r.Success? ==> |r.value| == 1 && r.value[0] == window[|window| / 2]
    ensures r.Failure? ==> r.error.IndexError?
  {
    if |window| == 0 then Failure(IndexError("string index out of range"))
    else Success([window[|window| / 2]])
  }

  /** The residue of a non-empty window sits in its middle: as many
      characters come before it as after, plus one when the length is even. */
  lemma MiddleResidueCentred(window: string)
    requires |window| > 0
    ensures MiddleResidue(window).Success?
    ensures |window[..|window| / 2]| == |window[|window| / 2 + 1..]| + 1 - |window| % 2
  {
  }

  /** The whole `residue` column, or the `IndexError` of an empty window. */
  function Residues(rows: seq<Row>): (r: Result<seq<string>>)
    ensures r.Success? <==> forall i :: 0 <= i < |rows| ==> |rows[i].seqWindow| > 0
    ensures r.Success? ==> |r.value| == |rows|
    ensures r.Success? ==> forall i :: 0 <= i < |rows| ==>
      MiddleResidue(rows[i].seqWindow) == Success(r.value[i])
    ensures r.Failure? ==> r.error.IndexError?
  {
    if rows == [] then Success([])
    else
      var init := rows[..|rows| - 1];
      var before :- Residues(init);
      var last :- MiddleResidue(rows[|rows| - 1].seqWindow);
      assert forall i :: 0 <= i < |init| ==> init[i] == rows[i];
      Success(before + [last])
  }

  /** The values of the first `k` results in order, or the error of the
      first of them that failed: a loop that stops at its first exception. */
  function Collected<T>(results: seq<Result<T>>, k: nat): (r: Result<seq<T>>)
    requires k <= |results|
    ensures r.Success? ==> |r.value| == k
  {
    if k == 0 then Success([])
    else
      var before :- Collected(results, k - 1);
      var last :- results[k - 1];
      Success(before + [last])
  }

  /** Each collected value is the value of its own result. */
  lemma {:induction false} CollectedAt<T>(results: seq<Result<T>>, k: nat, i: nat)
    requires i < k <= |results| && Collected(results, k).Success?
    ensures results[i] == Success(Collected(results, k).value[i])
  {
    var before := Collected(results, k - 1);
    assert before.Success? && results[k - 1].Success?;
    assert Collected(results, k).value == before.value + [results[k - 1].value];
    if i < k - 1 {
      CollectedAt(results, k - 1, i);
    }
  }

  /** When every result succeeds, so does collecting them. */
  lemma {:induction false} CollectedComplete<T>(results: seq<Result<T>>, k: nat)
    requires k <= |results| && forall i :: 0 <= i < k ==> results[i].Success?
    ensures Collected(results, k).Success?
  {
    if k > 0 {
      CollectedComplete(results, k - 1);
    }
  }

  /** Once a prefix fails, every longer prefix fails with the same error. */
  lemma {:induction false} CollectedPrefixFailure<T>(results: seq<Result<T>>, k: nat, m: nat)
    requires k <= m <= |results| && Collected(results, k).Failure?
    ensures Collected(results, m) == Failure(Collected(results, k).error)
  {
    if k < m {
      CollectedPrefixFailure(results, k, m - 1);
    }
  }

  /** The first failing result is the error of the whole collection. */
  lemma {:induction false} CollectedFirstFailure<T>(results: seq<Result<T>>, k: nat)
    requires k < |results| && Collected(results, k).Success? && results[k].Failure?
    ensures Collected(results, |results|) == Failure(results[k].error)
  {
    CollectedPrefixFailure(results, k + 1, |results|);
  }

  /** What `PTMSite(...)` gives for each row, with chain "A" and the row's
      residue. */
  function RowConstructions(rows: seq<Row>, residues: seq<string>, fmt: NodeIdFormat)
    : (r: seq<Result<(string, string)>>)
    requires |residues| == |rows|
    ensures |r| == |rows|
    ensures forall i :: 0 <= i < |rows| ==>
      r[i] == Construction(fmt, SupportedChain, residues[i], rows[i].position)
  {
    seq(|rows|, i requires 0 <= i < |rows| => Construction(fmt, SupportedChain, residues[i], rows[i].position))
  }

  /** The stored residue and node identifier of the sites built from the
      first `k` rows, in row order, or the error of the first of those rows
      whose `PTMSite` raises. */
  function BuiltSites(rows: seq<Row>, residues: seq<string>, fmt: NodeIdFormat, k: nat)
    : (r: Result<seq<(string, string)>>)
    requires |residues| == |rows| && k <= |rows|
    ensures r.Success? ==> |r.value| == k
  {
    Collected(RowConstructions(rows, residues, fmt), k)
  }

  /** Building one more row appends that row's pair. */
  lemma BuiltSitesSnoc(rows: seq<Row>, residues: seq<string>, fmt: NodeIdFormat, k: nat,
                       built: seq<(string, string)>)
    requires |residues| == |rows| && k < |rows|
    requires BuiltSites(rows, residues, fmt, k) == Success(built)
    requires Construction(fmt, SupportedChain, residues[k], rows[k].position).Success?
    ensures BuiltSites(rows, residues, fmt, k + 1) ==
      Success(built + [Construction(fmt, SupportedChain, residues[k], rows[k].position).value])
  {
    assert RowConstructions(rows, residues, fmt)[k] == Construction(fmt, SupportedChain, residues[k], rows[k].position);
  }

  /** When the sites are built, the pair for each row is what that row's
      `PTMSite` construction gives, so every row's construction succeeded. */
  lemma BuiltSitesAt(rows: seq<Row>, residues: seq<string>, fmt: NodeIdFormat, k: nat, i: nat)
    requires |residues| == |rows| && i < k <= |rows|
    requires BuiltSites(rows, residues, fmt, k).Success?
    ensures Construction(fmt, SupportedChain, residues[i], rows[i].position) ==
      Success(BuiltSites(rows, residues, fmt, k).value[i])
  {
    CollectedAt(RowConstructions(rows, residues, fmt), k, i);
  }

  /** Conversely, when every row's construction succeeds the sites are built. */
  lemma BuiltSitesComplete(rows: seq<Row>, residues: seq<string>, fmt: NodeIdFormat, k: nat)
    requires |residues| == |rows| && k <= |rows|
    requires forall i :: 0 <= i < k ==>
      Construction(fmt, SupportedChain, residues[i], rows[i].position).Success?
    ensures BuiltSites(rows, residues, fmt, k).Success?
  {
    CollectedComplete(RowConstructions(rows, residues, fmt), k);
  }

  /** What `_load_dbptm` produces: the retained rows and, per row, the
      stored residue and node identifier of its site; or the error raised. */
  function DbptmSites(table: seq<Row>, s: Settings, fmt: NodeIdFormat)
    : (r: Result<(seq<Row>, seq<(string, string)>)>)
    ensures r.Success? ==> r.value.0 == RetainedRows(table, s) && |r.value.1| == |r.value.0|
    ensures r.Success? ==> forall i :: 0 <= i < |r.value.0| ==> |r.value.0[i].seqWindow| > 0
  {
    var rows := RetainedRows(table, s);
    var residues :- Residues(rows);
    var built :- BuiltSites(rows, residues, fmt, |rows|);
    Success((rows, built))
  }

  /** A retained row with an empty sequence window makes `_load_dbptm`
      raise `IndexError`. */
  lemma DbptmEmptyWindow(table: seq<Row>, s: Settings, fmt: NodeIdFormat, i: nat)
    requires i < |RetainedRows(table, s)| && RetainedRows(table, s)[i].seqWindow == []
    ensures DbptmSites(table, s, fmt).Failure? && DbptmSites(table, s, fmt).error.IndexError?
  {
  }

  /** The residue stored for each retained row is the middle character of
      its sequence window, upper-cased. */
  lemma DbptmStoredResidue(table: seq<Row>, s: Settings, fmt: NodeIdFormat, i: nat)
    requires DbptmSites(table, s, fmt).Success? && i < |DbptmSites(table, s, fmt).value.0|
    ensures var window := DbptmSites(table, s, fmt).value.0[i].seqWindow;
      DbptmSites(table, s, fmt).value.1[i].0 == Upper([window[|window| / 2]])
  {
    var rows := RetainedRows(table, s);
    var residues := Residues(rows).value;
    BuiltSitesAt(rows, residues, fmt, |rows|, i);
  }

  /** A failing row makes every longer prefix fail with the same error. */
  lemma BuiltSitesPrefixFailure(rows: seq<Row>, residues: seq<string>, fmt: NodeIdFormat, k: nat, m: nat)
    requires |residues| == |rows| && k <= m <= |rows|
    requires BuiltSites(rows, residues, fmt, k).Failure?
    ensures BuiltSites(rows, residues, fmt, m) == Failure(BuiltSites(rows, residues, fmt, k).error)
  {
    CollectedPrefixFailure(RowConstructions(rows, residues, fmt), k, m);
  }

  /** When the rows before row `k` build and row `k` raises, the loop raises
      row `k`'s error. */
  lemma BuiltSitesFirstFailure(rows: seq<Row>, residues: seq<string>, fmt: NodeIdFormat, k: nat)
    requires |residues| == |rows| && k < |rows|
    requires BuiltSites(rows, residues, fmt, k).Success?
    requires Construction(fmt, SupportedChain, residues[k], rows[k].position).Failure?
    ensures BuiltSites(rows, residues, fmt, |rows|) ==
      Failure(Construction(fmt, SupportedChain, residues[k], rows[k].position).error)
  {
    CollectedFirstFailure(RowConstructions(rows, residues, fmt), k);
  }

  /** The one-letter code `PTMSite` is given for a window: its middle
      character, upper-cased. */
  function MiddleCode(window: string): string
    requires |window| > 0
  {
    Upper([window[|window| / 2]])
  }

  /** When every retained window is non-empty, the rows before row `i` have
      a middle character the table knows and row `i` has one it does not,
      the load raises `KeyError` for row `i`'s code. */
  lemma DbptmUnknownResidue(table: seq<Row>, s: Settings, fmt: NodeIdFormat, i: nat)
    requires i < |RetainedRows(table, s)|
    requires forall j :: 0 <= j < |RetainedRows(table, s)| ==> |RetainedRows(table, s)[j].seqWindow| > 0
    requires forall j :: 0 <= j < i ==> MiddleCode(RetainedRows(table, s)[j].seqWindow) in IUPAC.ProteinLetters1to3
    requires MiddleCode(RetainedRows(table, s)[i].seqWindow) !in IUPAC.ProteinLetters1to3
    ensures DbptmSites(table, s, fmt) == Failure(KeyError(MiddleCode(RetainedRows(table, s)[i].seqWindow)))
  {
    var rows := RetainedRows(table, s);
    var residues := Residues(rows).value;
    forall j | 0 <= j <= i
      ensures NormalisedResidue(SupportedChain, residues[j]) == Success(MiddleCode(rows[j].seqWindow))
    {
      assert residues[j] == [rows[j].seqWindow[|rows[j].seqWindow| / 2]];
    }
    BuiltSitesComplete(rows, residues, fmt, i);
    BuiltSitesFirstFailure(rows, residues, fmt, i);
  }

  // ---- _load_dbptm: what the row pipeline guarantees ---------------------

  /** The retained rows are rows of the table, no more of them than the
      table has, and none is an isoform unless isoforms are included. */
  lemma RetainedFromTable(table: seq<Row>, s: Settings)
    ensures |RetainedRows(table, s)| <= |table|
    ensures forall i :: 0 <= i < |RetainedRows(table, s)| ==> RetainedRows(table, s)[i] in table
    ensures !s.includeIsoforms ==>
      forall i :: 0 <= i < |RetainedRows(table, s)| ==> !IsIsoform(RetainedRows(table, s)[i].accId)
  {
    var selected := SpeciesSelected(table, s.speciesFilter);
    var truncated := Head(selected, s.maxSites);
    var r := RetainedRows(table, s);
    assert forall x :: x in selected ==> x in table;
    assert forall i :: 0 <= i < |truncated| ==> truncated[i] == selected[i];
    assert forall i :: 0 <= i < |r| ==> r[i] in r;
  }

  /** With a species filter set, every retained row has a listed species. */
  lemma RetainedSpecies(table: seq<Row>, s: Settings)
    requires s.speciesFilter.Some?
    ensures forall i :: 0 <= i < |RetainedRows(table, s)| ==>
      Species(RetainedRows(table, s)[i].entryName) in s.speciesFilter.value
  {
    var keep := InSpecies(s.speciesFilter.value);
    var selected := Filter(table, keep);
    var truncated := Head(selected, s.maxSites);
    var r := RetainedRows(table, s);
    assert forall x :: x in truncated ==> x in selected;
    assert forall x :: x in r ==> x in truncated;
    forall i | 0 <= i < |r|
      ensures Species(r[i].entryName) in s.speciesFilter.value
    {
      assert r[i] in r;
      assert keep(r[i]);
    }
  }

  /** The species filter keeps exactly the rows whose species is listed, each
      as often as it occurs. */
  lemma SpeciesFilterExact(table: seq<Row>, filter: seq<string>, row: Row)
    ensures multiset(SpeciesSelected(table, Some(filter)))[row] ==
      if Species(row.entryName) in filter then multiset(table)[row] else 0
  {
    FilterMultiset(table, InSpecies(filter), row);
  }

  /** The species filter keeps the rows in their original order: filtering a
      table split in two filters each part. */
  lemma SpeciesFilterOrder(table: seq<Row>, filter: seq<string>, i: int)
    requires 0 <= i <= |table|
    ensures SpeciesSelected(table, Some(filter)) ==
      SpeciesSelected(table[..i], Some(filter)) + SpeciesSelected(table[i..], Some(filter))
  {
    assert table == table[..i] + table[i..];
    FilterAppend(table[..i], table[i..], InSpecies(filter));
  }

  /** With a non-negative `max_sites`, at most `max_sites` rows survive, and
      every one of them is among the first `max_sites` rows that passed the
      species filter. */
  lemma RetainedWithinMaxSites(table: seq<Row>, s: Settings)
    requires s.maxSites >= 0
    ensures |RetainedRows(table, s)| <= s.maxSites
    ensures multiset(RetainedRows(table, s)) <=
      multiset(SpeciesSelected(table, s.speciesFilter)[..|Head(SpeciesSelected(table, s.speciesFilter), s.maxSites)|])
  {
    var truncated := Head(SpeciesSelected(table, s.speciesFilter), s.maxSites);
    if !s.includeIsoforms {
      forall row | row in multiset(RetainedRows(table, s))
        ensures multiset(RetainedRows(table, s))[row] <= multiset(truncated)[row]
      {
        FilterMultiset(truncated, NotIsoform, row);
      }
    }
  }

  /** Without `include_isoforms`, exactly the isoform rows of the truncated
      table are removed; with it, none is. */
  lemma IsoformRemovalExact(table: seq<Row>, s: Settings, row: Row)
    ensures var truncated := Head(SpeciesSelected(table, s.speciesFilter), s.maxSites);
      multiset(RetainedRows(table, s))[row] ==
        if !s.includeIsoforms && IsIsoform(row.accId) then 0 else multiset(truncated)[row]
  {
    var truncated := Head(SpeciesSelected(table, s.speciesFilter), s.maxSites);
    FilterMultiset(truncated, NotIsoform, row);
  }

  /** Truncation happens before isoform removal: an isoform among the first
      `max_sites` rows uses up a place that a later canonical row does not
      get back. */
  lemma TruncationPrecedesIsoformRemoval(s: Settings)
    requires s.speciesFilter.None? && s.maxSites == 1 && !s.includeIsoforms
    ensures var iso := Row("P1_HUMAN", "P12345-2", 5, "Phosphorylation", "", "AAASAAA");
      var canonical := Row("P2_HUMAN", "P67890", 9, "Phosphorylation", "", "AAASAAA");
      RetainedRows([iso, canonical], s) == []
  {
    var iso := Row("P1_HUMAN", "P12345-2", 5, "Phosphorylation", "", "AAASAAA");
    assert IsIsoform(iso.accId) by {
      assert iso.accId[6] == '-';
    }
  }

  /** The species is read from the text after the last "_" alone. */
  lemma SpeciesOfSuffix(prefix: string, tail: string)
    requires '_' !in tail
    ensures Species(prefix + "_" + tail) == Lower(tail)
  {
    AfterLastSplit(prefix, '_', tail);
  }

  lemma HumanSpecies()
    ensures Species("PROT1_HUMAN") == "human"
  {
    SpeciesOfSuffix("PROT1", "HUMAN");
    assert "PROT1" + "_" + "HUMAN" == "PROT1_HUMAN";
    var lower := Lower("HUMAN");
    assert lower[0] == 'h' && lower[1] == 'u' && lower[2] == 'm' && lower[3] == 'a' && lower[4] == 'n';
  }

  lemma MouseSpecies()
    ensures Species("PROT2_MOUSE") != "human"
  {
    SpeciesOfSuffix("PROT2", "MOUSE");
    assert "PROT2" + "_" + "MOUSE" == "PROT2_MOUSE";
    assert Lower("MOUSE")[0] == 'm';
  }

  /** The species filter `["human"]` keeps a row of "PROT1_HUMAN" and drops
      a row of "PROT2_MOUSE" that follows it. */
  lemma SpeciesFilterExample(human: Row, mouse: Row)
    requires human.entryName == "PROT1_HUMAN" && mouse.entryName == "PROT2_MOUSE"
    ensures SpeciesSelected([human, mouse], Some(["human"])) == [human]
  {
    HumanSpecies();
    MouseSpecies();
    var keep := InSpecies(["human"]);
    assert keep(human) && !keep(mouse);
    assert [human, mouse][..1] == [human];
    assert Filter([human], keep) == [human] by {
      assert [human][..0] == [];
    }
  }

  // ---- _get_af_filename and _load_alphafold ------------------------------

  /** `_get_af_filename`: "AF-{acc_id}-F1-model_v{version}.{extension}" when
      fragments are ignored; the fragment-aware case is not implemented. */
  function AfFilename(s: Settings, accId: string): (r: Result<string>)
    ensures r.Success? <==> s.afIgnoreFragments
    ensures r.Failure? ==>
      r.error == NotImplementedError("Multiple fragments for AF structure not implemented.")
    ensures r.Success? ==> r.value == "AF-" + accId + AfSuffix(s)
  {
    if s.afIgnoreFragments then
      var fragment := 1;
      Success("AF-" + accId + "-F" + DecimalString(fragment) + "-model_v"
              + DecimalString(s.afModelVersion) + "." + s.afFileExtension)
    else
      Failure(NotImplementedError("Multiple fragments for AF structure not implemented."))
  }

  /** What follows the accession in every file name of these settings. */
  function AfSuffix(s: Settings): string {
    "-F1-model_v" + DecimalString(s.afModelVersion) + "." + s.afFileExtension
  }

  /** Reads the accession back out of a structure file name. */
  function AccessionOf(s: Settings, name: string): string
    requires |name| >= 3 + |AfSuffix(s)|
  {
    name[3..|name| - |AfSuffix(s)|]
  }

  /** The file name determines the accession it was built from, so two
      accessions never share a structure file. */
  lemma AfFilenameRoundTrip(s: Settings, accId: string)
    requires s.afIgnoreFragments
    ensures |AfFilename(s, accId).value| >= 3 + |AfSuffix(s)|
    ensures AccessionOf(s, AfFilename(s, accId).value) == accId
  {
    var name := AfFilename(s, accId).value;
    assert name == "AF-" + accId + AfSuffix(s);
    assert name[3..|name| - |AfSuffix(s)|] == accId;
  }

  /** `alphafold_structure_dir / filename` */
  function JoinPath(dir: string, name: string): string {
    dir + "/" + name
  }

  /** Does the structure file of this accession exist? */
  predicate HasStructure(dir: string, s: Settings, existing: set<string>, accId: string) {
    AfFilename(s, accId).Success? && JoinPath(dir, AfFilename(s, accId).value) in existing
  }

  /** The sites `_load_structures` records as failed. */
  function MissingStructure(dir: string, s: Settings, existing: set<string>): PTMSite -> bool {
    (site: PTMSite) => !HasStructure(dir, s, existing, site.accId)
  }

  /** `_load_alphafold`: the motif of a site whose structure file exists;
      `FileNotFoundError` when it does not. */
  function LoadAlphafold(dir: string, s: Settings, existing: set<string>, site: PTMSite)
    : (r: Result<Motif>)
    ensures r.Success? <==> HasStructure(dir, s, existing, site.accId)
    ensures r.Success? ==> r.value.site == site && r.value.radius == s.radius
    ensures r.Success? ==> r.value.structurePath == JoinPath(dir, AfFilename(s, site.accId).value)
    ensures r.Failure? && s.afIgnoreFragments ==> r.error.FileNotFoundError?
    ensures !s.afIgnoreFragments ==> r == Failure(AfFilename(s, site.accId).error)
  {
    var name :- AfFilename(s, site.accId);
    var path := JoinPath(dir, name);
    if path !in existing then
      Failure(FileNotFoundError("Alphafold structure not found for " + site.accId + " at " + path))
    else
      Success(StructuralMotif(site, path, s.radius))
  }

  /** `_load_alphafold` as written: `StructuralMotif.__init__` takes only a
      graph `g`, so the keyword call with `site`, `structure_path` and
      `radius` raises `TypeError` whenever the structure file is found. */
  function LoadAlphafoldAsWritten(dir: string, s: Settings, existing: set<string>, site: PTMSite)
    : (r: Result<Motif>)
    ensures r.Failure?
    ensures HasStructure(dir, s, existing, site.accId) ==> r.error.TypeError?
    ensures !HasStructure(dir, s, existing, site.accId) ==> r == LoadAlphafold(dir, s, existing, site)
  {
    var name :- AfFilename(s, site.accId);
    var path := JoinPath(dir, name);
    if path !in existing then
      Failure(FileNotFoundError("Alphafold structure not found for " + site.accId + " at " + path))
    else
      Failure(TypeError("StructuralMotif.__init__() got an unexpected keyword argument 'site'"))
  }

  /** As written, a site whose structure file exists raises an error that
      `_load_structures` does not catch, so the whole load fails on it; the
      intended loader returns its motif. */
  lemma FoundStructureRaises(dir: string, s: Settings, existing: set<string>, site: PTMSite)
    requires HasStructure(dir, s, existing, site.accId)
    ensures !LoadAlphafoldAsWritten(dir, s, existing, site).error.FileNotFoundError?
    ensures LoadAlphafold(dir, s, existing, site).Success?
  {
  }

  /** The key a motif is stored under: "{entry_name}-{node_id}". */
  function MotifKey(entryName: string, nodeId: string): string {
    entryName + "-" + nodeId
  }

  /** The key is the entry name, a dash and the node identifier, so the
      entry name and the identifier can be read back from it. */
  lemma MotifKeyParts(entryName: string, nodeId: string)
    ensures var key := MotifKey(entryName, nodeId);
      && |key| == |entryName| + 1 + |nodeId|
      && key[..|entryName|] == entryName && key[|entryName|] == '-'
      && key[|entryName| + 1..] == nodeId
  {
  }

  // ---- _load_structures ---------------------------------------------------

  /** The `node_id` property, as a function of the site. */
  type SiteIds = PTMSite -> Result<string>

  /** `site.node_id` with `NODE_ID_STR` formatting as `fmt`. */
  function NodeIdProperty(fmt: NodeIdFormat): SiteIds {
    (site: PTMSite) => site.CurrentNodeId(fmt)
  }

  /** What `_load_structures` computes over `sites`, visited in order: the
      motif dict (a later site with the same key overwrites an earlier one)
      and the list of sites whose structure file is missing. Only
      `FileNotFoundError` is caught; any other error ends the loop. */
  function Resolve(nodeId: SiteIds, sites: seq<PTMSite>, dir: string, s: Settings, existing: set<string>)
    : Result<(map<string, Motif>, seq<PTMSite>)>
  {
    if sites == [] then Success((map[], []))
    else
      var acc :- Resolve(nodeId, sites[..|sites| - 1], dir, s, existing);
      var site := sites[|sites| - 1];
      var loaded := LoadAlphafold(dir, s, existing, site);
      if loaded.Failure? && loaded.error.FileNotFoundError? then
        Success((acc.0, acc.1 + [site]))
      else
        var motif :- loaded;
        var id :- nodeId(site);
        Success((acc.0[MotifKey(site.entryName, id) := motif], acc.1))
  }

  /** The failed sites are sites of the input, no more of them than there
      are sites. */
  lemma {:induction false} ResolveFailedAmongSites(nodeId: SiteIds, sites: seq<PTMSite>, dir: string, s: Settings,
                                                   existing: set<string>)
    requires Resolve(nodeId, sites, dir, s, existing).Success?
    ensures var failed := Resolve(nodeId, sites, dir, s, existing).value.1;
      |failed| <= |sites| && forall i :: 0 <= i < |failed| ==> failed[i] in sites
  {
    if sites != [] {
      var rest := sites[..|sites| - 1];
      ResolveFailedAmongSites(nodeId, rest, dir, s, existing);
      assert forall i :: 0 <= i < |rest| ==> rest[i] == sites[i];
    }
  }

  /** One more site visited: a missing structure file appends the site to
      the failed sites, a loaded motif is stored under the site's key. */
  lemma ResolveStep(nodeId: SiteIds, sites: seq<PTMSite>, dir: string, s: Settings, existing: set<string>,
                    i: nat, acc: (map<string, Motif>, seq<PTMSite>))
    requires i < |sites| && Resolve(nodeId, sites[..i], dir, s, existing) == Success(acc)
    ensures var loaded := LoadAlphafold(dir, s, existing, sites[i]);
      loaded.Failure? && loaded.error.FileNotFoundError? ==>
        Resolve(nodeId, sites[..i + 1], dir, s, existing) == Success((acc.0, acc.1 + [sites[i]]))
    ensures var loaded := LoadAlphafold(dir, s, existing, sites[i]);
      loaded.Success? && nodeId(sites[i]).Success? ==>
        Resolve(nodeId, sites[..i + 1], dir, s, existing) ==
          Success((acc.0[MotifKey(sites[i].entryName, nodeId(sites[i]).value) := loaded.value], acc.1))
    ensures var loaded := LoadAlphafold(dir, s, existing, sites[i]);
      loaded.Failure? && !loaded.error.FileNotFoundError? ==>
        Resolve(nodeId, sites[..i + 1], dir, s, existing) == Failure(loaded.error)
    ensures var loaded := LoadAlphafold(dir, s, existing, sites[i]);
      loaded.Success? && nodeId(sites[i]).Failure? ==>
        Resolve(nodeId, sites[..i + 1], dir, s, existing) == Failure(nodeId(sites[i]).error)
  {
    assert sites[..i + 1][..i] == sites[..i];
  }

  /** Every site's node identifier can be computed (true of valid sites). */
  predicate AllIdentified(nodeId: SiteIds, sites: seq<PTMSite>) {
    forall i :: 0 <= i < |sites| ==> nodeId(sites[i]).Success?
  }

  function SiteKey(nodeId: SiteIds, site: PTMSite): string
    requires nodeId(site).Success?
  {
    MotifKey(site.entryName, nodeId(site).value)
  }

  /** Site `i` has its structure file and no later site with a structure
      file shares its key. */
  predicate LastWithKey(nodeId: SiteIds, sites: seq<PTMSite>, dir: string, s: Settings, existing: set<string>, i: int)
    requires AllIdentified(nodeId, sites)
  {
    && 0 <= i < |sites|
    && HasStructure(dir, s, existing, sites[i].accId)
    && forall j :: i < j < |sites| && HasStructure(dir, s, existing, sites[j].accId) ==>
         SiteKey(nodeId, sites[j]) != SiteKey(nodeId, sites[i])
  }

  /** The loop completes exactly when fragments are ignored or there is no
      site; otherwise the `NotImplementedError` of the first site escapes. */
  lemma {:induction false} ResolveCompletes(nodeId: SiteIds, sites: seq<PTMSite>, dir: string, s: Settings, existing: set<string>)
    requires AllIdentified(nodeId, sites)
    ensures Resolve(nodeId, sites, dir, s, existing).Success? <==> s.afIgnoreFragments || sites == []
    ensures Resolve(nodeId, sites, dir, s, existing).Failure? ==>
      Resolve(nodeId, sites, dir, s, existing).error ==
        NotImplementedError("Multiple fragments for AF structure not implemented.")
  {
    if sites != [] {
      var init := sites[..|sites| - 1];
      assert AllIdentified(nodeId, init) by {
        forall i | 0 <= i < |init| ensures nodeId(init[i]).Success? {
          assert init[i] == sites[i];
        }
      }
      ResolveCompletes(nodeId, init, dir, s, existing);
    }
  }

  /** The failed sites are exactly the sites whose structure file is
      missing, in their original order. */
  lemma {:induction false} ResolveFailedSites(nodeId: SiteIds, sites: seq<PTMSite>, dir: string, s: Settings, existing: set<string>)
    requires Resolve(nodeId, sites, dir, s, existing).Success?
    requires s.afIgnoreFragments
    ensures Resolve(nodeId, sites, dir, s, existing).value.1 ==
      Filter(sites, MissingStructure(dir, s, existing))
  {
    if sites != [] {
      ResolveFailedSites(nodeId, sites[..|sites| - 1], dir, s, existing);
    }
  }

  /** A motif is stored under a key exactly when some site with that key has
      its structure file. */
  lemma {:induction false} ResolveMotifKeys(nodeId: SiteIds, sites: seq<PTMSite>, dir: string, s: Settings, existing: set<string>)
    requires AllIdentified(nodeId, sites)
    requires Resolve(nodeId, sites, dir, s, existing).Success?
    ensures forall k :: k in Resolve(nodeId, sites, dir, s, existing).value.0 <==>
      exists i :: 0 <= i < |sites| && HasStructure(dir, s, existing, sites[i].accId) && SiteKey(nodeId, sites[i]) == k
  {
    if sites != [] {
      var n := |sites| - 1;
      var init := sites[..n];
      assert forall i :: 0 <= i < n ==> init[i] == sites[i];
      ResolveMotifKeys(nodeId, init, dir, s, existing);
      var m0 := Resolve(nodeId, init, dir, s, existing).value.0;
      var m := Resolve(nodeId, sites, dir, s, existing).value.0;
      forall k | k in m
        ensures exists i :: 0 <= i < |sites| && HasStructure(dir, s, existing, sites[i].accId) && SiteKey(nodeId, sites[i]) == k
      {
        if k !in m0 {
          assert HasStructure(dir, s, existing, sites[n].accId) && SiteKey(nodeId, sites[n]) == k;
        }
      }
    }
  }

  /** The motif stored under a key is that of the last site with that key
      whose structure file exists: later sites overwrite earlier ones. */
  lemma {:induction false} ResolveLastWins(nodeId: SiteIds, sites: seq<PTMSite>, dir: string, s: Settings, existing: set<string>, i: int)
    requires AllIdentified(nodeId, sites)
    requires Resolve(nodeId, sites, dir, s, existing).Success?
    requires LastWithKey(nodeId, sites, dir, s, existing, i)
    ensures SiteKey(nodeId, sites[i]) in Resolve(nodeId, sites, dir, s, existing).value.0
    ensures Resolve(nodeId, sites, dir, s, existing).value.0[SiteKey(nodeId, sites[i])] ==
      LoadAlphafold(dir, s, existing, sites[i]).value
  {
    var n := |sites| - 1;
    if i < n {
      var init := sites[..n];
      assert forall j :: 0 <= j < n ==> init[j] == sites[j];
      assert LastWithKey(nodeId, init, dir, s, existing, i);
      ResolveLastWins(nodeId, init, dir, s, existing, i);
    }
  }

  /** The batch with structures for A and C but not for B: motifs for A and
      C, B in the failed list, and no error. */
  lemma MissingStructureExample(nodeId: SiteIds, dir: string, s: Settings, existing: set<string>, a: PTMSite, b: PTMSite, c: PTMSite)
    requires s.afIgnoreFragments
    requires nodeId(a).Success? && nodeId(c).Success?
    requires HasStructure(dir, s, existing, a.accId) && HasStructure(dir, s, existing, c.accId)
    requires !HasStructure(dir, s, existing, b.accId)
    ensures Resolve(nodeId, [a, b, c], dir, s, existing).Success?
    ensures Resolve(nodeId, [a, b, c], dir, s, existing).value.1 == [b]
    ensures Resolve(nodeId, [a, b, c], dir, s, existing).value.0.Keys == {SiteKey(nodeId, a), SiteKey(nodeId, c)}
  {
    var ma := LoadAlphafold(dir, s, existing, a).value;
    var mc := LoadAlphafold(dir, s, existing, c).value;
    assert [a, b, c][..2] == [a, b];
    assert [a, b][..1] == [a];
    assert [a][..0] == [];
    assert Resolve(nodeId, [a], dir, s, existing) == Success((map[SiteKey(nodeId, a) := ma], []));
    assert LoadAlphafold(dir, s, existing, b).error.FileNotFoundError?;
    assert [] + [b] == [b];
    assert Resolve(nodeId, [a, b], dir, s, existing) == Success((map[SiteKey(nodeId, a) := ma], [b]));
    assert Resolve(nodeId, [a, b, c], dir, s, existing) ==
      Success((map[SiteKey(nodeId, a) := ma][SiteKey(nodeId, c) := mc], [b]));
  }

  /** An unrecoverable error at site `k` ends the whole loop with it. */
  lemma {:induction false} ResolvePrefixFailure(nodeId: SiteIds, sites: seq<PTMSite>, dir: string, s: Settings,
                                               existing: set<string>, k: nat)
    requires k <= |sites|
    requires Resolve(nodeId, sites[..k], dir, s, existing).Failure?
    ensures Resolve(nodeId, sites, dir, s, existing) == Failure(Resolve(nodeId, sites[..k], dir, s, existing).error)
  {
    if k < |sites| {
      var n := |sites| - 1;
      assert sites[..n][..k] == sites[..k];
      ResolvePrefixFailure(nodeId, sites[..n], dir, s, existing, k);
    } else {
      assert sites[..k] == sites;
    }
  }

  /** `site` is the `PTMSite` that `row` gives: it holds the row's names,
      position and type, chain "A", and the stored residue `residue`. */
  predicate SiteFromRow(site: PTMSite, row: Row, residue: string) {
    && site.entryName == row.entryName
    && site.accId == row.accId
    && site.position == row.position
    && site.ptmType == row.modType
    && site.WellFormed()
    && site.residue == residue
  }

  /** `sites` are the sites the first `|sites|` rows give, one per row and
      in row order, with the stored residues of `built`. */
  predicate SitesFromRows(sites: seq<PTMSite>, rows: seq<Row>, built: seq<(string, string)>)
    decreases |sites|
  {
    && |sites| == |built| <= |rows|
    && (sites != [] ==>
      && SitesFromRows(sites[..|sites| - 1], rows, built[..|built| - 1])
      && SiteFromRow(sites[|sites| - 1], rows[|sites| - 1], built[|sites| - 1].0))
  }

  /** The site of the next row extends the sites of the rows before it. */
  lemma SitesFromRowsSnoc(sites: seq<PTMSite>, rows: seq<Row>, built: seq<(string, string)>,
                          site: PTMSite, pair: (string, string))
    requires SitesFromRows(sites, rows, built) && |sites| < |rows|
    requires SiteFromRow(site, rows[|sites|], pair.0)
    ensures SitesFromRows(sites + [site], rows, built + [pair])
  {
    var longer, extended := sites + [site], built + [pair];
    assert longer[..|longer| - 1] == sites && longer[|longer| - 1] == site;
    assert extended[..|extended| - 1] == built && extended[|extended| - 1] == pair;
  }

  /** One turn of the row loop of `_load_dbptm`: the next row's construction
      extends both the pairs built and the sites made. */
  lemma NewSitesStep(rows: seq<Row>, residues: seq<string>, fmt: NodeIdFormat,
                     sites: seq<PTMSite>, built: seq<(string, string)>, site: PTMSite)
    requires |residues| == |rows| && |sites| < |rows|
    requires BuiltSites(rows, residues, fmt, |sites|) == Success(built) && SitesFromRows(sites, rows, built)
    requires Construction(fmt, SupportedChain, residues[|sites|], rows[|sites|].position).Success?
    requires SiteFromRow(site, rows[|sites|], Construction(fmt, SupportedChain, residues[|sites|], rows[|sites|].position).value.0)
    ensures BuiltSites(rows, residues, fmt, |sites| + 1) ==
      Success(built + [Construction(fmt, SupportedChain, residues[|sites|], rows[|sites|].position).value])
    ensures SitesFromRows(sites + [site], rows, built + [Construction(fmt, SupportedChain, residues[|sites|], rows[|sites|].position).value])
  {
    BuiltSitesSnoc(rows, residues, fmt, |sites|, built);
    SitesFromRowsSnoc(sites, rows, built, site, Construction(fmt, SupportedChain, residues[|sites|], rows[|sites|].position).value);
  }

  /** Each of `sites` is the site its row gives. */
  lemma {:induction false} SitesFromRowsAt(sites: seq<PTMSite>, rows: seq<Row>, built: seq<(string, string)>, i: nat)
    requires SitesFromRows(sites, rows, built) && i < |sites|
    ensures SiteFromRow(sites[i], rows[i], built[i].0)
  {
    if i < |sites| - 1 {
      SitesFromRowsAt(sites[..|sites| - 1], rows, built[..|built| - 1], i);
    }
  }

  /** The sites the rows give are all well-formed. */
  lemma SitesFromRowsWellFormed(sites: seq<PTMSite>, rows: seq<Row>, built: seq<(string, string)>)
    requires SitesFromRows(sites, rows, built)
    ensures forall i :: 0 <= i < |sites| ==> sites[i].WellFormed()
  {
    forall i | 0 <= i < |sites| ensures sites[i].WellFormed() {
      SitesFromRowsAt(sites, rows, built, i);
    }
  }

  /** Appending well-formed sites to well-formed sites keeps them all so. */
  lemma AppendWellFormed(before: seq<PTMSite>, added: seq<PTMSite>)
    requires forall i :: 0 <= i < |before| ==> before[i].WellFormed()
    requires forall i :: 0 <= i < |added| ==> added[i].WellFormed()
    ensures forall i :: 0 <= i < |before + added| ==> (before + added)[i].WellFormed()
  {
    forall i | 0 <= i < |before + added| ensures (before + added)[i].WellFormed() {
      if i >= |before| {
        assert (before + added)[i] == added[i - |before|];
      }
    }
  }

  /** `rows` and `sites` are what `_load_dbptm` makes of `table`: the
      retained rows, and one site per row in row order. */
  predicate TableSites(table: seq<Row>, s: Settings, fmt: NodeIdFormat, rows: seq<Row>, sites: seq<PTMSite>) {
    && DbptmSites(table, s, fmt).Success?
    && rows == DbptmSites(table, s, fmt).value.0
    && |sites| == |rows|
    && SitesFromRows(sites, rows, DbptmSites(table, s, fmt).value.1)
  }

  /** The sites of a table are well-formed, so appending them to well-formed
      sites keeps every site well-formed. */
  lemma TableSitesWellFormed(table: seq<Row>, s: Settings, fmt: NodeIdFormat, rows: seq<Row>,
                             before: seq<PTMSite>, added: seq<PTMSite>)
    requires TableSites(table, s, fmt, rows, added)
    requires forall i :: 0 <= i < |before| ==> before[i].WellFormed()
    ensures forall i :: 0 <= i < |before + added| ==> (before + added)[i].WellFormed()
  {
    SitesFromRowsWellFormed(added, rows, DbptmSites(table, s, fmt).value.1);
    AppendWellFormed(before, added);
  }

  /** The node identifier of every well-formed site can be computed. */
  lemma WellFormedIdentified(sites: seq<PTMSite>, fmt: NodeIdFormat)
    requires forall i :: 0 <= i < |sites| ==> sites[i].WellFormed()
    ensures AllIdentified(NodeIdProperty(fmt), sites)
  {
    forall i | 0 <= i < |sites| ensures NodeIdProperty(fmt)(sites[i]).Success? {
      var site := sites[i];
      assert Upper(Upper(site.residue)) == site.residue;
    }
  }

  /** A motif analysis session. */
  class MotifAnalysis {
    const settings: Settings
    const fmt: NodeIdFormat
    const alphafoldStructureDir: string
    var datasetPath: Option<string>
    var dataset: seq<Row>
    var sites: seq<PTMSite>
    var motifs: map<string, Motif>
    var failedSites: seq<PTMSite>

    /** Every site holds what a successful `PTMSite` constructor leaves. */
    predicate Valid()
      reads this
    {
      forall i :: 0 <= i < |sites| ==> sites[i].WellFormed()
    }

    /** The field assignments of `__init__`, before any loading. `dataset`,
        `motifs` and `failedSites` are not assigned by `__init__` itself:
        they first appear in `_load_dbptm` and `_load_structures`, and start
        empty here only because every Dafny field needs a value. */
    constructor Init(settings: Settings, fmt: NodeIdFormat)
      ensures this.settings == settings && this.fmt == fmt
      ensures alphafoldStructureDir ==
        if settings.alphafoldStructureDir.Some? then settings.alphafoldStructureDir.value
        else settings.structurePath
      ensures datasetPath == settings.datasetPath
      ensures dataset == [] && sites == [] && motifs == map[] && failedSites == []
      ensures Valid()
    {
      this.settings := settings;
      this.fmt := fmt;
      alphafoldStructureDir :=
        if settings.alphafoldStructureDir.Some? then settings.alphafoldStructureDir.value
        else settings.structurePath;
      datasetPath := settings.datasetPath;
      dataset := [];
      sites := [];
      motifs := map[];
      failedSites := [];
    }

    /** The row loop of `_load_dbptm`: one new valid site per row, in row
        order, or the error of the first row whose site cannot be built. */
    static method NewSites(rows: seq<Row>, res: seq<string>, fmt: NodeIdFormat)
      returns (r: Result<seq<PTMSite>>)
      requires |res| == |rows|
      ensures r.Success? <==> BuiltSites(rows, res, fmt, |rows|).Success?
      ensures r.Failure? ==> r.error == BuiltSites(rows, res, fmt, |rows|).error
      ensures r.Success? ==> |r.value| == |rows|
      ensures r.Success? ==> SitesFromRows(r.value, rows, BuiltSites(rows, res, fmt, |rows|).value)
      ensures r.Success? ==> forall i :: 0 <= i < |r.value| ==> fresh(r.value[i])
    {
      var made: seq<PTMSite> := [];
      ghost var built: seq<(string, string)> := [];
      var i := 0;
      while i < |rows|
        invariant 0 <= i <= |rows| && |made| == i
        invariant BuiltSites(rows, res, fmt, i) == Success(built)
        invariant SitesFromRows(made, rows, built)
        invariant forall k :: 0 <= k < i ==> fresh(made[k])
      {
        var row := rows[i];
        var created := PTMSite.Create(row.entryName, row.accId, res[i], row.position, row.modType,
                                      SupportedChain, fmt);
        if created.Failure? {
          BuiltSitesPrefixFailure(rows, res, fmt, i + 1, |rows|);
          return Failure(created.error);
        }
        var site := created.value;
        ghost var pair := Construction(fmt, SupportedChain, res[i], row.position).value;
        NewSitesStep(rows, res, fmt, made, built, site);
        made := made + [site];
        built := built + [pair];
        i := i + 1;
      }
      return Success(made);
    }

    /** The reading half of `_load_dbptm`: the retained rows and one new
        site per row, or the error raised. */
    static method ReadDbptm(table: seq<Row>, settings: Settings, fmt: NodeIdFormat)
      returns (r: Result<(seq<Row>, seq<PTMSite>)>)
      ensures r.Success? <==> DbptmSites(table, settings, fmt).Success?
      ensures r.Failure? ==> r.error == DbptmSites(table, settings, fmt).error
      ensures r.Success? ==> TableSites(table, settings, fmt, r.value.0, r.value.1)
      ensures r.Success? ==> forall i :: 0 <= i < |r.value.1| ==> fresh(r.value.1[i])
    {
      var rows := RetainedRows(table, settings);
      var residues := Residues(rows);
      if residues.Failure? {
        return Failure(residues.error);
      }
      var made := NewSites(rows, residues.value, fmt);
      if made.Failure? {
        return Failure(made.error);
      }
      return Success((rows, made.value));
    }

    /** `_load_dbptm`, given the parsed table: appends one new site per
        retained row, in row order, and records the retained rows; or
        raises the error of the first row that fails. */
    method LoadDbptm(table: seq<Row>) returns (r: Result<()>, ghost added: seq<PTMSite>)
      requires Valid()
      modifies this
      ensures Valid()
      ensures datasetPath == if old(datasetPath).None? then settings.dbptmPath else old(datasetPath)
      ensures motifs == old(motifs) && failedSites == old(failedSites)
      ensures r.Success? <==> DbptmSites(table, settings, fmt).Success?
      ensures r.Failure? ==>
        r.error == DbptmSites(table, settings, fmt).error && sites == old(sites) && dataset == old(dataset)
      ensures r.Success? ==> TableSites(table, settings, fmt, dataset, added) && sites == old(sites) + added
      ensures r.Success? ==> forall i :: 0 <= i < |added| ==> fresh(added[i])
    {
      added := [];
      if datasetPath.None? {
        datasetPath := settings.dbptmPath;
      }
      var read := ReadDbptm(table, settings, fmt);
      if read.Failure? {
        return Failure(read.error), added;
      }
      var (rows, made) := read.value;
      TableSitesWellFormed(table, settings, fmt, rows, sites, made);
      sites := sites + made;
      dataset := rows;
      return Success(()), made;
    }

    /** The site loop of `_load_structures`: visits the sites in order and
        returns the motif dict and the failed sites, or the first error
        other than a missing file. Reading each site's `node_id` stores it
        in the site. */
    static method ResolveSites(all: seq<PTMSite>, dir: string, settings: Settings,
                               existing: set<string>, fmt: NodeIdFormat)
      returns (r: Result<(map<string, Motif>, seq<PTMSite>)>)
      modifies all
      ensures r == Resolve(NodeIdProperty(fmt), all, dir, settings, existing)
      ensures forall k :: 0 <= k < |all| ==>
        all[k].cachedNodeId == old(all[k].cachedNodeId) || all[k].CurrentNodeId(fmt) == Success(all[k].cachedNodeId)
    {
      ghost var ids := NodeIdProperty(fmt);
      var found: map<string, Motif> := map[];
      var failed: seq<PTMSite> := [];
      var i := 0;
      while i < |all|
        invariant 0 <= i <= |all|
        invariant Resolve(ids, all[..i], dir, settings, existing) == Success((found, failed))
        invariant forall k :: 0 <= k < |all| ==>
          all[k].cachedNodeId == old(all[k].cachedNodeId) || all[k].CurrentNodeId(fmt) == Success(all[k].cachedNodeId)
      {
        var site := all[i];
        ResolveStep(ids, all, dir, settings, existing, i, (found, failed));
        var loaded := LoadAlphafold(dir, settings, existing, site);
        if loaded.Failure? {
          if !loaded.error.FileNotFoundError? {
            ResolvePrefixFailure(ids, all, dir, settings, existing, i + 1);
            return Failure(loaded.error);
          }
          failed := failed + [site];
        } else {
          var nodeId := site.NodeId(fmt);
          if nodeId.Failure? {
            ResolvePrefixFailure(ids, all, dir, settings, existing, i + 1);
            return Failure(nodeId.error);
          }
          found := found[MotifKey(site.entryName, nodeId.value) := loaded.value];
        }
        i := i + 1;
      }
      assert all[..i] == all;
      return Success((found, failed));
    }

    /** `_load_structures`: resolves every site in order, then stores the
        motif dict and the failed sites; an error other than a missing file
        escapes and leaves both unassigned. */
    method LoadStructures(existing: set<string>) returns (r: Result<()>)
      requires Valid()
      modifies this, sites
      ensures Valid()
      ensures sites == old(sites) && dataset == old(dataset) && datasetPath == old(datasetPath)
      ensures forall k :: 0 <= k < |sites| ==>
        sites[k].cachedNodeId == old(sites[k].cachedNodeId) || sites[k].CurrentNodeId(fmt) == Success(sites[k].cachedNodeId)
      ensures forall k :: 0 <= k < |sites| && old(sites[k].Valid(fmt)) ==>
        sites[k].Valid(fmt) && sites[k].cachedNodeId == old(sites[k].cachedNodeId)
      ensures r.Success? <==> Resolve(NodeIdProperty(fmt), sites, alphafoldStructureDir, settings, existing).Success?
      ensures r.Success? ==>
        (motifs, failedSites) == Resolve(NodeIdProperty(fmt), sites, alphafoldStructureDir, settings, existing).value
      ensures r.Failure? ==>
        && r.error == Resolve(NodeIdProperty(fmt), sites, alphafoldStructureDir, settings, existing).error
        && motifs == old(motifs) && failedSites == old(failedSites)
    {
      var resolved := ResolveSites(sites, alphafoldStructureDir, settings, existing, fmt);
      if resolved.Failure? {
        return Failure(resolved.error);
      }
      motifs := resolved.value.0;
      failedSites := resolved.value.1;
      return Success(());
    }

    /** The loading half of `__init__` for the "dbptm" dataset: the sites of
        the table, then their structures. */
    method Load(table: seq<Row>, existing: set<string>) returns (r: Result<()>)
      requires Valid() && sites == []
      modifies this
      ensures Valid()
      ensures r.Success? <==>
        && DbptmSites(table, settings, fmt).Success?
        && (settings.afIgnoreFragments || RetainedRows(table, settings) == [])
      ensures DbptmSites(table, settings, fmt).Failure? ==>
        r == Failure(DbptmSites(table, settings, fmt).error)
      ensures DbptmSites(table, settings, fmt).Success? && r.Failure? ==>
        r.error == NotImplementedError("Multiple fragments for AF structure not implemented.")
      ensures datasetPath == if old(datasetPath).None? then settings.dbptmPath else old(datasetPath)
      ensures r.Failure? ==> motifs == old(motifs) && failedSites == old(failedSites)
      ensures r.Success? ==> TableSites(table, settings, fmt, dataset, sites)
      ensures r.Success? ==>
        Resolve(NodeIdProperty(fmt), sites, alphafoldStructureDir, settings, existing) == Success((motifs, failedSites))
    {
      var loaded, added := LoadDbptm(table);
      if loaded.Failure? {
        return Failure(loaded.error);
      }
      assert sites == added;
      WellFormedIdentified(sites, fmt);
      ResolveCompletes(NodeIdProperty(fmt), sites, alphafoldStructureDir, settings, existing);
      r := LoadStructures(existing);
    }

    /** `MotifAnalysis(config)`: copies the settings, refuses any dataset
        name but exactly "dbptm" (the configuration default "dbPTM"
        included), loads the sites, then the structures. */
    static method Create(settings: Settings, table: seq<Row>, existing: set<string>, fmt: NodeIdFormat)
      returns (r: Result<MotifAnalysis>)
      ensures settings.useDataset != "dbptm" ==>
        r == Failure(ValueError("Invalid dataset: " + settings.useDataset))
      ensures settings.useDataset == "dbptm" && DbptmSites(table, settings, fmt).Failure? ==>
        r == Failure(DbptmSites(table, settings, fmt).error)
      ensures settings.useDataset == "dbptm" && DbptmSites(table, settings, fmt).Success? && r.Failure? ==>
        r.error == NotImplementedError("Multiple fragments for AF structure not implemented.")
      ensures r.Success? <==>
        && settings.useDataset == "dbptm"
        && DbptmSites(table, settings, fmt).Success?
        && (settings.afIgnoreFragments || RetainedRows(table, settings) == [])
      ensures r.Success? ==>
        var a := r.value;
        && fresh(a) && a.Valid() && a.settings == settings && a.fmt == fmt
        && a.alphafoldStructureDir ==
          (if settings.alphafoldStructureDir.Some? then settings.alphafoldStructureDir.value
           else settings.structurePath)
        && a.datasetPath == (if settings.datasetPath.None? then settings.dbptmPath else settings.datasetPath)
        && TableSites(table, settings, fmt, a.dataset, a.sites)
        && Resolve(NodeIdProperty(fmt), a.sites, a.alphafoldStructureDir, settings, existing) == Success((a.motifs, a.failedSites))
    {
      var a := new MotifAnalysis.Init(settings, fmt);
      if settings.useDataset != "dbptm" {
        return Failure(ValueError("Invalid dataset: " + settings.useDataset));
      }
      var loaded := a.Load(table, existing);
      if loaded.Failure? {
        return Failure(loaded.error);
      }
      return Success(a);
    }
  }
}
