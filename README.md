# kimono: PTM sites, residue tables and the motif-analysis loader

A Dafny model of the core of kimono, a Python package for the structural
analysis of post-translational modification (PTM) sites.

The core models these parts:

- **Residue tables.** The IUPAC amino-acid tables map one-letter codes to
  three-letter names ("S" to "Ser") and back. There is also an extended
  variant with six extra codes.
- **`get_node_id_string`.** It turns a chain, a residue code and a position
  into the key of a residue node in a structure graph.
- **`PTMSite`.** A modification site. Its constructor normalises the residue
  to a one-letter code and refuses any chain other than "A". Its `node_id`
  property recomputes the node key and caches it in `_node_id`.
- **`MotifAnalysis`.** The session object. Its constructor accepts only the
  dataset name "dbptm". `_load_dbptm` turns the dbPTM table into sites:
  - it derives a species column from the entry name and filters on it;
  - it keeps the first `max_sites` rows;
  - it drops isoform accessions;
  - it takes the middle character of the sequence window as the residue;
  - it builds one `PTMSite` per row.

  `_load_structures` then looks up each site's AlphaFold file (`_load_alphafold`,
  `_get_af_filename`). It stores a motif per site under
  "{entry_name}-{node_id}", and lists the sites whose file is missing.

Modules:

| file | module | what it holds |
|---|---|---|
| errors.dfy | `Errors` | the Python exceptions raised, and `Result` |
| text.dfy | `Text` | `upper`, `lower`, `capitalize`, `split("_")[-1]`, `str(int)` |
| tables.dfy | `Tables` | pandas `df[mask]` and `df.head(n)` on a sequence of rows |
| iupac.dfy | `IUPAC` | the four tables, built from their items as Python builds a dict |
| utils.dfy | `Utils` | `get_node_id_string` |
| ptm.dfy | `Ptm` | `PTMSite`, as a class whose only mutable field is `_node_id` |
| analysis.dfy | `Analysis` | the dbPTM pipeline, the structure loop and `MotifAnalysis` |

How the Python is rendered:

- **Exceptions.** Raising functions return `Result`, which carries either the
  value or the exception, with its message.
- **Constructors that raise.** `PTMSite(...)` and `MotifAnalysis(config)`
  become static `Create` methods that return either a fresh object or the
  error.
- **Pure functions and their methods.** Each imperative loop is a method with
  loop invariants. The loops are the row loop of `_load_dbptm` and the site
  loop of `_load_structures`. Each method is proved equal to a recursive
  function: `BuiltSites` (the rows' constructions gathered by `Collected`) and `DbptmSites` for the row loop, `Resolve` for the
  site loop. The properties are lemmas about those functions.
- **`NODE_ID_STR`.** The template comes from kimono/utils/definitions.py,
  which is not part of this model. Its `format` call is therefore a
  parameter `fmt` of every member that computes a node identifier.
  - Nothing is assumed about `fmt`.
  - So nothing is claimed about the text of an identifier.
  - Claims are limited to which arguments reach `fmt`.
- **Naming.** `Ptm.PTMSite.Init` is the Dafny constructor. It only assigns
  fields.
- **Structure loading uses the corrected loader.** `Resolve`,
  `MotifAnalysis.ResolveSites`, `LoadStructures`, `Load` and `Create` all call
  `LoadAlphafold`, the loader with the defect under "## Findings" fixed. As
  written, the program never stores a motif. The first site whose structure
  file exists makes `StructuralMotif(...)` raise `TypeError`, and that ends
  `MotifAnalysis.__init__` (`Analysis.LoadAlphafoldAsWritten`,
  `Analysis.FoundStructureRaises`). So the rows below that describe stored
  motifs describe the program with that call fixed. Examples are
  `Analysis.MissingStructureExample` and `Analysis.MotifAnalysis.Create`.

Two behaviours of the source are easy to misread:

- The node identifier of a site is built from the table name. The code
  normalises the site's residue to "S". `get_node_id_string` then expands a
  one-letter code to the table's name "Ser", so that name reaches `fmt`.
  A three-letter code given directly reaches `fmt` upper-cased ("SER").
  `Utils.OneLetterCodeExpanded` proves the two spellings differ.
- The configuration's default dataset name is "dbPTM". The constructor
  compares it with "dbptm" exactly, so the default is refused with
  `ValueError` (`Analysis.MotifAnalysis.Create`).

## Model

| member | source | states |
|---|---|---|
| Errors.Lookup | kimono/ptm/__init__.py:38 | `d[k]`: the value when `k` is a key, otherwise `KeyError(k)` |
| Text.Upper | kimono/utils/utils.py:15 | `s.upper()` keeps the length and leaves no lower-case letter. Each character agrees with its input character up to case |
| Text.Lower | kimono/analysis/__init__.py:183 | `s.lower()` keeps the length and leaves no upper-case letter. Each character agrees with its input character up to case |
| Text.Capitalize | kimono/ptm/__init__.py:38 | `s.capitalize()` keeps the length and leaves the first character not lower-case and the rest not upper-case; `CapitalizeKeepsLetters` adds that each character agrees with its input up to case |
| Text.LowerIgnoresCase | kimono/ptm/__init__.py:47 | lower-casing an upper-cased or capitalised string gives its lower-casing, as `ptm_type.lower()` does for "PHOSPHORYLATION" and "Phosphorylation" |
| Text.CapitalizeKeepsLetters | kimono/ptm/__init__.py:38 | `capitalize` changes only the case of each character |
| Text.CapitalizeIgnoresCase | kimono/ptm/__init__.py:38 | `capitalize` gives the same result for a string, its upper-casing and its lower-casing ("SER", "ser", "Ser") |
| Text.CapitalizeCapitalized | kimono/ptm/__init__.py:38 | a name already written as the tables write it is left unchanged by `capitalize` |
| Text.UpperIdempotent | kimono/ptm/__init__.py:40-44 | upper-casing an upper-cased residue again changes nothing |
| Text.AfterLast | kimono/analysis/__init__.py:183 | `s.split(sep)[-1]` is the longest suffix of `s` without `sep`: a suffix, free of `sep`, and preceded by `sep` when shorter than `s` |
| Text.AfterLastWhole | kimono/analysis/__init__.py:183 | the last split part is the whole string exactly when the separator does not occur |
| Text.AfterLastSplit | kimono/analysis/__init__.py:183 | whatever precedes the last separator does not affect the last part |
| Text.DecimalString | kimono/utils/utils.py:21 | `str(pos)` is non-empty and starts with "-" exactly for a negative position |
| Text.DecimalRoundTrip | kimono/utils/utils.py:21 | `str(pos)` reads back as `pos` |
| Text.DecimalStringInjective | kimono/utils/utils.py:21 | distinct positions are passed to the format call as distinct strings |
| Tables.Filter | kimono/analysis/__init__.py:187 | `df[mask]` is no longer than the table, and every row it keeps is a row of the table that satisfies the mask |
| Tables.FilterMultiset | kimono/analysis/__init__.py:187-193 | a mask keeps every satisfying row as often as it occurs, and drops every other row |
| Tables.FilterAppend | kimono/analysis/__init__.py:187-193 | masking commutes with concatenation, so rows keep their order |
| Tables.FilterAllKept | kimono/analysis/__init__.py:187-193 | a mask true on every row leaves the table unchanged |
| Tables.Head | kimono/analysis/__init__.py:189 | `df.head(n)` is a prefix of length `min(n, len)`; for negative `n`, all rows but the last `-n` |
| IUPAC.FromItemsKeys | kimono/protein/data/IUPAC.py:8-29 | the keys of a dict literal are the keys of its items |
| IUPAC.FromItemsAt | kimono/protein/data/IUPAC.py:8-29 | with distinct keys, every item of the literal is in the dict |
| IUPAC.FromItemsSize | kimono/protein/data/IUPAC.py:8-29 | with distinct keys, the dict has one entry per item |
| IUPAC.FromItemsAppend | kimono/protein/data/IUPAC.py:31-34 | `{**a, **b}` is `a` overridden by `b` |
| IUPAC.FromItems | kimono/protein/data/IUPAC.py:8-29 | the dict a literal builds from its items, a later item with the same key winning. Its properties are the lemmas `FromItemsKeys` (its keys), `FromItemsAt` (its entries) and `FromItemsSize` (its size) |
| IUPAC.Swapped | kimono/protein/data/IUPAC.py:36 | the comprehension visits each item once, with key and value exchanged |
| IUPAC.Inverted | kimono/protein/data/IUPAC.py:36-39 | `{value: key for key, value in d.items()}`, built as the dict of the swapped items. Its property is the lemma `InvertedRoundTrip`: with distinct keys and values it has as many entries as the dict and undoes it in both directions |
| IUPAC.InvertedRoundTrip | kimono/protein/data/IUPAC.py:36-39 | with distinct keys and values, the inverted dict has the same size and undoes the dict in both directions |
| IUPAC.Table1to3Shape | kimono/protein/data/IUPAC.py:8-29 | `protein_letters_1to3` has 20 entries, each an upper-case letter mapped to a name such as "Ser" |
| IUPAC.Table3to1Inverse | kimono/protein/data/IUPAC.py:36 | `protein_letters_3to1` has 20 entries and inverts `protein_letters_1to3` both ways |
| IUPAC.ExtendedTableAdds | kimono/protein/data/IUPAC.py:31-34 | the extended table keeps every base entry and adds exactly B, X, Z, J, U and O, 26 in all |
| IUPAC.ExtendedItemsDict | kimono/protein/data/IUPAC.py:31-39 | the extended dict's `items()` are the base items followed by the six extra ones |
| IUPAC.Table3to1ExtendedInverse | kimono/protein/data/IUPAC.py:37-39 | `protein_letters_3to1_extended` has 26 entries and inverts the extended table both ways |
| Utils.FormatArgs | kimono/utils/utils.py:14-21 | the arguments of the format call: the chain upper-cased, a three-character residue, and `str(pos)`. Any three characters are accepted, and a one-letter code only if it is a table key. `KeyError` or `ValueError` otherwise |
| Utils.NodeIdString | kimono/utils/utils.py:7-21 | `get_node_id_string` succeeds exactly for accepted residues, giving the format call applied to `FormatArgs`. Otherwise it fails with the argument error |
| Utils.ThreeLetterCodeUnchecked | kimono/utils/utils.py:14-15 | a three-character code is upper-cased and never looked up |
| Utils.OneLetterCodeExpanded | kimono/utils/utils.py:14-17 | "S" and "s" become "Ser", while "Ser" itself becomes "SER": the spellings do not reach the format call alike |
| Utils.FormatArgsChainAndPosition | kimono/utils/utils.py:21 | chains "a" and "A" give the same identifier, and the position argument reads back as the position |
| Ptm.NormalisedResidue | kimono/ptm/__init__.py:34-42 | the stored residue, or the error. `NotImplementedError` comes first for a chain other than "A". A three-character code becomes the one-letter code of its capitalised name, or `KeyError`. One character is upper-cased. Any other length gives `ValueError` |
| Ptm.Construction | kimono/ptm/__init__.py:34-44 | a construction fails with `NormalisedResidue`'s error when normalisation fails. Otherwise it succeeds exactly when the normalised residue is a table code, and fails with `KeyError` of that residue when it is not. On success it stores the normalised residue, has chain "A", and caches the identifier `get_node_id_string` gives for it |
| Ptm.UnsupportedChainRejected | kimono/ptm/__init__.py:34-35 | every chain other than "A" is refused before the residue is examined |
| Ptm.SpellingsAgree | kimono/ptm/__init__.py:37-44 | "S", "s", "Ser", "SER" and "ser" build the same site, with the same residue and identifier |
| Ptm.UnknownOneLetterCode | kimono/ptm/__init__.py:39-44 | a one-letter code outside the table passes normalisation, then fails with `KeyError` in the identifier |
| Ptm.Display | kimono/ptm/__init__.py:46-47 | `__repr__` text "PTMSite(acc, node_id-symbol)", or `KeyError` of the lower-cased type |
| Ptm.KnownTypesDisplay | kimono/ptm/__init__.py:46-47 | each of the four modification types has a display form, written in lower case, upper case or capitalised ("Phosphorylation") |
| Ptm.PTMSite.Init | kimono/ptm/__init__.py:26-32 | the constructor stores the given fields |
| Ptm.PTMSite.CurrentNodeId | kimono/ptm/__init__.py:49-52 | what `node_id` computes from the fixed fields; it cannot fail on a well-formed site |
| Ptm.PTMSite.Create | kimono/ptm/__init__.py:16-44 | `PTMSite(...)` fails exactly when `Construction` fails, with its error. Otherwise it gives a fresh valid site with the given names, position, type and chain, and the normalised residue and cached identifier |
| Ptm.PTMSite.NodeId | kimono/ptm/__init__.py:49-52 | `node_id` returns the recomputed identifier and stores it in `_node_id`. It always succeeds on a well-formed site. On a valid site it returns the cached value and changes nothing, so reading it twice gives the same value |
| Ptm.PTMSite.Repr | kimono/ptm/__init__.py:46-47 | `__repr__` reads `node_id` first, so an identifier error precedes the symbol lookup and the identifier is cached |
| Analysis.Species | kimono/analysis/__init__.py:183 | the species is the lower-cased text after the last "_", or the whole lower-cased name without one |
| Analysis.SpeciesCharacters | kimono/analysis/__init__.py:183 | a species holds no "_" and no upper-case letter |
| Analysis.SpeciesSelected | kimono/analysis/__init__.py:186-187 | the rows the species step keeps. Its properties are the lemmas `SpeciesFilterExact` (exactly the rows whose species is listed, each as often as it occurs) and `SpeciesFilterOrder` (in their original order) |
| Analysis.SpeciesOfSuffix | kimono/analysis/__init__.py:183 | the species of `prefix + "_" + tail`, with no "_" in `tail`, is `tail` lower-cased, whatever `prefix` holds |
| Analysis.SpeciesFilterExact | kimono/analysis/__init__.py:186-187 | the species filter keeps exactly the rows whose species is listed, each as often as it occurs |
| Analysis.SpeciesFilterOrder | kimono/analysis/__init__.py:186-187 | the species filter keeps rows in file order |
| Analysis.SpeciesFilterExample | kimono/analysis/__init__.py:183-187 | the filter ["human"] keeps a "PROT1_HUMAN" row and drops a "PROT2_MOUSE" row |
| Analysis.RetainedRows | kimono/analysis/__init__.py:186-193 | the rows `_load_dbptm` keeps: species filter, then `head(max_sites)`, then isoform removal. Its properties are the lemmas `RetainedFromTable`, `RetainedSpecies`, `RetainedWithinMaxSites` and `IsoformRemovalExact` |
| Analysis.RetainedFromTable | kimono/analysis/__init__.py:186-193 | every retained row is a row of the table, there are no more of them than table rows, and none is an isoform unless isoforms are included |
| Analysis.RetainedSpecies | kimono/analysis/__init__.py:186-187 | with a species filter set, every retained row has a listed species |
| Analysis.RetainedWithinMaxSites | kimono/analysis/__init__.py:186-193 | at most `max_sites` rows survive, all drawn from the first `max_sites` species-filtered rows |
| Analysis.IsoformRemovalExact | kimono/analysis/__init__.py:191-193 | without `include_isoforms`, exactly the truncated rows whose accession holds "-" are removed. With it, none is |
| Analysis.TruncationPrecedesIsoformRemoval | kimono/analysis/__init__.py:189-193 | truncation comes first: an isoform among the first `max_sites` rows costs a canonical row its place |
| Analysis.MiddleResidue | kimono/analysis/__init__.py:199-200 | the residue is the character at index `len // 2` of the window, which (by `MiddleResidueCentred`) has as many characters before it as after, plus one when the length is even. An empty window raises `IndexError` |
| Analysis.Residues | kimono/analysis/__init__.py:199-200 | the residue column is defined exactly when no window is empty, and then holds the middle residue of each row |
| Analysis.Collected | kimono/analysis/__init__.py:212-220 | a loop that stops at its first exception: one value per result when it succeeds; `CollectedAt`, `CollectedComplete` and `CollectedFirstFailure` give the values, success and the first error |
| Analysis.CollectedFirstFailure | kimono/analysis/__init__.py:212-220 | when the results before `k` succeed and result `k` fails, the whole collection fails with result `k`'s error |
| Analysis.RowConstructions | kimono/analysis/__init__.py:212-218 | one `PTMSite` construction per row, with chain "A" and that row's residue and position |
| Analysis.BuiltSites | kimono/analysis/__init__.py:212-220 | the row loop's result over the first `k` rows has one entry per row; it collects the rows' constructions in order |
| Analysis.BuiltSitesSnoc | kimono/analysis/__init__.py:212-220 | one more successful row appends its site's residue and identifier |
| Analysis.BuiltSitesAt | kimono/analysis/__init__.py:212-220 | when the loop succeeds, entry `i` is what `PTMSite` of row `i` stores |
| Analysis.BuiltSitesComplete | kimono/analysis/__init__.py:212-220 | when every row's `PTMSite` succeeds, so does the loop |
| Analysis.BuiltSitesPrefixFailure | kimono/analysis/__init__.py:212-220 | once the loop over a prefix of the rows fails, the loop over any longer prefix fails with the same error |
| Analysis.BuiltSitesFirstFailure | kimono/analysis/__init__.py:212-220 | when the rows before row `k` build and row `k`'s `PTMSite` raises, the loop raises row `k`'s error |
| Analysis.DbptmSites | kimono/analysis/__init__.py:182-220 | on success, the retained rows with one pair per row, every window non-empty; `DbptmEmptyWindow` gives the `IndexError`, `DbptmUnknownResidue` the `KeyError` of the first row with an unknown code, and `DbptmStoredResidue` the stored residues |
| Analysis.DbptmUnknownResidue | kimono/analysis/__init__.py:212-219 | when every retained window is non-empty and the first retained row whose upper-cased middle character is not a key of `protein_letters_1to3` is row `i`, the load raises `KeyError` of that code |
| Analysis.DbptmEmptyWindow | kimono/analysis/__init__.py:199-200 | a retained row with an empty sequence window makes the load raise `IndexError` |
| Analysis.DbptmStoredResidue | kimono/analysis/__init__.py:199-220 | the residue stored for each retained row is the middle character of its sequence window, upper-cased |
| Analysis.SitesFromRowsSnoc | kimono/analysis/__init__.py:212-220 | appending the site of the next row keeps the sites in row order |
| Analysis.SitesFromRowsAt | kimono/analysis/__init__.py:212-220 | site `i` holds the names, position and type of row `i`, chain "A", and its normalised residue |
| Analysis.SitesFromRowsWellFormed | kimono/analysis/__init__.py:212-220 | every site built from the rows is well-formed |
| Analysis.AfFilename | kimono/analysis/__init__.py:284-293 | "AF-{acc}-F1-model_v{version}.{extension}" when fragments are ignored; otherwise `NotImplementedError` |
| Analysis.AfFilenameRoundTrip | kimono/analysis/__init__.py:289-291 | the accession can be read back out of the file name, so two accessions never share a file |
| Analysis.LoadAlphafold | kimono/analysis/__init__.py:264-277 | a motif of the site, its path and the radius exactly when the file exists. `FileNotFoundError` when it does not. The file-name error when fragments are not ignored |
| Analysis.LoadAlphafoldAsWritten | kimono/analysis/__init__.py:264-276 | as written, the load never succeeds. A found file gives `TypeError`; a missing one gives the same error as `LoadAlphafold` |
| Analysis.FoundStructureRaises | kimono/analysis/__init__.py:235-238 | for a site whose file exists, the as-written error is not the `FileNotFoundError` that the loop catches, while the intended loader succeeds |
| Analysis.MotifKey | kimono/analysis/__init__.py:237 | the key "{entry_name}-{node_id}" a motif is stored under; its property is the lemma `MotifKeyParts` |
| Analysis.MotifKeyParts | kimono/analysis/__init__.py:237 | the key splits back into the entry name, "-" and the node identifier, and is as long as those three together |
| Analysis.Resolve | kimono/analysis/__init__.py:231-244 | the motif dict and failed sites of `_load_structures`, visiting sites in order and stopping at the first error other than a missing file. Its properties are the lemmas `ResolveStep`, `ResolveFailedAmongSites`, `ResolveFailedSites`, `ResolveMotifKeys` and `ResolveLastWins` |
| Analysis.ResolveFailedAmongSites | kimono/analysis/__init__.py:238-239 | on success the failed sites are no more than the sites and each is one of them |
| Analysis.ResolveStep | kimono/analysis/__init__.py:233-241 | one loop step. A missing file appends the site to the failed sites. A motif is stored under "{entry_name}-{node_id}". Any other error ends the loop |
| Analysis.ResolveCompletes | kimono/analysis/__init__.py:231-244 | the loop finishes exactly when fragments are ignored or there is no site. Otherwise it fails with `NotImplementedError` |
| Analysis.ResolveFailedSites | kimono/analysis/__init__.py:238-239 | the failed sites are exactly the sites without a structure file, in order |
| Analysis.ResolveMotifKeys | kimono/analysis/__init__.py:236-237 | a key is in the motif dict exactly when some site with a structure file has that key |
| Analysis.ResolveLastWins | kimono/analysis/__init__.py:237 | the motif under a key is that of the last site with that key and a structure file |
| Analysis.MissingStructureExample | kimono/analysis/__init__.py:231-244 | for A, B, C with B's file missing: motifs under the keys of A and C, B failed, no error |
| Analysis.ResolvePrefixFailure | kimono/analysis/__init__.py:233-241 | an uncaught error at one site is the error of the whole loop |
| Analysis.WellFormedIdentified | kimono/analysis/__init__.py:237 | reading `node_id` cannot fail on a site the loader built |
| Analysis.TableSitesWellFormed | kimono/analysis/__init__.py:220 | appending the sites of a table to well-formed sites leaves every site well-formed |
| Analysis.MotifAnalysis.Init | kimono/analysis/__init__.py:126-148 | the fields `__init__` assigns: the dataset path, the AlphaFold directory (defaulting to the structure path), and no sites. `dataset`, `motifs` and `failed_sites` start empty only because Dafny needs a value; the Python first assigns them in `_load_dbptm` and `_load_structures` |
| Analysis.MotifAnalysis.NewSites | kimono/analysis/__init__.py:212-220 | the row loop succeeds exactly when `BuiltSites` does, with its error otherwise. It gives one fresh site per row, in row order, each holding that row's fields |
| Analysis.MotifAnalysis.ReadDbptm | kimono/analysis/__init__.py:182-220 | the retained rows and their fresh sites exactly when `DbptmSites` succeeds; its error otherwise |
| Analysis.MotifAnalysis.LoadDbptm | kimono/analysis/__init__.py:159-223 | `dataset_path` falls back to `dbptm_path`. On success the sites of the retained rows are appended and `dataset` holds those rows. On failure the error is `DbptmSites`'s |
| Analysis.MotifAnalysis.ResolveSites | kimono/analysis/__init__.py:231-242 | the site loop returns exactly what `Resolve` gives for the sites. Afterwards each site's `_node_id` either keeps its value or holds the site's current identifier |
| Analysis.MotifAnalysis.LoadStructures | kimono/analysis/__init__.py:225-244 | `motifs` and `failed_sites` are set to `Resolve`'s result. On an error neither is assigned. Each site's `_node_id` keeps its value or holds its current identifier, and a site whose `_node_id` was current keeps the same value |
| Analysis.MotifAnalysis.Load | kimono/analysis/__init__.py:150-156 | the "dbptm" branch: it succeeds exactly when the table loads and fragments are ignored or no row is retained. Then it holds the table's sites and `Resolve`'s motifs and failed sites. A failure after the table loads is `NotImplementedError`, and a failure leaves `motifs` and `failed_sites` unassigned. `dataset_path` falls back to `dbptm_path` when unset |
| Analysis.MotifAnalysis.Create | kimono/analysis/__init__.py:121-156 | any dataset name other than "dbptm" gives `ValueError`. Otherwise it gives the table's error, or `NotImplementedError` when fragments are not ignored and a row is retained. Else it gives a fresh valid session holding the retained rows, their sites, and their motifs and failed sites. The session's AlphaFold directory is the configured one or else the structure path, and its dataset path is the configured one or else `dbptm_path` |

## Left out

- `MotifAnalysisConfig`: the pydantic model, its defaults and the check that the structure directory exists are not modelled. The session takes the copied values as `Settings`.
- `pd.read_csv`: reading the tab-separated file is I/O, and errors raised by `read_csv` (a missing file, a None path) are not modelled. The table arrives parsed, as a sequence of rows in file order. Each `Row` holds a row as the code uses it: `position` an integer and every other field a string, as after the `astype(str)` conversions of `entry_name` and `seq_window`. Missing cells are not modelled. pandas reads one as NaN, and `astype(str)` turns a missing window into "nan", whose middle character "a" makes an Ala site. With pandas' default NA handling an empty window never reaches the residue step, so the `IndexError` branch of `Analysis.MiddleResidue` and `Analysis.Residues` covers an input the parsed table cannot hold.
- `print` and `tqdm`: console output only.
- `StructuralMotif`: kimono/motif/__init__.py builds an empty graph. The motif is an opaque value recording the arguments it is given.
- File system: a path exists when it is in a given set. A path join is `dir + "/" + name`.
- `difference_transform` has an empty body and is not modelled.
- kimono/cli.py, setup.py and kimono/utils/definitions.py are not part of this model. `NODE_ID_STR` is the parameter `fmt`.
- Case mapping covers ASCII letters only. Python's Unicode case rules are not modelled.
- Python's dynamic typing is not modelled. A residue is always a string and a position an integer.
- Analysis.MotifAnalysis.LoadDbptm: on failure the sites are stated to be unchanged. The Python appends sites one by one before the failing row, but the error escapes `__init__`, so no caller sees them.
- Analysis.MotifAnalysis.LoadStructures: does not state which sites had `node_id` read. Each site's `_node_id` is only stated to be either unchanged or current.
- Analysis.MotifAnalysis.ResolveSites: the same. A site that was valid before the loop is stated to stay valid, with the same `_node_id`, only in `LoadStructures`.
- Analysis.MotifAnalysis.NewSites: states each site's fields and well-formedness, but not that its cached `_node_id` is current. `Ptm.PTMSite.Create` states that for one site.

## Findings

| source | as written | input that shows it | evidently intended | confidence | as-written member | corrected member |
|---|---|---|---|---|---|---|
| kimono/analysis/__init__.py:272-276 | `StructuralMotif(site=..., structure_path=..., radius=...)`, while `StructuralMotif.__init__` (kimono/motif/__init__.py:9-15) accepts only `g` | any site whose AlphaFold file exists: the call raises `TypeError`, which `_load_structures` does not catch | build the site's motif from its structure file | high; not executed | Analysis.LoadAlphafoldAsWritten | Analysis.LoadAlphafold |
