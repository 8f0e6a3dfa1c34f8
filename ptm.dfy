/** `PTMSite` of kimono/ptm/__init__.py: one post-translational modification
    site, with its residue normalised to a one-letter code and its node
    identifier derived through `get_node_id_string`. */
module Ptm {
  import opened Errors
  import opened Text
  import opened IUPAC
  import opened Utils

  /** `PTMSite.symbol_map`: the short symbol of each modification type. */
  const SymbolMap: map<string, string> := map[
    "phosphorylation" := "p",
    "ubiquitination" := "u",
    "acetylation" := "ac",
    "methylation" := "me"
  ]

  /** The only chain the constructor accepts. */
  const SupportedChain: string := "A"

  /** The residue `__init__` stores, or the error it raises: the chain is
      checked first, then a three-character code is capitalised and mapped
      back to its letter, and a one-character code is upper-cased. */
  function NormalisedResidue(chainId: string, residue: string): (r: Result<string>)
    ensures r.Success? <==>
      chainId == SupportedChain &&
      (|residue| == 1 || (|residue| == 3 && Capitalize(residue) in ProteinLetters3to1))
    ensures r.Success? ==> |r.value| == 1 && !IsLowerLetter(r.value[0])
    ensures r.Success? && |residue| == 1 ==> r.value == Upper(residue)
    ensures r.Success? && |residue| == 3 ==>
      r.value in ProteinLetters1to3 && ProteinLetters1to3[r.value] == Capitalize(residue)
    ensures chainId != SupportedChain ==>
      r == Failure(NotImplementedError("Only chain A is supported for now."))
    ensures chainId == SupportedChain && |residue| == 3 && r.Failure? ==>
      r.error == KeyError(Capitalize(residue))
    ensures chainId == SupportedChain && |residue| != 1 && |residue| != 3 ==>
      r == Failure(ValueError("Invalid residue: " + residue))
  {
    Table1to3Shape();
    Table3to1Inverse();
    if chainId != SupportedChain then
      Failure(NotImplementedError("Only chain A is supported for now."))
    else if |residue| == 3 then
      Lookup(ProteinLetters3to1, Capitalize(residue))
    else if |residue| == 1 then
      Success(Upper(residue))
    else
      Failure(ValueError("Invalid residue: " + residue))
  }

  /** What a successful `PTMSite(...)` ends up holding: the stored residue
      and `_node_id`; otherwise the first error raised. */
  function Construction(fmt: NodeIdFormat, chainId: string, residue: string, position: int)
    : (r: Result<(string, string)>)
    ensures NormalisedResidue(chainId, residue).Failure? ==>
      r == Failure(NormalisedResidue(chainId, residue).error)
    ensures NormalisedResidue(chainId, residue).Success? ==>
      (r.Success? <==> NormalisedResidue(chainId, residue).value in ProteinLetters1to3)
    ensures NormalisedResidue(chainId, residue).Success? && r.Failure? ==>
      r.error == KeyError(NormalisedResidue(chainId, residue).value)
    ensures r.Success? ==> r.value.0 == NormalisedResidue(chainId, residue).value
    ensures r.Success? ==> chainId == SupportedChain && r.value.0 in ProteinLetters1to3
    ensures r.Success? ==>
      NodeIdString(fmt, chainId, r.value.0, position) == Success(r.value.1)
  {
    var stored :- NormalisedResidue(chainId, residue);
    assert Upper(stored) == stored;
    var nodeId :- NodeIdString(fmt, chainId, Upper(stored), position);
    Success((stored, nodeId))
  }

  /** `__repr__`: the display form, or `KeyError` when the lower-cased
      modification type has no symbol. */
  function Display(accId: string, nodeId: string, ptmType: string): (r: Result<string>)
    ensures r.Success? <==> Lower(ptmType) in SymbolMap
    ensures r.Failure? ==> r.error == KeyError(Lower(ptmType))
    ensures r.Success? ==>
      r.value == "PTMSite(" + accId + ", " + nodeId + "-" + SymbolMap[Lower(ptmType)] + ")"
  {
    var symbol :- Lookup(SymbolMap, Lower(ptmType));
    Success("PTMSite(" + accId + ", " + nodeId + "-" + symbol + ")")
  }

  /** Any chain other than "A" is refused, whatever the residue: the chain
      check comes before residue validation. */
  lemma UnsupportedChainRejected(fmt: NodeIdFormat, chainId: string, residue: string, position: int)
    requires chainId != SupportedChain
    ensures Construction(fmt, chainId, residue, position) ==
      Failure(NotImplementedError("Only chain A is supported for now."))
  {
  }

  /** "S", "s", "Ser", "SER" and "ser" make the same site: the stored residue
      is the one-letter code and the node identifier is formatted from the
      table's name "Ser". */
  lemma SpellingsAgree(fmt: NodeIdFormat, k: string, position: int)
    requires k in ProteinLetters1to3
    ensures var expected := Success((k, fmt("A", ProteinLetters1to3[k], DecimalString(position))));
      && Construction(fmt, "A", k, position) == expected
      && Construction(fmt, "A", Lower(k), position) == expected
      && Construction(fmt, "A", ProteinLetters1to3[k], position) == expected
      && Construction(fmt, "A", Upper(ProteinLetters1to3[k]), position) == expected
      && Construction(fmt, "A", Lower(ProteinLetters1to3[k]), position) == expected
  {
    Table1to3Shape();
    Table3to1Inverse();
    var name := ProteinLetters1to3[k];
    CodeShapes(k, name);
    UpperOfUpperCase(k);
    assert Upper("A") == "A";
    CapitalizeCapitalized(name);
    CapitalizeIgnoresCase(name);
  }

  /** A one-letter code outside the table passes normalisation but fails with
      `KeyError` when the node identifier is computed. */
  lemma UnknownOneLetterCode(fmt: NodeIdFormat, residue: string, position: int)
    requires |residue| == 1 && Upper(residue) !in ProteinLetters1to3
    ensures NormalisedResidue(SupportedChain, residue) == Success(Upper(residue))
    ensures Construction(fmt, SupportedChain, residue, position) == Failure(KeyError(Upper(residue)))
  {
    UpperIdempotent(residue);
  }

  /** Every modification type of the vocabulary has a display form, written
      in lower case, upper case or capitalised ("Phosphorylation"). */
  lemma KnownTypesDisplay(accId: string, nodeId: string, ptmType: string)
    requires ptmType in SymbolMap
    ensures Display(accId, nodeId, ptmType).Success?
    ensures Display(accId, nodeId, Upper(ptmType)).Success?
    ensures Display(accId, nodeId, Capitalize(ptmType)).Success?
  {
    SymbolKeysLowerCase(ptmType);
    LowerOfLowerCase(ptmType);
    LowerIgnoresCase(ptmType);
  }

  /** The modification types of the vocabulary are written in lower case. */
  lemma SymbolKeysLowerCase(ptmType: string)
    requires ptmType in SymbolMap
    ensures forall i :: 0 <= i < |ptmType| ==> !IsUpperLetter(ptmType[i])
  {
  }

  /** A modification site. Every field but `cachedNodeId` is fixed at
      construction; `cachedNodeId` is `_node_id`, rewritten by every read of
      the `node_id` property. */
  class PTMSite {
    const entryName: string
    const accId: string
    const residue: string
    const position: int
    const ptmType: string
    const chainId: string
    var cachedNodeId: string

    /** What the `node_id` property computes from the fixed fields, with
        `NODE_ID_STR` formatting as `fmt`. */
    function CurrentNodeId(fmt: NodeIdFormat): (r: Result<string>)
      ensures WellFormed() ==> r.Success?
    {
      NodeIdString(fmt, chainId, Upper(residue), position)
    }

    /** The fixed fields are what a successful constructor leaves: chain
        "A" and a one-letter, upper-case table code. */
    predicate WellFormed() {
      && chainId == SupportedChain
      && |residue| == 1 && Upper(residue) == residue
      && residue in ProteinLetters1to3
    }

    /** A well-formed site, whose `_node_id` holds the identifier its fields
        give. */
    ghost predicate Valid(fmt: NodeIdFormat)
      reads this
    {
      WellFormed() && CurrentNodeId(fmt) == Success(cachedNodeId)
    }

    constructor Init(entryName: string, accId: string, residue: string, position: int,
                     ptmType: string, chainId: string, nodeId: string)
      ensures this.entryName == entryName && this.accId == accId && this.residue == residue
      ensures this.position == position && this.ptmType == ptmType && this.chainId == chainId
      ensures cachedNodeId == nodeId
    {
      this.entryName := entryName;
      this.accId := accId;
      this.residue := residue;
      this.position := position;
      this.ptmType := ptmType;
      this.chainId := chainId;
      cachedNodeId := nodeId;
    }

    /** `PTMSite(entry_name, acc_id, residue, position, ptm_type, chain_id)`:
        a new valid site holding the given names, position and type
        unchanged, or the error the constructor raises. */
    static method Create(entryName: string, accId: string, residue: string, position: int,
                         ptmType: string, chainId: string, fmt: NodeIdFormat)
      returns (r: Result<PTMSite>)
      ensures r.Failure? <==> Construction(fmt, chainId, residue, position).Failure?
      ensures r.Failure? ==> r.error == Construction(fmt, chainId, residue, position).error
      ensures r.Success? ==> fresh(r.value) && r.value.Valid(fmt)
      ensures r.Success? ==>
        && r.value.entryName == entryName && r.value.accId == accId
        && r.value.position == position && r.value.ptmType == ptmType
        && r.value.chainId == chainId
        && (r.value.residue, r.value.cachedNodeId) == Construction(fmt, chainId, residue, position).value
    {
      if chainId != SupportedChain {
        return Failure(NotImplementedError("Only chain A is supported for now."));
      }
      var stored: string;
      if |residue| == 3 {
        var found := Lookup(ProteinLetters3to1, Capitalize(residue));
        if found.Failure? {
          return Failure(found.error);
        }
        stored := found.value;
      } else if |residue| == 1 {
        stored := Upper(residue);
      } else {
        return Failure(ValueError("Invalid residue: " + residue));
      }
      var nodeId := NodeIdString(fmt, chainId, Upper(stored), position);
      if nodeId.Failure? {
        return Failure(nodeId.error);
      }
      var site := new PTMSite.Init(entryName, accId, stored, position, ptmType, chainId, nodeId.value);
      return Success(site);
    }

    /** The `node_id` property: recomputes the identifier and stores it in
        `_node_id`, or raises what `get_node_id_string` raises. */
    method NodeId(fmt: NodeIdFormat) returns (r: Result<string>)
      modifies this
      ensures r == CurrentNodeId(fmt)
      ensures cachedNodeId == if r.Success? then r.value else old(cachedNodeId)
      ensures WellFormed() ==> r.Success? && Valid(fmt)
      ensures old(Valid(fmt)) ==> r == Success(old(cachedNodeId)) && unchanged(this)
    {
      r := CurrentNodeId(fmt);
      if r.Success? {
        cachedNodeId := r.value;
      }
    }

    /** `__repr__`: the identifier is read (and stored) before the symbol is
        looked up, so its error comes first. */
    method Repr(fmt: NodeIdFormat) returns (r: Result<string>)
      modifies this
      ensures r == match CurrentNodeId(fmt)
        case Failure(e) => Failure(e)
        case Success(id) => Display(accId, id, ptmType)
      ensures cachedNodeId == if CurrentNodeId(fmt).Success? then CurrentNodeId(fmt).value else old(cachedNodeId)
    {
      var id := NodeId(fmt);
      if id.Failure? {
        return Failure(id.error);
      }
      r := Display(accId, id.value, ptmType);
    }
  }
}
