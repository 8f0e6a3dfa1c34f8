/** `get_node_id_string` of kimono/utils/utils.py: the key under which a
    residue is looked up in a structure graph.

    The template `NODE_ID_STR` is defined in kimono/utils/definitions.py,
    which is not part of this model, so the format call is a parameter: any
    function of the three formatted arguments (chain, residue, position). */
module Utils {
  import opened Errors
  import opened Text
  import opened IUPAC

  /** `NODE_ID_STR.format(chain, residue, position)` */
  type NodeIdFormat = (string, string, string) -> string

  /** Is `residue` a code `get_node_id_string` accepts: any three
      characters, or one character naming a table entry in either case. */
  predicate AcceptedResidue(residue: string) {
    |residue| == 3 || (|residue| == 1 && Upper(residue) in ProteinLetters1to3)
  }

  /** The three arguments `get_node_id_string` hands to the format call, or
      the error it raises first. */
  function FormatArgs(chainId: string, residue: string, pos: int): (r: Result<(string, string, string)>)
    ensures r.Success? <==> AcceptedResidue(residue)
    ensures r.Success? ==> r.value.0 == Upper(chainId) && |r.value.1| == 3 && r.value.2 == DecimalString(pos)
    ensures r.Failure? && |residue| == 1 ==> r.error == KeyError(Upper(residue))
    ensures r.Failure? && |residue| != 1 ==> r.error == ValueError("Invalid residue: " + residue)
  {
    Table1to3Shape();
    if |residue| == 3 then
      Success((Upper(chainId), Upper(residue), DecimalString(pos)))
    else if |residue| == 1 then
      var name :- Lookup(ProteinLetters1to3, Upper(residue));
      Success((Upper(chainId), name, DecimalString(pos)))
    else
      Failure(ValueError("Invalid residue: " + residue))
  }

  /** `get_node_id_string(chain_id, residue, pos)` */
  function NodeIdString(fmt: NodeIdFormat, chainId: string, residue: string, pos: int): (r: Result<string>)
    ensures r.Success? <==> AcceptedResidue(residue)
    ensures r.Failure? ==> r.error == FormatArgs(chainId, residue, pos).error
    ensures r.Success? ==>
      var args := FormatArgs(chainId, residue, pos).value;
      r.value == fmt(args.0, args.1, args.2)
  {
    var args :- FormatArgs(chainId, residue, pos);
    Success(fmt(args.0, args.1, args.2))
  }

  /** A three-character code is only upper-cased, never checked against the
      table: every three characters are accepted. */
  lemma ThreeLetterCodeUnchecked(chainId: string, residue: string, pos: int)
    requires |residue| == 3
    ensures FormatArgs(chainId, residue, pos).Success?
    ensures FormatArgs(chainId, residue, pos).value.1 == Upper(residue)
  {
  }

  /** A one-letter code, in either case, is expanded to the table's
      capitalised name ("Ser"), whereas that name given directly is
      upper-cased ("SER"): the two spellings reach the format call with
      different residue arguments. */
  lemma OneLetterCodeExpanded(chainId: string, k: string, pos: int)
    requires k in ProteinLetters1to3
    ensures FormatArgs(chainId, k, pos).Success? && FormatArgs(chainId, Lower(k), pos).Success?
    ensures FormatArgs(chainId, k, pos).value.1 == ProteinLetters1to3[k]
    ensures FormatArgs(chainId, Lower(k), pos).value.1 == ProteinLetters1to3[k]
    ensures FormatArgs(chainId, ProteinLetters1to3[k], pos).value.1 != ProteinLetters1to3[k]
  {
    Table1to3Shape();
    assert Upper(k) == k;
    assert Upper(Lower(k)) == k;
    var name := ProteinLetters1to3[k];
    assert Upper(name)[1] != name[1];
  }

  /** The chain is passed upper-cased, so "a" and "A" name the same node, and
      the position is passed as a string that reads back as the position. */
  lemma FormatArgsChainAndPosition(fmt: NodeIdFormat, chainId: string, residue: string, pos: int)
    requires AcceptedResidue(residue)
    ensures NodeIdString(fmt, chainId, residue, pos) == NodeIdString(fmt, Upper(chainId), residue, pos)
    ensures ParseDecimal(FormatArgs(chainId, residue, pos).value.2) == pos
  {
    UpperIdempotent(chainId);
    DecimalRoundTrip(pos);
  }
}
