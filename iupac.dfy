/** The amino-acid letter tables of kimono/protein/data/IUPAC.py.

    A Python dict literal is modelled by the sequence of its items in
    insertion order; `FromItems` builds the dict from it (a later item with
    the same key wins, as in a literal or a comprehension), and the inverse
    tables are the comprehension `{value: key for key, value in d.items()}`,
    i.e. `FromItems` of the swapped items. */
module IUPAC {
  import opened Text

  type Items = seq<(string, string)>

  /** The dict whose items, inserted in order, are `items`. */
  function FromItems(items: Items): map<string, string> {
    if items == [] then map[]
    else FromItems(items[..|items| - 1])[items[|items| - 1].0 := items[|items| - 1].1]
  }

  /** The dict's keys are the keys of the items. */
  lemma {:induction false} FromItemsKeys(items: Items)
    ensures forall k :: k in FromItems(items) <==> exists i :: 0 <= i < |items| && items[i].0 == k
  {
    if items != [] {
      var rest := items[..|items| - 1];
      FromItemsKeys(rest);
      assert forall i :: 0 <= i < |rest| ==> rest[i] == items[i];
    }
  }

  /** `[(value, key) for key, value in items]` */
  function Swapped(items: Items): (r: Items)
    ensures |r| == |items|
    ensures forall i :: 0 <= i < |items| ==> r[i] == (items[i].1, items[i].0)
  {
    seq(|items|, i requires 0 <= i < |items| => (items[i].1, items[i].0))
  }

  /** `{value: key for key, value in FromItems(items).items()}` */
  function Inverted(items: Items): map<string, string> {
    FromItems(Swapped(items))
  }

  predicate DistinctKeys(items: Items) {
    forall i, j :: 0 <= i < j < |items| ==> items[i].0 != items[j].0
  }

  predicate DistinctValues(items: Items) {
    forall i, j :: 0 <= i < j < |items| ==> items[i].1 != items[j].1
  }

  /** With distinct keys every item survives in the dict. */
  lemma {:induction false} FromItemsAt(items: Items, i: nat)
    requires DistinctKeys(items)
    requires i < |items|
    ensures items[i].0 in FromItems(items)
    ensures FromItems(items)[items[i].0] == items[i].1
  {
    if i < |items| - 1 {
      var rest := items[..|items| - 1];
      assert rest[i] == items[i];
      FromItemsAt(rest, i);
    }
  }

  /** With distinct keys the dict has one entry per item. */
  lemma {:induction false} FromItemsSize(items: Items)
    requires DistinctKeys(items)
    ensures |FromItems(items)| == |items|
  {
    if items != [] {
      var rest := items[..|items| - 1];
      var last := items[|items| - 1];
      FromItemsSize(rest);
      FromItemsKeys(rest);
      forall i | 0 <= i < |rest| ensures rest[i].0 != last.0 {
        assert rest[i] == items[i];
      }
    }
  }

  /** `{**a, **b}` has the items of `a` followed by those of `b`. */
  lemma {:induction false} FromItemsAppend(a: Items, b: Items)
    ensures FromItems(a + b) == FromItems(a) + FromItems(b)
  {
    if b != [] {
      var ab, b', last := a + b, b[..|b| - 1], b[|b| - 1];
      assert ab[..|ab| - 1] == a + b';
      assert ab[|ab| - 1] == last;
      FromItemsAppend(a, b');
      assert FromItems(b) == FromItems(b')[last.0 := last.1];
      assert FromItems(ab) == FromItems(a + b')[last.0 := last.1];
      assert (FromItems(a) + FromItems(b'))[last.0 := last.1] == FromItems(a) + FromItems(b);
    } else {
      assert a + b == a;
    }
  }

  /** When keys and values are both distinct, the inverted dict undoes the
      dict in both directions. */
  lemma InvertedRoundTrip(items: Items)
    requires DistinctKeys(items) && DistinctValues(items)
    ensures |Inverted(items)| == |FromItems(items)|
    ensures forall k :: k in FromItems(items) ==>
      FromItems(items)[k] in Inverted(items) && Inverted(items)[FromItems(items)[k]] == k
    ensures forall v :: v in Inverted(items) ==>
      Inverted(items)[v] in FromItems(items) && FromItems(items)[Inverted(items)[v]] == v
  {
    var m, inv, sw := FromItems(items), Inverted(items), Swapped(items);
    assert DistinctKeys(sw);
    FromItemsSize(items);
    FromItemsSize(sw);
    FromItemsKeys(items);
    FromItemsKeys(sw);
    forall k | k in m
      ensures m[k] in inv && inv[m[k]] == k
    {
      var i :| 0 <= i < |items| && items[i].0 == k;
      FromItemsAt(items, i);
      FromItemsAt(sw, i);
    }
    forall v | v in inv
      ensures inv[v] in m && m[inv[v]] == v
    {
      var i :| 0 <= i < |sw| && sw[i].0 == v;
      FromItemsAt(items, i);
      FromItemsAt(sw, i);
    }
  }

  // ---- the tables --------------------------------------------------------

  /** The items of `protein_letters_1to3`, in source order. */
  const Letters1to3Items: Items := [
    ("A", "Ala"), ("C", "Cys"), ("D", "Asp"), ("E", "Glu"), ("F", "Phe"),
    ("G", "Gly"), ("H", "His"), ("I", "Ile"), ("K", "Lys"), ("L", "Leu"),
    ("M", "Met"), ("N", "Asn"), ("P", "Pro"), ("Q", "Gln"), ("R", "Arg"),
    ("S", "Ser"), ("T", "Thr"), ("V", "Val"), ("W", "Trp"), ("Y", "Tyr")
  ]

  /** The six ambiguous and non-standard codes the extended table adds. */
  const ExtraItems: Items := [
    ("B", "Asx"), ("X", "Xaa"), ("Z", "Glx"), ("J", "Xle"), ("U", "Sec"), ("O", "Pyl")
  ]

  /** The items of `protein_letters_1to3_extended`: the base items, then the
      extra ones (no key is shared, so none moves). */
  const ExtendedItems: Items := Letters1to3Items + ExtraItems

  const ProteinLetters1to3: map<string, string> := FromItems(Letters1to3Items)

  /** `{**protein_letters_1to3, **{...}}` */
  const ProteinLetters1to3Extended: map<string, string> :=
    ProteinLetters1to3 + FromItems(ExtraItems)

  const ProteinLetters3to1: map<string, string> := Inverted(Letters1to3Items)

  const ProteinLetters3to1Extended: map<string, string> := Inverted(ExtendedItems)

  /** A one-letter code: a single upper-case letter. */
  predicate IsOneLetterCode(k: string) {
    |k| == 1 && IsUpperLetter(k[0])
  }

  /** A three-letter name as the tables write it: "Ser". */
  predicate IsThreeLetterName(v: string) {
    |v| == 3 && IsUpperLetter(v[0]) && IsLowerLetter(v[1]) && IsLowerLetter(v[2])
  }

  /** A one-letter code has no lower-case letter; a three-letter name is
      as `capitalize` leaves it. */
  lemma CodeShapes(k: string, v: string)
    requires IsOneLetterCode(k) && IsThreeLetterName(v)
    ensures forall i :: 0 <= i < |k| ==> !IsLowerLetter(k[i])
    ensures IsCapitalized(v)
  {
  }

  predicate WellFormedItems(items: Items) {
    forall i :: 0 <= i < |items| ==> IsOneLetterCode(items[i].0) && IsThreeLetterName(items[i].1)
  }

  /** Two item lists, each with distinct keys and sharing no key, have
      distinct keys together; likewise for values. */
  lemma DistinctAppend(a: Items, b: Items)
    requires DistinctKeys(a) && DistinctKeys(b)
    requires DistinctValues(a) && DistinctValues(b)
    requires forall i, j :: 0 <= i < |a| && 0 <= j < |b| ==> a[i].0 != b[j].0 && a[i].1 != b[j].1
    ensures DistinctKeys(a + b) && DistinctValues(a + b)
  {
  }

  lemma BaseKeysDistinct()
    ensures DistinctKeys(Letters1to3Items)
  {
    var items := Letters1to3Items;
    assert forall i, j :: 0 <= i < j < |items| ==> items[i].0[0] != items[j].0[0];
  }

  lemma BaseValuesDistinct()
    ensures DistinctValues(Letters1to3Items)
  {
    var items := Letters1to3Items;
    assert forall i, j :: 0 <= i < j < |items| ==>
      items[i].1[0] != items[j].1[0] || items[i].1[1] != items[j].1[1] || items[i].1[2] != items[j].1[2];
  }

  lemma ExtraItemsDistinct()
    ensures DistinctKeys(ExtraItems) && DistinctValues(ExtraItems)
  {
    var items := ExtraItems;
    assert forall i, j :: 0 <= i < j < |items| ==> items[i].0[0] != items[j].0[0];
    assert forall i, j :: 0 <= i < j < |items| ==>
      items[i].1[0] != items[j].1[0] || items[i].1[1] != items[j].1[1];
  }

  lemma BaseExtraDisjoint()
    ensures forall i, j :: 0 <= i < |Letters1to3Items| && 0 <= j < |ExtraItems| ==>
      Letters1to3Items[i].0 != ExtraItems[j].0 && Letters1to3Items[i].1 != ExtraItems[j].1
  {
  }

  lemma ExtendedDistinct()
    ensures DistinctKeys(ExtendedItems) && DistinctValues(ExtendedItems)
  {
    BaseKeysDistinct();
    BaseValuesDistinct();
    ExtraItemsDistinct();
    BaseExtraDisjoint();
    DistinctAppend(Letters1to3Items, ExtraItems);
  }

  lemma ExtendedItemsWellFormed()
    ensures WellFormedItems(ExtendedItems)
  {
  }

  lemma ExtendedItemsFacts()
    ensures DistinctKeys(ExtendedItems) && DistinctValues(ExtendedItems)
    ensures WellFormedItems(ExtendedItems)
  {
    ExtendedDistinct();
    ExtendedItemsWellFormed();
  }

  lemma BaseItemsFacts()
    ensures DistinctKeys(Letters1to3Items) && DistinctValues(Letters1to3Items)
    ensures WellFormedItems(Letters1to3Items)
  {
    ExtendedItemsFacts();
    assert forall i :: 0 <= i < |Letters1to3Items| ==> Letters1to3Items[i] == ExtendedItems[i];
  }

  /** `protein_letters_1to3` has exactly 20 entries, each a single upper-case
      letter mapped to a capitalised three-letter name. */
  lemma Table1to3Shape()
    ensures |ProteinLetters1to3| == 20
    ensures forall k :: k in ProteinLetters1to3 ==>
      IsOneLetterCode(k) && IsThreeLetterName(ProteinLetters1to3[k])
  {
    BaseItemsFacts();
    FromItemsSize(Letters1to3Items);
    FromItemsKeys(Letters1to3Items);
    forall k | k in ProteinLetters1to3
      ensures IsOneLetterCode(k) && IsThreeLetterName(ProteinLetters1to3[k])
    {
      var i :| 0 <= i < |Letters1to3Items| && Letters1to3Items[i].0 == k;
      FromItemsAt(Letters1to3Items, i);
    }
  }

  /** `protein_letters_3to1` has 20 entries and is the exact inverse of
      `protein_letters_1to3`, in both directions. */
  lemma Table3to1Inverse()
    ensures |ProteinLetters3to1| == 20
    ensures forall k :: k in ProteinLetters1to3 ==>
      ProteinLetters1to3[k] in ProteinLetters3to1 && ProteinLetters3to1[ProteinLetters1to3[k]] == k
    ensures forall v :: v in ProteinLetters3to1 ==>
      ProteinLetters3to1[v] in ProteinLetters1to3 && ProteinLetters1to3[ProteinLetters3to1[v]] == v
  {
    BaseItemsFacts();
    InvertedRoundTrip(Letters1to3Items);
    FromItemsSize(Letters1to3Items);
  }

  /** The codes only the extended table has. */
  const ExtraCodes: set<string> := {"B", "X", "Z", "J", "U", "O"}

  lemma ExtraItemsKeys()
    ensures FromItems(ExtraItems).Keys == ExtraCodes
  {
    FromItemsKeys(ExtraItems);
    assert ExtraItems[0].0 == "B" && ExtraItems[1].0 == "X" && ExtraItems[2].0 == "Z";
    assert ExtraItems[3].0 == "J" && ExtraItems[4].0 == "U" && ExtraItems[5].0 == "O";
  }

  lemma ExtraCodesAreNew()
    ensures forall k :: k in ExtraCodes ==> k !in ProteinLetters1to3
  {
    FromItemsKeys(Letters1to3Items);
  }

  /** The extended table keeps every base entry unchanged and adds exactly
      B, X, Z, J, U and O, none of which the base table has. */
  lemma ExtendedTableAdds()
    ensures forall k :: k in ProteinLetters1to3 ==>
      k in ProteinLetters1to3Extended && ProteinLetters1to3Extended[k] == ProteinLetters1to3[k]
    ensures ProteinLetters1to3Extended.Keys == ProteinLetters1to3.Keys + ExtraCodes
    ensures forall k :: k in ExtraCodes ==> k !in ProteinLetters1to3
    ensures |ProteinLetters1to3Extended| == 26
  {
    ExtendedDistinct();
    FromItemsAppend(Letters1to3Items, ExtraItems);
    FromItemsSize(ExtendedItems);
    ExtraItemsKeys();
    ExtraCodesAreNew();
  }

  /** The extended dict is the one built from the base items followed by the
      extra items, which is what its `items()` yields. */
  lemma ExtendedItemsDict()
    ensures FromItems(ExtendedItems) == ProteinLetters1to3Extended
  {
    FromItemsAppend(Letters1to3Items, ExtraItems);
  }

  /** `protein_letters_3to1_extended` is the inverse of the extended table:
      both round trips hold for all 26 entries. */
  lemma Table3to1ExtendedInverse()
    ensures |ProteinLetters3to1Extended| == 26
    ensures forall k :: k in ProteinLetters1to3Extended ==>
      ProteinLetters1to3Extended[k] in ProteinLetters3to1Extended &&
      ProteinLetters3to1Extended[ProteinLetters1to3Extended[k]] == k
    ensures forall v :: v in ProteinLetters3to1Extended ==>
      ProteinLetters3to1Extended[v] in ProteinLetters1to3Extended &&
      ProteinLetters1to3Extended[ProteinLetters3to1Extended[v]] == v
  {
    ExtendedItemsFacts();
    ExtendedItemsDict();
    InvertedRoundTrip(ExtendedItems);
    FromItemsSize(ExtendedItems);
  }
}
