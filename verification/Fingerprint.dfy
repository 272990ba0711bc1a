/** The canonical form of a loadout whose digest detects duplicates. */
module Fingerprint {
  import opened GameData
  import Sorting

  function CanonicalPiece(p: Piece): Piece { p.(decorations := Sorting.Sort(p.decorations)) }

  function Canonical(l: Loadout): Loadout {
    l.(name := "", weapon := CanonicalPiece(l.weapon), head := CanonicalPiece(l.head), chest := CanonicalPiece(l.chest),
       arms := CanonicalPiece(l.arms), waist := CanonicalPiece(l.waist), legs := CanonicalPiece(l.legs),
       charm := l.charm.(decorations := Sorting.Sort(l.charm.decorations)))
  }

  /** The same equipment with the same decorations in any order. */
  ghost predicate SamePiece(p: Piece, q: Piece) {
    p.saveType == q.saveType && p.saveId == q.saveId && multiset(p.decorations) == multiset(q.decorations)
  }

  ghost predicate SameGear(a: Loadout, b: Loadout) {
    && a.schema == b.schema && a.schemaVersion == b.schemaVersion && a.game == b.game
    && a.dataVersion == b.dataVersion && a.gender == b.gender
    && SamePiece(a.weapon, b.weapon) && SamePiece(a.head, b.head) && SamePiece(a.chest, b.chest)
    && SamePiece(a.arms, b.arms) && SamePiece(a.waist, b.waist) && SamePiece(a.legs, b.legs)
    && a.charm.(decorations := []) == b.charm.(decorations := [])
    && multiset(a.charm.decorations) == multiset(b.charm.decorations)
  }

  lemma PieceEqualIff(p: Piece, q: Piece)
    ensures CanonicalPiece(p) == CanonicalPiece(q) <==> SamePiece(p, q)
  {
    Sorting.SortEqualIff(p.decorations, q.decorations);
  }

  /** Fingerprints are equal exactly when everything but the name agrees, decorations up to their order. */
  lemma FingerprintEqualIff(a: Loadout, b: Loadout)
    ensures Canonical(a) == Canonical(b) <==> SameGear(a, b)
  {
    PieceEqualIff(a.weapon, b.weapon);
    PieceEqualIff(a.head, b.head);
    PieceEqualIff(a.chest, b.chest);
    PieceEqualIff(a.arms, b.arms);
    PieceEqualIff(a.waist, b.waist);
    PieceEqualIff(a.legs, b.legs);
    Sorting.SortEqualIff(a.charm.decorations, b.charm.decorations);
  }

  /** The fingerprint is gear like the loadout's, and its own fingerprint. */
  lemma FingerprintIdempotent(l: Loadout)
    ensures SameGear(l, Canonical(l)) && Canonical(Canonical(l)) == Canonical(l)
  {
    Sorting.SortSorts(l.weapon.decorations);
    Sorting.SortSorts(l.head.decorations);
    Sorting.SortSorts(l.chest.decorations);
    Sorting.SortSorts(l.arms.decorations);
    Sorting.SortSorts(l.waist.decorations);
    Sorting.SortSorts(l.legs.decorations);
    Sorting.SortSorts(l.charm.decorations);
    FingerprintEqualIff(l, Canonical(l));
  }
}
