/**
 * The textual task identifier the application builds,
 * `<kind>-<plant id>-<yyyy-MM-dd>`, and why the structured `TaskKey` may
 * stand for it: as long as the date label has its fixed width of ten
 * characters, the string determines kind, plant id and date label, even when
 * the plant id itself contains '-'.
 */
module TaskKeys {
  import opened Types

  const DateLabelWidth: nat := 10

  function KindName(kind: TaskKind): string
  {
    if kind == Watering then "watering" else "fertilization"
  }

  function KeyString(kind: TaskKind, plantId: string, dateLabel: string): (s: string)
    ensures |s| == |KindName(kind)| + |plantId| + |dateLabel| + 2
    ensures s[|s| - |dateLabel|..] == dateLabel
  {
    KindName(kind) + "-" + plantId + "-" + dateLabel
  }

  /** Distinct string identifiers for distinct (kind, plant id, date label) triples. */
  lemma KeyStringInjective(k1: TaskKind, id1: string, d1: string,
                           k2: TaskKind, id2: string, d2: string)
    requires |d1| == DateLabelWidth && |d2| == DateLabelWidth
    requires KeyString(k1, id1, d1) == KeyString(k2, id2, d2)
    ensures k1 == k2 && id1 == id2 && d1 == d2
  {
    var s := KeyString(k1, id1, d1);
    assert s == KeyString(k2, id2, d2);
    // The first character tells the kinds apart.
    assert s[0] == KindName(k1)[0];
    assert s[0] == KindName(k2)[0];
    assert k1 == k2;
    var prefix := KindName(k1) + "-";
    var body1 := id1 + "-";
    var body2 := id2 + "-";
    assert s == prefix + body1 + d1;
    assert s == prefix + body2 + d2;
    assert |body1| == |body2|;
    assert s[|prefix|..|prefix| + |body1|] == body1;
    assert s[|prefix|..|prefix| + |body2|] == body2;
    assert id1 == body1[..|id1|] == body2[..|id2|] == id2;
  }
}
