/**
 * The plant search of the plants tab (`filteredPlants`): a plant is listed
 * when its lower-cased name or species contains the lower-cased query.
 * Lower-casing is Unicode-aware in the application; the model takes it as a
 * parameter.
 */
module Search {
  import opened Types
  import opened Seqs

  /** `needle` occurs in `hay` starting at position `i`. */
  predicate OccursAt(hay: string, needle: string, i: int)
  {
    0 <= i && i + |needle| <= |hay| && hay[i..i + |needle|] == needle
  }

  /** `String.prototype.includes`, scanning start positions from the left. */
  function Includes(hay: string, needle: string): (b: bool)
    ensures b <==> exists i :: OccursAt(hay, needle, i)
    decreases |hay|
  {
    if needle <= hay then
      assert OccursAt(hay, needle, 0);
      true
    else if hay == [] then
      false
    else
      var b := Includes(hay[1..], needle);
      assert b ==> exists i :: OccursAt(hay, needle, i) by {
        if b {
          var i :| OccursAt(hay[1..], needle, i);
          assert hay[1..][i..i + |needle|] == hay[i + 1..i + 1 + |needle|];
          assert OccursAt(hay, needle, i + 1);
        }
      }
      assert (exists i :: OccursAt(hay, needle, i)) ==> b by {
        if exists i :: OccursAt(hay, needle, i) {
          var i :| OccursAt(hay, needle, i);
          if i == 0 {
            assert false;
          }
          assert hay[1..][i - 1..i - 1 + |needle|] == hay[i..i + |needle|];
          assert OccursAt(hay[1..], needle, i - 1);
        }
      }
      b
  }

  predicate Matches(p: Plant, query: string, lower: string -> string)
  {
    Includes(lower(p.name), lower(query)) || Includes(lower(p.species), lower(query))
  }

  /** The plants shown for a query: exactly the matching ones, in registry order. */
  function FilterPlants(plants: seq<Plant>, query: string, lower: string -> string): (r: seq<Plant>)
    ensures forall p :: p in r <==> p in plants && Matches(p, query, lower)
    ensures forall p :: Count(r, p) == if Matches(p, query, lower) then Count(plants, p) else 0
    ensures IsSubsequence(r, plants)
  {
    Filter(plants, p => Matches(p, query, lower))
  }

  /** With an empty query (whose lower-case form is empty) every plant is listed. */
  lemma EmptyQueryKeepsAll(plants: seq<Plant>, lower: string -> string)
    requires lower("") == ""
    ensures FilterPlants(plants, "", lower) == plants
  {
    forall p | p in plants ensures Matches(p, "", lower) {
      assert OccursAt(lower(p.name), "", 0);
    }
    FilterKeepsAll(plants, p => Matches(p, "", lower));
  }
}
