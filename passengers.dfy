/** The boarding catalog of the game: the 21 named groups that may cross
    (passengers) and the composition tag of each (passengersCombination). */
module Passengers {
  import opened Puzzle

  /** The boat holds at most two people. */
  const BOAT_MAX_CAPACITY: nat := 2

  /** The actors on screen: missionary `n` and cannibal `n` for n in 1..3
      (missionaries[n - 1] and cannibals[n - 1] of the game), and the boat. */
  datatype Actor = Missionary(n: nat) | Cannibal(n: nat) | Boat

  const Roster: set<Actor> :=
    {Missionary(1), Missionary(2), Missionary(3), Cannibal(1), Cannibal(2), Cannibal(3)}

  /** The `passengers` dictionary: each group lists its people, then the boat. */
  function Groups(): map<string, seq<Actor>> {
    map[
      "m1" := [Missionary(1), Boat],
      "m2" := [Missionary(2), Boat],
      "m3" := [Missionary(3), Boat],
      "c1" := [Cannibal(1), Boat],
      "c2" := [Cannibal(2), Boat],
      "c3" := [Cannibal(3), Boat],
      "m1m2" := [Missionary(1), Missionary(2), Boat],
      "m1m3" := [Missionary(1), Missionary(3), Boat],
      "m2m3" := [Missionary(2), Missionary(3), Boat],
      "c1c2" := [Cannibal(1), Cannibal(2), Boat],
      "c1c3" := [Cannibal(1), Cannibal(3), Boat],
      "c2c3" := [Cannibal(2), Cannibal(3), Boat],
      "m1c1" := [Missionary(1), Cannibal(1), Boat],
      "m1c2" := [Missionary(1), Cannibal(2), Boat],
      "m1c3" := [Missionary(1), Cannibal(3), Boat],
      "m2c1" := [Missionary(2), Cannibal(1), Boat],
      "m2c2" := [Missionary(2), Cannibal(2), Boat],
      "m2c3" := [Missionary(2), Cannibal(3), Boat],
      "m3c1" := [Missionary(3), Cannibal(1), Boat],
      "m3c2" := [Missionary(3), Cannibal(2), Boat],
      "m3c3" := [Missionary(3), Cannibal(3), Boat]
    ]
  }

  /** The `passengersCombination` dictionary: the composition tag of each group. */
  function Combinations(): map<string, Tag> {
    map[
      "m1" := M, "m2" := M, "m3" := M,
      "c1" := C, "c2" := C, "c3" := C,
      "m1m2" := TwoM, "m1m3" := TwoM, "m2m3" := TwoM,
      "c1c2" := TwoC, "c1c3" := TwoC, "c2c3" := TwoC,
      "m1c1" := MC, "m1c2" := MC, "m1c3" := MC,
      "m2c1" := MC, "m2c2" := MC, "m2c3" := MC,
      "m3c1" := MC, "m3c2" := MC, "m3c3" := MC
    ]
  }

  /** The order in which both dictionaries list their keys, which is the order
      the game loop visits them in. */
  const CatalogOrder: seq<string> :=
    SingleMissionaries + SingleCannibals + MissionaryPairs + CannibalPairs +
    MixedPairsOf1 + MixedPairsOf2 + MixedPairsOf3

  const SingleMissionaries: seq<string> := ["m1", "m2", "m3"]
  const SingleCannibals: seq<string> := ["c1", "c2", "c3"]
  const MissionaryPairs: seq<string> := ["m1m2", "m1m3", "m2m3"]
  const CannibalPairs: seq<string> := ["c1c2", "c1c3", "c2c3"]
  /** The pairs of missionary n with each cannibal. */
  const MixedPairsOf1: seq<string> := ["m1c1", "m1c2", "m1c3"]
  const MixedPairsOf2: seq<string> := ["m2c1", "m2c2", "m2c3"]
  const MixedPairsOf3: seq<string> := ["m3c1", "m3c2", "m3c3"]

  /** The members of a group, as the game compares them: as a set. */
  function Members(key: string): set<Actor>
    requires key in Groups()
  {
    set a | a in Groups()[key]
  }

  /** How many missionaries and cannibals a list of actors holds. */
  function CountMissionaries(group: seq<Actor>): nat {
    if group == [] then 0 else (if group[0].Missionary? then 1 else 0) + CountMissionaries(group[1..])
  }

  function CountCannibals(group: seq<Actor>): nat {
    if group == [] then 0 else (if group[0].Cannibal? then 1 else 0) + CountCannibals(group[1..])
  }

  /** The composition of a boarding group, if it is one of the five. */
  function Composition(group: seq<Actor>): Option<Tag> {
    var ms, cs := CountMissionaries(group), CountCannibals(group);
    if ms == 1 && cs == 0 then Some(M)
    else if ms == 0 && cs == 1 then Some(C)
    else if ms == 2 && cs == 0 then Some(TwoM)
    else if ms == 0 && cs == 2 then Some(TwoC)
    else if ms == 1 && cs == 1 then Some(MC)
    else None
  }

  /** `Composition` inverts the head counts of a tag: a group has tag `t`
      exactly when it holds the missionaries and cannibals `t` names. */
  lemma CompositionCounts(group: seq<Actor>, t: Tag)
    ensures Composition(group) == Some(t) <==>
      (CountMissionaries(group) == Missionaries(t) && CountCannibals(group) == Cannibals(t))
  {
  }

  /** The tag the catalog gives an entry names the people the entry lists, so
      the crossing of that tag carries exactly the group. */
  lemma EntryCounts(key: string)
    requires key in Groups()
    ensures key in Combinations()
    ensures Missionaries(Combinations()[key]) == CountMissionaries(Groups()[key])
    ensures Cannibals(Combinations()[key]) == CountCannibals(Groups()[key])
  {
    CatalogEntry(key);
    CompositionCounts(Groups()[key], Combinations()[key]);
  }

  /** The name the catalog gives a set of actors: its people in roster order. */
  function Code(s: set<Actor>): string {
    (if Missionary(1) in s then "m1" else "") +
    (if Missionary(2) in s then "m2" else "") +
    (if Missionary(3) in s then "m3" else "") +
    (if Cannibal(1) in s then "c1" else "") +
    (if Cannibal(2) in s then "c2" else "") +
    (if Cannibal(3) in s then "c3" else "")
  }

  /** A group the boat may carry: the boat and one or two people of the roster. */
  predicate LegalBoarding(s: set<Actor>) {
    Boat in s && s - {Boat} <= Roster && 1 <= |s - {Boat}| <= BOAT_MAX_CAPACITY
  }

  /** Number of keys in `order` that the tag dictionary maps to `t`. */
  function CountTag(order: seq<string>, t: Tag): nat {
    if order == [] then 0
    else
      var here := if order[0] in Combinations() && Combinations()[order[0]] == t then 1 else 0;
      here + CountTag(order[1..], t)
  }

  predicate Distinct<T(==)>(s: seq<T>) {
    forall i, j :: 0 <= i < j < |s| ==> s[i] != s[j]
  }

  // ---------------------------------------------------------------------------
  // The two dictionaries

  lemma {:induction false} DistinctCardinality<T>(s: seq<T>)
    requires Distinct(s)
    ensures |set x | x in s| == |s|
  {
    if s != [] {
      DistinctCardinality(s[1..]);
      assert (set x | x in s) == {s[0]} + (set x | x in s[1..]);
      assert s[0] !in (set x | x in s[1..]);
    }
  }

  lemma CatalogOrderDistinct()
    ensures Distinct(CatalogOrder)
  {
  }

  /** Both dictionaries have exactly the 21 keys of the catalog order. */
  lemma CatalogKeys()
    ensures Groups().Keys == Combinations().Keys == set k | k in CatalogOrder
    ensures |Groups().Keys| == |CatalogOrder| == 21
  {
    CatalogOrderDistinct();
    DistinctCardinality(CatalogOrder);
  }

  /** The shape of a catalog entry: one or two distinct people of the roster,
      then the boat. */
  predicate WellFormedGroup(g: seq<Actor>) {
    2 <= |g| <= BOAT_MAX_CAPACITY + 1 && g[|g| - 1] == Boat &&
    Distinct(g) && (forall i :: 0 <= i < |g| - 1 ==> g[i] in Roster)
  }

  /** What holds of every catalog entry: its group is well formed, its tag is
      the composition of the group, and its key is the code of its members. */
  predicate EntryFacts(key: string) {
    key in Groups() && key in Combinations() &&
    WellFormedGroup(Groups()[key]) &&
    Composition(Groups()[key]) == Some(Combinations()[key]) &&
    Code(Members(key)) == key
  }

  /** Every entry of the catalog satisfies the entry facts. */
  lemma CatalogEntry(key: string)
    requires key in Groups()
    ensures EntryFacts(key)
  {
    if key == "m1" {
      EntryM1();
    } else if key == "m2" {
      EntryM2();
    } else if key == "m3" {
      EntryM3();
    } else if key == "c1" {
      EntryC1();
    } else if key == "c2" {
      EntryC2();
    } else if key == "c3" {
      EntryC3();
    } else if key == "m1m2" {
      EntryM1M2();
    } else if key == "m1m3" {
      EntryM1M3();
    } else if key == "m2m3" {
      EntryM2M3();
    } else if key == "c1c2" {
      EntryC1C2();
    } else if key == "c1c3" {
      EntryC1C3();
    } else if key == "c2c3" {
      EntryC2C3();
    } else if key == "m1c1" {
      EntryM1C1();
    } else if key == "m1c2" {
      EntryM1C2();
    } else if key == "m1c3" {
      EntryM1C3();
    } else if key == "m2c1" {
      EntryM2C1();
    } else if key == "m2c2" {
      EntryM2C2();
    } else if key == "m2c3" {
      EntryM2C3();
    } else if key == "m3c1" {
      EntryM3C1();
    } else if key == "m3c2" {
      EntryM3C2();
    } else {
      assert key == "m3c3";
      EntryM3C3();
    }
  }

  /** A well-formed entry, taken as a set, is a legal boarding. */
  lemma WellFormedIsLegal(g: seq<Actor>)
    requires WellFormedGroup(g)
    ensures LegalBoarding(set a | a in g)
  {
    var people := (set a | a in g) - {Boat};
    if |g| == 2 {
      assert people == {g[0]};
    } else {
      assert people == {g[0], g[1]};
    }
  }

  lemma {:induction false} CountTagAppend(a: seq<string>, b: seq<string>, t: Tag)
    ensures CountTag(a + b, t) == CountTag(a, t) + CountTag(b, t)
  {
    if a == [] {
      assert a + b == b;
    } else {
      assert (a + b)[1..] == a[1..] + b;
      CountTagAppend(a[1..], b, t);
    }
  }

  lemma SingleMissionariesTags(t: Tag)
    ensures CountTag(SingleMissionaries, t) == if t == M then 3 else 0
  {
  }

  lemma SingleCannibalsTags(t: Tag)
    ensures CountTag(SingleCannibals, t) == if t == C then 3 else 0
  {
  }

  lemma MissionaryPairsTags(t: Tag)
    ensures CountTag(MissionaryPairs, t) == if t == TwoM then 3 else 0
  {
  }

  lemma CannibalPairsTags(t: Tag)
    ensures CountTag(CannibalPairs, t) == if t == TwoC then 3 else 0
  {
  }

  lemma MixedPairsOf1Tags(t: Tag)
    ensures CountTag(MixedPairsOf1, t) == if t == MC then 3 else 0
  {
  }

  lemma MixedPairsOf2Tags(t: Tag)
    ensures CountTag(MixedPairsOf2, t) == if t == MC then 3 else 0
  {
  }

  lemma MixedPairsOf3Tags(t: Tag)
    ensures CountTag(MixedPairsOf3, t) == if t == MC then 3 else 0
  {
  }

  /** The catalog holds 6 single crossings (3 "m", 3 "c"), 3 "2m", 3 "2c" and
      9 "mc". */
  lemma TagCounts(t: Tag)
    ensures CountTag(CatalogOrder, t) == match t
      case M => 3
      case C => 3
      case TwoM => 3
      case TwoC => 3
      case MC => 9
  {
    CountTagAppend(SingleMissionaries + SingleCannibals + MissionaryPairs + CannibalPairs + MixedPairsOf1 + MixedPairsOf2, MixedPairsOf3, t);
    CountTagAppend(SingleMissionaries + SingleCannibals + MissionaryPairs + CannibalPairs + MixedPairsOf1, MixedPairsOf2, t);
    CountTagAppend(SingleMissionaries + SingleCannibals + MissionaryPairs + CannibalPairs, MixedPairsOf1, t);
    CountTagAppend(SingleMissionaries + SingleCannibals + MissionaryPairs, CannibalPairs, t);
    CountTagAppend(SingleMissionaries + SingleCannibals, MissionaryPairs, t);
    CountTagAppend(SingleMissionaries, SingleCannibals, t);
    SingleMissionariesTags(t);
    SingleCannibalsTags(t);
    MissionaryPairsTags(t);
    CannibalPairsTags(t);
    MixedPairsOf1Tags(t);
    MixedPairsOf2Tags(t);
    MixedPairsOf3Tags(t);
  }

  /** No two keys stand for the same set of actors. */
  lemma GroupsDistinct(k1: string, k2: string)
    requires k1 in Groups() && k2 in Groups()
    requires Members(k1) == Members(k2)
    ensures k1 == k2
  {
    CatalogEntry(k1);
    CatalogEntry(k2);
  }

  /** One person boards alone. */
  lemma SingleInCatalog(a: Actor)
    requires a in Roster
    ensures Code({a, Boat}) in Groups() && Members(Code({a, Boat})) == {a, Boat}
  {
    if a == Missionary(1) {
      assert Code({a, Boat}) == "m1";
      EntryM1();
    } else if a == Missionary(2) {
      assert Code({a, Boat}) == "m2";
      EntryM2();
    } else if a == Missionary(3) {
      assert Code({a, Boat}) == "m3";
      EntryM3();
    } else if a == Cannibal(1) {
      assert Code({a, Boat}) == "c1";
      EntryC1();
    } else if a == Cannibal(2) {
      assert Code({a, Boat}) == "c2";
      EntryC2();
    } else {
      assert Code({a, Boat}) == "c3";
      EntryC3();
    }
  }

  /** Two missionaries board together. */
  lemma MissionaryPairInCatalog(a: Actor, b: Actor)
    requires a in Roster && b in Roster && a != b && a.Missionary? && b.Missionary?
    ensures Code({a, b, Boat}) in Groups() && Members(Code({a, b, Boat})) == {a, b, Boat}
  {
    if {a, b} == {Missionary(1), Missionary(2)} {
      assert Code({a, b, Boat}) == "m1m2";
      EntryM1M2();
    } else if {a, b} == {Missionary(1), Missionary(3)} {
      assert Code({a, b, Boat}) == "m1m3";
      EntryM1M3();
    } else {
      assert {a, b} == {Missionary(2), Missionary(3)};
      assert Code({a, b, Boat}) == "m2m3";
      EntryM2M3();
    }
  }

  /** Two cannibals board together. */
  lemma CannibalPairInCatalog(a: Actor, b: Actor)
    requires a in Roster && b in Roster && a != b && a.Cannibal? && b.Cannibal?
    ensures Code({a, b, Boat}) in Groups() && Members(Code({a, b, Boat})) == {a, b, Boat}
  {
    if {a, b} == {Cannibal(1), Cannibal(2)} {
      assert Code({a, b, Boat}) == "c1c2";
      EntryC1C2();
    } else if {a, b} == {Cannibal(1), Cannibal(3)} {
      assert Code({a, b, Boat}) == "c1c3";
      EntryC1C3();
    } else {
      assert {a, b} == {Cannibal(2), Cannibal(3)};
      assert Code({a, b, Boat}) == "c2c3";
      EntryC2C3();
    }
  }

  /** A missionary and a cannibal board together. */
  lemma MixedPairInCatalog(a: Actor, b: Actor)
    requires a in Roster && b in Roster && a.Missionary? && b.Cannibal?
    ensures Code({a, b, Boat}) in Groups() && Members(Code({a, b, Boat})) == {a, b, Boat}
  {
    if a == Missionary(1) && b == Cannibal(1) {
      assert Code({a, b, Boat}) == "m1c1";
      EntryM1C1();
    } else if a == Missionary(1) && b == Cannibal(2) {
      assert Code({a, b, Boat}) == "m1c2";
      EntryM1C2();
    } else if a == Missionary(1) && b == Cannibal(3) {
      assert Code({a, b, Boat}) == "m1c3";
      EntryM1C3();
    } else if a == Missionary(2) && b == Cannibal(1) {
      assert Code({a, b, Boat}) == "m2c1";
      EntryM2C1();
    } else if a == Missionary(2) && b == Cannibal(2) {
      assert Code({a, b, Boat}) == "m2c2";
      EntryM2C2();
    } else if a == Missionary(2) && b == Cannibal(3) {
      assert Code({a, b, Boat}) == "m2c3";
      EntryM2C3();
    } else if a == Missionary(3) && b == Cannibal(1) {
      assert Code({a, b, Boat}) == "m3c1";
      EntryM3C1();
    } else if a == Missionary(3) && b == Cannibal(2) {
      assert Code({a, b, Boat}) == "m3c2";
      EntryM3C2();
    } else {
      assert a == Missionary(3) && b == Cannibal(3);
      assert Code({a, b, Boat}) == "m3c3";
      EntryM3C3();
    }
  }

  lemma PairInCatalog(a: Actor, b: Actor)
    requires a in Roster && b in Roster && a != b
    ensures Code({a, b, Boat}) in Groups() && Members(Code({a, b, Boat})) == {a, b, Boat}
  {
    if a.Missionary? && b.Missionary? {
      MissionaryPairInCatalog(a, b);
    } else if a.Cannibal? && b.Cannibal? {
      CannibalPairInCatalog(a, b);
    } else if a.Missionary? {
      MixedPairInCatalog(a, b);
    } else {
      MixedPairInCatalog(b, a);
      assert {b, a, Boat} == {a, b, Boat};
    }
  }

  /** The catalog holds exactly the legal boardings, each under its code. */
  lemma CatalogComplete(s: set<Actor>)
    ensures LegalBoarding(s) <==> (Code(s) in Groups() && Members(Code(s)) == s)
  {
    if Code(s) in Groups() && Members(Code(s)) == s {
      CatalogEntry(Code(s));
      WellFormedIsLegal(Groups()[Code(s)]);
    }
    if LegalBoarding(s) {
      CatalogCovers(s);
    }
  }

  /** Every legal boarding is listed under its code. */
  lemma CatalogCovers(s: set<Actor>)
    requires LegalBoarding(s)
    ensures Code(s) in Groups() && Members(Code(s)) == s
  {
    {
      var people := s - {Boat};
      var a :| a in people;
      assert people == (people - {a}) + {a};
      if |people| == 1 {
        assert people - {a} == {};
        assert s == {a, Boat};
        SingleInCatalog(a);
      } else {
        var b :| b in people - {a};
        assert people - {a} == (people - {a} - {b}) + {b};
        assert people - {a} - {b} == {};
        assert s == {a, b, Boat};
        PairInCatalog(a, b);
      }
    }
  }

  // ---------------------------------------------------------------------------
  // Entry by entry

  lemma EntryM1()
    ensures EntryFacts("m1") && Members("m1") == {Missionary(1), Boat}
  {
  }

  lemma EntryM2()
    ensures EntryFacts("m2") && Members("m2") == {Missionary(2), Boat}
  {
  }

  lemma EntryM3()
    ensures EntryFacts("m3") && Members("m3") == {Missionary(3), Boat}
  {
  }

  lemma EntryC1()
    ensures EntryFacts("c1") && Members("c1") == {Cannibal(1), Boat}
  {
  }

  lemma EntryC2()
    ensures EntryFacts("c2") && Members("c2") == {Cannibal(2), Boat}
  {
  }

  lemma EntryC3()
    ensures EntryFacts("c3") && Members("c3") == {Cannibal(3), Boat}
  {
  }

  lemma EntryM1M2()
    ensures EntryFacts("m1m2") && Members("m1m2") == {Missionary(1), Missionary(2), Boat}
  {
  }

  lemma EntryM1M3()
    ensures EntryFacts("m1m3") && Members("m1m3") == {Missionary(1), Missionary(3), Boat}
  {
  }

  lemma EntryM2M3()
    ensures EntryFacts("m2m3") && Members("m2m3") == {Missionary(2), Missionary(3), Boat}
  {
  }

  lemma EntryC1C2()
    ensures EntryFacts("c1c2") && Members("c1c2") == {Cannibal(1), Cannibal(2), Boat}
  {
  }

  lemma EntryC1C3()
    ensures EntryFacts("c1c3") && Members("c1c3") == {Cannibal(1), Cannibal(3), Boat}
  {
  }

  lemma EntryC2C3()
    ensures EntryFacts("c2c3") && Members("c2c3") == {Cannibal(2), Cannibal(3), Boat}
  {
  }

  lemma EntryM1C1()
    ensures EntryFacts("m1c1") && Members("m1c1") == {Missionary(1), Cannibal(1), Boat}
  {
  }

  lemma EntryM1C2()
    ensures EntryFacts("m1c2") && Members("m1c2") == {Missionary(1), Cannibal(2), Boat}
  {
  }

  lemma EntryM1C3()
    ensures EntryFacts("m1c3") && Members("m1c3") == {Missionary(1), Cannibal(3), Boat}
  {
  }

  lemma EntryM2C1()
    ensures EntryFacts("m2c1") && Members("m2c1") == {Missionary(2), Cannibal(1), Boat}
  {
  }

  lemma EntryM2C2()
    ensures EntryFacts("m2c2") && Members("m2c2") == {Missionary(2), Cannibal(2), Boat}
  {
  }

  lemma EntryM2C3()
    ensures EntryFacts("m2c3") && Members("m2c3") == {Missionary(2), Cannibal(3), Boat}
  {
  }

  lemma EntryM3C1()
    ensures EntryFacts("m3c1") && Members("m3c1") == {Missionary(3), Cannibal(1), Boat}
  {
  }

  lemma EntryM3C2()
    ensures EntryFacts("m3c2") && Members("m3c2") == {Missionary(3), Cannibal(2), Boat}
  {
  }

  lemma EntryM3C3()
    ensures EntryFacts("m3c3") && Members("m3c3") == {Missionary(3), Cannibal(3), Boat}
  {
  }

  // ---------------------------------------------------------------------------
  // Matching a clicked set against the catalog

  /** The first key of `order` whose group is exactly the clicked set. */
  function FindGroup(order: seq<string>, clicked: set<Actor>): (r: Option<string>)
    requires forall k :: k in order ==> k in Groups()
    ensures r.Some? ==> r.value in order && Members(r.value) == clicked
    ensures r.None? ==> forall k :: k in order ==> Members(k) != clicked
  {
    if order == [] then None
    else if Members(order[0]) == clicked then Some(order[0])
    else FindGroup(order[1..], clicked)
  }

  /** The composition tag of a clicked set, when it is one of the catalog's
      groups, as the game loop looks it up. */
  function Selected(clicked: set<Actor>): (r: Option<Tag>)
    ensures r.Some? <==> LegalBoarding(clicked)
    ensures r.Some? ==>
      var key := Code(clicked);
      key in Groups() && Members(key) == clicked &&
      key in Combinations() && r.value == Combinations()[key] &&
      Composition(Groups()[key]) == r
  {
    CatalogKeys();
    CatalogComplete(clicked);
    match FindGroup(CatalogOrder, clicked)
    case None => None
    case Some(key) =>
      CatalogEntry(key);
      Some(Combinations()[key])
  }

  /** The group listed at position `j` of the catalog order. */
  function GroupAt(j: nat): set<Actor>
    requires j < |CatalogOrder|
  {
    CatalogKeys();
    Members(CatalogOrder[j])
  }

  /** The tag listed at position `j` of the catalog order. */
  function TagAt(j: nat): Tag
    requires j < |CatalogOrder|
  {
    CatalogKeys();
    Combinations()[CatalogOrder[j]]
  }

  /** No key appears twice in the catalog order. */
  lemma OrderInjective(j: nat, k: nat)
    requires j < |CatalogOrder| && k < |CatalogOrder|
    requires CatalogOrder[j] == CatalogOrder[k]
    ensures j == k
  {
    CatalogOrderDistinct();
  }

  /** No two positions of the catalog order list the same group. */
  lemma GroupAtInjective(j: nat, k: nat)
    requires j < |CatalogOrder| && k < |CatalogOrder|
    requires GroupAt(j) == GroupAt(k)
    ensures j == k
  {
    CatalogKeys();
    CatalogOrderDistinct();
    GroupsDistinct(CatalogOrder[j], CatalogOrder[k]);
  }

  /** A clicked set listed at position `j` of the catalog order has the tag
      listed there. */
  lemma SelectedAt(clicked: set<Actor>, j: nat)
    requires j < |CatalogOrder| && GroupAt(j) == clicked
    ensures Selected(clicked) == Some(TagAt(j))
  {
    CatalogKeys();
    CatalogEntry(CatalogOrder[j]);
  }

  /** A clicked set has a tag only when the catalog order lists it. */
  lemma SelectedListed(clicked: set<Actor>)
    requires Selected(clicked).Some?
    ensures exists j :: 0 <= j < |CatalogOrder| && GroupAt(j) == clicked
  {
    CatalogKeys();
    var key := Code(clicked);
    assert key in CatalogOrder;
    var j :| 0 <= j < |CatalogOrder| && CatalogOrder[j] == key;
    assert GroupAt(j) == clicked;
  }

  /** No position of the catalog order before `i` lists `clicked`. */
  predicate UnlistedBefore(clicked: set<Actor>, i: nat)
    requires i <= |CatalogOrder|
  {
    i == 0 || (UnlistedBefore(clicked, i - 1) && GroupAt(i - 1) != clicked)
  }

  lemma {:induction false} UnlistedBeforeAt(clicked: set<Actor>, i: nat, j: nat)
    requires i <= |CatalogOrder| && UnlistedBefore(clicked, i) && j < i
    ensures GroupAt(j) != clicked
    decreases i
  {
    if j < i - 1 {
      UnlistedBeforeAt(clicked, i - 1, j);
    }
  }

  /** A clicked set listed nowhere in the catalog order has no tag. */
  lemma UnlistedUntagged(clicked: set<Actor>)
    requires UnlistedBefore(clicked, |CatalogOrder|)
    ensures Selected(clicked).None?
  {
    if Selected(clicked).Some? {
      SelectedListed(clicked);
      var j :| 0 <= j < |CatalogOrder| && GroupAt(j) == clicked;
      UnlistedBeforeAt(clicked, |CatalogOrder|, j);
    }
  }
}
