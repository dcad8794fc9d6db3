/** The code tables of the card engines hold no spelling twice: within each
    group (rarities, factions, types, the older rarities) no spelling is in
    two tables, so the code a known spelling gets is the index of the one
    table that holds it. */
module CodeTables {
  import opened Text
  import opened Codes

  /** No spelling is in two tables of the list. */
  predicate Disjoint(tables: seq<seq<string>>) {
    forall i, j, w :: 0 <= i < j < |tables| && w in tables[i] ==> w !in tables[j]
  }

  /** No spelling is in both tables. */
  predicate Apart(a: seq<string>, b: seq<string>) {
    forall w :: w in a ==> w !in b
  }

  /** Every group of tables is disjoint. */
  lemma TablesDisjoint()
    ensures Disjoint(RarityTables) && Disjoint(FactionTables) && Disjoint(TypeTables) && Disjoint(LegacyTables)
  {
    FactionTablesDisjoint();
  }

  /** A known spelling's code is the index of the one table that holds it:
      "gold" and "bronze" never share a code, nor do two factions or types. */
  lemma CodeIsTableIndex(rarity: string, faction: string, t: string)
    ensures forall i :: 0 <= i < |RarityTables| ==> (RarityCode(rarity) == i <==> RarityKey(rarity) in RarityTables[i])
    ensures forall i :: 0 <= i < |FactionTables| ==> (FactionCode(faction) == i <==> Lower(faction) in FactionTables[i])
    ensures forall i :: 0 <= i < |TypeTables| ==> (TypeCode(t) == i <==> t in TypeTables[i])
    ensures forall i :: 0 <= i < |LegacyTables| ==> (RarityCalc(rarity) == i <==> Lower(rarity) in LegacyTables[i])
  {
    TablesDisjoint();
  }

  /** The nine faction tables, from the thirty-six pairs below. */
  lemma FactionTablesDisjoint()
    ensures Disjoint(FactionTables)
  {
    NeutralApartForest();
    NeutralApartSword();
    NeutralApartRune();
    NeutralApartDragon();
    NeutralApartShadow();
    NeutralApartBlood();
    NeutralApartHaven();
    NeutralApartPortal();
    ForestApartSword();
    ForestApartRune();
    ForestApartDragon();
    ForestApartShadow();
    ForestApartBlood();
    ForestApartHaven();
    ForestApartPortal();
    SwordApartRune();
    SwordApartDragon();
    SwordApartShadow();
    SwordApartBlood();
    SwordApartHaven();
    SwordApartPortal();
    RuneApartDragon();
    RuneApartShadow();
    RuneApartBlood();
    RuneApartHaven();
    RuneApartPortal();
    DragonApartShadow();
    DragonApartBlood();
    DragonApartHaven();
    DragonApartPortal();
    ShadowApartBlood();
    ShadowApartHaven();
    ShadowApartPortal();
    BloodApartHaven();
    BloodApartPortal();
    HavenApartPortal();
    assert forall i, j :: 0 <= i < j < |FactionTables| ==> Apart(FactionTables[i], FactionTables[j]);
  }

  // One pair of faction tables per lemma: the spellings are compared as
  // literals, and one proof over all of them would be too large.

  lemma NeutralApartForest()
    ensures Apart(NeutralWords, ForestWords)
  {
  }

  lemma NeutralApartSword()
    ensures Apart(NeutralWords, SwordWords)
  {
  }

  lemma NeutralApartRune()
    ensures Apart(NeutralWords, RuneWords)
  {
  }

  lemma NeutralApartDragon()
    ensures Apart(NeutralWords, DragonWords)
  {
  }

  lemma NeutralApartShadow()
    ensures Apart(NeutralWords, ShadowWords)
  {
  }

  lemma NeutralApartBlood()
    ensures Apart(NeutralWords, BloodWords)
  {
  }

  lemma NeutralApartHaven()
    ensures Apart(NeutralWords, HavenWords)
  {
  }

  lemma NeutralApartPortal()
    ensures Apart(NeutralWords, PortalWords)
  {
  }

  lemma ForestApartSword()
    ensures Apart(ForestWords, SwordWords)
  {
  }

  lemma ForestApartRune()
    ensures Apart(ForestWords, RuneWords)
  {
  }

  lemma ForestApartDragon()
    ensures Apart(ForestWords, DragonWords)
  {
  }

  lemma ForestApartShadow()
    ensures Apart(ForestWords, ShadowWords)
  {
  }

  lemma ForestApartBlood()
    ensures Apart(ForestWords, BloodWords)
  {
  }

  lemma ForestApartHaven()
    ensures Apart(ForestWords, HavenWords)
  {
  }

  lemma ForestApartPortal()
    ensures Apart(ForestWords, PortalWords)
  {
  }

  lemma SwordApartRune()
    ensures Apart(SwordWords, RuneWords)
  {
  }

  lemma SwordApartDragon()
    ensures Apart(SwordWords, DragonWords)
  {
  }

  lemma SwordApartShadow()
    ensures Apart(SwordWords, ShadowWords)
  {
  }

  lemma SwordApartBlood()
    ensures Apart(SwordWords, BloodWords)
  {
  }

  lemma SwordApartHaven()
    ensures Apart(SwordWords, HavenWords)
  {
  }

  lemma SwordApartPortal()
    ensures Apart(SwordWords, PortalWords)
  {
  }

  lemma RuneApartDragon()
    ensures Apart(RuneWords, DragonWords)
  {
  }

  lemma RuneApartShadow()
    ensures Apart(RuneWords, ShadowWords)
  {
  }

  lemma RuneApartBlood()
    ensures Apart(RuneWords, BloodWords)
  {
  }

  lemma RuneApartHaven()
    ensures Apart(RuneWords, HavenWords)
  {
  }

  lemma RuneApartPortal()
    ensures Apart(RuneWords, PortalWords)
  {
  }

  lemma DragonApartShadow()
    ensures Apart(DragonWords, ShadowWords)
  {
  }

  lemma DragonApartBlood()
    ensures Apart(DragonWords, BloodWords)
  {
  }

  lemma DragonApartHaven()
    ensures Apart(DragonWords, HavenWords)
  {
  }

  lemma DragonApartPortal()
    ensures Apart(DragonWords, PortalWords)
  {
  }

  lemma ShadowApartBlood()
    ensures Apart(ShadowWords, BloodWords)
  {
  }

  lemma ShadowApartHaven()
    ensures Apart(ShadowWords, HavenWords)
  {
  }

  lemma ShadowApartPortal()
    ensures Apart(ShadowWords, PortalWords)
  {
  }

  lemma BloodApartHaven()
    ensures Apart(BloodWords, HavenWords)
  {
  }

  lemma BloodApartPortal()
    ensures Apart(BloodWords, PortalWords)
  {
  }

  lemma HavenApartPortal()
    ensures Apart(HavenWords, PortalWords)
  {
  }
}
