/** Normalisation of localised rarity, faction and type spellings to small
    integer codes (utils/engines/_base.py), and the legacy engine's rarity
    table (_engines/_base.py). */
module Codes {
  import opened Text

  const BronzeWords: seq<string> := ["bronze", "ブロンズレア", "ブロンズ", "青铜", "青銅", "铜", "銅"]
  const SilverWords: seq<string> := ["silver", "シルバーレア", "シルバー", "白银", "白銀", "银", "銀"]
  const GoldWords: seq<string> := ["gold", "ゴールドレア", "ゴールド", "黄金", "金"]
  const LegendaryWords: seq<string> := ["legendary", "レジェンド", "传说", "傳說", "虹"]

  /** The four rarity tables, in code order. */
  const RarityTables: seq<seq<string>> := [BronzeWords, SilverWords, GoldWords, LegendaryWords]

  /** The rarity spelling with case and every trailing '卡' ("card") removed. */
  function RarityKey(rarity: string): string {
    StripRightChar(Lower(rarity), '卡')
  }

  /** `get_rarity_code`: 0 bronze, 1 silver, 2 gold, 3 legendary, -1 unknown. */
  function RarityCode(rarity: string): (code: int)
    ensures -1 <= code <= 3
    ensures code >= 0 <==> RarityKey(rarity) in BronzeWords || RarityKey(rarity) in SilverWords
                           || RarityKey(rarity) in GoldWords || RarityKey(rarity) in LegendaryWords
    ensures code >= 0 ==> RarityKey(rarity) in RarityTables[code]
  {
    var key := RarityKey(rarity);
    if key in BronzeWords then 0
    else if key in SilverWords then 1
    else if key in GoldWords then 2
    else if key in LegendaryWords then 3
    else -1
  }

  const NeutralWords: seq<string> := ["neutral", "ニュートラル", "中立"]
  const ForestWords: seq<string> := ["forestcraft", "エルフ", "精灵", "精靈", "妖精", "妖"]
  const SwordWords: seq<string> := ["swordcraft", "ロイヤル", "皇家护卫", "皇家護衛", "皇室护卫", "皇家", "皇室", "皇"]
  const RuneWords: seq<string> := ["runecraft", "ウィッチ", "法师", "法", "巫师", "巫師"]
  const DragonWords: seq<string> := ["dragoncraft", "ドラゴン", "龙族", "龍族", "龙", "龍"]
  const ShadowWords: seq<string> := ["shadowcraft", "ネクロマンサー", "死灵法师", "死靈法師", "死灵术士", "死灵", "死", "唤灵师"]
  const BloodWords: seq<string> := ["bloodcraft", "ヴァンパイア", "吸血鬼", "鬼", "血族", "暗夜伯爵"]
  const HavenWords: seq<string> := ["havencraft", "ビショップ", "主教", "教"]
  const PortalWords: seq<string> := ["portalcraft", "ネメシス", "复仇者", "復仇者", "超越者", "鱼"]

  /** The nine faction tables, in code order. */
  const FactionTables: seq<seq<string>> :=
    [NeutralWords, ForestWords, SwordWords, RuneWords, DragonWords, ShadowWords, BloodWords, HavenWords, PortalWords]

  /** `get_faction_code`: 0 neutral .. 8 portalcraft, -1 unknown; case-insensitive. */
  function FactionCode(faction: string): (code: int)
    ensures -1 <= code <= 8
    ensures code >= 0 <==> exists words :: words in FactionTables && Lower(faction) in words
    ensures code >= 0 ==> Lower(faction) in FactionTables[code]
  {
    var key := Lower(faction);
    if key in NeutralWords then 0
    else if key in ForestWords then 1
    else if key in SwordWords then 2
    else if key in RuneWords then 3
    else if key in DragonWords then 4
    else if key in ShadowWords then 5
    else if key in BloodWords then 6
    else if key in HavenWords then 7
    else if key in PortalWords then 8
    else -1
  }

  const FollowerWords: seq<string> := ["followers", "follower", "フォロワー", "从者", "随从"]
  const SpellWords: seq<string> := ["spells", "spell", "スペル", "法术"]
  const AmuletWords: seq<string> := ["amulets", "amulet", "アミュレット", "护符", "魔法阵"]

  /** The three type tables, in code order. */
  const TypeTables: seq<seq<string>> := [FollowerWords, SpellWords, AmuletWords]

  /** `get_type_code`: 0 follower, 1 spell, 2 amulet, -1 unknown; case-sensitive. */
  function TypeCode(t: string): (code: int)
    ensures -1 <= code <= 2
    ensures code >= 0 <==> t in FollowerWords || t in SpellWords || t in AmuletWords
    ensures code >= 0 ==> t in TypeTables[code]
  {
    if t in FollowerWords then 0
    else if t in SpellWords then 1
    else if t in AmuletWords then 2
    else -1
  }

  /** `check_code_equal`: two spellings agree when both are known and name the same thing. */
  predicate CodeEqual(a: int, b: int) {
    a >= 0 && b >= 0 && a == b
  }

  /** Code equality is symmetric and never holds for an unknown spelling, so it
      is an equivalence on the known codes only. */
  lemma CodeEqualUnknown(a: int, b: int)
    ensures CodeEqual(a, b) <==> CodeEqual(b, a)
    ensures a < 0 ==> !CodeEqual(a, b)
    ensures CodeEqual(a, b) ==> CodeEqual(a, a)
  {
  }

  /** Upper-case letters and trailing '卡' do not change the rarity code. */
  lemma RarityCodeNormalises(rarity: string)
    ensures RarityCode(rarity) == RarityCode(Lower(rarity))
    ensures RarityCode(rarity + "卡") == RarityCode(rarity)
  {
    LowerIdempotent(rarity);
    var s := rarity + "卡";
    assert Lower(s) == Lower(rarity) + "卡";
    assert Lower(s)[..|Lower(s)| - 1] == Lower(rarity);
  }

  // One spelling per helper: evaluating the normalisation of several
  // literals in one proof is too large for the solver.

  lemma GoldSpelling(s: string)
    requires s == "Gold"
    ensures RarityCode(s) == 2
  {
    assert Lower(s) == "gold";
  }

  lemma GoldCardSpelling(s: string)
    requires s == "金卡"
    ensures RarityCode(s) == 2
  {
    assert Lower(s) == s;
    assert StripRightChar(s, '卡') == "金" by {
      assert s[..1] == "金";
    }
  }

  lemma LegendCardSpelling(s: string)
    requires s == "传说卡卡"
    ensures RarityCode(s) == 3
  {
    assert Lower(s) == s;
    var t := s[..3];
    var u := t[..2];
    assert t == "传说卡" && u == "传说";
    assert StripRightChar(s, '卡') == StripRightChar(t, '卡') == StripRightChar(u, '卡') == u;
  }

  lemma BronzeSpelling(s: string)
    requires s == "BRONZE"
    ensures RarityCode(s) == 0
  {
    assert Lower(s) == "bronze";
  }

  lemma RareSpelling(s: string)
    requires s == "rare"
    ensures RarityCode(s) == -1
  {
    assert Lower(s) == s;
  }

  /** Rarity spellings seen in practice. */
  lemma RarityExamples()
    ensures RarityCode("Gold") == 2
    ensures RarityCode("金卡") == 2
    ensures RarityCode("传说卡卡") == 3
    ensures RarityCode("BRONZE") == 0
    ensures RarityCode("rare") == -1
  {
    GoldSpelling("Gold");
    GoldCardSpelling("金卡");
    LegendCardSpelling("传说卡卡");
    BronzeSpelling("BRONZE");
    RareSpelling("rare");
  }

  lemma ForestSpelling(s: string)
    requires s == "Forestcraft"
    ensures FactionCode(s) == 1
  {
    assert Lower(s) == "forestcraft";
  }

  lemma DragonSpelling(s: string)
    requires s == "DRAGONCRAFT"
    ensures FactionCode(s) == FactionCode("dragoncraft") == 4
  {
    assert Lower(s) == "dragoncraft";
    assert Lower("dragoncraft") == "dragoncraft";
  }

  lemma TypeSpelling(s: string)
    requires s == "follower" || s == "Follower"
    ensures TypeCode(s) == (if s == "follower" then 0 else -1)
  {
  }

  /** Faction spellings are case-insensitive, type spellings are not. */
  lemma CaseSensitivity()
    ensures FactionCode("Forestcraft") == 1
    ensures FactionCode("DRAGONCRAFT") == FactionCode("dragoncraft") == 4
    ensures TypeCode("follower") == 0
    ensures TypeCode("Follower") == -1
  {
    ForestSpelling("Forestcraft");
    DragonSpelling("DRAGONCRAFT");
    TypeSpelling("follower");
    TypeSpelling("Follower");
  }

  /** Faction codes ignore case. */
  lemma FactionCodeCaseless(faction: string)
    ensures FactionCode(faction) == FactionCode(Lower(faction))
  {
    LowerIdempotent(faction);
  }

  const LegacyBronze: seq<string> := ["bronze", "铜", "青铜"]
  const LegacySilver: seq<string> := ["silver", "银", "白银"]
  const LegacyGold: seq<string> := ["gold", "金", "黄金"]
  const LegacyLegendary: seq<string> := ["legendary", "虹", "传说"]

  /** The older engine's four rarity tables, in code order. */
  const LegacyTables: seq<seq<string>> := [LegacyBronze, LegacySilver, LegacyGold, LegacyLegendary]

  /** `rarity_calc` of the legacy engine: the same codes from a smaller table
      and without stripping '卡'. */
  function RarityCalc(rarity: string): (code: int)
    ensures -1 <= code <= 3
    ensures code >= 0 <==> Lower(rarity) in LegacyBronze || Lower(rarity) in LegacySilver
                           || Lower(rarity) in LegacyGold || Lower(rarity) in LegacyLegendary
    ensures code >= 0 ==> Lower(rarity) in LegacyTables[code]
  {
    var key := Lower(rarity);
    if key in LegacyBronze then 0
    else if key in LegacySilver then 1
    else if key in LegacyGold then 2
    else if key in LegacyLegendary then 3
    else -1
  }

  /** `rarity_calc` depends only on the lower-cased spelling. */
  lemma RarityCalcCaseless(rarity: string)
    ensures RarityCalc(rarity) == RarityCalc(Lower(rarity))
  {
    LowerIdempotent(rarity);
  }

  /** Every legacy spelling means the same in the newer table, which only adds
      spellings: the newer code refines the legacy one. */
  lemma RarityCalcRefined(rarity: string)
    requires RarityCalc(rarity) >= 0
    requires forall k :: 0 <= k < |rarity| ==> rarity[k] != '卡'
    ensures RarityCode(rarity) == RarityCalc(rarity)
  {
    var key := Lower(rarity);
    assert |key| > 0;
    assert key[|key| - 1] != '卡';
    assert RarityKey(rarity) == key;
    var code := RarityCalc(rarity);
    if code == 0 {
      assert key in BronzeWords;
    } else if code == 1 {
      assert key !in BronzeWords && key in SilverWords;
    } else if code == 2 {
      assert key !in BronzeWords && key !in SilverWords && key in GoldWords;
    } else {
      assert key !in BronzeWords && key !in SilverWords && key !in GoldWords && key in LegendaryWords;
    }
  }
}
