# Shadowverse card plugin: a Dafny model of its core

This project models the core of a chat-bot plugin for the card game
Shadowverse. The plugin answers card queries and runs two guessing games in
group chats. It has these parts:

- **Standard card and search.** Providers turn their own card records into
  one *standard card* (`StdCard`). The search keeps the cards that pass every
  filter word. A filter word is a cost, a run of stats, a rarity, a faction,
  a type, or text found in a name, a rule or a type. The rarity, faction and
  type spellings map to numeric codes.
- **Providers.**
  - svgdb: English and Japanese. It supplies image and voice URLs and the
    trait separator, and turns voice lists into actions.
  - bagoum: a race parser, `<br>`-split texts, and voice rows.
  - iyingdi: response unwrapping. Its cards have no evolved printing.
- **The older engine.** It keeps the iyingdi card list in a cache for 23
  hours. It filters that list with its own `reduce_cards_data` test and
  produces its own records.
- **Name patterns.** A card's names compile into the pattern that decides a
  guess. Punctuation and spaces are optional and case is ignored. The older
  `games/utils.py` pattern is modelled as well.
- **Card-info picture.** This covers:
  - the UTF-8-based width metric;
  - the line-wrapping `cut` loop, in its current and its older form;
  - the text lines built from a card;
  - the text block and canvas sizes;
  - the row placement loop;
  - the random image crop.
- **`GameManager` and the round protocol.** `GameManager` is the per-group
  state of a game: idle or busy, the winner, the round data. The round
  protocol covers opening a round, checking guesses, closing after the time
  limit, and the unlock command.
- **Settings.** Defaults are filled with `setdefault`. The engine-set command
  writes a group's engine. Lookups give the settings a round or a query sees.
- **Engine registry.** Provider modules are discovered and their engine
  classes registered by name. Later modules win a name. `reload` keeps the
  module list. `list_engines` lists the table.
- **The two card-query handlers.** Each looks up its settings and engine,
  searches, and shows at most `count_max` cards.

Python's uncaught exceptions are modelled as `Result.Crash(fault)`, using the
exception kind the code would raise. This holds for:

- a `KeyError` on a missing field;
- a `TypeError` from joining `None` or from an unhashable key;
- an `AttributeError` from `None.lower()`;
- the `ValueError` of `max([])` or of an empty `randint` range;
- the `IndexError` of `random.choice([])`.

The tests run in the same short-circuit order as Python's `or` and `and`. HTTP
responses, parsed JSON, image sizes and random draws are parameters.

## Model

| member | source | states |
|---|---|---|
| Codes.RarityCode | utils/engines/_base.py:76-96 | The code is between -1 and 3. It is known exactly when the lower-cased spelling, with trailing '卡' stripped, is in one of the four rarity tables. A known code is the index of a table that holds the spelling: bronze 0, silver 1, gold 2, legendary 3. |
| Codes.FactionCode | utils/engines/_base.py:98-138 | The code is between -1 and 8. It is known exactly when the lower-cased spelling is in one of the nine faction tables, and it is then the index of a table that holds it (neutral 0 … portalcraft 8). |
| Codes.TypeCode | utils/engines/_base.py:140-155 | The code is between -1 and 2. It is known exactly when the exact (case-sensitive) spelling is a follower, spell or amulet word, and it is then the index of that table: follower 0, spell 1, amulet 2. |
| Codes.CodeEqualUnknown | utils/engines/_base.py:161-163 | Code equality is symmetric. An unknown (-1) code equals nothing, so the relation is an equivalence on known codes only. |
| Codes.RarityCodeNormalises | utils/engines/_base.py:77-78 | Upper-case letters and a trailing '卡' never change the rarity code. |
| Codes.RarityExamples | utils/engines/_base.py:79-96 | Concrete example of `RarityCode`: "Gold", "金卡", "传说卡卡" and "BRONZE" get their codes, and "rare" is unknown. |
| Codes.CaseSensitivity | utils/engines/_base.py:99-155 | Faction spellings ignore case. Type spellings do not: "Follower" is unknown. |
| Codes.FactionCodeCaseless | utils/engines/_base.py:99-100 | A faction code depends only on the lower-cased spelling. |
| Codes.RarityCalc | _engines/_base.py:22-41 | The older engine's rarity code is between -1 and 3. It is known exactly when the lower-cased spelling is in its smaller tables, and it is then the index of a table that holds it. |
| Codes.RarityCalcCaseless | _engines/_base.py:23-24 | The older rarity code ignores case. |
| Codes.RarityCalcRefined | _engines/_base.py:25-40 | On a spelling without '卡' that the older table knows, the newer table gives the same code. |
| CodeTables.TablesDisjoint | utils/engines/_base.py:76-155 | No spelling is in two tables of the same group: rarities, factions, types, and the older rarities (_engines/_base.py:22-41). |
| CodeTables.FactionTablesDisjoint | utils/engines/_base.py:98-138 | No spelling is in two of the nine faction tables. |
| CodeTables.CodeIsTableIndex | utils/engines/_base.py:76-155 | A spelling gets code i exactly when table i of its group holds it. So "gold" and "bronze" never share a code, and neither do two factions or two types. |
| Search.KeepAll | utils/engines/_base.py:266-286 | One filter pass succeeds exactly when no card's test raises. Its result is an order-preserving selection of the input. |
| Search.KeepAllMembers | utils/engines/_base.py:248-289 | A successful pass keeps exactly the input cards whose test says keep, each as many times as it occurs in the input. |
| Search.KeepTextMeaning | utils/engines/_base.py:266-286 | On a card with every field present, the text branch never raises and decides by the text match. |
| Search.KeepTextCrash | utils/engines/_base.py:268-285 | The text branch raises only on an incomplete card, and only when no name, rule or type hit came first. |
| Search.NameHitNeverCrashes | utils/engines/_base.py:268-272 | A name hit keeps the card even when its other fields are missing. |
| Search.CostFilter | utils/engines/_base.py:254-260 | A filter "<n>00" or "<n>费" keeps exactly the cards of cost n. |
| Search.StatsFilter | utils/engines/_base.py:261-265 | Any other all-digit filter keeps exactly the cards whose cost, attack and defense, written back to back, spell it. |
| Search.CostBeatsStats | utils/engines/_base.py:254-265 | "3100" is read as cost 31, so a 3/10/0 card is dropped. |
| Search.StatsExamples | utils/engines/_base.py:261-265 | Concrete example of the missing length check: both 1/23/4 and 12/3/4 match "1234". |
| Search.EmptyFilterKeepsAll | utils/engines/_base.py:251-252 | An empty filter word changes no search result. |
| Search.SearchNoFilters | utils/engines/_base.py:291-296 | With no filters, the search returns the whole catalogue in order. |
| Search.SearchSubsequence | utils/engines/_base.py:291-296 | Every successful search is an order-preserving selection of the catalogue. |
| Search.SearchNarrows | utils/engines/_base.py:294-295 | If a search with one more filter succeeds, the search without it succeeds too. The longer search's result is a selection of the shorter one's. |
| Search.SearchTotal | utils/engines/_base.py:291-296 | A catalogue of complete cards never makes a search raise, whatever the filters. |
| NamePattern.CardPattern | utils/engines/_base.py:238-246 | The compiled pattern has at least one alternative. Joining no names gives the one empty alternative. |
| NamePattern.MatchExtends | utils/engines/_base.py:246 | `re.match` is anchored only at the start: text after a matching prefix does not matter. |
| NamePattern.MatchCaseless | utils/engines/_base.py:246 | Under IGNORECASE, a guess and its lower-cased form are accepted alike. |
| NamePattern.MatchSelf | utils/engines/_base.py:240-246 | A name typed out in full matches its own element sequence. |
| NamePattern.MatchWithoutIgnored | utils/engines/_base.py:240-246 | A name typed without any of its optional punctuation and spaces still matches. |
| NamePattern.NameIsAccepted | utils/engines/_base.py:238-246 | Any of a card's stripped names, typed in full or without its optional characters, and followed by anything, wins. |
| NamePattern.BlankNameAcceptsAll | utils/engines/_base.py:238-246 | A card with no names, or with a blank first name, accepts every guess. |
| NamePattern.NoMetaSurvives | utils/engines/_base.py:203-236 | No literal left in a name pattern is a regular-expression metacharacter. |
| NamePattern.ParseRender | utils/engines/_base.py:240-246 | Pattern text reads back as the element sequence it was written from, provided no literal is a '.'. |
| NamePattern.NameTextFaithful | utils/engines/_base.py:240-246 | Each alternative's pattern text means exactly its element sequence. |
| NamePattern.MatchDropping | utils/engines/_base.py:240-246 | A name typed with any choice of its optional characters left out still matches. |
| NamePattern.NameWithDropsAccepted | utils/engines/_base.py:238-246 | Any such abbreviated typing of a card's name, followed by anything, wins the round. |
| NamePattern.FireDragon | utils/engines/_base.py:238-246 | Concrete example of `GuessMatches`: "Fire, Dragon!" is won by "Fire Dragon", "FireDragon" and "fire dragon", and not by "Water Dragon". |
| NamePattern.LegacyReplace | games/utils.py:34-41 | The older pattern text is never shorter than the name. |
| NamePattern.LegacyIsRendering | games/utils.py:12-41 | The older pattern text is the rendering of the sequence in which only CJK marks are optional. For a name free of metacharacters, it means exactly that sequence. |
| NamePattern.LegacyIsStrict | games/utils.py:34-41 | The older pattern keeps ASCII punctuation and case: "FireDragon" does not win "Fire, Dragon!". |
| Utf8.ByteLength | utils/engines/_base.py:502 | The UTF-8 length of a text lies between one and four bytes per character. |
| Utf8.AsciiSize | query/synthesis.py:22-23 | An ASCII text weighs one unit per character. |
| Utf8.WideSize | utils/engines/_base.py:501-502 | A text of three-byte (CJK) characters weighs two units per character. |
| Utf8.PrefixSizeGrows | utils/engines/_base.py:501-502 | A longer prefix weighs strictly more, by at least one unit per extra character. |
| Utf8.SizeZero | utils/engines/_base.py:501-502 | Only the empty text weighs zero. |
| LineWrap.EllipsisStarts | utils/engines/_base.py:507 | The '……' matches a left-to-right scan finds are real, non-overlapping occurrences. |
| LineWrap.SplitIndex | utils/engines/_base.py:516-521 | One iteration's split is a candidate end at or after the bound. Its width is closest to the limit, and ties go to the smaller index. |
| LineWrap.CutConcat | utils/engines/_base.py:504-527 | The wrapped lines, put back together, give the input. |
| LineWrap.CutNoEmptyLine | utils/engines/_base.py:504-527 | No wrapped line is empty. |
| LineWrap.CutFits | utils/engines/_base.py:514-527 | A text within the limit stays whole; an empty text gives no line. |
| LineWrap.CutFirstSplit | utils/engines/_base.py:515-524 | A wider text is split once, at the best candidate among ends from index 1 on. The rest is wrapped again. |
| LineWrap.PlainTextHasNoSeparator | utils/engines/_base.py:505-512 | Lower-case letters, with at most an opening '(' first, contain no separator end. |
| LineWrap.NoSeparatorOneLine | utils/engines/_base.py:516-526 | A text without any separator stays one line, however wide: there is no hard cut. |
| LineWrap.NoSeparatorExample | utils/engines/_base.py:516-526 | Twenty-five 'a's with limit 10 stay one line. |
| LineWrap.LegacyStepAsWritten | query/synthesis.py:33-41 | One iteration of the older loop, as written, leaves a suffix of its input. |
| LineWrap.LegacyStalls | query/synthesis.py:28-41 | A wide line opening with '(' and holding no other separator makes the older loop split at index 0. The remainder is the same too-wide line, so the loop never ends. |
| LineWrap.LegacyStallsExample | query/synthesis.py:28-41 | "(" followed by thirty 'a's, with limit 10, is such a line. |
| LineWrap.LegacyCut | query/synthesis.py:25-44 | The corrected older loop always ends. Its lines are non-empty and give back the input. |
| LineWrap.ZeroCandidate | query/synthesis.py:27-37 | Index 0 is a split end of the older look-aheads exactly when the line opens with '(', '（' or '「'. |
| LineWrap.SplitFromOne | query/synthesis.py:28-41 | When the best split is not at index 0, it is the best split among ends from index 1. So the older loop and the corrected one agree on every step that moves. |
| LineWrap.LegacyCutAsWritten | query/synthesis.py:25-44 | The older loop as written. When it ends, its lines are those of the corrected loop. Otherwise it stalls: some remainder wider than the limit splits at index 0. |
| LineWrap.NoOpenerNeverStalls | query/synthesis.py:25-44 | A line with no opening bracket never stalls the older loop. It gives the corrected loop's lines. |
| LineWrap.LegacyCutStalls | query/synthesis.py:25-44 | The older loop as written stalls on a line that opens with '(' and holds no other separator, when the line is wider than the limit. |
| TextLines.WrapParagraphsConcat | utils/engines/_base.py:538-540 | Wrapping several paragraphs keeps all their characters in order, with no empty line. |
| TextLines.WrapTextsFaithful | utils/engines/_base.py:538-544 | The wrapped description or rule lines hold exactly the texts' characters, less the newlines they were split at. |
| TextLines.MakeTextLines | utils/engines/_base.py:529-555 | As written, the block fails exactly when the faction, the series or the evolved printing is missing. A card with a faction but no evolved printing fails with KeyError. Otherwise it holds the names, a blank, the series, a blank, and the faction and types joined by '/'. Then come the base printing and the evolved printing (see `PrintingFaithful`). |
| TextLines.NoEvolvedNoLines | utils/engines/_base.py:546 | Every card with a faction but no evolved printing, as iyingdi produces, fails with KeyError. |
| TextLines.MakeTextLinesGuarded | utils/engines/_base.py:529-555 | The corrected block fails only on a missing faction or series. It has the same header, then the base printing, then the evolved printing only when the card has one. It agrees with the code on every card that has an evolved printing. |
| TextLines.PrintingFaithful | utils/engines/_base.py:535-544 | A printing is: a dashed rule, the stats, a blank, the descriptions' text, a blank, the rules' text. |
| TextLines.LegacyTextLines | query/synthesis.py:46-60 | The older block is: names, a blank, the series, a blank, faction and varieties joined by '/', a blank, descriptions, a blank, rules. |
| TextLines.LegacyTextLinesTail | query/synthesis.py:52-60 | After the five heading lines, the older block holds the descriptions' text, one blank, then the rules' text. Only the newlines they were split at are missing. |
| TextLines.LegacyWrap | query/synthesis.py:53-59 | What the older wrapping gives whenever it ends: exactly the texts' characters, less the split newlines. |
| TextLines.LegacyParagraphsAsWritten | query/synthesis.py:53-59 | Wrapping the paragraphs of one text ends exactly when each paragraph's older loop ends, and then gives the corrected wrapping. Otherwise it stalls. |
| TextLines.LegacyTextsAsWritten | query/synthesis.py:53-59 | Wrapping a list of texts ends exactly when each text's paragraphs do, and then gives the corrected wrapping. Otherwise it stalls. |
| TextLines.RecordTextLines | query/synthesis.py:46-60 | On a record of the older engine, a missing faction raises TypeError. Otherwise a stalling description or rule never returns. The block exists exactly when the faction and series are present and neither wrapping stalls. It then holds the names, the series line, the '/'-joined varieties and the wrapped texts, in that order. |
| TextLines.RecordStalls | query/synthesis.py:46-59 | A record with a faction whose first description is '(' followed only by 'a's, at least twice the width limit, never gets a block. |
| Crop.Scale | utils/engines/_base.py:484-488 | `int(n * f)` is the floor of the product. It is at most n when f is at most one. |
| Crop.CropWindow | utils/engines/_base.py:480-488 | The square's side scales the height. The corner ranges are the scaled left and top bounds, up to the scaled right and bottom bounds less the side. |
| Crop.Pick | utils/engines/_base.py:489-490 | A draw of `randint(lo, hi)` lies in [lo, hi]. |
| Crop.PickReaches | utils/engines/_base.py:489-490 | Every value of [lo, hi] is some draw's result. |
| Crop.CropBox | utils/engines/_base.py:489-491 | An empty corner range raises ValueError. Otherwise the box is a square of the window's side, with its corner in the ranges. |
| Crop.CropReaches | utils/engines/_base.py:489-491 | Every corner in the ranges is produced by some pair of draws. |
| Crop.CardCropInside | utils/engines/_base.py:480-491 | With fractions in [0, 1], a successful crop lies inside the image. |
| Crop.BaseCropExample | utils/engines/_base.py:472-478 | Concrete example of the crop: a 1000 by 1000 image under the base window gives corner ranges [138, 660] by [185, 660] and side 200. |
| Crop.LegacyWindow | games/utils.py:43-48 | As written, the older crop's lower vertical bound scales the width, not the height. |
| Crop.LegacyCropLeavesImage | games/utils.py:48 | On a 2000 by 1000 image, the older crop can put the square's bottom edge at 2000, below the image. |
| Crop.LegacyCrop | games/utils.py:43-51 | The corrected older crop equals the engines' crop and stays inside the image. |
| Crop.Choose | games/utils.py:59-60 | `random.choice` raises IndexError exactly on an empty list, and otherwise returns a member. |
| Crop.ChooseReaches | utils/engines/_base.py:181-186 | Every card can be the one chosen. |
| Svgdb.ParseTrait | utils/engines/svgdb.py:66-68 | The trait parts, joined with the locale's separator, give the trait back. No part contains the separator. |
| Svgdb.ImageUrlRoundTrip | utils/engines/svgdb.py:70-76 | The card id is recovered from both image URLs. A base URL is never read as an evolved one, nor the other way round. |
| Svgdb.LocalesApart | utils/engines/svgdb.py:246-252 | The English and Japanese image URLs never coincide. |
| Svgdb.VoiceUrl | utils/engines/svgdb.py:78-80 | A voice URL lies under the locale's audio folder. |
| Svgdb.VoiceUrlRoundTrip | utils/engines/svgdb.py:254-256 | The voice file is recovered from its URL. |
| Svgdb.DropPlaceholders | utils/engines/_svgdb.py:59-65 | No empty or '-' type survives, and the list does not grow. |
| Svgdb.DropPlaceholdersMembers | utils/engines/_svgdb.py:59-65 | A type is kept exactly when it is in the input and is not a placeholder. |
| Svgdb.DropPlaceholdersKeeps | utils/engines/_svgdb.py:59-65 | A list of real types passes through unchanged and in order. |
| Svgdb.ToStdCard | utils/engines/_svgdb.py:51-93 | The standard card is well formed. Its names, faction, series, rarity, flavour and effect texts, and base and evolved stats are the record's fields, with "" or 0 for a missing one; the evolved printing keeps the base cost. Its types are the type, then the trait, each dropped when it is "" or "-". Its id is the record's id as text, and its image URLs give back that id. |
| Svgdb.ToStdCards | utils/engines/_svgdb.py:95-97 | One standard card per record, in order. Each is well formed, has an evolved printing at the same cost, and has an image URL that names its record's id. |
| Svgdb.ActionOf | utils/engines/_svgdb.py:137-162 | The action per voice key. A play is "enhance" when the file holds "enh", otherwise "play". An attack or death is its translation, followed by " (evolve)" when the file holds "evo". "evolves" maps to "evolve" and "effects" to "effectVoice". "other" reads the ninth character: '4' gives "accelerate", anything else "crystallize", and a name of eight characters or fewer raises IndexError. An unknown key is its own action. |
| Svgdb.EvolvedActionExtends | utils/engines/_svgdb.py:143-152 | An evolved attack or death action is the plain action followed by the evolve suffix. |
| Svgdb.Flatten | utils/engines/_svgdb.py:135 | There is one pair per listed file. The first kind's files come first, in their listed order. The pairs are exactly the (key, file) pairs of the voice lists. |
| Svgdb.FlattenAppend | utils/engines/_svgdb.py:135 | Flattening two runs of voice lists one after the other gives the two flattenings one after the other. |
| Svgdb.VoicesOf | utils/engines/_svgdb.py:136-167 | One voice per pair, in order, with its file's URL and action. It fails exactly when some "other" file name is too short. |
| Svgdb.CardVoices | utils/engines/_svgdb.py:132-167 | One voice per flattened pair. Each URL gives back its pair's file. |
| Bagoum.ParseRace | utils/engines/bagoum.py:21-23 | The race parts, joined with the locale's separator, give the race back. No part contains the separator. |
| Bagoum.ParseRaceJoin | utils/engines/bagoum.py:41-63 | For the one-character separators, parsing a race joined from separator-free parts gives the parts back. |
| Bagoum.ImageUrlRoundTrip | utils/engines/bagoum.py:25-31 | The card id is recovered from both image URLs, and the two are never confused. |
| Bagoum.Paragraphs | utils/engines/_bagoum.py:83-84 | The `<br>`-split parts join back to the field's text, or to "" when it is missing. |
| Bagoum.Types | utils/engines/_bagoum.py:74-80 | The types are the card type, then the race parts in order, with the empty ones dropped. |
| Bagoum.ToStdCard | utils/engines/_bagoum.py:66-100 | The card is well formed with an evolved printing. Its id, name, faction, series and rarity are the record's. Its types are `Types`. Its base and evolved texts are the record's, split on `<br>`. Its base and evolved stats are the cost with each side's attack and defense, 0 when missing. Its image URLs give back the id. |
| Bagoum.MissingEvoData | utils/engines/_bagoum.py:92-98 | A record without evolved data still gets an evolved printing: empty texts and the base cost with 0/0. |
| Bagoum.ToStdCards | utils/engines/_bagoum.py:102-104 | One standard card per record, in order. Each is well formed, has an evolved printing and keeps its record's id. |
| Bagoum.CardVoices | utils/engines/_bagoum.py:134-147 | No rows give no voices. Otherwise the header row is dropped and every other row gives one voice, in order. |
| Bagoum.CardVoicesSources | utils/engines/_bagoum.py:139-145 | Every voice URL is on the site's host and names its row's source. No action starts with whitespace. |
| Iyingdi.Unwrap | utils/engines/iyingdi.py:64-69 | The cards are returned only when the success flag is true. A missing `data` or `cards` gives none. |
| Iyingdi.ToStdCard | utils/engines/iyingdi.py:71-106 | The card is well formed, without any evolved field. Its texts, stats, faction, series, rarity and image are the record's. Its types are the main type, then the sub type, each dropped when empty. |
| Iyingdi.DashTypeKept | utils/engines/iyingdi.py:96-102 | Unlike svgdb, a '-' type is kept. |
| Iyingdi.ToStdCards | utils/engines/iyingdi.py:108-110 | One standard card per record, in order. Each is well formed, keeps its record's game id, and has no evolved printing. |
| LegacyEngine.KeepCard | _engines/iyingdi.py:57-79 | The older test raises AttributeError exactly on a non-digit filter with no text hit, on a card without rarity. |
| LegacyEngine.DigitFilterMeaning | _engines/iyingdi.py:60-64 | An all-digit filter keeps a card exactly when its three numbers, written back to back, spell the filter. |
| LegacyEngine.MissingNumberNeverMatches | _engines/iyingdi.py:62 | A card missing any number never matches a digit filter. |
| LegacyEngine.NoLengthCheck | _engines/iyingdi.py:60-64 | Both 1/23/4 and 12/3/4 match "1234". |
| LegacyEngine.UnknownRarityMatchesUnknown | _engines/iyingdi.py:77 | A filter with no rarity meaning keeps every card whose rarity also has none. |
| LegacyEngine.Reduce | _engines/iyingdi.py:57-79 | It fails exactly when some card's test raises. Otherwise it keeps, in order, exactly the cards that pass. |
| LegacyEngine.ReduceAll | _engines/iyingdi.py:128-129 | When every card has a rarity, the fold succeeds. A failure is the AttributeError of a card without rarity. |
| LegacyEngine.ReduceAllPassing | _engines/iyingdi.py:128-129 | A successful fold keeps exactly the cards that pass every filter, in their order. |
| LegacyEngine.PassingCompose | _engines/iyingdi.py:128-129 | Selecting by one filter and then by the rest is selecting by all of them. |
| LegacyEngine.ReduceAllMeaning | _engines/iyingdi.py:125-130 | The fold keeps an order-preserving selection: exactly the cards that pass every filter. |
| LegacyEngine.ToRecord | _engines/iyingdi.py:81-118 | The name, description and rule are the record's, one each. The stats, faction, series, rarity and image are kept as they are. The varieties are the main type, then the sub type, each dropped when empty. |
| LegacyEngine.RecordMatchesStdCard | _engines/iyingdi.py:81-118 | The older engine's record agrees field by field with the iyingdi provider's card for the same raw card. The varieties are the types, and the stats differ only by 0 for a missing one. |
| LegacyEngine.ToRecords | _engines/iyingdi.py:82-83 | One record per card, in order. |
| LegacyEngine.CardsSearch | _engines/iyingdi.py:125-130 | When every cached card has a rarity, the search succeeds. A failure is an AttributeError. A success lists the records of exactly the cached cards that pass every filter, in cached order. |
| LegacyEngine.CardsSearchAll | _engines/iyingdi.py:120-130 | With no filters, every cached card is listed. |
| LegacyEngine.GetVertical | _engines/iyingdi.py:48-55 | A stale cache fetches and sets the expiry to 23 hours after the fetch. A fresh cache returns the stored list unchanged. |
| LegacyEngine.LoadVertical | _engines/iyingdi.py:21-25 | A loaded list stays valid for exactly 23 hours. |
| LegacyEngine.CachedWithinLifetime | _engines/iyingdi.py:48-55 | Up to the new expiry time, later calls return the first fetch's list without fetching. |
| LegacyEngine.RefetchAfterExpiry | _engines/iyingdi.py:50-54 | Past the expiry time, the next call fetches again. |
| LegacyEngine.FetchVertical | _engines/iyingdi.py:43-46 | The cards are returned only when the success flag is true. A missing `data` or `cards` gives none. |
| GameManager.Untouched | utils/manager.py:62-80 | A group never touched is idle and undecided, and has no data. |
| GameManager.Start | utils/manager.py:68-71 | `start` makes the group busy and undecided and clears its data. No other group changes. |
| GameManager.Win | utils/manager.py:73-74 | `win` sets the winner and nothing else. |
| GameManager.Finish | utils/manager.py:76-77 | `finish` makes the group idle and keeps its winner and data. |
| GameManager.SetData | utils/manager.py:59-60 | `set_data` stores the data and nothing else. |
| GameManager.DataRoundTrip | utils/manager.py:56-60 | Stored data reads back, and survives `win` and `finish`. `start` clears it. |
| GameManager.WinOverwrites | utils/manager.py:73-74 | The manager has no first-winner latch: a later `win` replaces the winner. |
| GameManager.RestartIsClean | utils/manager.py:68-77 | `finish` then `start` always begins a clean round. |
| GameManager.DifferentGroupsCommute | utils/manager.py:48-80 | Operations on different groups commute. |
| Rounds.Open | games/card_guess.py:66-127 | A busy group is refused unchanged. On an idle group the data is set exactly when the fetch succeeded. The group stays busy exactly when the question was sent or the settings failed before the `try`. The replies are: nothing for bad settings; one message each for a missing engine, a failed fetch and no voices; and the question, or the send failure. The two games report a missing engine differently. When the card game finds no cards, the group gets the no-resources message and then the fetch error. |
| Rounds.Check | games/card_guess.py:144-155 | As written, the guess handler fails with TypeError exactly on a running, undecided card round with no data yet. Otherwise a matching guess makes its sender the winner. |
| Rounds.SafeCheck | games/voice_guess.py:161-173 | The guarded handler never fails. A matching guess on a running, undecided round with data makes its sender the winner, and nothing else changes. |
| Rounds.CheckGuardedWhenSet | games/card_guess.py:146-154 | Once data is set, or when the group is idle or decided, the card game's handler is the guarded one. |
| Rounds.EarlyGuessCrashes | games/card_guess.py:152-154 | A guess between `start` and `set_data` fails the card game and is ignored by the guarded handler. |
| Rounds.Close | games/card_guess.py:129-142 | After the time limit the group is idle. An undecided round is lost (winner -1). The data is kept. |
| Rounds.Unlock | games/card_guess.py:61-64 | Unlock makes the group idle and keeps the winner and the data. |
| Rounds.BadConfigLocks | games/card_guess.py:71-83 | A settings failure leaves the group busy. Every later opening is refused until an unlock. |
| Rounds.PlayFirstWins | games/voice_guess.py:161-173 | During a round with data, the first accepted guess wins and later ones change nothing. |
| Rounds.RoundOutcome | games/voice_guess.py:65-173 | A round whose question was sent ends idle with its answer kept. The winner is the first accepted guesser, or -1. No other group is touched. |
| Config.SetDefault | games/card_guess.py:30-33 | `setdefault` adds the key only when it is absent. Every other key is unchanged. |
| Config.SetDefaultsMeaning | query/card_query.py:29-37 | After the defaults are filled, present keys keep their values, absent listed keys get their first default, and nothing else is added. |
| Config.SetDefaultsIdempotent | games/voice_guess.py:31-34 | Filling the defaults twice is filling them once. |
| Config.QueryDefaultsDiffer | query/__init__.py:33-41 | The two query handlers' defaults differ only in the card margin: 16 against 8. |
| Config.Lookup | games/card_guess.py:79-81 | A missing key reads as an empty object. A present value that is not an object fails. |
| Config.EngineSet | games/card_guess.py:39-50 | An unregistered name changes nothing. A stored group or handler entry that is not an object fails with the fault Python raises there. Other groups are unchanged. |
| Config.EngineSetTakesEffect | query/__init__.py:61-72 | After a successful engine-set, the group's settings show the new engine and every other setting is unchanged. |
| Config.Filters | games/card_guess.py:76 | The filters are non-empty and space-free. Together they hold the message's characters less its spaces. A message that joins non-empty, space-free words with single spaces has exactly those words as its filters. |
| Config.FiltersAround | games/card_guess.py:76 | A space cuts the filters in two: those before it, then those after it. A message with no space is one filter, or none when it is empty. Together these fix the filters of every message. |
| Config.FiltersSpaces | games/card_guess.py:76 | Leading, trailing and repeated spaces do not change the filters. |
| Config.LegacyFilters | query/__init__.py:78-87 | The same, for the stripped message. A stripped message that joins space-free words with single spaces has exactly those words as its filters. |
| Registry.LeadingWord | utils/engine.py:20-31 | The module name is the longest leading run of word characters. |
| Registry.EachModule | utils/engine.py:17-31 | The module names are exactly those of the selected entries. A single entry gives its module exactly when it is selected. |
| Registry.EachModuleAppend | utils/engine.py:17-31 | Two runs of entries give their modules one after the other, so modules follow the listing order. |
| Registry.ProviderFileSelected | _engines/__init__.py:17-29 | A provider file `<stem>.py` gives the module of its stem. |
| Registry.SkippedEntries | utils/engine.py:21-27 | Private files, other extensions and directories give no module. |
| Registry.DottedStemCut | _engines/__init__.py:18-29 | A dotted stem is cut at its first dot. |
| Registry.Get | utils/engine.py:64-65 | `get_engine` finds nothing exactly when no entry has the name. Otherwise it finds the first entry with that name. |
| Registry.UpdateMeaning | utils/engine.py:39-42 | After `update`, a name maps to the last pair that carries it, or else keeps its old value. |
| Registry.EnginesOf | utils/engine.py:39-42 | The registered pairs of one module are exactly its engine subclasses. |
| Registry.Load | utils/engine.py:33-42 | Loading keeps the module list and distinct names. Each name resolves to its last definition in import order. |
| Registry.Reload | utils/engine.py:44-51 | Reloading keeps the module names, takes their current contents and finds no new file. |
| Registry.ReloadUnchanged | _engines/__init__.py:42-49 | Reloading unchanged modules gives the loaded registry back. |
| Registry.FlatMembers | _engines/__init__.py:37-40 | The pairs imported are exactly the engine classes of the modules. |
| Registry.LoadLastWins | _engines/__init__.py:31-40 | A name resolves to nothing exactly when no module defines it. Otherwise it resolves to the last definition. |
| Registry.ListEngines | utils/engine.py:58-59 | One entry per table entry. The names are distinct, each with the source `get_engine` finds. |
| Registry.ListedIffRegistered | _engines/__init__.py:56-63 | A name is listed exactly when `get_engine` resolves it. |
| Layout.Max | query/synthesis.py:18 | `max` raises ValueError exactly on an empty list. Otherwise it returns a member that no element exceeds. |
| Layout.TextBlock | query/synthesis.py:16-18 | The block is as wide as its widest line. Its height is the line heights plus one spacing between each pair of lines. With no lines it fails. |
| Layout.TextBlockAppend | utils/engines/_base.py:493-496 | One more line adds its height and one spacing, and widens the block only if it is wider. |
| Layout.RowHeights | query/synthesis.py:108-111 | Each row is as tall as the taller of its image and its text block. |
| Layout.Canvas | query/synthesis.py:103-112 | The canvas fits every row and three margins across. Its height is the rows plus one margin more than there are rows. |
| Layout.Place | query/synthesis.py:117-150 | Each image and text block lies inside its own row. The image is centred in the column and the text follows it after two margins. Rows follow each other one margin apart. |
| Layout.CanvasHoldsRows | utils/engines/_base.py:587-634 | The canvas ends exactly one margin below the last row. |
| Layout.RowsFitAcross | query/synthesis.py:96-130 | When each image is exactly as wide as the column, every text block ends at least one margin inside the canvas. |
| Layout.Head | query/synthesis.py:64 | `cards[:count_max]` is a prefix of the cards. A negative bound counts from the back. |
| Layout.Half | query/synthesis.py:123-129 | `int(x / 2)` truncates toward zero, for negative x as well. |
| Queries.Setting | utils/engines/_base.py:560 | A numeric setting is read from the settings. A missing key is a KeyError and a non-number a TypeError. |
| Queries.LineLimit | utils/engines/_base.py:535-554 | A usable wrap width is a non-negative number. A negative one makes the wrapping loop run forever. |
| Queries.TextBlocks | utils/engines/_base.py:575-580 | Every shown card gets its text block, in order. The loop fails exactly when some card's block fails, with the first such failure. |
| Queries.Render | utils/engines/_base.py:558-580 | A bad `count_max` fails. When no card is left to show, `min` fails with ValueError. Otherwise the first `count_max` cards are shown with the number found, exactly when the wrap width is usable and every shown card's text block succeeds. Otherwise the first failing block's error is raised. |
| Queries.NoCardLeftFails | query/synthesis.py:64-85 | A `count_max` of zero, or one that cuts every card, fails with ValueError. |
| Queries.CardQuery | query/card_query.py:58-100 | A malformed settings object fails with AttributeError, and an object-valued engine setting with TypeError. A missing engine or a failed fetch is reported as a fetch error. An empty result says nothing found. Shown cards are a prefix of the search result. A non-empty result is drawn by the current renderer. |
| Queries.DefaultSettings | query/card_query.py:29-37 | With nothing stored, the engine is iyingdi, `count_max` is 10 and `line_size_max` is 40. |
| Queries.RenderFirstCrash | utils/engines/_base.py:575-576 | When the first card's text block fails, drawing fails with that error. |
| Queries.CardQueryDefaults | query/card_query.py:29-100 | With no stored settings, a query that finds iyingdi cards fails while drawing the first one: TypeError without a faction, else KeyError on the evolved attributes. |
| Queries.GuardedDefaultsShow | utils/engines/_base.py:558-580 | With the evolved part drawn only when present, the default settings show the first ten cards found, when they have a faction and a series. |
| Queries.CardQueryShowsSearch | query/card_query.py:76-100 | On an engine that searches its catalogue, the shown cards are a prefix of the filtered catalogue and keep its order. The total is the number selected. |
| Queries.LegacyQuery | query/__init__.py:76-106 | The older handler catches nothing: an unknown engine is an AttributeError, and a failing search fails the handler. An empty search says nothing found. A non-empty result is drawn by the older renderer, stalls included. The shown cards are a prefix of the older engine's search result. |
| Queries.LegacyDrawStalls | query/__init__.py:100-103 | Drawing the older records never returns when the first shown record's description stalls the older loop. |
| Queries.LegacyQueryShowsPassing | query/__init__.py:86-103 | The older query shows records of cached cards that pass every filter, in cached order. |

## Left out

- HTTP: the `aiohttp` helpers and every fetch (utils/engines/_base.py:298-452 and each provider's `_fetch_data`). The parsed JSON or HTML rows are inputs.
- Caching: the `aiocache` time-to-live (utils/engines/_base.py:69-72), and the iyingdi engine's locks and cache fields (utils/engines/iyingdi.py:24-32). The older engine's 23-hour cache is modelled, with the clock as a parameter.
- Images and fonts: PIL decoding, thumbnails, pasting, drawing and font metrics. Image and text sizes are inputs. `RowsFitAcross` takes as a precondition that every thumbnail is exactly the column width. The `error.png` fallback is left out.
- Randomness: draws are parameters. `get_random_std_cards` (utils/engines/_base.py:188-193) and `get_std_card_by_id` (utils/engines/_base.py:197-201) are not modelled, because no handler here uses them.
- Crop fractions are exact rationals, not floating point. `int()` of a non-negative product is its floor.
- Regular expressions are modelled by their meaning only on what the code feeds them:
  - `\d` is ASCII digits;
  - `$` before a trailing newline is not modelled;
  - IGNORECASE folds ASCII letters only.
- The bagoum voice page's HTML parse is not modelled: its rows are abstract records.
- Files on disk are not modelled: the settings file (`ConfigManager`, `load_config`, `save_config`), `save_json` and `load_json`, utils/resource.py, and games/init.py.
- JSON numbers that are not integers are not modelled: `Config.Json` has integer numbers only. In the source, a setting such as `count_max` of 10.5 raises TypeError in the `cards[:count_max]` slice (query/synthesis.py:64).
- Chat glue: `bot.send` and `bot.finish`, and `asyncio.sleep`. A reply is modelled as the message passed. The concurrency between a guess and the close is modelled only as the order of calls.
- The translation tables of voice actions are opaque parameters.
- The engine-list command of query/__init__.py:59 calls `engines.list_engine`, which does not exist. It is not modelled; `Registry.ListEngines` models the existing `list_engines`.
- JSON `null`, list and boolean values are not modelled: a `null` read by `dict.get` is treated as a missing key. The svgdb `type_` and `trait_` fields are taken to be present strings.
- The base bagoum and svgdb classes live in `_`-prefixed files, so the registry never registers them. Their locale subclasses are modelled. The base `_parse_race` is not modelled: it returns `[race]`.
- A record of the older engine whose series is `None` fails when the font measures it (query/synthesis.py:17). This is modelled as the TypeError of `RecordTextLines`, without font metrics; a stalling description or rule comes first, because the series is measured only after the lines are built.
- NamePattern.CardPattern: its own contract says only that there is at least one alternative. Acceptance of guesses is stated by `NameIsAccepted`, `NameWithDropsAccepted`, `MatchCaseless` and `FireDragon` about `GuessMatches`.
- Svgdb.CardVoices: its contract gives the count and each URL's file. The failure condition and the actions are stated on `VoicesOf`, which it calls.
- LineWrap.LegacyStepAsWritten: its contract says only that the remainder is a suffix. The stall is stated by `LegacyStalls`.
- Utf8.ByteLength: its contract bounds the byte count. Exact counts are stated only for ASCII and for three-byte text (`AsciiSize`, `WideSize`).
- `cut` has no hard cut: when no separator fits, the whole remainder becomes one line (`LineWrap.NoSeparatorOneLine`).
- Bagoum.Types: the card's `type` field is taken to be a present string. A missing or `null` type stays `None` in the source, and the type filter's `f in x` then raises TypeError (utils/engines/_base.py:270).
- Bagoum.ToStdCard: the same assumption about `type`; a `None` type would also fail the `'/'.join` of the picture step (utils/engines/_base.py:534).
- Iyingdi.ToStdCard: `mainType` and `subType` are taken to be present strings. A `None` is kept by the source's `!= ''` filter and fails the same two places.
- LegacyEngine.ToRecord: the same assumption about `mainType` and `subType`; a `None` variety would fail the older renderer's `'/'.join` (query/synthesis.py:51).
- Text.Lower: folds ASCII letters only. Python's `str.lower` also folds other scripts' capitals; only the ASCII case is modelled.
- Queries.LineLimit: a negative `line_size_max` always gives `Stall`, and a non-number always a TypeError. In the source the loop is reached only for a card with a description or a rule, and a TypeError from a missing faction or series comes first.
- The font settings (`font`, `font_size`, `font_spacing`) and `card_margin` are taken to be valid. A bad value fails in PIL or in the layout arithmetic, which are not modelled.
- The progress messages ("using engine …", "drawing from n cards") sent before a search are not modelled. Only the replies that report an outcome are.
- Numeric filters have no length check: (1, 23, 4) and (12, 3, 4) both spell "1234" (`Search.StatsExamples`, `LegacyEngine.NoLengthCheck`).

## Findings

| source | as written | input that shows it | evidently intended | confidence | as-written member | corrected member |
|---|---|---|---|---|---|---|
| query/synthesis.py:28-41 | The older `cut` computes split ends with look-aheads for '(', '（' and '「' that lack `(?<!^)`, so it can split at index 0 | "(" followed by thirty 'a's, with limit 10: the split is at 0 and the remainder is the same line, so the loop never ends | split ends start at index 1, as in utils/engines/_base.py:509-510 | not executed | LineWrap.LegacyStallsExample | LineWrap.LegacyCut |
| games/utils.py:48 | The lower bound of the crop corner's vertical range scales the image width | a 2000 by 1000 image with the whole-image window: the square's bottom edge can reach 2000 | scale the height, as utils/engines/_base.py:488 does | not executed | Crop.LegacyCropLeavesImage | Crop.LegacyCrop |
| utils/engines/_base.py:546 | `_make_text_lines` reads `card['evo_attributes']` unconditionally | any card from the iyingdi provider, which has no evolved fields: KeyError | draw the evolved part only when the card has one | not executed | TextLines.NoEvolvedNoLines | TextLines.MakeTextLinesGuarded |
| games/card_guess.py:146-154 | The guess handler reads `get_data(gid)['pattern']` without checking that data is set | a message arriving after `start` and before `set_data`: `None['pattern']` raises TypeError | skip until the data is set, as games/voice_guess.py:163-165 does | not executed | Rounds.EarlyGuessCrashes | Rounds.SafeCheck |
