/** The Paladins image registry: canonical names, the flair table, the small
    bundles of related paths, and one lookup per asset category, each guarded
    by the existence check against the placeholder image. */
module Paladins {
  import opened Text
  import opened Keys
  import opened Wrappers
  import opened Files
  import Search

  /** The placeholder returned for any missing asset. */
  const EMPTY_IMAGE := "src/assets/general/blank.png"
  /** The root of the Paladins asset tree. */
  const BASE := "src/assets/paladins/"

  // ---------------------------------------------------------------------------
  // Name formatting

  /** Applies the pairs of `replacements` (a dictionary, in insertion order) one
      after the other, each to the text the previous one produced. */
  method ReplaceAll(text: string, replacements: seq<(string, string)>) returns (r: string)
    ensures r == ReplaceEach(text, replacements)
  {
    r := text;
    var i := 0;
    while i < |replacements|
      invariant 0 <= i <= |replacements|
      invariant ReplaceEach(r, replacements[i..]) == ReplaceEach(text, replacements)
    {
      assert replacements[i..][1..] == replacements[i + 1..];
      r := Replace(r, replacements[i].0, replacements[i].1);
      i := i + 1;
    }
    assert replacements[i..] == [];
  }

  /** The canonical key of a name: lower-cased, spaces turned into `_`, apostrophes,
      commas and exclamation marks deleted, then surrounding whitespace stripped. */
  function FormatName(name: string): (key: string)
    ensures key == CanonicalKey(name)
    ensures CleanKey(key)
  {
    NameTableIsCanon(Lower(name));
    CanonicalKeyClean(name);
    Strip(ReplaceEach(Lower(name), NAME_TABLE))
  }

  /** The replacements `FormatMapName` applies after `FormatName`, in dictionary order. */
  const MAP_REPLACEMENTS: seq<(string, string)> := [("_(payload)", ""), ("(", ""), (")", "")]

  /** The canonical key of a map name: the canonical key with the `_(payload)`
      suffix and every parenthesis removed. */
  function FormatMapName(name: string): (key: string)
    ensures forall c :: c in key ==> c in FormatName(name) && c != '(' && c != ')'
    ensures !Contains(key, "_(payload)")
    ensures '(' !in FormatName(name) && ')' !in FormatName(name) ==> key == FormatName(name)
    ensures key == DropParens(Replace(FormatName(name), "_(payload)", ""))
  {
    MapReplacementsFacts(FormatName(name));
    ReplaceEach(FormatName(name), MAP_REPLACEMENTS)
  }

  /** The map replacements delete characters and never add one, leave no
      parenthesis behind, and change nothing in a key without parentheses. */
  lemma MapReplacementsFacts(k: string)
    ensures forall c :: c in ReplaceEach(k, MAP_REPLACEMENTS) ==> c in k && c != '(' && c != ')'
    ensures !Contains(ReplaceEach(k, MAP_REPLACEMENTS), "_(payload)")
    ensures '(' !in k && ')' !in k ==> ReplaceEach(k, MAP_REPLACEMENTS) == k
    ensures ReplaceEach(k, MAP_REPLACEMENTS) == DropParens(Replace(k, "_(payload)", ""))
  {
    var a := Replace(k, "_(payload)", "");
    var b := Replace(a, "(", "");
    var c := Replace(b, ")", "");
    assert MAP_REPLACEMENTS[1..] == [("(", ""), (")", "")];
    assert MAP_REPLACEMENTS[1..][1..] == [(")", "")];
    assert ReplaceEach(k, MAP_REPLACEMENTS) == c;
    ReplaceOneChar(a, '(', "");
    ReplaceOneChar(b, ')', "");
    forall d | d in c
      ensures d in k && d != '(' && d != ')'
    {
      SubstCharChars(b, ')', "", d);
      SubstCharChars(a, '(', "", d);
      ReplaceChars(k, "_(payload)", "", d);
    }
    if Contains(c, "_(payload)") {
      ContainsChars(c, "_(payload)", '(');
      assert false;
    }
    if '(' !in k && ')' !in k {
      MapReplacementsKeep(k);
    }
    DropParensIsSubst(a);
  }

  /** Every character of `s` in order, except the parentheses. */
  function DropParens(s: string): string
    decreases |s|
  {
    if s == [] then [] else (if s[0] == '(' || s[0] == ')' then [] else [s[0]]) + DropParens(s[1..])
  }

  /** Deleting `(` and then `)` is deleting both parentheses in one pass. */
  lemma {:induction false} DropParensIsSubst(s: string)
    ensures SubstChar(SubstChar(s, '(', ""), ')', "") == DropParens(s)
    decreases |s|
  {
    if s != [] {
      var head := if s[0] == '(' then "" else [s[0]];
      assert SubstChar(s, '(', "") == head + SubstChar(s[1..], '(', "");
      SubstCharAppend(head, SubstChar(s[1..], '(', ""), ')', "");
      assert SubstChar(head, ')', "") == (if s[0] == '(' || s[0] == ')' then [] else [s[0]]);
      DropParensIsSubst(s[1..]);
    }
  }

  /** A key without parentheses passes through the three map replacements unchanged. */
  lemma MapReplacementsKeep(k: string)
    requires '(' !in k && ')' !in k
    ensures Replace(Replace(Replace(k, "_(payload)", ""), "(", ""), ")", "") == k
  {
    if Contains(k, "_(payload)") {
      ContainsChars(k, "_(payload)", '(');
    }
    ReplaceAbsent(k, "_(payload)", "");
    ReplaceOneChar(k, '(', "");
    SubstCharAbsent(k, '(', "");
    ReplaceOneChar(k, ')', "");
    SubstCharAbsent(k, ')', "");
  }

  /** A map key keeps everything a canonical key excludes out, and has no
      parenthesis and no `_(payload)` left. */
  lemma FormatMapNameClean(name: string)
    ensures forall c :: c in FormatMapName(name) ==> !IsUpper(c) && c != ' ' && !IsDropped(c) && c != '(' && c != ')'
    ensures !Contains(FormatMapName(name), "_(payload)")
  {
    var k := FormatName(name);
    assert CleanKey(k);
    forall d | d in FormatMapName(name)
      ensures !IsUpper(d) && d != ' ' && !IsDropped(d) && d != '(' && d != ')'
    {
      assert d in k;
    }
  }

  // ---------------------------------------------------------------------------
  // The flair table

  /** A thematic group of maps and the decorative sprites drawn for them. */
  datatype Flair = Flair(name: string, maps: seq<string>, sprites: seq<string>)

  /** The flair groups, in the table's order. */
  const MAP_FLAIRS: seq<Flair> := [
    Flair("dragon", ["dragon_arena", "dawnforge", "warders_gate"],
          ["endofmatchlobby_i1f1", "endofmatchlobby_i1ef"]),
    Flair("ice", ["ice_mines", "frozen_guard", "frostbite_cavern", "glacier_keep", "snowfall_junction"],
          ["endofmatchlobby_i1d1", "endofmatchlobby_i1d3"]),
    Flair("io", ["bazaar", "shattered_desert"],
          ["endofmatchlobby_i1df", "endofmatchlobby_i1e1"]),
    Flair("nature", ["frog_isle", "serpent_beach", "jaguar_falls", "temple_ruins", "primal_court"],
          ["endofmatchlobby_i1e3", "endofmatchlobby_i1e5", "endofmatchlobby_i1e7"]),
    Flair("magistrate", ["trade_district", "stone_keep", "stone_keep_day", "stone_keep_night",
                         "stone_keep_v2_day", "stone_keep_v2_night"],
          ["endofmatchlobby_i1cb", "endofmatchlobby_i1cd", "endofmatchlobby_i1e9", "endofmatchlobby_i1d5"]),
    Flair("abyss", ["marauders_port", "abyss", "throne", "magistrates_archives"],
          ["endofmatchlobby_i1f3", "endofmatchlobby_i1f5", "endofmatchlobby_i1f7", "endofmatchlobby_i1f9"]),
    Flair("forest", ["splitstone_quarry", "foremans_rise", "timber_mill", "fish_market",
                     "greenwood_outpost", "enchanted_forest"],
          ["endofmatchlobby_i1ed", "endofmatchlobby_i1eb", "endofmatchlobby_i1cf"]),
    Flair("pip", ["brightmarsh", "hidden_temple"],
          ["endofmatchlobby_i1d7", "endofmatchlobby_i1d9", "endofmatchlobby_i1db"]),
    Flair("jenos", ["ascension_peak"],
          ["endofmatchlobby_i1dd"])
  ]

  /** The first flair group, in table order, that lists the map key. */
  function FlairOf(key: string): (g: Option<nat>)
    ensures g.Some? ==> g.value < |MAP_FLAIRS| && key in MAP_FLAIRS[g.value].maps
    ensures g.Some? ==> forall j :: 0 <= j < g.value ==> key !in MAP_FLAIRS[j].maps
    ensures g.None? <==> forall j :: 0 <= j < |MAP_FLAIRS| ==> key !in MAP_FLAIRS[j].maps
  {
    Search.FirstWhere(MAP_FLAIRS, (f: Flair) => key in f.maps)
  }

  /** The group at `i` is the one `FlairOf` picks when it lists the key and no
      earlier group does. */
  lemma FlairOfAt(key: string, i: nat)
    requires i < |MAP_FLAIRS| && key in MAP_FLAIRS[i].maps
    requires forall j :: 0 <= j < i ==> key !in MAP_FLAIRS[j].maps
    ensures FlairOf(key) == Some(i)
  {
  }

  /** Every flair group has a sprite to choose from. */
  lemma FlairSpritesNonEmpty(g: nat)
    requires g < |MAP_FLAIRS|
    ensures MAP_FLAIRS[g].sprites != []
  {
  }

  // ---------------------------------------------------------------------------
  // The existence-guarded lookup

  /** `path` if it exists, the placeholder otherwise. */
  function IfExists(disk: Disk, path: string): (r: string)
    ensures Guarded(disk, path, EMPTY_IMAGE, r)
  {
    if path in disk then path else EMPTY_IMAGE
  }

  /** No path under the Paladins root is the placeholder. */
  lemma UnderBaseIsNotPlaceholder(s: string)
    requires StartsWith(s, BASE)
    ensures s != EMPTY_IMAGE
  {
    assert s[11] == BASE[11] == 'p';
    assert EMPTY_IMAGE[11] == 'g';
  }

  // ---------------------------------------------------------------------------
  // Bundles of related paths

  /** The layers of the customisable match image, all under one prefix. */
  datatype MatchCustomisationImages = MatchCustomisationImages(
    background: string, defeat: string, dontTouch: string, infoText: string,
    notSelected: string, selected: string, snippet1: string, snippet2: string, victory: string)
  {
    function Paths(): seq<string> {
      [background, defeat, dontTouch, infoText, notSelected, selected, snippet1, snippet2, victory]
    }
  }

  /** The image `name` in the folder (or file-name prefix) `base`. */
  function Png(base: string, name: string): (p: string)
    ensures StartsWith(p, base) && EndsWith(p, ".png")
  {
    Affix(base, name + ".png");
    Affix(name, ".png");
    base + (name + ".png")
  }

  /** Every path of `ps` is an image under `base`. */
  predicate AllPngsUnder(ps: seq<string>, base: string) {
    forall p :: p in ps ==> StartsWith(p, base) && EndsWith(p, ".png")
  }

  /** A list whose every entry is an image under `base`, stated by position, is one
      stated by membership. */
  lemma PngsUnderByIndex(ps: seq<string>, base: string)
    requires forall k :: 0 <= k < |ps| ==> StartsWith(ps[k], base) && EndsWith(ps[k], ".png")
    ensures AllPngsUnder(ps, base)
  {
  }

  function MakeMatchCustomisationImages(base: string): (r: MatchCustomisationImages)
    ensures AllPngsUnder(r.Paths(), base)
  {
    var r := MatchCustomisationImages(
      Png(base, "background"), Png(base, "defeat"), Png(base, "donttouch"), Png(base, "infotext"),
      Png(base, "notselected"), Png(base, "selected"), Png(base, "snippet1"), Png(base, "snippet2"),
      Png(base, "victory"));
    PngsUnderByIndex(r.Paths(), base);
    r
  }

  /** The layers of the base match image. The constructor assigns `base_image`
      twice; the later value, `base_image_1.png`, is the one that stays. */
  datatype MatchImages = MatchImages(
    baseImage: string, baseImageRanked: string, altImage: string,
    itemPane0: string, itemPane1: string, itemPane2: string, itemPane3: string,
    loadoutPane: string, playerSliver: string, squireSliver: string,
    statTextCasual: string, statText: string)
  {
    function Paths(): seq<string> {
      [baseImage, baseImageRanked, altImage, itemPane0, itemPane1, itemPane2, itemPane3,
       loadoutPane, playerSliver, squireSliver, statTextCasual, statText]
    }
  }

  function MakeMatchImages(base: string): (r: MatchImages)
    ensures AllPngsUnder(r.Paths(), base)
    ensures r.baseImage == Png(base, "base_image_1") && r.altImage == Png(base, "base_image_2")
  {
    var first := MatchImages(
      Png(base, "base_image"), Png(base, "base_image_ranked"), Png(base, "base_image_2"),
      Png(base, "item_pane_0"), Png(base, "item_pane_1"), Png(base, "item_pane_2"), Png(base, "item_pane_3"),
      Png(base, "loadout_pane"), Png(base, "player_sliver"), Png(base, "squire_sliver"),
      Png(base, "stat_text_casual"), Png(base, "stat_text"));
    var r := first.(baseImage := Png(base, "base_image_1"));
    PngsUnderByIndex(r.Paths(), base);
    r
  }

  /** The three renderings of a champion icon. */
  datatype ChampionIcon = ChampionIcon(noBg: string, bg: string, url: string)

  /** Where the no-background icons are published; the string is built, never fetched. */
  const ICON_URL := "https://raw.githubusercontent.com/FuriaPaladins/Itto-Bot-Data/dev/paladins/champion_icons/no_background/"

  /** The icon files for `champion` whose names end in `suffix` before the extension. */
  function IconFiles(base: string, champion: string, suffix: string): ChampionIcon {
    ChampionIcon(
      (base + "no_background/") + (champion + suffix + ".png"),
      (base + "background/") + (champion + suffix + ".png"),
      ICON_URL + (Replace(champion, " ", "%20") + suffix + ".png"))
  }

  /** The champion icon bundle. `roll` is the value `random.randint(0, 5)` drew;
      a champion whose name contains `omen` gets the `_goofy` files on a roll of 1. */
  function MakeChampionIcon(base: string, champion: string, roll: int): (r: ChampionIcon)
    requires 0 <= roll <= 5
    ensures r == IconFiles(base, champion, "") || (Contains(champion, "omen") && r == IconFiles(base, champion, "_goofy"))
  {
    if Contains(champion, "omen") && roll == 1 then IconFiles(base, champion, "_goofy")
    else IconFiles(base, champion, "")
  }

  /** Exactly one of the six rolls yields the goofy variant when the name contains
      `omen`, and none does otherwise. */
  lemma GoofyOneInSix(base: string, champion: string)
    ensures var goofy := set roll: int | 0 <= roll <= 5 && MakeChampionIcon(base, champion, roll) != IconFiles(base, champion, "");
            goofy == (if Contains(champion, "omen") then {1} else {}) && |goofy| == (if Contains(champion, "omen") then 1 else 0)
  {
    var standard := IconFiles(base, champion, "");
    var goofy := set roll: int | 0 <= roll <= 5 && MakeChampionIcon(base, champion, roll) != standard;
    assert |IconFiles(base, champion, "_goofy").noBg| != |standard.noBg|;
    if Contains(champion, "omen") {
      assert MakeChampionIcon(base, champion, 1) != standard;
      assert goofy == {1};
    } else {
      assert goofy == {};
    }
  }

  /** Talent icons. The paths are resolved when read, against the disk at that time. */
  datatype Talent = Talent(base: string, champion: string, talent: string)
  {
    function Full(disk: Disk): (r: string)
      ensures Guarded(disk, base + "full/" + champion + "/" + talent + ".png", EMPTY_IMAGE, r)
    {
      IfExists(disk, base + "full/" + champion + "/" + talent + ".png")
    }

    function Flat(disk: Disk): (r: string)
      ensures Guarded(disk, base + "flat/" + champion + "/" + talent + ".png", EMPTY_IMAGE, r)
    {
      IfExists(disk, base + "flat/" + champion + "/" + talent + ".png")
    }
  }

  /** Passive icons, resolved once, when the bundle is built. */
  datatype Passive = Passive(full: string, flat: string)

  function MakePassive(disk: Disk, base: string, passive: string): (r: Passive)
    ensures Guarded(disk, base + "full/" + passive + ".png", EMPTY_IMAGE, r.full)
    ensures Guarded(disk, base + "flat/" + passive + ".png", EMPTY_IMAGE, r.flat)
  {
    Passive(IfExists(disk, base + "full/" + passive + ".png"), IfExists(disk, base + "flat/" + passive + ".png"))
  }

  // ---------------------------------------------------------------------------
  // The registry

  function MatchImageCustomisation(): (r: MatchCustomisationImages)
    ensures forall p :: p in r.Paths() ==> StartsWith(p, BASE + ".match_images/base_customisation_images/layer_")
  {
    MakeMatchCustomisationImages(BASE + ".match_images/base_customisation_images/layer_")
  }

  function MatchImageBase(): (r: MatchImages)
    ensures forall p :: p in r.Paths() ==> StartsWith(p, BASE + ".match_images/") && EndsWith(p, ".png")
  {
    MakeMatchImages(BASE + ".match_images/")
  }

  /** A champion's card directory, or one of its cards when `card` is given. */
  function Card(disk: Disk, champion: string, card: Option<string> := None): (r: string)
    ensures card.None? ==> Guarded(disk, BASE + "cards/" + FormatName(champion) + "/", EMPTY_IMAGE, r)
    ensures card.Some? ==> Guarded(disk, BASE + "cards/" + FormatName(champion) + "/" + FormatName(card.value) + ".png", EMPTY_IMAGE, r)
  {
    if card.None? then IfExists(disk, BASE + "cards/" + FormatName(champion) + "/")
    else IfExists(disk, BASE + "cards/" + FormatName(champion) + "/" + FormatName(card.value) + ".png")
  }

  /** The level a border is drawn for: 1 to 4 as given, anything else 5. */
  function BorderLevel(level: int): (n: int)
    ensures 1 <= n <= 5
    ensures 1 <= level <= 4 ==> n == level
    ensures !(1 <= level <= 4) ==> n == 5
  {
    if 5 > level > 0 then level else 5
  }

  /** The single decimal digit of `n`. */
  function Digit(n: int): string
    requires 0 <= n <= 9
  {
    [(48 + n) as char]
  }

  const BORDERS := BASE + "cards/.borders/"

  /** The border file a loadout card asks for: the cooldown overlay wins over
      everything, then the gold flag picks the legendary family over the normal one. */
  function BorderCandidate(level: int, gold: bool, cooldown: bool): string {
    if cooldown then BORDERS + "card_timer.png"
    else if gold then BORDERS + "legendary_lvl_" + Digit(BorderLevel(level)) + ".png"
    else BORDERS + "card_lvl_" + Digit(BorderLevel(level)) + ".png"
  }

  function CardBorders(disk: Disk, level: int, gold: bool := false, cooldown: bool := false): (r: string)
    ensures Guarded(disk, BorderCandidate(level, gold, cooldown), EMPTY_IMAGE, r)
  {
    IfExists(disk, BorderCandidate(level, gold, cooldown))
  }

  /** The decision rules of the border lookup: with `cooldown` neither the level nor
      the gold flag matters; otherwise levels 1 to 4 are kept, every other level is
      drawn as 5, and gold selects the legendary family. */
  lemma CardBordersRules(disk: Disk, level: int, gold: bool, cooldown: bool)
    ensures cooldown ==> CardBorders(disk, level, gold, cooldown) == IfExists(disk, BORDERS + "card_timer.png")
    ensures !(1 <= level <= 4) ==> CardBorders(disk, level, gold, cooldown) == CardBorders(disk, 5, gold, cooldown)
    ensures !cooldown && gold ==> CardBorders(disk, level, gold, cooldown) == IfExists(disk, BORDERS + "legendary_lvl_" + Digit(BorderLevel(level)) + ".png")
    ensures !cooldown && !gold ==> CardBorders(disk, level, gold, cooldown) == IfExists(disk, BORDERS + "card_lvl_" + Digit(BorderLevel(level)) + ".png")
  {
  }

  /** Outside the cooldown overlay, the candidate path tells the border apart:
      two requests share a path exactly when they agree on gold and on the drawn level. */
  lemma BorderCandidateDistinct(l1: int, g1: bool, l2: int, g2: bool)
    ensures BorderCandidate(l1, g1, false) == BorderCandidate(l2, g2, false) <==> g1 == g2 && BorderLevel(l1) == BorderLevel(l2)
  {
    var p1, p2 := BorderCandidate(l1, g1, false), BorderCandidate(l2, g2, false);
    var n := |BORDERS|;
    if g1 != g2 {
      assert p1[n] != p2[n];
    } else if BorderLevel(l1) != BorderLevel(l2) {
      var k := if g1 then n + |"legendary_lvl_"| else n + |"card_lvl_"|;
      assert p1[k] == Digit(BorderLevel(l1))[0];
      assert p2[k] == Digit(BorderLevel(l2))[0];
    }
  }

  function Background(disk: Disk, champion: string): (r: string)
    ensures Guarded(disk, BASE + "champion_backgrounds/" + FormatName(champion) + ".png", EMPTY_IMAGE, r)
  {
    IfExists(disk, BASE + "champion_backgrounds/" + FormatName(champion) + ".png")
  }

  /** The champion icon bundle; it is not existence-guarded. Because the key has no
      spaces left, the URL names the same file as the no-background icon. */
  const ICON_DIR := BASE + "champion_icons/"

  function Champion(champion: string, roll: int): (r: ChampionIcon)
    requires 0 <= roll <= 5
    ensures var key := FormatName(champion);
            r == IconFiles(ICON_DIR, key, "") || (Contains(key, "omen") && r == IconFiles(ICON_DIR, key, "_goofy"))
    ensures StartsWith(r.noBg, ICON_DIR + "no_background/")
    ensures r.url == ICON_URL + r.noBg[|ICON_DIR + "no_background/"|..]
  {
    var key := FormatName(champion);
    ReplaceOneChar(key, ' ', "%20");
    SubstCharAbsent(key, ' ', "%20");
    var r := MakeChampionIcon(ICON_DIR, key, roll);
    var suffix := if r == IconFiles(ICON_DIR, key, "") then "" else "_goofy";
    assert r == IconFiles(ICON_DIR, key, suffix);
    Affix(ICON_DIR + "no_background/", key + suffix + ".png");
    r
  }

  function ChampionAlt(disk: Disk, altName: string): (r: string)
    ensures Guarded(disk, BASE + "champion_icons/alt/" + FormatName(altName) + ".png", EMPTY_IMAGE, r)
  {
    IfExists(disk, BASE + "champion_icons/alt/" + FormatName(altName) + ".png")
  }

  function Item(disk: Disk, item: string): (r: string)
    ensures Guarded(disk, BASE + "items/" + FormatName(item) + ".png", EMPTY_IMAGE, r)
  {
    IfExists(disk, BASE + "items/" + FormatName(item) + ".png")
  }

  /** The fallback image of the map lookup, which replaces the placeholder there. */
  const UNKNOWN_MAP := BASE + "maps/test_maps.png"

  /** The map image: the map's own file if it exists, the unknown-map image otherwise;
      never the placeholder. */
  function Map(disk: Disk, mapName: string): (r: string)
    ensures var p := BASE + "maps/" + FormatMapName(mapName) + ".png";
            (p in disk ==> r == p) && (p !in disk ==> r == UNKNOWN_MAP)
    ensures r != EMPTY_IMAGE
  {
    var path := BASE + "maps/" + FormatMapName(mapName) + ".png";
    Affix(BASE, "maps/" + FormatMapName(mapName) + ".png");
    Affix(BASE, "maps/test_maps.png");
    UnderBaseIsNotPlaceholder(BASE + ("maps/" + FormatMapName(mapName) + ".png"));
    UnderBaseIsNotPlaceholder(BASE + "maps/test_maps.png");
    if path in disk then path else UNKNOWN_MAP
  }

  function SpritePath(sprite: string): string {
    BASE + "maps_sprites/" + sprite + ".png"
  }

  /** A listed sprite file already named `<stem>.png` is looked up as `<stem>.png.png`,
      so on a disk with no such doubled name the guard falls back to the placeholder. */
  lemma ListedSpriteDoublesExtension(disk: Disk, listed: string)
    requires EndsWith(listed, ".png")
    requires forall p :: p in disk ==> !EndsWith(p, ".png.png")
    ensures EndsWith(SpritePath(listed), ".png.png")
    ensures IfExists(disk, SpritePath(listed)) == EMPTY_IMAGE
  {
    DoubledExtension(BASE + "maps_sprites/", listed, ".png");
    assert ".png" + ".png" == ".png.png";
  }

  /** Appending the extension `ext` to a name that already ends in it doubles it. */
  lemma DoubledExtension(dir: string, listed: string, ext: string)
    requires EndsWith(listed, ext)
    ensures EndsWith(dir + listed + ext, ext + ext)
  {
    EndsWithUnderPrefix(dir, listed, ext);
    EndsWithAppended(dir + listed, ext, ext);
  }

  /** A suffix of `s` is a suffix of `dir + s`. */
  lemma EndsWithUnderPrefix(dir: string, s: string, x: string)
    requires EndsWith(s, x)
    ensures EndsWith(dir + s, x)
  {
    assert (dir + s)[|dir + s| - |x|..] == s[|s| - |x|..];
  }

  /** Appending `b` to a string ending in `x` gives one ending in `x + b`. */
  lemma EndsWithAppended(a: string, x: string, b: string)
    requires EndsWith(a, x)
    ensures EndsWith(a + b, x + b)
  {
    assert (a + b)[|a + b| - |x + b|..] == a[|a| - |x|..] + b;
  }

  /** The decorative sprite for the formatted map key `key`. A map of a flair group
      gets one of that group's sprites (the first group listing it decides), any
      other map one of the files of the sprite directory `spriteDir`; the choice is
      left open, as the random draw leaves it. An empty directory raises, as
      `random.choice` does. */
  method SpriteForKey(disk: Disk, key: string, spriteDir: seq<string>) returns (r: Result<string>)
    ensures FlairOf(key).Some? ==>
              var sprites := MAP_FLAIRS[FlairOf(key).value].sprites;
              r.Ok? && exists k :: 0 <= k < |sprites| && Guarded(disk, SpritePath(sprites[k]), EMPTY_IMAGE, r.value)
    ensures FlairOf(key).None? && spriteDir == [] ==> r == Err(ChoiceFromEmpty)
    ensures FlairOf(key).None? && spriteDir != [] ==>
              r.Ok? && exists k :: 0 <= k < |spriteDir| && Guarded(disk, SpritePath(spriteDir[k]), EMPTY_IMAGE, r.value)
  {
    var i := 0;
    while i < |MAP_FLAIRS|
      invariant 0 <= i <= |MAP_FLAIRS|
      invariant forall j :: 0 <= j < i ==> key !in MAP_FLAIRS[j].maps
    {
      if key in MAP_FLAIRS[i].maps {
        FlairOfAt(key, i);
        FlairSpritesNonEmpty(i);
        var sprites := MAP_FLAIRS[i].sprites;
        var k :| 0 <= k < |sprites|;
        return Ok(IfExists(disk, SpritePath(sprites[k])));
      }
      i := i + 1;
    }
    if spriteDir == [] {
      return Err(ChoiceFromEmpty);
    }
    var k :| 0 <= k < |spriteDir|;
    return Ok(IfExists(disk, SpritePath(spriteDir[k])));
  }

  /** The decorative sprite for a map name: its formatted key classified by `SpriteForKey`. */
  method MapIcon(disk: Disk, mapName: string, spriteDir: seq<string>) returns (r: Result<string>)
    ensures var key := FormatMapName(mapName);
            FlairOf(key).Some? ==>
              var sprites := MAP_FLAIRS[FlairOf(key).value].sprites;
              r.Ok? && exists k :: 0 <= k < |sprites| && Guarded(disk, SpritePath(sprites[k]), EMPTY_IMAGE, r.value)
    ensures var key := FormatMapName(mapName);
            FlairOf(key).None? && spriteDir == [] ==> r == Err(ChoiceFromEmpty)
    ensures var key := FormatMapName(mapName);
            FlairOf(key).None? && spriteDir != [] ==>
              r.Ok? && exists k :: 0 <= k < |spriteDir| && Guarded(disk, SpritePath(spriteDir[k]), EMPTY_IMAGE, r.value)
  {
    var key := FormatMapName(mapName);
    r := SpriteForKey(disk, key, spriteDir);
  }

  function TalentOf(champion: string, talent: string): (t: Talent)
    ensures forall disk: Disk :: Guarded(disk, BASE + "talents/" + "full/" + FormatName(champion) + "/" + FormatName(talent) + ".png", EMPTY_IMAGE, t.Full(disk))
    ensures forall disk: Disk :: Guarded(disk, BASE + "talents/" + "flat/" + FormatName(champion) + "/" + FormatName(talent) + ".png", EMPTY_IMAGE, t.Flat(disk))
  {
    Talent(BASE + "talents/", FormatName(champion), FormatName(talent))
  }

  function PassiveOf(disk: Disk, passive: string): (p: Passive)
    ensures Guarded(disk, BASE + "passives/" + "full/" + FormatName(passive) + ".png", EMPTY_IMAGE, p.full)
    ensures Guarded(disk, BASE + "passives/" + "flat/" + FormatName(passive) + ".png", EMPTY_IMAGE, p.flat)
  {
    MakePassive(disk, BASE + "passives/", FormatName(passive))
  }

  function Platform(disk: Disk, platform: string): (r: string)
    ensures Guarded(disk, BASE + "platforms/" + FormatName(platform) + ".png", EMPTY_IMAGE, r)
  {
    IfExists(disk, BASE + "platforms/" + FormatName(platform) + ".png")
  }

  function Rank(disk: Disk, rank: string, centered: bool := true): (r: string)
    ensures Guarded(disk, BASE + "ranks/" + (if centered then "centered" else "default") + "/" + FormatName(rank) + ".png", EMPTY_IMAGE, r)
  {
    IfExists(disk, BASE + "ranks/" + (if centered then "centered" else "default") + "/" + FormatName(rank) + ".png")
  }

  /** The avatar whose file name contains `avatarId`: the first such entry of the
      directory listing, existence-guarded; no value at all when none matches. */
  method Avatar(disk: Disk, listing: seq<string>, avatarId: string) returns (r: Option<string>)
    ensures r.None? <==> forall i :: 0 <= i < |listing| ==> !Contains(listing[i], avatarId)
    ensures r.Some? ==> exists i :: (0 <= i < |listing| && Contains(listing[i], avatarId)
              && (forall j :: 0 <= j < i ==> !Contains(listing[j], avatarId))
              && Guarded(disk, BASE + "avatars/" + listing[i], EMPTY_IMAGE, r.value))
  {
    for i := 0 to |listing|
      invariant forall j :: 0 <= j < i ==> !Contains(listing[j], avatarId)
    {
      if Contains(listing[i], avatarId) {
        return Some(IfExists(disk, BASE + "avatars/" + listing[i]));
      }
    }
    return None;
  }
}
