# Asset-path resolution for the Paladins and Apex image registries

This project models the image registries of a game bot's data repository, in Dafny.
Each registry takes a semantic name: a champion, map, talent, rank, legend and so on.
It turns the name into a canonical file-system key, builds the asset path from a
fixed template, and returns that path only if it exists. Otherwise it returns the
placeholder `src/assets/general/blank.png`. The project also models the maintenance
script that walks a directory tree and deletes every apostrophe from file names.

Modules:

- `Text`: the Python `str` operations the code relies on, stated on `seq<char>`:
  - `lower()` for ASCII only.
  - `strip()` with the whitespace set of `str.isspace`.
  - `replace()`, scanning left to right without overlap; the empty pattern is included.
  - the substring test `in`.
- `Keys`: the replacement table `{" ": "_", "'": "", ",": "", "!": ""}`. Both registries
  use it. It comes with `Canon`, a one-pass, character-by-character reference
  definition, and the proof that the four sequential `replace` calls equal it.
  `CanonicalKey(name)` is the key both registries mean to compute.
- `Wrappers`, `Files`, `Search`:
  - `Option` and `Result`.
  - The filesystem, as the set of paths that exist (`Disk`).
  - `Guarded`, the existence-check postcondition.
  - A first-match search.
- `Paladins` (`paladins/fetch_images.py`):
  - the formatters and the flair table;
  - the path bundles (match images, champion icon, talent, passive);
  - one lookup per asset category.

  The imperative parts of that file are methods with loops: `__replace_all__`,
  `map_icon` and `avatar`.
- `Apex` (`apex/fetch_images.py`): the pick-rate constants, the legend icon pair,
  the existence guard, and `format_name`, both as written and as intended (see Findings).
- `TalentsClear` (`paladins/talents/clear.py`): the walked tree as a `Tree` object.
  It holds the entries, the `os.rename` calls issued and the lines printed. Its
  `Clear` method runs that script's loop.

Inputs that the program reads from the outside world are parameters:

- the set of existing paths, for `os.path.exists`;
- a directory listing, for `os.listdir`;
- the walked `(root, file)` entries, for `os.walk`;
- the drawn value of `random.randint(0, 5)`.

`random.choice` is a nondeterministic choice (`:|`): the contracts say only that the
result is one of the candidates.

Two facts about the code shape the contracts:

- Not every lookup is existence-guarded. The champion-icon bundle
  (`paladins/fetch_images.py:71-80`, `152-155`) and the match-image bundles
  (`paladins/fetch_images.py:111-119`) are plain paths, never checked.
  `Paladins.Champion` and `Paladins.MatchImageBase` state no guard.
- The "goofy" icon variant is open to every formatted name that contains `omen`.

Default arguments are kept as Dafny default parameters:
- `card=None` of `card`;
- `gold=False` and `cooldown=False` of `card_borders`;
- `centered=True` of `rank`.

The loop of `paladins/talents/clear.py` is the method `TalentsClear.Walk` over the
walked entries, the calls issued so far and the lines printed so far. `Tree.Clear`
runs it on the tree's fields and stores the outcome back in them.

## Model

| member | source | states |
|---|---|---|
| Text.Strip | paladins/fetch_images.py:17 | `strip()`: the result is a slice of the input with only whitespace cut at either end, and it has no whitespace at either end |
| Paladins.ReplaceAll | paladins/fetch_images.py:9-12 | the result is the text with each (old, new) pair applied in table order, each `replace` working on the previous result |
| Text.ReplaceEachSnoc | paladins/fetch_images.py:9-12 | one more pair in the table is one more `replace` on the result so far |
| Paladins.FormatName | paladins/fetch_images.py:15-17 | the key is the canonical key of the name (lower-cased, table applied, stripped): no upper-case letter, space, apostrophe, comma or `!`, and no whitespace at either end |
| Keys.NameTableIsCanon | paladins/fetch_images.py:17 | the four sequential `replace` calls equal the one-pass substitution: space becomes `_`, the apostrophe, comma and `!` are deleted, every other character is kept in order |
| Keys.CanonicalKeyClean | paladins/fetch_images.py:15-17 | a key is clean, and each of its characters is a character of the lower-cased name or the `_` standing for a space |
| Keys.CanonicalKeyIdempotent | paladins/fetch_images.py:15-17 | formatting a key again changes nothing |
| Paladins.FormatMapName | paladins/fetch_images.py:20-22 | the map key is the formatted name with `_(payload)` removed and then every parenthesis dropped, all other characters kept in order (so `stone_keep_(night)` keys to `stone_keep_night`); no `(`, `)` or `_(payload)` remains; a name without parentheses is kept unchanged |
| Paladins.DropParensIsSubst | paladins/fetch_images.py:22 | the sequential `replace("(", "")` and `replace(")", "")` equal the one-pass deletion of both parentheses |
| Paladins.FormatMapNameClean | paladins/fetch_images.py:20-22 | a map key has none of the characters a key excludes, no `(` or `)`, and no `_(payload)` |
| Paladins.FlairOf | paladins/fetch_images.py:25-35 | the first flair group in table order listing the key; none exactly when no group lists it |
| Paladins.FlairOfAt | paladins/fetch_images.py:180-182 | a key listed by group `i` and by no earlier group belongs to group `i`, the group the `for` loop stops at |
| Paladins.FlairSpritesNonEmpty | paladins/fetch_images.py:25-35 | every flair group has at least one sprite, so the group branch of `map_icon` cannot fail |
| Paladins.MakeMatchCustomisationImages | paladins/fetch_images.py:38-48 | every layer path starts with the given prefix and ends in `.png` (`AllPngsUnder`) |
| Paladins.MakeMatchImages | paladins/fetch_images.py:51-68 | every path starts with the base and ends in `.png`; `base_image` is the second assignment, `base_image_1.png`, and `alt_image` is `base_image_2.png` |
| Paladins.MakeChampionIcon | paladins/fetch_images.py:71-80 | the bundle is the standard file set, or the `_goofy` set and only for a name containing `omen` |
| Paladins.GoofyOneInSix | paladins/fetch_images.py:73 | of the six values of `randint(0, 5)` exactly one (the value 1) gives the goofy variant when the name contains `omen`, none otherwise |
| Paladins.Talent.Full | paladins/fetch_images.py:90-92 | the guarded `full/<champion>/<talent>.png` path, resolved against the disk when read |
| Paladins.Talent.Flat | paladins/fetch_images.py:94-96 | the guarded `flat/<champion>/<talent>.png` path, resolved against the disk when read |
| Paladins.MakePassive | paladins/fetch_images.py:99-102 | the guarded `full/` and `flat/` passive paths, resolved when built |
| Paladins.IfExists | paladins/fetch_images.py:226-230 | the result is the path when it exists and exactly the placeholder `empty_image` (line 108) otherwise; nothing else is possible |
| Paladins.MatchImageCustomisation | paladins/fetch_images.py:111-115 | every layer lies under `.match_images/base_customisation_images/layer_` |
| Paladins.MatchImageBase | paladins/fetch_images.py:117-119 | every match image lies under `.match_images/` and ends in `.png` |
| Paladins.Card | paladins/fetch_images.py:121-128 | without a card (the default): the guarded card directory of the champion's key; with one: the guarded `<champion>/<card>.png` |
| Paladins.BorderLevel | paladins/fetch_images.py:139-142 | a level from 1 to 4 is kept, every other level is drawn as 5, so the drawn level is always between 1 and 5 |
| Paladins.CardBorders | paladins/fetch_images.py:131-143 | the result is the guarded border candidate; `gold` and `cooldown` default to false |
| Paladins.CardBordersRules | paladins/fetch_images.py:135-143 | cooldown yields the timer border whatever gold and level are; a level outside 1..4 draws as 5; gold selects `legendary_lvl_N`, otherwise `card_lvl_N` |
| Paladins.BorderCandidateDistinct | paladins/fetch_images.py:137-143 | outside the cooldown overlay two requests name the same border file exactly when they agree on gold and on the drawn level |
| Paladins.Background | paladins/fetch_images.py:145-150 | the guarded `champion_backgrounds/<key>.png` |
| Paladins.Champion | paladins/fetch_images.py:152-155 | the icon bundle of the key under `champion_icons/`, with no existence guard; the URL names the same file as the no-background icon |
| Paladins.ChampionAlt | paladins/fetch_images.py:157-162 | the guarded `champion_icons/alt/<key>.png` |
| Paladins.Item | paladins/fetch_images.py:164-167 | the guarded `items/<key>.png` |
| Paladins.Map | paladins/fetch_images.py:169-175 | the map's own path when it exists, `maps/test_maps.png` otherwise, never the placeholder |
| Paladins.SpriteForKey | paladins/fetch_images.py:180-184 | a key of a flair group gets a guarded sprite of the first such group; any other key gets a guarded file of the sprite directory, or the `random.choice` error when the directory is empty |
| Paladins.ListedSpriteDoublesExtension | paladins/fetch_images.py:184 | a listed sprite file named `<stem>.png` is looked up as `<stem>.png.png`, so on a disk without doubled names the fallback branch yields the placeholder |
| Paladins.MapIcon | paladins/fetch_images.py:177-184 | the sprite rule above, applied to the formatted map name |
| Paladins.TalentOf | paladins/fetch_images.py:186-194 | whatever the disk, the bundle's `full` and `flat` read the guarded talent paths of the two keys |
| Paladins.PassiveOf | paladins/fetch_images.py:196-201 | the guarded `passives/full/<key>.png` and `passives/flat/<key>.png` |
| Paladins.Platform | paladins/fetch_images.py:203-206 | the guarded `platforms/<key>.png` |
| Paladins.Rank | paladins/fetch_images.py:208-213 | the guarded `ranks/centered/<key>.png` or `ranks/default/<key>.png`, as the flag says; `centered` defaults to true |
| Paladins.Avatar | paladins/fetch_images.py:215-224 | no value exactly when no listed file contains the id; otherwise the guarded path of the first listed file that contains it |
| Apex.PickrateAssetsUnderFolder | apex/fetch_images.py:18-22 | the four pick-rate assets are distinct `.png` files of `pickrate_assets/`, which lies under the Apex root |
| Apex.KeysOf | apex/fetch_images.py:7 | iterating the dictionary yields its keys, one per entry, in insertion order |
| Apex.UnpackAndReplace | apex/fetch_images.py:7-8 | the `replace` loop over unpacked keys succeeds exactly when every key has two characters; otherwise it fails with the unpacking error of the first key that does not |
| Apex.FormatNameAsWritten | apex/fetch_images.py:5-9 | as written, `format_name` succeeds exactly when every iterated dictionary key has two characters; otherwise it fails with the unpacking error of the first bad key |
| Apex.FormatNameAsWrittenAlwaysFails | apex/fetch_images.py:5-9 | as written, `format_name` raises the unpacking error on every input |
| Apex.FormatName | apex/fetch_images.py:5-9 | the intended `format_name` (lower-case, the pairs in order, strip) yields the canonical key, which is clean |
| Apex.IfExists | apex/fetch_images.py:36-40 | the path when it exists, exactly the placeholder `empty_image` (line 28) otherwise |
| Apex.Legend | apex/fetch_images.py:31-34 | `image` is the guarded `legend_icons/<key>.png` and `coloured_image` the guarded `legend_icons/<key>_recoloured.png` |
| Apex.LegendAsWritten | apex/fetch_images.py:31-34 | as written, `legend` raises whatever `format_name` raises, and builds the two guarded icons only if it succeeds |
| Apex.LegendAsWrittenAlwaysFails | apex/fetch_images.py:34 | as written, `legend` raises the unpacking error on every input |
| Apex.LegendIconsDistinct | apex/fetch_images.py:34 | the two icons coincide only when both fell back to the placeholder |
| TalentsClear.StripApostrophes | paladins/talents/clear.py:7 | the new name is the old one with every apostrophe deleted and nothing else changed; it has no apostrophe; a name without one is unchanged |
| TalentsClear.Renamed | paladins/talents/clear.py:5-6 | exactly the walked entries whose name contains an apostrophe |
| TalentsClear.RenamedCounts | paladins/talents/clear.py:5-6 | each entry whose name has an apostrophe is renamed as often as the walk yields it; no other entry is renamed |
| TalentsClear.RenamedAppend | paladins/talents/clear.py:4-6 | renames keep walk order: those of a walk are those of its first part followed by those of the rest |
| TalentsClear.Cleared | paladins/talents/clear.py:4-7 | the tree after the script has the same length, and each entry is the walked one with its name cleaned |
| TalentsClear.RenameCalls | paladins/talents/clear.py:7 | one `os.rename` call per renamed entry, in walk order |
| TalentsClear.Messages | paladins/talents/clear.py:8 | one printed line per renamed entry, in walk order |
| TalentsClear.Walk | paladins/talents/clear.py:4-8 | the loop leaves every entry cleaned, appends one rename call per renamed entry in walk order, and one printed line per rename |
| TalentsClear.Tree.Clear | paladins/talents/clear.py:4-8 | each entry becomes its cleaned version, one rename call per renamed entry in walk order, one line printed per rename |
| TalentsClear.RenamesExactlyApostropheFiles | paladins/talents/clear.py:6-7 | an entry is renamed if and only if its name has an apostrophe; others are untouched; a renamed file stays in its directory and gets the name without apostrophes |
| TalentsClear.NoApostropheLeft | paladins/talents/clear.py:6-7 | after one run no name in the tree contains an apostrophe |
| TalentsClear.SecondRunDoesNothing | paladins/talents/clear.py:6-7 | a second run changes no name, issues no rename and prints nothing |
| TalentsClear.OneMessagePerRename | paladins/talents/clear.py:7-8 | one message per rename, in the same order; the k-th names the old and new name of the k-th renamed file, and the k-th rename goes from `join(root, old)` to `join(root, new)` |

## Left out

- Real filesystem calls (`os.path.exists`, `os.listdir`, `os.walk`, `os.rename`) are parameters or recorded calls. Walk order, rename collisions and OS errors are not modelled.
- The tree after `TalentsClear.Tree.Clear` is the list of walked entries with their new names. A rename onto an existing name is not modelled, nor are directories renamed underneath the walk.
- Randomness (`random.randint`, `random.choice`) is an injected value or a nondeterministic choice. Only membership is stated, not the probabilities.
- Paladins.SpriteForKey: the listing of `maps_sprites/` is a parameter, and each listed name gets `.png` appended, as the code does. The flair sprites (lines 26-34) are stems that get `.png` added, which suggests the directory holds `<stem>.png` files. If so, the fallback branch looks up `<stem>.png.png` and returns the placeholder (`Paladins.ListedSpriteDoublesExtension`). What the directory holds is not part of this model, so this stays as written rather than being reported as a defect.
- Text.Lower: `lower()` is ASCII only, so Unicode case mapping is not modelled.
- Paladins.FormatName: `str(name)` on a non-string identifier is not modelled; names are strings.
- Paladins.Avatar: `str(avatar_id)` on a non-string id is not modelled; the id is a string. The warning logged on a miss is not modelled.
- Paladins.CardBorders: the level is an integer. With the default `level=None` the comparison on the non-cooldown paths raises a `TypeError`, which is not modelled.
- Apex.Legend: models `legend` over the corrected `format_name`. As written, `legend` raises on every input, which `Apex.LegendAsWritten` and `Apex.LegendAsWrittenAlwaysFails` state.
- Logging, and the unused `json` and `asyncio` imports, are not modelled.
- The GitHub URL in the champion icon is only a string template; nothing is fetched.
- The Python class attributes `empty_image` and `base` are module constants.

## Findings

| source | as written | input that shows it | evidently intended | confidence | as-written member | corrected member |
|---|---|---|---|---|---|---|
| apex/fetch_images.py:7 | `for old, new in {...}` iterates the dictionary's keys and unpacks each one-character key into two names, which raises `ValueError` | any name, e.g. `"Bloodhound"`: the first key `" "` has one character | iterate `.items()`, as the Paladins formatter does | not executed | Apex.FormatNameAsWritten (Apex.FormatNameAsWrittenAlwaysFails, Apex.LegendAsWrittenAlwaysFails) | Apex.FormatName |
