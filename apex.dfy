/** The Apex image registry: the legend icon pair, the fixed pick-rate assets, and
    the name formatter, both as it is written and as it is evidently meant. */
module Apex {
  import opened Text
  import opened Keys
  import opened Wrappers
  import opened Files

  /** The placeholder returned for any missing asset. */
  const EMPTY_IMAGE := "src/assets/general/blank.png"
  /** The root of the Apex asset tree. */
  const BASE := "src/assets/apex/"

  // ---------------------------------------------------------------------------
  // The pick-rate assets

  const PICKRATE_DIR := "src/assets/apex/pickrate_assets/"
  const NEGATIVE := "src/assets/apex/pickrate_assets/negative.png"
  const POSITIVE := "src/assets/apex/pickrate_assets/positive.png"
  const PICKRATE_BASE := "src/assets/apex/pickrate_assets/pickrate_base.png"
  const PICKRATE_SNIPPET := "src/assets/apex/pickrate_assets/pickrate_snippet.png"

  /** The four pick-rate assets are distinct `.png` files of the pick-rate folder,
      which lies under the Apex root. */
  lemma PickrateAssetsUnderFolder()
    ensures StartsWith(PICKRATE_DIR, BASE)
    ensures forall p :: p in [NEGATIVE, POSITIVE, PICKRATE_BASE, PICKRATE_SNIPPET] ==>
              StartsWith(p, PICKRATE_DIR) && EndsWith(p, ".png")
    ensures |{NEGATIVE, POSITIVE, PICKRATE_BASE, PICKRATE_SNIPPET}| == 4
  {
    Affix(PICKRATE_DIR, "negative.png");
    Affix(PICKRATE_DIR, "positive.png");
    Affix(PICKRATE_DIR, "pickrate_base.png");
    Affix(PICKRATE_DIR, "pickrate_snippet.png");
    Affix(BASE, "pickrate_assets/");
    assert NEGATIVE[|PICKRATE_DIR|] == 'n' && POSITIVE[|PICKRATE_DIR|] == 'p';
    assert PICKRATE_BASE[|PICKRATE_DIR| + 9] == 'b' && PICKRATE_SNIPPET[|PICKRATE_DIR| + 9] == 's';
  }

  // ---------------------------------------------------------------------------
  // Name formatting

  /** What iterating a dictionary yields: its keys, in insertion order. */
  function KeysOf(table: seq<(string, string)>): (keys: seq<string>)
    ensures |keys| == |table|
    ensures forall i :: 0 <= i < |table| ==> keys[i] == table[i].0
    decreases |table|
  {
    if table == [] then [] else [table[0].0] + KeysOf(table[1..])
  }

  /** The keys of the replacement dictionary `format_name` iterates. */
  const FORMAT_KEYS: seq<string> := KeysOf(NAME_TABLE)

  /** The loop of `format_name` as written: each dictionary key is unpacked into
      the two names `old, new`, which succeeds only for a key of exactly two
      characters and then replaces its first character by its second. */
  function UnpackAndReplace(text: string, keys: seq<string>): (r: Result<string>)
    ensures r.Ok? <==> forall i :: 0 <= i < |keys| ==> |keys[i]| == 2
    ensures r.Err? ==> exists i :: 0 <= i < |keys| && |keys[i]| != 2 && r.error == UnpackMismatch(2, |keys[i]|)
                                   && forall j :: 0 <= j < i ==> |keys[j]| == 2
    decreases |keys|
  {
    if keys == [] then Ok(text)
    else if |keys[0]| != 2 then Err(UnpackMismatch(2, |keys[0]|))
    else UnpackAndReplace(Replace(text, [keys[0][0]], [keys[0][1]]), keys[1..])
  }

  /** `format_name` as written: lower-case, run the loop above, strip. */
  function FormatNameAsWritten(name: string): (r: Result<string>)
    ensures r.Ok? <==> forall i :: 0 <= i < |FORMAT_KEYS| ==> |FORMAT_KEYS[i]| == 2
    ensures r.Err? ==> exists i :: 0 <= i < |FORMAT_KEYS| && |FORMAT_KEYS[i]| != 2
                                   && r.error == UnpackMismatch(2, |FORMAT_KEYS[i]|)
                                   && forall j :: 0 <= j < i ==> |FORMAT_KEYS[j]| == 2
  {
    match UnpackAndReplace(Lower(name), FORMAT_KEYS)
    case Ok(text) => Ok(Strip(text))
    case Err(e) => Err(e)
  }

  /** As written, `format_name` raises on every input: its first key, a single
      space, cannot be unpacked into two names. */
  lemma FormatNameAsWrittenAlwaysFails(name: string)
    ensures FormatNameAsWritten(name) == Err(UnpackMismatch(2, 1))
  {
    assert FORMAT_KEYS[0] == NAME_TABLE[0].0 == " ";
  }

  /** `format_name` as it is meant, iterating the dictionary's items: lower-case
      first, apply each pair in order, strip surrounding whitespace last. The
      result is the canonical key. */
  method FormatName(name: string) returns (key: string)
    ensures key == CanonicalKey(name)
    ensures CleanKey(key)
  {
    var text := Lower(name);
    var i := 0;
    while i < |NAME_TABLE|
      invariant 0 <= i <= |NAME_TABLE|
      invariant ReplaceEach(text, NAME_TABLE[i..]) == ReplaceEach(Lower(name), NAME_TABLE)
    {
      assert NAME_TABLE[i..][1..] == NAME_TABLE[i + 1..];
      text := Replace(text, NAME_TABLE[i].0, NAME_TABLE[i].1);
      i := i + 1;
    }
    assert NAME_TABLE[i..] == [];
    NameTableIsCanon(Lower(name));
    CanonicalKeyClean(name);
    key := Strip(text);
  }

  // ---------------------------------------------------------------------------
  // The registry

  /** `path` if it exists, the placeholder otherwise. */
  function IfExists(disk: Disk, path: string): (r: string)
    ensures Guarded(disk, path, EMPTY_IMAGE, r)
  {
    if path in disk then path else EMPTY_IMAGE
  }

  /** A legend's icon and its recoloured variant. */
  datatype LegendIcons = LegendIcons(image: string, colouredImage: string)

  /** The icon pair of a legend, each existence-guarded; the keys are those the
      intended `format_name` produces. */
  function Legend(disk: Disk, legend: string): (r: LegendIcons)
    ensures Guarded(disk, BASE + "legend_icons/" + CanonicalKey(legend) + ".png", EMPTY_IMAGE, r.image)
    ensures Guarded(disk, BASE + "legend_icons/" + CanonicalKey(legend) + "_recoloured.png", EMPTY_IMAGE, r.colouredImage)
  {
    var key := CanonicalKey(legend);
    LegendIcons(IfExists(disk, BASE + "legend_icons/" + key + ".png"),
                IfExists(disk, BASE + "legend_icons/" + key + "_recoloured.png"))
  }

  /** `legend` as written: it formats the name with the `format_name` above, so
      it raises whenever that does, and otherwise builds the same guarded pair. */
  function LegendAsWritten(disk: Disk, legend: string): (r: Result<LegendIcons>)
    ensures FormatNameAsWritten(legend).Err? ==> r == Err(FormatNameAsWritten(legend).error)
    ensures FormatNameAsWritten(legend).Ok? ==>
              var key := FormatNameAsWritten(legend).value;
              && r.Ok?
              && Guarded(disk, BASE + "legend_icons/" + key + ".png", EMPTY_IMAGE, r.value.image)
              && Guarded(disk, BASE + "legend_icons/" + key + "_recoloured.png", EMPTY_IMAGE, r.value.colouredImage)
  {
    match FormatNameAsWritten(legend)
    case Err(e) => Err(e)
    case Ok(key) =>
      Ok(LegendIcons(IfExists(disk, BASE + "legend_icons/" + key + ".png"),
                     IfExists(disk, BASE + "legend_icons/" + key + "_recoloured.png")))
  }

  /** As written, `legend` raises on every input. */
  lemma LegendAsWrittenAlwaysFails(disk: Disk, legend: string)
    ensures LegendAsWritten(disk, legend) == Err(UnpackMismatch(2, 1))
  {
    FormatNameAsWrittenAlwaysFails(legend);
  }

  /** The two icons of a legend never stand for the same file: they are equal only
      when both fell back to the placeholder. */
  lemma LegendIconsDistinct(disk: Disk, legend: string)
    ensures Legend(disk, legend).image == Legend(disk, legend).colouredImage ==>
              Legend(disk, legend).image == EMPTY_IMAGE
  {
    var key := CanonicalKey(legend);
    var plain := BASE + "legend_icons/" + key + ".png";
    var coloured := BASE + "legend_icons/" + key + "_recoloured.png";
    assert |plain| != |coloured|;
  }
}
