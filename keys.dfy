/** The canonical asset key: the replacement table both registries apply to a
    lower-cased name, and a character-by-character definition of what it does. */
module Keys {
  import opened Text

  /** The `{" ": "_", "'": "", ",": "", "!": ""}` table, in its insertion order. */
  const NAME_TABLE: seq<(string, string)> := [(" ", "_"), ("'", ""), (",", ""), ("!", "")]

  /** The characters the table deletes. */
  predicate IsDropped(c: char) {
    c == '\'' || c == ',' || c == '!'
  }

  /** What the table does to one character. */
  function KeyChar(c: char): string {
    if c == ' ' then "_" else if IsDropped(c) then "" else [c]
  }

  /** The table applied in one pass, character by character. */
  function Canon(s: string): string
    decreases |s|
  {
    if s == [] then [] else KeyChar(s[0]) + Canon(s[1..])
  }

  /** No space and no deleted character survives `Canon`; every other character
      comes from the input, or is the `_` standing for a space. */
  lemma {:induction false} CanonChars(s: string, d: char)
    ensures d in Canon(s) ==> d != ' ' && !IsDropped(d) && (d in s || (d == '_' && ' ' in s))
    decreases |s|
  {
    if s != [] {
      CanonChars(s[1..], d);
      assert Canon(s) == KeyChar(s[0]) + Canon(s[1..]);
    }
  }

  /** A string with no space and no deleted character is its own canonical form. */
  lemma {:induction false} CanonUnchanged(s: string)
    requires forall c :: c in s ==> c != ' ' && !IsDropped(c)
    ensures Canon(s) == s
    decreases |s|
  {
    if s != [] {
      assert s[0] in s;
      assert KeyChar(s[0]) == [s[0]];
      assert forall c :: c in s[1..] ==> c in s;
      CanonUnchanged(s[1..]);
      assert Canon(s) == [s[0]] + s[1..];
      assert [s[0]] + s[1..] == s;
    }
  }

  /** The four substitutions in table order, on one character. */
  function Chain(s: string): string {
    SubstChar(SubstChar(SubstChar(SubstChar(s, ' ', "_"), '\'', ""), ',', ""), '!', "")
  }

  lemma {:induction false} ChainIsCanon(s: string)
    ensures Chain(s) == Canon(s)
    decreases |s|
  {
    if s != [] {
      var x, rest := [s[0]], s[1..];
      assert s == x + rest;
      var a1 := SubstChar(x, ' ', "_");
      SubstCharAppend(x, rest, ' ', "_");
      var b1 := SubstChar(rest, ' ', "_");
      SubstCharAppend(a1, b1, '\'', "");
      var a2, b2 := SubstChar(a1, '\'', ""), SubstChar(b1, '\'', "");
      SubstCharAppend(a2, b2, ',', "");
      var a3, b3 := SubstChar(a2, ',', ""), SubstChar(b2, ',', "");
      SubstCharAppend(a3, b3, '!', "");
      assert SubstChar(a3, '!', "") == KeyChar(s[0]);
      ChainIsCanon(rest);
    }
  }

  /** Applying the table with sequential `replace` calls is the one-pass `Canon`. */
  lemma NameTableIsCanon(s: string)
    ensures ReplaceEach(s, NAME_TABLE) == Canon(s)
  {
    var t := NAME_TABLE;
    assert t[1..] == [("'", ""), (",", ""), ("!", "")];
    assert t[1..][1..] == [(",", ""), ("!", "")];
    assert t[1..][1..][1..] == [("!", "")];
    assert t[1..][1..][1..][1..] == [];
    var s1 := Replace(s, " ", "_");
    ReplaceOneChar(s, ' ', "_");
    var s2 := Replace(s1, "'", "");
    ReplaceOneChar(s1, '\'', "");
    var s3 := Replace(s2, ",", "");
    ReplaceOneChar(s2, ',', "");
    ReplaceOneChar(s3, '!', "");
    ChainIsCanon(s);
  }

  /** The canonical key of a name, as both registries mean it: lower-cased,
      the table applied in one pass, surrounding whitespace stripped. */
  function CanonicalKey(name: string): string {
    Strip(Canon(Lower(name)))
  }

  /** What no canonical key contains: upper-case ASCII, a space, an apostrophe,
      a comma, an exclamation mark, or whitespace at either end. */
  predicate CleanKey(key: string) {
    && (forall c :: c in key ==> !IsUpper(c) && c != ' ' && !IsDropped(c))
    && (key != [] ==> !IsSpace(key[0]) && !IsSpace(key[|key| - 1]))
  }

  /** A canonical key is clean, and each of its characters is a character of the
      lower-cased name or the `_` that replaced a space. */
  lemma CanonicalKeyClean(name: string)
    ensures CleanKey(CanonicalKey(name))
    ensures forall c :: c in CanonicalKey(name) ==> c in Lower(name) || (c == '_' && ' ' in name)
  {
    var low := Lower(name);
    var key := Strip(Canon(low));
    assert key == CanonicalKey(name);
    forall c | c in key
      ensures !IsUpper(c) && c != ' ' && !IsDropped(c)
      ensures c in low || (c == '_' && ' ' in name)
    {
      assert c in Canon(low);
      CanonChars(low, c);
      if ' ' in low {
        var i :| 0 <= i < |low| && low[i] == ' ';
        assert name[i] == ' ';
      }
    }
    assert key != [] ==> !IsSpace(key[0]) && !IsSpace(key[|key| - 1]);
    assert CleanKey(key);
  }

  /** Formatting a canonical key again changes nothing. */
  lemma CanonicalKeyIdempotent(name: string)
    ensures CanonicalKey(CanonicalKey(name)) == CanonicalKey(name)
  {
    var key := CanonicalKey(name);
    CanonicalKeyClean(name);
    assert Lower(key) == key;
    CanonUnchanged(key);
    StripUnchanged(key);
  }
}
