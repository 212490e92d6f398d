/** The maintenance script that walks a directory tree and deletes every apostrophe
    from the names of the files in it, reporting each rename. */
module TalentsClear {
  import opened Text

  /** One file as the walk yields it: the directory it is in and its name. */
  datatype Entry = Entry(root: string, file: string)

  /** The new name of a file: every apostrophe deleted, every other character
      kept in order. */
  function StripApostrophes(name: string): (r: string)
    ensures r == SubstChar(name, '\'', "")
    ensures '\'' !in r
    ensures '\'' !in name ==> r == name
  {
    ReplaceOneChar(name, '\'', "");
    SubstCharChars(name, '\'', "", '\'');
    DeleteAbsent(name);
    Replace(name, "'", "")
  }

  lemma DeleteAbsent(name: string)
    ensures '\'' !in name ==> SubstChar(name, '\'', "") == name
  {
    if '\'' !in name {
      SubstCharAbsent(name, '\'', "");
    }
  }

  /** `os.path.join(a, b)`. */
  function Join(a: string, b: string): string {
    if StartsWith(b, "/") then b
    else if a == [] || a[|a| - 1] == '/' then a + b
    else a + "/" + b
  }

  /** The entry after the script has seen it: same directory, apostrophes gone. */
  function Cleaned(e: Entry): Entry {
    Entry(e.root, StripApostrophes(e.file))
  }

  /** The whole tree after the script has run. */
  function Cleared(es: seq<Entry>): (r: seq<Entry>)
    ensures |r| == |es|
    ensures forall i {:trigger r[i]} :: 0 <= i < |es| ==> r[i] == Cleaned(es[i])
    decreases |es|
  {
    if es == [] then [] else Cleared(es[..|es| - 1]) + [Cleaned(es[|es| - 1])]
  }

  /** The entries the script renames, in walk order: each entry whose name has an
      apostrophe, as often as the walk yields it, and no other. */
  function Renamed(es: seq<Entry>): (r: seq<Entry>)
    ensures forall e :: e in r ==> e in es && '\'' in e.file
    ensures forall i :: 0 <= i < |es| && '\'' in es[i].file ==> es[i] in r
    decreases |es|
  {
    if es == [] then []
    else
      var last := es[|es| - 1];
      Renamed(es[..|es| - 1]) + (if '\'' in last.file then [last] else [])
  }

  /** The `os.rename` call made for a renamed entry: from its path to the new path
      in the same directory. */
  function RenameCall(e: Entry): (string, string) {
    (Join(e.root, e.file), Join(e.root, StripApostrophes(e.file)))
  }

  /** The line printed for a renamed entry. */
  function Message(e: Entry): string {
    "Renaming " + e.file + " to " + StripApostrophes(e.file)
  }

  /** The rename calls of a walk: one per renamed entry, in the same order. */
  function RenameCalls(es: seq<Entry>): (r: seq<(string, string)>)
    ensures |r| == |Renamed(es)|
    ensures forall k {:trigger r[k]} :: 0 <= k < |r| ==> r[k] == RenameCall(Renamed(es)[k])
    decreases |es|
  {
    if es == [] then []
    else
      var last := es[|es| - 1];
      RenameCalls(es[..|es| - 1]) + (if '\'' in last.file then [RenameCall(last)] else [])
  }

  /** The lines a walk prints: one per renamed entry, in the same order. */
  function Messages(es: seq<Entry>): (r: seq<string>)
    ensures |r| == |Renamed(es)|
    ensures forall k {:trigger r[k]} :: 0 <= k < |r| ==> r[k] == Message(Renamed(es)[k])
    decreases |es|
  {
    if es == [] then []
    else
      var last := es[|es| - 1];
      Messages(es[..|es| - 1]) + (if '\'' in last.file then [Message(last)] else [])
  }

  /** The walked tree, the renames issued and the lines printed. */
  class Tree {
    var entries: seq<Entry>
    var renames: seq<(string, string)>
    var output: seq<string>

    constructor (entries: seq<Entry>)
      ensures this.entries == entries && renames == [] && output == []
    {
      this.entries := entries;
      renames := [];
      output := [];
    }

    /** Every file whose name holds an apostrophe is renamed in place to the name
        without them, and the rename is reported; other files are left alone. */
    method Clear()
      modifies this
      ensures entries == Cleared(old(entries))
      ensures renames == old(renames) + RenameCalls(old(entries))
      ensures output == old(output) + Messages(old(entries))
    {
      entries, renames, output := Walk(entries, renames, output);
    }
  }

  /** The walk itself: each entry in turn, renaming and reporting those whose name
      holds an apostrophe. */
  method Walk(walked: seq<Entry>, calls0: seq<(string, string)>, lines0: seq<string>)
    returns (es: seq<Entry>, calls: seq<(string, string)>, lines: seq<string>)
    ensures es == Cleared(walked)
    ensures calls == calls0 + RenameCalls(walked)
    ensures lines == lines0 + Messages(walked)
  {
    es, calls, lines := walked, calls0, lines0;
    WalkStart(walked, calls0, lines0);
    var i := 0;
    while i < |es|
      invariant |es| == |walked|
      invariant Progress(walked, i, es, calls, lines, calls0, lines0)
    {
      var e := es[i];
      WalkStep(walked, i, es, calls, lines, calls0, lines0);
      if '\'' in e.file {
        es := es[i := Cleaned(e)];
        calls := calls + [RenameCall(e)];
        lines := lines + [Message(e)];
      }
      i := i + 1;
    }
    WalkDone(walked, i, es, calls, lines, calls0, lines0);
  }

  /** The state of `Clear` once the first `i` entries of the walk are handled. */
  ghost predicate Progress(walked: seq<Entry>, i: nat, es: seq<Entry>, calls: seq<(string, string)>,
                           lines: seq<string>, calls0: seq<(string, string)>, lines0: seq<string>)
  {
    && i <= |walked|
    && es == Cleared(walked[..i]) + walked[i..]
    && calls == calls0 + RenameCalls(walked[..i])
    && lines == lines0 + Messages(walked[..i])
  }

  /** Before the walk nothing is handled. */
  lemma WalkStart(walked: seq<Entry>, calls0: seq<(string, string)>, lines0: seq<string>)
    ensures Progress(walked, 0, walked, calls0, lines0, calls0, lines0)
  {
    assert walked[..0] == [];
  }

  /** Once every entry is handled, the state is that of the whole walk. */
  lemma WalkDone(walked: seq<Entry>, i: nat, es: seq<Entry>, calls: seq<(string, string)>,
                 lines: seq<string>, calls0: seq<(string, string)>, lines0: seq<string>)
    requires Progress(walked, i, es, calls, lines, calls0, lines0) && i == |walked|
    ensures es == Cleared(walked)
    ensures calls == calls0 + RenameCalls(walked) && lines == lines0 + Messages(walked)
  {
    assert walked[..i] == walked;
  }

  /** Handling the entry at position `i` of the walk moves the state to `i + 1`. */
  lemma WalkStep(walked: seq<Entry>, i: nat, es: seq<Entry>, calls: seq<(string, string)>,
                 lines: seq<string>, calls0: seq<(string, string)>, lines0: seq<string>)
    requires Progress(walked, i, es, calls, lines, calls0, lines0) && i < |walked|
    ensures es[i] == walked[i]
    ensures '\'' in walked[i].file ==>
              Progress(walked, i + 1, es[i := Cleaned(walked[i])], calls + [RenameCall(walked[i])],
                       lines + [Message(walked[i])], calls0, lines0)
    ensures '\'' !in walked[i].file ==> Progress(walked, i + 1, es, calls, lines, calls0, lines0)
  {
    StepEntries(walked, i, es);
    StepCalls(walked, i, calls, calls0);
    StepLines(walked, i, lines, lines0);
  }

  lemma StepEntries(walked: seq<Entry>, i: nat, es: seq<Entry>)
    requires i < |walked| && es == Cleared(walked[..i]) + walked[i..]
    ensures es[i] == walked[i]
    ensures es[i := Cleaned(walked[i])] == Cleared(walked[..i + 1]) + walked[i + 1..]
    ensures '\'' !in walked[i].file ==> es == Cleared(walked[..i + 1]) + walked[i + 1..]
  {
    var e := walked[i];
    ClearedSnoc(walked, i);
    assert walked[i..] == [e] + walked[i + 1..];
    UpdateSplit(Cleared(walked[..i]), e, Cleaned(e), walked[i + 1..]);
    if '\'' !in e.file {
      assert es[i := Cleaned(e)] == es;
    }
  }

  lemma StepCalls(walked: seq<Entry>, i: nat, calls: seq<(string, string)>, calls0: seq<(string, string)>)
    requires i < |walked| && calls == calls0 + RenameCalls(walked[..i])
    ensures '\'' in walked[i].file ==> calls + [RenameCall(walked[i])] == calls0 + RenameCalls(walked[..i + 1])
    ensures '\'' !in walked[i].file ==> calls == calls0 + RenameCalls(walked[..i + 1])
  {
    RenameCallsSnoc(walked, i);
    if '\'' in walked[i].file {
      AppendAssoc(calls0, RenameCalls(walked[..i]), [RenameCall(walked[i])]);
    } else {
      assert RenameCalls(walked[..i]) + [] == RenameCalls(walked[..i]);
    }
  }

  lemma StepLines(walked: seq<Entry>, i: nat, lines: seq<string>, lines0: seq<string>)
    requires i < |walked| && lines == lines0 + Messages(walked[..i])
    ensures '\'' in walked[i].file ==> lines + [Message(walked[i])] == lines0 + Messages(walked[..i + 1])
    ensures '\'' !in walked[i].file ==> lines == lines0 + Messages(walked[..i + 1])
  {
    MessagesSnoc(walked, i);
    if '\'' in walked[i].file {
      AppendAssoc(lines0, Messages(walked[..i]), [Message(walked[i])]);
    } else {
      assert Messages(walked[..i]) + [] == Messages(walked[..i]);
    }
  }

  lemma AppendAssoc<T>(a: seq<T>, b: seq<T>, c: seq<T>)
    ensures (a + b) + c == a + (b + c)
  {
  }

  lemma ClearedSnoc(walked: seq<Entry>, i: nat)
    requires i < |walked|
    ensures Cleared(walked[..i + 1]) == Cleared(walked[..i]) + [Cleaned(walked[i])]
  {
    assert walked[..i + 1][..i] == walked[..i];
  }

  lemma RenameCallsSnoc(walked: seq<Entry>, i: nat)
    requires i < |walked|
    ensures RenameCalls(walked[..i + 1]) ==
            RenameCalls(walked[..i]) + (if '\'' in walked[i].file then [RenameCall(walked[i])] else [])
  {
    assert walked[..i + 1][..i] == walked[..i];
  }

  lemma MessagesSnoc(walked: seq<Entry>, i: nat)
    requires i < |walked|
    ensures Messages(walked[..i + 1]) ==
            Messages(walked[..i]) + (if '\'' in walked[i].file then [Message(walked[i])] else [])
  {
    assert walked[..i + 1][..i] == walked[..i];
  }

  /** Overwriting the element just after a prefix. */
  lemma UpdateSplit<T>(a: seq<T>, x: T, y: T, b: seq<T>)
    ensures (a + ([x] + b))[|a| := y] == (a + [y]) + b
  {
  }

  // ---------------------------------------------------------------------------
  // Properties of the script

  /** A file is renamed only if its name contains an apostrophe, every such file is
      renamed, and a renamed file stays in its directory: only the name changes,
      to the old name less its apostrophes. */
  lemma RenamesExactlyApostropheFiles(es: seq<Entry>, i: nat)
    requires i < |es|
    ensures '\'' !in es[i].file ==> Cleared(es)[i] == es[i]
    ensures '\'' in es[i].file <==> es[i] in Renamed(es)
    ensures Cleared(es)[i].root == es[i].root
    ensures Cleared(es)[i].file == SubstChar(es[i].file, '\'', "")
  {
  }

  /** The renames hold each apostrophe entry as often as the walk yields it, and no
      other entry. */
  lemma {:induction false} RenamedCounts(es: seq<Entry>)
    ensures forall e :: multiset(Renamed(es))[e] == if '\'' in e.file then multiset(es)[e] else 0
    decreases |es|
  {
    if es != [] {
      var n := |es|;
      RenamedCounts(es[..n - 1]);
      assert es == es[..n - 1] + [es[n - 1]];
    }
  }

  /** The renames keep walk order: those of a longer walk are those of its first
      part followed by those of the rest. */
  lemma {:induction false} RenamedAppend(a: seq<Entry>, b: seq<Entry>)
    ensures Renamed(a + b) == Renamed(a) + Renamed(b)
    decreases |b|
  {
    if b == [] {
      assert a + b == a;
    } else {
      var n := |b|;
      var last := b[n - 1];
      var tail := if '\'' in last.file then [last] else [];
      RenamedAppend(a, b[..n - 1]);
      assert (a + b)[..|a + b| - 1] == a + b[..n - 1];
      assert (a + b)[|a + b| - 1] == last;
      assert Renamed(a + b) == Renamed(a + b[..n - 1]) + tail;
      assert Renamed(b) == Renamed(b[..n - 1]) + tail;
      AppendAssoc(Renamed(a), Renamed(b[..n - 1]), tail);
    }
  }

  /** After one run no name in the tree has an apostrophe. */
  lemma NoApostropheLeft(es: seq<Entry>)
    ensures forall e :: e in Cleared(es) ==> '\'' !in e.file
  {
  }

  /** The script is idempotent: a second run changes no name, issues no rename and
      prints nothing. */
  lemma {:induction false} SecondRunDoesNothing(es: seq<Entry>)
    ensures Cleared(Cleared(es)) == Cleared(es)
    ensures Renamed(Cleared(es)) == []
    ensures RenameCalls(Cleared(es)) == [] && Messages(Cleared(es)) == []
    decreases |es|
  {
    if es != [] {
      var n := |es|;
      SecondRunDoesNothing(es[..n - 1]);
      assert Cleared(es)[..n - 1] == Cleared(es[..n - 1]);
      assert '\'' !in Cleared(es)[n - 1].file;
    }
  }

  /** One message per rename, in the same order, and the k-th message names the
      old and the new file name of the k-th rename. */
  lemma OneMessagePerRename(es: seq<Entry>, k: nat)
    requires k < |Renamed(es)|
    ensures |Messages(es)| == |RenameCalls(es)| == |Renamed(es)|
    ensures var e := Renamed(es)[k];
            RenameCalls(es)[k] == (Join(e.root, e.file), Join(e.root, StripApostrophes(e.file)))
            && Messages(es)[k] == "Renaming " + e.file + " to " + StripApostrophes(e.file)
  {
  }
}
