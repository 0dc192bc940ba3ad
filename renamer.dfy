/**
 * Renaming an Ultralibrarian symbol file after its manufacturer part number:
 * the filename sanitiser and the guard chain that decides whether, and to what,
 * the file is renamed.
 */
module Renamer {
  import opened Wrappers
  import opened Text
  import opened FileSystem

  // ---------------------------------------------------------------------------
  // Sanitising

  /** The replacement table, in the order the loop visits it. */
  const ProblematicChars: seq<(char, string)> :=
    [('/', "_"), ('\\', "_"), (':', "_"), ('*', "_"), ('?', "_"), ('"', "_"), ('<', "_"), ('>', "_"), ('|', "_")]

  predicate Problematic(c: char) {
    c == '/' || c == '\\' || c == ':' || c == '*' || c == '?' || c == '"' || c == '<' || c == '>' || c == '|'
  }

  /** Reference definition: each problematic character becomes one underscore, every other character stays in place. */
  function Underscored(s: string): (r: string)
    ensures |r| == |s|
    ensures forall i :: 0 <= i < |s| ==> r[i] == if Problematic(s[i]) then '_' else s[i]
  {
    if s == [] then [] else [if Problematic(s[0]) then '_' else s[0]] + Underscored(s[1..])
  }

  /** `sanitize_mpn_for_filename`: underscores for the problematic characters, then `strip()`. */
  function Sanitized(mpn: string): string {
    Strip(Underscored(mpn))
  }

  /** The replacements of the first `|table|` rows, applied in order. */
  function ReplaceAll(s: string, table: seq<(char, string)>): string {
    if table == [] then s
    else
      var last := table[|table| - 1];
      ReplaceChar(ReplaceAll(s, table[..|table| - 1]), last.0, last.1)
  }

  /** Replacing a character by a single character keeps the length and every other position. */
  lemma {:induction false} ReplaceByOne(s: string, c: char, d: char)
    ensures |ReplaceChar(s, c, [d])| == |s|
    ensures forall i :: 0 <= i < |s| ==> ReplaceChar(s, c, [d])[i] == if s[i] == c then d else s[i]
  {
    if s != [] {
      ReplaceByOne(s[1..], c, d);
    }
  }

  /** After a table of one-underscore rows, exactly the characters of its rows have become underscores. */
  lemma {:induction false} ReplaceAllUnderscores(s: string, table: seq<(char, string)>)
    requires forall j :: 0 <= j < |table| ==> table[j].1 == "_"
    ensures |ReplaceAll(s, table)| == |s|
    ensures forall i :: 0 <= i < |s| ==>
      ReplaceAll(s, table)[i] == if s[i] in Firsts(table) then '_' else s[i]
  {
    if table != [] {
      var init, last := table[..|table| - 1], table[|table| - 1];
      ReplaceAllUnderscores(s, init);
      var prev := ReplaceAll(s, init);
      assert ReplaceAll(s, table) == ReplaceChar(prev, last.0, ['_']);
      ReplaceByOne(prev, last.0, '_');
      assert Firsts(table) == Firsts(init) + [last.0];
    }
  }

  /** The characters the rows replace. */
  function Firsts(table: seq<(char, string)>): (cs: seq<char>)
    ensures |cs| == |table|
    ensures forall i :: 0 <= i < |table| ==> cs[i] == table[i].0
  {
    if table == [] then [] else Firsts(table[..|table| - 1]) + [table[|table| - 1].0]
  }

  /** Every character the table replaces is a problematic one. */
  lemma TableProblematic()
    ensures forall i :: 0 <= i < |ProblematicChars| ==> Problematic(ProblematicChars[i].0)
  {
  }

  lemma ReplaceAllTable(s: string)
    ensures ReplaceAll(s, ProblematicChars) == Underscored(s)
  {
    ReplaceAllUnderscores(s, ProblematicChars);
    var fs := Firsts(ProblematicChars);
    TableProblematic();
    forall c ensures c in fs <==> Problematic(c) {
      if c in fs {
        var i :| 0 <= i < |fs| && fs[i] == c;
        assert c == ProblematicChars[i].0;
      }
      if Problematic(c) {
        assert c == fs[0] || c == fs[1] || c == fs[2] || c == fs[3] || c == fs[4] || c == fs[5]
          || c == fs[6] || c == fs[7] || c == fs[8];
      }
    }
  }

  /** `sanitize_mpn_for_filename`: the replacement loop over the table, then `strip()`. */
  method SanitizeMpnForFilename(mpn: string) returns (sanitized: string)
    ensures sanitized == Sanitized(mpn)
  {
    sanitized := mpn;
    for i := 0 to |ProblematicChars|
      invariant sanitized == ReplaceAll(mpn, ProblematicChars[..i])
    {
      assert ProblematicChars[..i + 1][..i] == ProblematicChars[..i];
      sanitized := ReplaceChar(sanitized, ProblematicChars[i].0, ProblematicChars[i].1);
    }
    ReplaceAllTable(mpn);
    assert ProblematicChars[..|ProblematicChars|] == ProblematicChars;
    sanitized := Strip(sanitized);
  }

  lemma StripKeepsChars(s: string, c: char)
    requires c in Strip(s)
    ensures c in s
  {
    var l := TrimLeft(s);
    var r := TrimRight(l);
    assert Strip(s) == r;
    var m := |s| - |l|;
    var k :| 0 <= k < |r| && r[k] == c;
    assert r == l[..|r|] && l == s[m..];
    assert s[m + k] == l[k] == r[k];
  }

  /** The sanitised name holds none of the problematic characters. */
  lemma SanitizedClean(mpn: string, c: char)
    requires c in Sanitized(mpn)
    ensures !Problematic(c)
  {
    var u := Underscored(mpn);
    StripKeepsChars(u, c);
    var i :| 0 <= i < |u| && u[i] == c;
    UnderscoredCharClean(mpn[i], c);
  }

  lemma UnderscoredCharClean(x: char, c: char)
    requires c == if Problematic(x) then '_' else x
    ensures !Problematic(c)
  {
  }

  /** Sanitising a part number that has nothing to replace or strip leaves it unchanged. */
  lemma SanitizedNoop(s: string)
    requires forall i :: 0 <= i < |s| ==> !Problematic(s[i])
    requires s == [] || (!IsSpace(s[0]) && !IsSpace(s[|s| - 1]))
    ensures Sanitized(s) == s
  {
    assert Underscored(s) == s;
    StripNoop(s);
  }

  /** Sanitising twice is sanitising once. */
  lemma SanitizedIdempotent(mpn: string)
    ensures Sanitized(Sanitized(mpn)) == Sanitized(mpn)
  {
    var s := Sanitized(mpn);
    forall i | 0 <= i < |s| ensures !Problematic(s[i]) {
      SanitizedClean(mpn, s[i]);
    }
    SanitizedNoop(s);
  }

  /** A slash becomes exactly one underscore, and the rest is kept. */
  /**
   * One slash between clean parts becomes one underscore and nothing else moves:
   * "SF-0603/2" gives "SF-0603_2".
   */
  lemma SlashBecomesUnderscore(a: string, b: string)
    requires forall i :: 0 <= i < |a| ==> !Problematic(a[i])
    requires forall i :: 0 <= i < |b| ==> !Problematic(b[i])
    requires a != [] && !IsSpace(a[0])
    requires b != [] && !IsSpace(b[|b| - 1])
    ensures Sanitized(a + "/" + b) == a + "_" + b
  {
    var s, want := a + "/" + b, a + "_" + b;
    var u := Underscored(s);
    forall i | 0 <= i < |s| ensures u[i] == want[i] {
      if i < |a| {
        assert s[i] == a[i];
      } else if i > |a| {
        assert s[i] == b[i - |a| - 1];
      }
    }
    assert u == want;
    StripNoop(want);
  }

  // ---------------------------------------------------------------------------
  // The rename decision

  /** The exceptions `rename_symbol_file` raises, with their causes. */
  datatype RenameError =
    | MissingFile       // FileNotFoundError
    | NotAFile          // ValueError
    | NotKicadSym       // ValueError
    | Unreadable        // PermissionError
    | RenameFailed      // the OSError `Path.rename` raised, re-raised

  const SymbolSuffix := ".kicad_sym"

  /** `symbol_path.parent / f"{sanitize(mpn)}.kicad_sym"`. */
  function RenameTarget(symbolPath: Path, mpn: string): Path {
    Child(Parent(symbolPath), Sanitized(mpn) + SymbolSuffix)
  }

  /** `Path.rename` within one directory: the entry moves to its new name, in the same place of the listing. */
  function Moved(t: Tree, from: Path, to: Path): (t': Tree)
    requires from in t.nodes
  {
    var names := t.listing;
    var dir := Parent(from);
    Tree((t.nodes - {from})[to := t.nodes[from]],
         if dir in names then names[dir := RenameIn(names[dir], Name(from), Name(to))] else names)
  }

  function RenameIn(names: seq<string>, oldName: string, newName: string): (r: seq<string>)
    ensures |r| == |names|
    ensures forall i :: 0 <= i < |names| ==> r[i] == if names[i] == oldName then newName else names[i]
  {
    if names == [] then [] else [if names[0] == oldName then newName else names[0]] + RenameIn(names[1..], oldName, newName)
  }

  /**
   * `rename_symbol_file`: the four checks in order, then the target decision. The result is
   * the returned path and the tree afterwards; `renameSucceeds` stands for the outcome of the
   * operating system's rename.
   */
  function RenameSymbolFile(t: Tree, symbolPath: Path, mpn: string, renameSucceeds: bool): (r: Result<(Path, Tree), RenameError>)
    ensures r == Err(MissingFile) <==> !Exists(t, symbolPath)
    ensures r == Err(NotAFile) <==> Exists(t, symbolPath) && !IsFile(t, symbolPath)
    ensures r == Err(NotKicadSym) <==> IsFile(t, symbolPath) && Suffix(Name(symbolPath)) != SymbolSuffix
    ensures r == Err(Unreadable) <==>
      IsFile(t, symbolPath) && Suffix(Name(symbolPath)) == SymbolSuffix && !t.nodes[symbolPath].readable
  {
    if !Exists(t, symbolPath) then Err(MissingFile)
    else if !IsFile(t, symbolPath) then Err(NotAFile)
    else if Suffix(Name(symbolPath)) != SymbolSuffix then Err(NotKicadSym)
    else if !t.nodes[symbolPath].readable then Err(Unreadable)
    else
      var target := RenameTarget(symbolPath, mpn);
      if Exists(t, target) then
        if SameFile(t, target, symbolPath) then Ok((target, t)) else Ok((symbolPath, t))
      else if renameSucceeds then Ok((target, Moved(t, symbolPath, target)))
      else Err(RenameFailed)
  }

  /** The checks that precede the decision all pass. */
  predicate Renamable(t: Tree, symbolPath: Path) {
    IsFile(t, symbolPath) && Suffix(Name(symbolPath)) == SymbolSuffix && t.nodes[symbolPath].readable
  }

  /**
   * When a file already holds the target name, nothing is renamed: the target comes back
   * if it is the same file, and the original path otherwise.
   */
  lemma TargetTakenKeepsTree(t: Tree, symbolPath: Path, mpn: string, renameSucceeds: bool)
    requires Renamable(t, symbolPath)
    requires Exists(t, RenameTarget(symbolPath, mpn))
    ensures var r := RenameSymbolFile(t, symbolPath, mpn, renameSucceeds);
      r.Ok? && r.value.1 == t
      && r.value.0 == (if SameFile(t, RenameTarget(symbolPath, mpn), symbolPath) then RenameTarget(symbolPath, mpn) else symbolPath)
  {
  }

  /**
   * When the target name is free, the file moves there, unchanged, next to where it was:
   * the original path is gone and the returned path is the target.
   */
  lemma FreeTargetMoves(t: Tree, symbolPath: Path, mpn: string)
    requires Renamable(t, symbolPath)
    requires !Exists(t, RenameTarget(symbolPath, mpn))
    ensures var r := RenameSymbolFile(t, symbolPath, mpn, true);
      var target := RenameTarget(symbolPath, mpn);
      && r.Ok? && r.value.0 == target
      && Parent(target) == Parent(symbolPath) && Name(target) == Sanitized(mpn) + SymbolSuffix
      && target in r.value.1.nodes && r.value.1.nodes[target] == t.nodes[symbolPath]
      && symbolPath !in r.value.1.nodes
      && (forall p :: p != symbolPath && p != target ==> (p in r.value.1.nodes <==> p in t.nodes))
  {
    var target := RenameTarget(symbolPath, mpn);
    assert RenameSymbolFile(t, symbolPath, mpn, true) == Ok((target, Moved(t, symbolPath, target)));
    MovedNodes(t, symbolPath, target);
  }

  lemma MovedNodes(t: Tree, from: Path, to: Path)
    requires from in t.nodes && to !in t.nodes
    ensures var n := Moved(t, from, to).nodes;
      && to in n && n[to] == t.nodes[from] && from !in n
      && (forall p :: p != from && p != to ==> (p in n <==> p in t.nodes))
  {
  }

  /** A failing rename is re-raised, and only when the target name was free. */
  lemma RenameFailureRaised(t: Tree, symbolPath: Path, mpn: string, renameSucceeds: bool)
    ensures RenameSymbolFile(t, symbolPath, mpn, renameSucceeds) == Err(RenameFailed)
      <==> Renamable(t, symbolPath) && !Exists(t, RenameTarget(symbolPath, mpn)) && !renameSucceeds
  {
    var target := RenameTarget(symbolPath, mpn);
    if Renamable(t, symbolPath) {
      if Exists(t, target) {
        TargetTakenKeepsTree(t, symbolPath, mpn, renameSucceeds);
      } else if renameSucceeds {
        FreeTargetMoves(t, symbolPath, mpn);
      }
    }
  }

  /** The target keeps the `.kicad_sym` suffix exactly when the sanitised part number is not empty. */
  lemma TargetSuffix(symbolPath: Path, mpn: string)
    ensures Suffix(Name(RenameTarget(symbolPath, mpn))) == SymbolSuffix <==> Sanitized(mpn) != ""
  {
    var s := Sanitized(mpn);
    assert Name(RenameTarget(symbolPath, mpn)) == s + SymbolSuffix;
    SuffixOfSymbolName(s);
  }

  lemma SuffixOfSymbolName(s: string)
    ensures Suffix(s + SymbolSuffix) == SymbolSuffix <==> s != ""
  {
    var n := s + SymbolSuffix;
    assert SymbolSuffix[1..] == "kicad_sym";
    SuffixIs(n, SymbolSuffix);
    assert n[|s|..] == SymbolSuffix;
  }
}
