/**
 * KiCad library tables (`sym-lib-table`, `fp-lib-table`): the keyed table of
 * library entries, the S-expression text it writes, the regular-expression reader
 * of that text, and the URI the project helpers store for a library path.
 * Files are text values here: reading an absent file is `None`, writing is
 * returning the content.
 */
module Project {
  import opened Wrappers
  import opened Text
  import Models

  // ---------------------------------------------------------------------------
  // Entries and their text

  datatype LibraryEntry = LibraryEntry(name: string, libType: string, uri: string, options: string, descr: string)

  /** `LibraryEntry.from_sexp_dict`: each field from its key, or the field's default. */
  function FromSexpDict(data: map<string, string>): LibraryEntry {
    LibraryEntry(
      if "name" in data then data["name"] else "",
      if "type" in data then data["type"] else "KiCad",
      if "uri" in data then data["uri"] else "",
      if "options" in data then data["options"] else "",
      if "descr" in data then data["descr"] else "")
  }

  /** The dictionary whose keys are the S-expression's field names. */
  function SexpDict(e: LibraryEntry): map<string, string> {
    map["name" := e.name, "type" := e.libType, "uri" := e.uri, "options" := e.options, "descr" := e.descr]
  }

  /** An entry survives the trip through its field dictionary; an empty dictionary gives the defaults. */
  lemma FromSexpDictInverse(e: LibraryEntry)
    ensures FromSexpDict(SexpDict(e)) == e
    ensures FromSexpDict(map[]) == LibraryEntry("", "KiCad", "", "", "")
  {
  }

  /** `(key "value")`, the value quoted as it is, without escaping. */
  function FieldText(key: string, value: string): string {
    "(" + key + " \"" + value + "\")"
  }

  /** A field followed by `tail`. */
  function FieldThen(key: string, value: string, tail: string): string {
    FieldText(key, value) + tail
  }

  /** The line break and indent between two fields. */
  const Sep := "\n       "

  /**
   * The text of one entry after its two-space indent, followed by `tail`:
   * `(lib (name "…")` and the four other fields one per line, closed by `))` and a newline.
   */
  function EntryThen(e: LibraryEntry, tail: string): string {
    "(lib" + (" " + FieldThen("name", e.name, Sep + FieldThen("type", e.libType, Sep + FieldThen("uri", e.uri,
      Sep + FieldThen("options", e.options, Sep + FieldThen("descr", e.descr, ")\n" + tail))))))
  }

  /** `LibraryEntry.to_sexp`: the five fields quoted as they are, without escaping. */
  function ToSexp(e: LibraryEntry): string {
    "  " + EntryThen(e, "")
  }

  lemma AppendAssoc(a: string, b: string, c: string)
    ensures (a + b) + c == a + (b + c)
  {
  }

  /** A separator and a field followed by `t`, then `more`. */
  lemma SepFieldAppend(key: string, value: string, t: string, more: string)
    ensures (Sep + FieldThen(key, value, t)) + more == Sep + FieldThen(key, value, t + more)
  {
    AppendAssoc(FieldText(key, value), t, more);
    AppendAssoc(Sep, FieldThen(key, value, t), more);
  }

  /** The text of an entry followed by more text is the entry's text with that text as its tail. */
  lemma {:induction false} ToSexpThen(e: LibraryEntry, tail: string)
    ensures ToSexp(e) + tail == "  " + EntryThen(e, tail)
  {
    var t5 := ")\n";
    assert t5 + tail == ")\n" + tail;
    var t4 := Sep + FieldThen("descr", e.descr, t5);
    SepFieldAppend("descr", e.descr, t5, tail);
    var t3 := Sep + FieldThen("options", e.options, t4);
    SepFieldAppend("options", e.options, t4, tail);
    var t2 := Sep + FieldThen("uri", e.uri, t3);
    SepFieldAppend("uri", e.uri, t3, tail);
    var t1 := Sep + FieldThen("type", e.libType, t2);
    SepFieldAppend("type", e.libType, t2, tail);
    var t0 := FieldThen("name", e.name, t1);
    AppendAssoc(FieldText("name", e.name), t1, tail);
    AppendAssoc(" ", t0, tail);
    AppendAssoc("(lib", " " + t0, tail);
    AppendAssoc("  ", "(lib" + (" " + t0), tail);
    assert EntryThen(e, "") == "(lib" + (" " + t0);
  }

  // ---------------------------------------------------------------------------
  // The keyed table: a dictionary keeps insertion order, and a replaced key keeps its place

  /** The position of the entry stored under `name`. */
  function IndexOf(es: seq<LibraryEntry>, name: string): (r: Option<nat>)
    ensures r.Some? ==> r.value < |es| && es[r.value].name == name
    ensures r.Some? ==> forall j :: 0 <= j < r.value ==> es[j].name != name
    ensures r.None? ==> forall j :: 0 <= j < |es| ==> es[j].name != name
  {
    if es == [] then None
    else if es[0].name == name then Some(0)
    else match IndexOf(es[1..], name)
      case None => None
      case Some(k) => Some(k + 1)
  }

  predicate UniqueNames(es: seq<LibraryEntry>) {
    forall i, j :: 0 <= i < j < |es| ==> es[i].name != es[j].name
  }

  /** `entries.get(name)`. */
  function Lookup(es: seq<LibraryEntry>, name: string): (r: Option<LibraryEntry>)
    ensures r.Some? <==> exists i :: 0 <= i < |es| && es[i].name == name
    ensures r.Some? ==> r.value in es && r.value.name == name
  {
    match IndexOf(es, name)
    case Some(i) => Some(es[i])
    case None => None
  }

  /** `entries[e.name] = e`: replaced where the name already is, appended otherwise. */
  function Put(es: seq<LibraryEntry>, e: LibraryEntry): seq<LibraryEntry> {
    match IndexOf(es, e.name)
    case Some(i) => es[i := e]
    case None => es + [e]
  }

  /** `del entries[name]`, the others keeping their order. */
  function Delete(es: seq<LibraryEntry>, name: string): seq<LibraryEntry> {
    match IndexOf(es, name)
    case Some(i) => RemoveAt(es, i)
    case None => es
  }

  /** In a table with unique names, each entry is what its own name finds. */
  lemma LookupAt(es: seq<LibraryEntry>, i: nat)
    requires UniqueNames(es) && i < |es|
    ensures Lookup(es, es[i].name) == Some(es[i])
  {
    var k := IndexOf(es, es[i].name);
    assert k.Some?;
    assert k.value == i;
  }

  /** What a name finds, given where it is or that it is nowhere. */
  lemma LookupCases(es: seq<LibraryEntry>, n: string)
    requires UniqueNames(es)
    ensures (exists i :: 0 <= i < |es| && es[i].name == n) || Lookup(es, n) == None
    ensures forall i :: 0 <= i < |es| && es[i].name == n ==> Lookup(es, n) == Some(es[i])
  {
    forall i | 0 <= i < |es| && es[i].name == n ensures Lookup(es, n) == Some(es[i]) {
      LookupAt(es, i);
    }
  }

  /**
   * Storing an entry makes it the one its name finds and leaves every other name's
   * entry where it was; the table grows by one exactly when the name was new.
   */
  lemma PutSemantics(es: seq<LibraryEntry>, e: LibraryEntry, n: string)
    requires UniqueNames(es)
    ensures UniqueNames(Put(es, e))
    ensures Lookup(Put(es, e), n) == if n == e.name then Some(e) else Lookup(es, n)
    ensures |Put(es, e)| == if Lookup(es, e.name).Some? then |es| else |es| + 1
    ensures forall i :: 0 <= i < |es| ==> Put(es, e)[i] == if es[i].name == e.name then e else es[i]
  {
    match IndexOf(es, e.name)
    case Some(i) =>
      PutReplaces(es, e, n, i);
    case None =>
      PutAppends(es, e, n);
  }

  /** Storing under a name already present replaces that entry in place. */
  lemma PutReplaces(es: seq<LibraryEntry>, e: LibraryEntry, n: string, i: nat)
    requires UniqueNames(es) && IndexOf(es, e.name) == Some(i)
    ensures var r := es[i := e];
      && UniqueNames(r)
      && Lookup(r, n) == (if n == e.name then Some(e) else Lookup(es, n))
      && forall j :: 0 <= j < |es| ==> r[j] == if es[j].name == e.name then e else es[j]
  {
    var r := es[i := e];
    assert forall j :: 0 <= j < |r| ==> r[j].name == es[j].name;
    assert UniqueNames(r);
    LookupAt(r, i);
    LookupCases(es, n);
    LookupCases(r, n);
    if n != e.name {
      forall j | 0 <= j < |es| && es[j].name == n ensures r[j] == es[j] { }
      forall j | 0 <= j < |r| && r[j].name == n ensures es[j].name == n { }
    }
  }

  /** Storing under a new name appends the entry. */
  lemma PutAppends(es: seq<LibraryEntry>, e: LibraryEntry, n: string)
    requires UniqueNames(es) && IndexOf(es, e.name).None?
    ensures var r := es + [e];
      && UniqueNames(r)
      && Lookup(r, n) == (if n == e.name then Some(e) else Lookup(es, n))
      && forall j :: 0 <= j < |es| ==> r[j] == es[j]
  {
    var r := es + [e];
    assert forall j :: 0 <= j < |es| ==> r[j] == es[j];
    assert UniqueNames(r);
    LookupAt(r, |es|);
    LookupCases(es, n);
    LookupCases(r, n);
    if n != e.name {
      forall j | 0 <= j < |r| && r[j].name == n ensures j < |es| && es[j].name == n { }
    }
  }

  /** The table without its `i`-th entry. */
  function RemoveAt(es: seq<LibraryEntry>, i: nat): seq<LibraryEntry>
    requires i < |es|
  {
    es[..i] + es[i + 1..]
  }

  /** Where each survivor of a removal sits. */
  lemma RemovedAt(es: seq<LibraryEntry>, i: nat)
    requires i < |es|
    ensures |RemoveAt(es, i)| == |es| - 1
    ensures forall j :: 0 <= j < i ==> (RemoveAt(es, i))[j] == es[j]
    ensures forall j :: i <= j < |es| - 1 ==> (RemoveAt(es, i))[j] == es[j + 1]
  {
  }

  lemma RemovedUnique(es: seq<LibraryEntry>, i: nat)
    requires UniqueNames(es) && i < |es|
    ensures UniqueNames(RemoveAt(es, i))
  {
    var d := RemoveAt(es, i);
    RemovedAt(es, i);
    forall j, k | 0 <= j < k < |d| ensures d[j].name != d[k].name {
      var j' := if j < i then j else j + 1;
      var k' := if k < i then k else k + 1;
      assert d[j] == es[j'] && d[k] == es[k'];
    }
  }

  lemma RemovedMembers(es: seq<LibraryEntry>, i: nat)
    requires UniqueNames(es) && i < |es|
    ensures forall x :: x in RemoveAt(es, i) <==> x in es && x.name != es[i].name
  {
    var d := RemoveAt(es, i);
    RemovedAt(es, i);
    forall x | x in d ensures x in es && x.name != es[i].name {
      var j :| 0 <= j < |d| && d[j] == x;
      var j' := if j < i then j else j + 1;
      assert d[j] == es[j'];
    }
    forall x | x in es && x.name != es[i].name ensures x in d {
      var j :| 0 <= j < |es| && es[j] == x;
      if j < i { assert d[j] == x; } else { assert d[j - 1] == x; }
    }
  }

  /** Removing a name makes it absent and leaves every other name's entry, in order. */
  lemma DeleteSemantics(es: seq<LibraryEntry>, name: string, n: string)
    requires UniqueNames(es)
    ensures UniqueNames(Delete(es, name))
    ensures Lookup(Delete(es, name), n) == if n == name then None else Lookup(es, n)
    ensures |Delete(es, name)| == if Lookup(es, name).Some? then |es| - 1 else |es|
    ensures forall x :: x in Delete(es, name) <==> x in es && x.name != name
  {
    var d := Delete(es, name);
    match IndexOf(es, name)
    case None =>
      forall x | x in es ensures x.name != name {
        var j :| 0 <= j < |es| && es[j] == x;
      }
    case Some(i) =>
      RemovedUnique(es, i);
      RemovedMembers(es, i);
      LookupCases(d, n);
      if n == name {
        forall j | 0 <= j < |d| ensures d[j].name != n {
          assert d[j] in d;
        }
      } else {
        LookupCases(es, n);
        RemovedAt(es, i);
        forall j | 0 <= j < |es| && es[j].name == n ensures Lookup(d, n) == Some(es[j]) {
          assert d[if j < i then j else j - 1] == es[j];
        }
        forall j | 0 <= j < |d| && d[j].name == n ensures Lookup(es, n).Some? {
          assert d[j] in es;
        }
      }
  }

  // ---------------------------------------------------------------------------
  // The whole table's text

  /** `filename`: the symbol table for "sym", the footprint table for anything else. */
  function FileName(tableType: string): (f: string)
    ensures f == "sym-lib-table" <==> tableType == "sym"
    ensures f == "fp-lib-table" <==> tableType != "sym"
  {
    if tableType == "sym" then "sym-lib-table" else "fp-lib-table"
  }

  /** The entries' texts, in table order. */
  function Body(es: seq<LibraryEntry>): string {
    if es == [] then "" else ToSexp(es[0]) + Body(es[1..])
  }

  lemma {:induction false} BodySnoc(es: seq<LibraryEntry>, e: LibraryEntry)
    ensures Body(es + [e]) == Body(es) + ToSexp(e)
  {
    if es == [] {
      assert es + [e] == [e];
      assert Body([e][1..]) == "";
    } else {
      var head, rest := ToSexp(es[0]), es[1..];
      assert (es + [e])[0] == es[0] && (es + [e])[1..] == rest + [e];
      BodySnoc(rest, e);
      assert Body(es + [e]) == head + (Body(rest) + ToSexp(e));
      AppendAssoc(head, Body(rest), ToSexp(e));
    }
  }

  function Header(filename: string, version: int): string {
    "(" + filename + "\n" + "  (version " + IntToString(version) + ")\n"
  }

  /** What `to_file` writes: the header, every entry in insertion order, the closing parenthesis. */
  function TableText(filename: string, version: int, es: seq<LibraryEntry>): string {
    Header(filename, version) + Body(es) + ")\n"
  }

  /** `"".join(lines)`. */
  function Join(lines: seq<string>): string {
    if lines == [] then "" else Join(lines[..|lines| - 1]) + lines[|lines| - 1]
  }

  // ---------------------------------------------------------------------------
  // The reader: `re.finditer` of the entry pattern and `re.search` of the version pattern.
  // Each `\s+` is followed by a parenthesis or a digit and each `[^"]*` by a quote, so
  // the greedy match is the only one; only the final `\s*\n` gives back characters,
  // ending the match after the last newline of the white space that follows `))`.

  /** A literal at the start of `s`: what follows it. */
  function Lit(s: string, lit: string): (r: Option<string>)
    ensures r.Some? ==> |r.value| + |lit| == |s|
  {
    if StartsWith(s, lit) then Some(s[|lit|..]) else None
  }

  /** `\s+`: at least one white-space character, then as many as there are. */
  function Spaces1(s: string): (r: Option<string>)
    ensures r.Some? ==> |r.value| < |s|
  {
    if s != [] && IsSpace(s[0]) then Some(TrimLeft(s[1..])) else None
  }

  /** The length of the longest prefix without `c`. */
  function SpanWithout(s: string, c: char): (k: nat)
    ensures k <= |s| && c !in s[..k]
    ensures k < |s| ==> s[k] == c
  {
    if s == [] || s[0] == c then 0
    else
      var k := SpanWithout(s[1..], c);
      assert s[..k + 1] == [s[0]] + s[1..][..k];
      k + 1
  }

  /** `"([^"]*)"`: the quoted text and what follows the closing quote. */
  function Quoted(s: string): (r: Option<(string, string)>)
    ensures r.Some? ==> |r.value.1| < |s|
  {
    if s == [] || s[0] != '"' then None
    else
      var k := SpanWithout(s[1..], '"');
      if k == |s| - 1 then None else Some((s[1..k + 1], s[k + 2..]))
  }

  /** `\(key\s+"([^"]*)"\)`. */
  function Field(s: string, key: string): (r: Option<(string, string)>)
    ensures r.Some? ==> |r.value.1| < |s|
  {
    var a :- Lit(s, "(" + key);
    var b :- Spaces1(a);
    var q :- Quoted(b);
    var c :- Lit(q.1, ")");
    Some((q.0, c))
  }

  /** `\s*\n` by backtracking: the length up to the last newline of the leading white space. */
  function NewlineTail(s: string): (r: Option<nat>)
    ensures r.Some? ==> 1 <= r.value <= |s|
  {
    if s == [] || !IsSpace(s[0]) then None
    else match NewlineTail(s[1..])
      case Some(k) => Some(k + 1)
      case None => if s[0] == '\n' then Some(1) else None
  }

  /** `\s+` and then `\(key\s+"([^"]*)"\)`. */
  function SepField(s: string, key: string): (r: Option<(string, string)>)
    ensures r.Some? ==> |r.value.1| < |s|
  {
    var c :- Spaces1(s);
    Field(c, key)
  }

  /** `\)\s*\n` closing an entry: what follows the match. */
  function EntryEnd(s: string): (r: Option<string>)
    ensures r.Some? ==> |r.value| < |s|
  {
    var h :- Lit(s, ")");
    var k :- NewlineTail(h);
    Some(h[k..])
  }

  /** The entry pattern matched at the start of `s`: the entry and the text after the match. */
  function MatchEntry(s: string): (r: Option<(LibraryEntry, string)>)
    ensures r.Some? ==> |r.value.1| < |s|
  {
    var a :- Lit(s, "(lib");
    var b :- Spaces1(a);
    var name :- Field(b, "name");
    var libType :- SepField(name.1, "type");
    var uri :- SepField(libType.1, "uri");
    var options :- SepField(uri.1, "options");
    var descr :- SepField(options.1, "descr");
    var rest :- EntryEnd(descr.1);
    Some((LibraryEntry(name.0, libType.0, uri.0, options.0, descr.0), rest))
  }

  /** `re.finditer`: every non-overlapping match, scanning left to right. */
  function FindEntries(s: string): seq<LibraryEntry>
    decreases |s|
  {
    if s == [] then []
    else match MatchEntry(s)
      case Some(m) => [m.0] + FindEntries(m.1)
      case None => FindEntries(s[1..])
  }

  /** The length of the leading run of ASCII digits. */
  function DigitRun(s: string): (k: nat)
    ensures k <= |s| && AllDigits(s[..k])
  {
    if s == [] || !IsAsciiDigit(s[0]) then 0
    else
      var k := DigitRun(s[1..]);
      assert s[..k + 1] == [s[0]] + s[1..][..k];
      k + 1
  }

  /** `\(version\s+(\d+)\)` at the start of `s`: the number. */
  function VersionAt(s: string): Option<nat> {
    var a :- Lit(s, "(version");
    var b :- Spaces1(a);
    var k := DigitRun(b);
    if k == 0 then None
    else
      var c :- Lit(b[k..], ")");
      Some(DigitsValue(b[..k]))
  }

  /** `re.search` of the version pattern: its first match. */
  function FindVersion(s: string): Option<nat>
    decreases |s|
  {
    if s == [] then None
    else match VersionAt(s)
      case Some(n) => Some(n)
      case None => FindVersion(s[1..])
  }

  /** The `add_entry` calls of `from_file`, in match order; the first unnamed entry raises. */
  function AddAll(es: seq<LibraryEntry>, found: seq<LibraryEntry>): Result<seq<LibraryEntry>, Models.PyError>
    decreases |found|
  {
    if found == [] then Ok(es)
    else if found[0].name == "" then Err(Models.ValueError)
    else AddAll(Put(es, found[0]), found[1..])
  }

  /** What `from_file` reads: the entries and the version, or the error `add_entry` raised. */
  function ReadTable(content: Option<string>): Result<(seq<LibraryEntry>, int), Models.PyError> {
    match content
    case None => Ok(([], 7))
    case Some(text) =>
      match AddAll([], FindEntries(text))
      case Err(e) => Err(e)
      case Ok(es) => Ok((es, match FindVersion(text) case Some(v) => v case None => 7))
  }

  // ---------------------------------------------------------------------------
  // Reading back what was written

  predicate QuoteFree(e: LibraryEntry) {
    '"' !in e.name && '"' !in e.libType && '"' !in e.uri && '"' !in e.options && '"' !in e.descr
  }

  lemma LitThen(lit: string, rest: string)
    ensures Lit(lit + rest, lit) == Some(rest)
  {
    assert (lit + rest)[..|lit|] == lit;
    assert (lit + rest)[|lit|..] == rest;
  }

  lemma SpacesThen(ws: string, t: string)
    requires ws != [] && AllSpace(ws)
    requires t != [] && !IsSpace(t[0])
    ensures Spaces1(ws + t) == Some(t)
  {
    assert (ws + t)[1..] == ws[1..] + t;
    TrimLeftSpaces(ws[1..], t);
  }

  /** The span without `c` stops at the first `c`. */
  lemma {:induction false} SpanStops(a: string, c: char, b: string)
    requires c !in a
    ensures SpanWithout(a + [c] + b, c) == |a|
    decreases |a|
  {
    if a == [] {
      assert (a + [c] + b)[0] == c;
    } else {
      assert (a + [c] + b)[0] == a[0];
      assert (a + [c] + b)[1..] == a[1..] + [c] + b;
      SpanStops(a[1..], c, b);
    }
  }

  lemma QuotedThen(value: string, tail: string)
    requires '"' !in value
    ensures Quoted("\"" + (value + ("\"" + tail))) == Some((value, tail))
  {
    var s := "\"" + (value + ("\"" + tail));
    assert s[1..] == value + ['"'] + tail;
    SpanStops(value, '"', tail);
    assert s[1..|value| + 1] == value;
    assert s[|value| + 2..] == tail;
  }

  lemma FieldThenMatches(key: string, value: string, tail: string)
    requires '"' !in value
    ensures Field(FieldThen(key, value, tail), key) == Some((value, tail))
  {
    var s := FieldThen(key, value, tail);
    assert s == ("(" + key) + (" " + ("\"" + (value + ("\"" + (")" + tail)))));
    LitThen("(" + key, " " + ("\"" + (value + ("\"" + (")" + tail)))));
    SpacesThen(" ", "\"" + (value + ("\"" + (")" + tail))));
    QuotedThen(value, ")" + tail);
    LitThen(")", tail);
  }

  /** Spaces then a field: `\s+` stops at the field's parenthesis. */
  lemma SepFieldMatches(key: string, value: string, tail: string)
    requires '"' !in value
    ensures SepField(Sep + FieldThen(key, value, tail), key) == Some((value, tail))
  {
    SpacesThen(Sep, FieldThen(key, value, tail));
    FieldThenMatches(key, value, tail);
  }

  lemma EntryEndMatches(tail: string)
    requires NewlineTail(tail) == None
    ensures EntryEnd(")\n" + tail) == Some(tail)
  {
    var h := "\n" + tail;
    assert ")\n" + tail == ")" + h;
    LitThen(")", h);
    NewlineFirst(h, tail);
    assert h[1..] == tail;
  }

  lemma NewlineFirst(h: string, tail: string)
    requires h == "\n" + tail && NewlineTail(tail) == None
    ensures NewlineTail(h) == Some(1)
  {
    assert h[0] == '\n' && h[1..] == tail;
  }

  lemma {:induction false} NoNewlineBefore(ws: string, t: string)
    requires AllSpace(ws) && '\n' !in ws
    requires t == [] || !IsSpace(t[0])
    ensures NewlineTail(ws + t) == None
    decreases |ws|
  {
    if ws == [] {
      assert ws + t == t;
    } else {
      assert (ws + t)[1..] == ws[1..] + t;
      NoNewlineBefore(ws[1..], t);
    }
  }

  /** The pattern matches an entry's text whole, and the match ends right after its newline. */
  lemma EntryMatches(e: LibraryEntry, tail: string)
    requires QuoteFree(e)
    requires NewlineTail(tail) == None
    ensures MatchEntry(EntryThen(e, tail)) == Some((e, tail))
  {
    var t5 := ")\n" + tail;
    var t4 := Sep + FieldThen("descr", e.descr, t5);
    var t3 := Sep + FieldThen("options", e.options, t4);
    var t2 := Sep + FieldThen("uri", e.uri, t3);
    var t1 := Sep + FieldThen("type", e.libType, t2);
    var t0 := FieldThen("name", e.name, t1);
    assert EntryThen(e, tail) == "(lib" + (" " + t0);
    LitThen("(lib", " " + t0);
    SpacesThen(" ", t0);
    FieldThenMatches("name", e.name, t1);
    SepFieldMatches("type", e.libType, t2);
    SepFieldMatches("uri", e.uri, t3);
    SepFieldMatches("options", e.options, t4);
    SepFieldMatches("descr", e.descr, t5);
    EntryEndMatches(tail);
  }

  /** Every parenthesis of `s` is followed, inside `s`, by a character other than `c`. */
  predicate OpenNotBefore(s: string, c: char) {
    forall k :: 0 <= k < |s| && s[k] == '(' ==> k + 1 < |s| && s[k + 1] != c
  }

  /** Text in which no entry can start adds no match. */
  lemma {:induction false} FindEntriesSkip(h: string, x: string)
    requires OpenNotBefore(h, 'l')
    ensures FindEntries(h + x) == FindEntries(x)
    decreases |h|
  {
    if h == [] {
      assert h + x == x;
    } else {
      var s := h + x;
      assert s[0] == h[0];
      if h[0] == '(' {
        assert s[1] == h[1] != 'l';
      }
      assert !StartsWith(s, "(lib");
      assert s[1..] == h[1..] + x;
      forall k | 0 <= k < |h[1..]| && h[1..][k] == '(' ensures k + 1 < |h[1..]| && h[1..][k + 1] != 'l' {
        assert h[k + 1] == '(';
      }
      FindEntriesSkip(h[1..], x);
    }
  }

  /** Text in which no version can start adds no match. */
  lemma {:induction false} FindVersionSkip(h: string, x: string)
    requires OpenNotBefore(h, 'v')
    ensures FindVersion(h + x) == FindVersion(x)
    decreases |h|
  {
    if h == [] {
      assert h + x == x;
    } else {
      var s := h + x;
      assert s[0] == h[0];
      if h[0] == '(' {
        assert s[1] == h[1] != 'v';
      }
      assert !StartsWith(s, "(version");
      assert s[1..] == h[1..] + x;
      forall k | 0 <= k < |h[1..]| && h[1..][k] == '(' ensures k + 1 < |h[1..]| && h[1..][k + 1] != 'v' {
        assert h[k + 1] == '(';
      }
      FindVersionSkip(h[1..], x);
    }
  }

  /** An indented entry followed by `tail` is found, and the search resumes at `tail`. */
  lemma IndentedEntryFound(e: LibraryEntry, tail: string)
    requires QuoteFree(e)
    requires NewlineTail(tail) == None
    ensures FindEntries("  " + EntryThen(e, tail)) == [e] + FindEntries(tail)
  {
    var x := EntryThen(e, tail);
    assert OpenNotBefore("  ", 'l');
    FindEntriesSkip("  ", x);
    EntryMatches(e, tail);
  }

  /** The first entry's text opens the written body, and the rest follows as its tail. */
  lemma BodyThen(es: seq<LibraryEntry>)
    requires es != []
    ensures Body(es) + ")\n" == "  " + EntryThen(es[0], Body(es[1..]) + ")\n")
  {
    AppendAssoc(ToSexp(es[0]), Body(es[1..]), ")\n");
    ToSexpThen(es[0], Body(es[1..]) + ")\n");
  }

  /** What follows an entry's newline starts with no white space. */
  lemma BodyStart(es: seq<LibraryEntry>)
    ensures NewlineTail(Body(es) + ")\n") == None
  {
    if es == [] {
      assert Body(es) + ")\n" == ")\n";
      OpenerNoNewline(")\n");
    } else {
      var x := EntryThen(es[0], Body(es[1..]) + ")\n");
      BodyThen(es);
      EntryOpens(es[0], Body(es[1..]) + ")\n");
      OpenerNoNewline(x);
      NoNewlineBefore("  ", x);
    }
  }

  lemma EntryOpens(e: LibraryEntry, tail: string)
    ensures EntryThen(e, tail) != [] && EntryThen(e, tail)[0] == '('
  {
  }

  lemma OpenerNoNewline(x: string)
    requires x != [] && x[0] in "()"
    ensures !IsSpace(x[0]) && NewlineTail(x) == None
  {
  }

  /** The closing line holds no entry. */
  lemma CloseHoldsNoEntry()
    ensures FindEntries(")\n") == []
  {
    assert !StartsWith(")\n", "(lib");
    assert ")\n"[1..] == "\n";
    assert !StartsWith("\n", "(lib");
    assert "\n"[1..] == "";
  }

  /** The entries' texts, followed by the closing line, read back as the entries. */
  lemma {:induction false} BodyReadsBack(es: seq<LibraryEntry>)
    requires forall i :: 0 <= i < |es| ==> QuoteFree(es[i])
    ensures FindEntries(Body(es) + ")\n") == es
  {
    if es == [] {
      EmptyBodyRead();
    } else {
      FirstEntryRead(es);
      BodyReadsBack(es[1..]);
      assert es == [es[0]] + es[1..];
    }
  }

  lemma EmptyBodyRead()
    ensures FindEntries(Body([]) + ")\n") == []
  {
    assert Body([]) + ")\n" == ")\n";
    CloseHoldsNoEntry();
  }

  /** Reading the body finds its first entry, then reads on from the text after it. */
  lemma FirstEntryRead(es: seq<LibraryEntry>)
    requires es != [] && QuoteFree(es[0])
    ensures FindEntries(Body(es) + ")\n") == [es[0]] + FindEntries(Body(es[1..]) + ")\n")
  {
    BodyThen(es);
    BodyStart(es[1..]);
    IndentedEntryFound(es[0], Body(es[1..]) + ")\n");
  }

  /** Adding entries whose names are new, distinct and non-empty appends them. */
  lemma {:induction false} AddAllFresh(acc: seq<LibraryEntry>, found: seq<LibraryEntry>)
    requires forall i :: 0 <= i < |found| ==> found[i].name != ""
    requires UniqueNames(acc + found)
    ensures AddAll(acc, found) == Ok(acc + found)
    decreases |found|
  {
    if found == [] {
      assert acc + found == acc;
    } else {
      assert (acc + found)[|acc|] == found[0];
      assert IndexOf(acc, found[0].name).None? by {
        forall j | 0 <= j < |acc| ensures acc[j].name != found[0].name {
          assert (acc + found)[j] == acc[j];
        }
      }
      assert (acc + [found[0]]) + found[1..] == acc + found;
      AddAllFresh(acc + [found[0]], found[1..]);
    }
  }

  lemma NoParen(s: string, c: char)
    requires '(' !in s
    ensures OpenNotBefore(s, c)
  {
    forall k | 0 <= k < |s| ensures s[k] != '(' {
      assert s[k] in s;
    }
  }

  lemma OpenNotBeforeConcat(a: string, b: string, c: char)
    requires OpenNotBefore(a, c) && OpenNotBefore(b, c)
    ensures OpenNotBefore(a + b, c)
  {
    forall k | 0 <= k < |a + b| && (a + b)[k] == '(' ensures k + 1 < |a + b| && (a + b)[k + 1] != c {
      if k < |a| {
        assert a[k] == '(';
      } else {
        assert b[k - |a|] == '(';
      }
    }
  }

  lemma DigitsNoParen(n: nat)
    ensures '(' !in NatToString(n)
  {
  }

  lemma {:induction false} DigitRunOf(d: string, t: string)
    requires AllDigits(d)
    requires t == [] || !IsAsciiDigit(t[0])
    ensures DigitRun(d + t) == |d|
    decreases |d|
  {
    if d == [] {
      assert d + t == t;
    } else {
      var s := d + t;
      assert s[0] == d[0] && IsAsciiDigit(s[0]);
      assert s[1..] == d[1..] + t;
      assert AllDigits(d[1..]) by {
        forall i | 0 <= i < |d[1..]| ensures IsAsciiDigit(d[1..][i]) {
          assert d[1..][i] == d[i + 1];
        }
      }
      DigitRunOf(d[1..], t);
      assert DigitRun(s) == DigitRun(s[1..]) + 1;
    }
  }

  /** The header cut where a version pattern could start. */
  lemma HeaderSplit(f: string, version: nat, rest: string)
    ensures Header(f, version) + rest
      == ("(" + f + "\n  ") + ("(version" + (" " + (NatToString(version) + (")" + ("\n" + rest)))))
  {
    var d := NatToString(version);
    var open, nl, ver, close := "(", "\n", "  (version ", ")\n";
    assert nl + ver == "\n  " + ("(version" + " ");
    assert close == ")" + "\n";
    HeaderAssoc(open, f, nl, ver, d, close, rest, "\n  ", "(version", " ", ")", "\n");
  }

  /** The regrouping behind HeaderSplit, over any pieces. */
  lemma HeaderAssoc(open: string, f: string, nl: string, ver: string, d: string, close: string, rest: string,
                    nl2: string, word: string, sp: string, cp: string, eol: string)
    requires nl + ver == nl2 + (word + sp) && close == cp + eol
    ensures ((((open + f) + nl) + ver) + d) + close + rest
      == (open + f + nl2) + (word + (sp + (d + (cp + (eol + rest)))))
  {
    calc {
      ((((open + f) + nl) + ver) + d) + close + rest;
      (open + f) + (nl + ver) + d + close + rest;
      (open + f) + (nl2 + (word + sp)) + d + (cp + eol) + rest;
      (open + f + nl2) + (word + (sp + (d + (cp + (eol + rest)))));
    }
  }

  /** The table file's first line, and the indent of the next, hold no pattern start. */
  lemma HeadSkip(f: string, c: char)
    requires f != [] && f[0] != c && '(' !in f
    ensures OpenNotBefore("(" + f + "\n  ", c)
  {
    var h := "(" + f + "\n  ";
    forall k | 0 <= k < |h| && h[k] == '(' ensures k + 1 < |h| && h[k + 1] != c {
    }
  }

  /** The first version in the written text is the table's version. */
  lemma VersionReadsBack(tableType: string, version: nat, rest: string)
    ensures FindVersion(Header(FileName(tableType), version) + rest) == Some(version)
  {
    var f := FileName(tableType);
    var digits := NatToString(version);
    var after := "(version" + (" " + (digits + (")" + ("\n" + rest))));
    HeaderSplit(f, version, rest);
    HeadSkip(f, 'v');
    FindVersionSkip("(" + f + "\n  ", after);
    VersionAtDigits(digits, ")" + ("\n" + rest));
    DigitsValueOfNatToString(version);
    assert FindVersion(after) == VersionAt(after);
  }

  /** The version pattern matches a run of digits closed by a parenthesis, and reads their value. */
  lemma VersionAtDigits(digits: string, t: string)
    requires digits != [] && AllDigits(digits)
    requires t != [] && t[0] == ')'
    ensures VersionAt("(version" + (" " + (digits + t))) == Some(DigitsValue(digits))
  {
    var b := digits + t;
    LitThen("(version", " " + b);
    SpacesThen(" ", b);
    DigitRunOf(digits, t);
    assert b[|digits|..] == t && b[..|digits|] == digits;
    LitThen(")", t[1..]);
    assert ")" + t[1..] == t;
  }

  /** The version line holds no entry start. */
  lemma VersionLineSkip(version: nat)
    ensures OpenNotBefore("(version " + (NatToString(version) + ")\n"), 'l')
  {
    var d := NatToString(version);
    var h := "(version " + (d + ")\n");
    forall k | 0 <= k < |h| && h[k] == '(' ensures k + 1 < |h| && h[k + 1] != 'l' {
    }
  }

  /** The entries of the written text are the table's entries. */
  lemma EntriesReadBack(tableType: string, version: nat, es: seq<LibraryEntry>)
    requires forall i :: 0 <= i < |es| ==> QuoteFree(es[i])
    ensures FindEntries(TableText(FileName(tableType), version, es)) == es
  {
    var f := FileName(tableType);
    var h := Header(f, version);
    var x := Body(es) + ")\n";
    AppendAssoc(h, Body(es), ")\n");
    FileNameShape(tableType);
    HeaderNoEntry(f, version);
    FindEntriesSkip(h, x);
    BodyReadsBack(es);
  }

  /** A table file name starts with `s` or `f` and holds no parenthesis. */
  lemma FileNameShape(tableType: string)
    ensures var f := FileName(tableType); f != [] && (f[0] == 's' || f[0] == 'f') && '(' !in f
  {
  }

  /** No entry starts inside a table file's header. */
  lemma HeaderNoEntry(f: string, version: nat)
    requires f != [] && f[0] != 'l' && '(' !in f
    ensures OpenNotBefore(Header(f, version), 'l')
  {
    var d := NatToString(version);
    assert Header(f, version) == ("(" + f + "\n  ") + ("(version " + (d + ")\n"));
    HeadSkip(f, 'l');
    VersionLineSkip(version);
    OpenNotBeforeConcat("(" + f + "\n  ", "(version " + (d + ")\n"), 'l');
  }

  /**
   * Reading back what `to_file` wrote gives the same entries, in the same order, and
   * the same version, when no field holds a double quote and the version is not negative.
   */
  lemma RoundTrip(tableType: string, version: nat, es: seq<LibraryEntry>)
    requires forall i :: 0 <= i < |es| ==> QuoteFree(es[i]) && es[i].name != ""
    requires UniqueNames(es)
    ensures ReadTable(Some(TableText(FileName(tableType), version, es))) == Ok((es, version))
  {
    var f := FileName(tableType);
    var text := TableText(f, version, es);
    EntriesReadBack(tableType, version, es);
    AddAllFresh([], es);
    assert [] + es == es;
    assert AddAll([], FindEntries(text)) == Ok(es);
    AppendAssoc(Header(f, version), Body(es), ")\n");
    VersionReadsBack(tableType, version, Body(es) + ")\n");
    assert FindVersion(text) == Some(version);
  }

  // ---------------------------------------------------------------------------
  // The table object

  class LibraryTable {
    const tableType: string
    const filename: string
    var version: int
    var entries: seq<LibraryEntry>

    /** Every stored entry is named, under its own name, once. */
    ghost predicate Valid()
      reads this
    {
      && filename == FileName(tableType)
      && UniqueNames(entries)
      && forall i :: 0 <= i < |entries| ==> entries[i].name != ""
    }

    constructor (tableType: string, version: int)
      ensures Valid()
      ensures this.tableType == tableType && this.version == version && entries == []
    {
      this.tableType := tableType;
      this.version := version;
      entries := [];
      filename := FileName(tableType);
    }

    /** `add_entry`: an unnamed entry raises; otherwise the entry is stored under its name. */
    method AddEntry(e: LibraryEntry) returns (r: Result<(), Models.PyError>)
      requires Valid()
      modifies this`entries
      ensures Valid()
      ensures e.name == "" ==> r == Err(Models.ValueError) && entries == old(entries)
      ensures e.name != "" ==> r == Ok(()) && entries == Put(old(entries), e)
    {
      if e.name == "" {
        return Err(Models.ValueError);
      }
      PutSemantics(entries, e, e.name);
      entries := Put(entries, e);
      forall i | 0 <= i < |entries| ensures entries[i].name != "" {
        if i < |old(entries)| {
          assert entries[i] == old(entries)[i] || entries[i] == e;
        }
      }
      r := Ok(());
    }

    /** `remove_entry`: true, and the entry gone, exactly when the name was stored. */
    method RemoveEntry(name: string) returns (removed: bool)
      requires Valid()
      modifies this`entries
      ensures Valid()
      ensures removed == Lookup(old(entries), name).Some?
      ensures entries == Delete(old(entries), name)
    {
      DeleteSemantics(entries, name, name);
      removed := IndexOf(entries, name).Some?;
      entries := Delete(entries, name);
      forall i | 0 <= i < |entries| ensures entries[i].name != "" {
        assert entries[i] in old(entries);
      }
    }

    /** `get_entry`: the entry stored under the name, if any. */
    function GetEntry(name: string): (r: Option<LibraryEntry>)
      reads this
      requires Valid()
      ensures r.Some? <==> exists i :: 0 <= i < |entries| && entries[i].name == name
      ensures r.Some? ==> r.value in entries && r.value.name == name
    {
      Lookup(entries, name)
    }

    /** The content `to_file` writes, built line by line and joined. */
    method ToFileContent() returns (content: string)
      ensures content == TableText(filename, version, entries)
    {
      var es, h := entries, Header(filename, version);
      var lines := ["(" + filename + "\n", "  (version " + IntToString(version) + ")\n"];
      HeaderLines(filename, version);
      for i := 0 to |es|
        invariant Join(lines) == h + Body(es[..i])
      {
        EntryLine(lines, h, es, i);
        lines := lines + [ToSexp(es[i])];
      }
      ClosingLine(lines, filename, version, es);
      lines := lines + [")\n"];
      content := Join(lines);
    }
  }

  /** The two header lines join to the header, before any entry. */
  lemma HeaderLines(filename: string, version: int)
    ensures Join(["(" + filename + "\n", "  (version " + IntToString(version) + ")\n"]) == Header(filename, version) + Body([])
  {
    var a, b := "(" + filename + "\n", "  (version " + IntToString(version) + ")\n";
    JoinPair(a, b);
    Regroup(a, "  (version ", IntToString(version), ")\n");
    assert Body([]) == "";
  }

  lemma JoinPair(a: string, b: string)
    ensures Join([a, b]) == a + b
  {
    JoinSnoc([], a);
    JoinSnoc([a], b);
    assert [a] + [b] == [a, b];
  }

  lemma Regroup(a: string, v: string, d: string, z: string)
    ensures ((a + v) + d) + z == a + ((v + d) + z)
  {
    AppendAssoc(a + v, d, z);
    AppendAssoc(a, v, d + z);
    AppendAssoc(v, d, z);
  }

  /** Writing one more entry's line extends the body by that entry. */
  lemma EntryLine(lines: seq<string>, h: string, es: seq<LibraryEntry>, i: nat)
    requires i < |es| && Join(lines) == h + Body(es[..i])
    ensures Join(lines + [ToSexp(es[i])]) == h + Body(es[..i + 1])
  {
    assert es[..i + 1] == es[..i] + [es[i]];
    JoinSnoc(lines, ToSexp(es[i]));
    BodySnoc(es[..i], es[i]);
    AppendAssoc(h, Body(es[..i]), ToSexp(es[i]));
  }

  /** The closing line completes the table text. */
  lemma ClosingLine(lines: seq<string>, filename: string, version: int, es: seq<LibraryEntry>)
    requires Join(lines) == Header(filename, version) + Body(es[..|es|])
    ensures Join(lines + [")\n"]) == TableText(filename, version, es)
  {
    assert es[..|es|] == es;
    JoinSnoc(lines, ")\n");
  }

  lemma JoinSnoc(lines: seq<string>, line: string)
    ensures Join(lines + [line]) == Join(lines) + line
  {
    assert (lines + [line])[..|lines|] == lines;
  }

  /** `LibraryTable.from_file`: an absent file gives an empty version-7 table; otherwise every matched entry is added in order, then the first version found is taken. */
  method FromFile(content: Option<string>, tableType: string) returns (r: Result<LibraryTable, Models.PyError>)
    ensures r.Ok? ==> fresh(r.value) && r.value.Valid() && r.value.tableType == tableType
    ensures match ReadTable(content)
      case Err(e) => r == Err(e)
      case Ok(read) => r.Ok? && r.value.entries == read.0 && r.value.version == read.1
  {
    var table := new LibraryTable(tableType, 7);
    if content.None? {
      return Ok(table);
    }
    var text := content.value;
    var found := FindEntries(text);
    for i := 0 to |found|
      invariant table.Valid() && table.tableType == tableType && table.version == 7
      invariant AddAll([], found) == AddAll(table.entries, found[i..])
    {
      assert found[i..][1..] == found[i + 1..];
      var added := table.AddEntry(found[i]);
      if added.Err? {
        return Err(added.error);
      }
    }
    assert AddAll(table.entries, found[|found|..]) == Ok(table.entries);
    match FindVersion(text) {
      case Some(v) => table.version := v;
      case None =>
    }
    r := Ok(table);
  }

  // ---------------------------------------------------------------------------
  // Library paths

  /** A pure POSIX path: absolute or not, and its components (none empty, none holding "/"). */
  datatype PurePath = PurePath(absolute: bool, parts: seq<string>)

  /** The components joined by the separator. */
  function JoinParts(parts: seq<string>, sep: char): string {
    if parts == [] then ""
    else if |parts| == 1 then parts[0]
    else parts[0] + [sep] + JoinParts(parts[1..], sep)
  }

  /** `str(path)`. */
  function PathText(p: PurePath): string {
    if p.parts == [] then (if p.absolute then "/" else ".")
    else (if p.absolute then "/" else "") + JoinParts(p.parts, '/')
  }

  /** `path.name`: the last component. */
  function PathName(p: PurePath): string {
    if p.parts == [] then "" else p.parts[|p.parts| - 1]
  }

  /** `path.relative_to(base)`: the rest of the path when `base` is a leading part of it; None where it raises ValueError. */
  function RelativeTo(p: PurePath, base: PurePath): (r: Option<PurePath>)
    ensures r.Some? <==> p.absolute == base.absolute && |base.parts| <= |p.parts| && p.parts[..|base.parts|] == base.parts
    ensures r.Some? ==> !r.value.absolute && base.parts + r.value.parts == p.parts
  {
    if p.absolute == base.absolute && |base.parts| <= |p.parts| && p.parts[..|base.parts|] == base.parts then
      assert base.parts + p.parts[|base.parts|..] == p.parts;
      Some(PurePath(false, p.parts[|base.parts|..]))
    else None
  }

  /** The URI `add_symbol_library` and `add_footprint_library` store for a library path. */
  function LibraryUri(projectDir: PurePath, libPath: PurePath): (uri: string)
    ensures '\\' !in uri
  {
    var raw := if !libPath.absolute then PathText(libPath)
      else match RelativeTo(libPath, projectDir)
        case Some(rel) => PathText(rel)
        case None => "${KIPRJMOD}/" + PathName(libPath);
    ReplaceChar(raw, '\\', "/")
  }

  /** Splitting at a separator: the pieces between its occurrences. */
  function SplitAt(s: string, sep: char): seq<string>
    decreases |s|
  {
    var k := SpanWithout(s, sep);
    if k == |s| then [s] else [s[..k]] + SplitAt(s[k + 1..], sep)
  }

  /** Path components as pathlib keeps them: not empty, and free of both separators. */
  predicate PlainParts(parts: seq<string>) {
    forall i :: 0 <= i < |parts| ==> parts[i] != [] && '/' !in parts[i] && '\\' !in parts[i]
  }

  lemma {:induction false} SplitJoin(parts: seq<string>, sep: char)
    requires parts != []
    requires forall i :: 0 <= i < |parts| ==> sep !in parts[i]
    ensures SplitAt(JoinParts(parts, sep), sep) == parts
    decreases |parts|
  {
    var s := JoinParts(parts, sep);
    if |parts| > 1 {
      SpanStops(parts[0], sep, JoinParts(parts[1..], sep));
      assert s[..|parts[0]|] == parts[0];
      assert s[|parts[0]| + 1..] == JoinParts(parts[1..], sep);
      SplitJoin(parts[1..], sep);
    }
  }

  lemma {:induction false} JoinNoChar(parts: seq<string>, sep: char, c: char)
    requires c != sep
    requires forall i :: 0 <= i < |parts| ==> c !in parts[i]
    ensures c !in JoinParts(parts, sep)
    decreases |parts|
  {
    if |parts| > 1 {
      JoinNoChar(parts[1..], sep, c);
    }
  }

  lemma JoinFirst(parts: seq<string>, sep: char)
    requires parts != [] && parts[0] != []
    ensures JoinParts(parts, sep) != [] && JoinParts(parts, sep)[0] == parts[0][0]
  {
  }

  /** A relative library path is stored as written. */
  lemma RelativePathKept(projectDir: PurePath, libPath: PurePath)
    requires !libPath.absolute && PlainParts(libPath.parts)
    ensures LibraryUri(projectDir, libPath) == PathText(libPath)
  {
    JoinNoChar(libPath.parts, '/', '\\');
  }

  /**
   * An absolute library path strictly inside the project is stored relative to it:
   * the project's components followed by the URI's pieces are the library path's components.
   */
  lemma InsideProjectRelative(projectDir: PurePath, libPath: PurePath)
    requires libPath.absolute && projectDir.absolute
    requires |projectDir.parts| < |libPath.parts| && libPath.parts[..|projectDir.parts|] == projectDir.parts
    requires PlainParts(libPath.parts)
    ensures var uri := LibraryUri(projectDir, libPath);
      uri != [] && uri[0] != '/' && projectDir.parts + SplitAt(uri, '/') == libPath.parts
  {
    var rel := libPath.parts[|projectDir.parts|..];
    assert forall i :: 0 <= i < |rel| ==> rel[i] == libPath.parts[|projectDir.parts| + i];
    JoinNoChar(rel, '/', '\\');
    assert LibraryUri(projectDir, libPath) == JoinParts(rel, '/');
    SplitJoin(rel, '/');
    JoinFirst(rel, '/');
    assert rel[0][0] in rel[0];
    assert projectDir.parts + rel == libPath.parts;
  }

  /** An absolute library path outside the project is stored as its name under the project variable. */
  lemma OutsideProjectKiprjmod(projectDir: PurePath, libPath: PurePath)
    requires libPath.absolute && RelativeTo(libPath, projectDir).None?
    requires '\\' !in PathName(libPath)
    ensures LibraryUri(projectDir, libPath) == "${KIPRJMOD}/" + PathName(libPath)
  {
    assert '\\' !in "${KIPRJMOD}/";
    assert forall c :: c in "${KIPRJMOD}/" + PathName(libPath) ==> c in "${KIPRJMOD}/" || c in PathName(libPath);
  }

  /**
   * `add_symbol_library` (kind "sym") and `add_footprint_library` (kind "fp"): read the
   * project's table, store a KiCad entry for the library under `name`, and return the
   * new content of the table file.
   */
  method AddLibrary(kind: string, projectDir: PurePath, existing: Option<string>, name: string,
                    libPath: PurePath, description: string, options: string)
    returns (r: Result<string, Models.PyError>)
    ensures var entry := LibraryEntry(name, "KiCad", LibraryUri(projectDir, libPath), options, description);
      match ReadTable(existing)
      case Err(e) => r == Err(e)
      case Ok(read) =>
        if name == "" then r == Err(Models.ValueError)
        else r == Ok(TableText(FileName(kind), read.1, Put(read.0, entry)))
  {
    var loaded := FromFile(existing, kind);
    if loaded.Err? {
      return Err(loaded.error);
    }
    var table := loaded.value;
    var uri := LibraryUri(projectDir, libPath);
    var added := table.AddEntry(LibraryEntry(name, "KiCad", uri, options, description));
    if added.Err? {
      return Err(added.error);
    }
    var content := table.ToFileContent();
    r := Ok(content);
  }

  /** After a library is added, reading the table file back finds the new entry under its name. */
  lemma AddedLibraryReadsBack(kind: string, version: nat, es: seq<LibraryEntry>, e: LibraryEntry)
    requires forall i :: 0 <= i < |es| ==> QuoteFree(es[i]) && es[i].name != ""
    requires UniqueNames(es)
    requires QuoteFree(e) && e.name != ""
    ensures var text := TableText(FileName(kind), version, Put(es, e));
      ReadTable(Some(text)).Ok? && Lookup(ReadTable(Some(text)).value.0, e.name) == Some(e)
  {
    PutSemantics(es, e, e.name);
    var p := Put(es, e);
    forall i | 0 <= i < |p| ensures QuoteFree(p[i]) && p[i].name != "" {
      if i < |es| {
        assert p[i] == es[i] || p[i] == e;
      } else {
        assert p[i] == e;
      }
    }
    RoundTrip(kind, version, p);
  }
}
