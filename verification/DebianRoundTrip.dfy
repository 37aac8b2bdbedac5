/** Rendering packages as control stanzas and parsing them again. */
module DebianRoundTrip {
  import opened Options
  import opened Text
  import opened DebianStanzas

  /** The single-line fields that are kept as they are. */
  const PLAIN_FIELDS: set<string> := {"Package", "Version", "Source", "Directory", "Filename", "Architecture"}

  /** One field of a stanza, or a line that the parser has to skip. */
  datatype Item =
    | Plain(name: string, value: string)
    | Binaries(names: seq<string>, folds: seq<bool>)
    | Uploaders(people: seq<string>)
    | Other(line: string)

  predicate IsSkipped(line: string) {
    && line != ""
    && match SplitOnce(line, ": ")
       case None => true
       case Some(Halves(name, _)) => name !in PLAIN_FIELDS && name != "Binary" && name != "Uploaders"
  }

  /** No part contains the separator; commas without a space after them are part of a part. */
  ghost predicate AreParts(parts: seq<string>) {
    parts != [] && forall p :: p in parts ==> Find(p, ", ") == None
  }

  ghost predicate IsItem(item: Item) {
    match item
    case Plain(name, _) => name in PLAIN_FIELDS
    case Binaries(names, folds) =>
      AreParts(names) && |folds| == |names| - 1 && !EndsWith(names[|names| - 1], ',')
    case Uploaders(people) => AreParts(people)
    case Other(line) => IsSkipped(line)
  }

  // ----- rendering -----

  /** The lines of a comma-separated list that is folded after some of its commas. */
  function FoldLines(line: string, names: seq<string>, folds: seq<bool>): (lines: seq<string>)
    requires |folds| == |names|
    ensures lines != []
    decreases |names|
  {
    if names == [] then [line]
    else if folds[0] then [line + ","] + FoldLines(" " + names[0], names[1..], folds[1..])
    else FoldLines(line + (", " + names[0]), names[1..], folds[1..])
  }

  function RenderItem(item: Item): seq<string>
    requires IsItem(item)
  {
    match item
    case Plain(name, value) => [name + ": " + value]
    case Binaries(names, folds) => FoldLines("Binary" + ": " + names[0], names[1..], folds)
    case Uploaders(people) => ["Uploaders" + ": " + Join(people, ", ")]
    case Other(line) => [line]
  }

  ghost predicate AreItems(items: seq<Item>) {
    forall item :: item in items ==> IsItem(item)
  }

  function RenderItems(items: seq<Item>): seq<string>
    requires AreItems(items)
  {
    if items == [] then [] else RenderItem(items[0]) + RenderItems(items[1..])
  }

  /** Every stanza ends with one blank line. */
  function RenderStanzas(stanzas: seq<seq<Item>>): seq<string>
    requires forall i :: 0 <= i < |stanzas| ==> AreItems(stanzas[i])
  {
    if stanzas == [] then [] else RenderItems(stanzas[0]) + [""] + RenderStanzas(stanzas[1..])
  }

  // ----- what the items say -----

  function SetItem(p: NewPkg, item: Item): NewPkg {
    match item
    case Plain(name, value) => SetField(p, name, value)
    case Binaries(names, _) => p.(binary := Some(names))
    case Uploaders(people) => p.(uploaders := people)
    case Other(_) => p
  }

  function SetItems(p: NewPkg, items: seq<Item>): NewPkg
    decreases |items|
  {
    if items == [] then p else SetItems(SetItem(p, items[0]), items[1..])
  }

  // ----- folding -----

  /** The first line of a folded list extends `line`, and the rest does not depend on what precedes it. */
  lemma {:induction false} FoldExtends(before: string, line: string, names: seq<string>, folds: seq<bool>)
    requires |folds| == |names|
    ensures FoldLines(before + line, names, folds)
            == [before + FoldLines(line, names, folds)[0]] + FoldLines(line, names, folds)[1..]
    decreases |names|
  {
    if names != [] && !folds[0] {
      assert before + line + (", " + names[0]) == before + (line + (", " + names[0]));
      FoldExtends(before, line + (", " + names[0]), names[1..], folds[1..]);
    } else if names != [] {
      assert before + line + "," == before + (line + ",");
    }
  }

  /** Unfolding gives the list on one line and reads exactly its lines, wherever it was folded. */
  lemma {:induction false} UnfoldFolded(
      before: string, line: string, names: seq<string>, folds: seq<bool>, rest: seq<string>)
    requires |folds| == |names| && !EndsWith(before + line + JoinTail(names, ", "), ',')
    ensures Unfold(before + FoldLines(line, names, folds)[0], FoldLines(line, names, folds)[1..] + rest)
            == Unfolded(before + line + JoinTail(names, ", "), rest)
    decreases |names|
  {
    var lines := FoldLines(line, names, folds);
    if names == [] {
      assert lines[1..] + rest == rest;
      assert before + line + JoinTail(names, ", ") == before + line;
    } else {
      var name := names[0];
      var joined := JoinTail(names, ", ");
      assert joined == ", " + name + JoinTail(names[1..], ", ");
      if folds[0] {
        var folded := FoldLines(" " + name, names[1..], folds[1..]);
        var value := before + (line + ",");
        FoldedText(before, line, name, JoinTail(names[1..], ", "));
        UnfoldFolded(value, " " + name, names[1..], folds[1..], rest);
        FoldStartsWith(" ", name, names[1..], folds[1..]);
        assert lines[1..] + rest == folded + rest;
        assert (folded + rest)[0] == folded[0] && (folded + rest)[1..] == folded[1..] + rest;
      } else {
        UnfoldedText(before, line, name, JoinTail(names[1..], ", "));
        assert before + line + (", " + name) == before + (line + (", " + name));
        UnfoldFolded(before, line + (", " + name), names[1..], folds[1..], rest);
      }
    }
  }

  lemma FoldedText(before: string, line: string, name: string, more: string)
    ensures before + (line + ",") + (" " + name) + more == before + line + (", " + name + more)
  {
  }

  lemma UnfoldedText(before: string, line: string, name: string, more: string)
    ensures before + (line + (", " + name)) + more == before + line + (", " + name + more)
  {
  }

  /** A list ends with its last part. */
  lemma {:induction false} NoCommaAtEnd(before: string, names: seq<string>)
    requires names != [] && !EndsWith(names[|names| - 1], ',')
    ensures !EndsWith(before + JoinTail(names, ", "), ',')
    decreases |names|
  {
    var more := JoinTail(names[1..], ", ");
    assert before + JoinTail(names, ", ") == (before + ", " + names[0]) + more;
    if |names| > 1 {
      NoCommaAtEnd(before + ", " + names[0], names[1..]);
    }
  }

  lemma FoldStartsWith(sep: string, name: string, names: seq<string>, folds: seq<bool>)
    requires |folds| == |names| && sep == " "
    ensures StartsWith(FoldLines(sep + name, names, folds)[0], ' ')
  {
    FoldExtends(sep, name, names, folds);
  }

  // ----- parsing what was rendered -----

  lemma ParseText<T>(convert: Conversion<T>, name: string, value: string, rest: seq<string>, p: NewPkg, done: seq<T>)
    requires ':' !in name && name != "Binary"
    ensures Parse(convert, [name + ": " + value] + rest, p, done)
            == Parse(convert, rest, SetField(p, name, value), done)
  {
    FindNone(name, ": ");
    SplitAtFirst(name, ": ", value);
    var lines := [name + ": " + value] + rest;
    assert lines[0] == name + ": " + value && lines[1..] == rest;
  }

  lemma JoinEnds(names: seq<string>)
    requires names != [] && !EndsWith(names[|names| - 1], ',')
    ensures !EndsWith("" + names[0] + JoinTail(names[1..], ", "), ',')
  {
    if |names| > 1 {
      NoCommaAtEnd("" + names[0], names[1..]);
    } else {
      assert "" + names[0] + JoinTail(names[1..], ", ") == names[0];
    }
  }

  lemma ParseBinaries<T>(
      convert: Conversion<T>, names: seq<string>, folds: seq<bool>, rest: seq<string>, p: NewPkg, done: seq<T>)
    requires IsItem(Binaries(names, folds))
    ensures Parse(convert, RenderItem(Binaries(names, folds)) + rest, p, done)
            == Parse(convert, rest, p.(binary := Some(names)), done)
  {
    hide Find, JoinTail, SetField, EndsWith, FoldLines, Split;
    var lines := RenderItem(Binaries(names, folds));
    var value := FoldLines(names[0], names[1..], folds);
    FoldExtends("Binary" + ": ", names[0], names[1..], folds);
    assert (lines + rest)[0] == "Binary" + ": " + value[0] && (lines + rest)[1..] == value[1..] + rest;
    FindNone("Binary", ": ");
    SplitAtFirst("Binary", ": ", value[0]);
    assert "" + value[0] == value[0] && "" + names[0] == names[0];
    JoinEnds(names);
    UnfoldFolded("", names[0], names[1..], folds, rest);
    SplitJoin(names, ", ");
  }

  lemma ParseUploaders<T>(convert: Conversion<T>, people: seq<string>, rest: seq<string>, p: NewPkg, done: seq<T>)
    requires AreParts(people)
    ensures Parse(convert, ["Uploaders" + ": " + Join(people, ", ")] + rest, p, done)
            == Parse(convert, rest, p.(uploaders := people), done)
  {
    hide Parse;
    ParseText(convert, "Uploaders", Join(people, ", "), rest, p, done);
    SplitJoin(people, ", ");
  }

  lemma PlainFieldName(name: string)
    requires name in PLAIN_FIELDS
    ensures ':' !in name && name != "Binary"
  {
  }

  lemma ParseSkipped<T>(convert: Conversion<T>, line: string, rest: seq<string>, p: NewPkg, done: seq<T>)
    requires IsSkipped(line)
    ensures Parse(convert, [line] + rest, p, done) == Parse(convert, rest, p, done)
  {
  }

  lemma ParseItem<T>(convert: Conversion<T>, item: Item, rest: seq<string>, p: NewPkg, done: seq<T>)
    requires IsItem(item)
    ensures Parse(convert, RenderItem(item) + rest, p, done) == Parse(convert, rest, SetItem(p, item), done)
  {
    hide FoldLines, Join, Split, Parse, IsSkipped, SetField;
    match item
    case Plain(name, value) =>
      PlainFieldName(name);
      ParseText(convert, name, value, rest, p, done);
    case Binaries(names, folds) => ParseBinaries(convert, names, folds, rest, p, done);
    case Uploaders(people) => ParseUploaders(convert, people, rest, p, done);
    case Other(line) => ParseSkipped(convert, line, rest, p, done);
  }

  lemma {:induction false} ParseItems<T>(
      convert: Conversion<T>, items: seq<Item>, rest: seq<string>, p: NewPkg, done: seq<T>)
    requires AreItems(items)
    ensures Parse(convert, RenderItems(items) + rest, p, done) == Parse(convert, rest, SetItems(p, items), done)
    decreases |items|
  {
    if items == [] {
      assert RenderItems(items) + rest == rest;
    } else {
      var more := RenderItems(items[1..]) + rest;
      assert RenderItems(items) + rest == RenderItem(items[0]) + more;
      ParseItem(convert, items[0], more, p, done);
      ParseItems(convert, items[1..], rest, SetItem(p, items[0]), done);
    }
  }

  /** Converts stanza by stanza and stops at the first that cannot be converted. */
  function ConvertAll<T>(convert: Conversion<T>, stanzas: seq<seq<Item>>, done: seq<T>): Result<seq<T>, string>
    decreases |stanzas|
  {
    if stanzas == [] then Success(done)
    else
      match convert(SetItems(EMPTY_PKG, stanzas[0]))
      case Failure(e) => Failure(e)
      case Success(t) => ConvertAll(convert, stanzas[1..], done + [t])
  }

  /**
   Parsing any rendered stanzas converts what their items say, wherever their lists were folded.
   A last stanza without a blank line after it is ignored.
   */
  lemma {:induction false} ParseRendered<T>(
      convert: Conversion<T>, stanzas: seq<seq<Item>>, unfinished: seq<Item>, done: seq<T>)
    requires forall i :: 0 <= i < |stanzas| ==> AreItems(stanzas[i])
    requires AreItems(unfinished)
    ensures Parse(convert, RenderStanzas(stanzas) + RenderItems(unfinished), EMPTY_PKG, done)
            == ConvertAll(convert, stanzas, done)
    decreases |stanzas|
  {
    hide RenderItems, SetItems, SplitOnce, SetField, Unfold;
    var tail := RenderItems(unfinished);
    if stanzas == [] {
      assert RenderStanzas(stanzas) + tail == tail + [];
      ParseItems(convert, unfinished, [], EMPTY_PKG, done);
    } else {
      var rest := RenderStanzas(stanzas[1..]) + tail;
      assert RenderStanzas(stanzas) + tail == RenderItems(stanzas[0]) + ([""] + rest);
      ParseItems(convert, stanzas[0], [""] + rest, EMPTY_PKG, done);
      assert ([""] + rest)[0] == "" && ([""] + rest)[1..] == rest;
      match convert(SetItems(EMPTY_PKG, stanzas[0]))
      case Failure(_) =>
      case Success(t) => ParseRendered(convert, stanzas[1..], unfinished, done + [t]);
    }
  }

  // ----- packages -----

  /** The value of the last field of that name. */
  function LastPlain(items: seq<Item>, name: string): Option<string> {
    if items == [] then None
    else
      match LastPlain(items[1..], name)
      case Some(v) => Some(v)
      case None => if items[0].Plain? && items[0].name == name then Some(items[0].value) else None
  }

  function LastBinaries(items: seq<Item>): Option<seq<string>> {
    if items == [] then None
    else
      match LastBinaries(items[1..])
      case Some(v) => Some(v)
      case None => if items[0].Binaries? then Some(items[0].names) else None
  }

  function LastUploaders(items: seq<Item>): Option<seq<string>> {
    if items == [] then None
    else
      match LastUploaders(items[1..])
      case Some(v) => Some(v)
      case None => if items[0].Uploaders? then Some(items[0].people) else None
  }

  function OrElse<T>(a: Option<T>, b: Option<T>): Option<T> {
    if a.Some? then a else b
  }

  /** What the items add to a stanza that was begun before. */
  function Fields(items: seq<Item>, p: NewPkg): NewPkg {
    NewPkg(
      OrElse(LastPlain(items, "Package"), p.base),
      OrElse(LastBinaries(items), p.binary),
      OrElse(LastPlain(items, "Source"), p.source),
      OrElse(LastPlain(items, "Version"), p.version),
      OrElse(LastPlain(items, "Directory"), p.directory),
      OrElse(LastPlain(items, "Architecture"), p.architecture),
      OrElse(LastPlain(items, "Filename"), p.filename),
      if LastUploaders(items).Some? then LastUploaders(items).value else p.uploaders)
  }

  lemma FirstItemGivesFields(items: seq<Item>, p: NewPkg)
    requires items != [] && IsItem(items[0])
    ensures Fields(items, p) == Fields(items[1..], SetItem(p, items[0]))
  {
    var item := items[0];
    if item.Plain? {
      PlainGivesFields(items, p);
    }
  }

  lemma PlainGivesFields(items: seq<Item>, p: NewPkg)
    requires items != [] && items[0].Plain? && items[0].name in PLAIN_FIELDS
    ensures Fields(items, p) == Fields(items[1..], SetField(p, items[0].name, items[0].value))
  {
    hide LastPlain;
    forall name
      ensures LastPlain(items, name)
              == OrElse(LastPlain(items[1..], name), if items[0].name == name then Some(items[0].value) else None)
    {
      LastPlainSplits(items, name);
    }
    assert LastBinaries(items) == LastBinaries(items[1..]) && LastUploaders(items) == LastUploaders(items[1..]);
  }

  lemma LastPlainSplits(items: seq<Item>, name: string)
    requires items != [] && items[0].Plain?
    ensures LastPlain(items, name)
            == OrElse(LastPlain(items[1..], name), if items[0].name == name then Some(items[0].value) else None)
  {
  }

  /** Later fields override earlier ones of the same name. */
  lemma {:induction false} ItemsGiveFields(items: seq<Item>, p: NewPkg)
    requires AreItems(items)
    ensures SetItems(p, items) == Fields(items, p)
    decreases |items|
  {
    hide SetItem;
    if items != [] {
      assert items[0] in items && IsItem(items[0]);
      ItemsGiveFields(items[1..], SetItem(p, items[0]));
      FirstItemGivesFields(items, p);
    }
  }

  predicate SaysUploaders(items: seq<Item>, uploaders: seq<string>) {
    LastUploaders(items) == if uploaders == [] then None else Some(uploaders)
  }

  /** The stanza has the fields of the source package, in any order and among any other lines. */
  ghost predicate DescribesSource(items: seq<Item>, s: SourcePkg) {
    && AreItems(items)
    && LastPlain(items, "Package") == Some(s.base)
    && LastBinaries(items) == Some(s.binary)
    && LastPlain(items, "Version") == Some(s.version)
    && LastPlain(items, "Directory") == Some(s.directory)
    && LastPlain(items, "Architecture") == Some(s.architecture)
    && SaysUploaders(items, s.uploaders)
  }

  /** How the source package of a binary is written; nothing is written if it has the binary's name and version. */
  ghost predicate IsSourceField(field: Option<string>, b: BinPkg) {
    match field
    case None => b.sourceName == b.name && b.sourceVersion == Implicit(b.version)
    case Some(text) =>
      && ' ' !in b.sourceName
      && match b.sourceVersion
         case Implicit(version) => version == b.version && text == b.sourceName
         case Explicit(version) => text == b.sourceName + " " + ("(" + version + ")")
  }

  ghost predicate DescribesBinary(items: seq<Item>, b: BinPkg) {
    && AreItems(items)
    && LastPlain(items, "Package") == Some(b.name)
    && LastPlain(items, "Version") == Some(b.version)
    && IsSourceField(LastPlain(items, "Source"), b)
    && LastPlain(items, "Architecture") == Some(b.architecture)
    && LastPlain(items, "Filename") == Some(b.filename)
    && SaysUploaders(items, b.uploaders)
  }

  lemma SourceFieldRoundTrip(field: Option<string>, b: BinPkg)
    requires IsSourceField(field, b)
    ensures ParseSourceRef(field, b.name, b.version) == Success(SourceRef(b.sourceName, b.sourceVersion))
  {
    if field.Some? {
      match b.sourceVersion
      case Implicit(_) => FindNone(b.sourceName, " ");
      case Explicit(version) =>
        var right := "(" + version + ")";
        FindNone(b.sourceName, " ");
        SplitAtFirst(b.sourceName, " ", right);
        assert right[1..] == version + ")" && right[1..|right| - 1] == version;
    }
  }

  lemma SourceFromItems(items: seq<Item>, s: SourcePkg)
    requires DescribesSource(items, s)
    ensures ToSource(SetItems(EMPTY_PKG, items)) == Success(s)
  {
    hide LastPlain, LastBinaries, LastUploaders, SetItems;
    ItemsGiveFields(items, EMPTY_PKG);
  }

  lemma BinaryFromItems(items: seq<Item>, b: BinPkg)
    requires DescribesBinary(items, b)
    ensures ToBinary(SetItems(EMPTY_PKG, items)) == Success(b)
  {
    hide LastPlain, LastBinaries, LastUploaders, SetItems;
    ItemsGiveFields(items, EMPTY_PKG);
    SourceFieldRoundTrip(LastPlain(items, "Source"), b);
  }

  /** Reading rendered source packages gives back exactly those packages, in order. */
  lemma {:induction false} SourcesRoundTrip(
      stanzas: seq<seq<Item>>, packages: seq<SourcePkg>, unfinished: seq<Item>, done: seq<SourcePkg>)
    requires |stanzas| == |packages| && AreItems(unfinished)
    requires forall i :: 0 <= i < |stanzas| ==> AreItems(stanzas[i])
    requires forall i :: 0 <= i < |stanzas| ==> DescribesSource(stanzas[i], packages[i])
    ensures Parse(ToSource, RenderStanzas(stanzas) + RenderItems(unfinished), EMPTY_PKG, done)
            == Success(done + packages)
    decreases |stanzas|
  {
    hide Parse, RenderItems, SetItems, ToSource, LastPlain, LastBinaries, LastUploaders, SaysUploaders;
    ParseRendered(ToSource, stanzas, unfinished, done);
    if stanzas == [] {
      assert done + packages == done;
    } else {
      SourceFromItems(stanzas[0], packages[0]);
      SourcesRoundTrip(stanzas[1..], packages[1..], unfinished, done + [packages[0]]);
      ParseRendered(ToSource, stanzas[1..], unfinished, done + [packages[0]]);
      assert done + [packages[0]] + packages[1..] == done + packages;
    }
  }

  lemma {:induction false} BinariesRoundTrip(
      stanzas: seq<seq<Item>>, packages: seq<BinPkg>, unfinished: seq<Item>, done: seq<BinPkg>)
    requires |stanzas| == |packages| && AreItems(unfinished)
    requires forall i :: 0 <= i < |stanzas| ==> AreItems(stanzas[i])
    requires forall i :: 0 <= i < |stanzas| ==> DescribesBinary(stanzas[i], packages[i])
    ensures Parse(ToBinary, RenderStanzas(stanzas) + RenderItems(unfinished), EMPTY_PKG, done)
            == Success(done + packages)
    decreases |stanzas|
  {
    hide Parse, RenderItems, SetItems, ToBinary, DescribesBinary;
    ParseRendered(ToBinary, stanzas, unfinished, done);
    if stanzas == [] {
      assert done + packages == done;
    } else {
      BinaryFromItems(stanzas[0], packages[0]);
      BinariesRoundTrip(stanzas[1..], packages[1..], unfinished, done + [packages[0]]);
      ParseRendered(ToBinary, stanzas[1..], unfinished, done + [packages[0]]);
      assert done + [packages[0]] + packages[1..] == done + packages;
    }
  }
}
