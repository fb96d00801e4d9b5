/** The text that stores a file tree in one cell: its printer and its line parser
    (frontend/storage.h:19-30, 694-808). */
module StorageMetadata {
  import opened Text
  import opened Regex
  import opened StorageTree
  import opened StorageSubtree
  import opened StoragePath
  import opened StorageBreadth

  /** Every name is one that the lines of the format can carry. */
  ghost predicate Printable(t: Tree) {
    forall x :: x in t.nodes ==> AllIn(NameChars, t.nodes[x].name)
  }

  // ---- Printing (frontend/storage.h:774-808) ----

  function FolderEnd(id: nat, items: nat): string {
    Spaced("ID", Spaced(Dec(id), Spaced("Items", Dec(items))))
  }

  function EntryLine(name: string, id: nat, isFile: bool): string {
    Spaced(name, Spaced("ID", Spaced(Dec(id), if isFile then "F" else "D")))
  }

  function FolderLine(isRoot: bool, path: string, id: nat, items: nat): string {
    Spaced(if isRoot then "Root folder:" else "Folder:", Spaced(path, FolderEnd(id, items)))
  }

  function LatestLine(latest: nat): string {
    Spaced("Latest", Spaced("ID:", Dec(latest)))
  }

  function EntryLines(t: Tree, d: nat, names: seq<string>): (lines: seq<string>)
    requires d in t.nodes
    requires forall n :: n in names ==> n in t.nodes[d].entries && t.nodes[d].entries[n] in t.nodes
    ensures |lines| == |names|
  {
    if names == [] then []
    else
      var y := t.nodes[d].entries[names[0]];
      [EntryLine(names[0], y, t.nodes[y].isFile)] + EntryLines(t, d, names[1..])
  }

  lemma ListedAreNodes(t: Tree, depth: map<nat, nat>, order: Order, d: nat)
    requires WellFormed(t, depth) && Lists(t, order) && d in t.nodes
    ensures IsListing(t.nodes[d].entries, order[d])
    ensures forall n :: n in order[d] ==> n in t.nodes[d].entries && t.nodes[d].entries[n] in t.nodes
  {
    At(t, depth, d);
  }

  ghost function SectionLines(t: Tree, depth: map<nat, nat>, order: Order, d: nat): seq<string>
    requires WellFormed(t, depth) && Lists(t, order) && d in t.nodes
  {
    ListedAreNodes(t, depth, order, d);
    [FolderLine(d == t.root, PathOf(t, depth, d), d, |t.nodes[d].entries|)] + EntryLines(t, d, order[d])
  }

  ghost function SectionsFrom(t: Tree, depth: map<nat, nat>, order: Order, dirs: seq<nat>, i: nat): seq<string>
    requires WellFormed(t, depth) && Lists(t, order) && i <= |dirs|
    requires forall j :: 0 <= j < |dirs| ==> dirs[j] in t.nodes
    decreases |dirs| - i
  {
    if i == |dirs| then [] else SectionLines(t, depth, order, dirs[i]) + SectionsFrom(t, depth, order, dirs, i + 1)
  }

  /** Every directory once, each after its parent. */
  ghost predicate BreadthFirst(t: Tree, dirs: seq<nat>) {
    Frontier(t, None, dirs, |dirs|)
  }

  ghost function MetadataLines(t: Tree, depth: map<nat, nat>, order: Order, dirs: seq<nat>): seq<string>
    requires WellFormed(t, depth) && Lists(t, order) && BreadthFirst(t, dirs)
  {
    [LatestLine(t.latest)] + SectionsFrom(t, depth, order, dirs, 0)
  }

  ghost function Metadata(t: Tree, depth: map<nat, nat>, order: Order): string
    requires WellFormed(t, depth) && Lists(t, order)
  {
    JoinLines(MetadataLines(t, depth, order, Breadth(t, depth, None, order)))
  }

  // ---- Parsing (frontend/storage.h:694-772) ----

  const LATEST: Pattern := Word("Latest", Word("ID:", Run(Digits, 1, End)))

  const COUNT: Pattern := Word("Items", Run(Digits, 1, End))

  const FOLDER_END: Pattern := Word("ID", Run(Digits, 1, Space(COUNT)))

  const FOLDER_REST: Pattern := Lit("/", Run(PathChars, 0, Space(FOLDER_END)))

  const ROOT: Pattern := Word("Root folder:", FOLDER_REST)

  const FOLDER: Pattern := Word("Folder:", FOLDER_REST)

  const CONTENT: Pattern := Run(PathChars, 0, Space(Word("ID", Run(Digits, 1, Space(One(KindChars, End))))))

  /** The parser's view of a line outside a directory's entries. `Throws` is a number
      `std::stoi` rejects. */
  datatype Title =
    | Other
    | Throws
    | Latest(id: nat)
    | Folder(isRoot: bool, path: string, id: nat, items: nat)

  function FolderTitle(isRoot: bool, groups: seq<string>): Title {
    if |groups| == 3 && FitsInt(groups[1]) && FitsInt(groups[2]) then
      Folder(isRoot, "/" + groups[0], ParseDec(groups[1]), ParseDec(groups[2]))
    else Throws
  }

  /** The three expressions begin with different letters, so at most one matches. */
  function TitleOf(line: string): Title {
    match FullMatch(LATEST, line)
    case Some(g) => if |g| == 1 && FitsInt(g[0]) then Latest(ParseDec(g[0])) else Throws
    case None =>
      match FullMatch(ROOT, line)
      case Some(g) => FolderTitle(true, g)
      case None =>
        match FullMatch(FOLDER, line)
        case Some(g) => FolderTitle(false, g)
        case None => Other
  }

  function FindOrCreate(nodes: Table, id: nat, name: string, isFile: bool): Table {
    if id in nodes then nodes else nodes[id := Dirent(name, isFile, None, false, map[])]
  }

  /** The entry `name` of `dir`, and the link back. */
  function Link(nodes: Table, dir: nat, name: string, id: nat, isFile: bool): Table
    requires dir in nodes
  {
    var found := FindOrCreate(nodes, id, name, isFile);
    var added := found[dir := found[dir].(entries := found[dir].entries[name := id])];
    added[id := added[id].(parent := Some(dir))]
  }

  /** None when a number makes the parser throw; a line that does not match is skipped. */
  function ParseEntry(nodes: Table, dir: nat, line: string): (r: Option<Table>)
    requires dir in nodes
    ensures r.Some? ==> dir in r.value
  {
    match FullMatch(CONTENT, line)
    case None => Some(nodes)
    case Some(g) =>
      if |g| == 3 && FitsInt(g[1]) then Some(Link(nodes, dir, g[0], ParseDec(g[1]), g[2] == "F")) else None
  }

  function ParseEntries(nodes: Table, dir: nat, lines: seq<string>, items: nat): Option<Table>
    requires dir in nodes
    decreases items
  {
    if items == 0 || lines == [] then Some(nodes)
    else match ParseEntry(nodes, dir, lines[0])
         case None => None
         case Some(next) => ParseEntries(next, dir, lines[1..], items - 1)
  }

  function AfterLastSlash(path: string): string {
    if path == "" || path[|path| - 1] == '/' then "" else AfterLastSlash(path[..|path| - 1]) + [path[|path| - 1]]
  }

  function OpenFolder(nodes: Table, isRoot: bool, path: string, id: nat): (r: Table)
    ensures id in r
  {
    var found := FindOrCreate(nodes, id, AfterLastSlash(path), false);
    if isRoot then found[id := found[id].(isRoot := true)] else found
  }

  datatype Loaded = Loaded(nodes: Table, root: Option<nat>, latest: Option<nat>)

  function ParseLines(lines: seq<string>, st: Loaded): Option<Loaded>
    decreases |lines|
  {
    if lines == [] then Some(st)
    else
      var rest := lines[1..];
      match TitleOf(lines[0])
      case Other => ParseLines(rest, st)
      case Throws => None
      case Latest(id) => ParseLines(rest, st.(latest := Some(id)))
      case Folder(isRoot, path, id, items) =>
        match ParseEntries(OpenFolder(st.nodes, isRoot, path, id), id, rest, items)
        case None => None
        case Some(nodes) =>
          ParseLines(rest[if items < |rest| then items else |rest|..],
                     Loaded(nodes, if isRoot then Some(id) else st.root, st.latest))
  }

  const NOTHING: Loaded := Loaded(map[], None, None)

  /** `ParseMetadataFile` in a fresh handler; None when it fails or throws. */
  function Load(text: string): Option<Loaded> {
    if text == "" then None else ParseLines(SplitLines(text), NOTHING)
  }

  // ---- Lines parse back ----

  lemma DecFits(n: nat)
    requires n <= INT_MAX
    ensures FitsInt(Dec(n)) && ParseDec(Dec(n)) == n && AllIn(Digits, Dec(n))
  {
    DecRoundTrip(n);
    DigitsAreDigits(Dec(n));
  }

  lemma Last(cls: CharClass, g: string)
    requires g != "" && AllIn(cls, g)
    ensures Denotes(Run(cls, 1, End), [g], g)
  {
    assert g[|g|..] == "";
  }

  lemma OtherStart(lit: string, next: Pattern, s: string)
    requires lit != "" && s != "" && lit[0] != s[0]
    ensures FullMatch(Lit(lit, next), s) == None
  {
  }

  lemma ReadLatest(n: nat)
    requires n <= INT_MAX
    ensures TitleOf(LatestLine(n)) == Latest(n)
  {
    var d := Dec(n);
    DecFits(n);
    hide Denotes, MatchHere, FullMatch, AllIn, ParseDec, Dec;
    Last(Digits, d);
    WordStep("ID:", Run(Digits, 1, End), [d], d);
    WordStep("Latest", Word("ID:", Run(Digits, 1, End)), [d], Spaced("ID:", d));
    FullMatchIff(LATEST, [d], LatestLine(n));
  }

  ghost predicate IsPath(path: string) {
    path != "" && path[0] == '/' && AllIn(PathChars, path)
  }

  lemma RunSpaced(cls: CharClass, p: Pattern, g: string, groups: seq<string>, text: string)
    requires Denotes(p, groups, text) && AllIn(cls, g)
    ensures Denotes(Run(cls, 0, Space(p)), [g] + groups, Spaced(g, text))
  {
    hide Denotes;
    SpaceStep(' ', p, groups, text);
    RunStep(cls, 0, Space(p), g, groups, [' '] + text);
    assert g + ([' '] + text) == Spaced(g, text);
  }

  lemma FolderEndDenotes(id: nat, items: nat)
    requires id <= INT_MAX && items <= INT_MAX
    ensures Denotes(FOLDER_END, [Dec(id)] + [Dec(items)], FolderEnd(id, items))
  {
    var d, n := Dec(id), Dec(items);
    DecFits(id);
    DecFits(items);
    hide Denotes, AllIn, Dec;
    Last(Digits, n);
    WordStep("Items", Run(Digits, 1, End), [n], n);
    FieldStep(Digits, COUNT, d, [n], Spaced("Items", n));
    WordStep("ID", Run(Digits, 1, Space(COUNT)), [d] + [n], Spaced(d, Spaced("Items", n)));
  }

  lemma FolderRestDenotes(path: string, id: nat, items: nat)
    requires IsPath(path) && id <= INT_MAX && items <= INT_MAX
    ensures Denotes(FOLDER_REST, [path[1..]] + ([Dec(id)] + [Dec(items)]), Spaced(path, FolderEnd(id, items)))
  {
    hide Denotes, Dec, FolderEnd;
    var groups, end := [Dec(id)] + [Dec(items)], FolderEnd(id, items);
    FolderEndDenotes(id, items);
    RunSpaced(PathChars, FOLDER_END, path[1..], groups, end);
    LitStep("/", Run(PathChars, 0, Space(FOLDER_END)), [path[1..]] + groups, Spaced(path[1..], end));
    assert "/" + Spaced(path[1..], end) == Spaced(path, end);
  }

  lemma FoldersSeparated()
    ensures Separated(ROOT) && Separated(FOLDER)
  {
    assert Separated(COUNT);
    assert Separated(FOLDER_END);
    assert Separated(FOLDER_REST);
  }

  lemma FullMatchFolder(isRoot: bool, groups: seq<string>, rest: string)
    requires Denotes(FOLDER_REST, groups, rest)
    ensures TitleOf(Spaced(if isRoot then "Root folder:" else "Folder:", rest)) == FolderTitle(isRoot, groups)
  {
    FoldersSeparated();
    hide Denotes, MatchHere, FullMatch, FolderTitle, Separated;
    var word := if isRoot then "Root folder:" else "Folder:";
    var line := Spaced(word, rest);
    WordStep(word, FOLDER_REST, groups, rest);
    assert line[0] == word[0];
    OtherStart("Latest", Space(Word("ID:", Run(Digits, 1, End))), line);
    if isRoot {
      FullMatchIff(ROOT, groups, line);
    } else {
      FullMatchIff(FOLDER, groups, line);
      OtherStart("Root folder:", Space(FOLDER_REST), line);
    }
  }

  lemma ReadFolder(isRoot: bool, path: string, id: nat, items: nat)
    requires IsPath(path) && id <= INT_MAX && items <= INT_MAX
    ensures TitleOf(FolderLine(isRoot, path, id, items)) == Folder(isRoot, path, id, items)
  {
    FolderRestDenotes(path, id, items);
    DecFits(id);
    DecFits(items);
    hide Denotes, TitleOf, AllIn, Dec, FolderEnd, ParseDec;
    FullMatchFolder(isRoot, [path[1..]] + ([Dec(id)] + [Dec(items)]), Spaced(path, FolderEnd(id, items)));
    assert "/" + path[1..] == path;
  }

  lemma ContentDenotes(name: string, id: nat, kind: string)
    requires AllIn(PathChars, name) && id <= INT_MAX && (kind == "F" || kind == "D")
    ensures Denotes(CONTENT, [name] + ([Dec(id)] + [kind]), Spaced(name, Spaced("ID", Spaced(Dec(id), kind))))
  {
    var d := Dec(id);
    DecFits(id);
    KindDenotes(kind);
    hide Denotes, AllIn, Dec;
    FieldStep(Digits, One(KindChars, End), d, [kind], kind);
    var afterName := Run(Digits, 1, Space(One(KindChars, End)));
    WordStep("ID", afterName, [d] + [kind], Spaced(d, kind));
    RunSpaced(PathChars, Word("ID", afterName), name, [d] + [kind], Spaced("ID", Spaced(d, kind)));
  }

  lemma KindDenotes(kind: string)
    requires kind == "F" || kind == "D"
    ensures Denotes(One(KindChars, End), [kind], kind)
  {
    assert kind[1..] == "" && kind[..1] == kind;
  }

  lemma ReadEntry(nodes: Table, dir: nat, name: string, id: nat, isFile: bool)
    requires dir in nodes && AllIn(PathChars, name) && id <= INT_MAX
    ensures ParseEntry(nodes, dir, EntryLine(name, id, isFile)) == Some(Link(nodes, dir, name, id, isFile))
  {
    var kind := if isFile then "F" else "D";
    DecFits(id);
    ContentDenotes(name, id, kind);
    hide Denotes, MatchHere, FullMatch, AllIn, ParseDec, Dec, Link;
    FullMatchIff(CONTENT, [name] + ([Dec(id)] + [kind]), EntryLine(name, id, isFile));
  }
}
