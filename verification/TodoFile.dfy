/** The todo file (scripts/todo.go): its printer, its parser, and what comes back
    when a saved file is loaded. */
module TodoFile {
  import opened Options

  datatype Status = InProgress | Todo | Completed | Unknown(name: string)

  datatype Item = Item(text: string, priority: string, category: string, status: Status)

  // ----- characters and lines -----

  /** White space in the sense of Unicode's White_Space property. */
  predicate IsSpace(c: char) {
    || '\t' <= c <= '\r' || c == ' ' || c == '\U{85}' || c == '\U{A0}' || c == '\U{1680}'
    || '\U{2000}' <= c <= '\U{200A}' || c == '\U{2028}' || c == '\U{2029}' || c == '\U{202F}'
    || c == '\U{205F}' || c == '\U{3000}'
  }

  function TrimLeft(s: string): string {
    if s != "" && IsSpace(s[0]) then TrimLeft(s[1..]) else s
  }

  function TrimRight(s: string): string {
    if s != "" && IsSpace(s[|s| - 1]) then TrimRight(s[..|s| - 1]) else s
  }

  function TrimSpace(s: string): string { TrimRight(TrimLeft(s)) }

  function DropCR(s: string): string {
    if s != "" && s[|s| - 1] == '\r' then s[..|s| - 1] else s
  }

  function FirstLine(s: string): string {
    if s == "" || s[0] == '\n' then "" else [s[0]] + FirstLine(s[1..])
  }

  function Remaining(s: string): (r: string)
    ensures s != "" ==> |r| < |s|
  {
    if s == "" then "" else if s[0] == '\n' then s[1..] else Remaining(s[1..])
  }

  /** The lines a scanner returns. */
  function Lines(s: string): seq<string>
    decreases |s|
  {
    if s == "" then [] else [DropCR(FirstLine(s))] + Lines(Remaining(s))
  }

  /** Each line with its newline. */
  function Printed(lines: seq<string>): string {
    if lines == [] then "" else Printed(lines[..|lines| - 1]) + (lines[|lines| - 1] + "\n")
  }

  predicate HasPrefix(s: string, prefix: string) { prefix <= s }

  // ----- the printer -----

  const CONSTRUCTION := "## \U{1F6A7} In Progress"
  const CLIPBOARD := "## \U{1F4CB} Todo"
  const CHECK_MARK := "## \U{2705} Completed"

  const HEAD: seq<string> := ["# AudiModal Todo List", ""]

  function Bullet(icon: char, name: string, use: string, more: string): string {
    ("- " + [icon]) + (" **" + name + "** - " + use + more)
  }

  const LEGEND: seq<string> := [
    "", "---", "", "## Quick Reference", "", "### Priority Levels",
    Bullet('\U{1F525}', "High Priority", "Critical tasks", " that block other work"),
    Bullet('\U{1F536}', "Medium Priority", "Important", " but not blocking"),
    Bullet('\U{1F535}', "Low Priority", "Nice to have,", " can be deferred"),
    "", "### Categories"]

  const CATEGORIES: seq<string> := [
    Bullet('\U{1F41B}', "Bug Fix", "Issues that", " need resolution"),
    Bullet('\U{2728}', "Feature", "New functionality", " to implement"),
    Bullet('\U{1F527}', "Maintenance", "Code cleanup,", " refactoring, updates"),
    Bullet('\U{1F4DA}', "Documentation", "Docs, comments,", " README updates"),
    Bullet('\U{1F9EA}', "Testing", "Unit tests, integration", " tests, test improvements"),
    Bullet('\U{1F680}', "Deployment", "CI/CD, infrastructure,", " release tasks")]

  const FOOTER: seq<string> := LEGEND + CATEGORIES

  function ItemLine(text: string, status: Status): string {
    (if status == Completed then "- [x] " else "- [ ] ") + text
  }

  function OfStatus(items: seq<Item>, status: Status): (r: seq<Item>)
    ensures forall i | i in r :: i in items && i.status == status
  {
    if items == [] then [] else
    var last := items[|items| - 1];
    var earlier := OfStatus(items[..|items| - 1], status);
    if last.status == status then earlier + [last] else earlier
  }

  function ItemLines(items: seq<Item>, status: Status): (r: seq<string>) {
    if items == [] then [] else
    var last := items[|items| - 1];
    var earlier := ItemLines(items[..|items| - 1], status);
    if last.status == status then earlier + [ItemLine(last.text, status)] else earlier
  }

  function Section(title: string, items: seq<Item>, status: Status): seq<string> {
    [title, ""] + ItemLines(items, status)
  }

  function SavedLines(items: seq<Item>): seq<string> {
    HEAD + Section(CONSTRUCTION, items, InProgress) + [""] + Section(CLIPBOARD, items, Todo) + [""]
    + Section(CHECK_MARK, items, Completed) + FOOTER
  }

  function Saved(items: seq<Item>): string { Printed(SavedLines(items)) }

  // ----- the parser -----

  /** The mark and the text of an item line. */
  function MatchItem(line: string): Option<(char, string)> {
    if |line| > 6 && line[..3] == "- [" && (line[3] == ' ' || line[3] == 'x') && line[4..6] == "] " && '\n' !in line
    then Some((line[3], line[6..])) else None
  }

  function PriorityOf(text: string): string {
    if '\U{1F525}' in text then "high" else if '\U{1F535}' in text then "low" else "medium"
  }

  function CategoryOf(text: string): string {
    if '\U{1F41B}' in text then "bug" else if '\U{2728}' in text then "feature"
    else if '\U{1F527}' in text then "maintenance" else if '\U{1F4DA}' in text then "documentation"
    else if '\U{1F9EA}' in text then "testing" else if '\U{1F680}' in text then "deployment" else "general"
  }

  function Read(text: string, status: Status): Item { Item(text, PriorityOf(text), CategoryOf(text), status) }

  /** The section last seen, if any, and the items so far. */
  datatype Parse = Parse(section: Option<Status>, items: seq<Item>)

  function ParseTrimmed(p: Parse, line: string): Parse {
    if HasPrefix(line, CONSTRUCTION) then p.(section := Some(InProgress))
    else if HasPrefix(line, CLIPBOARD) then p.(section := Some(Todo))
    else if HasPrefix(line, CHECK_MARK) then p.(section := Some(Completed))
    else match MatchItem(line)
    case None => p
    case Some((mark, text)) =>
      var status := if p.section == Some(InProgress) then InProgress
                    else if p.section == Some(Completed) || mark == 'x' then Completed
                    else Todo;
      p.(items := p.items + [Read(text, status)])
  }

  function ParseLine(p: Parse, line: string): Parse { ParseTrimmed(p, TrimSpace(line)) }

  function ParseAll(p: Parse, lines: seq<string>): Parse {
    if lines == [] then p else ParseLine(ParseAll(p, lines[..|lines| - 1]), lines[|lines| - 1])
  }

  function Loaded(content: string): seq<Item> { ParseAll(Parse(None, []), Lines(content)).items }

  // ----- lemmas on lines -----

  lemma {:induction false} FirstLineOf(line: string, rest: string)
    requires '\n' !in line
    ensures FirstLine(line + "\n" + rest) == line && Remaining(line + "\n" + rest) == rest
  {
    if line == "" {
      assert (line + "\n" + rest)[1..] == rest;
    } else {
      assert (line + "\n" + rest)[1..] == line[1..] + "\n" + rest;
      FirstLineOf(line[1..], rest);
    }
  }

  ghost predicate CleanLine(line: string) { '\n' !in line && DropCR(line) == line }

  lemma {:induction false} PrintedFront(lines: seq<string>)
    requires lines != []
    ensures Printed(lines) == lines[0] + "\n" + Printed(lines[1..])
  {
    var n := |lines| - 1;
    if n > 0 {
      PrintedFront(lines[..n]);
      assert lines[..n][1..] == lines[1..][..n - 1];
    }
  }

  lemma LinesStep(line: string, rest: string)
    requires CleanLine(line)
    ensures Lines(line + "\n" + rest) == [line] + Lines(rest)
  {
    FirstLineOf(line, rest);
    hide FirstLine, Remaining;
  }

  lemma {:induction false} LinesOfPrinted(lines: seq<string>)
    requires forall l | l in lines :: CleanLine(l)
    ensures Lines(Printed(lines)) == lines
  {
    if lines == [] {
      assert Printed([]) == "" && Lines("") == [];
    } else {
      assert CleanLine(lines[0]) && forall l | l in lines[1..] :: l in lines;
      PrintedFront(lines);
      hide Printed, Lines, CleanLine;
      LinesStep(lines[0], Printed(lines[1..]));
      LinesOfPrinted(lines[1..]);
      assert lines == [lines[0]] + lines[1..];
    }
  }

  lemma {:induction false} ParseJoins(p: Parse, first: seq<string>, second: seq<string>)
    ensures ParseAll(p, first + second) == ParseAll(ParseAll(p, first), second)
  {
    if second == [] {
      assert first + second == first;
    } else {
      var n := |second| - 1;
      ParseJoins(p, first, second[..n]);
      hide ParseLine;
      assert first + second == (first + second[..n]) + [second[n]];
      ParseLast(p, first + second[..n], second[n]);
    }
  }

  lemma {:induction false} FirstLineClean(s: string)
    ensures '\n' !in FirstLine(s)
  {
    if s != "" && s[0] != '\n' { FirstLineClean(s[1..]); }
  }

  lemma {:induction false} LinesAreClean(s: string)
    ensures forall l | l in Lines(s) :: '\n' !in l
    decreases |s|
  {
    if s != "" {
      FirstLineClean(s);
      LinesAreClean(Remaining(s));
    }
  }

  lemma {:induction false} TrimLeftFacts(s: string)
    ensures |TrimLeft(s)| <= |s| && TrimLeft(s) == s[|s| - |TrimLeft(s)|..]
  {
    if s != "" && IsSpace(s[0]) { TrimLeftFacts(s[1..]); }
  }

  lemma {:induction false} TrimRightFacts(s: string)
    ensures TrimRight(s) <= s && (TrimRight(s) == "" || !IsSpace(TrimRight(s)[|TrimRight(s)| - 1]))
  {
    if s != "" && IsSpace(s[|s| - 1]) { TrimRightFacts(s[..|s| - 1]); }
  }

  // ----- what comes back -----

  /** A text a line can hold and give back: not empty, without a newline, and not
      ending in white space. */
  predicate Good(text: string) {
    text != "" && '\n' !in text && !IsSpace(text[|text| - 1])
  }

  function Grouped(items: seq<Item>): seq<Item> {
    OfStatus(items, InProgress) + OfStatus(items, Todo) + OfStatus(items, Completed)
  }

  /** The items with priority and category read off the text again. */
  function Reread(items: seq<Item>): (r: seq<Item>)
    ensures |r| == |items| && forall i | 0 <= i < |r| :: r[i] == Read(items[i].text, items[i].status)
  {
    if items == [] then [] else
    var last := items[|items| - 1];
    Reread(items[..|items| - 1]) + [Read(last.text, last.status)]
  }

  ghost predicate AllGood(items: seq<Item>) {
    forall i | i in items && !i.status.Unknown? :: Good(i.text)
  }

  lemma ItemLineParses(p: Parse, text: string, status: Status)
    requires Good(text) && !status.Unknown? && p.section == Some(status)
    ensures CleanLine(ItemLine(text, status))
    ensures ParseLine(p, ItemLine(text, status)) == p.(items := p.items + [Read(text, status)])
  {
    var line := ItemLine(text, status);
    assert line[|line| - 1] == text[|text| - 1];
    assert TrimSpace(line) == line;
    assert line[..3] == "- [" && line[4..6] == "] " && line[6..] == text;
    assert !HasPrefix(line, CONSTRUCTION) && !HasPrefix(line, CLIPBOARD) && !HasPrefix(line, CHECK_MARK) by {
      assert line[0] == '-' && CONSTRUCTION[0] == '#' && CLIPBOARD[0] == '#' && CHECK_MARK[0] == '#';
    }
  }

  lemma ItemStep(p: Parse, lines: seq<string>, items: seq<Item>, last: Item)
    requires Good(last.text) && !last.status.Unknown? && p.section == Some(last.status)
    requires ParseAll(p, lines) == p.(items := p.items + Reread(items))
    ensures ParseAll(p, lines + [ItemLine(last.text, last.status)]) == p.(items := p.items + Reread(items + [last]))
  {
    hide *;
    ItemLineParses(ParseAll(p, lines), last.text, last.status);
    ParseLast(p, lines, ItemLine(last.text, last.status));
    RereadLast(items, last);
  }

  lemma {:induction false} ItemLinesParse(p: Parse, items: seq<Item>, status: Status)
    requires AllGood(items) && !status.Unknown? && p.section == Some(status)
    ensures ParseAll(p, ItemLines(items, status)) == p.(items := p.items + Reread(OfStatus(items, status)))
  {
    if items == [] {
      assert ParseAll(p, []) == p && Reread([]) == [];
    } else {
      var n := |items| - 1;
      assert AllGood(items[..n]) && (items[n].status == status ==> Good(items[n].text));
      hide AllGood, ParseAll, Reread, Good;
      ItemLinesParse(p, items[..n], status);
      if items[n].status == status {
        ItemStep(p, ItemLines(items[..n], status), OfStatus(items[..n], status), items[n]);
      }
    }
  }

  lemma {:induction false} ItemLinesClean(items: seq<Item>, status: Status)
    requires AllGood(items) && !status.Unknown?
    ensures forall l | l in ItemLines(items, status) :: CleanLine(l)
  {
    if items != [] {
      var last := items[|items| - 1];
      ItemLinesClean(items[..|items| - 1], status);
      if last.status == status { ItemLineParses(Parse(Some(status), []), last.text, status); }
    }
  }

  lemma ParseLast(p: Parse, lines: seq<string>, line: string)
    ensures ParseAll(p, lines + [line]) == ParseLine(ParseAll(p, lines), line)
  {
    assert (lines + [line])[..|lines|] == lines;
  }

  lemma RereadLast(items: seq<Item>, item: Item)
    ensures Reread(items + [item]) == Reread(items) + [Read(item.text, item.status)]
  {
    assert (items + [item])[..|items|] == items;
  }

  /** A line the parser passes over. */
  ghost predicate Inert(line: string) {
    CleanLine(line) && forall p: Parse :: ParseLine(p, line) == p
  }

  /** Starts and ends in something other than white space, and starts neither as
      a title nor as an item. */
  predicate Plain(line: string) {
    && '\n' !in line
    && (line == "" || (!IsSpace(line[0]) && !IsSpace(line[|line| - 1])))
    && (|line| >= 3 ==> line[2] != '[')
    && (|line| > 3 ==> line[2] != ' ' || line[0] != '#' || line[3] == 'Q')
  }

  lemma PlainIsInert(line: string)
    requires Plain(line)
    ensures Inert(line)
  {
    assert TrimSpace(line) == line;
    TitleStart(line, CONSTRUCTION);
    TitleStart(line, CLIPBOARD);
    TitleStart(line, CHECK_MARK);
    if |line| >= 3 { assert line[..3][2] == line[2]; }
  }

  lemma TitleStart(line: string, title: string)
    requires title in {CONSTRUCTION, CLIPBOARD, CHECK_MARK}
    ensures HasPrefix(line, title) ==> |line| > 3 && line[0] == '#' && line[2] == ' ' && line[3] == title[3] != 'Q'
  {
    if HasPrefix(line, title) {
      PrefixAt(line, title, 0);
      PrefixAt(line, title, 2);
      PrefixAt(line, title, 3);
    }
  }

  lemma {:induction false} InertLines(p: Parse, lines: seq<string>)
    requires forall l | l in lines :: Inert(l)
    ensures ParseAll(p, lines) == p
  {
    if lines != [] {
      InertLines(p, lines[..|lines| - 1]);
      assert Inert(lines[|lines| - 1]);
    }
  }

  lemma TitlesClean()
    ensures CleanLine(CONSTRUCTION) && CleanLine(CLIPBOARD) && CleanLine(CHECK_MARK)
    ensures TrimSpace(CONSTRUCTION) == CONSTRUCTION && TrimSpace(CLIPBOARD) == CLIPBOARD
      && TrimSpace(CHECK_MARK) == CHECK_MARK
  {
    assert '\n' !in CONSTRUCTION && '\n' !in CLIPBOARD && '\n' !in CHECK_MARK;
    assert DropCR(CONSTRUCTION) == CONSTRUCTION && DropCR(CLIPBOARD) == CLIPBOARD && DropCR(CHECK_MARK) == CHECK_MARK;
  }

  lemma PrefixAt(s: string, prefix: string, i: nat)
    requires HasPrefix(s, prefix) && i < |prefix|
    ensures s[i] == prefix[i]
  {}

  lemma TitlesDiffer()
    ensures !HasPrefix(CLIPBOARD, CONSTRUCTION) && !HasPrefix(CHECK_MARK, CONSTRUCTION)
      && !HasPrefix(CHECK_MARK, CLIPBOARD)
  {
    TitleStart(CLIPBOARD, CONSTRUCTION);
    TitleStart(CHECK_MARK, CONSTRUCTION);
    TitleStart(CHECK_MARK, CLIPBOARD);
  }

  lemma TitlesParse(p: Parse)
    ensures ParseLine(p, CONSTRUCTION) == p.(section := Some(InProgress))
    ensures ParseLine(p, CLIPBOARD) == p.(section := Some(Todo))
    ensures ParseLine(p, CHECK_MARK) == p.(section := Some(Completed))
  {
    TitlesClean();
    TitlesDiffer();
    hide TrimSpace;
  }

  // ----- the fixed lines -----

  lemma HeadIsInert()
    ensures forall l | l in HEAD :: Inert(l)
  {
    PlainIsInert("# AudiModal Todo List");
    PlainIsInert("");
    hide Inert;
  }

  lemma BulletIsInert(icon: char, name: string, use: string, more: string)
    requires '\n' !in name && '\n' !in use && '\n' !in more && icon != '\n' && icon != '['
    requires more != "" && !IsSpace(more[|more| - 1])
    ensures Inert(Bullet(icon, name, use, more))
  {
    var line := Bullet(icon, name, use, more);
    assert line[|line| - 1] == more[|more| - 1] && line[0] == '-' && line[2] == icon;
    PlainIsInert(line);
  }

  lemma HeadingsAreInert()
    ensures Inert("") && Inert("---") && Inert("## Quick Reference") && Inert("### Priority Levels")
      && Inert("### Categories")
  {
    PlainIsInert("");
    PlainIsInert("---");
    PlainIsInert("## Quick Reference");
    LevelsAreInert();
    hide Inert;
  }

  lemma LevelsAreInert()
    ensures Inert("### Priority Levels") && Inert("### Categories")
  {
    PlainIsInert("### Priority Levels");
    PlainIsInert("### Categories");
    hide Inert;
  }

  lemma LegendIsInert()
    ensures forall l | l in LEGEND :: Inert(l)
  {
    HeadingsAreInert();
    BulletIsInert('\U{1F525}', "High Priority", "Critical tasks", " that block other work");
    BulletIsInert('\U{1F536}', "Medium Priority", "Important", " but not blocking");
    BulletIsInert('\U{1F535}', "Low Priority", "Nice to have,", " can be deferred");
    hide Inert, Bullet;
  }

  lemma CategoriesAreInert()
    ensures forall l | l in CATEGORIES :: Inert(l)
  {
    BulletIsInert('\U{1F41B}', "Bug Fix", "Issues that", " need resolution");
    BulletIsInert('\U{2728}', "Feature", "New functionality", " to implement");
    BulletIsInert('\U{1F527}', "Maintenance", "Code cleanup,", " refactoring, updates");
    LastCategoriesAreInert();
    hide Inert, Bullet;
  }

  lemma LastCategoriesAreInert()
    ensures forall l | l in CATEGORIES[3..] :: Inert(l)
  {
    BulletIsInert('\U{1F4DA}', "Documentation", "Docs, comments,", " README updates");
    BulletIsInert('\U{1F9EA}', "Testing", "Unit tests, integration", " tests, test improvements");
    BulletIsInert('\U{1F680}', "Deployment", "CI/CD, infrastructure,", " release tasks");
    hide Inert, Bullet;
  }

  // ----- main results -----

  lemma SectionParses(p: Parse, title: string, items: seq<Item>, status: Status)
    requires AllGood(items)
    requires (title, status) in {(CONSTRUCTION, InProgress), (CLIPBOARD, Todo), (CHECK_MARK, Completed)}
    ensures ParseAll(p, Section(title, items, status)) == Parse(Some(status), p.items + Reread(OfStatus(items, status)))
    ensures forall l | l in Section(title, items, status) :: CleanLine(l)
  {
    TitlesClean();
    TitlesParse(p);
    var q := p.(section := Some(status));
    PlainIsInert("");
    hide AllGood, ParseLine, CleanLine, TrimSpace, HasPrefix, CONSTRUCTION, CLIPBOARD, CHECK_MARK;
    ParseLast(p, [title], "");
    ParseLast(p, [], title);
    assert [] + [title] == [title] && [title] + [""] == [title, ""];
    ParseJoins(p, [title, ""], ItemLines(items, status));
    ItemLinesParse(q, items, status);
    ItemLinesClean(items, status);
  }

  lemma InertTail(p: Parse, lines: seq<string>, tail: seq<string>)
    requires forall l | l in tail :: Inert(l)
    ensures ParseAll(p, lines + tail) == ParseAll(p, lines)
  {
    ParseJoins(p, lines, tail);
    InertLines(ParseAll(p, lines), tail);
  }

  lemma {:induction false} RereadJoins(first: seq<Item>, second: seq<Item>)
    ensures Reread(first + second) == Reread(first) + Reread(second)
  {}

  lemma BlockParses(start: Parse, lines: seq<string>, title: string, items: seq<Item>, status: Status,
                    tail: seq<string>)
    requires AllGood(items) && forall l | l in tail :: Inert(l)
    requires (title, status) in {(CONSTRUCTION, InProgress), (CLIPBOARD, Todo), (CHECK_MARK, Completed)}
    ensures ParseAll(start, lines + Section(title, items, status) + tail)
         == Parse(Some(status), ParseAll(start, lines).items + Reread(OfStatus(items, status)))
    ensures (forall l | l in lines :: CleanLine(l)) ==>
      forall l | l in lines + Section(title, items, status) + tail :: CleanLine(l)
  {
    SectionParses(ParseAll(start, lines), title, items, status);
    assert forall l | Inert(l) :: CleanLine(l);
    hide *;
    ParseJoins(start, lines, Section(title, items, status));
    InertTail(start, lines + Section(title, items, status), tail);
  }

  lemma FixedLines()
    ensures forall l | l in HEAD || l in FOOTER || l in [""] :: Inert(l)
    ensures forall l | l in HEAD :: CleanLine(l)
  {
    HeadIsInert();
    LegendIsInert();
    CategoriesAreInert();
    PlainIsInert("");
    assert forall l | Inert(l) :: CleanLine(l);
    hide Inert, HEAD, LEGEND, CATEGORIES, CleanLine;
  }

  lemma SavedLinesParse(items: seq<Item>)
    requires AllGood(items)
    ensures ParseAll(Parse(None, []), SavedLines(items)).items == Reread(Grouped(items))
    ensures forall l | l in SavedLines(items) :: CleanLine(l)
  {
    hide Inert, AllGood, ParseAll, HEAD, FOOTER, LEGEND, CATEGORIES, CleanLine, OfStatus, Reread, Section;
    hide CONSTRUCTION, CLIPBOARD, CHECK_MARK;
    FixedLines();
    var start := Parse(None, []);
    var b := HEAD + Section(CONSTRUCTION, items, InProgress) + [""];
    var c := b + Section(CLIPBOARD, items, Todo) + [""];
    assert SavedLines(items) == c + Section(CHECK_MARK, items, Completed) + FOOTER;
    hide SavedLines;
    InertLines(start, HEAD);
    BlockParses(start, HEAD, CONSTRUCTION, items, InProgress, [""]);
    BlockParses(start, b, CLIPBOARD, items, Todo, [""]);
    BlockParses(start, c, CHECK_MARK, items, Completed, FOOTER);
    RereadJoins(OfStatus(items, InProgress), OfStatus(items, Todo));
    RereadJoins(OfStatus(items, InProgress) + OfStatus(items, Todo), OfStatus(items, Completed));
  }

  lemma GoodItemsComeBack(items: seq<Item>)
    requires AllGood(items)
    ensures Loaded(Saved(items)) == Reread(Grouped(items))
  {
    SavedLinesParse(items);
    LinesOfPrinted(SavedLines(items));
  }

  /** Anything a file can hold is read as items that were read off good texts. */
  ghost predicate AsRead(items: seq<Item>) {
    forall i | i in items :: Good(i.text) && !i.status.Unknown? && i == Read(i.text, i.status)
  }

  lemma LineReadsGood(p: Parse, line: string)
    requires '\n' !in line && AsRead(p.items) && (p.section.Some? ==> !p.section.value.Unknown?)
    ensures var q := ParseLine(p, line); AsRead(q.items) && (q.section.Some? ==> !q.section.value.Unknown?)
  {
    TrimLeftFacts(line);
    TrimRightFacts(TrimLeft(line));
    var t := TrimSpace(line);
    assert '\n' !in t;
    if MatchItem(t).Some? { assert t[6..][|t| - 7] == t[|t| - 1]; }
    hide TrimSpace;
  }

  lemma {:induction false} LinesReadGood(p: Parse, lines: seq<string>)
    requires forall l | l in lines :: '\n' !in l
    requires AsRead(p.items) && (p.section.Some? ==> !p.section.value.Unknown?)
    ensures var q := ParseAll(p, lines); AsRead(q.items) && (q.section.Some? ==> !q.section.value.Unknown?)
  {
    if lines != [] {
      var n := |lines| - 1;
      LinesReadGood(p, lines[..n]);
      assert lines[n] in lines;
      LineReadsGood(ParseAll(p, lines[..n]), lines[n]);
    }
  }

  lemma LoadedAreRead(content: string)
    ensures AsRead(Loaded(content))
  {
    LinesAreClean(content);
    LinesReadGood(Parse(None, []), Lines(content));
  }

  /** Every item read off any file has a text that is not empty, holds no newline
      and does not end in white space, one of the three statuses, and the priority
      and the category that the symbols in its text stand for. */
  lemma LoadedAreGood(content: string, i: Item)
    requires i in Loaded(content)
    ensures i.text != "" && '\n' !in i.text && !IsSpace(i.text[|i.text| - 1])
    ensures i.status in {InProgress, Todo, Completed}
    ensures i.priority == if '\U{1F525}' in i.text then "high" else if '\U{1F535}' in i.text then "low" else "medium"
    ensures i.category ==
      if '\U{1F41B}' in i.text then "bug" else if '\U{2728}' in i.text then "feature"
      else if '\U{1F527}' in i.text then "maintenance" else if '\U{1F4DA}' in i.text then "documentation"
      else if '\U{1F9EA}' in i.text then "testing" else if '\U{1F680}' in i.text then "deployment" else "general"
  {
    LoadedAreRead(content);
    hide Loaded;
  }

  /** White space, by code points. */
  lemma WhiteSpaceIs(c: char)
    ensures IsSpace(c) <==>
      var n := c as int;
      9 <= n <= 13 || 0x2000 <= n <= 0x200A
      || n in {0x20, 0x85, 0xA0, 0x1680, 0x2028, 0x2029, 0x202F, 0x205F, 0x3000}
  {
  }

  /** What an item line under a heading, or under none, is read as. */
  lemma LineUnderHeading(text: string, mark: char)
    requires text != "" && '\n' !in text && !IsSpace(text[|text| - 1]) && mark in {' ', 'x'}
    ensures var line := "- [" + [mark] + "] " + text;
      && Loaded("## \U{1F6A7} In Progress" + "\n" + (line + "\n")) == [Read(text, InProgress)]
      && Loaded("## \U{1F4CB} Todo" + "\n" + (line + "\n")) == [Read(text, if mark == 'x' then Completed else Todo)]
      && Loaded("## \U{2705} Completed" + "\n" + (line + "\n")) == [Read(text, Completed)]
      && Loaded(line + "\n") == [Read(text, if mark == 'x' then Completed else Todo)]
  {
    var line := "- [" + [mark] + "] " + text;
    var none := Parse(None, []);
    MarkedLineParses(none, text, mark);
    MarkedLineParses(Parse(Some(InProgress), []), text, mark);
    MarkedLineParses(Parse(Some(Todo), []), text, mark);
    MarkedLineParses(Parse(Some(Completed), []), text, mark);
    TitlesClean();
    TitlesParse(none);
    hide ParseLine, Loaded, CleanLine, Read, IsSpace;
    LoadedLine(line);
    LoadedLines(CONSTRUCTION, line);
    LoadedLines(CLIPBOARD, line);
    LoadedLines(CHECK_MARK, line);
  }

  lemma LoadedLine(line: string)
    requires CleanLine(line)
    ensures Loaded(line + "\n") == ParseLine(Parse(None, []), line).items
  {
    hide CleanLine, ParseLine, Lines, Printed;
    LinesOfPrinted([line]);
    PrintedOne(line);
    OneLine(Parse(None, []), line);
  }

  lemma PrintedOne(line: string)
    ensures Printed([line]) == line + "\n"
  {
    PrintedLast([], line);
    assert [] + [line] == [line];
  }

  lemma LoadedLines(first: string, second: string)
    requires CleanLine(first) && CleanLine(second)
    ensures Loaded(first + "\n" + (second + "\n")) == ParseLine(ParseLine(Parse(None, []), first), second).items
  {
    hide CleanLine, ParseLine, Lines, Printed;
    LinesOfPrinted([first, second]);
    PrintedOne(first);
    PrintedLast([first], second);
    assert [first] + [second] == [first, second];
    TwoLines(Parse(None, []), first, second);
  }

  lemma OneLine(p: Parse, line: string)
    ensures ParseAll(p, [line]) == ParseLine(p, line)
  {
    assert [line][..0] == [] && ParseAll(p, []) == p;
  }

  lemma TwoLines(p: Parse, first: string, second: string)
    ensures ParseAll(p, [first, second]) == ParseLine(ParseLine(p, first), second)
  {
    OneLine(p, first);
    assert [first, second][..1] == [first];
  }

  lemma MarkedLineParses(p: Parse, text: string, mark: char)
    requires text != "" && '\n' !in text && !IsSpace(text[|text| - 1]) && mark in {' ', 'x'}
    ensures CleanLine("- [" + [mark] + "] " + text)
    ensures ParseLine(p, "- [" + [mark] + "] " + text) == p.(items := p.items + [Read(text,
      if p.section == Some(InProgress) then InProgress
      else if p.section == Some(Completed) || mark == 'x' then Completed else Todo)])
  {
    var line := "- [" + [mark] + "] " + text;
    assert line[|line| - 1] == text[|text| - 1];
    assert TrimSpace(line) == line;
    assert line[..3] == "- [" && line[3] == mark && line[4..6] == "] " && line[6..] == text;
    assert !HasPrefix(line, CONSTRUCTION) && !HasPrefix(line, CLIPBOARD) && !HasPrefix(line, CHECK_MARK) by {
      assert line[0] == '-' && CONSTRUCTION[0] == '#' && CLIPBOARD[0] == '#' && CHECK_MARK[0] == '#';
    }
  }

  lemma {:induction false} InOfStatus(items: seq<Item>, i: Item)
    requires i in items
    ensures i in OfStatus(items, i.status)
  {
    var n := |items| - 1;
    if i != items[n] { InOfStatus(items[..n], i); }
  }

  /** Saving and loading gives the items back, grouped by section, if and only if
      every text of a known status is one a line can hold. */
  lemma RoundTripIff(items: seq<Item>)
    ensures Loaded(Saved(items)) == Reread(Grouped(items)) <==> AllGood(items)
  {
    if AllGood(items) {
      GoodItemsComeBack(items);
    } else {
      var i :| i in items && !i.status.Unknown? && !Good(i.text);
      InOfStatus(items, i);
      assert i in Grouped(items);
      var k :| 0 <= k < |Grouped(items)| && Grouped(items)[k] == i;
      LoadedAreRead(Saved(items));
      hide Saved, Loaded, Good;
      assert Reread(Grouped(items))[k].text == i.text;
    }
  }

  lemma {:induction false} ItemLinesJoin(first: seq<Item>, second: seq<Item>, status: Status)
    ensures ItemLines(first + second, status) == ItemLines(first, status) + ItemLines(second, status)
  {
    if second == [] {
      assert first + second == first;
    } else {
      var n := |second| - 1;
      ItemLinesJoin(first, second[..n], status);
      hide ItemLine;
      assert first + second == (first + second[..n]) + [second[n]];
      assert ((first + second[..n]) + [second[n]])[..|first| + n] == first + second[..n];
    }
  }

  lemma ItemLinesLast(items: seq<Item>, item: Item, status: Status)
    ensures ItemLines(items + [item], status)
         == if item.status == status then ItemLines(items, status) + [ItemLine(item.text, status)]
            else ItemLines(items, status)
  {
    assert (items + [item])[..|items|] == items;
  }

  lemma {:induction false} ItemLinesOfReread(items: seq<Item>, kept: Status, status: Status)
    ensures ItemLines(Reread(OfStatus(items, kept)), status) == if kept == status then ItemLines(items, status) else []
  {
    hide ItemLine;
    if items != [] {
      var n := |items| - 1;
      ItemLinesOfReread(items[..n], kept, status);
      if items[n].status == kept {
        RereadLast(OfStatus(items[..n], kept), items[n]);
        ItemLinesLast(Reread(OfStatus(items[..n], kept)), Read(items[n].text, kept), status);
        hide Reread;
      }
    }
  }

  lemma GroupedLines(items: seq<Item>, status: Status)
    requires !status.Unknown?
    ensures ItemLines(Reread(Grouped(items)), status) == ItemLines(items, status)
  {
    hide ItemLines, Reread, OfStatus;
    var a, b, c := OfStatus(items, InProgress), OfStatus(items, Todo), OfStatus(items, Completed);
    RereadJoins(a + b, c);
    RereadJoins(a, b);
    ItemLinesJoin(Reread(a) + Reread(b), Reread(c), status);
    ItemLinesJoin(Reread(a), Reread(b), status);
    ItemLinesOfReread(items, InProgress, status);
    ItemLinesOfReread(items, Todo, status);
    ItemLinesOfReread(items, Completed, status);
  }

  /** Saving again what was loaded writes the identical file. */
  lemma SavingAgainIsIdentical(items: seq<Item>)
    requires AllGood(items)
    ensures Saved(Loaded(Saved(items))) == Saved(items)
  {
    GoodItemsComeBack(items);
    GroupedLines(items, InProgress);
    GroupedLines(items, Todo);
    GroupedLines(items, Completed);
  }

  /** Whatever file was loaded, the items survive saving and loading from then on,
      up to the grouping. */
  lemma LoadedItemsComeBack(content: string)
    ensures Loaded(Saved(Loaded(content))) == Grouped(Loaded(content))
  {
    LoadedAreRead(content);
    GoodItemsComeBack(Loaded(content));
    var items := Grouped(Loaded(content));
    assert forall i | i in items :: i in Loaded(content);
    hide Loaded, Grouped, Good;
    assert Reread(items) == items;
  }

  // ----- the program -----

  lemma PrintedLast(lines: seq<string>, line: string)
    ensures Printed(lines + [line]) == Printed(lines) + (line + "\n")
  {
    assert (lines + [line])[..|lines|] == lines;
  }

  lemma Associates(a: string, b: string, c: string)
    ensures (a + b) + c == a + (b + c)
  {}

  lemma {:induction false} PrintedJoins(first: seq<string>, second: seq<string>)
    ensures Printed(first + second) == Printed(first) + Printed(second)
  {
    if second == [] {
      assert first + second == first;
    } else {
      var n := |second| - 1;
      PrintedJoins(first, second[..n]);
      PrintedLast(first + second[..n], second[n]);
      PrintedLast(second[..n], second[n]);
      hide Printed;
      assert first + second == (first + second[..n]) + [second[n]] && second == second[..n] + [second[n]];
      Associates(Printed(first), Printed(second[..n]), second[n] + "\n");
    }
  }

  lemma {:induction false} ParseShifts(section: Option<Status>, items: seq<Item>, lines: seq<string>)
    ensures var p, q := ParseAll(Parse(section, items), lines), ParseAll(Parse(section, []), lines);
      p.section == q.section && p.items == items + q.items
  {
    if lines != [] {
      ParseShifts(section, items, lines[..|lines| - 1]);
      hide TrimSpace, MatchItem, HasPrefix;
    }
  }

  /** The file is None until it exists. */
  class TodoManager {
    var items: seq<Item>
    var file: Option<string>

    constructor (file: Option<string>)
      ensures items == [] && this.file == file
    {
      this.items, this.file := [], file;
    }

    method WriteItems(out: string, status: Status) returns (more: string)
      ensures more == out + Printed(ItemLines(items, status))
    {
      more := out;
      assert Printed(ItemLines(items[..0], status)) == "";
      hide Printed, ItemLine, ItemLines;
      for i := 0 to |items|
        invariant more == out + Printed(ItemLines(items[..i], status))
      {
        assert items[..i + 1] == items[..i] + [items[i]];
        ItemLinesLast(items[..i], items[i], status);
        if items[i].status == status {
          PrintedLast(ItemLines(items[..i], status), ItemLine(items[i].text, status));
          Associates(out, Printed(ItemLines(items[..i], status)), ItemLine(items[i].text, status) + "\n");
          more := more + (ItemLine(items[i].text, status) + "\n");
        }
      }
      assert items[..|items|] == items;
    }

    method WriteSection(out: string, title: string, status: Status) returns (more: string)
      ensures more == out + Printed(Section(title, items, status))
    {
      PrintedLast([title], "");
      PrintedLast([], title);
      assert [] + [title] == [title] && [title] + [""] == [title, ""];
      PrintedJoins([title, ""], ItemLines(items, status));
      more := WriteItems(out + title + "\n" + "\n", status);
    }

    /** Creating the file may fail; what is written is the whole of it. */
    method SaveToFile() returns (ok: bool)
      modifies `file
      ensures file == if ok then Some(Saved(items)) else old(file)
    {
      ok := *;
      if !ok { return; }
      var out := Printed(HEAD);
      out := WriteSection(out, CONSTRUCTION, InProgress);
      out := out + "\n";
      out := WriteSection(out, CLIPBOARD, Todo);
      out := out + "\n";
      out := WriteSection(out, CHECK_MARK, Completed);
      out := out + Printed(FOOTER);
      WrittenIsSaved(items);
      file := Some(out);
    }

    /** Adds the items of the file to those already there. */
    method LoadFromFile() returns (ok: bool)
      modifies `items
      ensures ok <==> file.Some?
      ensures items == if ok then old(items) + Loaded(file.value) else old(items)
    {
      if file.None? { return false; }
      var rest := file.value;
      var section: Option<Status> := None;
      ghost var start := Parse(None, items);
      ghost var done: seq<string> := [];
      assert ParseAll(start, done) == start && done + Lines(rest) == Lines(file.value);
      hide TrimSpace, MatchItem, HasPrefix, DropCR, FirstLine, PriorityOf, CategoryOf, ParseAll, CONSTRUCTION;
      hide CLIPBOARD, CHECK_MARK;
      while rest != ""
        invariant done + Lines(rest) == Lines(file.value)
        invariant Parse(section, items) == ParseAll(start, done)
        decreases |rest|
      {
        var scanned := DropCR(FirstLine(rest));
        ParseLast(start, done, scanned);
        assert done + Lines(rest) == (done + [scanned]) + Lines(Remaining(rest));
        done := done + [scanned];
        var line := TrimSpace(scanned);
        rest := Remaining(rest);
        if HasPrefix(line, CONSTRUCTION) {
          section := Some(InProgress);
        } else if HasPrefix(line, CLIPBOARD) {
          section := Some(Todo);
        } else if HasPrefix(line, CHECK_MARK) {
          section := Some(Completed);
        } else {
          var found := MatchItem(line);
          if found.Some? {
            var (mark, text) := found.value;
            var status := Todo;
            if section == Some(InProgress) {
              status := InProgress;
            } else if section == Some(Completed) || mark == 'x' {
              status := Completed;
            }
            items := items + [Item(text, PriorityOf(text), CategoryOf(text), status)];
          }
        }
      }
      assert Lines(rest) == [] && done == Lines(file.value);
      ParseShifts(None, old(items), done);
      ok := true;
    }

    method AddTodo(text: string, priority: string, category: string) returns (saved: bool)
      modifies this
      ensures items == old(items) + [Item(text, priority, category, Todo)]
      ensures file == if saved then Some(Saved(items)) else old(file)
    {
      items := items + [Item(text, priority, category, Todo)];
      saved := SaveToFile();
    }

    /** MarkComplete and MarkInProgress: an index out of range does nothing. */
    method Mark(index: int, status: Status) returns (saved: bool)
      requires status == Completed || status == InProgress
      modifies this
      ensures items ==
        if 0 <= index < |old(items)| then old(items)[index := old(items)[index].(status := status)] else old(items)
      ensures file == if saved then Some(Saved(items)) else old(file)
      ensures saved ==> 0 <= index < |items|
    {
      saved := false;
      if 0 <= index < |items| {
        items := items[index := items[index].(status := status)];
        saved := SaveToFile();
      }
    }
  }

  lemma WrittenIsSaved(items: seq<Item>)
    ensures Printed(HEAD) + Printed(Section(CONSTRUCTION, items, InProgress)) + "\n"
      + Printed(Section(CLIPBOARD, items, Todo))
            + "\n" + Printed(Section(CHECK_MARK, items, Completed)) + Printed(FOOTER) == Saved(items)
  {
    hide Printed, HEAD, FOOTER, Section, CONSTRUCTION, CLIPBOARD, CHECK_MARK;
    var a := HEAD + Section(CONSTRUCTION, items, InProgress);
    var b := a + [""] + Section(CLIPBOARD, items, Todo);
    var c := b + [""] + Section(CHECK_MARK, items, Completed);
    PrintedJoins(HEAD, Section(CONSTRUCTION, items, InProgress));
    PrintedLast(a, "");
    PrintedJoins(a + [""], Section(CLIPBOARD, items, Todo));
    PrintedLast(b, "");
    PrintedJoins(b + [""], Section(CHECK_MARK, items, Completed));
    PrintedJoins(c, FOOTER);
    assert "" + "\n" == "\n";
  }

  lemma HeadText()
    ensures Printed(HEAD) == "# AudiModal Todo List\n\n"
  {
    PrintedOne("# AudiModal Todo List");
    PrintedLast(["# AudiModal Todo List"], "");
    assert HEAD == ["# AudiModal Todo List"] + [""];
    assert "" + "\n" == "\n";
  }

  lemma SectionText(title: string, items: seq<Item>, status: Status)
    ensures Printed(Section(title, items, status)) == title + "\n" + "\n" + Printed(ItemLines(items, status))
  {
    PrintedOne(title);
    PrintedLast([title], "");
    assert [title] + [""] == [title, ""] && "" + "\n" == "\n";
    PrintedJoins([title, ""], ItemLines(items, status));
  }

  /** A saved file: the title, the three sections with their items, and the legend. */
  lemma SavedText(items: seq<Item>)
    ensures Saved(items) == "# AudiModal Todo List\n\n"
      + ("## \U{1F6A7} In Progress" + "\n" + "\n" + Printed(ItemLines(items, InProgress))) + "\n"
      + ("## \U{1F4CB} Todo" + "\n" + "\n" + Printed(ItemLines(items, Todo))) + "\n"
      + ("## \U{2705} Completed" + "\n" + "\n" + Printed(ItemLines(items, Completed))) + Printed(FOOTER)
  {
    WrittenIsSaved(items);
    HeadText();
    SectionText(CONSTRUCTION, items, InProgress);
    SectionText(CLIPBOARD, items, Todo);
    SectionText(CHECK_MARK, items, Completed);
    hide Saved, Printed, Section, ItemLines, HEAD, FOOTER;
  }

  /** Within a section each item of its status has a line, in order: its text after
      an empty box, or a ticked one when it is completed. */
  lemma ItemLinesText(items: seq<Item>, item: Item, status: Status)
    ensures Printed(ItemLines([], status)) == ""
    ensures Printed(ItemLines(items + [item], status)) == Printed(ItemLines(items, status)) +
      if item.status != status then "" else (if status == Completed then "- [x] " else "- [ ] ") + item.text + "\n"
  {
    ItemLinesLast(items, item, status);
    if item.status == status { PrintedLast(ItemLines(items, status), ItemLine(item.text, status)); }
  }
}
