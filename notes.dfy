/**
 * The per-file mapping of `src/data/notes.js`: a markdown file's path and raw text become
 * a note record (title, date, category, body, emoji, link, content) by line-based rules.
 */
module Notes {
  import opened Wrappers
  import opened JsArray
  import opened JsString

  datatype Note = Note(
    title: string,
    date: string,
    category: string,
    body: string,
    emoji: string,
    link: string,
    content: string)

  const DefaultDate: string := "2025"
  const DefaultCategory: string := "Thoughts"
  const DateKey: string := "date:"
  const CategoryKey: string := "category:"
  const TitlePrefix: string := "# "
  const LinkPlaceholder: string := "#"

  /** `path.split('/').pop()`: the part of the path after its last `/`. */
  function LastSegment(path: string): (r: string)
    ensures '/' !in r
    ensures IsSuffixAfter(path, r, '/')
  {
    LastPieceSuffix(path, '/');
    LastPiece(path, '/')
  }

  /** The file name: the last path segment with its first `.md` removed. */
  function FileName(path: string): (r: string)
    ensures '/' !in r
  {
    ReplaceFirst(LastSegment(path), ".md", "")
  }

  /**
   * A symbol the emoji pattern matches: ©, ®, U+2000 to U+3300, or a character written
   * in UTF-16 as the surrogate pairs D83C, D83D or D83E followed by a low surrogate,
   * that is U+1F000 to U+1FBFF.
   */
  predicate IsEmojiChar(c: char)
  {
    c == '\U{00A9}' || c == '\U{00AE}' || ('\U{2000}' <= c <= '\U{3300}')
    || ('\U{1F000}' <= c <= '\U{1FBFF}')
  }

  /** The matched symbols of the file name joined, or "" when nothing matches. */
  function Emoji(fileName: string): (r: string)
    ensures |r| <= |fileName|
    ensures forall k :: 0 <= k < |r| ==> IsEmojiChar(r[k])
  {
    Filter(fileName, IsEmojiChar)
  }

  /**
   * The emoji is the in-order subsequence of the file name's symbols, each symbol appearing as
   * often as in the file name; it is "" exactly when the file name holds no symbol.
   */
  lemma EmojiSpec(fileName: string)
    ensures forall k :: 0 <= k < |Emoji(fileName)| ==> IsEmojiChar(Emoji(fileName)[k])
    ensures forall c :: c in fileName && IsEmojiChar(c) ==> c in Emoji(fileName)
    ensures forall c :: c in fileName ==>
              multiset(Emoji(fileName))[c] == if IsEmojiChar(c) then multiset(fileName)[c] else 0
    ensures IsSubsequence(Emoji(fileName), fileName)
    ensures Emoji(fileName) == "" <==> forall c :: c in fileName ==> !IsEmojiChar(c)
  {
    FilterIsSubsequence(fileName, IsEmojiChar);
    FilterCounts(fileName, IsEmojiChar);
  }

  predicate IsTitleLine(line: string)
  {
    TitlePrefix <= line
  }

  /** `line.toLowerCase().includes(key)`. */
  predicate MentionsKey(line: string, key: string)
  {
    Includes(ToLower(line), key)
  }

  /** A line kept for the body: not a `# ` line and mentioning neither key, in any case. */
  predicate IsBodyLine(line: string)
  {
    !IsTitleLine(line) && !MentionsKey(line, DateKey) && !MentionsKey(line, CategoryKey)
  }

  /** If a line mentions a key that holds a colon, the line itself holds a colon. */
  lemma MentionedKeyColon(line: string, key: string)
    requires ':' in key && MentionsKey(line, key)
    ensures ':' in line
  {
    var low := ToLower(line);
    var j := IndexOf(low, key).value;
    var k := IndexOfChar(key, ':').value;
    OccursAtChar(low, key, j, k);
    LowerColon(line[j + k]);
  }

  /** Removing the first `# ` of a title line removes its prefix. */
  lemma StripTitlePrefix(line: string)
    requires IsTitleLine(line)
    ensures ReplaceFirst(line, TitlePrefix, "") == line[2..]
  {
    assert OccursAt(line, TitlePrefix, 0);
  }

  /** The title: the first `# ` line without that prefix, trimmed; else the file name. */
  function Title(lines: seq<string>, fileName: string): (r: string)
    ensures (forall k :: 0 <= k < |lines| ==> !IsTitleLine(lines[k])) ==> r == fileName
    ensures forall i: nat :: IsFirstIndex(lines, i, IsTitleLine) ==> r == Trim(lines[i][2..])
  {
    match FindIndex(lines, IsTitleLine)
    case None => fileName
    case Some(i) =>
      StripTitlePrefix(lines[i]);
      Trim(ReplaceFirst(lines[i], TitlePrefix, ""))
  }

  /**
   * `line.split(':')[1].trim()`, for a line that holds a colon: the text between the first
   * and the second colon (or the end of the line), trimmed.
   */
  function AfterFirstColon(line: string): (r: string)
    requires ':' in line
    ensures r == Trim(Before(After(line, ':'), ':'))
  {
    SplitPieces(line, ':');
    Trim(Split(line, ':')[1])
  }

  /** `lines[i]` is the first line whose lower-cased text contains `key`. */
  predicate IsFirstKeyLine(lines: seq<string>, i: nat, key: string)
  {
    i < |lines| && MentionsKey(lines[i], key) && forall j :: 0 <= j < i ==> !MentionsKey(lines[j], key)
  }

  /**
   * A metadata field: the value after the first colon of the first line whose lower-cased
   * text contains `key`, or `default` when no line does. Such a line always holds a colon,
   * so the value is always defined.
   */
  function Field(lines: seq<string>, key: string, default: string): (r: string)
    requires ':' in key
    ensures (forall k :: 0 <= k < |lines| ==> !MentionsKey(lines[k], key)) ==> r == default
    ensures forall i: nat :: IsFirstKeyLine(lines, i, key) ==>
              ':' in lines[i] && r == AfterFirstColon(lines[i])
  {
    var isKeyLine := l => MentionsKey(l, key);
    assert forall i: nat :: IsFirstKeyLine(lines, i, key) ==> IsFirstIndex(lines, i, isKeyLine);
    match FindIndex(lines, isKeyLine)
    case None => default
    case Some(i) =>
      MentionedKeyColon(lines[i], key);
      AfterFirstColon(lines[i])
  }

  /** The lines kept for the body, before joining. */
  function BodyLines(lines: seq<string>): (r: seq<string>)
  {
    Filter(lines, IsBodyLine)
  }

  /**
   * The kept lines are a subsequence of the content lines, in order; none of them is a
   * title or metadata line, and every other line is kept as often as it occurs, repeated
   * blank lines included.
   */
  lemma BodyLinesSpec(lines: seq<string>)
    ensures IsSubsequence(BodyLines(lines), lines)
    ensures forall k :: 0 <= k < |BodyLines(lines)| ==>
              var l := BodyLines(lines)[k];
              !IsTitleLine(l) && !MentionsKey(l, DateKey) && !MentionsKey(l, CategoryKey)
    ensures forall l :: l in lines && IsBodyLine(l) ==> l in BodyLines(lines)
    ensures forall l :: l in lines && !IsBodyLine(l) ==> l !in BodyLines(lines)
    ensures forall l :: l in lines ==>
              multiset(BodyLines(lines))[l] == if IsBodyLine(l) then multiset(lines)[l] else 0
  {
    FilterIsSubsequence(lines, IsBodyLine);
    FilterCounts(lines, IsBodyLine);
  }

  /** The body lines of consecutive blocks of lines are the body lines of each block, in order. */
  lemma BodyLinesConcat(a: seq<string>, b: seq<string>)
    ensures BodyLines(a + b) == BodyLines(a) + BodyLines(b)
  {
    FilterConcat(a, b, IsBodyLine);
  }

  /** The body: the kept lines joined with newlines, then trimmed; it neither starts nor ends with white space. */
  function Body(lines: seq<string>): (r: string)
    ensures r != [] ==> !IsSpace(r[0]) && !IsSpace(r[|r| - 1])
  {
    Trim(Join(BodyLines(lines), "\n"))
  }

  /** The note record built from one markdown file: its raw text is kept unchanged, its link is the placeholder. */
  function ParseNote(path: string, content: string): (r: Note)
    ensures r.content == content && r.link == LinkPlaceholder
    ensures '/' !in r.emoji
  {
    var fileName := FileName(path);
    var lines := Split(content, '\n');
    EmojiSpec(fileName);
    Note(
      Title(lines, fileName),
      Field(lines, DateKey, DefaultDate),
      Field(lines, CategoryKey, DefaultCategory),
      Body(lines),
      Emoji(fileName),
      LinkPlaceholder,
      content)
  }

  /** The file name is the last path segment with the first `.md` cut out, if there is one. */
  lemma FileNameSpec(path: string)
    ensures var seg := LastSegment(path);
      && ((forall j: nat :: !OccursAt(seg, ".md", j)) ==> FileName(path) == seg)
      && (forall i: nat :: OccursAt(seg, ".md", i) && (forall j: nat :: j < i ==> !OccursAt(seg, ".md", j)) ==>
            FileName(path) == seg[..i] + seg[i + 3..])
  {
    var seg := LastSegment(path);
    assert FileName(path) == ReplaceFirst(seg, ".md", "");
  }

  /** The title of a parsed note is the first `# ` line without its prefix, else the file name. */
  lemma ParseNoteTitle(path: string, content: string)
    ensures var r, lines := ParseNote(path, content), Split(content, '\n');
      && ((forall k :: 0 <= k < |lines| ==> !IsTitleLine(lines[k])) ==> r.title == FileName(path))
      && (forall i: nat :: IsFirstIndex(lines, i, IsTitleLine) ==> r.title == Trim(lines[i][2..]))
  {
  }

  /** With no line mentioning `date:`, a parsed note's date is "2025". */
  lemma ParseNoteDateDefault(path: string, content: string)
    requires forall k :: 0 <= k < |Split(content, '\n')| ==> !MentionsKey(Split(content, '\n')[k], DateKey)
    ensures ParseNote(path, content).date == DefaultDate
  {
  }

  /** Otherwise its date is read from the first line that mentions `date:`, which holds a colon. */
  lemma ParseNoteDateFound(path: string, content: string, i: nat)
    requires IsFirstKeyLine(Split(content, '\n'), i, DateKey)
    ensures var lines := Split(content, '\n');
      ':' in lines[i] && ParseNote(path, content).date == AfterFirstColon(lines[i])
  {
    var lines := Split(content, '\n');
    assert ParseNote(path, content).date == Field(lines, DateKey, DefaultDate);
  }

  /** With no line mentioning `category:`, a parsed note's category is "Thoughts". */
  lemma ParseNoteCategoryDefault(path: string, content: string)
    requires forall k :: 0 <= k < |Split(content, '\n')| ==> !MentionsKey(Split(content, '\n')[k], CategoryKey)
    ensures ParseNote(path, content).category == DefaultCategory
  {
  }

  /** Otherwise its category is read from the first line that mentions `category:`, which holds a colon. */
  lemma ParseNoteCategoryFound(path: string, content: string, i: nat)
    requires IsFirstKeyLine(Split(content, '\n'), i, CategoryKey)
    ensures var lines := Split(content, '\n');
      ':' in lines[i] && ParseNote(path, content).category == AfterFirstColon(lines[i])
  {
    var lines := Split(content, '\n');
    assert ParseNote(path, content).category == Field(lines, CategoryKey, DefaultCategory);
  }

  /**
   * The body of a parsed note is the trimmed, newline-joined subsequence of the lines that
   * are neither title nor metadata lines, each kept as often as it occurs, and its emoji comes
   * from the file name.
   */
  lemma ParseNoteBody(path: string, content: string)
    ensures var r, lines := ParseNote(path, content), Split(content, '\n');
      && r.body == Trim(Join(BodyLines(lines), "\n"))
      && IsSubsequence(BodyLines(lines), lines)
      && (forall l :: l in lines ==>
            multiset(BodyLines(lines))[l] == if IsBodyLine(l) then multiset(lines)[l] else 0)
      && r.emoji == Emoji(FileName(path))
  {
    BodyLinesSpec(Split(content, '\n'));
  }
}
