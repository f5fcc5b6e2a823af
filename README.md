# faint-webdev-portfolio — a verified model of its logic

The portfolio is a React single-page site. Most of it is layout, but five pieces of it hold
logic, and this project models those pieces in Dafny and proves what they promise:

- **Markdown notes** (`src/data/notes.js`). Each markdown file's path and raw text become a note
  record. The record holds a title, date, category, body, emoji, link and the raw content, all
  found by line-based rules. Modelled as pure functions in module `Notes`. The JavaScript string
  and array built-ins it chains are in `JsString` and `JsArray`.
- **The ASCII cat** (`src/components/CatAnimation.jsx`). A p5 sketch with a cat that runs a
  five-state machine (idle, walk, hunt, sit, sleep) and bouncing "toys" spawned by clicks.
  Module `CatAnimation` has the following parts:
  - A pure step function per rule, put together into `Step`. Lemmas over whole runs are proved
    about it.
  - The classes `Toy`, `ASCIICat` and `Sketch`, with the source's fields. Their methods are
    proved equal to the step functions.
  - `UpdateToys`, the reverse prune loop over the toy list.
- **The project card carousel** (`src/components/ProjectCard.jsx`). A cyclic image index with
  previous, next and dot controls, plus the rules for which media block shows. Module
  `ProjectCard`.
- **The notes accordion** (`src/components/Tabs/NotesTab.jsx`). One optional expanded index.
  Module `NotesTab`.
- **The home page** (`src/pages/Home.jsx`). The two-value tab selection, the count badge and the
  contact anchors. Modules `Home` and `ContactLink`. `ContactLink` also models
  `src/components/ProfileHeader.jsx`, which repeats the contact rule. The page's `notes` list
  comes from `src/data/content.js`. Its entries are `{title, date, link}` records
  (`Home.NoteEntry`), not the parsed notes of `notes.js`.

Coordinates, velocities and the cat's rest timer are Dafny `real`. The speech timer
`emojiTimer`, the frame counter and a toy's `life` only ever change by whole steps and are `int`.
Some inputs of a cat tick are read from p5 and cannot be modelled here: the pointer, the two
distances, the two unit directions (which need a square root), the random numbers and
`frameCount`. They become parameters (`Senses`, `Draws`). So do the
random values of a click (the toy velocity, the glyph pick, the speech roll and the phrase pick).

The model keeps these details of `src/components/CatAnimation.jsx`:

- **Order of a toy update.** A toy moves by its old velocity before gravity is added, and the
  floor bounce damps the velocity after gravity.
- **Rest timer.** `p.random(60, 120)` is a real number, not a whole number of ticks.
- **Facing.** `facingRight` is set to `dir.x > 0` on every step, so a purely vertical step faces
  left.
- **Walls.** A toy's horizontal velocity flips only when its new x is strictly outside
  `[0, width]`.
- **Hunt exit.** A hunting cat that loses the pointer goes to idle, not back to walking.

In the carousel, an `images` array is truthy even when empty. So a project with `images: []` and
no demo renders the slideshow block without navigation, and the model keeps that.

The bare e-mail contact is not given a `mailto:` target. Its `href` is the address behind
`https://` (`ContactLink.EmailContactAnchor`). The model states this as the code does it.

## Model

| member | source | states |
|---|---|---|
| JsArray.FindIndex | src/data/notes.js:16 | `find`: the result is the first index whose element satisfies the predicate, and it is absent exactly when no element does |
| JsArray.Filter | src/data/notes.js:28-33 | `filter`: every kept element satisfies the predicate and comes from the input, and every input element that satisfies it is kept |
| JsArray.FilterCounts | src/data/notes.js:28-33 | `filter` keeps every occurrence: an element satisfying the predicate appears as often as in the input, any other not at all |
| JsArray.FilterConcat | src/data/notes.js:28-33 | filtering a concatenation is the concatenation of the filtered parts |
| JsArray.FilterSingle | src/data/notes.js:28-33 | filtering one element keeps it exactly when it satisfies the predicate; with `FilterConcat` this fixes the result entirely |
| JsArray.FilterIsSubsequence | src/data/notes.js:28-33 | the filtered lines are a subsequence of the input, in the original order |
| JsArray.Join | src/data/notes.js:34 | `join`: the pieces with the separator between each adjacent pair; `JsString.SplitJoin` proves it undoes `split` |
| JsString.IndexOf | src/data/notes.js:20 | `indexOf`: the pattern occurs at the result and at no earlier position, and the result is absent exactly when the pattern occurs nowhere |
| JsString.Includes | src/data/notes.js:20 | `includes` holds exactly when the pattern occurs at some position |
| JsString.ReplaceFirst | src/data/notes.js:6 | `replace` with a string pattern: with no occurrence the text is unchanged; otherwise only the first occurrence is replaced |
| JsString.ReplaceAbsent | src/data/notes.js:6 | a pattern holding a character the text lacks leaves the text unchanged |
| JsString.IndexOfChar | src/data/notes.js:13 | the first position of a character, absent exactly when the character does not occur |
| JsString.Split | src/data/notes.js:13 | `split` on a character: at least one piece, no piece holds the separator, one piece exactly when the separator is absent, and the last piece is the text after the last separator |
| JsString.SplitJoin | src/data/notes.js:13 | joining the pieces of a split with the separator gives back the original text |
| JsString.LastPieceSuffix | src/data/notes.js:6 | the last piece is a suffix of the text, preceded by the separator unless it is the whole text |
| JsString.Before | src/data/notes.js:21 | the text before the first separator: a separator-free prefix followed by the separator or the end |
| JsString.After | src/data/notes.js:21 | the text after the first separator: a suffix preceded by that separator, with no separator before it |
| JsString.SplitPieces | src/data/notes.js:21 | piece 0 of a split is the text before the first separator; when the separator occurs, piece 1 is the text between the first and the second separator |
| JsString.Trim | src/data/notes.js:17 | `trim`: a slice of the text with only white space cut from both ends; it is empty exactly when the text is all white space, and otherwise it starts and ends with a non-space |
| JsString.TrimIdempotent | src/data/notes.js:35 | trimming twice is the same as trimming once |
| JsString.ToLower | src/data/notes.js:20 | `toLowerCase`: same length, each ASCII capital lowered, every other character kept |
| JsString.LowerColon | src/data/notes.js:20 | lower-casing never produces a colon from anything but a colon |
| Notes.LastSegment | src/data/notes.js:6 | `split('/').pop()`: the path's suffix after its last `/`, holding no `/` |
| Notes.FileName | src/data/notes.js:6 | the file name holds no `/` |
| Notes.FileNameSpec | src/data/notes.js:6 | the file name is the last segment with its first `.md` cut out, or the segment itself when it holds no `.md` |
| Notes.IsEmojiChar | src/data/notes.js:9 | the characters the emoji pattern matches: ©, ®, U+2000 to U+3300, and the supplementary characters whose surrogate pairs it lists |
| Notes.Emoji | src/data/notes.js:9-10 | the matched symbols of the file name, joined: only symbols, no longer than the file name |
| Notes.EmojiSpec | src/data/notes.js:9-10 | the emoji is the in-order subsequence of the file name's symbol characters: only symbols, every symbol as often as it occurs, "" exactly when there are none |
| Notes.MentionedKeyColon | src/data/notes.js:20-21 | a line that mentions a key containing a colon, ignoring case, holds a colon itself, so `split(':')[1]` is defined |
| Notes.StripTitlePrefix | src/data/notes.js:17 | replacing the first `# ` of a title line removes exactly its two-character prefix |
| Notes.Title | src/data/notes.js:16-17 | the title is the first `# ` line without its prefix, trimmed, or the file name when no line starts with `# ` |
| Notes.AfterFirstColon | src/data/notes.js:21 | `split(':')[1].trim()` is the trimmed text between the first and the second colon |
| Notes.Field | src/data/notes.js:20-25 | a metadata field is the default when no line mentions the key; otherwise it is read after the colon of the first line that mentions it, and that line holds a colon |
| Notes.BodyLinesSpec | src/data/notes.js:28-33 | the body lines are a subsequence of the content lines, none is a `# `, `date:` or `category:` line, and every other line is kept as often as it occurs, repeated blank lines included |
| Notes.BodyLinesConcat | src/data/notes.js:28-33 | the body lines of two consecutive blocks of lines are those of each block, in order |
| Notes.Body | src/data/notes.js:28-35 | the body is the trimmed newline-join of the body lines, so it neither starts nor ends with white space |
| Notes.ParseNote | src/data/notes.js:37-45 | the record's content is the raw input unchanged, its link is `#`, and its emoji holds no `/` |
| Notes.ParseNoteTitle | src/data/notes.js:16-17 | a parsed note's title is its first `# ` line without the prefix, trimmed, else the file stem |
| Notes.ParseNoteDateDefault | src/data/notes.js:20-21 | with no line mentioning `date:` in any case, the date is "2025" |
| Notes.ParseNoteDateFound | src/data/notes.js:20-21 | otherwise the date is taken after the first colon of the first such line, which always holds a colon |
| Notes.ParseNoteCategoryDefault | src/data/notes.js:24-25 | with no line mentioning `category:` in any case, the category is "Thoughts" |
| Notes.ParseNoteCategoryFound | src/data/notes.js:24-25 | otherwise the category is taken after the first colon of the first such line, which always holds a colon |
| Notes.ParseNoteBody | src/data/notes.js:28-35 | the body is the trim of the kept lines joined with newlines, those lines are a subsequence of the content lines holding every body line as often as it occurs, and the emoji comes from the file name |
| CatAnimation.Spawn | src/components/CatAnimation.jsx:58-68 | the new cat sits idle at (width / 2, height − 50), targets its own position, faces right, has frame 0, rest timer 0 and no speech text or speech timer, and meets the per-tick invariant |
| CatAnimation.IdleRule | src/components/CatAnimation.jsx:75-82 | a pointer nearer than 150 starts a walk to the pointer; otherwise a roll below 0.01 starts a walk to a floor point at height − 50; otherwise nothing changes; the cat never moves |
| CatAnimation.DrawnRanges | src/components/CatAnimation.jsx:79-87 | with draws in p5's ranges, an arriving cat's rest timer lies in [60, 120), and a wander target's x lies in [50, width − 100), or in [width − 100, 50) when p5 swaps the bounds of a canvas narrower than 150 |
| CatAnimation.DrawsExist | src/components/CatAnimation.jsx:81 | every canvas width admits draws in those ranges |
| CatAnimation.Animate | src/components/CatAnimation.jsx:92 | the frame counter stays in {0, 1}, flips on ticks that are multiples of the period, and is unchanged on all others |
| CatAnimation.WalkRule | src/components/CatAnimation.jsx:83-94 | on arrival (distance below 10) the cat stays put with its frame and facing, sets the rest timer, and picks sit for a roll below 0.3, else idle; otherwise it steps 2 units along the direction, faces its sign and advances the frame every 8th tick; a pointer nearer than 80 overrides either outcome with hunt |
| CatAnimation.HuntRule | src/components/CatAnimation.jsx:95-105 | beyond 200 the cat turns idle with nothing else changed; otherwise it targets the pointer, steps 3.5 units toward it, faces that way and advances the frame every 5th tick |
| CatAnimation.RestRule | src/components/CatAnimation.jsx:106-109 | sit and sleep lower the timer by exactly 1, keep the position, target, frame, facing and speech, and turn idle exactly when the new timer is at most 0 or the pointer is nearer than 100 |
| CatAnimation.Behave | src/components/CatAnimation.jsx:74-109 | the state machine never touches the speech, never enters sleep, and keeps the frame in {0, 1} |
| CatAnimation.Constrain | src/components/CatAnimation.jsx:114-115 | p5's `constrain`: the result lies in the bounds, equals a value already inside, and is the nearer bound otherwise; with crossed bounds (a canvas narrower than 100) the result is the lower bound |
| CatAnimation.Step | src/components/CatAnimation.jsx:70-116 | after every update 0 ≤ x ≤ width − 100 and 10 ≤ y ≤ height − 40 (given width ≥ 100 and height ≥ 50), the speech timer drops by 1 when positive and stays otherwise, and the invariant is kept |
| CatAnimation.Speak | src/components/CatAnimation.jsx:149-152 | `say` sets the text and a 90-tick speech timer and leaves the state, position, target, frame, facing and rest timer alone |
| CatAnimation.RunWellformed | src/components/CatAnimation.jsx:70-116 | every sequence of updates and speech requests keeps the cat out of sleep, its frame in {0, 1} and its speech timer non-negative |
| CatAnimation.SleepUnreachable | src/components/CatAnimation.jsx:61 | from the spawned cat, no sequence of events reaches `sleep` |
| CatAnimation.SpriteOf | src/components/CatAnimation.jsx:124-128 | the heart sprite shows exactly for sit with a speech timer above 30; sit, sleep, pounce and walk sprites exactly for their states otherwise |
| CatAnimation.PoseIndex | src/components/CatAnimation.jsx:137 | the drawn pose is a valid index into the chosen sprite set, and is 0 for every one-frame set |
| CatAnimation.Mirrored | src/components/CatAnimation.jsx:132 | the sprite is mirrored exactly when the cat faces left while walking or hunting |
| CatAnimation.ShowsSpeech | src/components/CatAnimation.jsx:143 | the speech text is drawn exactly while its timer is positive and the cat is not sitting |
| CatAnimation.DisplayExclusions | src/components/CatAnimation.jsx:128-143 | while the heart shows, no speech text is drawn and the sprite is not mirrored; a mirrored sprite is a walk or pounce sprite |
| CatAnimation.ToyStep | src/components/CatAnimation.jsx:41-51 | one toy update lowers its life by exactly 1 and keeps its glyph |
| CatAnimation.ToyStepSpec | src/components/CatAnimation.jsx:42-49 | a toy never ends below the floor line; it is pinned there with vertical velocity −0.6·(vy + 0.05) exactly when its move crosses it; its horizontal velocity is negated exactly when its new x is outside the walls and kept otherwise |
| CatAnimation.FloorBounceDamps | src/components/CatAnimation.jsx:45-47 | a floor hit reverses the vertical velocity and shrinks its magnitude |
| CatAnimation.ToyLifeAfter | src/components/CatAnimation.jsx:50 | after k updates a toy has k less life and the same glyph |
| CatAnimation.ToyLifetime | src/components/CatAnimation.jsx:200-204 | a toy with life L survives exactly the next L − 1 draws and is removed on the L-th, so a toy born with 300 is drawn in exactly 300 frames |
| CatAnimation.Toy.constructor | src/components/CatAnimation.jsx:34-40 | a new toy sits at the click point with the drawn velocity and glyph and 300 ticks of life |
| CatAnimation.Toy.Update | src/components/CatAnimation.jsx:41-51 | the toy's new fields are one `ToyStep` of its old ones |
| CatAnimation.ASCIICat.constructor | src/components/CatAnimation.jsx:58-68 | the new cat's fields are the spawned cat, and the cat invariant holds |
| CatAnimation.ASCIICat.RunRule | src/components/CatAnimation.jsx:74-109 | the state-machine branch of `update` changes the fields exactly as `Behave` says |
| CatAnimation.ASCIICat.Update | src/components/CatAnimation.jsx:70-116 | `update` changes the fields exactly as `Step` says and keeps the invariant |
| CatAnimation.ASCIICat.Say | src/components/CatAnimation.jsx:149-152 | `say` changes the fields exactly as `Speak` says and keeps the invariant |
| CatAnimation.Survivors | src/components/CatAnimation.jsx:200-204 | the toys whose state after the update has life left, in their order |
| CatAnimation.SurvivorsMembers | src/components/CatAnimation.jsx:203 | every survivor is one of the toys, and every toy left with life survives |
| CatAnimation.SurvivorsDistinct | src/components/CatAnimation.jsx:203 | the survivors of distinct toys are distinct, and a toy survives only when it has life left |
| CatAnimation.SurvivorsAt | src/components/CatAnimation.jsx:203 | the survivors of a suffix are the first toy of the suffix if it lives, followed by the survivors of the rest |
| CatAnimation.PruneStep | src/components/CatAnimation.jsx:203 | one `splice(i, 1)` of the reverse loop turns the list "first i + 1 toys, then survivors after i" into "first i toys, then survivors from i", and the toy at i is the one the loop updated |
| CatAnimation.Stepped | src/components/CatAnimation.jsx:201 | one update of every toy state, position by position |
| CatAnimation.UpdateAt | src/components/CatAnimation.jsx:201 | updating the toy at i changes that toy by one step and no other toy of the list |
| CatAnimation.UpdateToys | src/components/CatAnimation.jsx:200-204 | the reverse loop updates every toy exactly once and leaves exactly the toys with life left after their update, in their order and distinct |
| CatAnimation.Inside | src/components/CatAnimation.jsx:208 | a press counts only strictly inside (0, width) × (0, height) |
| CatAnimation.Sketch.constructor | src/components/CatAnimation.jsx:155-159 | `setup` creates the spawned cat and no toys |
| CatAnimation.Sketch.Draw | src/components/CatAnimation.jsx:197-204 | `draw` steps the cat once, updates each live toy once, and keeps exactly the survivors in order |
| CatAnimation.Sketch.MousePressed | src/components/CatAnimation.jsx:207-211 | a press strictly inside (0, width) × (0, height) appends exactly one fresh toy at the pointer, and the cat speaks when the roll is below 0.3; any other press changes nothing |
| ProjectCard.MediaRules | src/components/ProjectCard.jsx:57 | the demo and the slideshow never render together, and the navigation renders only inside the slideshow with at least 2 images |
| ProjectCard.NextIndex | src/components/ProjectCard.jsx:10 | `(prev + 1) % n` stays in [0, n), moves up by one, and wraps n − 1 to 0 |
| ProjectCard.PrevIndex | src/components/ProjectCard.jsx:15 | `(prev − 1 + n) % n` stays in [0, n), moves down by one, and wraps 0 to n − 1 |
| ProjectCard.PrevNextInverse | src/components/ProjectCard.jsx:10-15 | previous undoes next and next undoes previous for every valid index |
| ProjectCard.NextTimesWithinCycle | src/components/ProjectCard.jsx:10 | k ≤ n presses of next from i land on i + k, wrapped once past the end |
| ProjectCard.FullCycle | src/components/ProjectCard.jsx:10 | n presses of next return to the starting image |
| ProjectCard.NextTimesAdd | src/components/ProjectCard.jsx:10 | a presses then b presses equal a + b presses |
| ProjectCard.NextTimesPeriodic | src/components/ProjectCard.jsx:10 | the index after k presses depends only on k modulo n |
| ProjectCard.Dots | src/components/ProjectCard.jsx:96-109 | one dot per image, each active exactly when it equals the current index |
| ProjectCard.ExactlyOneActive | src/components/ProjectCard.jsx:104 | exactly one dot is active for a valid index, none otherwise |
| ProjectCard.DisplayedPosition | src/components/ProjectCard.jsx:91 | the counter reads a position in [1, n], one above the index |
| ProjectCard.ProjectCardView.constructor | src/components/ProjectCard.jsx:6 | the index starts at 0 |
| ProjectCard.ProjectCardView.NextImage | src/components/ProjectCard.jsx:8-11 | the next button moves the index by `NextIndex` and keeps it valid |
| ProjectCard.ProjectCardView.PrevImage | src/components/ProjectCard.jsx:13-16 | the previous button moves the index by `PrevIndex` and keeps it valid |
| ProjectCard.ProjectCardView.SelectImage | src/components/ProjectCard.jsx:99-102 | dot `idx` sets the index to `idx` |
| ProjectCard.RupptechSlideshow | src/data/content.js:28-40 | the five-image project without a demo shows the slideshow with navigation and no demo |
| NotesTab.Toggle | src/components/Tabs/NotesTab.jsx:9 | toggling collapses exactly the expanded row, and otherwise makes the clicked row the expanded one |
| NotesTab.ExpandedRows | src/components/Tabs/NotesTab.jsx:22 | at most one row renders its body, namely the one whose index equals `expandedIndex` |
| NotesTab.ToggleExpandsOnlyClicked | src/components/Tabs/NotesTab.jsx:9 | after a click the clicked row is the only one expanded, unless it was already expanded, in which case none is |
| NotesTab.ToggleTwice | src/components/Tabs/NotesTab.jsx:9 | two clicks on a row restore the state exactly when that row or no row was expanded; from none they give none |
| NotesTab.ClicksLast | src/components/Tabs/NotesTab.jsx:9 | after any clicks, either no row or the last clicked row is expanded |
| NotesTab.RepeatedClicks | src/components/Tabs/NotesTab.jsx:9 | k clicks on one row from the start leave it expanded exactly when k is odd |
| NotesTab.EmptyMessageWhenNoRows | src/components/Tabs/NotesTab.jsx:65-67 | "No public notes yet." renders exactly when no row does, that is when the notes are missing or empty |
| NotesTab.NotesTabView.constructor | src/components/Tabs/NotesTab.jsx:6 | initially no note is expanded |
| NotesTab.NotesTabView.ToggleExpand | src/components/Tabs/NotesTab.jsx:8-10 | the click handler sets the state to `Toggle` of the old state |
| Home.ExactlyOnePanel | src/pages/Home.jsx:161-210 | for both values the tab buttons can set, exactly one of the overview and notes panels renders |
| Home.BadgeCount | src/pages/Home.jsx:153 | `notes?.length` is defined exactly when the notes are, and then it is their number |
| Home.TabButtons | src/pages/Home.jsx:141-154 | two buttons, each active exactly when its panel shows; only the notes button has a badge, shown exactly when the notes are defined and reading their number |
| Home.EmptyNotesBadge | src/pages/Home.jsx:261 | an empty notes list still shows a badge reading 0, next to the empty message; missing notes show no badge |
| Home.HomePage.constructor | src/pages/Home.jsx:16 | `activeTab` starts as `overview` |
| Home.HomePage.SelectTab | src/pages/Home.jsx:141-154 | each tab button sets `activeTab` to its own value |
| Home.HomePage.Buttons | src/pages/Home.jsx:148-153 | the page renders two buttons, and the notes one is active exactly on the notes tab |
| Home.HomePage.ContactAnchors | src/pages/Home.jsx:85-97 | one anchor per contact, each with a target that starts with `http` |
| ContactLink.Href | src/pages/Home.jsx:88 | a link starting with `http` is its own target; any other link gets `https://` in front; either way the target starts with `http` |
| ContactLink.HrefIdempotent | src/components/ProfileHeader.jsx:69 | normalising a normalised target changes nothing |
| ContactLink.IconFor | src/pages/Home.jsx:94 | the mail icon is chosen exactly for the `email` label |
| ContactLink.LinkText | src/pages/Home.jsx:95 | the shown text drops characters only: it is no longer than the link and holds only its characters |
| ContactLink.ToAnchor | src/components/ProfileHeader.jsx:69-76 | an anchor's target, icon and text are those three rules applied to its contact |
| ContactLink.Anchors | src/pages/Home.jsx:85 | `contact.map(...)`: one anchor per contact, in order |
| ContactLink.NoOccurrenceAt | src/components/ProfileHeader.jsx:76 | a pattern cannot start at a character other than its first |
| ContactLink.ReplaceKeepsPrefix | src/components/ProfileHeader.jsx:76 | removing the first occurrence keeps a prefix in which no occurrence starts |
| ContactLink.NoSecureSchemeInHttp | src/components/ProfileHeader.jsx:76 | no `https://` starts inside a leading `http://` |
| ContactLink.NoMailSchemeInHttp | src/components/ProfileHeader.jsx:76 | no `mailto:` starts inside a leading `http://` |
| ContactLink.SchemelessLinkShownAsIs | src/pages/Home.jsx:95 | a link without a colon is shown as written |
| ContactLink.HttpLinkKept | src/components/ProfileHeader.jsx:69-76 | a `http://` link is not upgraded: it is its own target and its text still starts with `http://` |
| ContactLink.HttpsLinkText | src/components/ProfileHeader.jsx:76 | every `https://` link is its own target and is shown without that scheme, with the first later `mailto:` cut out, so exactly as the rest when the rest holds no `mailto:` (ports and queries included) |
| ContactLink.MailtoLink | src/components/ProfileHeader.jsx:69-76 | every `mailto:` link gets `https://` in front of its target, and when it holds no `https://` it is shown without `mailto:` (later colons included) |
| ContactLink.EmailContactAnchor | src/data/content.js:79 | the bare e-mail contact gets the mail icon and is shown as written, and its target is the address behind `https://` |
| ContactLink.GithubContactAnchor | src/data/content.js:80 | the GitHub contact keeps its target, gets the link icon and is shown without `https://` |

## Left out

- `import.meta.glob` (src/data/notes.js:2) gathers the files at build time. The model takes one path and its content; the loading is file I/O.
- Notes.IsEmojiChar: the emoji pattern works on UTF-16 code units. The model takes it per Unicode code point: ©, ®, U+2000 to U+3300, and U+1F000 to U+1FBFF, the characters whose surrogate pairs the pattern lists. Lone surrogates, which a Dafny string cannot hold, are not modelled.
- JsString.ToLower: lowers the ASCII capitals only, where JavaScript uses full Unicode case mapping. No non-ASCII character lowers to a letter or colon of `date:` or `category:`, but a character whose lower case is longer than one character is not modelled.
- The drawing itself (canvas, fonts, colours, the theme lookup, scenery, text layout; src/components/CatAnimation.jsx:118-146 and 162-195) is left out. Only the choice of sprite, pose, mirroring and speech display is modelled.
- `p.random`, `p.dist`, `mag` and `normalize` are left out, because they need a random source and square roots. Their results are parameters. The model does not check that the distances and unit directions agree with the positions.
- IEEE floating point is not modelled. Coordinates, velocities and the rest timer are exact reals; the speech timer, the frame counter and toy life are integers.
- Canvas creation, `windowResized` and teardown (src/components/CatAnimation.jsx:155-157 and 214-228) are host plumbing with no logic.
- The unused `particles` array (src/components/CatAnimation.jsx:12) is never read or written.
- CatAnimation.WalkRule: the drawn rest timer is taken as given. Its range [60, 120) is stated separately in `DrawnRanges`, for draws that satisfy `DrawsInRange`, which every canvas width admits (`DrawsExist`).
- `e.stopPropagation()` in the card handlers only stops event bubbling, which the model has no counterpart for.
- The motion/react animation variants, `Map.jsx`, `ModeToggle.jsx`, `StatusDot.jsx`, `FadeIn.jsx` and `OverviewTab.jsx` are layout and animation markup, or wrappers over foreign libraries.
- The markup of a note row (title, emoji, category, date, chevron) and of the home page's notes list is rendering only. What is modelled is which rows exist and which one shows its body.
- The other entries of `src/data/content.js` are static text. Only the contacts and one project serve as concrete cases.
