# Markdown-Parser, modelled in Dafny

This project models the core of the JavaScript Markdown-Parser library:

- the element record `MarkdownElement` (`Element.New`), which folds falsy metadata to `null`;
- the line builders (headings, blockquotes, rules, fenced code, images, link reference definitions, footnotes, task items, list items, tables, list markers): each has a `parse` from a line and a `build` back to a line;
- the inline converter `MarkdownUtils`, which rewrites code, strong, emphasis, strike-through and link markup into HTML and back, one regular-expression replacement after another;
- `MarkdownParser.toList`, the line-by-line tokenizer with its fence, table and list state, and `MarkdownParser.toMarkdown`, the serializer;
- `MarkdownFormatter`: options, spacing, list marker normalization, line wrapping, section sorting, slugs, the table of contents and the formatting statistics.

Each source file is one module (`Strings` and `Wrappers` hold the JavaScript string helpers and `Option`/`Result`).

- **Pure code.** Builders and regular expressions become functions on `string` (`seq<char>`), proved against the line shapes they accept.
- **Loops.** The loops of `toList`, `toMarkdown`, `_normalizeSpacing`, `_wrapText`, `_groupSections`, `_sortSections`, `_generateTableOfContents`, `_addTableOfContents` and `getFormattingStats` are methods with loops: a `while` loop in `MarkdownParser.Tokenize` (for `toList`) and `for` loops in the others. Each method is proved equal to a specification function, and the properties are proved about those functions. `format` has no loop of its own: `Formatter.Format` is a method that calls the enabled stages in order.
- **The tokenizer loop.** One round of the `toList` loop is the function `MarkdownParser.Step` on a `State` record that gathers the loop's locals (the fence, table and list flags and buffers, and the elements so far). `MarkdownParser.Classify` picks the branch of the `if` chain the round takes.
- **Runtime errors.** A JavaScript `TypeError` that the tokenizer can raise, on a table of a single row, is a `Failure(OneLineTable)` result.
- **Where the code differs from its documented design,** the model follows the code.
  - The indented-code branch of `toList` can never be taken: its test requires `insideCodeBlock`, which the branch before it has already handled (`MarkdownParser.IndentedCodeUnreachable`).
  - Every footnote line also matches the link-reference test, which runs first. Footnotes therefore come out as link references with a `^` in their name (`MarkdownParser.FootnoteBranchUnreachable`, `LinkRefBuilder.FootnoteReadsAsLinkRef`).

## Model

| member | source | states |
|---|---|---|
| Element.New | src/parser/markdown-element.js:2-11 | the element has the given type and content, and every metadata field is absent exactly when the given value is missing or falsy, otherwise equal to it |
| Element.NewIsDetermined | src/parser/markdown-element.js:2-11 | the element the constructor builds is the only one with that type, content and normalized metadata |
| Element.NewOfNormalized | src/parser/markdown-element.js:5-11 | rebuilding a normalized element from its own fields gives it back |
| Element.NoMetaAllAbsent | src/parser/markdown-element.js:5-11 | without metadata every optional field is `null` |
| Element.FalsyIsAbsent | src/parser/markdown-element.js:5-8 | level 0, checked `false` and language `""` are stored as `null` |
| HeadingBuilder.MatchAtxMeans | src/builders/heading-builder.js:6 | the `#` pattern matches exactly the lines that start with 1 to 6 hashes then whitespace; it yields the count and the rest of the line up to a line terminator |
| HeadingBuilder.MatchUnderline | src/builders/heading-builder.js:14-16 | an underline match needs a line ending in `=` or `-`; the level is 1 for `=` and 2 for `-`; the text is a prefix of the line without line terminators |
| HeadingBuilder.Parse | src/builders/heading-builder.js:4-23 | a parsed heading has a level and trimmed text content; the empty line gives `null` |
| HeadingBuilder.RoundTrip | src/builders/heading-builder.js:4-30 | for levels 1 to 6 and trimmed one-line text, parsing the built line gives the element back |
| HeadingBuilder.DeepLevelRendersAsLevelOne | src/builders/heading-builder.js:25-30 | a level above 6 is written as `# `, so it parses back as level 1 |
| HeadingBuilder.SevenHashesAreNotAtx | src/builders/heading-builder.js:6 | seven leading hashes do not form an ATX heading |
| HeadingBuilder.DoubleDashIsHeading | src/builders/heading-builder.js:14-20 | the line `--` parses as an empty level-2 heading |
| HeadingBuilder.TrailingDashIsHeading | src/builders/heading-builder.js:14-20 | any line ending in a dash, such as `x -`, is an underline heading |
| BlockquoteBuilder.Parse | src/builders/blockquote-builder.js:4-6 | the content is the line after its first character, trimmed, with no other metadata |
| BlockquoteBuilder.RoundTrip | src/builders/blockquote-builder.js:4-10 | trimmed content survives build then parse |
| BlockquoteBuilder.NestedQuoteFlattens | src/builders/blockquote-builder.js:4-10 | `>> x` parses to content `> x` and is rebuilt as `> > x` |
| HrBuilder.Parse | src/builders/hr-builder.js:4-6 | the content is the trimmed line |
| HrBuilder.RuleLineRoundTrip | src/builders/hr-builder.js:4-10 | a line of three or more `-`, `*` or `_` is rebuilt unchanged |
| HrBuilder.ParseBuildIdempotent | src/builders/hr-builder.js:4-10 | parse after build is idempotent |
| ListStartBuilder.Parse | src/builders/list-start-builder.js:4-6 | the marker element has content `LIST_START` and no metadata |
| ListStartBuilder.Build | src/builders/list-start-builder.js:8-10 | a list start renders as the empty string |
| ListEndBuilder.Parse | src/builders/list-end-builder.js:4-6 | the marker element has content `LIST_END` and no metadata |
| ListEndBuilder.Build | src/builders/list-end-builder.js:8-10 | a list end renders as the empty string |
| CodeBuilder.LangOf | src/builders/code-builder.js:5-10 | the language is one line and does not start with whitespace |
| CodeBuilder.Parse | src/builders/code-builder.js:4-15 | the content is stored verbatim; the language is the fence remainder, or absent when empty or when the tag is not a fence |
| CodeBuilder.Build | src/builders/code-builder.js:17-22 | the output is the fence line, the content, and a closing fence, separated by line feeds |
| CodeBuilder.NoFenceNoLang | src/builders/code-builder.js:7-10 | a tag that is not a fence gives no language |
| CodeBuilder.LangOfFence | src/builders/code-builder.js:8-9 | the language after a fence is read back exactly |
| CodeBuilder.RoundTrip | src/builders/code-builder.js:4-22 | a fence with a trimmed one-line language gives the content verbatim and that language, and the fence line `build` writes for the element parses to the same element |
| Definitions.MatchDefinitionMeans | src/builders/link-ref-builder.js:5 | a match splits the line into opener, a non-empty name without `]`, `]:` and the rest |
| Definitions.MatchDefinitionOf | src/builders/link-ref-builder.js:5 | every such line is matched, with exactly that name and rest |
| FootnoteBuilder.Parse | src/builders/footnote-builder.js:4-11 | a result exists exactly when the trimmed line matches `[^id]:`; the id has no `]` and the content is one line |
| FootnoteBuilder.RoundTrip | src/builders/footnote-builder.js:4-15 | for a valid id and trimmed one-line content, parse after build gives the element back |
| LinkRefBuilder.Parse | src/builders/link-ref-builder.js:4-11 | a result exists exactly when the trimmed line matches `[name]:`; the name is non-empty and has no `]` |
| LinkRefBuilder.RoundTrip | src/builders/link-ref-builder.js:4-15 | for a valid name and a non-empty trimmed one-line url, parse after build gives the element back |
| LinkRefBuilder.FootnoteReadsAsLinkRef | src/builders/link-ref-builder.js:5 | a footnote line parses as a link reference named `^id`, and that element is written back as the same line |
| ImageBuilder.Parse | src/builders/image-builder.js:4-12 | a result exists exactly when the trimmed line holds an image; it has a url and text content |
| ImageBuilder.Find | src/builders/image-builder.js:5 | a match at the start is the one found, and every match found can be written back |
| ImageBuilder.MatchWritten | src/builders/image-builder.js:5-16 | the pattern recognises exactly the parts that `build` writes |
| ImageBuilder.RoundTrip | src/builders/image-builder.js:4-17 | for writable alt text, url and title, parse after build gives the element back |
| ImageBuilder.TrailingTextIgnored | src/builders/image-builder.js:5 | text after the closing parenthesis does not change the match |
| TaskItemBuilder.ParseMeans | src/builders/task-item-builder.js:4-16 | a task line yields trimmed text; checked is true iff the box holds `x` or `X`; the level is half the indentation; a line that ends right after the box gives `null` |
| TaskItemBuilder.Build | src/builders/task-item-builder.js:18-22 | the output is twice the level in spaces, then `- [`, then `x` exactly when checked, then `] ` |
| TaskItemBuilder.RoundTrip | src/builders/task-item-builder.js:4-22 | for trimmed one-line text, parse after build gives the element back |
| TaskItemBuilder.CanonicalRebuild | src/builders/task-item-builder.js:4-22 | rebuilding a parsed line rounds its indentation down to even, turns `*` and `+` into `-`, turns `X` into `x` and trims the text |
| ListItemBuilder.MatchList | src/builders/list-item-builder.js:5 | a match yields the indentation, a marker (`-`, `*`, `+` or digits and a dot) followed by whitespace, and the rest of the line |
| ListItemBuilder.Parse | src/builders/list-item-builder.js:4-16 | a result exists exactly for list-shaped lines, and it is a list item |
| ListItemBuilder.ParseMeans | src/builders/list-item-builder.js:4-16 | a parsed item keeps a valid marker and has trimmed text; its level is the indentation width, and absent when that is zero |
| ListItemBuilder.RoundTrip | src/builders/list-item-builder.js:4-21 | for any marker and trimmed one-line text, parse after build gives the element back |
| ListItemBuilder.TabIsOneLevel | src/builders/list-item-builder.js:8-13 | a tab counts as one level of indentation |
| TableBuilder.CellsMeans | src/builders/table-builder.js:4-6 | a row gives one fewer cell than it has pipes; each cell is trimmed and free of pipes |
| TableBuilder.Parse | src/builders/table-builder.js:2-13 | the headers and aligns come from the first two lines, and each further line gives one body row |
| TableBuilder.Build | src/builders/table-builder.js:15-20 | with no body rows the output ends in a line feed after the align row |
| TableBuilder.BuildLines | src/builders/table-builder.js:15-20 | with body rows the output is the header row, the align row and one row per body row, joined by line feeds |
| TableBuilder.RowCells | src/builders/table-builder.js:4-18 | reading the cells of a written row gives the row back |
| TableBuilder.RoundTrip | src/builders/table-builder.js:2-20 | with at least one body row, parse after build gives the table back |
| TableBuilder.EmptyBodyGainsRow | src/builders/table-builder.js:2-20 | a table without body rows comes back with one empty row |
| Inline.ParseInline | src/utils/markdown-utils.js:21-23 | the legacy name is the same conversion as `parse` |
| Inline.BuildInline | src/utils/markdown-utils.js:25-27 | the legacy name is the same conversion as `build` |
| Inline.FieldEndIff | src/utils/markdown-utils.js:4-8 | a `[^c]+` group followed by a delimiter starting with `c` ends at `k` exactly when the group is non-empty, free of `c`, and the delimiter follows at `k` |
| Inline.MatchSpanIff | src/utils/markdown-utils.js:4-7 | a span matches at the start with its body ending at `k` exactly when the opener, a non-empty body without the stop character, and the closer are there |
| Inline.MatchLinkIff | src/utils/markdown-utils.js:8 | a link matches at the start with its fields ending at `k1` and `k2` exactly when the opener, a non-empty text without `]`, the middle, a non-empty url without `)`, and the closer are there |
| Inline.SpanHit | src/utils/markdown-utils.js:4-7 | a span with a valid body is replaced by the new delimiters around the same body, and the scan continues after it |
| Inline.LinkHit | src/utils/markdown-utils.js:8 | a link with a valid text and url is rewritten with the two fields swapped into the new form |
| Inline.SpanUnchanged | src/utils/markdown-utils.js:4-7 | text without the opener's first character is unchanged |
| Inline.LinkUnchanged | src/utils/markdown-utils.js:8 | text without `[` is unchanged by the link pass |
| Inline.ParseWithoutMarkup | src/utils/markdown-utils.js:2-9 | text without backticks, asterisks, tildes and `[` is unchanged |
| Inline.BuildWithoutTags | src/utils/markdown-utils.js:11-18 | text without `<` is unchanged |
| Inline.LinkParses | src/utils/markdown-utils.js:8 | `[t](u)` becomes `<a href="u">t</a>` |
| Inline.LinkBuilds | src/utils/markdown-utils.js:17 | `<a href="u">t</a>` becomes `[t](u)` for any non-empty text without `<` and non-empty url without `<` or `"` |
| Inline.LinkRoundTrip | src/utils/markdown-utils.js:2-18 | a plain link survives parse then build |
| Inline.AnchorPassesUntouched | src/utils/markdown-utils.js:13-16 | an anchor tag is not touched by the code, strong, emphasis or strike-through passes |
| Inline.StrongCodeParses | src/utils/markdown-utils.js:2-9 | text with one strong and one code span becomes the matching HTML |
| Inline.StrongCodeBuilds | src/utils/markdown-utils.js:11-18 | that HTML is converted back to the same markdown |
| Inline.StrongAndCodeRoundTrip | src/utils/markdown-utils.js:2-18 | plain text with strong and code spans survives parse then build |
| Inline.EmParses | src/utils/markdown-utils.js:2-9 | plain text with one emphasis span `*b*` becomes the same text with `<em>b</em>`: the strong pass does not take the single asterisks |
| Inline.EmBuilds | src/utils/markdown-utils.js:11-18 | that HTML is converted back to `*b*` in the same text |
| Inline.EmRoundTrip | src/utils/markdown-utils.js:2-18 | plain text with one non-empty emphasis span survives parse then build |
| Inline.DelParses | src/utils/markdown-utils.js:2-9 | plain text with one strike-through span `~~b~~` becomes the same text with `<del>b</del>` |
| Inline.DelBuilds | src/utils/markdown-utils.js:11-18 | that HTML is converted back to `~~b~~` in the same text |
| Inline.DelRoundTrip | src/utils/markdown-utils.js:2-18 | plain text with one non-empty strike-through span survives parse then build |
| Inline.Example | src/utils/markdown-utils.js:2-18 | `a **b** c` followed by a code span survives parse then build |
| Inline.NestedParses | src/utils/markdown-utils.js:4-6 | emphasis inside a code span becomes `<em>` inside `<code>` |
| Inline.NestedBuilds | src/utils/markdown-utils.js:13-15 | the code pass cannot match across the inner tag, so only the emphasis is converted back |
| Inline.NestedDoesNotRoundTrip | src/utils/markdown-utils.js:2-18 | emphasis nested in code does not survive parse then build |
| Inline.NestedExample | src/utils/markdown-utils.js:2-18 | a code span around `*x*` is a concrete instance of the nested case |
| MarkdownParser.IsHtmlMeans | src/parser/markdown-parser.js:65 | the HTML test accepts exactly the one-line strings that start with `<`, end with `>` and have a `>` and later a `</` in between |
| MarkdownParser.Tokenize | src/parser/markdown-parser.js:31-169 | the loop over all lines is the fold of that step from the initial state |
| MarkdownParser.ToList | src/parser/markdown-parser.js:18-178 | `toList` returns the specified elements, or the one-line-table failure |
| MarkdownParser.StepKeepsBrackets | src/parser/markdown-parser.js:127-158 | each line keeps the list state consistent with the list markers emitted so far |
| MarkdownParser.TokensBracketed | src/parser/markdown-parser.js:18-178 | in the output, list starts and ends alternate, and no list is left open |
| MarkdownParser.TokensBalanced | src/parser/markdown-parser.js:18-178 | the output has as many list starts as list ends |
| MarkdownParser.ItemsInsideLists | src/parser/markdown-parser.js:127-151 | every item in bracketed output comes while a list is open |
| MarkdownParser.ListClosedOnlyByFallthrough | src/parser/markdown-parser.js:153-158 | an open list is closed by a line iff that line falls through to the blank-line or paragraph branch |
| MarkdownParser.SpaceLineFallsThrough | src/parser/markdown-parser.js:39-151 | outside fences and tables, a whitespace-only line matches no block, heading or item test |
| MarkdownParser.EmptyLineIsBreak | src/parser/markdown-parser.js:153-164 | an empty line closes an open list and adds one break |
| MarkdownParser.SpaceLineIsParagraph | src/parser/markdown-parser.js:153-168 | a line of spaces is a paragraph holding the line, not a break |
| MarkdownParser.IndentedCodeUnreachable | src/parser/markdown-parser.js:52-62 | the indented-code branch is never taken |
| MarkdownParser.FootnoteBranchUnreachable | src/parser/markdown-parser.js:91-103 | the footnote branch is never taken, because the link-reference test comes first and accepts footnote lines |
| MarkdownParser.FenceBodyRun | src/parser/markdown-parser.js:52-55 | inside a fence every line up to the next fence line is buffered |
| MarkdownParser.FencedBlock | src/parser/markdown-parser.js:39-55 | a fenced block becomes one code element holding the enclosed lines joined by line feeds, tagged with the opening line |
| MarkdownParser.UnterminatedFence | src/parser/markdown-parser.js:39-55 | a fence left open buffers the rest of the input and emits nothing for it |
| MarkdownParser.TableRun | src/parser/markdown-parser.js:105-117 | consecutive pipe rows followed by a line that does not start with a pipe become one table element |
| MarkdownParser.LoneRowFails | src/parser/markdown-parser.js:105-117 | a single-row table reaches the table parser with one line and fails |
| MarkdownParser.OneLineTableFails | src/parser/markdown-parser.js:18-117 | the document consisting only of a single table row fails |
| MarkdownParser.RowContinues | src/parser/markdown-parser.js:105-116 | a row whose successor starts with a pipe is buffered and table mode opens |
| MarkdownParser.OpenTableDropsLine | src/parser/markdown-parser.js:118 | while a table is open, a line starting with a letter or digit is dropped |
| MarkdownParser.OpenTableDropsBrokenRow | src/parser/markdown-parser.js:106-118 | while a table is open, a line that starts but does not end with a pipe is dropped |
| MarkdownParser.OpenTableDropsRest | src/parser/markdown-parser.js:118 | while a table is open, plain lines and broken rows are dropped until the end |
| MarkdownParser.BrokenRowOpensTable | src/parser/markdown-parser.js:105-118 | a row followed by broken rows and plain lines leaves table mode open and drops them all |
| MarkdownParser.OpenTableSwallowsRest | src/parser/markdown-parser.js:18-178 | a concrete document whose table stays open yields no elements |
| MarkdownParser.Emit | src/parser/markdown-parser.js:185-238 | one pass of the `switch` appends the element's piece and updates the list flag |
| MarkdownParser.ToMarkdown | src/parser/markdown-parser.js:180-241 | the output is the concatenation of the pieces, trimmed, plus one line feed |
| MarkdownParser.PieceShape | src/parser/markdown-parser.js:185-238 | only list markers render as nothing; a break renders as one line feed; every other piece ends in a line feed |
| MarkdownParser.RenderAppend | src/parser/markdown-parser.js:184-239 | rendering distributes over concatenation |
| MarkdownParser.MarkerIsInvisible | src/parser/markdown-parser.js:228-234 | inserting a list marker anywhere does not change the rendering |
| MarkdownParser.OutputShape | src/parser/markdown-parser.js:240 | the output is a lone line feed, or it starts with a non-space character and ends in a non-space character followed by one line feed |
| Formatter.Configure | src/utils/formatter.js:10-19 | each of the five options is the given value when the key is given, and otherwise its default: 80, true, true, false, false |
| Formatter.NormalizeSpacing | src/utils/formatter.js:53-68 | the loop computes the spaced sequence |
| Formatter.SpacingBetween | src/utils/formatter.js:56-99 | between consecutive elements, exactly one break is inserted unless the pair is exempt, and then nothing is |
| Formatter.SpacedLayout | src/utils/formatter.js:56-65 | every input element keeps its order, shifted by the breaks inserted before it |
| Formatter.SpacedEnds | src/utils/formatter.js:56-65 | the last element stays last, and fewer than twice as many elements come out |
| Formatter.NormalizeListMarkers | src/utils/formatter.js:103-122 | each element is normalized in place and the length is kept |
| Formatter.NormalizeItemEffect | src/utils/formatter.js:104-120 | a list item keeps its content and level; `*` and `+` become `-`, other markers stay; all other metadata is dropped; other elements are untouched |
| Formatter.NoStarOrPlusLeft | src/utils/formatter.js:108-110 | no list item keeps a `*` or `+` marker |
| Formatter.NormalizeListMarkersIdempotent | src/utils/formatter.js:103-122 | normalizing twice equals normalizing once |
| Formatter.WrapText | src/utils/formatter.js:135-153 | the greedy loop computes the specified wrapping |
| Formatter.PackIsGood | src/utils/formatter.js:143-151 | every line starts with a non-empty word and holds no space, and it fits the limit unless it is a single word |
| Formatter.PackIsGreedy | src/utils/formatter.js:143-151 | a line is pushed only when the next word would make it longer than the limit; a line pushed by an empty word is already at the limit |
| Formatter.WrapIsGreedy | src/utils/formatter.js:135-153 | each wrapped line ends only because the first word of the next line would not fit on it |
| Formatter.PackKeepsWords | src/utils/formatter.js:139-151 | the non-empty words come out in the same order |
| Formatter.WrapLinesBounded | src/utils/formatter.js:139-152 | every line is non-empty and within the limit, unless it is a single word longer than the limit |
| Formatter.WrapTextSpec | src/utils/formatter.js:135-153 | empty or short text is unchanged; otherwise the result joins bounded lines by line feeds and keeps the non-empty words |
| Formatter.WrapLongLines | src/utils/formatter.js:125-133 | each element is wrapped in place and the length is kept |
| Formatter.WrapLongLinesEffect | src/utils/formatter.js:126-131 | only text paragraphs change, and a short paragraph keeps its text |
| Formatter.SectionName | src/utils/formatter.js:209-221 | a section name is `other` or a preferred name other than `title` |
| Formatter.GroupSections | src/utils/formatter.js:184-207 | the loop computes the specified grouping |
| Formatter.MergeKeeps | src/utils/formatter.js:189-191 | flushing a run adds exactly its elements to the sections |
| Formatter.GroupedKeeps | src/utils/formatter.js:184-207 | the sections hold exactly the input elements, under distinct names, none of them `title` |
| Formatter.SortSections | src/utils/formatter.js:156-182 | the loops compute the specified sorted sequence |
| Formatter.SortedPermutes | src/utils/formatter.js:156-182 | sorting is a permutation of the input |
| Formatter.TitleNeverFound | src/utils/formatter.js:173-175 | the section `title` is never present |
| Formatter.NoHeadingKeepsOrder | src/utils/formatter.js:156-207 | without headings the order is unchanged |
| Formatter.SlugifyIsSlug | src/utils/formatter.js:272-278 | a slug holds only lower-case word characters and single inner dashes, with no dash at either end |
| Formatter.SlugifyOfSlug | src/utils/formatter.js:272-278 | a slug is its own slug |
| Formatter.SlugifyIdempotent | src/utils/formatter.js:272-278 | slugifying twice equals slugifying once |
| Formatter.HeadingLevel | src/utils/formatter.js:263 | the level is at least 1, and it is the heading's own level when that is set |
| Formatter.TocEntries | src/utils/formatter.js:259-270 | there are no more entries than elements, and each entry is deeper than level 1 |
| Formatter.GenerateTableOfContents | src/utils/formatter.js:259-270 | the loop computes the specified entries |
| Formatter.TocEntriesExact | src/utils/formatter.js:259-270 | every entry comes from a text heading deeper than level 1, and every such heading gives an entry |
| Formatter.TocEntriesEmpty | src/utils/formatter.js:259-270 | there are no entries iff there is no text heading deeper than level 1 |
| Formatter.TocItems | src/utils/formatter.js:242-250 | one list item per entry, in order |
| Formatter.TocItemShape | src/utils/formatter.js:243-249 | each item is a `-` list item linking the entry's text to its slug; level 0 is stored as `null` |
| Formatter.AddTableOfContents | src/utils/formatter.js:224-257 | the loop computes the specified insertion |
| Formatter.NoDeepHeadingNoToc | src/utils/formatter.js:225-226 | without deep text headings the elements are returned unchanged |
| Formatter.TocLayout | src/utils/formatter.js:237-256 | without a leading title the output is the contents heading, a break, the items, a break, then the input |
| Formatter.TocLayoutTitled | src/utils/formatter.js:229-256 | with a level-1 or level-2 title first, the title and a break precede the contents block, and the rest follows it |
| Formatter.TocTitleMentionsToc | src/utils/formatter.js:280-284 | the inserted heading's text, lower-cased, contains `table of contents` |
| Formatter.WithTocHasToc | src/utils/formatter.js:224-284 | after a contents block is inserted, the elements have a table of contents |
| Formatter.TocStepHasToc | src/utils/formatter.js:45-47 | after the contents step, a contents heading exists iff one existed or some text heading is deeper than level 1 |
| Formatter.TocStepIdempotent | src/utils/formatter.js:45-47 | a second contents step changes nothing |
| Formatter.GetFormattingStats | src/utils/formatter.js:287-321 | the loops compute the specified statistics |
| Formatter.LongAmongLines | src/utils/formatter.js:299-305 | long lines are never more than all lines |
| Formatter.StatsBounds | src/utils/formatter.js:287-321 | long lines are at most the total, inconsistent markers at most the elements, and missing spacings fewer than the elements |
| Formatter.MarkersZero | src/utils/formatter.js:307-311 | no inconsistent markers are counted iff no list item has a marker other than `-` or a number and a dot |
| Formatter.GapsZero | src/utils/formatter.js:313-317 | no missing spacing is counted iff no adjacent pair needs a break |
| Formatter.NormalizedMarkersConsistent | src/utils/formatter.js:307-311 | after normalization, list items with valid markers report no inconsistent markers |
| Formatter.SpacedParagraphsReportGap | src/utils/formatter.js:313-317 | two paragraphs, once spacing has separated them with a break, still report one missing spacing |
| Formatter.SpacedLeavesNoGap | src/utils/formatter.js:53-100 | after spacing, no adjacent pair of non-break elements lacks a break |
| Formatter.IntendedGapsZero | src/utils/formatter.js:313-317 | the intended missing-spacing count is zero iff no adjacent pair of non-break elements needs a break |
| Formatter.IntendedWithinReported | src/utils/formatter.js:313-317 | the count as written is never below the intended count |
| Formatter.SpacedReportsNoIntendedGap | src/utils/formatter.js:53-68 | with the intended count, spaced output reports no missing spacing |
| Formatter.Format | src/utils/formatter.js:26-50 | `format` computes the specified pipeline |
| Formatter.FormatDefaults | src/utils/formatter.js:10-50 | with the default options, formatting is spacing, then marker normalization, then wrapping at 80 |
| Formatter.FormatOnlySorts | src/utils/formatter.js:26-50 | when only sorting may run, the output is a permutation of the input, and equal to it when sorting is off |
| Formatter.FormatKeepsLength | src/utils/formatter.js:26-44 | without spacing and contents, the length is kept |
| Formatter.FormatToc | src/utils/formatter.js:45-47 | with contents enabled, a contents heading exists iff it existed or a deep heading does, and a second contents step is a no-op |

## Left out

- Strings: whitespace is the ASCII set (space, tab, line feed, vertical tab, form feed, carriage return). JavaScript's `\s`, `trim` and `.` also cover Unicode spaces and the separators U+2028 and U+2029. `\w` and `toLowerCase` are ASCII only.
- Element types: `markdown-element-type.js` is not part of this model. The type names it defines are taken to agree with the strings the builders use. In particular, the footnote type that `toMarkdown` switches on is taken to be the builder's `footnote`.
- `src/index.js` and `index.d.ts` only re-export the classes and are not modelled.
- TableBuilder.Parse: requires at least two lines. With one line the source throws a `TypeError`, which the tokenizer models as the `OneLineTable` failure.
- MarkdownParser.ToMarkdown: requires that paragraphs have text content and tables have table content. For other elements the source calls string methods on the wrong kind of value and throws.
- Null coercions: metadata passed to builders as `null` or `undefined` is modelled as an absent option. Its JavaScript string forms, such as `null` in templates, are written out where they reach the output. Other objects reaching `String()` are not modelled.
- Formatter.Configure: options are a record of an integer and four booleans. Non-boolean option values and their JavaScript truthiness are not modelled.
- Formatter.SortedPermutes: only the permutation is proved. The order of elements inside a section and the first-appearance order of the remaining sections are defined but not stated as separate lemmas.
- Inline.ParseInline: the legacy alias only forwards to `parse`, so its contract is the forwarding itself.
- Inline.BuildInline: the legacy alias only forwards to `build`, so its contract is the forwarding itself.
- Inline: JavaScript regular-expression backtracking is modelled by the leftmost-match scans it amounts to for these patterns. A general round trip for arbitrary text is not claimed: it fails for nested markup (Inline.NestedDoesNotRoundTrip).
- Formatter.WrapText: the length is counted in characters of `seq<char>`, not in UTF-16 code units.

## Findings

| source | as written | input that shows it | evidently intended | confidence | as-written member | corrected member |
|---|---|---|---|---|---|---|
| src/utils/formatter.js:313-317 | `getFormattingStats` counts missing spacing for every pair whose second element is not a break. The pair of a break and the element after it counts too. | two paragraphs after `_normalizeSpacing`: paragraph, break, paragraph reports one missing spacing | only a pair of two non-break elements that spacing would separate counts, so normalized output reports none | medium, not executed | Formatter.SpacedParagraphsReportGap | Formatter.SpacedReportsNoIntendedGap |
